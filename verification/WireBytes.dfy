/** The bytes on the wire, one by one: what each frame and each packet begins
    with, and what a client reads out of a column packet. */
module WireBytes {
  import opened Wrappers
  import opened MysqlMessages
  import opened Framing
  import opened RowPackets
  import opened ResultSets

  // ---- headers ----

  /** The least significant byte comes first, and the id is the fourth byte. */
  lemma HeaderBytes(n: nat, id: nat)
    requires n < 0x100_0000
    ensures Header(n, id)
            == [(n % 256) as byte, (n / 256 % 256) as byte, (n / 0x1_0000) as byte, (id % 256) as byte]
  {
    ThreeLeBytes(n);
    assert n / 256 / 256 == n / 0x1_0000;
    assert n / 0x1_0000 < 256;
  }

  lemma ThreeLeBytes(n: nat)
    ensures LeBytes(n, 3) == [(n % 256) as byte, (n / 256 % 256) as byte, (n / 256 / 256 % 256) as byte]
  {
    var k := 3;
    assert LeBytes(n, k) == [(n % 256) as byte] + LeBytes(n / 256, k - 1);
    assert LeBytes(n / 256, k - 1) == [(n / 256 % 256) as byte] + LeBytes(n / 256 / 256, k - 2);
    assert LeBytes(n / 256 / 256, k - 2) == [(n / 256 / 256 % 256) as byte] + LeBytes(n / 256 / 256 / 256, k - 3);
  }

  /** Four header bytes at p: a size in three of them and an id in the fourth. */
  predicate HeaderAt(b: seq<byte>, p: nat, size: nat, id: nat) {
    && p + 4 <= |b|
    && b[p] as int + 256 * b[p + 1] as int + 65536 * b[p + 2] as int == size
    && b[p + 3] as int == id % 256
  }

  lemma HeaderIsAt(n: nat, id: nat, rest: seq<byte>)
    requires n < 0x100_0000
    ensures HeaderAt(Header(n, id) + rest, 0, n, id)
  {
    HeaderBytes(n, id);
    assert n / 256 == 256 * (n / 0x1_0000) + n / 256 % 256 by {
      assert n / 256 / 256 == n / 0x1_0000;
    }
  }

  lemma HeaderBehind(a: seq<byte>, b: seq<byte>, p: nat, size: nat, id: nat)
    ensures HeaderAt(a + b, |a| + p, size, id) <==> HeaderAt(b, p, size, id)
  {
  }

  /** The size of the i-th frame of a payload of n bytes. */
  function FrameSize(n: nat, i: nat, m: FrameLimit): nat {
    if i < n / m then m else n % m
  }

  /** Frame i of a payload begins at i * (m + 4) with its size and the id i
      further, modulo 256; behind that lie the payload's bytes from i * m on. */
  ghost predicate FrameIs(payload: seq<byte>, b: seq<byte>, id: nat, i: nat, m: FrameLimit) {
    var p, size := i * (m + 4), FrameSize(|payload|, i, m);
    && HeaderAt(b, p, size, id + i)
    && p + 4 + size <= |b| && i * m + size <= |payload|
    && b[p + 4..p + 4 + size] == payload[i * m..i * m + size]
  }

  /** The frames of a payload are one more than it has full ones, and every one of
      them is what it has to be. */
  lemma {:induction false} FrameAt(payload: seq<byte>, id: nat, i: nat, m: FrameLimit)
    requires i <= |payload| / m
    ensures FrameCount(|payload|, m) == |payload| / m + 1
    ensures |Frames(payload, id, m)| == |payload| + 4 * (|payload| / m + 1)
    ensures FrameIs(payload, Frames(payload, id, m), id, i, m)
    decreases |payload|
  {
    hide Header, HeaderAt;
    var n := |payload|;
    if n < m {
      SmallQuotient(n, m);
      HeaderIsAt(n, id, payload);
    } else {
      NextQuotient(n, m);
      FrameAt(payload[m..], id + 1, if i == 0 then 0 else i - 1, m);
      FrameOfRest(payload, id, i, m);
    }
  }

  /** The first of several frames, or one that lies in the frames behind it. */
  lemma FrameOfRest(payload: seq<byte>, id: nat, i: nat, m: FrameLimit)
    requires m <= |payload| && i <= |payload| / m && |payload| / m == (|payload| - m) / m + 1
    requires |payload| % m == (|payload| - m) % m
    requires i > 0 ==> FrameIs(payload[m..], Frames(payload[m..], id + 1, m), id + 1, i - 1, m)
    ensures FrameIs(payload, Frames(payload, id, m), id, i, m)
  {
    hide Header, HeaderAt, Frames, FrameSize, FrameIs;
    FramesFrom(payload, id, m);
    FrameSizeStep(|payload|, i, m);
    if i == 0 {
      FirstFrameIs(payload, id, m);
    } else {
      LaterFrameIs(payload, id, i, m);
    }
  }

  lemma FirstFrameIs(payload: seq<byte>, id: nat, m: FrameLimit)
    requires m <= |payload| && FrameSize(|payload|, 0, m) == m
    ensures FrameIs(payload, Frames(payload, id, m), id, 0, m)
  {
    hide Header, HeaderAt, Frames, FrameSize;
    FramesFrom(payload, id, m);
    HeaderIsAt(m, id, payload[..m] + Frames(payload[m..], id + 1, m));
    assert payload[0..m] == payload[..m];
  }

  lemma LaterFrameIs(payload: seq<byte>, id: nat, i: nat, m: FrameLimit)
    requires m <= |payload| && 0 < i && FrameSize(|payload|, i, m) == FrameSize(|payload| - m, i - 1, m)
    requires FrameIs(payload[m..], Frames(payload[m..], id + 1, m), id + 1, i - 1, m)
    ensures FrameIs(payload, Frames(payload, id, m), id, i, m)
  {
    hide Header, HeaderAt, Frames, FrameSize;
    var more := Frames(payload[m..], id + 1, m);
    FramesFrom(payload, id, m);
    var first, size := Header(m, id) + payload[..m], FrameSize(|payload|, i, m);
    HeaderBehind(first, more, (i - 1) * (m + 4), size, id + i);
    ShiftedFrame(payload, first, more, i, size, m);
  }

  lemma FrameSizeStep(n: nat, i: nat, m: FrameLimit)
    requires m <= n && n / m == (n - m) / m + 1 && n % m == (n - m) % m && i <= n / m
    ensures if i == 0 then FrameSize(n, i, m) == m else FrameSize(n, i, m) == FrameSize(n - m, i - 1, m)
  {
  }

  lemma FramesFrom(payload: seq<byte>, id: nat, m: FrameLimit)
    requires |payload| >= m
    ensures var more := Frames(payload[m..], id + 1, m);
            && Frames(payload, id, m) == Header(m, id) + (payload[..m] + more)
            && Frames(payload, id, m) == Header(m, id) + payload[..m] + more
            && Frames(payload, id, m)[4..4 + m] == payload[..m]
  {
    hide Header;
  }

  lemma SmallQuotient(n: nat, m: nat)
    requires n < m
    ensures n / m == 0 && n % m == n
  {
  }

  lemma NextQuotient(n: nat, m: nat)
    requires 0 < m <= n
    ensures n / m == (n - m) / m + 1 && n % m == (n - m) % m
  {
    var q, r := (n - m) / m, (n - m) % m;
    assert n == m * (q + 1) + r;
    Quotient(n, m, q + 1, r);
  }

  lemma Quotient(n: nat, m: nat, q: nat, r: nat)
    requires n == m * q + r && r < m
    ensures n / m == q && n % m == r
  {
    var a := n / m;
    assert n == m * a + n % m;
    Distribute(m, a, q);
    NoMultiple(m, a - q);
  }

  lemma Distribute(m: nat, a: nat, q: nat)
    ensures m * (a - q) == m * a - m * q
  {
  }

  lemma NoMultiple(m: int, d: int)
    requires 0 < m && -m < m * d < m
    ensures d == 0
  {
    if d > 0 {
      Times(m, d);
    }
  }

  lemma Times(m: nat, d: nat)
    requires d > 0
    ensures m * d >= m
  {
    Distribute(m, d, 1);
  }

  lemma ShiftedFrame(payload: seq<byte>, first: seq<byte>, more: seq<byte>, i: nat, size: nat, m: nat)
    requires i > 0 && |first| == m + 4 && m <= |payload|
    requires (i - 1) * (m + 4) + 4 + size <= |more| && (i - 1) * m + size <= |payload| - m
    requires more[(i - 1) * (m + 4) + 4..(i - 1) * (m + 4) + 4 + size]
             == payload[m..][(i - 1) * m..(i - 1) * m + size]
    ensures i * (m + 4) == |first| + (i - 1) * (m + 4) && i * m == m + (i - 1) * m
    ensures (first + more)[i * (m + 4) + 4..i * (m + 4) + 4 + size] == payload[i * m..i * m + size]
  {
    OneLess(i, m + 4);
    OneLess(i, m);
    ShiftedSlice(payload, first, more, (i - 1) * (m + 4), (i - 1) * m, size, m);
  }

  lemma OneLess(i: nat, m: nat)
    requires i > 0
    ensures i * m == m + (i - 1) * m
  {
  }

  lemma ShiftedSlice(payload: seq<byte>, first: seq<byte>, more: seq<byte>, a: nat, b: nat, size: nat, m: nat)
    requires |first| == m + 4 && m <= |payload| && a + 4 + size <= |more| && b + size <= |payload| - m
    requires more[a + 4..a + 4 + size] == payload[m..][b..b + size]
    ensures (first + more)[m + 4 + a + 4..m + 4 + a + 4 + size] == payload[m + b..m + b + size]
  {
    assert (first + more)[m + 4 + a + 4..m + 4 + a + 4 + size] == more[a + 4..a + 4 + size];
  }

  /** The bytes of the packets before the k-th one. */
  function LengthBefore(payloads: seq<Bytes>, k: nat): nat
    requires k <= |payloads|
  {
    4 * k + |Concat(payloads[..k])|
  }

  /** The k-th packet of a stream begins behind the packets before it with its own
      size and the id k further, modulo 256, and its payload follows. */
  lemma {:induction false} PacketAt(payloads: seq<Bytes>, id: nat, k: nat)
    requires k < |payloads| && |payloads[k]| < 0x100_0000
    ensures HeaderAt(Stream(payloads, id), LengthBefore(payloads, k), |payloads[k]|, id + k)
    ensures var p := LengthBefore(payloads, k) + 4;
            p + |payloads[k]| <= |Stream(payloads, id)| && Stream(payloads, id)[p..p + |payloads[k]|] == payloads[k]
    decreases k
  {
    hide Header, HeaderAt, Concat;
    var first, others := payloads[0], payloads[1..];
    var more := Stream(others, id + 1);
    assert Stream(payloads, id) == PacketOf(first, id) + more;
    if k == 0 {
      NothingBefore(payloads);
      HeaderIsAt(|first|, id, first + more);
      assert PacketOf(first, id) + more == Header(|first|, id) + (first + more);
    } else {
      PacketAt(others, id + 1, k - 1);
      FirstBefore(payloads, k);
      var p := LengthBefore(others, k - 1);
      HeaderBehind(PacketOf(first, id), more, p, |payloads[k]|, id + k);
      var a := |PacketOf(first, id)|;
      assert (PacketOf(first, id) + more)[a + p + 4..a + p + 4 + |payloads[k]|] == more[p + 4..p + 4 + |payloads[k]|];
    }
  }

  lemma NothingBefore(payloads: seq<Bytes>)
    ensures LengthBefore(payloads, 0) == 0
  {
  }

  lemma FirstBefore(payloads: seq<Bytes>, k: nat)
    requires 0 < k <= |payloads|
    ensures LengthBefore(payloads, k) == 4 + |payloads[0]| + LengthBefore(payloads[1..], k - 1)
  {
    assert payloads[..k][1..] == payloads[1..][..k - 1];
  }

  // ---- lengths and values ----

  /** A length below 251 is its own byte; above stand 252, 253 or 254 and two,
      three or eight bytes. */
  lemma LengthBytes(n: nat)
    ensures n < 251 ==> LengthEncoded(n) == [n as byte]
    ensures 251 <= n < 0x1_0000 ==> LengthEncoded(n) == [252, (n % 256) as byte, (n / 256) as byte]
    ensures 0x1_0000 <= n < 0x100_0000 ==>
              LengthEncoded(n) == [253, (n % 256) as byte, (n / 256 % 256) as byte, (n / 0x1_0000) as byte]
    ensures 0x100_0000 <= n ==> |LengthEncoded(n)| == 9 && LengthEncoded(n)[0] == 254
  {
    if 251 <= n < 0x1_0000 {
      var k := 2;
      assert LeBytes(n, k) == [(n % 256) as byte] + LeBytes(n / 256, k - 1);
      assert LeBytes(n / 256, k - 1) == [(n / 256 % 256) as byte] + LeBytes(n / 256 / 256, k - 2);
    } else if 0x1_0000 <= n < 0x100_0000 {
      ThreeLeBytes(n);
      assert n / 256 / 256 == n / 0x1_0000;
    }
  }

  /** What every first byte of a length means to the reader: 251 is NULL, 252 and 254
      ask for bytes that have to be there, 253 reads zeros past the end, and any other
      byte, 255 with them, is a length of its own. */
  lemma LengthReads(b: seq<byte>, p: nat)
    requires p < |b|
    ensures b[p] !in {251, 252, 253, 254} ==> LengthAt(b, p) == Ok((b[p] as int, p + 1))
    ensures b[p] == 251 ==> LengthAt(b, p) == Ok((-1, p + 1))
    ensures b[p] == 252 ==>
              LengthAt(b, p) == if p + 3 > |b| then Err(OutOfRange)
                                else Ok((b[p + 1] as int + 256 * b[p + 2] as int, p + 3))
    ensures b[p] == 253 && p + 4 <= |b| ==>
              LengthAt(b, p) == Ok((b[p + 1] as int + 256 * b[p + 2] as int + 65536 * b[p + 3] as int, p + 4))
    ensures b[p] == 254 ==> (LengthAt(b, p).Err? <==> p + 9 > |b|)
    ensures b[p] == 254 && p + 9 <= |b| ==>
              var (n, q) := LengthAt(b, p).value;
              && q == p + 9 && -INT64_LIMIT <= n < INT64_LIMIT && (n >= 0 <==> b[p + 8] < 128)
              && (n >= 0 ==> n == UInt64At(b, p + 1)) && (n < 0 ==> n + 2 * INT64_LIMIT == UInt64At(b, p + 1))
  {
    if b[p] == 254 && p + 9 <= |b| {
      HighByte(b, p + 1);
    }
  }

  lemma HighByte(b: seq<byte>, p: nat)
    requires p + 8 <= |b|
    ensures 0 <= UInt64At(b, p) < 2 * INT64_LIMIT
    ensures UInt64At(b, p) < INT64_LIMIT <==> b[p + 7] < 128
  {
    var low := Int32At(b, p) + 0x1_0000_0000 * Int16At(b, p + 4) + 0x1_0000_0000_0000 * b[p + 6] as int;
    assert UInt64At(b, p) == low + 0x100_0000_0000_0000 * b[p + 7] as int;
    assert 0 <= low < 0x100_0000_0000_0000;
  }

  /** A value is NULL for the length -1, empty for any other length below 1, and has
      otherwise exactly the bytes its length says, which have to be there. */
  lemma ValueReads(b: seq<byte>, p: nat)
    ensures LengthAt(b, p).Err? ==> ColumnAt(b, p) == Err(LengthAt(b, p).error)
    ensures LengthAt(b, p).Ok? ==>
              var (n, q) := LengthAt(b, p).value;
              && (n == -1 ==> ColumnAt(b, p) == Ok((None, q)))
              && (n != -1 && n <= 0 ==> ColumnAt(b, p) == Ok((Some([]), q)))
              && (n > 0 && q + n > |b| ==> ColumnAt(b, p) == Err(OutOfRange))
              && (n > 0 && q + n <= |b| ==> ColumnAt(b, p) == Ok((Some(b[q..q + n]), q + n)))
  {
    hide LengthAt;
  }

  /** NULL is the byte 251, an empty value the byte 0, any other value its length
      and its bytes. */
  lemma ValueBytes(v: Column)
    ensures v == None ==> ColumnBytes(v) == [251]
    ensures v == Some([]) ==> ColumnBytes(v) == [0]
    ensures v.Some? && 0 < |v.value| < 251 ==> ColumnBytes(v) == [|v.value| as byte] + v.value
  {
    if v.Some? {
      LengthBytes(|v.value|);
    }
  }

  // ---- the packets of a result set ----

  /** A text as it arrives: a missing one is empty. */
  function Text(b: Option<Bytes>): Column {
    if b.Some? then b else Some([])
  }

  function ColumnTexts(f: Field): seq<Column> {
    [Text(f.catalog), Text(f.db), Text(f.table), Text(f.orgTable), Text(f.name), Text(f.orgName)]
  }

  ghost predicate ShortTexts(f: Field) {
    forall b | b in [f.catalog, f.db, f.table, f.orgTable, f.name, f.orgName, f.definition] ::
      b.Some? ==> |b.value| < INT64_LIMIT
  }

  lemma CountedIsColumn(b: Option<Bytes>)
    ensures Counted(b) == ColumnBytes(Text(b))
  {
    if b == Some([]) {
      LengthBytes(0);
      assert [0 as byte] + [] == [0];
    }
  }

  /** The values of a row, encoded one by one. */
  function Encoded(row: seq<Column>): (r: seq<Bytes>)
    ensures |r| == |row| && forall i | 0 <= i < |row| :: r[i] == ColumnBytes(row[i])
  {
    seq(|row|, i requires 0 <= i < |row| => ColumnBytes(row[i]))
  }

  lemma {:induction false} EncodedJoin(row: seq<Column>, more: seq<Bytes>)
    ensures Concat(Encoded(row) + more) == RowBytes(row) + Concat(more)
    decreases |row|
  {
    hide ColumnBytes, Concat, RowBytes;
    if row == [] {
      NoRow(row);
      assert Encoded(row) + more == more && [] + Concat(more) == Concat(more);
    } else {
      RowFirst(row);
      ConcatFirst(Encoded(row) + more);
      EncodedJoin(row[1..], more);
      assert (Encoded(row) + more)[1..] == Encoded(row[1..]) + more;
      Regroup(ColumnBytes(row[0]), RowBytes(row[1..]), Concat(more));
    }
  }

  lemma NoRow(row: seq<Column>)
    requires row == []
    ensures RowBytes(row) == []
  {
  }

  lemma RowFirst(row: seq<Column>)
    requires row != []
    ensures RowBytes(row) == ColumnBytes(row[0]) + RowBytes(row[1..])
  {
  }

  lemma Regroup(a: Bytes, b: Bytes, c: Bytes)
    ensures a + (b + c) == a + b + c
  {
  }

  lemma PartsAreEncoded(f: Field, charset: nat, last: Bytes)
    requires last == if f.definition.Some? then Counted(f.definition) else []
    ensures FieldParts(f, charset) == Encoded(ColumnTexts(f)) + [FixedPart(f, charset), last]
  {
    hide FixedPart, ColumnBytes, Counted, Text;
    CountedIsColumn(f.catalog);
    CountedIsColumn(f.db);
    CountedIsColumn(f.table);
    CountedIsColumn(f.orgTable);
    CountedIsColumn(f.name);
    CountedIsColumn(f.orgName);
  }

  /** The texts of a column are laid out like the columns of a row, and the fixed
      part and the default value follow. */
  lemma ColumnLayout(f: Field, charset: nat)
    ensures Concat(FieldParts(f, charset))
            == RowBytes(ColumnTexts(f))
               + (FixedPart(f, charset) + if f.definition.Some? then Counted(f.definition) else [])
  {
    hide FixedPart, Counted, FieldParts, RowBytes, Concat, ColumnTexts;
    var last := if f.definition.Some? then Counted(f.definition) else [];
    var more := [FixedPart(f, charset), last];
    PartsAreEncoded(f, charset, last);
    EncodedJoin(ColumnTexts(f), more);
    ConcatFirst(more);
    ConcatFirst(more[1..]);
    ConcatNone(more[1..][1..]);
    assert more[1..] == [last] && last + [] == last;
  }

  lemma ConcatFirst(parts: seq<Bytes>)
    requires parts != []
    ensures Concat(parts) == parts[0] + Concat(parts[1..])
  {
  }

  lemma ConcatNone(parts: seq<Bytes>)
    requires parts == []
    ensures Concat(parts) == []
  {
  }

  /** The byte 0x0c, character set, width, type, flags, decimals and two zeros. */
  predicate FixedAt(b: Bytes, p: nat, f: Field, charset: nat)
    requires p + 13 <= |b|
  {
    && b[p] == 0x0c
    && Int16At(b, p + 1) == charset % 0x1_0000
    && Int32At(b, p + 3) == f.width % 0x1_0000_0000
    && b[p + 7] == f.typ
    && Int16At(b, p + 8) == f.flags % 0x1_0000
    && b[p + 10] == f.decimals
    && b[p + 11] == 0 && b[p + 12] == 0
  }

  /** What a client reads out of a column packet: catalog, database, table,
      original table, name and original name, then the fixed part, then the default
      value if there is one. */
  lemma ColumnPacketReads(f: Field, charset: nat)
    requires ShortTexts(f)
    ensures var b := Concat(FieldParts(f, charset));
            RowAt(b, 0, 6).Ok?
            && var (texts, p) := RowAt(b, 0, 6).value;
               && texts == ColumnTexts(f)
               && p + 13 <= |b|
               && FixedAt(b, p, f, charset)
               && match f.definition
                  case None => |b| == p + 13
                  case Some(_) => ColumnAt(b, p + 13) == Ok((f.definition, |b|))
  {
    hide FieldParts, FixedPart, FixedAt, ColumnTexts, Concat, Counted, RowBytes, RowAt, ColumnAt, Encodable, ShortTexts;
    var b := Concat(FieldParts(f, charset));
    var last := if f.definition.Some? then Counted(f.definition) else [];
    var texts := ColumnTexts(f);
    ColumnLayout(f, charset);
    ThreeAt(b, RowBytes(texts), FixedPart(f, charset), last);
    TextsEncodable(f);
    RowRoundTrip(b, 0, texts);
    FixedReads(b, |RowBytes(texts)|, f, charset);
    DefinitionReads(b, |RowBytes(texts)| + 13, f);
  }

  lemma ThreeAt(b: Bytes, x: Bytes, y: Bytes, z: Bytes)
    requires b == x + (y + z)
    ensures var p, q := |x|, |x| + |y|;
            b[0..p] == x && b[p..q] == y && b[q..q + |z|] == z && q + |z| == |b|
  {
  }

  lemma DefinitionReads(b: Bytes, p: nat, f: Field)
    requires ShortTexts(f)
    requires var last := if f.definition.Some? then Counted(f.definition) else [];
             p + |last| == |b| && b[p..p + |last|] == last
    ensures f.definition == None ==> |b| == p
    ensures f.definition.Some? ==> ColumnAt(b, p) == Ok((f.definition, |b|))
  {
    hide ColumnAt, ColumnBytes, Counted;
    if f.definition.Some? {
      CountedIsColumn(f.definition);
      TextsEncodable(f);
      ColumnRoundTripAt(b, p, f.definition);
    }
  }

  lemma TextsEncodable(f: Field)
    requires ShortTexts(f)
    ensures |ColumnTexts(f)| == 6 && Encodable(ColumnTexts(f))
    ensures f.definition.Some? ==> |f.definition.value| < INT64_LIMIT && Text(f.definition) == f.definition
  {
  }

  lemma SubSlice(b: Bytes, p: nat, n: nat, i: nat, j: nat)
    requires i <= j <= n && p + n <= |b|
    ensures b[p..p + n][i..j] == b[p + i..p + j]
  {
    var x, y := b[p..p + n][i..j], b[p + i..p + j];
    assert forall k | 0 <= k < j - i :: x[k] == y[k];
  }

  lemma FixedReads(b: Bytes, p: nat, f: Field, charset: nat)
    requires p + 13 <= |b| && b[p..p + 13] == FixedPart(f, charset)
    ensures FixedAt(b, p, f, charset)
  {
    hide LeBytes, Int16At, Int32At;
    var c, w, g := LeBytes(charset, 2), LeBytes(f.width, 4), LeBytes(f.flags, 2);
    var fixed := b[p..p + 13];
    assert fixed == [0x0c] + c + w + [f.typ] + g + [f.decimals] + [0, 0];
    assert fixed[1..3] == c && fixed[3..7] == w && fixed[8..10] == g;
    SubSlice(b, p, 13, 1, 3);
    SubSlice(b, p, 13, 3, 7);
    SubSlice(b, p, 13, 8, 10);
    Int16RoundTrip(b, p + 1, charset, 2);
    Int32RoundTrip(b, p + 3, f.width, 4);
    Int16RoundTrip(b, p + 8, f.flags, 2);
    assert forall i | 0 <= i < 13 :: b[p + i] == fixed[i];
    assert b[p] == fixed[0] && b[p + 7] == fixed[7] && b[p + 10] == fixed[10] && b[p + 11] == fixed[11];
    assert b[p + 12] == fixed[12];
  }

  /** The first packet is the number of columns; both end markers are the same five
      bytes; between them stand the columns and the rows, each in its place. */
  lemma PayloadsRead(fields: seq<Field>, charset: nat, rows: seq<seq<Column>>)
    requires |fields| < INT64_LIMIT
    ensures var payloads, n := Payloads(fields, charset, rows), |fields|;
            && |payloads| == n + |rows| + 3
            && LengthAt(payloads[0], 0) == Ok((n, |payloads[0]|))
            && (forall i | 0 <= i < n :: payloads[1 + i] == Concat(FieldParts(fields[i], charset)))
            && payloads[1 + n] == [0xfe, 0, 0, 2, 0]
            && (forall i | 0 <= i < |rows| :: payloads[2 + n + i] == RowBytes(OrNull(rows[i])))
            && payloads[2 + n + |rows|] == [0xfe, 0, 0, 2, 0]
  {
    hide Concat, FieldParts, HeaderParts, EofParts, RowBytes, OrNull, LengthAt;
    FieldCount(fields, charset);
    RowCount(rows);
    HeaderReads(|fields|);
    EofReads();
    forall i | 0 <= i < |fields| ensures FieldPayloads(fields, charset)[i] == Concat(FieldParts(fields[i], charset)) {
      FieldPayloadAt(fields, charset, i);
    }
    forall i | 0 <= i < |rows| ensures RowPayloads(rows)[i] == RowBytes(OrNull(rows[i])) {
      RowPayloadAt(rows, i);
    }
  }

  lemma HeaderReads(n: nat)
    requires n < INT64_LIMIT
    ensures var b := Concat(HeaderParts(n, 0)); LengthAt(b, 0) == Ok((n, |b|))
  {
    hide LengthEncoded, LengthAt;
    var parts := HeaderParts(n, 0);
    ConcatFirst(parts);
    ConcatFirst(parts[1..]);
    ConcatNone(parts[1..][1..]);
    assert Concat(parts) == [] + LengthEncoded(n) + [];
    LengthRoundTrip([], n, []);
  }

  lemma EofReads()
    ensures Concat(EofParts()) == [0xfe, 0, 0, 2, 0]
  {
    var parts := EofParts();
    ConcatFirst(parts);
    ConcatFirst(parts[1..]);
    ConcatFirst(parts[1..][1..]);
    ConcatNone(parts[1..][1..][1..]);
    TwoLeBytes(0);
    TwoLeBytes(2);
  }

  lemma TwoLeBytes(n: nat)
    ensures LeBytes(n, 2) == [(n % 256) as byte, (n / 256 % 256) as byte]
  {
    var k := 2;
    assert LeBytes(n, k) == [(n % 256) as byte] + LeBytes(n / 256, k - 1);
    assert LeBytes(n / 256, k - 1) == [(n / 256 % 256) as byte] + LeBytes(n / 256 / 256, k - 2);
  }

  lemma {:induction false} FieldPayloadAt(fields: seq<Field>, charset: nat, i: nat)
    requires i < |fields|
    ensures |FieldPayloads(fields, charset)| == |fields|
    ensures FieldPayloads(fields, charset)[i] == Concat(FieldParts(fields[i], charset))
  {
    hide Concat, FieldParts;
    FieldCount(fields, charset);
    if i > 0 {
      FieldPayloadAt(fields[1..], charset, i - 1);
    }
  }

  /** A value that is missing or empty is sent as NULL; any other is itself. */
  lemma {:induction false} OrNullAt(row: seq<Column>, i: nat)
    requires i < |row|
    ensures |OrNull(row)| == |row|
    ensures OrNull(row)[i] == if row[i] == None || row[i] == Some([]) then None else row[i]
  {
    OrNullLength(row);
    if i > 0 {
      OrNullAt(row[1..], i - 1);
    }
  }
}
