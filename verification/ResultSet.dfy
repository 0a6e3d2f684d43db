/** The text result set a query answers with: a header packet, a packet for each
    column, an end marker, a packet for each row and another end marker, written
    one behind the other into the write buffer and sent at once. */
module ResultSets {
  import opened Wrappers
  import opened MysqlMessages
  import opened Framing
  import opened RowPackets

  // ---- a stream of packets ----

  function PacketOf(payload: Bytes, id: nat): (r: Bytes)
    ensures |r| == 4 + |payload|
  {
    Header(|payload|, id) + payload
  }

  /** Packets with consecutive sequence ids. */
  function Stream(payloads: seq<Bytes>, id: nat): Bytes {
    if payloads == [] then [] else PacketOf(payloads[0], id) + Stream(payloads[1..], id + 1)
  }

  lemma {:induction false} StreamAppend(a: seq<Bytes>, b: seq<Bytes>, id: nat)
    ensures Stream(a + b, id) == Stream(a, id) + Stream(b, id + |a|)
    decreases |a|
  {
    hide PacketOf;
    if a == [] {
      assert a + b == b;
    } else {
      assert (a + b)[1..] == a[1..] + b;
      StreamAppend(a[1..], b, id + 1);
    }
  }

  /** The length of a stream does not depend on the ids. */
  function StreamLength(payloads: seq<Bytes>): nat {
    if payloads == [] then 0 else 4 + |payloads[0]| + StreamLength(payloads[1..])
  }

  lemma {:induction false} StreamLengthIs(payloads: seq<Bytes>, id: nat)
    ensures |Stream(payloads, id)| == StreamLength(payloads)
    decreases |payloads|
  {
    hide PacketOf;
    if payloads != [] {
      StreamLengthIs(payloads[1..], id + 1);
    }
  }

  lemma {:induction false} StreamLengthAppend(a: seq<Bytes>, b: seq<Bytes>)
    ensures StreamLength(a + b) == StreamLength(a) + StreamLength(b)
  {
    if a == [] {
      assert a + b == b;
    } else {
      assert (a + b)[1..] == a[1..] + b;
      StreamLengthAppend(a[1..], b);
    }
  }

  /** Reads packets one after the other. */
  function ReadStream(input: Bytes, count: nat, m: FrameLimit, limit: nat): Option<(seq<Bytes>, Bytes)>
    decreases count
  {
    if count == 0 then Some(([], input))
    else
      match ReadFrames(input, 0, m, limit)
      case Packet(payload, rest) =>
        (match ReadStream(rest, count - 1, m, limit)
         case Some(more) => Some(([payload] + more.0, more.1))
         case None => None)
      case _ => None
  }

  /** A stream of packets that do not fill a frame is read back packet by packet. */
  lemma {:induction false} StreamRoundTrip(payloads: seq<Bytes>, id: nat, rest: Bytes, m: FrameLimit, limit: nat)
    requires forall i | 0 <= i < |payloads| :: |payloads[i]| < m && |payloads[i]| <= limit
    ensures ReadStream(Stream(payloads, id) + rest, |payloads|, m, limit) == Some((payloads, rest))
    decreases |payloads|
  {
    if payloads == [] {
      assert [] + rest == rest;
    } else {
      hide Header, ReadFrames;
      var first, others := payloads[0], payloads[1..];
      var behind := Stream(others, id + 1) + rest;
      assert Frames(first, id, m) == PacketOf(first, id);
      assert Stream(payloads, id) + rest == PacketOf(first, id) + behind;
      FramesRoundTrip(first, id, behind, 0, m, limit);
      assert forall i | 0 <= i < |others| :: others[i] == payloads[i + 1];
      StreamRoundTrip(others, id + 1, rest, m, limit);
      assert payloads == [first] + others;
    }
  }

  // ---- payloads, as the parts that are written one by one ----

  /** A column as it is described to the client. */
  datatype Field = Field(
    catalog: Option<Bytes>, db: Option<Bytes>, table: Option<Bytes>, orgTable: Option<Bytes>,
    name: Option<Bytes>, orgName: Option<Bytes>,
    width: nat, typ: byte, flags: nat, decimals: byte, definition: Option<Bytes>)

  /** Bytes with their length in front; none are a single zero byte. */
  function Counted(b: Option<Bytes>): Bytes {
    if b.Some? then LengthEncoded(|b.value|) + b.value else [0]
  }

  /** Filler, character set, length, type, flags, decimals and filler. */
  function FixedPart(f: Field, charset: nat): (r: Bytes)
    ensures |r| == 13
  {
    [0x0c] + LeBytes(charset, 2) + LeBytes(f.width, 4) + [f.typ] + LeBytes(f.flags, 2) + [f.decimals] + [0, 0]
  }

  /** Catalog, database, table, original table, name, original name, the fixed part
      and the default value where there is one. */
  function FieldParts(f: Field, charset: nat): seq<Bytes> {
    [Counted(f.catalog), Counted(f.db), Counted(f.table), Counted(f.orgTable), Counted(f.name), Counted(f.orgName),
     FixedPart(f, charset), if f.definition.Some? then Counted(f.definition) else []]
  }

  function EofParts(): seq<Bytes> {
    [[0xfe], LeBytes(0, 2), LeBytes(2, 2)]
  }

  /** The number of columns, and the extra number when it is not 0. */
  function HeaderParts(fieldCount: nat, extra: nat): seq<Bytes> {
    [LengthEncoded(fieldCount), if extra > 0 then LengthEncoded(extra) else []]
  }

  function FieldPayloads(fields: seq<Field>, charset: nat): seq<Bytes> {
    if fields == [] then [] else [Concat(FieldParts(fields[0], charset))] + FieldPayloads(fields[1..], charset)
  }

  /** A value that is missing or empty is sent as NULL. */
  function OrNull(row: seq<Column>): seq<Column> {
    if row == [] then []
    else [if row[0] == Some([]) then None else row[0]] + OrNull(row[1..])
  }

  /** NULL and empty are kept apart exactly when no value is empty. */
  lemma {:induction false} OrNullKeepsIff(row: seq<Column>)
    ensures OrNull(row) == row <==> forall i | 0 <= i < |row| :: row[i] != Some([])
  {
    if row != [] {
      OrNullKeepsIff(row[1..]);
      assert row == [row[0]] + row[1..];
      if OrNull(row) == row {
        assert OrNull(row)[1..] == OrNull(row[1..]) && OrNull(row)[0] == row[0];
        assert forall i | 0 < i < |row| :: row[i] == row[1..][i - 1];
      } else if row[0] != Some([]) {
        assert OrNull(row[1..]) != row[1..];
        var i :| 0 <= i < |row[1..]| && row[1..][i] == Some([]);
        assert row[i + 1] == Some([]);
      }
    }
  }

  function RowPayloads(rows: seq<seq<Column>>): seq<Bytes> {
    if rows == [] then [] else [RowBytes(OrNull(rows[0]))] + RowPayloads(rows[1..])
  }

  /** All packets up to the first end marker. */
  function HeadPayloads(fields: seq<Field>, charset: nat): seq<Bytes> {
    [Concat(HeaderParts(|fields|, 0))] + FieldPayloads(fields, charset) + [Concat(EofParts())]
  }

  function Payloads(fields: seq<Field>, charset: nat, rows: seq<seq<Column>>): seq<Bytes> {
    HeadPayloads(fields, charset) + RowPayloads(rows) + [Concat(EofParts())]
  }

  // ---- writing one packet ----

  /** Writes parts one behind the other into a buffer that has the room. */
  method PutParts(conn: FrontConn, parts: seq<Bytes>, offset: nat) returns (p: nat)
    requires offset + |Concat(parts)| <= conn.buffer.Length
    modifies conn.buffer
    ensures p == offset + |Concat(parts)| && conn.Emitted(p) == old(conn.Emitted(offset)) + Concat(parts)
  {
    p := offset;
    assert parts[0..] == parts;
    ghost var start := conn.Emitted(offset);
    for i := 0 to |parts|
      invariant p + |Concat(parts[i..])| == offset + |Concat(parts)|
      invariant conn.Emitted(p) + Concat(parts[i..]) == start + Concat(parts)
    {
      ghost var before := conn.Emitted(p);
      assert parts[i..][1..] == parts[i + 1..];
      var r := conn.Put(parts[i], p);
      assert before + (parts[i] + Concat(parts[i + 1..])) == before + parts[i] + Concat(parts[i + 1..]);
      p := r.value;
    }
    assert conn.Emitted(p) + [] == conn.Emitted(p);
  }

  /** The shape of every `write` here: make room for the declared length, write
      the header, then the parts. */
  method WritePacket(conn: FrontConn, parts: seq<Bytes>, declared: nat, id: nat, offset: nat) returns (p: nat)
    requires offset <= conn.buffer.Length && declared == |Concat(parts)|
    modifies conn, conn.buffer
    ensures conn.buffer == old(conn.buffer) || fresh(conn.buffer)
    ensures p == offset + 4 + declared <= conn.buffer.Length && conn.sent == old(conn.sent)
    ensures conn.buffer.Length == if old(conn.buffer.Length) < p then p else old(conn.buffer.Length)
    ensures conn.Emitted(p) == old(conn.Emitted(offset)) + PacketOf(Concat(parts), id)
  {
    hide Header, Concat;
    ghost var start := conn.Emitted(offset);
    conn.EnsureWriteBuffer(offset + 4 + declared);
    var r := conn.Put(Header(declared, id), offset);
    p := PutParts(conn, parts, r.value);
    assert start + Header(declared, id) + Concat(parts) == start + (Header(declared, id) + Concat(parts));
  }

  // ---- the packets of a result set ----

  lemma Step(parts: seq<Bytes>)
    requires parts != []
    ensures |Concat(parts)| == |parts[0]| + |Concat(parts[1..])|
  {
  }

  /** The bytes a value takes with its length, or the one byte of a missing one. */
  method CountedLength(b: Option<Bytes>) returns (n: nat)
    ensures n == |Counted(b)|
  {
    n := if b.Some? then LengthEncodedOf(|b.value|) + |b.value| else 1;
  }

  /** `calcPayloadLength` of a field packet counts the bytes that are written. */
  method FieldLength(f: Field, charset: nat) returns (n: nat)
    ensures n == |Concat(FieldParts(f, charset))|
  {
    hide LengthEncoded, LengthEncodedOf, FixedPart, Concat, Counted;
    n := CountedLength(f.catalog);
    var size := CountedLength(f.db);
    n := n + size;
    size := CountedLength(f.table);
    n := n + size;
    size := CountedLength(f.orgTable);
    n := n + size;
    size := CountedLength(f.name);
    n := n + size;
    size := CountedLength(f.orgName);
    n := n + size;
    n := n + 13;
    if f.definition.Some? {
      size := CountedLength(f.definition);
      n := n + size;
    }
    EightParts(FieldParts(f, charset));
  }

  lemma EightParts(parts: seq<Bytes>)
    requires |parts| == 8
    ensures |Concat(parts)| == |parts[0]| + |parts[1]| + |parts[2]| + |parts[3]| + |parts[4]| + |parts[5]| + |parts[6]|
                               + |parts[7]|
  {
    hide Concat;
    Step(parts);
    Step(parts[1..]);
    Step(parts[1..][1..]);
    Step(parts[1..][1..][1..]);
    Step(parts[1..][1..][1..][1..]);
    Step(parts[1..][1..][1..][1..][1..]);
    Step(parts[1..][1..][1..][1..][1..][1..]);
    Step(parts[1..][1..][1..][1..][1..][1..][1..]);
    NoParts(parts[1..][1..][1..][1..][1..][1..][1..][1..]);
  }

  lemma NoParts(parts: seq<Bytes>)
    requires parts == []
    ensures |Concat(parts)| == 0
  {
  }

  method EofLength() returns (n: nat)
    ensures n == |Concat(EofParts())|
  {
    n := 5;
    hide Concat;
    var parts := EofParts();
    Step(parts);
    Step(parts[1..]);
    Step(parts[1..][1..]);
    NoParts(parts[1..][1..][1..]);
  }

  method HeaderLength(fieldCount: nat, extra: nat) returns (n: nat)
    ensures n == |Concat(HeaderParts(fieldCount, extra))|
  {
    n := LengthEncodedOf(fieldCount);
    if extra > 0 {
      n := n + LengthEncodedOf(extra);
    }
    hide Concat, LengthEncoded;
    var parts := HeaderParts(fieldCount, extra);
    Step(parts);
    Step(parts[1..]);
    NoParts(parts[1..][1..]);
  }

  // ---- the whole stream ----

  /** What a stream written so far looks like: the buffer holds the packets, the
      next id is counted, and nothing was sent. */
  ghost predicate Written(conn: FrontConn, start: Bytes, payloads: seq<Bytes>, p: nat, next: nat)
    reads conn, conn.buffer
  {
    && p <= conn.buffer.Length && next == 1 + |payloads| && p == StreamLength(payloads)
    && conn.Emitted(p) == start + Stream(payloads, 1)
  }

  lemma WrittenMore(start: Bytes, payloads: seq<Bytes>, more: Bytes)
    ensures start + Stream(payloads, 1) + PacketOf(more, 1 + |payloads|) == start + Stream(payloads + [more], 1)
    ensures StreamLength(payloads + [more]) == StreamLength(payloads) + 4 + |more|
  {
    hide PacketOf;
    StreamAppend(payloads, [more], 1);
    StreamLengthAppend(payloads, [more]);
    assert Stream([more], 1 + |payloads|) == PacketOf(more, 1 + |payloads|) by {
      assert [more][1..] == [];
    }
    assert [more][1..] == [];
  }

  /** Adds one packet to a stream. */
  method Add(conn: FrontConn, parts: seq<Bytes>, declared: nat, id: nat, offset: nat,
             ghost start: Bytes, ghost payloads: seq<Bytes>)
    returns (p: nat)
    requires Written(conn, start, payloads, offset, id) && declared == |Concat(parts)|
    modifies conn, conn.buffer
    ensures conn.buffer == old(conn.buffer) || fresh(conn.buffer)
    ensures Written(conn, start, payloads + [Concat(parts)], p, id + 1) && conn.sent == old(conn.sent)
    ensures p == offset + 4 + declared
    ensures conn.buffer.Length == if old(conn.buffer.Length) < p then p else old(conn.buffer.Length)
  {
    hide PacketOf, Stream, StreamLength, Concat;
    p := WritePacket(conn, parts, declared, id, offset);
    WrittenMore(start, payloads, Concat(parts));
  }

  lemma FieldPayloadsStep(fields: seq<Field>, charset: nat, i: nat)
    requires i < |fields|
    ensures FieldPayloads(fields[..i + 1], charset)
            == FieldPayloads(fields[..i], charset) + [Concat(FieldParts(fields[i], charset))]
  {
    hide FieldParts, Concat;
    assert fields[..i + 1] == fields[..i] + [fields[i]];
    FieldPayloadsAppend(fields[..i], fields[i], charset);
  }

  lemma {:induction false} FieldPayloadsAppend(fields: seq<Field>, f: Field, charset: nat)
    ensures FieldPayloads(fields + [f], charset)
            == FieldPayloads(fields, charset) + [Concat(FieldParts(f, charset))]
  {
    hide FieldParts, Concat;
    if fields == [] {
      assert [] + [f] == [f] && [f][1..] == [];
    } else {
      assert (fields + [f])[1..] == fields[1..] + [f];
      FieldPayloadsAppend(fields[1..], f, charset);
    }
  }

  /** Header, columns and end marker. Without a first row to take the types from,
      the first column throws. */
  method WriteHead(conn: FrontConn, fields: seq<Field>, charset: nat, hasRow: bool)
    returns (r: Result<(nat, nat), WireError>)
    modifies conn, conn.buffer
    ensures conn.buffer == old(conn.buffer) || fresh(conn.buffer)
    ensures conn.sent == old(conn.sent)
    ensures r.Err? <==> !hasRow && fields != []
    ensures r.Err? ==> r.error == NullRow
    ensures r.Ok? ==>
              && Written(conn, old(conn.sent), HeadPayloads(fields, charset), r.value.0, r.value.1)
              && conn.buffer.Length
                 == if old(conn.buffer.Length) < r.value.0 then r.value.0 else old(conn.buffer.Length)
  {
    hide Concat, PacketOf, StreamLength, Stream, FieldParts;
    var p: nat, seqId: nat := 0, 1;
    ghost var start := conn.sent;
    NothingWritten(start);
    assert conn.Emitted(0) == start + conn.buffer[..0];
    var n := HeaderLength(|fields|, 0);
    p := Add(conn, HeaderParts(|fields|, 0), n, seqId, p, start, []);
    seqId := seqId + 1;
    ghost var first := [Concat(HeaderParts(|fields|, 0))];
    assert [] + first == first;
    assert fields[..0] == [] && first + [] == first;
    for i := 0 to |fields|
      invariant conn.buffer == old(conn.buffer) || fresh(conn.buffer)
      invariant conn.sent == old(conn.sent) && (i > 0 ==> hasRow)
      invariant Written(conn, start, first + FieldPayloads(fields[..i], charset), p, seqId)
      invariant conn.buffer.Length == if old(conn.buffer.Length) < p then p else old(conn.buffer.Length)
    {
      if !hasRow {
        return Err(NullRow);
      }
      var m := FieldLength(fields[i], charset);
      p := Add(conn, FieldParts(fields[i], charset), m, seqId, p, start, first + FieldPayloads(fields[..i], charset));
      FieldPayloadsStep(fields, charset, i);
      assert first + FieldPayloads(fields[..i], charset) + [Concat(FieldParts(fields[i], charset))]
          == first + FieldPayloads(fields[..i + 1], charset);
      seqId := seqId + 1;
    }
    assert fields[..|fields|] == fields;
    var k := EofLength();
    p := Add(conn, EofParts(), k, seqId, p, start, first + FieldPayloads(fields, charset));
    r := Ok((p, seqId + 1));
  }

  lemma NothingWritten(start: Bytes)
    ensures start + Stream([], 1) == start && StreamLength([]) == 0
  {
  }

  lemma {:induction false} OrNullAppend(row: seq<Column>, v: Column)
    ensures OrNull(row + [v]) == OrNull(row) + [if v == Some([]) then None else v]
  {
    if row == [] {
      assert [] + [v] == [v] && [v][1..] == [];
    } else {
      assert (row + [v])[1..] == row[1..] + [v];
      OrNullAppend(row[1..], v);
    }
  }

  lemma {:induction false} RowPayloadsAppend(rows: seq<seq<Column>>, row: seq<Column>)
    ensures RowPayloads(rows + [row]) == RowPayloads(rows) + [RowBytes(OrNull(row))]
  {
    hide RowBytes, OrNull;
    if rows == [] {
      assert [] + [row] == [row] && [row][1..] == [];
    } else {
      assert (rows + [row])[1..] == rows[1..] + [row];
      RowPayloadsAppend(rows[1..], row);
    }
  }

  /** The values a packet was given are the row it sends. */
  lemma {:induction false} RowFromIs(packet: RowPacket, i: nat)
    requires packet.fieldCount == |packet.fieldValues| && i <= packet.fieldCount
    ensures packet.RowFrom(i) == packet.fieldValues[i..]
    decreases packet.fieldCount - i
  {
    if i < packet.fieldCount {
      RowFromIs(packet, i + 1);
    }
  }

  /** Makes the packet of a row; a missing or empty value becomes NULL. */
  method MakeRow(row: seq<Column>) returns (packet: RowPacket)
    ensures fresh(packet) && packet.Payload() == RowBytes(OrNull(row))
  {
    hide RowBytes;
    packet := new RowPacket(|row|);
    assert row[..0] == [];
    for j := 0 to |row|
      invariant fresh(packet) && packet.fieldCount == |row|
      invariant packet.fieldValues == OrNull(row[..j]) && |packet.fieldValues| == j
    {
      assert row[..j + 1] == row[..j] + [row[j]];
      OrNullAppend(row[..j], row[j]);
      packet.Append(if row[j] == Some([]) then None else row[j]);
    }
    assert row[..|row|] == row;
    RowFromIs(packet, 0);
  }

  /** Writes one row behind a stream; the buffer is as large as it is. */
  method AddRow(conn: FrontConn, row: seq<Column>, id: nat, offset: nat, m: FrameLimit,
                ghost start: Bytes, ghost payloads: seq<Bytes>)
    returns (r: Result<(nat, nat), WireError>)
    requires Written(conn, start, payloads, offset, id)
    modifies conn`sent, conn.buffer
    ensures conn.sent == old(conn.sent)
    ensures var n := |RowBytes(OrNull(row))|; r.Ok? <==> offset + 4 + n <= conn.buffer.Length && n <= m
    ensures r.Err? ==> r.error != NullRow
    ensures r.Ok? ==>
              && r.value.0 == offset + 4 + |RowBytes(OrNull(row))|
              && Written(conn, start, payloads + [RowBytes(OrNull(row))], r.value.0, r.value.1)
  {
    hide PacketOf, Stream, StreamLength, RowBytes;
    var packet := MakeRow(row);
    packet.sequenceId := id;
    var p :- packet.Write(conn, offset, false, m);
    WrittenMore(start, payloads, RowBytes(OrNull(row)));
    assert PacketOf(RowBytes(OrNull(row)), id) == Header(|RowBytes(OrNull(row))|, id) + RowBytes(OrNull(row)) by {
      PacketIs(RowBytes(OrNull(row)), id);
    }
    r := Ok((p, packet.sequenceId));
  }

  lemma PacketIs(payload: Bytes, id: nat)
    ensures PacketOf(payload, id) == Header(|payload|, id) + payload
  {
  }

  /** The result can be sent: there is a row to take the column types from, no
      row is more than a frame, and all rows fit into the buffer that is left
      after the head was written into it. */
  predicate Sendable(fields: seq<Field>, charset: nat, rows: seq<seq<Column>>, capacity: nat, m: FrameLimit) {
    var head := StreamLength(HeadPayloads(fields, charset));
    && (fields == [] || rows != [])
    && (forall i | 0 <= i < |rows| :: |RowBytes(OrNull(rows[i]))| <= m)
    && (rows == [] || head + StreamLength(RowPayloads(rows)) <= if capacity < head then head else capacity)
  }

  /** The i-th row fits behind the rows before it. */
  predicate RowFits(rows: seq<seq<Column>>, i: nat, from: nat, capacity: nat, m: FrameLimit)
    requires i < |rows|
  {
    |RowBytes(OrNull(rows[i]))| <= m && from + StreamLength(RowPayloads(rows[..i + 1])) <= capacity
  }

  lemma RowsStep(rows: seq<seq<Column>>, i: nat)
    requires i < |rows|
    ensures RowPayloads(rows[..i + 1]) == RowPayloads(rows[..i]) + [RowBytes(OrNull(rows[i]))]
    ensures StreamLength(RowPayloads(rows[..i + 1]))
            == StreamLength(RowPayloads(rows[..i])) + 4 + |RowBytes(OrNull(rows[i]))|
  {
    hide RowBytes, OrNull;
    var payload := RowBytes(OrNull(rows[i]));
    assert rows[..i + 1] == rows[..i] + [rows[i]];
    RowPayloadsAppend(rows[..i], rows[i]);
    StreamLengthAppend(RowPayloads(rows[..i]), [payload]);
    assert [payload][1..] == [];
  }

  lemma {:induction false} PrefixIsShorter(rows: seq<seq<Column>>, i: nat)
    requires i <= |rows|
    ensures StreamLength(RowPayloads(rows[..i])) <= StreamLength(RowPayloads(rows))
    decreases |rows| - i
  {
    hide RowBytes, OrNull, RowPayloads, StreamLength;
    if i < |rows| {
      RowsStep(rows, i);
      PrefixIsShorter(rows, i + 1);
    } else {
      assert rows[..i] == rows;
    }
  }

  lemma FitsIff(rows: seq<seq<Column>>, from: nat, capacity: nat, m: FrameLimit)
    ensures (forall i | 0 <= i < |rows| :: RowFits(rows, i, from, capacity, m))
            <==> (forall i | 0 <= i < |rows| :: |RowBytes(OrNull(rows[i]))| <= m)
                 && (rows == [] || from + StreamLength(RowPayloads(rows)) <= capacity)
  {
    hide RowBytes, OrNull, RowPayloads, StreamLength;
    if rows != [] {
      var k := |rows| - 1;
      assert rows[..k + 1] == rows;
      if (forall i | 0 <= i < |rows| :: |RowBytes(OrNull(rows[i]))| <= m)
         && from + StreamLength(RowPayloads(rows)) <= capacity {
        forall i | 0 <= i < |rows| ensures RowFits(rows, i, from, capacity, m) {
          PrefixIsShorter(rows, i + 1);
        }
      }
      if forall i | 0 <= i < |rows| :: RowFits(rows, i, from, capacity, m) {
        assert RowFits(rows, k, from, capacity, m);
        forall i | 0 <= i < |rows| ensures |RowBytes(OrNull(rows[i]))| <= m {
          assert RowFits(rows, i, from, capacity, m);
        }
      }
    }
  }

  lemma SendableIff(fields: seq<Field>, charset: nat, rows: seq<seq<Column>>, capacity: nat, room: nat, m: FrameLimit)
    requires var head := StreamLength(HeadPayloads(fields, charset)); room == if capacity < head then head else capacity
    ensures var head := StreamLength(HeadPayloads(fields, charset));
            Sendable(fields, charset, rows, capacity, m)
            <==> (fields == [] || rows != []) && forall i | 0 <= i < |rows| :: RowFits(rows, i, head, room, m)
  {
    hide StreamLength, HeadPayloads, RowPayloads, RowBytes, OrNull, RowFits;
    FitsIff(rows, StreamLength(HeadPayloads(fields, charset)), room, m);
  }

  /** Writes the rows behind the head, in the room that is there. */
  method WriteRows(conn: FrontConn, rows: seq<seq<Column>>, id: nat, offset: nat, m: FrameLimit,
                   ghost start: Bytes, ghost front: seq<Bytes>)
    returns (r: Result<(nat, nat), WireError>)
    requires Written(conn, start, front, offset, id)
    modifies conn`sent, conn.buffer
    ensures conn.sent == old(conn.sent) && (r.Err? ==> r.error != NullRow)
    ensures r.Ok? <==> forall i | 0 <= i < |rows| :: RowFits(rows, i, StreamLength(front), conn.buffer.Length, m)
    ensures r.Ok? ==> Written(conn, start, front + RowPayloads(rows), r.value.0, r.value.1)
  {
    hide PacketOf, Stream, StreamLength, RowPayloads, RowBytes, OrNull;
    var p, seqId := offset, id;
    NoRows(rows, front);
    for i := 0 to |rows|
      invariant conn.sent == old(conn.sent)
      invariant Written(conn, start, front + RowPayloads(rows[..i]), p, seqId)
      invariant forall j | 0 <= j < i :: RowFits(rows, j, StreamLength(front), conn.buffer.Length, m)
    {
      RowsStep(rows, i);
      StreamLengthAppend(front, RowPayloads(rows[..i]));
      ghost var payload := RowBytes(OrNull(rows[i]));
      assert front + RowPayloads(rows[..i]) + [payload] == front + RowPayloads(rows[..i + 1]);
      var row := AddRow(conn, rows[i], seqId, p, m, start, front + RowPayloads(rows[..i]));
      if row.Err? {
        assert !RowFits(rows, i, StreamLength(front), conn.buffer.Length, m);
        return Err(row.error);
      }
      p, seqId := row.value.0, row.value.1;
    }
    assert rows[..|rows|] == rows;
    r := Ok((p, seqId));
  }

  lemma NoRows(rows: seq<seq<Column>>, front: seq<Bytes>)
    ensures front + RowPayloads(rows[..0]) == front
  {
  }

  /** `sendResultSet`: everything goes out at once, or nothing does. The rows are
      written with the room the head left, which is not enlarged for them. */
  method SendResultSet(conn: FrontConn, fields: seq<Field>, charset: nat, rows: seq<seq<Column>>, m: FrameLimit)
    returns (r: Result<nat, WireError>)
    modifies conn, conn.buffer
    ensures r.Err? ==> conn.sent == old(conn.sent)
    ensures r.Ok? ==> conn.sent == old(conn.sent) + Stream(Payloads(fields, charset, rows), 1)
    ensures r.Ok? ==> r.value == StreamLength(Payloads(fields, charset, rows)) == |conn.sent| - |old(conn.sent)|
    ensures r.Ok? <==> Sendable(fields, charset, rows, old(conn.buffer.Length), m)
    ensures r == Err(NullRow) <==> fields != [] && rows == []
  {
    hide Concat, PacketOf, StreamLength, Stream, HeadPayloads, RowPayloads, RowBytes, OrNull, RowFits;
    ghost var start, front := conn.sent, HeadPayloads(fields, charset);
    var head :- WriteHead(conn, fields, charset, rows != []);
    SendableIff(fields, charset, rows, old(conn.buffer.Length), conn.buffer.Length, m);
    hide Sendable;
    var body :- WriteRows(conn, rows, head.1, head.0, m, start, front);
    var n := EofLength();
    var p := Add(conn, EofParts(), n, body.1, body.0, start, front + RowPayloads(rows));
    var _ := conn.Send(p);
    assert conn.buffer[..0] == [];
    StreamLengthIs(Payloads(fields, charset, rows), 1);
    r := Ok(p);
  }

  /** A client that reads a result set gets the head, the rows and the end marker
      packet by packet, in this order, and the rows decode to the values sent. */
  lemma ResultSetArrives(fields: seq<Field>, charset: nat, rows: seq<seq<Column>>, rest: Bytes,
                         m: FrameLimit, limit: nat)
    requires forall i | 0 <= i < |Payloads(fields, charset, rows)| ::
               |Payloads(fields, charset, rows)[i]| < m && |Payloads(fields, charset, rows)[i]| <= limit
    ensures var payloads := Payloads(fields, charset, rows);
            && |payloads| == |fields| + 2 + |rows| + 1
            && ReadStream(Stream(payloads, 1) + rest, |payloads|, m, limit) == Some((payloads, rest))
            && forall i | 0 <= i < |rows| && Encodable(OrNull(rows[i])) ::
                 var payload := payloads[|fields| + 2 + i];
                 RowAt(payload, 0, |rows[i]|) == Ok((OrNull(rows[i]), |payload|))
  {
    hide Stream, RowBytes, RowAt, FieldParts, Concat;
    var payloads := Payloads(fields, charset, rows);
    StreamRoundTrip(payloads, 1, rest, m, limit);
    FieldCount(fields, charset);
    forall i | 0 <= i < |rows| && Encodable(OrNull(rows[i]))
      ensures |RowPayloads(rows)| == |rows| && payloads[|fields| + 2 + i] == RowBytes(OrNull(rows[i]))
      ensures RowAt(payloads[|fields| + 2 + i], 0, |rows[i]|)
              == Ok((OrNull(rows[i]), |payloads[|fields| + 2 + i]|))
    {
      RowPayloadAt(rows, i);
      var payload := RowBytes(OrNull(rows[i]));
      assert payload[0..|payload|] == payload;
      RowRoundTrip(payload, 0, OrNull(rows[i]));
      OrNullLength(rows[i]);
    }
    RowCount(rows);
  }

  lemma {:induction false} FieldCount(fields: seq<Field>, charset: nat)
    ensures |FieldPayloads(fields, charset)| == |fields|
  {
    if fields != [] {
      FieldCount(fields[1..], charset);
    }
  }

  lemma {:induction false} RowCount(rows: seq<seq<Column>>)
    ensures |RowPayloads(rows)| == |rows|
  {
    if rows != [] {
      RowCount(rows[1..]);
    }
  }

  lemma {:induction false} RowPayloadAt(rows: seq<seq<Column>>, i: nat)
    requires i < |rows|
    ensures |RowPayloads(rows)| == |rows| && RowPayloads(rows)[i] == RowBytes(OrNull(rows[i]))
  {
    hide RowBytes, OrNull;
    RowCount(rows);
    if i > 0 {
      RowPayloadAt(rows[1..], i - 1);
    }
  }

  lemma {:induction false} OrNullLength(row: seq<Column>)
    ensures |OrNull(row)| == |row|
  {
    if row != [] {
      OrNullLength(row[1..]);
    }
  }
}
