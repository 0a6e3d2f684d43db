/** The packet codec: little-endian integers, length-encoded integers and
    byte strings, as functions of bytes and as the reader object. */
module MysqlMessages {
  import opened Wrappers

  newtype byte = x: int | 0 <= x < 256

  type Bytes = seq<byte>

  function Concat(parts: seq<Bytes>): Bytes {
    if parts == [] then [] else parts[0] + Concat(parts[1..])
  }

  /** A read or write past the end of a buffer, a length that does not come out
      even, or a row that is not there. */
  datatype WireError = OutOfRange | BadPayloadLength | NullRow

  // ---- little-endian integers ----

  /** The low k bytes of n, least significant first. */
  function LeBytes(n: nat, k: nat): (r: seq<byte>)
    ensures |r| == k
  {
    if k == 0 then [] else [(n % 256) as byte] + LeBytes(n / 256, k - 1)
  }

  /** A byte as the reader's mask sees it: zero past the end. */
  function ByteAt(b: seq<byte>, p: nat): byte {
    if p < |b| then b[p] else 0
  }

  function Int16At(b: seq<byte>, p: nat): nat
    requires p + 2 <= |b|
  {
    b[p] as int + 0x100 * b[p + 1] as int
  }

  /** The one reader without a bounds check. */
  function Int24At(b: seq<byte>, p: nat): nat {
    ByteAt(b, p) as int + 0x100 * ByteAt(b, p + 1) as int + 0x1_0000 * ByteAt(b, p + 2) as int
  }

  function Int32At(b: seq<byte>, p: nat): nat
    requires p + 4 <= |b|
  {
    Int16At(b, p) + 0x1_0000 * Int16At(b, p + 2)
  }

  function UInt64At(b: seq<byte>, p: nat): nat
    requires p + 8 <= |b|
  {
    Int32At(b, p) + 0x1_0000_0000 * Int32At(b, p + 4)
  }

  lemma LeStep(b: seq<byte>, p: nat, n: nat, k: nat)
    requires k > 0 && p + k <= |b| && b[p..p + k] == LeBytes(n, k)
    ensures b[p] as int == n % 256 && b[p + 1..p + k] == LeBytes(n / 256, k - 1)
  {
    assert b[p] == b[p..p + k][0];
    assert b[p + 1..p + k] == b[p..p + k][1..];
  }

  lemma Int16RoundTrip(b: seq<byte>, p: nat, n: nat, k: nat)
    requires k >= 2 && p + k <= |b| && b[p..p + k] == LeBytes(n, k)
    ensures Int16At(b, p) == n % 0x1_0000
    ensures b[p + 2..p + k] == LeBytes(n / 0x1_0000, k - 2)
  {
    LeStep(b, p, n, k);
    LeStep(b, p + 1, n / 256, k - 1);
    assert n / 256 / 256 == n / 0x1_0000;
  }

  /** Sixteen low bits and eight more. */
  lemma ThreeBytes(n: nat)
    ensures n % 0x100_0000 == n % 0x1_0000 + 0x1_0000 * (n / 0x1_0000 % 256)
  {
    var low, high := n % 0x1_0000, n / 0x1_0000;
    var mid, top := high % 256, high / 256;
    assert n == 0x1_0000 * high + low && high == 256 * top + mid;
    assert n == 0x100_0000 * top + (0x1_0000 * mid + low);
  }

  lemma Int24RoundTrip(b: seq<byte>, p: nat, n: nat, k: nat)
    requires k == 3 && p + k <= |b| && b[p..p + k] == LeBytes(n, k)
    ensures Int24At(b, p) == n % 0x100_0000
  {
    hide LeBytes;
    Int16RoundTrip(b, p, n, k);
    LeStep(b, p + 2, n / 0x1_0000, k - 2);
    ThreeBytes(n);
  }

  lemma Int32RoundTrip(b: seq<byte>, p: nat, n: nat, k: nat)
    requires k >= 4 && p + k <= |b| && b[p..p + k] == LeBytes(n, k)
    ensures Int32At(b, p) == n % 0x1_0000_0000
    ensures b[p + 4..p + k] == LeBytes(n / 0x1_0000_0000, k - 4)
  {
    Int16RoundTrip(b, p, n, k);
    Int16RoundTrip(b, p + 2, n / 0x1_0000, k - 2);
    assert n / 0x1_0000 / 0x1_0000 == n / 0x1_0000_0000;
  }

  lemma UInt64RoundTrip(b: seq<byte>, p: nat, n: nat, k: nat)
    requires k == 8 && n < 2 * INT64_LIMIT && p + k <= |b| && b[p..p + k] == LeBytes(n, k)
    ensures UInt64At(b, p) == n
  {
    Int32RoundTrip(b, p, n, k);
    Int32RoundTrip(b, p + 4, n / 0x1_0000_0000, k - 4);
  }

  // ---- length-encoded integers ----

  const NULL_MARK: byte := 251
  const INT64_LIMIT := 0x8000_0000_0000_0000

  function LengthEncodedOf(n: nat): nat {
    if n < 0xfb then 1 else if n < 0x1_0000 then 3 else if n < 0x100_0000 then 4 else 9
  }

  /** What `writeLengthEncoded` writes, its two- and eight-byte widths read as
      little-endian like those of the reader. */
  function LengthEncoded(n: nat): (r: seq<byte>)
    ensures |r| == LengthEncodedOf(n)
  {
    if n < 0xfb then [n as byte]
    else
      var mark: byte := if n < 0x1_0000 then 0xfc else if n < 0x100_0000 then 0xfd else 0xfe;
      [mark] + LeBytes(n, LengthEncodedOf(n) - 1)
  }

  /** The length at p and the position after it; -1 stands for NULL. A first
      byte of 255 is taken as a length of its own. */
  function LengthAt(b: seq<byte>, p: nat): Result<(int, nat), WireError> {
    if p >= |b| then Err(OutOfRange)
    else if b[p] == 251 then Ok((-1, p + 1))
    else if b[p] == 252 then
      if p + 3 > |b| then Err(OutOfRange) else Ok((Int16At(b, p + 1), p + 3))
    else if b[p] == 253 then
      Ok((Int24At(b, p + 1), p + 4))
    else if b[p] == 254 then
      if p + 9 > |b| then Err(OutOfRange)
      else
        var v := UInt64At(b, p + 1);
        Ok((if v >= INT64_LIMIT then v - 2 * INT64_LIMIT else v, p + 9))
    else Ok((b[p] as int, p + 1))
  }

  /** Writing then reading a length gives the length back and moves by exactly
      the size announced; an encoding never looks like NULL or an error mark. */
  lemma LengthRoundTrip(pre: seq<byte>, n: nat, post: seq<byte>)
    requires n < INT64_LIMIT
    ensures LengthAt(pre + LengthEncoded(n) + post, |pre|) == Ok((n, |pre| + LengthEncodedOf(n)))
    ensures LengthEncoded(n)[0] != 251 && LengthEncoded(n)[0] != 255
  {
    hide LeBytes;
    var e := LengthEncoded(n);
    var b := pre + e + post;
    var p := |pre|;
    assert b[p..p + |e|] == e;
    assert b[p] == e[0];
    if n >= 0xfb {
      var k := |e| - 1;
      assert b[p + 1..p + 1 + k] == b[p..p + |e|][1..] == LeBytes(n, k);
      if k == 2 {
        Int16RoundTrip(b, p + 1, n, k);
      } else if k == 3 {
        Int24RoundTrip(b, p + 1, n, k);
      } else {
        UInt64RoundTrip(b, p + 1, n, k);
      }
    }
  }

  // ---- columns and rows ----

  /** A column value: NULL, or bytes that may be empty. */
  type Column = Option<seq<byte>>

  function ColumnBytes(v: Column): seq<byte> {
    if v.None? then [NULL_MARK]
    else if v.value == [] then [0]
    else LengthEncoded(|v.value|) + v.value
  }

  /** The payload of a row packet. */
  function RowBytes(row: seq<Column>): seq<byte> {
    if row == [] then [] else ColumnBytes(row[0]) + RowBytes(row[1..])
  }

  /** The column at p and the position after it: `readBytesWithLength`. A length
      the buffer cannot satisfy is reported here; the reader would return
      unspecified bytes for the missing part. */
  function ColumnAt(b: seq<byte>, p: nat): Result<(Column, nat), WireError> {
    var r :- LengthAt(b, p);
    if r.0 == -1 then Ok((None, r.1))
    else if r.0 <= 0 then Ok((Some([]), r.1))
    else if r.1 + r.0 > |b| then Err(OutOfRange)
    else Ok((Some(b[r.1..r.1 + r.0]), r.1 + r.0))
  }

  function RowAt(b: seq<byte>, p: nat, count: nat): Result<(seq<Column>, nat), WireError>
    decreases count
  {
    if count == 0 then Ok(([], p))
    else
      var c :- ColumnAt(b, p);
      var rest :- RowAt(b, c.1, count - 1);
      Ok(([c.0] + rest.0, rest.1))
  }

  ghost predicate Encodable(row: seq<Column>) {
    forall i | 0 <= i < |row| :: row[i].Some? ==> |row[i].value| < INT64_LIMIT
  }

  lemma MarkLength(b: seq<byte>, p: nat)
    requires p < |b|
    ensures b[p] == NULL_MARK ==> LengthAt(b, p) == Ok((-1, p + 1))
    ensures b[p] == 0 ==> LengthAt(b, p) == Ok((0, p + 1))
  {
  }

  lemma BehindLength(pre: seq<byte>, e: seq<byte>, v: seq<byte>, post: seq<byte>)
    ensures pre + e + (v + post) == pre + (e + v) + post
    ensures var b := pre + (e + v) + post; b[|pre| + |e|..|pre| + |e| + |v|] == v
  {
  }

  lemma ColumnRoundTrip(pre: seq<byte>, v: Column, post: seq<byte>)
    requires v.Some? ==> |v.value| < INT64_LIMIT
    ensures ColumnAt(pre + ColumnBytes(v) + post, |pre|) == Ok((v, |pre| + |ColumnBytes(v)|))
  {
    hide LengthEncoded, LengthAt;
    var b := pre + ColumnBytes(v) + post;
    assert b[|pre|] == ColumnBytes(v)[0];
    MarkLength(b, |pre|);
    if v.Some? && v.value != [] {
      LengthRoundTrip(pre, |v.value|, v.value + post);
      BehindLength(pre, LengthEncoded(|v.value|), v.value, post);
    }
  }

  /** Decoding a row's payload, wherever it lies in a buffer, gives the columns
      back, NULL and empty apart, and stops at its end. */
  lemma {:induction false} RowRoundTrip(b: seq<byte>, p: nat, row: seq<Column>)
    requires Encodable(row) && p + |RowBytes(row)| <= |b| && b[p..p + |RowBytes(row)|] == RowBytes(row)
    ensures RowAt(b, p, |row|) == Ok((row, p + |RowBytes(row)|))
    decreases |row|
  {
    hide ColumnAt;
    if row == [] {
      assert |RowBytes(row)| == 0;
    } else {
      var q := RestOfRow(b, p, row);
      var end := p + |RowBytes(row)|;
      RowRoundTrip(b, q, row[1..]);
      FirstColumn(b, p, row, q, end);
    }
  }

  /** Where the columns after the first one lie in a buffer. */
  lemma RestOfRow(b: seq<byte>, p: nat, row: seq<Column>) returns (q: nat)
    requires row != [] && p + |RowBytes(row)| <= |b| && b[p..p + |RowBytes(row)|] == RowBytes(row)
    ensures q == p + |ColumnBytes(row[0])| && q + |RowBytes(row[1..])| == p + |RowBytes(row)|
    ensures b[p..q] == ColumnBytes(row[0]) && b[q..q + |RowBytes(row[1..])|] == RowBytes(row[1..])
  {
    var c, rest := ColumnBytes(row[0]), RowBytes(row[1..]);
    q := p + |c|;
    assert RowBytes(row) == c + rest;
    Halves(b, p, c, rest);
  }

  lemma FirstColumn(b: seq<byte>, p: nat, row: seq<Column>, q: nat, end: nat)
    requires row != [] && Encodable(row)
    requires q == p + |ColumnBytes(row[0])| <= |b| && b[p..q] == ColumnBytes(row[0])
    requires RowAt(b, q, |row[1..]|) == Ok((row[1..], end))
    ensures RowAt(b, p, |row|) == Ok((row, end))
  {
    hide ColumnAt, ColumnBytes;
    ColumnRoundTripAt(b, p, row[0]);
    assert [row[0]] + row[1..] == row;
  }

  lemma Halves(b: seq<byte>, p: nat, c: seq<byte>, rest: seq<byte>)
    requires p + |c + rest| <= |b| && b[p..p + |c + rest|] == c + rest
    ensures b[p..p + |c|] == c && b[p + |c|..p + |c| + |rest|] == rest
  {
    assert b[p..p + |c|] == b[p..p + |c + rest|][..|c|];
    assert b[p + |c|..p + |c| + |rest|] == b[p..p + |c + rest|][|c|..];
  }

  lemma ColumnRoundTripAt(b: seq<byte>, p: nat, v: Column)
    requires v.Some? ==> |v.value| < INT64_LIMIT
    requires p + |ColumnBytes(v)| <= |b| && b[p..p + |ColumnBytes(v)|] == ColumnBytes(v)
    ensures ColumnAt(b, p) == Ok((v, p + |ColumnBytes(v)|))
  {
    hide ColumnBytes, ColumnAt;
    var q := p + |ColumnBytes(v)|;
    ColumnRoundTrip(b[..p], v, b[q..]);
    assert b[..p] + b[p..q] + b[q..] == b;
  }

  /** A row read so far with what is still to be read. */
  function After(row: seq<Column>, rest: Result<(seq<Column>, nat), WireError>): Result<(seq<Column>, nat), WireError> {
    var v :- rest;
    Ok((row + v.0, v.1))
  }

  lemma AfterStep(row: seq<Column>, c: Column, rest: Result<(seq<Column>, nat), WireError>)
    ensures After(row, After([c], rest)) == After(row + [c], rest)
  {
    if rest.Ok? {
      assert row + ([c] + rest.value.0) == row + [c] + rest.value.0;
    }
  }

  lemma RowAtPrepend(b: seq<byte>, p: nat, count: nat, none: seq<Column>)
    requires none == []
    ensures After(none, RowAt(b, p, count)) == RowAt(b, p, count)
  {
    if RowAt(b, p, count).Ok? {
      assert none + RowAt(b, p, count).value.0 == RowAt(b, p, count).value.0;
    }
  }

  // ---- the reader object ----

  class MysqlMessage {
    const data: seq<byte>
    var position: nat

    constructor (data: seq<byte>)
      ensures this.data == data && position == 0
    {
      this.data := data;
      position := 0;
    }

    method ReadLength() returns (r: Result<int, WireError>)
      modifies this
      ensures match LengthAt(data, old(position))
              case Ok(v) => r == Ok(v.0) && position == v.1
              case Err(e) => r == Err(e)
    {
      var p := position;
      if p >= |data| {
        return Err(OutOfRange);
      }
      var len: int := data[p] as int;
      p := p + 1;
      if len == 251 {
        len := -1;
        position := p;
      } else if len == 252 {
        if p + 2 > |data| {
          return Err(OutOfRange);
        }
        len := Int16At(data, p);
        position := p + 2;
      } else if len == 253 {
        len := Int24At(data, p);
        position := p + 3;
      } else if len == 254 {
        if p + 8 > |data| {
          return Err(OutOfRange);
        }
        len := UInt64At(data, p);
        if len >= INT64_LIMIT {
          len := len - 2 * INT64_LIMIT;
        }
        position := p + 8;
      } else {
        position := p;
      }
      r := Ok(len);
    }

    method ReadBytesWithLength() returns (r: Result<Column, WireError>)
      modifies this
      ensures match ColumnAt(data, old(position))
              case Ok(v) => r == Ok(v.0) && position == v.1
              case Err(e) => r == Err(e)
    {
      var len :- ReadLength();
      if len == -1 {
        return Ok(None);
      } else if len <= 0 {
        return Ok(Some([]));
      } else if position + len > |data| {
        return Err(OutOfRange);
      }
      var bytes := data[position..position + len];
      position := position + len;
      r := Ok(Some(bytes));
    }

    /** Reads `count` columns. */
    method ReadRow(count: nat) returns (r: Result<seq<Column>, WireError>)
      modifies this
      ensures match RowAt(data, old(position), count)
              case Ok(v) => r == Ok(v.0) && position == v.1
              case Err(e) => r == Err(e)
    {
      var row: seq<Column> := [];
      RowAtPrepend(data, position, count, []);
      for i := 0 to count
        invariant RowAt(data, old(position), count)
               == After(row, RowAt(data, position, count - i))
      {
        var c :- ReadBytesWithLength();
        AfterStep(row, c, RowAt(data, position, count - i - 1));
        row := row + [c];
      }
      assert row + [] == row;
      r := Ok(row);
    }
  }
}
