/** Row packets. `RowPacket.Write` is the code as it stands: the header size it
    asks for is undefined, so every comparison with the frame's room is false,
    and none of its flushing and splitting branches ever runs. `WriteSplit` is
    the splitting writer those branches are meant to be. */
module RowPackets {
  import opened Wrappers
  import opened MysqlMessages
  import opened Framing

  /** The front connection's write buffer, and what has gone to the socket. */
  class FrontConn {
    var buffer: array<byte>
    var sent: seq<byte>

    constructor (size: nat)
      ensures fresh(buffer) && buffer.Length == size && sent == []
    {
      buffer := new byte[size](_ => 0);
      sent := [];
    }

    /** Everything written when the buffer is filled up to p. */
    ghost function Emitted(p: nat): seq<byte>
      requires p <= buffer.Length
      reads this, buffer
    {
      sent + buffer[..p]
    }

    /** Sends buffer[..p] and starts over at 0. */
    method Send(p: nat) returns (start: nat)
      requires p <= buffer.Length
      modifies this`sent
      ensures start == 0 && sent == old(sent) + buffer[..p] && Emitted(0) == old(Emitted(p))
    {
      sent := sent + buffer[..p];
      start := 0;
      assert buffer[..0] == [];
    }

    /** Writes bytes at p; a write past the end of the buffer is refused. */
    method Put(bytes: seq<byte>, p: nat) returns (r: Result<nat, WireError>)
      modifies buffer
      ensures r == if p + |bytes| <= buffer.Length then Ok(p + |bytes|) else Err(OutOfRange)
      ensures r.Ok? ==> buffer[..r.value] == old(buffer[..p]) + bytes && Emitted(r.value) == old(Emitted(p)) + bytes
    {
      if p + |bytes| > buffer.Length {
        return Err(OutOfRange);
      }
      for i := 0 to |bytes|
        invariant buffer[..p + i] == old(buffer[..p]) + bytes[..i]
      {
        buffer[p + i] := bytes[i];
      }
      assert bytes[..|bytes|] == bytes;
      assert sent + (old(buffer[..p]) + bytes) == sent + old(buffer[..p]) + bytes;
      r := Ok(p + |bytes|);
    }

    /** Grows the buffer, keeping what is in it. */
    method EnsureWriteBuffer(size: nat)
      modifies this`buffer
      ensures buffer == old(buffer) || fresh(buffer)
      ensures buffer.Length == if old(buffer.Length) < size then size else old(buffer.Length)
      ensures forall p | 0 <= p <= old(buffer.Length) :: Emitted(p) == old(Emitted(p))
    {
      if buffer.Length < size {
        var bigger := new byte[size](_ => 0);
        var n := buffer.Length;
        for i := 0 to n
          invariant buffer == old(buffer) && buffer[..] == old(buffer[..]) && bigger[..i] == buffer[..i]
        {
          bigger[i] := buffer[i];
        }
        assert bigger[..n] == buffer[..];
        buffer := bigger;
        assert forall p | 0 <= p <= n :: buffer[..p] == buffer[..n][..p];
        assert forall p | 0 <= p <= n :: old(buffer[..p]) == old(buffer[..])[..p];
      }
    }
  }

  function Min(a: nat, b: nat): nat {
    if a < b then a else b
  }

  /** How many frames a payload of n bytes takes. */
  function FrameCount(n: nat, m: FrameLimit): nat {
    if n < m then 1 else 1 + FrameCount(n - m, m)
  }

  /** What is still to be sent behind a header: `room` bytes of the open frame,
      and the frames behind it if it is a full one. */
  function Rest(todo: seq<byte>, room: nat, full: bool, id: nat, m: FrameLimit): seq<byte>
    requires room <= |todo|
  {
    todo[..room] + if full then Frames(todo[room..], id, m) else []
  }

  lemma OpenFrame(todo: seq<byte>, id: nat, m: FrameLimit)
    ensures var size := Min(|todo|, m);
            Frames(todo, id, m) == Header(size, id) + Rest(todo, size, size == m, id + 1, m)
  {
    hide Header;
    if |todo| < m {
      assert todo[..|todo|] + [] == todo;
    } else {
      assert Header(m, id) + todo[..m] + Frames(todo[m..], id + 1, m)
          == Header(m, id) + (todo[..m] + Frames(todo[m..], id + 1, m));
    }
  }

  lemma Advance(todo: seq<byte>, k: nat, room: nat, full: bool, id: nat, m: FrameLimit)
    requires k <= room <= |todo|
    ensures Rest(todo, room, full, id, m) == todo[..k] + Rest(todo[k..], room - k, full, id, m)
  {
    hide Frames;
    assert todo[k..][room - k..] == todo[room..];
    assert todo[..room] == todo[..k] + todo[k..][..room - k];
  }

  /** The local state of the splitting writer: the offset in the write buffer,
      the size of the open frame, what is left of it, and what of the payload is
      left for the frames behind it. */
  class FrameWriter {
    const conn: FrontConn
    const m: FrameLimit
    var p: nat
    var splitSize: nat
    var room: nat
    var payloadLen: nat
    var sequenceId: nat

    constructor (conn: FrontConn, m: FrameLimit, p: nat, payloadLen: nat, sequenceId: nat)
      ensures this.conn == conn && this.m == m && this.p == p && splitSize == m && room == 0
      ensures this.payloadLen == payloadLen && this.sequenceId == sequenceId
    {
      this.conn, this.m, this.p, splitSize, room := conn, m, p, m, 0;
      this.payloadLen, this.sequenceId := payloadLen, sequenceId;
    }

    /** The buffer takes any frame, or all n bytes still to be written. */
    predicate Fits(n: nat)
      reads this, conn
    {
      p <= conn.buffer.Length && (4 + m <= conn.buffer.Length || p + n <= conn.buffer.Length)
    }

    /** A full frame is open only when the buffer takes any frame. */
    predicate Opened(n: nat)
      reads this, conn
    {
      Fits(n) && (splitSize == m ==> 4 + m <= conn.buffer.Length)
    }

    /** `todo` of the payload is left; the output will be `target`, and `next`
        the id of the next packet. */
    ghost predicate Ready(todo: seq<byte>, target: seq<byte>, next: nat)
      reads this, conn, conn.buffer
    {
      && p <= conn.buffer.Length
      && room <= |todo| && payloadLen == |todo| - room && room <= splitSize <= m
      && (splitSize < m ==> payloadLen == 0)
      && conn.Emitted(p) + Rest(todo, room, splitSize == m, sequenceId, m) == target
      && sequenceId + (if splitSize == m then FrameCount(payloadLen, m) else 0) == next
    }

    /** Writes bytes, sending the buffer first when they do not fit a buffer of
        one frame. */
    method WriteChunk(bytes: seq<byte>)
      requires |bytes| <= 4 + m && Fits(|bytes|)
      modifies this`p, conn`sent, conn.buffer
      ensures p <= conn.buffer.Length && conn.Emitted(p) == old(conn.Emitted(p)) + bytes
      ensures p <= old(p) + |bytes|
    {
      if p + |bytes| > 4 + m {
        p := conn.Send(p);
      }
      var r := conn.Put(bytes, p);
      p := r.value;
    }

    /** Starts the next frame. */
    method StartFrame(ghost todo: seq<byte>, ghost target: seq<byte>, ghost next: nat)
      requires Fits(4 + |todo|) && Ready(todo, target, next) && room == 0 && splitSize == m
      modifies this, conn`sent, conn.buffer
      ensures Opened(|todo|) && Ready(todo, target, next)
      ensures splitSize == Min(|todo|, m) && room == splitSize
    {
      hide Header, Frames, Rest;
      OpenFrame(todo, sequenceId, m);
      RestOfNone(todo, sequenceId, m);
      ghost var start := conn.Emitted(p);
      splitSize := Min(payloadLen, m);
      WriteChunk(Header(splitSize, sequenceId));
      ghost var rest := Rest(todo, splitSize, splitSize == m, sequenceId + 1, m);
      assert start + Header(splitSize, sequenceId) + rest == start + (Header(splitSize, sequenceId) + rest);
      sequenceId := sequenceId + 1;
      payloadLen := payloadLen - splitSize;
      room := splitSize;
    }

    /** Writes payload bytes into the open frame. */
    method FillFrame(bytes: seq<byte>, ghost todo: seq<byte>, ghost target: seq<byte>, ghost next: nat)
      requires Opened(|todo|) && Ready(todo, target, next) && bytes <= todo && |bytes| <= room
      modifies this`p, this`room, conn`sent, conn.buffer
      ensures Opened(|todo| - |bytes|) && Ready(todo[|bytes|..], target, next)
      ensures room == old(room) - |bytes|
    {
      hide Frames, Rest;
      ghost var start := conn.Emitted(p);
      Advance(todo, |bytes|, room, splitSize == m, sequenceId, m);
      WriteChunk(bytes);
      room := room - |bytes|;
      ghost var rest := Rest(todo[|bytes|..], room, splitSize == m, sequenceId, m);
      assert start + bytes + rest == start + (bytes + rest);
    }

    /** Writes a column's bytes over as many frames as they take. */
    method WriteBytes(bytes: seq<byte>, ghost after: seq<byte>, ghost target: seq<byte>, ghost next: nat)
      requires Opened(|bytes| + |after|) && Ready(bytes + after, target, next)
      modifies this, conn`sent, conn.buffer
      ensures Opened(|after|) && Ready(after, target, next)
    {
      hide Frames, Rest;
      var s := 0;
      assert bytes[s..] == bytes;
      while |bytes| - s > room
        invariant 0 <= s <= |bytes|
        invariant Opened(|bytes| - s + |after|) && Ready(bytes[s..] + after, target, next)
        decreases |bytes| - s, room == 0
      {
        ghost var todo := bytes[s..] + after;
        var sub := bytes[s..s + room];
        assert sub == todo[..room];
        assert todo[room..] == bytes[s + room..] + after;
        s := s + room;
        FillFrame(sub, todo, target, next);
        assert splitSize == m;
        StartFrame(bytes[s..] + after, target, next);
      }
      ghost var todo := bytes[s..] + after;
      assert bytes[s..] == todo[..|bytes| - s];
      assert todo[|bytes| - s..] == after;
      FillFrame(bytes[s..], todo, target, next);
    }

    /** Closes a full last frame with an empty one. */
    method Finish(ghost target: seq<byte>, ghost next: nat)
      requires Opened(0) && Ready([], target, next)
      modifies this, conn`sent, conn.buffer
      ensures p <= conn.buffer.Length && conn.Emitted(p) == target && sequenceId == next
    {
      hide Frames;
      if splitSize == m {
        StartFrame([], target, next);
      }
      assert conn.Emitted(p) + [] == conn.Emitted(p);
    }
  }

  /** Writes the first header of a packet. */
  method FirstFrame(conn: FrontConn, offset: nat, m: FrameLimit, payloadLen: nat, id: nat,
                    ghost payload: seq<byte>, ghost target: seq<byte>, ghost next: nat)
    returns (w: FrameWriter)
    requires payloadLen == |payload| && offset <= conn.buffer.Length
    requires 4 + m <= conn.buffer.Length || offset + 4 + payloadLen <= conn.buffer.Length
    requires target == conn.Emitted(offset) + Frames(payload, id, m) && next == id + FrameCount(payloadLen, m)
    modifies conn`sent, conn.buffer
    ensures fresh(w) && w.conn == conn && w.m == m
    ensures w.Opened(payloadLen) && w.Ready(payload, target, next)
  {
    hide Frames, Rest, FrameCount;
    w := new FrameWriter(conn, m, offset, payloadLen, id);
    RestOfNone(payload, id, m);
    w.StartFrame(payload, target, next);
  }

  lemma RestOfNone(todo: seq<byte>, id: nat, m: FrameLimit)
    ensures Rest(todo, 0, true, id, m) == Frames(todo, id, m)
  {
    assert todo[0..] == todo && todo[..0] == [];
    assert [] + Frames(todo, id, m) == Frames(todo, id, m);
  }

  class RowPacket {
    var fieldCount: nat
    var fieldValues: seq<Column>
    var sequenceId: nat
    var payloadLength: nat

    constructor (fieldCount: nat)
      ensures this.fieldCount == fieldCount && fieldValues == [] && sequenceId == 0
    {
      this.fieldCount, fieldValues, sequenceId, payloadLength := fieldCount, [], 0, 0;
    }

    /** The i-th value; a value never appended is undefined and sent as NULL. */
    function Field(i: nat): Column
      reads this`fieldValues
    {
      if i < |fieldValues| then fieldValues[i] else None
    }

    /** The columns from i on. */
    function RowFrom(i: nat): seq<Column>
      requires i <= fieldCount
      reads this`fieldValues, this`fieldCount
      decreases fieldCount - i
    {
      if i == fieldCount then [] else [Field(i)] + RowFrom(i + 1)
    }

    ghost function Payload(): seq<byte>
      reads this`fieldValues, this`fieldCount
    {
      RowBytes(RowFrom(0))
    }

    method Append(value: Column)
      modifies this`fieldValues
      ensures fieldValues == old(fieldValues) + [value]
    {
      fieldValues := fieldValues + [value];
    }

    method CalcPayloadLength() returns (length: nat)
      modifies this`payloadLength
      ensures length == payloadLength == |Payload()|
    {
      length := 0;
      for i := 0 to fieldCount
        invariant length + |RowBytes(RowFrom(i))| == |Payload()|
      {
        var v := Field(i);
        if v.Some? && |v.value| > 0 {
          length := length + LengthEncodedOf(|v.value|) + |v.value|;
        } else {
          length := length + 1;
        }
      }
      payloadLength := length;
    }

    /** A column's length and value, or its one-byte mark. */
    method WriteColumn(conn: FrontConn, v: Column, p0: nat) returns (r: Result<nat, WireError>)
      requires p0 <= conn.buffer.Length
      modifies conn.buffer
      ensures r == if p0 + |ColumnBytes(v)| <= conn.buffer.Length then Ok(p0 + |ColumnBytes(v)|) else Err(OutOfRange)
      ensures r.Ok? ==> conn.Emitted(r.value) == old(conn.Emitted(p0)) + ColumnBytes(v)
    {
      hide LengthEncoded;
      var p := p0;
      ghost var start := conn.Emitted(p);
      if v.Some? && |v.value| > 0 {
        var e := LengthEncoded(|v.value|);
        p :- conn.Put(e, p);
        p :- conn.Put(v.value, p);
        assert start + e + v.value == start + (e + v.value);
      } else {
        var mark: byte := if v.Some? then 0 else NULL_MARK;
        p :- conn.Put([mark], p);
      }
      r := Ok(p);
    }

    /** The column loop of `write`, none of whose room checks ever holds. */
    method WriteColumns(conn: FrontConn, offset: nat) returns (r: Result<nat, WireError>)
      requires offset <= conn.buffer.Length
      modifies conn.buffer
      ensures r == if offset + |Payload()| <= conn.buffer.Length then Ok(offset + |Payload()|) else Err(OutOfRange)
      ensures r.Ok? ==> conn.Emitted(r.value) == old(conn.Emitted(offset)) + Payload()
    {
      hide ColumnBytes;
      ghost var start := conn.Emitted(offset);
      var p: nat := offset;
      for i := 0 to fieldCount
        invariant p <= conn.buffer.Length
        invariant p + |RowBytes(RowFrom(i))| == offset + |Payload()|
        invariant conn.Emitted(p) + RowBytes(RowFrom(i)) == start + Payload()
      {
        ghost var before, rest := conn.Emitted(p), RowBytes(RowFrom(i + 1));
        p :- WriteColumn(conn, Field(i), p);
        assert before + (ColumnBytes(Field(i)) + rest) == before + ColumnBytes(Field(i)) + rest;
      }
      assert conn.Emitted(p) + [] == conn.Emitted(p);
      r := Ok(p);
    }

    /** `write` as it stands: one header for at most m bytes, then every column,
        then the check that nothing is left over. The write buffer is not grown. */
    method Write(conn: FrontConn, offset: nat, flush: bool, m: FrameLimit) returns (r: Result<nat, WireError>)
      requires offset <= conn.buffer.Length
      modifies this`payloadLength, this`sequenceId, conn`sent, conn.buffer
      ensures var n, cap := |Payload()|, conn.buffer.Length;
              r == if offset + 4 + n > cap then Err(OutOfRange)
                   else if n > m then Err(BadPayloadLength)
                   else Ok(if flush then 0 else offset + 4 + n)
      ensures r.Ok? ==>
                && conn.Emitted(r.value)
                   == old(conn.Emitted(offset)) + (Header(|Payload()|, old(sequenceId)) + Payload())
                && sequenceId == old(sequenceId) + 1
      ensures conn.sent == old(conn.sent) || (r.Ok? && flush)
    {
      hide Header, RowFrom, RowBytes;
      var payloadLen := CalcPayloadLength();
      var splitSize := Min(payloadLen, m);
      ghost var start := conn.Emitted(offset);
      ghost var head := Header(splitSize, sequenceId);
      var p: nat;
      p :- conn.Put(Header(splitSize, sequenceId), offset);
      sequenceId := sequenceId + 1;
      payloadLen := payloadLen - splitSize;
      p :- WriteColumns(conn, p);
      assert start + head + Payload() == start + (head + Payload());
      if payloadLen != 0 {
        return Err(BadPayloadLength);
      }
      if flush && p > 0 {
        p := conn.Send(p);
      }
      r := Ok(p);
    }

    /** The column loop of the splitting writer. */
    method WriteRow(w: FrameWriter, ghost target: seq<byte>, ghost next: nat)
      requires w.Opened(|Payload()|) && w.Ready(Payload(), target, next)
      modifies w, w.conn`sent, w.conn.buffer
      ensures w.p <= w.conn.buffer.Length && w.conn.Emitted(w.p) == target && w.sequenceId == next
    {
      hide ColumnBytes, Frames, Rest, FrameCount;

      for i := 0 to fieldCount
        invariant w.Opened(|RowBytes(RowFrom(i))|) && w.Ready(RowBytes(RowFrom(i)), target, next)
      {
        w.WriteBytes(ColumnBytes(Field(i)), RowBytes(RowFrom(i + 1)), target, next);
      }
      w.Finish(target, next);
    }

    /** `write` as its branches mean it: the room of the frame and the room of
        the buffer are kept apart, and both checks it makes on the way hold. */
    method WriteSplit(conn: FrontConn, offset: nat, flush: bool, m: FrameLimit) returns (p: nat)
      requires offset <= conn.buffer.Length
      modifies this`payloadLength, this`sequenceId, conn, conn.buffer
      ensures p <= conn.buffer.Length && (flush ==> p == 0)
      ensures conn.Emitted(p) == old(conn.Emitted(offset)) + Frames(Payload(), old(sequenceId), m)
      ensures sequenceId == old(sequenceId) + FrameCount(|Payload()|, m)
    {
      hide RowBytes, Frames, Header, Rest, FrameCount, RowFrom;
      var payloadLen := CalcPayloadLength();
      ghost var target := conn.Emitted(offset) + Frames(Payload(), sequenceId, m);
      ghost var next := sequenceId + FrameCount(payloadLen, m);
      conn.EnsureWriteBuffer(Min(offset + 4 + payloadLen, 4 + m));
      var w := FirstFrame(conn, offset, m, payloadLen, sequenceId, Payload(), target, next);
      WriteRow(w, target, next);
      sequenceId := w.sequenceId;
      p := w.p;
      if flush && p > 0 {
        p := conn.Send(p);
      }
    }
  }

  /** What `write` emits is the proper frame sequence exactly when the payload
      fits the buffer behind the offset and is shorter than a full frame. */
  lemma WriteFramesIff(packet: RowPacket, offset: nat, capacity: nat, m: FrameLimit, start: seq<byte>, id: nat)
    ensures var n := |packet.Payload()|;
            var written := start + (Header(n, id) + packet.Payload());
            (offset + 4 + n <= capacity && n <= m && written == start + Frames(packet.Payload(), id, m))
            <==> offset + 4 + n <= capacity && n < m
  {
    hide Header;
    FrameIff(packet.Payload(), id, m);
    SameTail(start, Header(|packet.Payload()|, id) + packet.Payload(), Frames(packet.Payload(), id, m));
  }

  /** One header and the payload are the frame sequence only below a full frame. */
  lemma FrameIff(payload: seq<byte>, id: nat, m: FrameLimit)
    ensures |payload| <= m ==>
              (Header(|payload|, id) + payload == Frames(payload, id, m) <==> |payload| < m)
  {
    if |payload| == m {
      assert |Frames(payload, id, m)| >= 4 + m + 4;
    }
  }

  lemma SameTail(a: seq<byte>, b: seq<byte>, c: seq<byte>)
    ensures a + b == a + c <==> b == c
  {
    if a + b == a + c {
      assert b == (a + b)[|a|..] == (a + c)[|a|..] == c;
    }
  }

  /** From columns to bytes on the wire and back: the reader hands on the first
      header and the payload, and decoding behind the header gives the columns. */
  lemma RowDelivered(row: seq<Column>, id: nat, rest: seq<byte>, m: FrameLimit, limit: nat)
    requires Encodable(row)
    ensures var payload := RowBytes(row);
            var o := ReadFrames(Frames(payload, id, m) + rest, 0, m, limit);
            && (o == Packet(payload, rest) <==> |payload| <= limit)
            && var buffer := (Frames(payload, id, m) + rest)[..4] + payload;
               RowAt(buffer, 4, |row|) == Ok((row, 4 + |payload|))
  {
    hide RowAt, Frames, ReadFrames;
    var payload := RowBytes(row);
    FramesRoundTrip(payload, id, rest, 0, m, limit);
    FramesHaveHeader(payload, id, m);
    var buffer := (Frames(payload, id, m) + rest)[..4] + payload;
    assert buffer[4..4 + |payload|] == payload;
    RowRoundTrip(buffer, 4, row);
  }

  /** Framing adds four bytes a frame. */
  lemma {:induction false} FramesHaveHeader(payload: seq<byte>, id: nat, m: FrameLimit)
    ensures |Frames(payload, id, m)| == |payload| + 4 * FrameCount(|payload|, m)
    decreases |payload|
  {
    if |payload| >= m {
      FramesHaveHeader(payload[m..], id + 1, m);
    }
  }
}
