/** Packet frames: how a payload is cut into frames of at most M bytes, and how
    the front-end reader puts it together again. */
module Framing {
  import opened Wrappers
  import opened MysqlMessages

  /** The largest frame payload, below the three-byte limit. */
  type FrameLimit = m: nat | 0 < m < 0x100_0000 witness 1

  function Header(n: nat, id: nat): (r: seq<byte>)
    ensures |r| == 4
  {
    LeBytes(n, 3) + [(id % 256) as byte]
  }

  /** Full frames, then one that is shorter and possibly empty. */
  function Frames(payload: seq<byte>, id: nat, m: FrameLimit): seq<byte>
    decreases |payload|
  {
    if |payload| < m then Header(|payload|, id) + payload
    else Header(m, id) + payload[..m] + Frames(payload[m..], id + 1, m)
  }

  /** The length a header declares. */
  function PayloadLength(head: seq<byte>): nat
    requires 3 <= |head|
  {
    head[0] as int + 0x100 * head[1] as int + 0x1_0000 * head[2] as int
  }

  lemma HeaderRoundTrip(n: nat, id: nat, b: seq<byte>)
    requires n < 0x100_0000 && 4 <= |b| && b[..4] == Header(n, id)
    ensures PayloadLength(b) == n
  {
    var k := 3;
    assert b[0..k] == b[..4][..k] == LeBytes(n, k);
    Int24RoundTrip(b, 0, n, k);
  }

  // ---- reading ----

  /** How one read ends: a whole packet, a packet that would exceed the limit,
      or an input that ends too early; `rest` is what was not consumed. */
  datatype Outcome =
    | Packet(payload: seq<byte>, rest: seq<byte>)
    | TooLarge(rest: seq<byte>)
    | PeerClosed

  /** Reads frames until one that is not full. The limit is checked against the
      total before a frame's payload is read. */
  function ReadFrames(input: seq<byte>, total: nat, m: FrameLimit, limit: nat): Outcome
    decreases |input|
  {
    if |input| < 4 then PeerClosed
    else
      var n := PayloadLength(input);
      if total + n > limit then TooLarge(input[4..])
      else if |input| < 4 + n then PeerClosed
      else if n != m then Packet(input[4..4 + n], input[4 + n..])
      else Before(input[4..4 + n], ReadFrames(input[4 + n..], total + n, m, limit))
  }

  function Before(chunk: seq<byte>, o: Outcome): Outcome {
    if o.Packet? then o.(payload := chunk + o.payload) else o
  }

  lemma BeforeBefore(a: seq<byte>, b: seq<byte>, o: Outcome)
    ensures Before(a, Before(b, o)) == Before(a + b, o)
  {
    if o.Packet? {
      assert a + (b + o.payload) == a + b + o.payload;
    }
  }

  /** One frame at the front of an input. */
  lemma ReadOne(n: nat, id: nat, chunk: seq<byte>, rest: seq<byte>, total: nat, m: FrameLimit, limit: nat)
    requires n == |chunk| < 0x100_0000
    ensures ReadFrames(Header(n, id) + chunk + rest, total, m, limit)
            == if total + n > limit then TooLarge(chunk + rest)
               else if n != m then Packet(chunk, rest)
               else Before(chunk, ReadFrames(rest, total + n, m, limit))
  {
    var input := Header(n, id) + chunk + rest;
    assert input[..4] == Header(n, id);
    HeaderRoundTrip(n, id, input);
    assert input[4..] == chunk + rest;
    assert input[4..4 + n] == chunk && input[4 + n..] == rest;
  }

  /** Reading what was framed gives the payload back and leaves what follows it,
      exactly when the payload is within the limit. */
  lemma {:induction false} FramesRoundTrip(payload: seq<byte>, id: nat, rest: seq<byte>,
                                           total: nat, m: FrameLimit, limit: nat)
    requires total <= limit
    ensures var o := ReadFrames(Frames(payload, id, m) + rest, total, m, limit);
            && (total + |payload| <= limit <==> o == Packet(payload, rest))
            && (total + |payload| > limit <==> o.TooLarge?)
    decreases |payload|
  {
    hide ReadFrames, Header;
    if |payload| < m {
      ReadOne(|payload|, id, payload, rest, total, m, limit);
    } else {
      var chunk, tail := payload[..m], payload[m..];
      var more := Frames(tail, id + 1, m);
      assert Frames(payload, id, m) + rest == Header(m, id) + chunk + (more + rest);
      ReadOne(m, id, chunk, more + rest, total, m, limit);
      assert chunk + tail == payload;
      if total + m <= limit {
        FramesRoundTrip(tail, id + 1, rest, total + m, m, limit);
      }
    }
  }

  /** A packet that was read is made of full frames and a last one that is not
      full, and the input is exactly those frames and the rest. */
  ghost predicate FramedAs(input: seq<byte>, payload: seq<byte>, rest: seq<byte>, m: FrameLimit)
    decreases |input|
  {
    && 4 <= |input|
    && var n := PayloadLength(input);
       && 4 + n <= |input| && n <= |payload|
       && input[4..4 + n] == payload[..n]
       && if n != m then n == |payload| && input[4 + n..] == rest
          else FramedAs(input[4 + n..], payload[n..], rest, m)
  }

  /** The reader delivers a packet exactly from the inputs that are framed so
      with a total within the limit. */
  lemma {:induction false} PacketIff(input: seq<byte>, payload: seq<byte>, rest: seq<byte>,
                                     total: nat, m: FrameLimit, limit: nat)
    requires total <= limit
    ensures ReadFrames(input, total, m, limit) == Packet(payload, rest)
            <==> FramedAs(input, payload, rest, m) && total + |payload| <= limit
    decreases |input|
  {
    if 4 <= |input| {
      var n := PayloadLength(input);
      if total + n <= limit && 4 + n <= |input| {
        var chunk := input[4..4 + n];
        if n == m {
          if n <= |payload| && chunk == payload[..n] {
            PacketIff(input[4 + n..], payload[n..], rest, total + n, m, limit);
            var o := ReadFrames(input[4 + n..], total + n, m, limit);
            assert payload == chunk + payload[n..];
            if o.Packet? && chunk + o.payload == payload {
              assert o.payload == (chunk + o.payload)[n..];
            }
          } else {
            var o := ReadFrames(input[4 + n..], total + n, m, limit);
            if o.Packet? {
              assert (chunk + o.payload)[..n] == chunk;
            }
          }
        } else {
          assert n == |payload| ==> payload[..n] == payload;
        }
      }
    }
  }

  // ---- the reader's loop ----

  /** The socket's input and what the reader changes of the connection. */
  class Source {
    var input: seq<byte>
    var closed: bool
    var inBytes: nat
    const maxAllowedPacket: nat

    constructor (input: seq<byte>, limit: nat)
      ensures this.input == input && !closed && inBytes == 0 && maxAllowedPacket == limit
    {
      this.input, closed, inBytes, maxAllowedPacket := input, false, 0, limit;
    }

    /** Reads exactly n bytes, or nothing when the peer closes before. */
    method Read(n: nat) returns (r: Option<seq<byte>>)
      modifies this`input
      ensures if n <= |old(input)| then r == Some(old(input)[..n]) && input == old(input)[n..]
              else r == None && input == old(input)
    {
      if n <= |input| {
        r := Some(input[..n]);
        input := input[n..];
      } else {
        r := None;
      }
    }
  }

  /** A packet as handed on: the first header followed by all payload bytes. */
  datatype ReadResult = Received(buffer: seq<byte>, length: nat) | Refused | Closed

  /** `readUnCompressed`: reads one packet of any number of frames. */
  method ReadUnCompressed(source: Source, m: FrameLimit) returns (r: ReadResult)
    modifies source
    ensures match ReadFrames(old(source.input), 0, m, source.maxAllowedPacket)
            case Packet(payload, rest) =>
              && r == Received(old(source.input)[..4] + payload, 4 + |payload|)
              && source.input == rest && source.closed == old(source.closed)
              && source.inBytes == old(source.inBytes) + |old(source.input)| - |rest|
            case TooLarge(rest) => r == Refused && source.closed && source.input == rest
            case PeerClosed => r == Closed && source.closed == old(source.closed)
  {
    hide ReadFrames, PayloadLength;
    var packetLength, payloadLen, length: nat := 0, m, 0;
    var buffer: Option<seq<byte>> := None;
    ghost var payload, head0: seq<byte> := [], [];
    while payloadLen == m
      invariant buffer == if length == 0 then None else Some(head0 + payload)
      invariant packetLength == |payload| && (length != 0 ==> length == 4 + |payload|)
      invariant length == 0 ==> payloadLen == m && payload == [] && source.input == old(source.input)
      invariant length != 0 ==> |old(source.input)| >= 4 && head0 == old(source.input)[..4]
      invariant source.closed == old(source.closed)
      invariant |source.input| <= |old(source.input)|
      invariant source.inBytes == old(source.inBytes) + |old(source.input)| - |source.input|
      invariant ReadFrames(old(source.input), 0, m, source.maxAllowedPacket)
             == if payloadLen == m
                then Before(payload, ReadFrames(source.input, packetLength, m, source.maxAllowedPacket))
                else Packet(payload, source.input)
      decreases payloadLen == m, |source.input|
    {
      ReadTurn(payload, source.input, packetLength, m, source.maxAllowedPacket);
      var head := source.Read(4);
      if head == None {
        return Closed;
      }
      source.inBytes := source.inBytes + |head.value|;
      payloadLen := PayloadLength(head.value);
      packetLength := packetLength + payloadLen;
      if packetLength > source.maxAllowedPacket {
        source.closed := true;
        return Refused;
      }
      var chunk := source.Read(payloadLen);
      if chunk == None {
        return Closed;
      }
      source.inBytes := source.inBytes + |chunk.value|;
      if buffer.Some? {
        buffer := Some(buffer.value + chunk.value);
        assert head0 + payload + chunk.value == head0 + (payload + chunk.value);
      } else {
        buffer := Some(head.value + chunk.value);
        length := length + 4;
        head0 := head.value;
        assert payload + chunk.value == chunk.value;
      }
      length := length + payloadLen;
      payload := payload + chunk.value;
    }
    r := Received(buffer.value, length);
  }

  /** One turn of the reader's loop. */
  lemma ReadTurn(payload: seq<byte>, input: seq<byte>, total: nat, m: FrameLimit, limit: nat)
    ensures Before(payload, ReadFrames(input, total, m, limit))
            == if |input| < 4 then PeerClosed
               else
                 var n, body := PayloadLength(input[..4]), input[4..];
                 if total + n > limit then TooLarge(body)
                 else if |body| < n then PeerClosed
                 else if n != m then Packet(payload + body[..n], body[n..])
                 else Before(payload + body[..n], ReadFrames(body[n..], total + n, m, limit))
  {
    if |input| >= 4 {
      var n, body := PayloadLength(input[..4]), input[4..];
      if total + n <= limit && n <= |body| {
        assert body[..n] == input[4..4 + n] && body[n..] == input[4 + n..];
        if n == m {
          BeforeBefore(payload, body[..n], ReadFrames(body[n..], total + n, m, limit));
        }
      }
    }
  }
}
