/** Compressed packets: several plain packets are joined, deflated behind a
    seven-byte header and taken apart again. Deflate and inflate are parameters,
    of which only that inflating undoes deflating is used. */
module Compression {
  import opened Wrappers
  import opened MysqlMessages

  datatype Zlib = Zlib(deflate: Bytes -> Bytes, inflate: Bytes -> Bytes)

  ghost predicate Lossless(z: Zlib) {
    forall b: Bytes :: z.inflate(z.deflate(b)) == b
  }

  /** A packet whose header declares its own payload. */
  predicate Framed(packet: Bytes) {
    |packet| >= 4 && |packet| == 4 + Int24At(packet, 0)
  }

  // ---- splitting ----

  /** Packets as their headers declare them; the last one may be cut short. */
  function Split(b: Bytes): seq<Bytes>
    decreases |b|
  {
    if b == [] then []
    else
      var n := 4 + Int24At(b, 0);
      if n >= |b| then [b] else [b[..n]] + Split(b[n..])
  }

  /** Whatever the headers say, no byte is lost or moved. */
  lemma {:induction false} ConcatOfSplit(b: Bytes)
    ensures Concat(Split(b)) == b
    decreases |b|
  {
    hide Int24At;
    if b != [] {
      var n := 4 + Int24At(b, 0);
      if n >= |b| {
        assert [b][1..] == [];
      } else {
        var rest := Split(b[n..]);
        ConcatOfSplit(b[n..]);
        assert Split(b) == [b[..n]] + rest && ([b[..n]] + rest)[1..] == rest;
        assert b[..n] + b[n..] == b;
      }
    }
  }

  lemma SameHeader(first: Bytes, rest: Bytes)
    requires |first| >= 3
    ensures Int24At(first + rest, 0) == Int24At(first, 0)
  {
  }

  /** Splitting what was joined gives the packets back. */
  lemma {:induction false} SplitOfConcat(packets: seq<Bytes>)
    requires forall i | 0 <= i < |packets| :: Framed(packets[i])
    ensures Split(Concat(packets)) == packets
    decreases |packets|
  {
    hide Int24At;
    if packets != [] {
      var first, others := packets[0], packets[1..];
      var rest := Concat(others);
      assert Framed(first);
      SameHeader(first, rest);
      assert forall i | 0 <= i < |others| :: others[i] == packets[i + 1];
      SplitOfConcat(others);
      if rest == [] {
        assert others == Split(rest) == [];
        assert first + rest == first && packets == [first];
      } else {
        assert (first + rest)[..|first|] == first && (first + rest)[|first|..] == rest;
        assert packets == [first] + others;
      }
    }
  }

  lemma SplitStep(b: Bytes, p: nat)
    requires p < |b|
    ensures var q := p + 4 + Int24At(b, p);
            Split(b[p..]) == if q < |b| then [b[p..q]] + Split(b[q..]) else [b[p..]]
  {
    var tail, n := b[p..], 4 + Int24At(b, p);
    assert Int24At(tail, 0) == Int24At(b, p);
    hide Int24At;
    if p + n < |b| {
      assert tail[..n] == b[p..p + n] && tail[n..] == b[p + n..];
    }
  }

  /** `splitPackets`: slices at the declared lengths; a slice ends at the end. */
  method SplitPackets(b: Bytes) returns (r: seq<Bytes>)
    ensures r == Split(b)
  {
    hide Int24At;
    r := [];
    var p: nat := 0;
    ghost var rest := Split(b);
    assert b[0..] == b;
    while p < |b|
      invariant Split(b) == r + rest
      invariant rest == if p < |b| then Split(b[p..]) else []
      decreases |b| - p
    {
      SplitStep(b, p);
      hide Split;
      var q: nat := p + (Int24At(b, p) + 4);
      var sub := if q < |b| then b[p..q] else b[p..];
      rest := if q < |b| then Split(b[q..]) else [];
      Shift(r, sub, rest);
      r := r + [sub];
      p := q;
    }
  }

  lemma Shift<T>(r: seq<T>, x: T, rest: seq<T>)
    ensures r + ([x] + rest) == r + [x] + rest
  {
  }

  // ---- compressing ----

  /** The seven bytes in front: the length that follows, the sequence id of the
      first packet, and the length before compression, or 0 for none. Below four
      bytes there is no sequence id to copy, and that byte is left as it was. */
  ghost predicate CompressedAs(z: Zlib, b: Bytes, minLength: nat, r: Bytes) {
    if |b| < minLength
    then |r| == 7 + |b| && r[..3] == LeBytes(|b|, 3) && (|b| > 3 ==> r[3] == b[3])
         && r[4..7] == [0, 0, 0] && r[7..] == b
    else |b| > 3 && r == LeBytes(|z.deflate(b)|, 3) + [b[3]] + LeBytes(|b|, 3) + z.deflate(b)
  }

  /** Copies bytes into a buffer at p. */
  method CopyInto(a: array<byte>, p: nat, bytes: Bytes)
    requires p + |bytes| <= a.Length
    modifies a
    ensures forall j | 0 <= j < |bytes| :: a[p + j] == bytes[j]
    ensures forall j | 0 <= j < a.Length && (j < p || p + |bytes| <= j) :: a[j] == old(a[j])
  {
    for i := 0 to |bytes|
      invariant forall j | 0 <= j < i :: a[p + j] == bytes[j]
      invariant forall j | 0 <= j < a.Length && (j < p || p + i <= j) :: a[j] == old(a[j])
    {
      a[p + i] := bytes[i];
    }
  }

  /** `compressMysqlPacket` for a list of packets. */
  method CompressMysqlPacket(z: Zlib, packets: seq<Bytes>, minLength: nat) returns (r: Result<Bytes, WireError>)
    ensures r.Err? <==> |Concat(packets)| >= minLength && |Concat(packets)| < 4
    ensures r.Ok? ==> CompressedAs(z, Concat(packets), minLength, r.value)
  {
    hide LeBytes;
    var b := Concat(packets);
    if |b| < minLength {
      var out := new byte[7 + |b|];
      CopyInto(out, 0, if |b| < 4 then b else b[..4]);
      CopyInto(out, 0, LeBytes(|b|, 3));
      assert |b| > 3 ==> out[3] == b[3];
      var zeros: Bytes := [0, 0, 0];
      CopyInto(out, 4, zeros);
      CopyInto(out, 7, b);
      assert forall j | 0 <= j < 3 :: out[4 + j] == zeros[j];
      assert out[..][..3] == LeBytes(|b|, 3) && out[..][4..7] == zeros && out[..][7..] == b;
      return Ok(out[..]);
    }
    if |b| < 4 {
      return Err(OutOfRange);
    }
    var deflated := z.deflate(b);
    r := Ok(LeBytes(|deflated|, 3) + [b[3]] + LeBytes(|b|, 3) + deflated);
  }

  // ---- decompressing ----

  /** What comes out: the payload as it is, unsplit, when the header says it was
      not compressed; otherwise the packets of the inflated payload. */
  function Decompressed(z: Zlib, b: Bytes): seq<Bytes>
    requires 7 <= |b|
  {
    var n := Int24At(b, 0);
    var payload := Slice(b, 7, 7 + n);
    if Int24At(b, 4) == 0 then [payload] else Split(z.inflate(payload))
  }

  /** A payload shorter than announced leaves the rest of the result unset. */
  method DecompressMysqlPacket(z: Zlib, b: Bytes) returns (r: Result<seq<Bytes>, WireError>)
    ensures r.Err? <==> |b| < 7 || (Int24At(b, 4) == 0 && |b| < 7 + Int24At(b, 0))
    ensures r.Ok? ==> r.value == Decompressed(z, b)
  {
    if |b| < 7 || (Int24At(b, 4) == 0 && |b| < 7 + Int24At(b, 0)) {
      return Err(OutOfRange);
    }
    var payload := Slice(b, 7, 7 + Int24At(b, 0));
    if Int24At(b, 4) == 0 {
      r := Ok([payload]);
    } else {
      var packets := SplitPackets(z.inflate(payload));
      r := Ok(packets);
    }
  }

  // ---- there and back ----

  /** The three-byte lengths say what they should: what follows fits, and a
      compressed payload is not announced as one of length 0. */
  predicate LengthsFit(z: Zlib, b: Bytes, minLength: nat) {
    if |b| < minLength then |b| < 0x100_0000
    else |z.deflate(b)| < 0x100_0000 && |b| % 0x100_0000 != 0
  }

  lemma HeaderOf(b: Bytes, p: nat, n: nat)
    requires p + 3 <= |b| && b[p..p + 3] == LeBytes(n, 3)
    ensures Int24At(b, p) == n % 0x100_0000
  {
    var k := 3;
    assert b[p..p + k] == LeBytes(n, k);
    Int24RoundTrip(b, p, n, k);
  }

  /** On both sides of the threshold, decompressing a compressed list of packets
      gives its bytes back, and on the compressed side exactly the packets. */
  lemma CompressionRoundTrip(z: Zlib, packets: seq<Bytes>, minLength: nat, r: Bytes)
    requires Lossless(z) && CompressedAs(z, Concat(packets), minLength, r)
    requires LengthsFit(z, Concat(packets), minLength)
    ensures 7 <= |r| && Concat(Decompressed(z, r)) == Concat(packets)
    ensures |Concat(packets)| < minLength ==> Decompressed(z, r) == [Concat(packets)]
    ensures |Concat(packets)| >= minLength && (forall i | 0 <= i < |packets| :: Framed(packets[i])) ==>
              Decompressed(z, r) == packets
  {
    hide LeBytes, Int24At;
    var b := Concat(packets);
    if |b| < minLength {
      assert r[0..3] == r[..3];
      HeaderOf(r, 0, |b|);
      ZeroAt(r, 4);
      assert Slice(r, 7, 7 + |b|) == b;
      assert [b][1..] == [];
      assert Concat([b]) == b + Concat([b][1..]) == b;
    } else {
      var deflated := z.deflate(b);
      assert r[0..3] == LeBytes(|deflated|, 3) && r[4..7] == LeBytes(|b|, 3);
      HeaderOf(r, 0, |deflated|);
      HeaderOf(r, 4, |b|);
      assert Slice(r, 7, 7 + |deflated|) == deflated;
      ConcatOfSplit(b);
      if forall i | 0 <= i < |packets| :: Framed(packets[i]) {
        SplitOfConcat(packets);
      }
    }
  }

  lemma ZeroAt(b: Bytes, p: nat)
    requires p + 3 <= |b| && b[p..p + 3] == [0, 0, 0]
    ensures Int24At(b, p) == 0
  {
    assert b[p] == b[p..p + 3][0] && b[p + 1] == b[p..p + 3][1] && b[p + 2] == b[p..p + 3][2];
  }

  /** Below the threshold the packets come back joined: it is the same list
      exactly when there was one packet. */
  lemma UncompressedIsJoined(z: Zlib, packets: seq<Bytes>, minLength: nat, r: Bytes)
    requires CompressedAs(z, Concat(packets), minLength, r) && |Concat(packets)| < minLength
    requires |Concat(packets)| < 0x100_0000
    ensures 7 <= |r| && (Decompressed(z, r) == packets <==> |packets| == 1)
  {
    hide LeBytes, Int24At;
    var b := Concat(packets);
    assert r[0..3] == r[..3];
    HeaderOf(r, 0, |b|);
    ZeroAt(r, 4);
    assert Slice(r, 7, 7 + |b|) == b;
    if |packets| == 1 {
      assert packets[1..] == [] && packets == [packets[0]];
      assert b == packets[0] + Concat(packets[1..]) == packets[0];
    }
  }

  /** The header byte by byte: three for the length of what follows it, one that is
      the first packet's own sequence id, three for the length before compression,
      which are 0 exactly when the packets follow as they are. */
  lemma CompressedHeader(z: Zlib, packets: seq<Bytes>, minLength: nat, r: Bytes)
    requires CompressedAs(z, Concat(packets), minLength, r) && LengthsFit(z, Concat(packets), minLength)
    ensures var b, deflated := Concat(packets), z.deflate(Concat(packets));
            && 7 <= |r|
            && r[0] as int + 256 * r[1] as int + 65536 * r[2] as int == |r| - 7
            && (packets != [] && |packets[0]| > 3 ==> r[3] == packets[0][3])
            && r[4] as int + 256 * r[5] as int + 65536 * r[6] as int
               == (if |b| < minLength then 0 else |b| % 0x100_0000)
            && r[7..] == if |b| < minLength then b else deflated
  {
    hide LeBytes;
    var b := Concat(packets);
    if packets != [] && |packets[0]| > 3 {
      assert b == packets[0] + Concat(packets[1..]);
      assert b[3] == packets[0][3];
    }
    assert r[0..3] == r[..3];
    if |b| < minLength {
      HeaderOf(r, 0, |b|);
      ZeroAt(r, 4);
    } else {
      var deflated := z.deflate(b);
      assert r[..3] == LeBytes(|deflated|, 3) && r[4..7] == LeBytes(|b|, 3) && r[3] == b[3] && r[7..] == deflated;
      HeaderOf(r, 0, |deflated|);
      HeaderOf(r, 4, |b|);
    }
  }
}
