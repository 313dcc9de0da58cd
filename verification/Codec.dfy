/** The message layout of bench/workload.py: big-endian fields packed into a mutable buffer. */
module Codec {

  type Byte = b: int | 0 <= b < 256

  const HEADER_SIZE := 12

  datatype Result<+T> = Ok(value: T) | StructError | ValueError

  function Pow256(n: nat): (r: nat)
    ensures 1 <= r
  {
    if n == 0 then 1 else 256 * Pow256(n - 1)
  }

  /** The low-order `width` bytes of v, most significant first. */
  function BigEndian(v: nat, width: nat): (r: seq<Byte>)
    ensures |r| == width
  {
    if width == 0 then [] else BigEndian(v / 256, width - 1) + [v % 256]
  }

  function Decode(bytes: seq<Byte>): nat {
    if bytes == [] then 0 else 256 * Decode(bytes[..|bytes| - 1]) + bytes[|bytes| - 1]
  }

  predicate Fits(v: int, width: nat) { 0 <= v < Pow256(width) }

  lemma {:induction false} DecodeEncode(v: nat, width: nat)
    requires Fits(v, width)
    ensures Decode(BigEndian(v, width)) == v
  {
    if width != 0 {
      DecodeEncode(v / 256, width - 1);
      assert BigEndian(v, width)[..width - 1] == BigEndian(v / 256, width - 1);
    }
  }

  lemma {:induction false} EncodeDecode(bytes: seq<Byte>)
    ensures Fits(Decode(bytes), |bytes|)
    ensures BigEndian(Decode(bytes), |bytes|) == bytes
  {
    if bytes != [] {
      EncodeDecode(bytes[..|bytes| - 1]);
    }
  }

  /** x comes before y in the byte order used for keys: at the first difference, x has the smaller byte. */
  predicate FirstDiffers(x: seq<Byte>, y: seq<Byte>, i: int) {
    0 <= i < |x| && i < |y| && x[..i] == y[..i] && x[i] < y[i]
  }

  ghost predicate Before(x: seq<Byte>, y: seq<Byte>) { exists i :: FirstDiffers(x, y, i) }

  lemma BeforeByLast(x: seq<Byte>, y: seq<Byte>)
    requires |x| == |y| && x != []
    ensures var n := |x| - 1; Before(x, y) <==> Before(x[..n], y[..n]) || (x[..n] == y[..n] && x[n] < y[n])
  {
    var n := |x| - 1;
    forall i | 0 <= i < n
      ensures FirstDiffers(x, y, i) <==> FirstDiffers(x[..n], y[..n], i)
    {
      assert x[..n][..i] == x[..i] && y[..n][..i] == y[..i];
    }
    assert FirstDiffers(x, y, n) <==> x[..n] == y[..n] && x[n] < y[n];
  }

  lemma {:induction false} BeforeIsSmaller(x: seq<Byte>, y: seq<Byte>)
    requires |x| == |y|
    ensures Before(x, y) <==> Decode(x) < Decode(y)
  {
    if x != [] {
      hide Before, BigEndian, Pow256;
      var n := |x| - 1;
      BeforeIsSmaller(x[..n], y[..n]);
      BeforeByLast(x, y);
      EncodeDecode(x[..n]);
      EncodeDecode(y[..n]);
      assert Decode(x[..n]) == Decode(y[..n]) ==> x[..n] == y[..n];
    }
  }

  /** Big-endian bytes sort like the numbers they stand for. */
  lemma EncodingKeepsOrder(a: nat, b: nat, width: nat)
    requires Fits(a, width) && Fits(b, width)
    ensures Before(BigEndian(a, width), BigEndian(b, width)) <==> a < b
  {
    DecodeEncode(a, width);
    DecodeEncode(b, width);
    BeforeIsSmaller(BigEndian(a, width), BigEndian(b, width));
  }

  // ---- the buffer

  function Packed(buffer: seq<Byte>, offset: nat, v: nat, width: nat): (r: seq<Byte>)
    requires offset + width <= |buffer|
    ensures |r| == |buffer|
  {
    buffer[..offset] + BigEndian(v, width) + buffer[offset + width..]
  }

  /** The bytes before the last one are those of the quotient. */
  lemma BigEndianPrefix(bytes: seq<Byte>, rest: nat, k: nat)
    requires 0 < k <= |bytes| && bytes[..k] == BigEndian(rest, k)
    ensures bytes[k - 1] == rest % 256 && bytes[..k - 1] == BigEndian(rest / 256, k - 1)
  {
    assert bytes[..k][k - 1] == bytes[k - 1] && bytes[..k][..k - 1] == bytes[..k - 1];
  }

  /** `struct.pack_into`: writes the bytes of v, or raises and leaves the buffer alone. */
  method PackInto(buffer: array<Byte>, offset: nat, v: int, width: nat) returns (ok: bool)
    modifies buffer
    ensures ok <==> Fits(v, width) && offset + width <= buffer.Length
    ensures buffer[..] == if ok then Packed(old(buffer[..]), offset, v, width) else old(buffer[..])
  {
    if !Fits(v, width) || buffer.Length < offset + width {
      return false;
    }
    hide Pow256, BigEndian;
    ok := true;
    var rest, k := v, width;
    ghost var bytes := BigEndian(v, width);
    assert bytes[..width] == bytes;
    while 0 < k
      invariant 0 <= k <= width && 0 <= rest
      invariant bytes[..k] == BigEndian(rest, k)
      invariant forall j :: k <= j < width ==> buffer[offset + j] == bytes[j]
      invariant forall j :: 0 <= j < offset || offset + width <= j < buffer.Length ==> buffer[j] == old(buffer[j])
    {
      BigEndianPrefix(bytes, rest, k);
      k := k - 1;
      buffer[offset + k] := rest % 256;
      rest := rest / 256;
    }
    assert buffer[offset..offset + width] == bytes;
    assert buffer[..offset] == old(buffer[..offset]) && buffer[offset + width..] == old(buffer[offset + width..]);
    assert buffer[..] == buffer[..offset] + buffer[offset..offset + width] + buffer[offset + width..];
  }

  /** Slice assignment of as many bytes as the slice holds. */
  method WriteSlice(buffer: array<Byte>, offset: nat, bytes: seq<Byte>)
    requires offset + |bytes| == buffer.Length
    modifies buffer
    ensures buffer[..] == old(buffer[..offset]) + bytes
  {
    for k := 0 to |bytes|
      invariant buffer[..offset] == old(buffer[..offset])
      invariant forall j :: 0 <= j < k ==> buffer[offset + j] == bytes[j]
    {
      buffer[offset + k] := bytes[k];
    }
  }

  // ---- messages

  class Message {
    const key: seq<Byte>
    const value: array<Byte>
    const seqNo: nat

    constructor (key: seq<Byte>, value: array<Byte>, seqNo: nat)
      ensures this.key == key && this.value == value && this.seqNo == seqNo
    {
      this.key, this.value, this.seqNo := key, value, seqNo;
    }

    /** Overwrites the timestamp field in place. */
    method Stamp(ts: int) returns (ok: bool)
      modifies value
      ensures ok <==> Fits(ts, 8) && 8 <= value.Length
      ensures value[..] == if ok then Packed(old(value[..]), 0, ts, 8) else old(value[..])
    {
      ok := PackInto(value, 0, ts, 8);
    }
  }

  /** The bytes of an unstamped message. */
  function Body(seqNo: nat, filler: seq<Byte>): (r: seq<Byte>)
    ensures |r| == HEADER_SIZE + |filler|
  {
    BigEndian(0, 8) + BigEndian(seqNo, 4) + filler
  }

  lemma HeaderPacked(buffer: seq<Byte>, seqNo: nat)
    requires HEADER_SIZE <= |buffer|
    ensures Packed(Packed(buffer, 0, 0, 8), 8, seqNo, 4)[..HEADER_SIZE] == BigEndian(0, 8) + BigEndian(seqNo, 4)
  {
    hide BigEndian;
  }

  /** `make_message`; the filler is any function that returns as many bytes as it is asked for. */
  method MakeMessage(seed: int, seqNo: nat, size: int, filler: (int, nat, nat) -> seq<Byte>)
    returns (r: Result<Message>)
    requires forall a, b, n :: |filler(a, b, n)| == n
    ensures r.ValueError? <==> size < HEADER_SIZE
    ensures r.StructError? <==> HEADER_SIZE <= size && !Fits(seqNo, 4)
    ensures r.Ok? ==>
              && fresh(r.value) && fresh(r.value.value)
              && r.value.seqNo == seqNo
              && r.value.key == BigEndian(seqNo, 4)
              && r.value.value[..] == Body(seqNo, filler(seed, seqNo, size - HEADER_SIZE))
  {
    if size < HEADER_SIZE {
      return ValueError;
    }
    hide BigEndian, Pow256, Packed;
    var body := new Byte[size](_ => 0);
    ghost var zeros := body[..];
    var placed := PackInto(body, 0, 0, 8);
    var ok := PackInto(body, 8, seqNo, 4);
    if !ok {
      return StructError;
    }
    HeaderPacked(zeros, seqNo);
    assert body[..HEADER_SIZE] == BigEndian(0, 8) + BigEndian(seqNo, 4);
    WriteSlice(body, HEADER_SIZE, filler(seed, seqNo, size - HEADER_SIZE));
    var m := new Message(BigEndian(seqNo, 4), body, seqNo);
    return Ok(m);
  }

  /** `parse`: the timestamp and the sequence number. */
  function Parse(value: seq<Byte>): Result<(nat, nat)> {
    if |value| < HEADER_SIZE then StructError else Ok((Decode(value[..8]), Decode(value[8..12])))
  }

  /** A message body after some stampings. */
  function StampAll(value: seq<Byte>, stamps: seq<nat>): (r: seq<Byte>)
    requires 8 <= |value|
    ensures |r| == |value|
  {
    if stamps == [] then value
    else Packed(StampAll(value, stamps[..|stamps| - 1]), 0, stamps[|stamps| - 1], 8)
  }

  /** Only the timestamp field changes, and it holds the last stamp. */
  lemma {:induction false} StampAllFrame(value: seq<Byte>, stamps: seq<nat>)
    requires 8 <= |value|
    ensures StampAll(value, stamps)[8..] == value[8..]
    ensures StampAll(value, stamps)[..8] == if stamps == [] then value[..8] else BigEndian(stamps[|stamps| - 1], 8)
  {
    if stamps != [] {
      StampAllFrame(value, stamps[..|stamps| - 1]);
    }
  }

  /**
   Whatever the seed, size and earlier stamps: parsing gives back the last stamp and the sequence number, and bytes 8
   to 11 are the key.
   */
  lemma RoundTrip(seqNo: nat, filler: seq<Byte>, stamps: seq<nat>)
    requires Fits(seqNo, 4)
    requires forall i :: 0 <= i < |stamps| ==> Fits(stamps[i], 8)
    ensures var value := StampAll(Body(seqNo, filler), stamps);
            && Parse(value) == Ok((if stamps == [] then 0 else stamps[|stamps| - 1], seqNo))
            && value[8..12] == BigEndian(seqNo, 4)
            && value[12..] == filler
            && value[8..] == Body(seqNo, filler)[8..]
  {
    hide BigEndian, Pow256, Decode, StampAll;
    var body := Body(seqNo, filler);
    var value := StampAll(body, stamps);
    StampAllFrame(body, stamps);
    assert body[..8] == BigEndian(0, 8) && body[8..12] == BigEndian(seqNo, 4);
    assert value[8..12] == value[8..][..4] == body[8..][..4] == BigEndian(seqNo, 4);
    assert value[12..] == value[8..][4..] == body[8..][4..] == filler;
    DecodeEncode(seqNo, 4);
    DecodeEncode(0, 8);
    if stamps != [] {
      DecodeEncode(stamps[|stamps| - 1], 8);
    }
  }

  /** Messages with different sequence numbers have different keys, in the order of their numbers. */
  lemma KeysFollowSequence(a: nat, b: nat)
    requires Fits(a, 4) && Fits(b, 4)
    ensures BigEndian(a, 4) == BigEndian(b, 4) <==> a == b
    ensures Before(BigEndian(a, 4), BigEndian(b, 4)) <==> a < b
  {
    DecodeEncode(a, 4);
    DecodeEncode(b, 4);
    EncodingKeepsOrder(a, b, 4);
  }

  /** `generator` with a count: messages 0, 1, 2, … in separate buffers, up to the first error. */
  method Generate(seed: int, size: int, count: nat, filler: (int, nat, nat) -> seq<Byte>)
    returns (messages: seq<Message>, error: Result<Message>)
    requires forall a, b, n :: |filler(a, b, n)| == n
    ensures |messages| <= count
    ensures |messages| == count <==> count == 0 || (HEADER_SIZE <= size && Fits(count - 1, 4))
    ensures |messages| < count ==> error.ValueError? || error.StructError?
    ensures forall i :: 0 <= i < |messages| ==>
              HEADER_SIZE <= size && messages[i].seqNo == i && messages[i].key == BigEndian(i, 4)
    ensures forall i :: 0 <= i < |messages| ==>
              && fresh(messages[i].value)
              && messages[i].value[..] == Body(i, filler(seed, i, size - HEADER_SIZE))
    ensures forall i, j :: 0 <= i < j < |messages| ==> messages[i].value != messages[j].value
  {
    messages, error := [], StructError;
    var seqNo := 0;
    while seqNo < count
      invariant seqNo == |messages| <= count
      invariant seqNo == 0 || (HEADER_SIZE <= size && Fits(seqNo - 1, 4))
      invariant forall i :: 0 <= i < |messages| ==> messages[i].seqNo == i && messages[i].key == BigEndian(i, 4)
      invariant forall i :: 0 <= i < |messages| ==>
                  && fresh(messages[i].value)
                  && messages[i].value[..] == Body(i, filler(seed, i, size - HEADER_SIZE))
      invariant forall i, j :: 0 <= i < j < |messages| ==> messages[i].value != messages[j].value
    {
      error := MakeMessage(seed, seqNo, size, filler);
      if !error.Ok? {
        return;
      }
      messages := messages + [error.value];
      seqNo := seqNo + 1;
    }
  }
}
