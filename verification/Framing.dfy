/** The length-prefixed record files DeviceDumpFailures.dat and DeviceDumpRecords.dat:
    the recorder appends frames, the offline tool splits them again. The prefix is the
    Base 128 Varint of the Protocol Buffers Encoding document. Messages are opaque bytes; parses says which of
    them the tool can parse. */
module Framing {
  type Byte = x: int | 0 <= x < 256
  type Bytes = seq<Byte>

  const UINT32_MODULUS: int := 0x1_0000_0000

  // ---------------------------------------------------------------- writer

  /** Seven bits a byte, low group first, the high bit set on all but the last byte. */
  function Varint(n: nat): (v: Bytes)
    ensures v != []
  {
    if n > 0x7F then [n % 128 + 128] + Varint(n / 128) else [n]
  }

  /** One frame. The length is narrowed to 32 bits before it is written. */
  function Frame(message: Bytes): Bytes {
    Varint(|message| % 0x1_0000_0000) + message
  }

  function Frames(messages: seq<Bytes>): Bytes {
    if messages == [] then [] else Frame(messages[0]) + Frames(messages[1..])
  }

  class FrameLog {
    var contents: Bytes

    constructor ()
      ensures contents == []
    {
      contents := [];
    }

    /** The byte loop shared by both outcome files. */
    method Append(message: Bytes)
      modifies this
      ensures contents == old(contents) + Frame(message)
    {
      hide Varint;
      var size: nat := |message| % 0x1_0000_0000;
      ghost var put: Bytes := [];
      while size > 0x7F
        invariant contents == old(contents) + put
        invariant Varint(|message| % 0x1_0000_0000) == put + Varint(size)
      {
        VarintOne(size);
        NextByte(old(contents), put, size % 128 + 128, Varint(size / 128));
        contents := contents + [size % 128 + 128];
        put := put + [size % 128 + 128];
        size := size / 128;
      }
      VarintOne(size);
      LastByte(old(contents), put, size, message);
      contents := contents + [size];
      contents := contents + message;
    }

    /** Varint unfolded once. */
    static lemma VarintOne(n: nat)
      ensures Varint(n) == if n > 0x7F then [n % 128 + 128] + Varint(n / 128) else [n]
    {
    }

    static lemma NextByte(before: Bytes, put: Bytes, b: Byte, rest: Bytes)
      ensures (before + put) + [b] == before + (put + [b]) && put + ([b] + rest) == (put + [b]) + rest
    {
    }

    static lemma LastByte(before: Bytes, put: Bytes, b: Byte, message: Bytes)
      ensures (before + put) + [b] + message == before + ((put + [b]) + message)
    {
    }
  }

  // ---------------------------------------------------------------- reader

  /** What _DecodeVarint32 makes of a buffer at a position: a 32-bit value and the position
      after it, an index error at the end of the buffer, or more than ten bytes. */
  datatype VarintRead = Value(n: nat, next: nat) | EndOfBuffer | TooManyBytes

  /** groups counts the 7-bit groups already taken; the value here is not yet narrowed. */
  function RawVarint(buf: Bytes, pos: nat, groups: nat): (r: VarintRead)
    requires pos <= |buf| && groups < 10
    ensures r.Value? ==> pos < r.next <= |buf|
    decreases |buf| - pos
  {
    if pos == |buf| then EndOfBuffer
    else if buf[pos] < 128 then Value(buf[pos], pos + 1)
    else if groups + 1 >= 10 then TooManyBytes
    else
      match RawVarint(buf, pos + 1, groups + 1)
      case Value(n, next) => Value(buf[pos] % 128 + 128 * n, next)
      case error => error
  }

  function ReadVarint(buf: Bytes, pos: nat): (r: VarintRead)
    requires pos <= |buf|
    ensures r.Value? ==> pos < r.next <= |buf| && r.n < UINT32_MODULUS
  {
    match RawVarint(buf, pos, 0)
    case Value(n, next) => Value(n % 0x1_0000_0000, next)
    case error => error
  }

  datatype Decoded = Decoded(messages: seq<Bytes>, clean: bool) {
    function Prepend(earlier: seq<Bytes>): Decoded {
      Decoded(earlier + messages, clean)
    }

    lemma PrependTwice(first: seq<Bytes>, second: seq<Bytes>)
      ensures Prepend(second).Prepend(first) == Prepend(first + second)
    {
      assert first + (second + messages) == (first + second) + messages;
    }
  }

  /** Python slices stop at the end of the buffer. */
  function Slice(buf: Bytes, from: nat, to: nat): Bytes
    requires from <= |buf| && from <= to
  {
    if to <= |buf| then buf[from..to] else buf[from..]
  }

  /** decode_length_delimited_binary from position n: the messages handed on, and whether it
      ran to the end of the buffer without raising. A message that does not parse raises. */
  function Decode(parses: Bytes -> bool, buf: Bytes, n: nat): Decoded
    decreases |buf| - n
  {
    if n >= |buf| then Decoded([], true)
    else
      match ReadVarint(buf, n)
      case Value(len, next) =>
        var message := Slice(buf, next, next + len);
        if parses(message) then Decode(parses, buf, next + len).Prepend([message]) else Decoded([], false)
      case _ => Decoded([], false)
  }

  class LogReader {
    var messages: seq<Bytes>

    constructor ()
      ensures messages == []
    {
      messages := [];
    }

    /** The varint loop of the protobuf runtime. */
    static method DecodeVarint32(buf: Bytes, start: nat) returns (r: VarintRead)
      requires start <= |buf|
      ensures r == ReadVarint(buf, start)
    {
      var result: nat, weight: nat, groups: nat, pos: nat := 0, 1, 0, start;
      while true
        invariant start <= pos <= |buf| && groups < 10
        invariant RawVarint(buf, start, 0) == Scaled(result, weight, RawVarint(buf, pos, groups))
        decreases 10 - groups
      {
        if pos == |buf| {
          return EndOfBuffer;
        }
        var b: int := buf[pos];
        ScaledOneMore(buf, pos, groups, result, weight);
        result := result + (b % 128) * weight;
        pos := pos + 1;
        if b < 128 {
          return Value(result % 0x1_0000_0000, pos);
        }
        if groups + 1 >= 10 {
          return TooManyBytes;
        }
        groups, weight := groups + 1, weight * 128;
      }
    }

    /** The whole varint when result is taken already and r, scaled by weight, remains. */
    static ghost function Scaled(result: nat, weight: nat, r: VarintRead): VarintRead {
      match r
      case Value(n, next) => Value(result + n * weight, next)
      case error => error
    }

    static lemma ScaledOneMore(buf: Bytes, pos: nat, groups: nat, result: nat, weight: nat)
      requires pos < |buf| && groups < 10
      ensures var total := result + (buf[pos] % 128) * weight;
              Scaled(result, weight, RawVarint(buf, pos, groups)) ==
              if buf[pos] < 128 then Value(total, pos + 1)
              else if groups + 1 >= 10 then TooManyBytes
              else Scaled(total, weight * 128, RawVarint(buf, pos + 1, groups + 1))
    {
      if buf[pos] >= 128 && groups + 1 < 10 {
        var r := RawVarint(buf, pos + 1, groups + 1);
        if r.Value? {
          assert (buf[pos] % 128 + 128 * r.n) * weight == (buf[pos] % 128) * weight + r.n * (weight * 128);
        }
      }
    }

    /** The index loop of the tool; ok is false where the tool raises. */
    method DecodeLengthDelimited(parses: Bytes -> bool, buf: Bytes) returns (ok: bool)
      modifies this
      ensures messages == old(messages) + Decode(parses, buf, 0).messages && ok == Decode(parses, buf, 0).clean
    {
      var n: nat := 0;
      while n < |buf|
        invariant Decode(parses, buf, 0).Prepend(old(messages)) == Decode(parses, buf, n).Prepend(messages)
      {
        var r := DecodeVarint32(buf, n);
        if !r.Value? {
          return false;
        }
        var message := Slice(buf, r.next, r.next + r.n);
        if !parses(message) {
          return false;
        }
        Decode(parses, buf, r.next + r.n).PrependTwice(messages, [message]);
        messages := messages + [message];
        n := r.next + r.n;
      }
      return true;
    }
  }

  // ---------------------------------------------------------------- the wire form

  /** What the low seven bits of some bytes denote, the first byte the lowest. */
  ghost function Denotes(v: Bytes): nat {
    if v == [] then 0 else v[0] % 128 + 128 * Denotes(v[1..])
  }

  /** The first k bytes from pos on say that another one follows. */
  ghost predicate Continues(buf: Bytes, pos: nat, k: nat) {
    pos + k <= |buf| && forall i :: pos <= i < pos + k ==> buf[i] >= 128
  }

  /** Written is the shortest form of the length: seven bits a byte, low ones first. */
  lemma {:induction false} VarintDenotes(n: nat)
    ensures var v := Varint(n); var last := |v| - 1;
            Denotes(v) == n && Continues(v, 0, last) && v[last] < 128 && (last > 0 ==> v[last] > 0)
  {
    if n > 0x7F {
      VarintDenotes(n / 128);
      var v := Varint(n);
      assert v[1..] == Varint(n / 128);
    } else {
      assert Varint(n)[1..] == [];
    }
  }

  lemma {:induction false} RawVarintReads(buf: Bytes, pos: nat, groups: nat, k: nat)
    requires Continues(buf, pos, k) && groups < 10
    ensures groups + k < 10 && pos + k < |buf| && buf[pos + k] < 128 ==>
              RawVarint(buf, pos, groups) == Value(Denotes(buf[pos..pos + k + 1]), pos + k + 1)
    ensures groups + k < 10 && pos + k == |buf| ==> RawVarint(buf, pos, groups) == EndOfBuffer
    ensures groups + k >= 10 ==> RawVarint(buf, pos, groups) == TooManyBytes
    decreases k
  {
    if k > 0 {
      if groups + 1 < 10 {
        RawVarintReads(buf, pos + 1, groups + 1, k - 1);
      }
      if pos + k < |buf| {
        assert buf[pos..pos + k + 1][1..] == buf[pos + 1..pos + k + 1];
      }
    } else if pos < |buf| {
      assert buf[pos..pos + 1][1..] == [];
    }
  }

  /** Any varint, the shortest or not, reads as what it denotes modulo 2^32; the end of the buffer inside
      it and a tenth byte that is not its last raise. */
  lemma VarintReads(buf: Bytes, pos: nat, k: nat)
    requires Continues(buf, pos, k) && (k == 10 || pos + k == |buf| || buf[pos + k] < 128)
    ensures ReadVarint(buf, pos)
         == if k >= 10 then TooManyBytes
            else if pos + k == |buf| then EndOfBuffer
            else Value(Denotes(buf[pos..pos + k + 1]) % 0x1_0000_0000, pos + k + 1)
  {
    RawVarintReads(buf, pos, 0, k);
  }

  // ---------------------------------------------------------------- properties

  function Power128(k: nat): nat {
    if k == 0 then 1 else 128 * Power128(k - 1)
  }

  lemma {:induction false} VarintSize(n: nat, k: nat)
    requires k > 0 && n < Power128(k)
    ensures 1 <= |Varint(n)| <= k
  {
    if n > 0x7F {
      VarintSize(n / 128, k - 1);
    }
  }

  lemma LengthSize(n: nat)
    requires n < UINT32_MODULUS
    ensures 1 <= |Varint(n)| <= 5
  {
    assert Power128(2) == 128 * 128;
    assert Power128(4) == 128 * 128 * 128 * 128;
    assert Power128(5) == 128 * 128 * 128 * 128 * 128;
    VarintSize(n, 5);
  }

  /** Every length prefix takes one to five bytes. */
  lemma PrefixSize(message: Bytes)
    ensures 1 <= |Varint(|message| % 0x1_0000_0000)| <= 5
  {
    LengthSize(|message| % 0x1_0000_0000);
  }

  /** Bytes in front of the position do not matter. */
  lemma {:induction false} RawVarintShift(front: Bytes, buf: Bytes, pos: nat, groups: nat)
    requires pos <= |buf| && groups < 10
    ensures RawVarint(front + buf, |front| + pos, groups) ==
            match RawVarint(buf, pos, groups)
            case Value(n, next) => Value(n, |front| + next)
            case error => error
    decreases 10 - groups
  {
    if pos < |buf| && buf[pos] >= 128 && groups + 1 < 10 {
      RawVarintShift(front, buf, pos + 1, groups + 1);
    }
  }

  lemma ReadVarintShift(front: Bytes, buf: Bytes, pos: nat)
    requires pos <= |buf|
    ensures ReadVarint(front + buf, |front| + pos) ==
            match ReadVarint(buf, pos)
            case Value(n, next) => Value(n, |front| + next)
            case error => error
  {
    RawVarintShift(front, buf, pos, 0);
  }

  lemma SliceShift(front: Bytes, buf: Bytes, from: nat, to: nat)
    requires from <= |buf| && from <= to
    ensures Slice(front + buf, |front| + from, |front| + to) == Slice(buf, from, to)
  {
    var k := if to <= |buf| then to else |buf|;
    assert (front + buf)[|front| + from..|front| + k] == buf[from..k];
  }

  lemma SliceIgnoresTail(buf: Bytes, tail: Bytes, from: nat, to: nat)
    requires from <= to <= |buf|
    ensures Slice(buf + tail, from, to) == Slice(buf, from, to)
  {
    assert (buf + tail)[from..to] == buf[from..to];
  }

  /** Decode unfolded once, for the proofs that hide it. */
  lemma DecodeOne(parses: Bytes -> bool, buf: Bytes, n: nat)
    ensures n >= |buf| ==> Decode(parses, buf, n) == Decoded([], true)
    ensures n < |buf| ==>
            match ReadVarint(buf, n)
            case Value(len, next) =>
              var message := Slice(buf, next, next + len);
              Decode(parses, buf, n) ==
              if parses(message) then Decode(parses, buf, next + len).Prepend([message]) else Decoded([], false)
            case _ => Decode(parses, buf, n) == Decoded([], false)
  {
  }

  lemma {:induction false} DecodeShift(parses: Bytes -> bool, front: Bytes, buf: Bytes, n: nat)
    ensures Decode(parses, front + buf, |front| + n) == Decode(parses, buf, n)
    decreases |buf| - n
  {
    hide *;
    DecodeOne(parses, buf, n);
    DecodeOne(parses, front + buf, |front| + n);
    if n < |buf| {
      ReadVarintShift(front, buf, n);
      var r := ReadVarint(buf, n);
      if r.Value? {
        var end := r.next + r.n;
        DecodeShift(parses, front, buf, end);
        SliceShift(front, buf, r.next, end);
      }
    }
  }

  /** Reading a varint back, whatever follows it. */
  lemma {:induction false} ReadBack(n: nat, tail: Bytes, groups: nat)
    requires groups + |Varint(n)| <= 10
    ensures RawVarint(Varint(n) + tail, 0, groups) == Value(n, |Varint(n)|)
  {
    if n > 0x7F {
      var rest := Varint(n / 128) + tail;
      assert Varint(n) + tail == [n % 128 + 128] + rest;
      ReadBack(n / 128, tail, groups + 1);
      RawVarintShift([n % 128 + 128], rest, 0, groups + 1);
    }
  }

  /** From position n on the buffer is made of whole frames, however their lengths are encoded. */
  ghost predicate WholeFrames(buf: Bytes, n: nat)
    decreases |buf| - n
  {
    n == |buf| ||
    (n < |buf| && var r := ReadVarint(buf, n);
     r.Value? && r.next + r.n <= |buf| && WholeFrames(buf, r.next + r.n))
  }

  lemma {:induction false} RawVarintIgnoresTail(buf: Bytes, tail: Bytes, pos: nat, groups: nat)
    requires pos <= |buf| && groups < 10 && RawVarint(buf, pos, groups).Value?
    ensures RawVarint(buf + tail, pos, groups) == RawVarint(buf, pos, groups)
    decreases 10 - groups
  {
    if buf[pos] >= 128 {
      RawVarintIgnoresTail(buf, tail, pos + 1, groups + 1);
    }
  }

  lemma ReadVarintIgnoresTail(buf: Bytes, tail: Bytes, pos: nat)
    requires pos <= |buf| && ReadVarint(buf, pos).Value?
    ensures ReadVarint(buf + tail, pos) == ReadVarint(buf, pos)
  {
    RawVarintIgnoresTail(buf, tail, pos, 0);
  }

  /** Appending anything, even a torn frame, leaves the decoding of earlier frames as it was:
      it goes on with the tail, or stops at the same message as before. */
  lemma {:induction false} AppendKeepsEarlierFrames(parses: Bytes -> bool, buf: Bytes, tail: Bytes, n: nat)
    requires WholeFrames(buf, n)
    ensures var earlier := Decode(parses, buf, n);
            Decode(parses, buf + tail, n) ==
            if earlier.clean then Decode(parses, tail, 0).Prepend(earlier.messages) else earlier
    decreases |buf| - n
  {
    hide Decode, RawVarint, ReadVarint, Slice;
    DecodeOne(parses, buf, n);
    DecodeOne(parses, buf + tail, n);
    if n == |buf| {
      DecodeShift(parses, buf, tail, 0);
    } else {
      ReadVarintIgnoresTail(buf, tail, n);
      var r := ReadVarint(buf, n);
      var end := r.next + r.n;
      AppendKeepsEarlierFrames(parses, buf, tail, end);
      SliceIgnoresTail(buf, tail, r.next, end);
      Decode(parses, tail, 0).PrependTwice([Slice(buf, r.next, end)], Decode(parses, buf, end).messages);
    }
  }

  lemma LengthReads(n: nat, tail: Bytes)
    requires n < UINT32_MODULUS
    ensures ReadVarint(Varint(n) + tail, 0) == Value(n, |Varint(n)|)
  {
    LengthSize(n);
    ReadBack(n, tail, 0);
  }

  lemma FrameReads(message: Bytes, tail: Bytes)
    ensures var n := |message| % 0x1_0000_0000;
            ReadVarint(Frame(message) + tail, 0) == Value(n, |Varint(n)|)
  {
    var n := |message| % 0x1_0000_0000;
    assert Frame(message) + tail == Varint(n) + (message + tail);
    LengthReads(n, message + tail);
  }

  lemma FramePayload(message: Bytes, tail: Bytes, prefix: Bytes)
    ensures Slice((prefix + message) + tail, |prefix|, |prefix| + |message|) == message
  {
    SliceIgnoresTail(prefix + message, tail, |prefix|, |prefix| + |message|);
    SliceShift(prefix, message, 0, |message|);
  }

  lemma FrameDecodes(parses: Bytes -> bool, message: Bytes, tail: Bytes)
    requires |message| < UINT32_MODULUS
    ensures Decode(parses, Frame(message) + tail, 0) ==
            if parses(message) then Decode(parses, tail, 0).Prepend([message]) else Decoded([], false)
  {
    hide Decode, ReadVarint, Slice, Decoded.Prepend;
    FrameReads(message, tail);
    var prefix := Varint(|message|);
    DecodeOne(parses, Frame(message) + tail, 0);
    FramePayload(message, tail, prefix);
    DecodeShift(parses, Frame(message), tail, 0);
  }

  /** A frame that was cut off is dropped if not even its length is there; else what there is of the
      message is taken for the message. */
  lemma TornFrameDecodes(parses: Bytes -> bool, message: Bytes, k: nat)
    requires |message| < UINT32_MODULUS && 0 < k < |Frame(message)|
    ensures var prefix := |Varint(|message|)|;
            Decode(parses, Frame(message)[..k], 0)
            == if k >= prefix && parses(message[..k - prefix]) then Decoded([message[..k - prefix]], true)
               else Decoded([], false)
  {
    hide Decode, ReadVarint, Varint, Slice, Denotes, Continues, Decoded.Prepend;
    var v := Varint(|message|);
    if k < |v| {
      assert Frame(message)[..k] == v[..k];
      TornLength(|message|, k);
      DecodeOne(parses, v[..k], 0);
    } else {
      var piece := message[..k - |v|];
      assert Frame(message)[..k] == v + piece;
      TornMessage(parses, v, |message|, piece);
    }
  }

  lemma TornLength(n: nat, k: nat)
    requires n < UINT32_MODULUS && k < |Varint(n)|
    ensures ReadVarint(Varint(n)[..k], 0) == EndOfBuffer
  {
    hide ReadVarint, Varint, Denotes;
    LengthSize(n);
    VarintDenotes(n);
    VarintReads(Varint(n)[..k], 0, k);
  }

  lemma TornMessage(parses: Bytes -> bool, v: Bytes, n: nat, piece: Bytes)
    requires n < UINT32_MODULUS && v == Varint(n) && |piece| < n
    ensures Decode(parses, v + piece, 0) == if parses(piece) then Decoded([piece], true) else Decoded([], false)
  {
    hide Decode, ReadVarint, Varint;
    LengthReads(n, piece);
    DecodeOne(parses, v + piece, 0);
    DecodeOne(parses, v + piece, |v| + n);
    assert Slice(v + piece, |v|, |v| + n) == piece;
  }

  ghost predicate FitsPrefix(messages: seq<Bytes>) {
    forall i :: 0 <= i < |messages| ==> |messages[i]| < UINT32_MODULUS
  }

  lemma PrependOne(m: Bytes, decoded: seq<Bytes>, rest: seq<Bytes>)
    ensures [m] + decoded == [m] + rest <==> decoded == rest
  {
    assert ([m] + decoded)[1..] == decoded && ([m] + rest)[1..] == rest;
  }

  lemma FitsPrefixStep(messages: seq<Bytes>)
    requires messages != []
    ensures FitsPrefix(messages) <==> |messages[0]| < UINT32_MODULUS && FitsPrefix(messages[1..])
  {
    if FitsPrefix(messages[1..]) && |messages[0]| < UINT32_MODULUS {
      forall i | 0 <= i < |messages| ensures |messages[i]| < UINT32_MODULUS {
        if i > 0 { assert messages[i] == messages[1..][i - 1]; }
      }
    }
  }

  /** The written list comes back exactly when every message parses and is shorter than 2^32
      bytes: the narrowed length of a longer one makes the reader take a shorter message. */
  lemma {:induction false} FrameRoundTrip(parses: Bytes -> bool, messages: seq<Bytes>)
    ensures Decode(parses, Frames(messages), 0) == Decoded(messages, true) <==>
            FitsPrefix(messages) && forall m <- messages :: parses(m)
  {
    if messages != [] {
      var m, rest := messages[0], messages[1..];
      FitsPrefixStep(messages);
      if |m| < UINT32_MODULUS {
        FrameDecodes(parses, m, Frames(rest));
        FrameRoundTrip(parses, rest);
        PrependOne(m, Decode(parses, Frames(rest), 0).messages, rest);
        assert messages == [m] + rest;
        assert (forall x <- messages :: parses(x)) <==> parses(m) && forall x <- rest :: parses(x);
      } else {
        FrameReads(m, Frames(rest));
        var decoded := Decode(parses, Frames(messages), 0);
        assert decoded.messages == [] || |decoded.messages[0]| < |m|;
      }
    }
  }

  /** WholeFrames unfolded once. */
  lemma WholeOne(buf: Bytes, n: nat)
    ensures WholeFrames(buf, n)
       <==> n == |buf| || (n < |buf| && var r := ReadVarint(buf, n);
                           r.Value? && r.next + r.n <= |buf| && WholeFrames(buf, r.next + r.n))
  {
  }

  /** A frame is read where it stands. */
  lemma FrameReadsAt(front: Bytes, message: Bytes, tail: Bytes)
    requires |message| < UINT32_MODULUS
    ensures var buf := front + (Frame(message) + tail);
            && ReadVarint(buf, |front|) == Value(|message|, |front| + |Frame(message)| - |message|)
            && |Frame(message)| >= |message| + 1 && buf == (front + Frame(message)) + tail
  {
    hide RawVarint, ReadVarint, Varint;
    FrameReads(message, tail);
    ReadVarintShift(front, Frame(message) + tail, 0);
    PrefixSize(message);
  }

  /** A file of whole messages is made of whole frames, so later appends cannot disturb it. */
  lemma {:induction false} WrittenFilesAreWhole(front: Bytes, messages: seq<Bytes>)
    requires FitsPrefix(messages)
    ensures WholeFrames(front + Frames(messages), |front|)
    decreases |messages|
  {
    hide WholeFrames, ReadVarint, Frame;
    WholeOne(front + Frames(messages), |front|);
    if messages == [] {
      assert front + Frames(messages) == front;
    } else {
      var m, rest := messages[0], messages[1..];
      FrameReadsAt(front, m, Frames(rest));
      WrittenFilesAreWhole(front + Frame(m), rest);
    }
  }
}
