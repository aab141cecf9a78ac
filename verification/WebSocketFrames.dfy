/** RFC 6455 frames as the receiver reads them (sections 5.2 and 5.3), independent of how the stream arrives in pieces. */
module WebSocketFrames {
  import opened Ring
  import opened Arithmetic
  import opened Sequences

  const OP_TEXT := 0x01
  const OP_BINARY := 0x02
  const OP_CLOSE := 0x08
  const OP_PING := 0x09

  /** Exclusive or of the low n bits. */
  function XorBits(a: nat, b: nat, n: nat): (r: nat) {
    if n == 0 then 0 else (if a % 2 == b % 2 then 0 else 1) + 2 * XorBits(a / 2, b / 2, n - 1)
  }

  function Pow2(n: nat): nat {
    if n == 0 then 1 else 2 * Pow2(n - 1)
  }

  lemma {:induction false} XorBitsBound(a: nat, b: nat, n: nat)
    ensures XorBits(a, b, n) < Pow2(n)
  {
    if n > 0 { XorBitsBound(a / 2, b / 2, n - 1); }
  }

  lemma LowBitAndRest(bit: nat, rest: nat)
    requires bit < 2
    ensures (bit + 2 * rest) % 2 == bit && (bit + 2 * rest) / 2 == rest
  {
  }

  lemma {:induction false} XorBitsTwice(a: nat, b: nat, n: nat)
    requires a < Pow2(n)
    ensures XorBits(XorBits(a, b, n), b, n) == a
  {
    if n > 0 {
      var rest := XorBits(a / 2, b / 2, n - 1);
      LowBitAndRest(if a % 2 == b % 2 then 0 else 1, rest);
      XorBitsTwice(a / 2, b / 2, n - 1);
    }
  }

  function Xor(a: Byte, b: Byte): Byte {
    XorBitsBound(a, b, 8);
    assert Pow2(8) == 256;
    XorBits(a, b, 8)
  }

  lemma XorTwice(a: Byte, b: Byte)
    ensures Xor(Xor(a, b), b) == a
  {
    XorBitsTwice(a, b, 8) by { assert Pow2(8) == 256; }
  }

  function Bit(n: nat, i: nat): nat {
    if i == 0 then n % 2 else Bit(n / 2, i - 1)
  }

  /** A bit is set exactly if the operands differ in it. */
  lemma {:induction false} XorBitsBitwise(a: nat, b: nat, n: nat, i: nat)
    requires i < n
    ensures Bit(XorBits(a, b, n), i) == 1 <==> Bit(a, i) != Bit(b, i)
  {
    LowBitAndRest(if a % 2 == b % 2 then 0 else 1, XorBits(a / 2, b / 2, n - 1));
    if i > 0 { XorBitsBitwise(a / 2, b / 2, n - 1, i - 1); }
  }

  lemma XorIsBitwise(a: Byte, b: Byte, i: nat)
    requires i < 8
    ensures Bit(Xor(a, b), i) == 1 <==> Bit(a, i) != Bit(b, i)
  {
    XorBitsBitwise(a, b, 8, i);
  }

  /** Byte i is combined with byte i modulo 4 of the key. */
  function Mask(payload: Bytes, key: Bytes): (r: Bytes)
    requires |key| == 4
    ensures |r| == |payload|
  {
    seq(|payload|, i requires 0 <= i < |payload| => Xor(payload[i], key[i % 4]))
  }

  lemma MaskTwice(payload: Bytes, key: Bytes)
    requires |key| == 4
    ensures Mask(Mask(payload, key), key) == payload
  {
    forall i | 0 <= i < |payload| ensures Mask(Mask(payload, key), key)[i] == payload[i] {
      XorTwice(payload[i], key[i % 4]);
    }
  }

  /** Big-endian value of a byte string. */
  function Value(s: Bytes): nat {
    if s == [] then 0 else 256 * Value(s[..|s| - 1]) + s[|s| - 1]
  }

  /** What the first bytes of a frame announce: the parts before the payload, and the payload length. */
  datatype Header = Partial | Header(opcode: nat, masked: bool, length: nat, payload: nat) {
    function Start(): nat
      requires Header?
    {
      length + if masked then 4 else 0
    }

    function Size(): nat
      requires Header?
    {
      Start() + payload
    }
  }

  function ReadHeader(s: Bytes): (h: Header)
    ensures h.Header? ==> 2 <= h.length <= |s|
  {
    if |s| < 2 then Partial
    else
      var len := s[1] % 128;
      if len == 126 then
        if |s| < 4 then Partial else Header(s[0] % 16, s[1] >= 128, 4, Value(s[2..4]))
      else if len == 127 then
        if |s| < 10 then Partial else Header(s[0] % 16, s[1] >= 128, 10, Value(s[2..10]))
      else Header(s[0] % 16, s[1] >= 128, 2, len)
  }

  /** The payload of a complete frame, unmasked. */
  function Payload(s: Bytes, h: Header): Bytes
    requires h.Header? && h.Size() <= |s|
  {
    var raw := s[h.Start()..h.Size()];
    if h.masked then Mask(raw, s[h.length..h.length + 4]) else raw
  }

  predicate Complete(s: Bytes) {
    ReadHeader(s).Header? && ReadHeader(s).Size() <= |s|
  }

  /** What a complete frame contributes. */
  function FrameData(s: Bytes): Bytes
    requires Complete(s)
  {
    var h := ReadHeader(s);
    if h.opcode == OP_TEXT || h.opcode == OP_BINARY then Payload(s, h) else []
  }

  function FramePings(s: Bytes): nat
    requires Complete(s)
  {
    if ReadHeader(s).opcode == OP_PING then 1 else 0
  }

  function AfterFrame(s: Bytes): (r: Bytes)
    requires Complete(s)
    ensures |r| < |s|
  {
    s[ReadHeader(s).Size()..]
  }

  /** Everything a stream amounts to: data delivered, number of pings, bytes of an unfinished frame, and whether a Close was met. */
  datatype Drained = Drained(data: Bytes, pings: nat, rest: Bytes, closed: bool)

  function Prepend(data: Bytes, pings: nat, d: Drained): Drained {
    Drained(data + d.data, pings + d.pings, d.rest, d.closed)
  }

  function Drain(s: Bytes): (d: Drained)
    ensures d.closed ==> d.rest == []
    ensures !d.closed ==> !Complete(d.rest) && |d.rest| <= |s|
    decreases |s|
  {
    if !Complete(s) then Drained([], 0, s, false)
    else if ReadHeader(s).opcode == OP_CLOSE then Drained([], 0, [], true)
    else Prepend(FrameData(s), FramePings(s), Drain(AfterFrame(s)))
  }

  /** Every frame whose length the stream reveals, up to the first Close, encodes to at most `limit` bytes. */
  predicate Fits(s: Bytes, limit: nat)
    decreases |s|
  {
    var h := ReadHeader(s);
    h.Header? ==> h.Size() <= limit && (h.Size() <= |s| && h.opcode != OP_CLOSE ==> Fits(AfterFrame(s), limit))
  }

  lemma HeaderStable(s: Bytes, t: Bytes)
    requires ReadHeader(s).Header?
    ensures ReadHeader(s + t) == ReadHeader(s)
  {
    assert |s| >= 4 ==> (s + t)[2..4] == s[2..4];
    assert |s| >= 10 ==> (s + t)[2..10] == s[2..10];
  }

  lemma CompleteStable(s: Bytes, t: Bytes)
    requires Complete(s)
    ensures Complete(s + t) && ReadHeader(s + t) == ReadHeader(s)
    ensures FrameData(s + t) == FrameData(s) && FramePings(s + t) == FramePings(s)
    ensures AfterFrame(s + t) == AfterFrame(s) + t
  {
    HeaderStable(s, t);
    var h := ReadHeader(s);
    assert (s + t)[h.Start()..h.Size()] == s[h.Start()..h.Size()];
    if h.masked { assert (s + t)[h.length..h.length + 4] == s[h.length..h.length + 4]; }
  }

  lemma PrependTwice(a: Bytes, m: nat, b: Bytes, n: nat, d: Drained)
    ensures Prepend(a, m, Prepend(b, n, d)) == Prepend(a + b, m + n, d)
  {
    assert a + (b + d.data) == (a + b) + d.data;
  }

  lemma PrependNothing(d: Drained)
    ensures Prepend([], 0, d) == d
  {
    assert [] + d.data == d.data;
  }

  /** Chunk independence: draining what has arrived and later draining the unfinished tail with the next chunk is the
      same as draining everything at once. After a Close nothing more is delivered. */
  lemma {:induction false} DrainInPieces(s: Bytes, t: Bytes)
    ensures Drain(s + t) == if Drain(s).closed then Drain(s) else Prepend(Drain(s).data, Drain(s).pings, Drain(Drain(s).rest + t))
    decreases |s|
  {
    if Complete(s) {
      CompleteStable(s, t);
      if ReadHeader(s).opcode != OP_CLOSE {
        var r := AfterFrame(s);
        DrainInPieces(r, t);
        PrependTwice(FrameData(s), FramePings(s), Drain(r).data, Drain(r).pings, Drain(Drain(r).rest + t));
      }
    } else {
      PrependNothing(Drain(s + t));
    }
  }

  /** The tail left by a fitting stream, and every stream it can continue to, fits. */
  lemma {:induction false} FitsInPieces(s: Bytes, t: Bytes, limit: nat)
    ensures Fits(s + t, limit) ==> Fits(s, limit)
    ensures !Drain(s).closed ==> (Fits(s + t, limit) <==> Fits(s, limit) && Fits(Drain(s).rest + t, limit))
    ensures Drain(s).closed ==> (Fits(s + t, limit) <==> Fits(s, limit))
    decreases |s|
  {
    if Complete(s) {
      CompleteStable(s, t);
      var h := ReadHeader(s);
      if h.opcode != OP_CLOSE {
        FitsInPieces(AfterFrame(s), t, limit);
      }
    } else if ReadHeader(s).Header? {
      HeaderStable(s, t);
    }
  }

  /** A receiver with `limit` bytes of buffer always has room for more: the unfinished tail of a fitting stream is shorter. */
  lemma {:induction false} TailIsShort(s: Bytes, limit: nat)
    requires 10 <= limit && Fits(s, limit)
    ensures |Drain(s).rest| < limit
    decreases |s|
  {
    if Complete(s) && ReadHeader(s).opcode != OP_CLOSE {
      TailIsShort(AfterFrame(s), limit);
    }
  }

  /** The stream consists of whole frames, at least up to its first Close. */
  predicate Whole(s: Bytes)
    decreases |s|
  {
    s == [] || (Complete(s) && (ReadHeader(s).opcode == OP_CLOSE || Whole(AfterFrame(s))))
  }

  lemma {:induction false} OversizeFills(s: Bytes, limit: nat) returns (n: nat)
    requires 10 <= limit && Whole(s) && !Fits(s, limit)
    ensures n <= |s| && |Drain(s[..n]).rest| == limit
    decreases |s|
  {
    var h := ReadHeader(s);
    if h.Size() > limit {
      n := limit;
      assert s == s[..n] + s[n..];
      if ReadHeader(s[..n]).Header? { HeaderStable(s[..n], s[n..]); }
    } else {
      var m := OversizeFills(AfterFrame(s), limit);
      n := h.Size() + m;
      var a := s[..h.Size()];
      assert s == a + AfterFrame(s) && s[..n] == a + AfterFrame(s)[..m];
      FirstFrame(a, AfterFrame(s), h);
      CompleteStable(a, AfterFrame(s)[..m]);
    }
  }

  /** The header of a complete frame can be read from its own bytes alone. */
  lemma FirstFrame(a: Bytes, t: Bytes, h: Header)
    requires h.Header? && ReadHeader(a + t) == h && |a| == h.Size()
    ensures ReadHeader(a) == h
  {
    assert |a| >= 4 ==> (a + t)[2..4] == a[2..4];
    assert |a| >= 10 ==> (a + t)[2..10] == a[2..10];
  }

  /** A receiver with a buffer of `limit` bytes never runs out of room on a stream of whole frames, wherever the stream
      is cut, exactly if no frame up to the first Close encodes to more than `limit` bytes. */
  lemma NeverWedgesIff(s: Bytes, limit: nat)
    requires 10 <= limit && Whole(s)
    ensures Fits(s, limit) <==> forall n :: 0 <= n <= |s| ==> |Drain(s[..n]).rest| < limit
  {
    if Fits(s, limit) {
      forall n | 0 <= n <= |s| ensures |Drain(s[..n]).rest| < limit {
        assert s == s[..n] + s[n..];
        FitsInPieces(s[..n], s[n..], limit);
        TailIsShort(s[..n], limit);
      }
    } else {
      var n := OversizeFills(s, limit);
    }
  }

  // ---------------------------------------------------------------------------------------------------------------
  // Frames as a sender writes them
  // ---------------------------------------------------------------------------------------------------------------

  datatype LengthForm = Short | Medium | Long

  /** `flags` is the high nibble of the first byte (FIN and reserved bits), which the receiver ignores. */
  datatype Frame = Frame(flags: nat, opcode: nat, form: LengthForm, key: Bytes, payload: Bytes) {
    /** Masked with a four-byte key, or unmasked (empty key); the length form can hold the length. */
    predicate Valid() {
      && flags < 16 && opcode < 16 && (key == [] || |key| == 4)
      && match form
         case Short => |payload| < 126
         case Medium => |payload| < 0x1_0000
         case Long => |payload| < 0x8000_0000_0000_0000
    }
  }

  /** The n low-order bytes of v, most significant first. */
  function BigEndian(v: nat, n: nat): (s: Bytes)
    ensures |s| == n
  {
    if n == 0 then [] else BigEndian(v / 256, n - 1) + [v % 256]
  }

  function Power256(n: nat): nat {
    if n == 0 then 1 else 256 * Power256(n - 1)
  }

  lemma {:induction false} ValueOfBigEndian(v: nat, n: nat)
    requires v < Power256(n)
    ensures Value(BigEndian(v, n)) == v
  {
    if n > 0 {
      ValueOfBigEndian(v / 256, n - 1);
      var s := BigEndian(v, n);
      assert s[..|s| - 1] == BigEndian(v / 256, n - 1);
    }
  }

  function EncodeHeader(f: Frame): Bytes
    requires f.Valid()
  {
    var m := if f.key == [] then 0 else 128;
    [f.flags * 16 + f.opcode] + match f.form
      case Short => [m + |f.payload|]
      case Medium => [m + 126] + BigEndian(|f.payload|, 2)
      case Long => [m + 127] + BigEndian(|f.payload|, 8)
  }

  function Encode(f: Frame): Bytes
    requires f.Valid()
  {
    EncodeHeader(f) + f.key + if f.key == [] then f.payload else Mask(f.payload, f.key)
  }

  function EncodeAll(fs: seq<Frame>): Bytes
    requires forall f :: f in fs ==> f.Valid()
  {
    if fs == [] then [] else Encode(fs[0]) + EncodeAll(fs[1..])
  }

  /** What a receiver owes the application for a list of frames: text and binary payloads in order, up to a Close. */
  function Delivered(fs: seq<Frame>): Bytes {
    if fs == [] || fs[0].opcode == OP_CLOSE then []
    else (if fs[0].opcode == OP_TEXT || fs[0].opcode == OP_BINARY then fs[0].payload else []) + Delivered(fs[1..])
  }

  /** The pings among them, up to a Close. */
  function Pings(fs: seq<Frame>): nat {
    if fs == [] || fs[0].opcode == OP_CLOSE then 0 else (if fs[0].opcode == OP_PING then 1 else 0) + Pings(fs[1..])
  }

  predicate Closes(fs: seq<Frame>) {
    exists i :: 0 <= i < |fs| && fs[i].opcode == OP_CLOSE
  }

  /** The extended length is found where it was put, and read back as the number it was. */
  lemma ExtendedLength(first: Byte, second: Byte, len: nat, n: nat, t: Bytes)
    requires len < Power256(n)
    ensures var s := [first, second] + BigEndian(len, n) + t;
      s[0] == first && s[1] == second && |s| >= 2 + n && Value(s[2..2 + n]) == len
  {
    var s := [first, second] + BigEndian(len, n) + t;
    assert s[2..2 + n] == BigEndian(len, n);
    ValueOfBigEndian(len, n);
  }

  lemma FirstByte(flags: nat, opcode: nat)
    requires flags < 16 && opcode < 16
    ensures flags * 16 + opcode < 256 && (flags * 16 + opcode) % 16 == opcode
  {
  }

  /** Reading the header back gives what was announced, in all three length forms. */
  lemma HeaderRoundTrip(f: Frame, t: Bytes)
    requires f.Valid()
    ensures var s := EncodeHeader(f) + t;
      ReadHeader(s) == Header(f.opcode, f.key != [], |EncodeHeader(f)|, |f.payload|)
  {
    hide BigEndian, Power256, Value;
    var len := |f.payload|;
    var m := if f.key == [] then 0 else 128;
    FirstByte(f.flags, f.opcode);
    var first := f.flags * 16 + f.opcode;
    match f.form
    case Short =>
      assert EncodeHeader(f) == [first, m + len];
    case Medium =>
      PowerOfTwo();
      ExtendedLength(first, m + 126, len, 2, t);
      assert EncodeHeader(f) == [first, m + 126] + BigEndian(len, 2);
    case Long =>
      PowerOfEight();
      ExtendedLength(first, m + 127, len, 8, t);
      assert EncodeHeader(f) == [first, m + 127] + BigEndian(len, 8);
  }

  lemma PowerOfTwo()
    ensures Power256(2) == 0x1_0000
  {
  }

  lemma PowerOfEight()
    ensures Power256(8) == 0x1_0000_0000_0000_0000
  {
    assert Power256(4) == 0x1_0000_0000;
  }

  lemma SliceOfFour(a: Bytes, b: Bytes, c: Bytes, d: Bytes)
    ensures var s := a + b + c + d;
      s[|a|..|a| + |b|] == b && s[|a| + |b|..|a| + |b| + |c|] == c && s[|a| + |b| + |c|..] == d
  {
  }

  /** Header, key and body laid out one after the other are found again. */
  lemma FrameParts(head: Bytes, key: Bytes, body: Bytes, t: Bytes, h: Header)
    requires h.Header? && h.length == |head| && h.masked == (key != []) && h.payload == |body| && (key == [] || |key| == 4)
    requires ReadHeader(head + key + body + t) == h
    ensures var s := head + key + body + t;
      && Complete(s) && h.Size() == |head + key + body| && AfterFrame(s) == t
      && Payload(s, h) == if key == [] then body else Mask(body, key)
  {
    SliceOfFour(head, key, body, t);
  }

  lemma FrameRoundTrip(f: Frame, t: Bytes)
    requires f.Valid()
    ensures var s := Encode(f) + t; var h := ReadHeader(s);
      && Complete(s) && h.opcode == f.opcode && h.Size() == |Encode(f)|
      && Payload(s, h) == f.payload && AfterFrame(s) == t
  {
    var head := EncodeHeader(f);
    var body := if f.key == [] then f.payload else Mask(f.payload, f.key);
    assert head + f.key + body + t == head + (f.key + body + t);
    HeaderRoundTrip(f, f.key + body + t);
    FrameParts(head, f.key, body, t, Header(f.opcode, f.key != [], |head|, |f.payload|));
    if f.key != [] {
      MaskTwice(f.payload, f.key);
    }
  }

  /** Receiving inverts sending, for every list of frames in every length form, masked or not. */
  lemma {:induction false} FramesRoundTrip(fs: seq<Frame>)
    requires forall f :: f in fs ==> f.Valid()
    ensures var d := Drain(EncodeAll(fs)); d.data == Delivered(fs) && d.pings == Pings(fs) && d.rest == [] && (d.closed <==> Closes(fs))
    decreases |fs|
  {
    if fs != [] {
      FrameRoundTrip(fs[0], EncodeAll(fs[1..]));
      FramesRoundTrip(fs[1..]);
      if fs[0].opcode != OP_CLOSE {
        assert Closes(fs[1..]) ==> Closes(fs) by {
          if i :| 0 <= i < |fs[1..]| && fs[1..][i].opcode == OP_CLOSE { assert fs[i + 1].opcode == OP_CLOSE; }
        }
        assert Closes(fs) ==> Closes(fs[1..]) by {
          if i :| 0 <= i < |fs| && fs[i].opcode == OP_CLOSE { assert fs[1..][i - 1].opcode == OP_CLOSE; }
        }
      }
    }
  }

  /** No frame up to the first Close, that one included, encodes to more than `limit` bytes. */
  predicate FramesFit(fs: seq<Frame>, limit: nat)
    requires forall f :: f in fs ==> f.Valid()
  {
    fs == [] || (|Encode(fs[0])| <= limit && (fs[0].opcode == OP_CLOSE || FramesFit(fs[1..], limit)))
  }

  lemma OneFrame(f: Frame)
    requires f.Valid()
    ensures EncodeAll([f]) == Encode(f) && Pings([f]) == if f.opcode == OP_PING then 1 else 0
    ensures Delivered([f]) == if f.opcode == OP_TEXT || f.opcode == OP_BINARY then f.payload else []
    ensures Closes([f]) <==> f.opcode == OP_CLOSE
  {
    hide Encode;
    var rest := [f][1..];
    assert rest == [] && EncodeAll(rest) == [] && Delivered(rest) == [] && Pings(rest) == 0;
    assert Encode(f) + [] == Encode(f) && f.payload + [] == f.payload;
    assert [f][0].opcode == OP_CLOSE ==> Closes([f]);
  }

  /** What a single frame amounts to, by its opcode: 1 and 2 carry data, 8 closes, 9 is a ping, all others are passed over. */
  lemma SingleFrame(f: Frame)
    requires f.Valid()
    ensures Drain(Encode(f)) ==
      Drained(if f.opcode == 1 || f.opcode == 2 then f.payload else [], if f.opcode == 9 then 1 else 0, [], f.opcode == 8)
  {
    OneFrame(f);
    hide Drain, Encode, Delivered, Pings, Closes, EncodeAll;
    FramesRoundTrip([f]);
  }

  lemma ShortEncoding(flags: nat, opcode: nat, key: Bytes, payload: Bytes)
    requires flags < 16 && opcode < 16 && |payload| < 126 && (key == [] || |key| == 4)
    ensures var f := Frame(flags, opcode, Short, key, payload);
      f.Valid() && Encode(f) == [flags * 16 + opcode, |payload| + if key == [] then 0 else 128] + key
                              + if key == [] then payload else Mask(payload, key)
  {
    FirstByte(flags, opcode);
    hide Mask;
  }

  // "Hello" and the masking key of the example in the standard; the key is used in turn, one byte for one byte
  const HELLO: Bytes := [0x48, 0x65, 0x6C, 0x6C, 0x6F]
  const KEY: Bytes := [0x37, 0xFA, 0x21, 0x3D]
  const MASKED: Bytes := [Xor(0x48, 0x37), Xor(0x65, 0xFA), Xor(0x6C, 0x21), Xor(0x6C, 0x3D), Xor(0x6F, 0x37)]

  /** The examples of section 5.7 of RFC 6455: "Hello" in an unmasked and in a masked text frame, and an unmasked ping. */
  lemma StandardExamples()
    ensures Drain([0x81, 0x05] + HELLO) == Drained(HELLO, 0, [], false)
    ensures Drain([0x81, 0x85] + KEY + MASKED) == Drained(HELLO, 0, [], false)
    ensures Drain([0x89, 0x05] + HELLO) == Drained([], 1, [], false)
  {
    MaskedHello();
    hide Drain, Encode, Mask;
    ShortEncoding(8, 1, [], HELLO);
    ShortEncoding(8, 1, KEY, HELLO);
    ShortEncoding(8, 9, [], HELLO);
    SingleFrame(Frame(8, 1, Short, [], HELLO));
    SingleFrame(Frame(8, 1, Short, KEY, HELLO));
    SingleFrame(Frame(8, 9, Short, [], HELLO));
    assert [0x81, 0x05] + [] + HELLO == [0x81, 0x05] + HELLO;
    assert [0x89, 0x05] + [] + HELLO == [0x89, 0x05] + HELLO;
  }

  lemma MaskedHello()
    ensures Mask(HELLO, KEY) == MASKED
  {
    hide Xor;
    assert Mask(HELLO, KEY)[3] == Xor(HELLO[3], KEY[3]);
    assert Mask(HELLO, KEY)[4] == Xor(HELLO[4], KEY[0]);
  }

  /** Such a stream consists of whole frames, and fits a buffer exactly if each frame up to the first Close does. */
  lemma {:induction false} FramesAreWhole(fs: seq<Frame>, limit: nat)
    requires forall f :: f in fs ==> f.Valid()
    ensures Whole(EncodeAll(fs))
    ensures Fits(EncodeAll(fs), limit) <==> FramesFit(fs, limit)
    decreases |fs|
  {
    if fs != [] {
      FrameRoundTrip(fs[0], EncodeAll(fs[1..]));
      FramesAreWhole(fs[1..], limit);
    }
  }

  /** At every moment of receiving a list of frames, however the stream is cut, what has been delivered is a prefix of
      what is owed, and once everything has arrived it is all of it. */
  lemma DeliveryIsPrefix(fs: seq<Frame>, arrived: Bytes, pending: Bytes)
    requires forall f :: f in fs ==> f.Valid()
    requires EncodeAll(fs) == arrived + pending
    ensures Drain(arrived).data <= Delivered(fs)
    ensures pending == [] || Drain(arrived).closed ==> Drain(arrived).data == Delivered(fs)
  {
    FramesRoundTrip(fs);
    DrainInPieces(arrived, pending);
    assert pending == [] ==> arrived + pending == arrived;
  }

  // ---------------------------------------------------------------------------------------------------------------
  // Frames as the server writes them
  // ---------------------------------------------------------------------------------------------------------------

  const PONG: Bytes := [0x8A, 0x00]

  function Repeat(s: Bytes, n: nat): Bytes {
    if n == 0 then [] else Repeat(s, n - 1) + s
  }

  function MinimalForm(n: nat): LengthForm {
    if n < 126 then Short else if n < 65536 then Medium else Long
  }

  /** An unmasked, final text frame with the shortest length form. */
  function TextFrame(data: Bytes): (f: Frame)
    requires |data| < 0x8000_0000_0000_0000
    ensures f.Valid()
  {
    Frame(8, OP_TEXT, MinimalForm(|data|), [], data)
  }

  /** The header of a text frame, byte by byte. */
  function TextHeader(n: nat): Bytes
    requires n < 0x8000_0000_0000_0000
  {
    [0x81] + if n < 126 then [n] else if n < 65536 then [126] + BigEndian(n, 2) else [127] + BigEndian(n, 8)
  }

  lemma TextEncoding(data: Bytes)
    requires |data| < 0x8000_0000_0000_0000
    ensures Encode(TextFrame(data)) == TextHeader(|data|) + data
  {
  }

  /** A text frame of the server: final, unmasked, with the shortest header that can hold the length. */
  lemma TextFrameShape(data: Bytes)
    requires |data| < 0x8000_0000_0000_0000
    ensures var s := Encode(TextFrame(data)); var n := if |data| < 126 then 2 else if |data| < 65536 then 4 else 10;
      && |s| == n + |data| && s[0] == 0x81 && s[1] < 128 && s[n..] == data
  {
    hide BigEndian;
  }

  /** A stream of whole frames, none of them Close, followed by one more. */
  lemma DrainAppended(s: Bytes, t: Bytes)
    requires Drain(s).rest == [] && !Drain(s).closed && Drain(t).rest == [] && !Drain(t).closed
    ensures Drain(s + t).rest == [] && !Drain(s + t).closed && Drain(s + t).data == Drain(s).data + Drain(t).data
  {
    DrainInPieces(s, t);
    assert [] + t == t;
  }

  lemma DrainText(data: Bytes)
    requires |data| < 0x8000_0000_0000_0000
    ensures Drain(Encode(TextFrame(data))) == Drained(data, 0, [], false)
  {
    var f := TextFrame(data);
    FramesRoundTrip([f]);
    assert EncodeAll([f]) == Encode(f) + [] == Encode(f);
    FrameRoundTrip(f, []);
    assert Drain([]) == Drained([], 0, [], false);
    assert data + [] == data;
  }

  lemma DrainPong()
    ensures Drain(PONG) == Drained([], 0, [], false)
  {
    assert ReadHeader(PONG) == Header(10, false, 2, 0);
    assert AfterFrame(PONG) == [];
    assert FrameData(PONG) == [];
    PrependNothing(Drain([]));
  }

  /** Whole frames, none of them Close and none with data. */
  predicate Quiet(s: Bytes) {
    var d := Drain(s); d.rest == [] && !d.closed && d.data == []
  }

  lemma QuietConcat(s: Bytes, t: Bytes)
    requires Quiet(s) && Quiet(t)
    ensures Quiet(s + t)
  {
    DrainAppended(s, t);
  }

  lemma {:induction false} RepeatSum(s: Bytes, m: nat, n: nat)
    ensures Repeat(s, m) + Repeat(s, n) == Repeat(s, m + n)
  {
    if n > 0 {
      RepeatSum(s, m, n - 1);
      assert Repeat(s, m) + (Repeat(s, n - 1) + s) == (Repeat(s, m) + Repeat(s, n - 1)) + s;
    }
  }

  lemma AppendRepeats(a: Bytes, s: Bytes, m: nat, n: nat)
    ensures (a + Repeat(s, m)) + Repeat(s, n) == a + Repeat(s, m + n)
  {
    RepeatSum(s, m, n);
    AppendTwice(a, Repeat(s, m), Repeat(s, n));
  }

  lemma {:induction false} RepeatIsQuiet(s: Bytes, n: nat)
    requires Quiet(s)
    ensures Quiet(Repeat(s, n))
  {
    if n > 0 {
      RepeatIsQuiet(s, n - 1);
      QuietConcat(Repeat(s, n - 1), s);
    }
  }

  lemma PongsKeepData(s: Bytes, n: nat)
    requires Drain(s).rest == [] && !Drain(s).closed
    ensures var d := Drain(s + Repeat(PONG, n)); d.rest == [] && !d.closed && d.data == Drain(s).data
  {
    assert Quiet(PONG) by { DrainPong(); }
    RepeatIsQuiet(PONG, n);
    DrainAppended(s, Repeat(PONG, n));
  }

  /** Shifting right by p and then by one byte. */
  lemma ShiftTwice(n: nat, p: nat)
    requires 0 < p
    ensures n / p / 256 == n / (256 * p)
  {
    var q, r := n / p, n % p;
    var a, b := q / 256, q % 256;
    assert n == q * p + r;
    assert q * p == (256 * a + b) * p == a * (256 * p) + b * p;
    TimesMonotone(b, 255, p);
    DivisionIsUnique(n, 256 * p, a, b * p + r);
  }

  lemma {:induction false} PowerPositive(n: nat)
    ensures 0 < Power256(n)
  {
    if n > 0 { PowerPositive(n - 1); }
  }
}
