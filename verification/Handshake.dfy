/** The two encodings of the WebSocket handshake: base64 (section 4 of RFC 4648) and SHA-1 message padding
    (section 5.1.1 of FIPS 180-4). */
module Handshake {
  import opened Ring
  import opened WebSocketFrames
  import opened Options
  import opened Arithmetic

  // ---------------------------------------------------------------------------------------------------------------
  // Base64
  // ---------------------------------------------------------------------------------------------------------------

  /** The alphabet: A-Z, a-z, 0-9, plus, slash. */
  function Letter(v: nat): char
    requires v < 64
  {
    if v < 26 then ('A' as int + v) as char
    else if v < 52 then ('a' as int + v - 26) as char
    else if v < 62 then ('0' as int + v - 52) as char
    else if v == 62 then '+' else '/'
  }

  function Sextet(c: char): Option<nat> {
    if 'A' <= c <= 'Z' then Some(c as int - 'A' as int)
    else if 'a' <= c <= 'z' then Some(c as int - 'a' as int + 26)
    else if '0' <= c <= '9' then Some(c as int - '0' as int + 52)
    else if c == '+' then Some(62)
    else if c == '/' then Some(63)
    else None
  }

  lemma SextetOfLetter(v: nat)
    requires v < 64
    ensures Sextet(Letter(v)) == Some(v) && Letter(v) != '='
  {
  }

  /** A decoder as the standard describes it: groups of four letters, the last possibly padded; padding bits must be zero. */
  function Decode(s: string): Option<Bytes> {
    if s == "" then Some([])
    else if |s| < 4 then None
    else
      var a, b, c, d := Sextet(s[0]), Sextet(s[1]), Sextet(s[2]), Sextet(s[3]);
      if a.None? || b.None? then None
      else if s[2] == '=' then
        if s[3] == '=' && |s| == 4 && b.value % 16 == 0 then Some(One(a.value, b.value)) else None
      else if c.None? then None
      else if s[3] == '=' then
        if |s| == 4 && c.value % 4 == 0 then Some(Two(a.value, b.value, c.value)) else None
      else if d.None? then None
      else
        var rest := Decode(s[4..]);
        if rest.None? then None else Some(Three(a.value, b.value, c.value, d.value) + rest.value)
  }

  function One(a: nat, b: nat): Bytes { [(a * 4 + b / 16) % 256] }

  function Two(a: nat, b: nat, c: nat): Bytes { One(a, b) + [(b % 16 * 16 + c / 4) % 256] }

  function Three(a: nat, b: nat, c: nat, d: nat): Bytes { Two(a, b, c) + [(c % 4 * 64 + d) % 256] }

  /** Four letters for three bytes. */
  function Group(x: Byte, y: Byte, z: Byte): string {
    [Letter(x / 4), Letter(x % 4 * 16 + y / 16), Letter(y % 16 * 4 + z / 64), Letter(z % 64)]
  }

  function LastOne(x: Byte): string {
    [Letter(x / 4), Letter(x % 4 * 16), '=', '=']
  }

  function LastTwo(x: Byte, y: Byte): string {
    [Letter(x / 4), Letter(x % 4 * 16 + y / 16), Letter(y % 16 * 4), '=']
  }

  function Encoding(s: Bytes): string {
    if s == [] then ""
    else if |s| == 1 then LastOne(s[0])
    else if |s| == 2 then LastTwo(s[0], s[1])
    else Group(s[0], s[1], s[2]) + Encoding(s[3..])
  }

  method Base64Encode(input: Bytes) returns (out: string)
    ensures out == Encoding(input) && Decode(out) == Some(input)
    ensures |out| == 4 * ((|input| + 2) / 3)
  {
    hide Letter, Decode, Encoding;
    out := "";
    var i := 0;
    assert input[0..] == input;
    while i + 2 < |input|
      invariant i <= |input| && Encoding(input) == out + Encoding(input[i..])
    {
      var x, y, z := input[i], input[i + 1], input[i + 2];
      EncodingStep(input, i, out);
      out := out + [Letter(x / 4)] + [Letter(x % 4 * 16 + y / 16)] + [Letter(y % 16 * 4 + z / 64)] + [Letter(z % 64)];
      i := i + 3;
    }
    EncodingEnd(input[i..]);
    if i < |input| {
      out := out + [Letter(input[i] / 4)];
      if i + 1 < |input| {
        out := out + [Letter(input[i] % 4 * 16 + input[i + 1] / 16)] + [Letter(input[i + 1] % 16 * 4)];
      } else {
        out := out + [Letter(input[i] % 4 * 16)] + ['='];
      }
      out := out + ['='];
    }
    assert out == Encoding(input);
    DecodeEncoding(input);
  }

  lemma EncodingStep(input: Bytes, i: nat, out: string)
    requires i + 2 < |input|
    ensures var x, y, z := input[i], input[i + 1], input[i + 2];
      out + Encoding(input[i..]) == out + [Letter(x / 4)] + [Letter(x % 4 * 16 + y / 16)] + [Letter(y % 16 * 4 + z / 64)] + [Letter(z % 64)]
                                        + Encoding(input[i + 3..])
  {
    hide Letter;
    assert input[i..][3..] == input[i + 3..];
  }

  lemma EncodingEnd(s: Bytes)
    ensures s == [] ==> Encoding(s) == ""
    ensures |s| == 1 ==> Encoding(s) == LastOne(s[0])
    ensures |s| == 2 ==> Encoding(s) == LastTwo(s[0], s[1])
  {
    hide Letter;
  }

  lemma {:induction false} DecodeEncoding(s: Bytes)
    ensures Decode(Encoding(s)) == Some(s) && |Encoding(s)| == 4 * ((|s| + 2) / 3)
    decreases |s|
  {
    hide Decode, Letter, Group, LastOne, LastTwo;
    if s == [] {
      DecodeNothing();
    } else if |s| == 1 {
      DecodeLastOne(s[0]);
      assert s == [s[0]];
    } else if |s| == 2 {
      DecodeLastTwo(s[0], s[1]);
      assert s == [s[0], s[1]];
    } else {
      DecodeEncoding(s[3..]);
      DecodeGroup(s[0], s[1], s[2], Encoding(s[3..]));
      assert s == [s[0], s[1], s[2]] + s[3..];
    }
  }

  lemma DecodeNothing()
    ensures Decode("") == Some([])
  {
  }

  /** The bits of the first and second letter make up the first byte, and so on. */
  lemma FirstPacked(x: Byte, low: nat)
    requires low < 16
    ensures (x / 4 * 4 + (x % 4 * 16 + low) / 16) % 256 == x && x / 4 < 64 && x % 4 * 16 + low < 64 && (x % 4 * 16 + low) % 16 == low
  {
    assert (x % 4 * 16 + low) / 16 == x % 4;
  }

  lemma SecondPacked(y: Byte, low: nat)
    requires low < 4
    ensures (y / 16 * 16 + (y % 16 * 4 + low) / 4) % 256 == y && y / 16 < 16 && y % 16 * 4 + low < 64 && (y % 16 * 4 + low) % 4 == low
  {
    assert (y % 16 * 4 + low) / 4 == y % 16;
  }

  lemma ThirdPacked(z: Byte)
    ensures z / 64 * 64 + z % 64 == z && z / 64 < 4 && z % 64 < 64
  {
  }

  lemma DecodeLastOne(x: Byte)
    ensures Decode(LastOne(x)) == Some([x]) && |LastOne(x)| == 4
  {
    hide Letter, Sextet;
    FirstPacked(x, 0);
    SextetOfLetter(x / 4);
    SextetOfLetter(x % 4 * 16);
  }

  lemma DecodeLastTwo(x: Byte, y: Byte)
    ensures Decode(LastTwo(x, y)) == Some([x, y]) && |LastTwo(x, y)| == 4
  {
    hide Letter, Sextet;
    SecondPacked(y, 0);
    FirstPacked(x, y / 16);
    var a, b, c := x / 4, x % 4 * 16 + y / 16, y % 16 * 4;
    SextetOfLetter(a);
    SextetOfLetter(b);
    SextetOfLetter(c);
    assert Two(a, b, c) == [x, y];
  }

  lemma DecodeFour(a: nat, b: nat, c: nat, d: nat, rest: string)
    requires a < 64 && b < 64 && c < 64 && d < 64 && Decode(rest).Some?
    ensures Decode([Letter(a), Letter(b), Letter(c), Letter(d)] + rest) == Some(Three(a, b, c, d) + Decode(rest).value)
  {
    hide Letter, Sextet, Three;
    SextetOfLetter(a);
    SextetOfLetter(b);
    SextetOfLetter(c);
    SextetOfLetter(d);
    assert ([Letter(a), Letter(b), Letter(c), Letter(d)] + rest)[4..] == rest;
  }

  lemma DecodeGroup(x: Byte, y: Byte, z: Byte, rest: string)
    requires Decode(rest).Some?
    ensures Decode(Group(x, y, z) + rest) == Some([x, y, z] + Decode(rest).value) && |Group(x, y, z)| == 4
  {
    hide Decode, Letter;
    ThirdPacked(z);
    SecondPacked(y, z / 64);
    FirstPacked(x, y / 16);
    var a, b, c, d := x / 4, x % 4 * 16 + y / 16, y % 16 * 4 + z / 64, z % 64;
    DecodeFour(a, b, c, d, rest);
    assert Three(a, b, c, d) == [x, y, z];
  }

  /** Different inputs have different encodings. */
  lemma EncodingInjective(s: Bytes, t: Bytes)
    requires Encoding(s) == Encoding(t)
    ensures s == t
  {
    DecodeEncoding(s);
    DecodeEncoding(t);
  }

  // ---------------------------------------------------------------------------------------------------------------
  // SHA-1 padding
  // ---------------------------------------------------------------------------------------------------------------

  /** Length of the message with its marker bit and zeros, before the eight length bytes. */
  function PaddedLength(n: nat): nat {
    n + 1 + (55 - n) % 64
  }

  function Zeros(n: nat): Bytes {
    seq(n, _ => 0)
  }

  function LengthField(msg: Bytes): (b: Bytes)
    ensures |b| == 8
  {
    BigEndian(|msg| * 8 % 0x1_0000_0000_0000_0000, 8)
  }

  /** The padded message: marker, zeros, and the bit length in eight bytes, as the code's 64-bit word holds it. */
  function Padded(msg: Bytes): Bytes {
    msg + [0x80] + Zeros(PaddedLength(|msg|) - |msg| - 1) + LengthField(msg)
  }

  method Pad(msg: Bytes) returns (buf: array<Byte>)
    ensures fresh(buf) && buf[..] == Padded(msg)
    ensures buf.Length % 64 == 0 && |msg| + 9 <= buf.Length < |msg| + 9 + 64
  {
    hide Padded, PaddedLength, BigEndian;
    var len := |msg|;
    WholeBlocks(len);
    var newLen := FindLength(len);
    buf := new Byte[newLen + 8](_ => 0);
    PadStart(buf, msg, newLen);
    WriteLength(buf, newLen, len * 8 % 0x1_0000_0000_0000_0000);
    assert buf[..] == buf[..newLen] + buf[newLen..];
    PaddedParts(msg);
  }

  /** Message and marker bit, in a cleared buffer. */
  method PadStart(buf: array<Byte>, msg: Bytes, newLen: nat)
    requires |msg| < newLen <= buf.Length && forall i :: 0 <= i < buf.Length ==> buf[i] == 0
    modifies buf
    ensures buf[..newLen] == msg + [0x80] + Zeros(newLen - |msg| - 1)
  {
    forall i | 0 <= i < |msg| { buf[i] := msg[i]; }
    buf[|msg|] := 0x80;
  }

  lemma PaddedParts(msg: Bytes)
    ensures |msg| < PaddedLength(|msg|)
    ensures Padded(msg) == msg + [0x80] + Zeros(PaddedLength(|msg|) - |msg| - 1) + LengthField(msg)
  {
    hide BigEndian;
  }

  /** The padding loop. */
  method FindLength(len: nat) returns (newLen: nat)
    ensures newLen == PaddedLength(len)
  {
    newLen := len + 1;
    while newLen % 64 != 56
      invariant len + 1 <= newLen <= PaddedLength(len)
      decreases PaddedLength(len) - newLen
    {
      newLen := newLen + 1;
    }
    LeastLength(len, newLen);
  }

  /** The eight length bytes, most significant first. */
  method WriteLength(buf: array<Byte>, at: nat, bits: nat)
    requires buf.Length == at + 8
    modifies buf
    ensures buf[..at] == old(buf[..at]) && buf[at..] == BigEndian(bits, 8)
  {
    hide BigEndian, Power256;
    ghost var tail := BigEndian(bits, 8);
    for i := 0 to 8
      invariant buf[..at] == old(buf[..at])
      invariant forall j :: 0 <= j < i ==> buf[at + j] == tail[j]
    {
      ByteOfBigEndian(bits, 8, i);
      buf[at + i] := bits / Power256(7 - i) % 256;
    }
  }

  /** Byte i of a big-endian number of n bytes. */
  lemma {:induction false} ByteOfBigEndian(v: nat, n: nat, i: nat)
    requires i < n
    ensures Power256(n - 1 - i) > 0 && BigEndian(v, n)[i] == v / Power256(n - 1 - i) % 256
    decreases n
  {
    if i < n - 1 {
      ByteOfBigEndian(v / 256, n - 1, i);
      PowerPositive(n - 2 - i);
      ShiftTwice(v, Power256(n - 2 - i));
      ShiftOrder(v, Power256(n - 2 - i));
    } else {
      assert Power256(0) == 1;
    }
  }

  lemma ShiftOrder(v: nat, p: nat)
    requires 0 < p
    ensures v / 256 / p == v / (256 * p)
  {
    var q, r := v / 256, v % 256;
    var a, b := q / p, q % p;
    assert v == 256 * q + r && q == a * p + b;
    assert v == a * (256 * p) + (256 * b + r);
    DivisionIsUnique(v, 256 * p, a, 256 * b + r);
  }

  /** The padding loop stops at the first length above the message's that leaves room for exactly the length field in the
      last 64-byte block. */
  lemma LeastLength(n: nat, m: nat)
    requires n + 1 <= m <= PaddedLength(n) && m % 64 == 56
    ensures m == PaddedLength(n)
    ensures forall k :: n + 1 <= k < PaddedLength(n) ==> k % 64 != 56
  {
  }

  lemma WholeBlocks(n: nat)
    ensures PaddedLength(n) % 64 == 56 && (PaddedLength(n) + 8) % 64 == 0 && n + 1 <= PaddedLength(n) <= n + 64
  {
  }

  /** Different messages (of less than 2^64 bits, as the standard demands) have different padded forms. */
  lemma PaddingInjective(a: Bytes, b: Bytes)
    requires |a| * 8 < 0x1_0000_0000_0000_0000 && |b| * 8 < 0x1_0000_0000_0000_0000
    requires Padded(a) == Padded(b)
    ensures a == b
  {
    hide Padded, Value;
    LengthIsRead(a);
    LengthIsRead(b);
    PaddedStarts(a);
    PaddedStarts(b);
  }

  /** The length field of a padded message tells the length of the message. */
  lemma LengthIsRead(a: Bytes)
    requires |a| * 8 < 0x1_0000_0000_0000_0000
    ensures |Padded(a)| >= 8 && Value(Padded(a)[|Padded(a)| - 8..]) == |a| * 8
  {
    var bits := |a| * 8;
    LastEight(a);
    PowerOfEight();
    hide Padded, BigEndian, Value, Power256;
    SmallModulo(bits, 0x1_0000_0000_0000_0000);
    ValueOfBigEndian(bits, 8);
  }

  lemma SmallModulo(n: nat, m: nat)
    requires n < m
    ensures n % m == n
  {
  }

  lemma PaddedStarts(a: Bytes)
    ensures |a| <= |Padded(a)| && Padded(a)[..|a|] == a
  {
    hide BigEndian;
  }

  lemma LastEight(a: Bytes)
    ensures |Padded(a)| >= 8 && Padded(a)[|Padded(a)| - 8..] == BigEndian(|a| * 8 % 0x1_0000_0000_0000_0000, 8)
  {
    hide BigEndian;
  }

  /** The padded message, byte by byte: the marker bit, zeros, and in the last eight bytes the length in bits. */
  lemma PaddedShape(msg: Bytes)
    ensures var p := Padded(msg);
      && |p| == PaddedLength(|msg|) + 8 && |p| % 64 == 0 && |msg| + 9 <= |p| < |msg| + 9 + 64
      && p[..|msg|] == msg && p[|msg|] == 0x80 && forall i :: |msg| < i < |p| - 8 ==> p[i] == 0
    ensures |msg| * 8 < 0x1_0000_0000_0000_0000 ==> |Padded(msg)| >= 8 && Value(Padded(msg)[|Padded(msg)| - 8..]) == |msg| * 8
  {
    hide BigEndian, Value, PaddedLength, Padded, Zeros;
    WholeBlocks(|msg|);
    PaddedParts(msg);
    LaidOut(msg, PaddedLength(|msg|) - |msg| - 1, LengthField(msg));
    if |msg| * 8 < 0x1_0000_0000_0000_0000 { LengthIsRead(msg); }
  }

  lemma LaidOut(msg: Bytes, k: nat, tail: Bytes)
    ensures var p := msg + [0x80] + Zeros(k) + tail;
      && |p| == |msg| + 1 + k + |tail| && p[..|msg|] == msg && p[|msg|] == 0x80
      && forall i :: |msg| < i < |msg| + 1 + k ==> p[i] == 0
  {
  }

  const UPPER := "ABCDEFGHIJKLMNOPQRSTUVWXYZ"
  const LOWER := "abcdefghijklmnopqrstuvwxyz"
  const DIGITS := "0123456789"

  /** The alphabet of table 1 of RFC 4648. */
  lemma Alphabet(v: nat)
    requires v < 64
    ensures Letter(v) == if v < 26 then UPPER[v] else if v < 52 then LOWER[v - 26] else if v < 62 then DIGITS[v - 52] else "+/"[v - 62]
  {
    if v < 26 {
      UpperCase(v);
    } else if v < 52 {
      LowerCase(v - 26);
    } else if v < 62 {
      Digit(v - 52);
    }
  }

  lemma UpperCase(v: nat)
    requires v < 26
    ensures UPPER[v] == ('A' as int + v) as char
  {
  }

  lemma LowerCase(v: nat)
    requires v < 26
    ensures LOWER[v] == ('a' as int + v) as char
  {
  }

  lemma Digit(v: nat)
    requires v < 10
    ensures DIGITS[v] == ('0' as int + v) as char
  {
  }

  // "foobar"
  const FOOBAR: Bytes := [0x66, 0x6F, 0x6F, 0x62, 0x61, 0x72]

  /** The test vectors of section 10 of RFC 4648. */
  lemma StandardVectors()
    ensures Encoding(FOOBAR) == "Zm9v" + "YmFy" && Encoding(FOOBAR[..5]) == "Zm9v" + "YmE=" && Encoding(FOOBAR[..4]) == "Zm9v" + "Yg=="
    ensures Encoding(FOOBAR[..3]) == "Zm9v" && Encoding(FOOBAR[..2]) == "Zm8=" && Encoding(FOOBAR[..1]) == "Zg==" && Encoding([]) == ""
  {
    assert Encoding([]) == "" by { hide Letter; }
    GroupVectors();
    LastVectors();
    hide Letter, Group, LastOne, LastTwo;
    EncodingOfGroup(0x66, 0x6F, 0x6F, []);
    EncodingOfGroup(0x62, 0x61, 0x72, []);
    EncodingOfGroup(0x66, 0x6F, 0x6F, FOOBAR[3..]);
    EncodingOfGroup(0x66, 0x6F, 0x6F, [0x62, 0x61]);
    EncodingOfGroup(0x66, 0x6F, 0x6F, [0x62]);
    assert FOOBAR[..3] == [0x66, 0x6F, 0x6F] + [] && FOOBAR[3..] == [0x62, 0x61, 0x72] + [];
    assert FOOBAR == [0x66, 0x6F, 0x6F] + FOOBAR[3..];
    assert FOOBAR[..5] == [0x66, 0x6F, 0x6F] + [0x62, 0x61] && FOOBAR[..4] == [0x66, 0x6F, 0x6F] + [0x62];
    EncodingEnd([0x62, 0x61]);
    EncodingEnd([0x62]);
    EncodingEnd(FOOBAR[..2]);
    EncodingEnd(FOOBAR[..1]);
  }

  lemma EncodingOfGroup(x: Byte, y: Byte, z: Byte, rest: Bytes)
    ensures Encoding([x, y, z] + rest) == Group(x, y, z) + Encoding(rest)
  {
    hide Group;
    assert ([x, y, z] + rest)[3..] == rest;
  }

  lemma GroupVectors()
    ensures Group(0x66, 0x6F, 0x6F) == "Zm9v" && Group(0x62, 0x61, 0x72) == "YmFy"
  {
  }

  lemma LastVectors()
    ensures LastTwo(0x62, 0x61) == "YmE=" && LastTwo(0x66, 0x6F) == "Zm8=" && LastOne(0x62) == "Yg==" && LastOne(0x66) == "Zg=="
  {
  }
}
