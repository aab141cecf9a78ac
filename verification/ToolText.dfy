/** Text as the tool table writes and reads it: blank-separated words, decimal numbers, three-decimal numbers. */
module ToolText {
  import opened Options
  import opened Sequences

  // ---------------------------------------------------------------------------------------------------------------
  // Words
  // ---------------------------------------------------------------------------------------------------------------

  predicate Blank(c: char) { c == ' ' || c == '\t' }

  predicate IsWord(w: string) {
    w != "" && forall i :: 0 <= i < |w| ==> !Blank(w[i])
  }

  function WordLen(s: string): (n: nat)
    ensures n <= |s|
    ensures forall i :: 0 <= i < n ==> !Blank(s[i])
    ensures n < |s| ==> Blank(s[n])
  {
    if s == "" || Blank(s[0]) then 0 else 1 + WordLen(s[1..])
  }

  /** The words of a line, as strtok with blank and tab delivers them. */
  function Split(s: string): (ws: seq<string>)
    ensures forall w :: w in ws ==> IsWord(w)
    decreases |s|
  {
    if s == "" then []
    else if Blank(s[0]) then Split(s[1..])
    else [s[..WordLen(s)]] + Split(s[WordLen(s)..])
  }

  /** Words with one space between them. */
  function Join(ws: seq<string>): string {
    if ws == [] then "" else if |ws| == 1 then ws[0] else ws[0] + " " + Join(ws[1..])
  }

  /** Words with a space before each. */
  function Spaced(ws: seq<string>): string {
    if ws == [] then "" else " " + ws[0] + Spaced(ws[1..])
  }

  predicate StartsBlank(s: string) { s == "" || Blank(s[0]) }

  lemma {:induction false} WordLenOf(w: string, s: string)
    requires (forall i :: 0 <= i < |w| ==> !Blank(w[i])) && StartsBlank(s)
    ensures WordLen(w + s) == |w|
  {
    if w == "" {
      assert w + s == s;
    } else {
      assert (w + s)[1..] == w[1..] + s;
      WordLenOf(w[1..], s);
    }
  }

  lemma SplitWord(w: string, s: string)
    requires IsWord(w) && StartsBlank(s)
    ensures Split(w + s) == [w] + Split(s)
  {
    WordLenOf(w, s);
    assert (w + s)[..|w|] == w && (w + s)[|w|..] == s;
  }

  lemma SpacedStartsBlank(ws: seq<string>, s: string)
    requires StartsBlank(s)
    ensures StartsBlank(Spaced(ws) + s)
    ensures ws != [] ==> Spaced(ws) + s == " " + (ws[0] + (Spaced(ws[1..]) + s))
  {
    if ws == [] {
      assert Spaced(ws) + s == s;
    } else {
      var w, more := ws[0], Spaced(ws[1..]);
      assert Spaced(ws) == " " + w + more;
      hide Spaced;
      AppendTwice(" " + w, more, s);
      AppendTwice(" ", w, more + s);
    }
  }

  /** One more word in front, after a space. */
  lemma SplitOneMore(w: string, rest: string, tail: seq<string>, last: seq<string>)
    requires IsWord(w) && StartsBlank(rest) && Split(rest) == tail + last
    ensures Split(" " + (w + rest)) == ([w] + tail) + last
  {
    hide Split;
    SplitBlank(w + rest);
    SplitWord(w, rest);
    assert [w] + (tail + last) == ([w] + tail) + last;
  }

  lemma {:induction false} SplitSpaced(ws: seq<string>, s: string)
    requires (forall w :: w in ws ==> IsWord(w)) && StartsBlank(s)
    ensures Split(Spaced(ws) + s) == ws + Split(s)
  {
    hide Split, IsWord, StartsBlank;
    if ws == [] {
      assert Spaced(ws) + s == s;
    } else {
      var rest := Spaced(ws[1..]) + s;
      SplitSpaced(ws[1..], s);
      SpacedStartsBlank(ws, s);
      SpacedStartsBlank(ws[1..], s);
      assert ws[0] in ws;
      SplitOneMore(ws[0], rest, ws[1..], Split(s));
      assert ws == [ws[0]] + ws[1..];
    }
  }

  lemma SplitBlank(s: string)
    ensures Split(" " + s) == Split(s)
  {
    assert (" " + s)[1..] == s;
  }

  lemma {:induction false} JoinIsSpaced(ws: seq<string>)
    requires ws != []
    ensures Join(ws) == ws[0] + Spaced(ws[1..])
  {
    if |ws| > 1 {
      JoinIsSpaced(ws[1..]);
      assert ws[0] + " " + (ws[1] + Spaced(ws[2..])) == ws[0] + (" " + ws[1] + Spaced(ws[2..]));
      assert ws[1..][1..] == ws[2..];
    }
  }

  /** Splitting undoes joining. */
  lemma SplitJoin(ws: seq<string>)
    requires forall w :: w in ws ==> IsWord(w)
    ensures Split(Join(ws)) == ws
  {
    if ws != [] {
      JoinIsSpaced(ws);
      SplitSpaced(ws[1..], "");
      assert Spaced(ws[1..]) + "" == Spaced(ws[1..]);
      SplitWord(ws[0], Spaced(ws[1..]));
    }
  }

  /** Re-joining never lengthens, and drops a leading blank. */
  lemma {:induction false} JoinSplitShortens(s: string)
    ensures |Join(Split(s))| <= |s|
    ensures s != "" && Blank(s[0]) ==> |Join(Split(s))| < |s|
    decreases |s|
  {
    if s != "" {
      if Blank(s[0]) {
        JoinSplitShortens(s[1..]);
      } else {
        JoinSplitShortens(s[WordLen(s)..]);
        assert Split(s)[1..] == Split(s[WordLen(s)..]);
      }
    }
  }

  // ---------------------------------------------------------------------------------------------------------------
  // Numbers
  // ---------------------------------------------------------------------------------------------------------------

  predicate IsDigit(c: char) { '0' <= c <= '9' }

  function DigitChar(d: nat): (c: char)
    requires d < 10
    ensures IsDigit(c) && DigitValue(c) == d
  {
    "0123456789"[d]
  }

  function DigitValue(c: char): (d: nat)
    requires IsDigit(c)
    ensures d < 10
  {
    c as int - '0' as int
  }

  predicate AllDigits(s: string) {
    forall i :: 0 <= i < |s| ==> IsDigit(s[i])
  }

  function Number(s: string): nat
    requires AllDigits(s)
  {
    if s == "" then 0 else 10 * Number(s[..|s| - 1]) + DigitValue(s[|s| - 1])
  }

  /** %u */
  function Dec(n: nat): (s: string)
    ensures s != "" && AllDigits(s)
  {
    (if n < 10 then "" else Dec(n / 10)) + [DigitChar(n % 10)]
  }

  lemma {:induction false} NumberOfDec(n: nat)
    ensures Number(Dec(n)) == n
  {
    var s := Dec(n);
    if n < 10 {
      assert s[..|s| - 1] == "";
    } else {
      NumberOfDec(n / 10);
      assert s[..|s| - 1] == Dec(n / 10);
    }
  }

  lemma {:induction false} DecLength(n: nat, bound: nat, k: nat)
    requires n < bound && bound == Power10(k) && 0 < k
    ensures |Dec(n)| <= k
  {
    if n >= 10 {
      DecLength(n / 10, Power10(k - 1), k - 1);
    }
  }

  function Power10(k: nat): nat {
    if k == 0 then 1 else 10 * Power10(k - 1)
  }

  function DigitsLen(s: string): (n: nat)
    ensures n <= |s| && AllDigits(s[..n])
    ensures n < |s| ==> !IsDigit(s[n])
  {
    if s == "" || !IsDigit(s[0]) then 0
    else
      assert forall i :: 0 < i < 1 + DigitsLen(s[1..]) ==> s[i] == s[1..][i - 1];
      1 + DigitsLen(s[1..])
  }

  lemma {:induction false} DigitsLenOf(d: string, s: string)
    requires AllDigits(d) && (s == "" || !IsDigit(s[0]))
    ensures DigitsLen(d + s) == |d|
  {
    if d == "" {
      assert d + s == s;
    } else {
      assert (d + s)[1..] == d[1..] + s;
      DigitsLenOf(d[1..], s);
    }
  }

  /** The core's unsigned reader: the digits at the start, at least one. */
  function ReadUint(s: string): Option<nat> {
    var n := DigitsLen(s);
    if n == 0 then None else Some(Number(s[..n]))
  }

  lemma ReadUintOfDec(n: nat)
    ensures ReadUint(Dec(n)) == Some(n)
  {
    DigitsLenOf(Dec(n), "");
    assert Dec(n) + "" == Dec(n);
    assert Dec(n)[..|Dec(n)|] == Dec(n);
    NumberOfDec(n);
  }

  /** Three digits. */
  function Milli(n: nat): (s: string)
    requires n < 1000
    ensures |s| == 3 && AllDigits(s)
  {
    [DigitChar(n / 100), DigitChar(n / 10 % 10), DigitChar(n % 10)]
  }

  lemma NumberOfThree(a: nat, b: nat, c: nat)
    requires a < 10 && b < 10 && c < 10
    ensures Number([DigitChar(a), DigitChar(b), DigitChar(c)]) == 100 * a + 10 * b + c
  {
    var x, y, z := DigitChar(a), DigitChar(b), DigitChar(c);
    hide DigitChar;
    assert Number([x]) == a by { NumberSnoc("", x); assert "" + [x] == [x]; }
    assert Number([x, y]) == 10 * a + b by { NumberSnoc([x], y); assert [x] + [y] == [x, y]; }
    NumberSnoc([x, y], z);
    assert [x, y] + [z] == [x, y, z];
  }

  lemma NumberOfMilli(n: nat)
    requires n < 1000
    ensures Number(Milli(n)) == n
  {
    NumberOfThree(n / 100, n / 10 % 10, n % 10);
    assert n / 10 == 10 * (n / 100) + n / 10 % 10;
    hide Number;
  }

  lemma NumberSnoc(s: string, c: char)
    requires AllDigits(s) && IsDigit(c)
    ensures AllDigits(s + [c]) && Number(s + [c]) == 10 * Number(s) + DigitValue(c)
  {
    assert (s + [c])[..|s|] == s;
  }

  /** %.3f of a value in thousandths. */
  function Fixed(v: int): string {
    var a: nat := if v < 0 then -v else v;
    (if v < 0 then "-" else "") + Dec(a / 1000) + "." + Milli(a % 1000)
  }

  /** The digits after the decimal point as thousandths: the first three, missing ones counting as 0. */
  function Thousandths(digits: string): nat
    requires AllDigits(digits)
  {
    if |digits| >= 3 then Number(digits[..3])
    else if |digits| == 2 then 10 * Number(digits)
    else if |digits| == 1 then 100 * Number(digits)
    else 0
  }

  /** An unsigned decimal number at the start of s, in thousandths; at least one digit is needed. */
  function ReadMagnitude(s: string): Option<nat> {
    var n := DigitsLen(s);
    if n < |s| && s[n] == '.' then
      var fraction := s[n + 1..];
      var m := DigitsLen(fraction);
      if n + m == 0 then None else Some(1000 * Number(s[..n]) + Thousandths(fraction[..m]))
    else if n == 0 then None else Some(1000 * Number(s[..n]))
  }

  /** The core's float reader, in thousandths. */
  function ReadFloat(s: string): Option<int> {
    if s != "" && s[0] == '-' then
      var r := ReadMagnitude(s[1..]);
      if r.None? then None else var a: int := r.value; Some(-a)
    else
      var r := ReadMagnitude(if s != "" && s[0] == '+' then s[1..] else s);
      if r.None? then None else Some(r.value)
  }

  lemma ReadMagnitudeParts(d: string, f: string)
    requires d != "" && AllDigits(d) && |f| == 3 && AllDigits(f)
    ensures ReadMagnitude(d + "." + f) == Some(1000 * Number(d) + Number(f))
  {
    hide Number, DigitsLen;
    var s := d + "." + f;
    assert DigitsLen(s) == |d| by {
      assert s == d + ("." + f);
      DigitsLenOf(d, "." + f);
    }
    assert DigitsLen(f) == 3 by {
      assert f + "" == f;
      DigitsLenOf(f, "");
    }
    PointParts(d, f);
    assert f[..3] == f;
  }

  lemma PointParts(d: string, f: string)
    ensures var s := d + "." + f; s[..|d|] == d && s[|d|] == '.' && s[|d| + 1..] == f
  {
  }

  lemma ReadMagnitudeOf(a: nat)
    ensures ReadMagnitude(Dec(a / 1000) + "." + Milli(a % 1000)) == Some(a)
  {
    hide Number, Dec, Milli, ReadMagnitude;
    ReadMagnitudeParts(Dec(a / 1000), Milli(a % 1000));
    NumberOfDec(a / 1000);
    NumberOfMilli(a % 1000);
  }

  lemma ReadSigned(m: string, a: int)
    requires 0 <= a && m != "" && IsDigit(m[0]) && ReadMagnitude(m) == Some(a)
    ensures ReadFloat(m) == Some(a) && ReadFloat("-" + m) == Some(-a)
  {
    hide ReadMagnitude;
    assert ("-" + m)[1..] == m;
  }

  /** Reading undoes printing, sign included. */
  lemma ReadFloatOfFixed(v: int)
    ensures ReadFloat(Fixed(v)) == Some(v)
  {
    hide ReadFloat, ReadMagnitude, Dec, Milli;
    var a: nat := if v < 0 then -v else v;
    var m := Dec(a / 1000) + "." + Milli(a % 1000);
    ReadMagnitudeOf(a);
    assert m[0] == Dec(a / 1000)[0];
    ReadSigned(m, a);
    assert Fixed(v) == if v < 0 then "-" + m else m;
  }

  /** Spaces and tabs separate words, anywhere and in any number. */
  lemma {:induction false} SplitAtBlank(a: string, c: char, b: string)
    requires c == ' ' || c == '\t'
    ensures Split(a + [c] + b) == Split(a) + Split(b)
    decreases |a|
  {
    var rest := [c] + b;
    assert a + [c] + b == a + rest && rest[1..] == b;
    if a == "" {
      assert "" + rest == rest && Split(rest) == Split(b);
      assert [] + Split(b) == Split(b);
    } else if Blank(a[0]) {
      assert (a + rest)[0] == a[0] && (a + rest)[1..] == a[1..] + [c] + b;
      SplitAtBlank(a[1..], c, b);
    } else {
      var n := WordLen(a);
      var w, tail := a[..n], a[n..];
      assert a == w + tail && IsWord(w) && StartsBlank(tail);
      WordsApart(w, tail, c, b);
      SplitAtBlank(tail, c, b);
      SplitWord(w, tail);
      SplitWord(w, tail + [c] + b);
      assert [w] + (Split(tail) + Split(b)) == ([w] + Split(tail)) + Split(b);
    }
  }

  lemma WordsApart(w: string, tail: string, c: char, b: string)
    requires StartsBlank(tail) && Blank(c)
    ensures (w + tail) + [c] + b == w + (tail + [c] + b) && StartsBlank(tail + [c] + b)
  {
  }

  /** Text without spaces and tabs is one word. */
  lemma SplitNoBlank(w: string)
    requires w != "" && ' ' !in w && '\t' !in w
    ensures Split(w) == [w]
  {
    assert forall i :: 0 <= i < |w| ==> !Blank(w[i]);
    SplitWord(w, "");
    assert w + "" == w;
  }
}
