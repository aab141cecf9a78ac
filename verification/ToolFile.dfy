/** The tool table file: lines in, tools out, and back. */
module ToolFile {
  import opened Options
  import opened Sequences
  import opened ToolText
  import opened ToolLines

  // ---------------------------------------------------------------------------------------------------------------
  // Reading
  // ---------------------------------------------------------------------------------------------------------------

  function LineEnd(s: string): (n: nat)
    ensures n <= |s| && (n < |s| ==> s[n] == '\n')
    ensures forall i :: 0 <= i < n ==> s[i] != '\n'
  {
    if s == "" || s[0] == '\n' then 0 else 1 + LineEnd(s[1..])
  }

  /** A carriage return before the line feed belongs to the line end. */
  function Stripped(s: string): string {
    if s != "" && s[|s| - 1] == '\r' then s[..|s| - 1] else s
  }

  /** The lines read_line delivers into a buffer of LINE_SIZE characters. */
  function Lines(s: string): seq<string>
    decreases |s|
  {
    if s == "" then []
    else
      var n := LineEnd(s);
      if n == |s| then [Take(s, LINE_SIZE - 1)] else [Stripped(Take(s[..n], LINE_SIZE - 1))] + Lines(s[n + 1..])
  }

  function ToolsIn(lines: seq<string>, cap: nat): (ts: seq<Tool>)
  {
    if lines == [] then []
    else (if Parse(lines[0], cap).Some? then [Parse(lines[0], cap).value] else []) + ToolsIn(lines[1..], cap)
  }

  /** The tools a file lists, in order; lines that describe none are passed over. */
  function Tools(file: string, cap: nat): seq<Tool> {
    ToolsIn(Lines(file), cap)
  }

  /** What the buffer holds after reading from pos up to next. */
  function Buffered(file: string, pos: nat, next: nat): string
    requires pos <= next <= |file|
  {
    Take(file[pos..next], LINE_SIZE - 1)
  }

  /** No line feed from pos up to next. */
  predicate SameLine(file: string, pos: nat, next: nat)
    requires pos <= next <= |file|
  {
    forall i :: pos <= i < next ==> file[i] != '\n'
  }

  /** read_line: false at the end of the file. */
  method ReadLine(file: string, pos: nat) returns (got: bool, line: string, next: nat)
    requires pos <= |file|
    ensures pos <= next <= |file| && (got ==> pos < next)
    ensures Lines(file[pos..]) == if got then [line] + Lines(file[next..]) else []
  {
    hide Lines, Stripped, Buffered, SameLine;
    line := "";
    next := pos;
    NothingBuffered(file, pos);
    while next < |file|
      invariant pos <= next <= |file| && SameLine(file, pos, next) && line == Buffered(file, pos, next)
    {
      var c := file[next];
      if c == '\n' {
        FirstLine(file, pos, next);
        return true, Stripped(line), next + 1;
      }
      OneMoreBuffered(file, pos, next);
      if |line| < LINE_SIZE - 1 {
        line := line + [c];
      }
      next := next + 1;
    }
    LastLine(file, pos);
    got := line != "";
  }

  lemma NothingBuffered(file: string, pos: nat)
    requires pos <= |file|
    ensures Buffered(file, pos, pos) == "" && SameLine(file, pos, pos)
  {
    assert file[pos..pos] == "";
  }

  lemma OneMoreBuffered(file: string, pos: nat, next: nat)
    requires pos <= next < |file|
    ensures var b := Buffered(file, pos, next);
      Buffered(file, pos, next + 1) == if |b| < LINE_SIZE - 1 then b + [file[next]] else b
    ensures SameLine(file, pos, next) && file[next] != '\n' ==> SameLine(file, pos, next + 1)
  {
    assert file[pos..next + 1] == file[pos..next] + [file[next]];
  }

  lemma LinesSplit(s: string, n: nat)
    requires n < |s| && LineEnd(s) == n
    ensures Lines(s) == [Stripped(Take(s[..n], LINE_SIZE - 1))] + Lines(s[n + 1..])
  {
    hide LineEnd, Take, Stripped;
  }

  /** A line ended by a line feed at index n. */
  lemma FirstLine(file: string, pos: nat, n: nat)
    requires pos <= n < |file| && file[n] == '\n' && SameLine(file, pos, n)
    ensures Lines(file[pos..]) == [Stripped(Buffered(file, pos, n))] + Lines(file[n + 1..])
  {
    hide Lines, LineEnd, Take, Stripped;
    var s := file[pos..];
    LineEndIs(s, n - pos);
    LinesSplit(s, n - pos);
    assert s[..n - pos] == file[pos..n];
    assert s[n - pos + 1..] == file[n + 1..];
  }

  lemma LastLine(file: string, pos: nat)
    requires pos <= |file| && SameLine(file, pos, |file|)
    ensures var b := Buffered(file, pos, |file|);
      Lines(file[|file|..]) == [] && Lines(file[pos..]) == if b == "" then [] else [b]
  {
    assert file[|file|..] == "" && file[pos..|file|] == file[pos..];
    LineEndIs(file[pos..], |file| - pos);
    hide LineEnd;
  }

  lemma {:induction false} LineEndIs(s: string, n: nat)
    requires n <= |s| && (n < |s| ==> s[n] == '\n') && forall i :: 0 <= i < n ==> s[i] != '\n'
    ensures LineEnd(s) == n
  {
    if n > 0 {
      LineEndIs(s[1..], n - 1);
    }
  }

  /** The words from the one between j and k on; none if these coincide. */
  function WordsFrom(s: string, j: nat, k: nat): seq<string>
    requires j <= k <= |s|
  {
    if j == k then [] else [s[j..k]] + Split(s[k..])
  }

  /** strtok: find the next word at or after i. */
  method NextWord(s: string, i: nat) returns (j: nat, k: nat)
    requires i <= |s|
    ensures i <= j <= k <= |s| && Split(s[i..]) == WordsFrom(s, j, k)
    ensures j < k ==> IsWord(s[j..k])
  {
    hide Split;
    j := i;
    while j < |s| && Blank(s[j])
      invariant i <= j <= |s| && Split(s[j..]) == Split(s[i..])
    {
      SkipBlank(s, j);
      j := j + 1;
    }
    k := j;
    while k < |s| && !Blank(s[k])
      invariant j <= k <= |s| && forall m :: j <= m < k ==> !Blank(s[m])
    {
      k := k + 1;
    }
    if j < k {
      assert IsWord(s[j..k]);
      assert s[j..] == s[j..k] + s[k..];
      SplitWord(s[j..k], s[k..]);
    } else {
      SplitNothing(s[j..]);
    }
  }

  lemma SkipBlank(s: string, j: nat)
    requires j < |s| && Blank(s[j])
    ensures Split(s[j..]) == Split(s[j + 1..])
  {
    assert s[j..][1..] == s[j + 1..];
  }

  lemma SplitNothing(s: string)
    requires s == ""
    ensures Split(s) == []
  {
  }

  /** parse_line */
  method ParseLine(line: string, cap: nat) returns (ok: bool, out: Tool)
    ensures Parse(line, cap) == if ok then Some(out) else None
  {
    hide Split, ParseWord, GrowName, Unbarred;
    out := BLANK_TOOL;
    if line == "" || line[0] == ';' || line[0] == '\r' || line[0] == '\n' {
      return false, out;
    }
    var j, k := NextWord(line, 0);
    assert line[0..] == line;
    while j < k
      invariant j <= k <= |line|
      invariant (forall w :: w in WordsFrom(line, j, k) ==> IsWord(w))
      invariant ParseWords(Split(line), BLANK_TOOL, cap) == ParseWords(WordsFrom(line, j, k), out, cap)
      decreases |line| - j
    {
      var w := line[j..k];
      ghost var ws := WordsFrom(line, j, k);
      assert ws[0] == w && ws[1..] == Split(line[k..]) && IsWord(w);
      if w[0] == ';' {
        var name := ReadName(line, Take(w[1..], cap), k, cap);
        out := out.(name := Unbarred(name));
        return out.id >= 0, out;
      }
      var r := ParseWord(w, out);
      if r.None? { return false, out; }
      out := r.value;
      j, k := NextWord(line, k);
    }
    ok := out.id >= 0;
  }

  /** The rest of the line's words are the rest of the name, as far as they fit. */
  method ReadName(line: string, first: string, start: nat, cap: nat) returns (name: string)
    requires start <= |line|
    ensures name == GrowName(first, Split(line[start..]), cap)
  {
    hide Split;
    name := first;
    var j, k := NextWord(line, start);
    while j < k
      invariant j <= k <= |line|
      invariant GrowName(first, Split(line[start..]), cap) == GrowName(name, WordsFrom(line, j, k), cap)
      decreases |line| - j
    {
      var w := line[j..k];
      assert ([w] + Split(line[k..]))[1..] == Split(line[k..]);
      if |name| + |w| + 1 <= cap {
        name := name + (if name == "" then "" else " ") + w;
      }
      j, k := NextWord(line, k);
    }
  }

  // ---------------------------------------------------------------------------------------------------------------
  // Writing
  // ---------------------------------------------------------------------------------------------------------------

  predicate PlainText(s: string) {
    forall i :: 0 <= i < |s| ==> s[i] != '\n' && s[i] != '\r'
  }

  const VALUE_LIMIT: int := 1000000000

  predicate InRange(v: int) { -VALUE_LIMIT < v < VALUE_LIMIT }

  /** Tools a line can hold: 16-bit numbers, values below a million millimetres, a name without line breaks that fits. */
  predicate Writable(t: Tool, cap: nat) {
    && 0 <= t.id < 0x1_0000 && t.pocket < 0x1_0000
    && (forall i :: 0 <= i < N_AXIS ==> InRange(t.offsets[i])) && InRange(t.diameter)
    && PlainText(t.name) && |t.name| <= cap
  }

  /** Tools whose line the reader can take in: no line break, and shorter than its buffer. */
  predicate Fitting(t: Tool, cap: nat) {
    PlainText(t.name) && |t.name| <= cap && |Line(t)| < LINE_SIZE
  }

  function Render(ts: seq<Tool>): string
  {
    if ts == [] then "" else Line(ts[0]) + "\n" + Render(ts[1..])
  }

  function AllWrapped(ts: seq<Tool>): (r: seq<Tool>)
    ensures |r| == |ts| && forall i :: 0 <= i < |ts| ==> r[i] == Wrapped(ts[i])
  {
    seq(|ts|, i requires 0 <= i < |ts| => Wrapped(ts[i]))
  }

  function AllSettled(ts: seq<Tool>): (r: seq<Tool>)
    ensures |r| == |ts| && forall i :: 0 <= i < |ts| ==> r[i] == Settled(ts[i])
  {
    seq(|ts|, i requires 0 <= i < |ts| => Settled(ts[i]))
  }

  lemma PlainConcat(a: string, b: string)
    requires PlainText(a) && PlainText(b)
    ensures PlainText(a + b)
  {
  }

  lemma PlainLetter(c: char, s: string)
    requires c != '\n' && c != '\r' && PlainText(s)
    ensures PlainText([c] + s)
  {
  }

  lemma DigitsArePlain(s: string)
    requires AllDigits(s)
    ensures PlainText(s)
  {
  }

  lemma FixedIsPlain(v: int)
    ensures PlainText(Fixed(v))
  {
    hide Dec, Milli;
  }

  lemma {:induction false} AxisWordsArePlain(offsets: Offsets, k: nat)
    requires k <= N_AXIS
    ensures forall w :: w in AxisWords(offsets, k) ==> PlainText(w)
    decreases N_AXIS - k
  {
    hide Fixed;
    if k < N_AXIS {
      AxisWordsArePlain(offsets, k + 1);
      FixedIsPlain(offsets[k]);
      PlainConcat([LETTERS[k]], Fixed(offsets[k]));
    }
  }

  lemma {:induction false} SpacedIsPlain(ws: seq<string>)
    requires forall w :: w in ws ==> PlainText(w)
    ensures PlainText(Spaced(ws))
  {
    if ws != [] {
      assert ws[0] in ws;
      SpacedIsPlain(ws[1..]);
      PlainConcat(" ", ws[0]);
      PlainConcat(" " + ws[0], Spaced(ws[1..]));
    }
  }

  /** The words after the first. */
  function TailWords(t: Tool): seq<string> {
    [IdWord(t)] + AxisWords(t.offsets, 0) + DiameterWords(t)
  }

  lemma NumberWordsArePlain(t: Tool)
    ensures PlainText(PocketWord(t)) && PlainText(IdWord(t)) && PocketWord(t) != ""
  {
    var p: nat := if t.pocket >= 1 then t.pocket % 0x1_0000 else 0;
    var i: nat := t.id % 0x1_0000;
    DigitsArePlain(Dec(p));
    DigitsArePlain(Dec(i));
    hide Dec, PlainText;
    PlainLetter('P', Dec(p));
    PlainLetter('T', Dec(i));
  }

  lemma DiameterIsPlain(t: Tool)
    ensures forall w :: w in DiameterWords(t) ==> PlainText(w)
  {
    FixedIsPlain(t.diameter);
    hide Fixed, PlainText;
    PlainLetter('D', Fixed(t.diameter));
  }

  lemma TailIsPlain(t: Tool)
    ensures forall w :: w in TailWords(t) ==> PlainText(w)
  {
    NumberWordsArePlain(t);
    AxisWordsArePlain(t.offsets, 0);
    DiameterIsPlain(t);
    hide IdWord, DiameterWords, AxisWords, PlainText, PocketWord;
  }

  lemma NameIsPlain(t: Tool)
    requires PlainText(t.name)
    ensures PlainText(NamePart(t))
  {
    assert PlainText("");
    hide PlainText;
    PlainLetter(';', t.name);
    PlainLetter(' ', ";" + t.name);
    assert " " + (";" + t.name) == " ;" + t.name;
  }

  /** A printed line is not empty and has no line break in it. */
  lemma LineIsPlain(t: Tool)
    requires PlainText(t.name)
    ensures PlainText(Line(t)) && Line(t) != ""
  {
    LineShape(t);
    NumberWordsArePlain(t);
    TailIsPlain(t);
    NameIsPlain(t);
    hide Line, TailWords, Spaced, PlainText, PocketWord, NamePart;
    SpacedIsPlain(TailWords(t));
    PlainConcat(PocketWord(t), Spaced(TailWords(t)));
    PlainConcat(PocketWord(t) + Spaced(TailWords(t)), NamePart(t));
  }

  lemma FixedLength(v: int)
    requires InRange(v)
    ensures |Fixed(v)| <= 11
  {
    var a: nat := if v < 0 then -v else v;
    DecLength(a / 1000, 1000000, 6) by { assert Power10(6) == 1000000; }
    hide Dec, Milli;
  }

  lemma WordLength(n: nat)
    requires n < 0x1_0000
    ensures |Dec(n)| <= 5
  {
    DecLength(n, 100000, 5) by { assert Power10(5) == 100000; }
    hide Dec;
  }

  lemma {:induction false} AxisWordsLength(offsets: Offsets, k: nat)
    requires k <= N_AXIS && forall i :: 0 <= i < N_AXIS ==> InRange(offsets[i])
    ensures |AxisWords(offsets, k)| <= N_AXIS - k && forall w :: w in AxisWords(offsets, k) ==> |w| <= 12
    decreases N_AXIS - k
  {
    hide Fixed;
    if k < N_AXIS {
      AxisWordsLength(offsets, k + 1);
      FixedLength(offsets[k]);
    }
  }

  lemma {:induction false} SpacedLength(ws: seq<string>, each: nat)
    requires forall w :: w in ws ==> |w| <= each
    ensures |Spaced(ws)| <= |ws| * (each + 1)
  {
    if ws != [] {
      assert ws[0] in ws;
      SpacedLength(ws[1..], each);
      OneMoreTimes(|ws|, each + 1);
    }
  }

  lemma OneMoreTimes(n: int, k: int)
    ensures n * k == (n - 1) * k + k
  {
  }

  lemma NumberWordsLength(t: Tool)
    ensures |PocketWord(t)| <= 6 && |IdWord(t)| <= 6
  {
    var p: nat := if t.pocket >= 1 then t.pocket % 0x1_0000 else 0;
    var i: nat := t.id % 0x1_0000;
    WordLength(p);
    WordLength(i);
    hide Dec;
  }

  lemma DiameterLength(t: Tool)
    requires InRange(t.diameter)
    ensures |DiameterWords(t)| <= 1 && forall w :: w in DiameterWords(t) ==> |w| <= 12
  {
    FixedLength(t.diameter);
    hide Fixed;
  }

  lemma TailLength(t: Tool, cap: nat)
    requires Writable(t, cap)
    ensures |TailWords(t)| <= 7 && forall w :: w in TailWords(t) ==> |w| <= 12
  {
    NumberWordsLength(t);
    AxisWordsLength(t.offsets, 0);
    DiameterLength(t);
    hide IdWord, DiameterWords, AxisWords, PocketWord;
  }

  lemma LineLength(t: Tool)
    ensures |Line(t)| <= |PocketWord(t)| + |Spaced(TailWords(t))| + |t.name| + 2
  {
    LineShape(t);
    hide Line, Spaced, TailWords, PocketWord;
  }

  lemma SevenWords(ws: seq<string>)
    requires |ws| <= 7 && forall w :: w in ws ==> |w| <= 12
    ensures |Spaced(ws)| <= 91
  {
    SpacedLength(ws, 12);
  }

  /** A line of moderate numbers and a name of moderate length fits the reader's buffer. */
  lemma WritableFits(t: Tool, cap: nat)
    requires Writable(t, cap) && cap <= 200
    ensures Fitting(t, cap)
  {
    NumberWordsLength(t);
    TailLength(t, cap);
    SevenWords(TailWords(t));
    LineLength(t);
    hide TailWords, Spaced, Line, PocketWord, IdWord, PlainText, InRange;
  }

  lemma WritableSettles(t: Tool, cap: nat)
    requires Writable(t, cap)
    ensures Wrapped(t) == Settled(t)
  {
    hide Wrapped, Settled;
    WrappedIff(t);
  }

  function NamePart(t: Tool): string {
    if t.name == "" then "" else " ;" + t.name
  }

  lemma LineShape(t: Tool)
    ensures Line(t) == PocketWord(t) + Spaced(TailWords(t)) + NamePart(t)
  {
  }

  /** A plain line written with a line feed is read back as it is. */
  lemma LineReads(l: string, rest: string)
    requires PlainText(l) && 0 < |l| < LINE_SIZE
    ensures Lines(l + "\n" + rest) == [l] + Lines(rest)
  {
    var s := l + "\n" + rest;
    LineEndIs(s, |l|);
    LinesSplit(s, |l|);
    hide Lines, LineEnd;
    assert s[..|l|] == l && s[|l| + 1..] == rest;
  }

  lemma ToolsInOneMore(line: string, lines: seq<string>, t: Tool, cap: nat)
    requires Parse(line, cap) == Some(t)
    ensures ToolsIn([line] + lines, cap) == [t] + ToolsIn(lines, cap)
  {
    hide Parse;
    assert ([line] + lines)[1..] == lines;
  }

  /** Reading a rendered file gives its tools back, in order, each up to the width of its numbers and the spacing of its name. */
  lemma {:induction false} RenderReads(ts: seq<Tool>, cap: nat)
    requires forall t :: t in ts ==> Fitting(t, cap)
    ensures Tools(Render(ts), cap) == AllWrapped(ts)
    decreases |ts|
  {
    hide Line, Lines, Parse, Wrapped, LineEnd;
    if ts == [] {
      NoLines(cap);
    } else {
      var t, rest := ts[0], Render(ts[1..]);
      assert t in ts;
      LineIsPlain(t);
      LineReads(Line(t), rest);
      LineParses(t, cap);
      ToolsInOneMore(Line(t), Lines(rest), Wrapped(t), cap);
      RenderReads(ts[1..], cap);
      assert AllWrapped(ts) == [Wrapped(t)] + AllWrapped(ts[1..]);
    }
  }

  lemma NoLines(cap: nat)
    ensures Tools("", cap) == []
  {
  }

  lemma PlainTidy(name: string)
    requires PlainText(name)
    ensures PlainText(Tidy(name))
  {
    PlainSplit(name);
    PlainJoin(Split(name));
    hide Join, Split;
  }

  lemma {:induction false} PlainSplit(s: string)
    requires PlainText(s)
    ensures forall w :: w in Split(s) ==> PlainText(w)
    decreases |s|
  {
    if s != "" {
      PlainSplit(if Blank(s[0]) then s[1..] else s[WordLen(s)..]);
    }
  }

  lemma {:induction false} PlainJoin(ws: seq<string>)
    requires forall w :: w in ws ==> PlainText(w)
    ensures PlainText(Join(ws))
  {
    if |ws| > 1 {
      assert ws[0] in ws;
      PlainJoin(ws[1..]);
      PlainConcat(ws[0], " ");
      PlainConcat(ws[0] + " ", Join(ws[1..]));
    } else if |ws| == 1 {
      assert ws[0] in ws;
    }
  }

  /** Every tool read from a file, whoever wrote it, is settled. */
  lemma {:induction false} ToolsAreSettled(lines: seq<string>, cap: nat)
    ensures forall t :: t in ToolsIn(lines, cap) ==> Settled(t) == t && t.id >= 0 && |t.name| <= cap
  {
    hide Parse, Settled;
    if lines != [] {
      ToolsAreSettled(lines[1..], cap);
      if Parse(lines[0], cap).Some? {
        ParsedIsSettled(lines[0], cap);
      }
    }
  }

  /** A line end may be a line feed or carriage return and line feed; the last line needs none; longer lines are cut. */
  lemma LineEnds(l: string, rest: string)
    requires PlainText(l) && l != ""
    ensures |l| < LINE_SIZE - 1 ==> Lines(l + "\r\n" + rest) == [l] + Lines(rest)
    ensures |l| >= LINE_SIZE - 1 ==> Lines(l + "\n" + rest) == [l[..299]] + Lines(rest)
    ensures |l| < LINE_SIZE ==> Lines(l) == [l]
  {
    CrLf(l, rest);
    LongLine(l, rest);
    PlainLastLine(l);
    hide Lines;
  }

  lemma PlainLastLine(l: string)
    requires PlainText(l) && l != ""
    ensures |l| < LINE_SIZE ==> Lines(l) == [l]
  {
    LineEndIs(l, |l|);
    LinesOfOne(l);
    hide Lines, LineEnd;
  }

  lemma LinesOfOne(l: string)
    requires l != "" && LineEnd(l) == |l|
    ensures Lines(l) == [Take(l, LINE_SIZE - 1)]
  {
    hide LineEnd;
  }

  lemma CrLf(l: string, rest: string)
    requires PlainText(l)
    ensures |l| < LINE_SIZE - 1 ==> Lines(l + "\r\n" + rest) == [l] + Lines(rest)
  {
    var s := l + "\r\n" + rest;
    LineEndIs(s, |l| + 1);
    LinesSplit(s, |l| + 1);
    hide Lines, LineEnd;
    assert s[..|l| + 1] == l + "\r" && s[|l| + 2..] == rest;
    assert (l + "\r")[..|l|] == l;
  }

  lemma LongLine(l: string, rest: string)
    requires PlainText(l)
    ensures |l| >= LINE_SIZE - 1 ==> Lines(l + "\n" + rest) == [l[..299]] + Lines(rest)
  {
    var s := l + "\n" + rest;
    LineEndIs(s, |l|);
    LinesSplit(s, |l|);
    hide Lines, LineEnd;
    assert s[..|l|] == l && s[|l| + 1..] == rest;
    assert |l| == 299 ==> l[..299] == l;
  }
}
