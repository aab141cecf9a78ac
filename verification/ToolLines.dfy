/** One tool, one line: what write_pocket_line prints and what parse_line makes of it. */
module ToolLines {
  import opened Options
  import opened Sequences
  import opened ToolText

  const N_AXIS: nat := 5
  const LETTERS: string := "XYZAB"
  const LINE_SIZE: nat := 300

  /** One value per axis, in thousandths. */
  type Offsets = o: seq<int> | |o| == N_AXIS witness [0, 0, 0, 0, 0]

  /** Offsets and diameter in thousandths; pocket -1 means not in the carousel; id -1 means none read yet. */
  datatype Tool = Tool(id: int, pocket: int, offsets: Offsets, diameter: int, name: string)

  const NO_OFFSETS: Offsets := [0, 0, 0, 0, 0]
  const BLANK_TOOL := Tool(-1, -1, NO_OFFSETS, 0, "")

  // ---------------------------------------------------------------------------------------------------------------
  // Printing
  // ---------------------------------------------------------------------------------------------------------------

  /** The words for axes k and up; zero offsets are left out. */
  function AxisWords(offsets: Offsets, k: nat): (ws: seq<string>)
    requires k <= N_AXIS
    decreases N_AXIS - k
  {
    if k == N_AXIS then []
    else (if offsets[k] == 0 then [] else [[LETTERS[k]] + Fixed(offsets[k])]) + AxisWords(offsets, k + 1)
  }

  function PocketWord(t: Tool): string {
    "P" + Dec(if t.pocket >= 1 then t.pocket % 0x1_0000 else 0)
  }

  /** The tool number is printed as a 16-bit word. */
  function IdWord(t: Tool): string {
    "T" + Dec(t.id % 0x1_0000)
  }

  function DiameterWords(t: Tool): seq<string> {
    if t.diameter == 0 then [] else ["D" + Fixed(t.diameter)]
  }

  /** The line, without its end. */
  function Line(t: Tool): string
  {
    PocketWord(t) + Spaced([IdWord(t)] + AxisWords(t.offsets, 0) + DiameterWords(t)) + if t.name == "" then "" else " ;" + t.name
  }

  // ---------------------------------------------------------------------------------------------------------------
  // Parsing
  // ---------------------------------------------------------------------------------------------------------------

  function Caps(c: char): char {
    if 'a' <= c <= 'z' then (c as int - 32) as char else c
  }

  /** A word that is not the start of the name; None if its number cannot be read. Unknown letters are skipped. */
  function ParseWord(w: string, t: Tool): (r: Option<Tool>)
    requires w != ""
  {
    var c, arg := Caps(w[0]), w[1..];
    if c == 'T' then
      var n := ReadUint(arg); if n.None? then None else Some(t.(id := n.value))
    else if c == 'P' then
      var n := ReadUint(arg); if n.None? then None else Some(t.(pocket := if n.value == 0 then -1 else n.value))
    else if c == 'X' then ParseAxis(0, arg, t)
    else if c == 'Y' then ParseAxis(1, arg, t)
    else if c == 'Z' then ParseAxis(2, arg, t)
    else if c == 'A' then ParseAxis(3, arg, t)
    else if c == 'B' then ParseAxis(4, arg, t)
    else if c == 'D' then
      var v := ReadFloat(arg); if v.None? then None else Some(t.(diameter := v.value))
    else Some(t)
  }

  function ParseAxis(k: nat, arg: string, t: Tool): Option<Tool>
    requires k < N_AXIS
  {
    var v := ReadFloat(arg);
    if v.None? then None else Some(t.(offsets := t.offsets[k := v.value]))
  }

  /** Append the remaining words to a name of at most `cap` characters, skipping those that do not fit. */
  function GrowName(name: string, ws: seq<string>, cap: nat): string
    decreases |ws|
  {
    if ws == [] then name
    else GrowName(if |name| + |ws[0]| + 1 <= cap then name + (if name == "" then "" else " ") + ws[0] else name, ws[1..], cap)
  }

  /** Every bar becomes a percent sign. */
  function Unbarred(s: string): (r: string)
    ensures |r| == |s| && '|' !in r
    ensures forall i :: 0 <= i < |s| && s[i] != '|' ==> r[i] == s[i]
    ensures forall i :: 0 <= i < |s| && s[i] == '|' ==> r[i] == '%'
  {
    seq(|s|, i requires 0 <= i < |s| => if s[i] == '|' then '%' else s[i])
  }

  function ParseWords(ws: seq<string>, t: Tool, cap: nat): Option<Tool>
    requires forall w :: w in ws ==> IsWord(w)
  {
    if ws == [] then Some(t)
    else if assert IsWord(ws[0]); ws[0][0] == ';' then Some(t.(name := Unbarred(GrowName(Take(ws[0][1..], cap), ws[1..], cap))))
    else
      var u := ParseWord(ws[0], t);
      if u.None? then None else ParseWords(ws[1..], u.value, cap)
  }

  /** The tool a line describes, if it does. */
  function Parse(line: string, cap: nat): (r: Option<Tool>)
  {
    if line == "" || line[0] == ';' || line[0] == '\r' || line[0] == '\n' then None
    else
      var t := ParseWords(Split(line), BLANK_TOOL, cap);
      if t.Some? && t.value.id >= 0 then t else None
  }

  // ---------------------------------------------------------------------------------------------------------------
  // Round trip
  // ---------------------------------------------------------------------------------------------------------------

  /** What a name becomes by being written and read: single spaces, no bars. */
  function Tidy(name: string): string {
    Unbarred(Join(Split(name)))
  }

  /** What a tool becomes by being written and read. */
  function Settled(t: Tool): Tool {
    t.(pocket := if t.pocket >= 1 then t.pocket else -1, name := Tidy(t.name))
  }

  lemma LetterWord(c: char, s: string)
    requires !Blank(c) && forall i :: 0 <= i < |s| ==> !Blank(s[i])
    ensures IsWord([c] + s) && ([c] + s)[0] == c && ([c] + s)[1..] == s
  {
  }

  lemma FixedHasNoBlank(v: int)
    ensures forall i :: 0 <= i < |Fixed(v)| ==> !Blank(Fixed(v)[i])
  {
    hide Dec, Milli;
  }

  lemma {:induction false} AxisWordsAreWords(offsets: Offsets, k: nat)
    requires k <= N_AXIS
    ensures forall w :: w in AxisWords(offsets, k) ==> IsWord(w)
    decreases N_AXIS - k
  {
    hide Fixed;
    if k < N_AXIS {
      AxisWordsAreWords(offsets, k + 1);
      FixedHasNoBlank(offsets[k]);
      LetterWord(LETTERS[k], Fixed(offsets[k]));
    }
  }

  lemma ParseAxisWord(k: nat, v: int, t: Tool)
    requires k < N_AXIS
    ensures ParseWord([LETTERS[k]] + Fixed(v), t) == Some(t.(offsets := t.offsets[k := v]))
  {
    hide Fixed, ReadFloat;
    ReadFloatOfFixed(v);
    assert ([LETTERS[k]] + Fixed(v))[1..] == Fixed(v);
    assert k == 0 || k == 1 || k == 2 || k == 3 || k == 4;
  }

  lemma StepWord(w: string, rest: seq<string>, t: Tool, u: Tool, cap: nat)
    requires IsWord(w) && w[0] != ';' && (forall x :: x in rest ==> IsWord(x))
    requires ParseWord(w, t) == Some(u)
    ensures (forall x :: x in [w] + rest ==> IsWord(x)) && ParseWords([w] + rest, t, cap) == ParseWords(rest, u, cap)
  {
    hide ParseWord, GrowName, Unbarred;
    assert ([w] + rest)[1..] == rest;
  }

  /** Reading the axis words fills in the offsets from axis k on. */
  lemma {:induction false} ParseAxisWords(offsets: Offsets, k: nat, rest: seq<string>, t: Tool, cap: nat)
    requires k <= N_AXIS && forall w :: w in rest ==> IsWord(w)
    requires forall i :: 0 <= i < N_AXIS ==> t.offsets[i] == if i < k then offsets[i] else 0
    ensures forall w :: w in AxisWords(offsets, k) + rest ==> IsWord(w)
    ensures ParseWords(AxisWords(offsets, k) + rest, t, cap) == ParseWords(rest, t.(offsets := offsets), cap)
    decreases N_AXIS - k
  {
    hide Fixed, IsWord, ParseWord, ParseWords;
    AxisWordsAreWords(offsets, k);
    var ws := AxisWords(offsets, k);
    if k == N_AXIS {
      assert ws + rest == rest;
      assert t.offsets == offsets;
    } else if offsets[k] == 0 {
      assert ws == AxisWords(offsets, k + 1);
      ParseAxisWords(offsets, k + 1, rest, t, cap);
    } else {
      var w := [LETTERS[k]] + Fixed(offsets[k]);
      var u := t.(offsets := t.offsets[k := offsets[k]]);
      ParseAxisWord(k, offsets[k], t);
      ParseAxisWords(offsets, k + 1, rest, u, cap);
      assert ws == [w] + AxisWords(offsets, k + 1);
      assert w in ws && w[0] != ';';
      hide AxisWords;
      StepWord(w, AxisWords(offsets, k + 1) + rest, t, u, cap);
      assert [w] + AxisWords(offsets, k + 1) + rest == [w] + (AxisWords(offsets, k + 1) + rest);
    }
  }

  /** A name that fits is rebuilt from its words. */
  lemma {:induction false} GrowNameJoins(name: string, ws: seq<string>, cap: nat)
    requires if name == "" then |Join(ws)| + 1 <= cap || ws == [] else |Join([name] + ws)| <= cap
    requires forall w :: w in ws ==> IsWord(w)
    ensures GrowName(name, ws, cap) == if name == "" then Join(ws) else Join([name] + ws)
    decreases |ws|
  {
    if ws == [] {
    } else if name == "" {
      JoinIsSpaced(ws);
      assert [ws[0]] + ws[1..] == ws && IsWord(ws[0]);
      assert "" + "" + ws[0] == ws[0];
      GrowNameJoins(ws[0], ws[1..], cap);
    } else {
      var longer := name + " " + ws[0];
      JoinMerged(name, ws[0], ws[1..]);
      assert [name] + ws == [name, ws[0]] + ws[1..];
      JoinIsSpaced([longer] + ws[1..]);
      GrowNameJoins(longer, ws[1..], cap);
    }
  }

  lemma JoinMerged(a: string, b: string, ws: seq<string>)
    ensures Join([a, b] + ws) == Join([a + " " + b] + ws)
  {
    JoinIsSpaced([a, b] + ws);
    JoinIsSpaced([a + " " + b] + ws);
    assert ([a, b] + ws)[1..] == [b] + ws && ([a + " " + b] + ws)[1..] == ws && ([b] + ws)[1..] == ws;
    assert a + (" " + b + Spaced(ws)) == (a + " " + b) + Spaced(ws);
  }

  /** A name's semicolon joins its first word, if it starts with one. */
  lemma SemicolonWord(first: string, rest: string)
    requires (forall i :: 0 <= i < |first| ==> !Blank(first[i])) && StartsBlank(rest)
    ensures IsWord(";" + first) && Split(" ;" + (first + rest)) == [";" + first] + Split(rest)
  {
    var w := ";" + first;
    assert IsWord(w) by { LetterWord(';', first); }
    SplitWord(w, rest);
    SplitBlank(w + rest);
    assert " ;" + (first + rest) == " " + (w + rest) by {
      hide *;
      AppendTwice(";", first, rest);
      AppendTwice(" ", ";", first + rest);
      assert " ;" == " " + ";";
    }
  }

  /** The first word of a name and the others. */
  lemma NameWords(name: string)
    ensures var n := WordLen(name); name == name[..n] + name[n..] && StartsBlank(name[n..])
    ensures var n := WordLen(name); Split(name) == (if n == 0 then [] else [name[..n]]) + Split(name[n..])
  {
    var n := WordLen(name);
    assert n > 0 ==> IsWord(name[..n]);
    assert name == name[..n] + name[n..] && StartsBlank(name[n..]);
    hide Split, IsWord, WordLen, StartsBlank;
    if n == 0 {
      assert name[n..] == name && [] + Split(name) == Split(name);
    } else {
      SplitWord(name[..n], name[n..]);
    }
  }

  /** Reading back a name: whatever its spacing, its words come back single-spaced and without bars. */
  lemma ParseName(name: string, t: Tool, cap: nat)
    requires 0 < |name| <= cap
    ensures ParseWords(Split(" ;" + name), t, cap) == Some(t.(name := Tidy(name)))
  {
    var n := WordLen(name);
    var first := name[..n];
    var ws := Split(name[n..]);
    NameWords(name);
    SemicolonWord(first, name[n..]);
    JoinSplitShortens(name);
    if n == 0 {
      assert name[n..] == name;
      GrowNameJoins("", ws, cap);
    } else {
      GrowNameJoins(first, ws, cap);
    }
    hide Split, WordLen, Join;
    assert (";" + first)[1..] == first;
    assert ([";" + first] + ws)[1..] == ws;
  }

  /** What the 16-bit fields make of a tool number and a pocket. */
  function Wrapped(t: Tool): Tool {
    var p := if t.pocket >= 1 then t.pocket % 0x1_0000 else 0;
    t.(id := t.id % 0x1_0000, pocket := if p == 0 then -1 else p, name := Tidy(t.name))
  }

  lemma ParsePocketWord(t: Tool, u: Tool)
    ensures IsWord(PocketWord(t)) && PocketWord(t)[0] == 'P'
    ensures ParseWord(PocketWord(t), u) == Some(u.(pocket := Wrapped(t).pocket))
  {
    var p: nat := if t.pocket >= 1 then t.pocket % 0x1_0000 else 0;
    ReadUintOfDec(p);
    LetterWord('P', Dec(p));
    hide Dec, ReadUint, ReadFloat, Tidy;
  }

  lemma ParseIdWord(t: Tool, u: Tool)
    ensures IsWord(IdWord(t)) && IdWord(t)[0] == 'T'
    ensures ParseWord(IdWord(t), u) == Some(u.(id := t.id % 0x1_0000))
  {
    var i: nat := t.id % 0x1_0000;
    ReadUintOfDec(i);
    LetterWord('T', Dec(i));
    hide Dec, ReadUint, ReadFloat;
  }

  lemma ParseDiameterWord(v: int, u: Tool)
    ensures IsWord("D" + Fixed(v)) && ParseWord("D" + Fixed(v), u) == Some(u.(diameter := v))
  {
    ReadFloatOfFixed(v);
    FixedHasNoBlank(v);
    LetterWord('D', Fixed(v));
    hide Fixed, ReadFloat, ReadUint;
  }

  lemma ParseDiameterWords(t: Tool, u: Tool, rest: seq<string>, cap: nat)
    requires u.diameter == 0 && forall w :: w in rest ==> IsWord(w)
    ensures forall w :: w in DiameterWords(t) + rest ==> IsWord(w)
    ensures ParseWords(DiameterWords(t) + rest, u, cap) == ParseWords(rest, u.(diameter := t.diameter), cap)
  {
    hide Fixed, IsWord, ParseWord, ParseWords;
    if t.diameter == 0 {
      assert DiameterWords(t) + rest == rest;
    } else {
      ParseDiameterWord(t.diameter, u);
      StepWord("D" + Fixed(t.diameter), rest, u, u.(diameter := t.diameter), cap);
    }
  }

  /** The words of a line are those it was printed from. */
  lemma LineSplits(t: Tool, suffix: string)
    requires StartsBlank(suffix)
    ensures Split(PocketWord(t) + Spaced([IdWord(t)] + AxisWords(t.offsets, 0) + DiameterWords(t)) + suffix)
         == [PocketWord(t)] + ([IdWord(t)] + (AxisWords(t.offsets, 0) + (DiameterWords(t) + Split(suffix))))
  {
    ParsePocketWord(t, BLANK_TOOL);
    ParseIdWord(t, BLANK_TOOL);
    AxisWordsAreWords(t.offsets, 0);
    ParseDiameterWords(t, BLANK_TOOL, [], 0);
    assert DiameterWords(t) + [] == DiameterWords(t);
    hide PocketWord, IdWord, AxisWords, DiameterWords, Split, ParseWords, Spaced;
    SplitPrinted(PocketWord(t), IdWord(t), AxisWords(t.offsets, 0), DiameterWords(t), suffix);
  }

  lemma SplitPrinted(p: string, i: string, a: seq<string>, d: seq<string>, suffix: string)
    requires IsWord(p) && IsWord(i) && (forall w :: w in a ==> IsWord(w)) && (forall w :: w in d ==> IsWord(w)) && StartsBlank(suffix)
    ensures Split(p + Spaced([i] + a + d) + suffix) == [p] + ([i] + (a + (d + Split(suffix))))
  {
    var ws := [i] + a + d;
    hide Split, Spaced, IsWord;
    SplitSpaced(ws, suffix);
    SpacedStartsBlank(ws, suffix);
    AppendTwice(p, Spaced(ws), suffix);
    SplitWord(p, Spaced(ws) + suffix);
    assert ws + Split(suffix) == [i] + (a + (d + Split(suffix)));
  }

  /** Parsing the words of a line, one group after the other. */
  lemma WordsParse(t: Tool, last: seq<string>, cap: nat)
    requires forall w :: w in last ==> IsWord(w)
    ensures var ws := [PocketWord(t)] + ([IdWord(t)] + (AxisWords(t.offsets, 0) + (DiameterWords(t) + last)));
      (forall w :: w in ws ==> IsWord(w)) && ParseWords(ws, BLANK_TOOL, cap) == ParseWords(last, Wrapped(t).(name := ""), cap)
  {
    hide Line, Parse, Tidy, Fixed, Dec, GrowName;
    var u1 := BLANK_TOOL.(pocket := Wrapped(t).pocket);
    var u2 := u1.(id := t.id % 0x1_0000);
    var u3 := u2.(offsets := t.offsets);
    var d := DiameterWords(t) + last;
    ParsePocketWord(t, BLANK_TOOL);
    ParseIdWord(t, u1);
    ParseDiameterWords(t, u3, last, cap);
    ParseAxisWords(t.offsets, 0, d, u2, cap);
    hide PocketWord, IdWord, AxisWords, DiameterWords, ParseWord, ParseWords, Tidy;
    var a := AxisWords(t.offsets, 0) + d;
    StepWord(IdWord(t), a, u1, u2, cap);
    StepWord(PocketWord(t), [IdWord(t)] + a, BLANK_TOOL, u1, cap);
    assert u3.(diameter := t.diameter) == Wrapped(t).(name := "");
  }

  /** Reading a printed line gives the tool back, up to the width of the number fields and the spacing of the name. */
  lemma LineParses(t: Tool, cap: nat)
    requires |t.name| <= cap
    ensures Parse(Line(t), cap) == Some(Wrapped(t))
  {
    var suffix := if t.name == "" then "" else " ;" + t.name;
    LineSplits(t, suffix);
    WordsParse(t, Split(suffix), cap);
    ParsePocketWord(t, BLANK_TOOL);
    assert Line(t)[0] == PocketWord(t)[0];
    if t.name == "" {
      assert Tidy("") == "";
    } else {
      ParseName(t.name, Wrapped(t).(name := ""), cap);
    }
    hide Split, ParseWord, AxisWords, Spaced, Tidy;
  }

  /** Parser and printer undo each other exactly for numbers that fit their 16-bit fields. */
  lemma RoundTripIff(t: Tool, cap: nat)
    requires |t.name| <= cap
    ensures Parse(Line(t), cap) == Some(Settled(t)) <==> 0 <= t.id < 0x1_0000 && t.pocket < 0x1_0000
  {
    hide Line, Parse, Wrapped, Settled;
    LineParses(t, cap);
    WrappedIff(t);
  }

  lemma WrappedIff(t: Tool)
    ensures Wrapped(t) == Settled(t) <==> 0 <= t.id < 0x1_0000 && t.pocket < 0x1_0000
  {
    hide Tidy;
    if t.pocket >= 0x1_0000 {
      assert t.pocket % 0x1_0000 < 0x1_0000;
    }
  }

  /** For instance tool 65536 would be written, and read back, as tool 0. */
  lemma WideNumberIsLost()
    ensures Parse(Line(BLANK_TOOL.(id := 65536)), 10) == Some(BLANK_TOOL.(id := 0))
  {
    var t := BLANK_TOOL.(id := 65536);
    LineParses(t, 10);
    hide Line, Parse;
    assert Tidy("") == "";
  }

  function UnbarredAll(ws: seq<string>): (r: seq<string>)
    ensures |r| == |ws|
  {
    if ws == [] then [] else [Unbarred(ws[0])] + UnbarredAll(ws[1..])
  }

  lemma UnbarredConcat(a: string, b: string)
    ensures Unbarred(a + b) == Unbarred(a) + Unbarred(b)
  {
  }

  lemma {:induction false} UnbarredJoin(ws: seq<string>)
    requires forall w :: w in ws ==> IsWord(w)
    ensures Unbarred(Join(ws)) == Join(UnbarredAll(ws)) && forall w :: w in UnbarredAll(ws) ==> IsWord(w)
    decreases |ws|
  {
    if ws != [] {
      UnbarredJoin(ws[1..]);
      assert IsWord(ws[0]) && IsWord(Unbarred(ws[0]));
      if |ws| > 1 {
        UnbarredConcat(ws[0] + " ", Join(ws[1..]));
        UnbarredConcat(ws[0], " ");
        assert UnbarredAll(ws)[1..] == UnbarredAll(ws[1..]);
      } else {
        assert UnbarredAll(ws) == [Unbarred(ws[0])];
      }
    }
  }

  lemma JoinedStaysTidy(ws: seq<string>)
    requires forall w :: w in ws ==> IsWord(w)
    ensures Tidy(Unbarred(Join(ws))) == Unbarred(Join(ws))
  {
    UnbarredJoin(ws);
    SplitJoin(UnbarredAll(ws));
    assert Unbarred(Unbarred(Join(ws))) == Unbarred(Join(ws));
  }

  /** Once written and read, a name stays as it is. */
  lemma TidyTwice(name: string)
    ensures Tidy(Tidy(name)) == Tidy(name) && |Tidy(name)| <= |name|
  {
    JoinedStaysTidy(Split(name));
    JoinSplitShortens(name);
  }

  lemma {:induction false} JoinSnoc(ws: seq<string>, w: string)
    requires ws != []
    ensures Join(ws + [w]) == Join(ws) + " " + w
  {
    assert (ws + [w])[1..] == ws[1..] + [w];
    if |ws| > 1 {
      JoinSnoc(ws[1..], w);
      assert ws[0] + " " + (Join(ws[1..]) + " " + w) == (ws[0] + " " + Join(ws[1..])) + " " + w;
    } else {
      assert ws[1..] == [];
    }
  }

  lemma JoinedNothing(ws: seq<string>)
    requires forall w :: w in ws ==> IsWord(w)
    ensures Join(ws) == "" <==> ws == []
  {
    if ws != [] {
      assert IsWord(ws[0]);
      JoinIsSpaced(ws);
    }
  }

  /** However many words are skipped for want of room, a name read from a line is words with single spaces, and fits. */
  lemma {:induction false} GrownIsJoined(name: string, vs: seq<string>, ws: seq<string>, cap: nat) returns (us: seq<string>)
    requires name == Join(vs) && |name| <= cap && (forall v :: v in vs ==> IsWord(v)) && forall w :: w in ws ==> IsWord(w)
    ensures GrowName(name, ws, cap) == Join(us) && |Join(us)| <= cap && forall u :: u in us ==> IsWord(u)
    decreases |ws|
  {
    hide Join;
    JoinedNothing(vs);
    if ws == [] {
      us := vs;
    } else if |name| + |ws[0]| + 1 <= cap {
      if vs == [] {
        assert vs + [ws[0]] == [ws[0]] && "" + "" + ws[0] == ws[0];
        JoinOne(ws[0]);
      } else {
        JoinSnoc(vs, ws[0]);
      }
      us := GrownIsJoined(name + (if name == "" then "" else " ") + ws[0], vs + [ws[0]], ws[1..], cap);
    } else {
      us := GrownIsJoined(name, vs, ws[1..], cap);
    }
  }

  lemma JoinOne(w: string)
    ensures Join([w]) == w && Join([]) == ""
  {
  }

  /** The name part of a line. */
  lemma NameIsTidy(first: string, ws: seq<string>, cap: nat)
    requires (first == "" || IsWord(first)) && forall w :: w in ws ==> IsWord(w)
    ensures var name := Unbarred(GrowName(Take(first, cap), ws, cap)); Tidy(name) == name && |name| <= cap
  {
    var start := Take(first, cap);
    JoinOne(start);
    assert start == "" || IsWord(start);
    var us := GrownIsJoined(start, if start == "" then [] else [start], ws, cap);
    JoinedStaysTidy(us);
  }

  lemma {:induction false} ParsedWordsSettle(ws: seq<string>, t: Tool, cap: nat)
    requires (forall w :: w in ws ==> IsWord(w)) && t.name == "" && t.pocket != 0 && t.pocket >= -1
    ensures ParseWords(ws, t, cap).Some? ==>
      var r := ParseWords(ws, t, cap).value;
      r.pocket != 0 && r.pocket >= -1 && Tidy(r.name) == r.name && |r.name| <= cap && '|' !in r.name
    decreases |ws|
  {
    hide Tidy, Unbarred, GrowName;
    if ws == [] {
      TidyEmpty();
    } else {
      assert IsWord(ws[0]);
      if ws[0][0] == ';' {
        var first := ws[0][1..];
        assert forall i :: 0 <= i < |first| ==> first[i] == ws[0][i + 1];
        NameIsTidy(first, ws[1..], cap);
      } else {
        ParsedWordSettles(ws[0], t);
        if ParseWord(ws[0], t).Some? {
          ParsedWordsSettle(ws[1..], ParseWord(ws[0], t).value, cap);
        }
      }
    }
  }

  lemma TidyEmpty()
    ensures Tidy("") == ""
  {
  }

  lemma ParsedWordSettles(w: string, t: Tool)
    requires w != "" && t.name == "" && t.pocket != 0 && t.pocket >= -1
    ensures ParseWord(w, t).Some? ==> var u := ParseWord(w, t).value; u.name == "" && u.pocket != 0 && u.pocket >= -1
  {
    hide ReadUint, ReadFloat;
  }

  /** Whatever line it comes from, a parsed tool has a number, a tidy name that fits and a pocket or none: writing and
      reading it changes nothing further. */
  lemma ParsedIsSettled(line: string, cap: nat)
    requires Parse(line, cap).Some?
    ensures var t := Parse(line, cap).value; Settled(t) == t && t.id >= 0 && |t.name| <= cap && '|' !in t.name
  {
    hide Tidy, ParseWords;
    ParsedWordsSettle(Split(line), BLANK_TOOL, cap);
  }

  /** A tidied name, character by character: that of the single-spaced name, a bar becoming a percent sign. */
  lemma TidyReads(name: string)
    ensures var j := Join(Split(name));
      |Tidy(name)| == |j| && forall i :: 0 <= i < |j| ==> Tidy(name)[i] == if j[i] == '|' then '%' else j[i]
  {
  }

  /** What the letters mean, in either case. */
  lemma LettersMean(arg: string, t: Tool)
    ensures forall c :: c == 'T' || c == 't' ==>
      ParseWord([c] + arg, t) == if ReadUint(arg).None? then None else Some(t.(id := ReadUint(arg).value))
    ensures forall c :: c == 'P' || c == 'p' ==>
      ParseWord([c] + arg, t) == if ReadUint(arg).None? then None
        else Some(t.(pocket := if ReadUint(arg).value == 0 then -1 else ReadUint(arg).value))
    ensures forall c :: c == 'D' || c == 'd' ==>
      ParseWord([c] + arg, t) == if ReadFloat(arg).None? then None else Some(t.(diameter := ReadFloat(arg).value))
    ensures forall k, c :: 0 <= k < N_AXIS && (c == "XYZAB"[k] || c == "xyzab"[k]) ==>
      ParseWord([c] + arg, t) == if ReadFloat(arg).None? then None else Some(t.(offsets := t.offsets[k := ReadFloat(arg).value]))
  {
    hide ReadUint, ReadFloat;
    forall c ensures ([c] + arg)[1..] == arg && ([c] + arg)[0] == c { }
    forall k, c | 0 <= k < N_AXIS && (c == "XYZAB"[k] || c == "xyzab"[k])
      ensures ParseWord([c] + arg, t) == ParseAxis(k, arg, t)
    {
      assert k == 0 || k == 1 || k == 2 || k == 3 || k == 4;
    }
  }

  /** Words with any other letter are passed over. */
  lemma OtherLetters(w: string, t: Tool)
    requires w != "" && w[0] !in "TPXYZABDtpxyzabd"
    ensures ParseWord(w, t) == Some(t)
  {
    hide ReadUint, ReadFloat;
    var c := w[0];
    assert "TPXYZABDtpxyzabd"[0] == 'T' && "TPXYZABDtpxyzabd"[1] == 'P' && "TPXYZABDtpxyzabd"[2] == 'X' && "TPXYZABDtpxyzabd"[3] == 'Y';
    assert "TPXYZABDtpxyzabd"[4] == 'Z' && "TPXYZABDtpxyzabd"[5] == 'A' && "TPXYZABDtpxyzabd"[6] == 'B' && "TPXYZABDtpxyzabd"[7] == 'D';
    assert "TPXYZABDtpxyzabd"[8] == 't' && "TPXYZABDtpxyzabd"[9] == 'p' && "TPXYZABDtpxyzabd"[10] == 'x' && "TPXYZABDtpxyzabd"[11] == 'y';
    assert "TPXYZABDtpxyzabd"[12] == 'z' && "TPXYZABDtpxyzabd"[13] == 'a' && "TPXYZABDtpxyzabd"[14] == 'b' && "TPXYZABDtpxyzabd"[15] == 'd';
  }

  /** One unreadable number before the name spoils the whole line. */
  lemma {:induction false} BadWordRejects(before: seq<string>, w: string, after: seq<string>, t: Tool, cap: nat)
    requires forall x :: x in before + [w] + after ==> IsWord(x)
    requires (forall x :: x in before ==> IsWord(x) && x[0] != ';') && IsWord(w) && w[0] != ';' && forall u :: ParseWord(w, u).None?
    ensures ParseWords(before + [w] + after, t, cap) == None
    decreases |before|
  {
    hide ParseWord, GrowName, Unbarred;
    var ws := before + [w] + after;
    if before == [] {
      assert ws[0] == w;
    } else {
      assert ws[0] == before[0] && ws[1..] == before[1..] + [w] + after;
      assert before[0] in before;
      var u := ParseWord(ws[0], t);
      if u.Some? {
        assert forall x :: x in ws[1..] ==> x in ws;
        BadWordRejects(before[1..], w, after, u.value, cap);
      }
    }
  }

  /** A line without a tool number describes no tool. */
  lemma NumberNeeded(line: string, cap: nat)
    requires Parse(line, cap).Some?
    ensures line != "" && line[0] !in ";\r\n" && exists w :: w in Split(line) && w != "" && (w[0] == 'T' || w[0] == 't')
  {
    hide ParseWords;
    NumberComesFromT(Split(line), BLANK_TOOL, cap);
  }

  lemma {:induction false} NumberComesFromT(ws: seq<string>, t: Tool, cap: nat)
    requires (forall w :: w in ws ==> IsWord(w)) && ParseWords(ws, t, cap).Some?
    ensures ParseWords(ws, t, cap).value.id != t.id ==> exists w :: w in ws && w != "" && (w[0] == 'T' || w[0] == 't')
    decreases |ws|
  {
    hide GrowName, Unbarred, ReadUint, ReadFloat;
    if ws != [] {
      assert ws[0] in ws && IsWord(ws[0]);
      if ws[0][0] != ';' {
        var u := ParseWord(ws[0], t).value;
        NumberComesFromT(ws[1..], u, cap);
        if u.id == t.id && ParseWords(ws, t, cap).value.id != t.id {
          var w :| w in ws[1..] && w != "" && (w[0] == 'T' || w[0] == 't');
          assert w in ws;
        }
      }
    }
  }

  /** Each further word of a name is appended if it fits, and otherwise skipped; later ones may fit again. */
  lemma {:induction false} GrowOneMore(name: string, ws: seq<string>, w: string, cap: nat)
    ensures var g := GrowName(name, ws, cap);
      GrowName(name, ws + [w], cap) == if |g| + |w| + 1 <= cap then g + (if g == "" then "" else " ") + w else g
    decreases |ws|
  {
    if ws == [] {
      assert (ws + [w])[1..] == [];
    } else {
      assert (ws + [w])[0] == ws[0] && (ws + [w])[1..] == ws[1..] + [w];
      GrowOneMore(if |name| + |ws[0]| + 1 <= cap then name + (if name == "" then "" else " ") + ws[0] else name, ws[1..], w, cap);
    }
  }

  lemma AxisStep(o: Offsets, k: nat)
    requires k < N_AXIS
    ensures AxisWords(o, N_AXIS) == []
    ensures o[k] == 0 ==> AxisWords(o, k) == AxisWords(o, k + 1)
    ensures o[k] != 0 ==> AxisWords(o, k) == [[LETTERS[k]] + Fixed(o[k])] + AxisWords(o, k + 1)
  {
    hide Fixed;
  }

  lemma SpacedStep(w: string, ws: seq<string>)
    ensures Spaced([w] + ws) == " " + w + Spaced(ws) && Spaced([]) == ""
  {
    assert ([w] + ws)[1..] == ws;
  }

  lemma FixedExamples()
    ensures Fixed(1500) == "1.500" && Fixed(-250) == "-0.250" && Fixed(6000) == "6.000"
  {
    DecExamples();
    MilliExamples();
    hide Dec, Milli;
  }

  lemma MilliExamples()
    ensures Milli(500) == "500" && Milli(250) == "250" && Milli(0) == "000"
  {
  }

  lemma DecExamples()
    ensures Dec(0) == "0" && Dec(1) == "1" && Dec(3) == "3" && Dec(5) == "5" && Dec(6) == "6" && Dec(10) == "10"
  {
    assert Dec(1) == "1" && Dec(10) == Dec(1) + [DigitChar(0)];
  }

  lemma WordExamples(t: Tool, u: Tool)
    requires t.id == 5 && t.pocket == 3 && t.diameter == 6000 && u.id == 10 && u.pocket == -1 && u.diameter == 0
    ensures PocketWord(t) == "P3" && IdWord(t) == "T5" && DiameterWords(t) == ["D6.000"]
    ensures PocketWord(u) == "P0" && IdWord(u) == "T10" && DiameterWords(u) == []
  {
    FixedExamples();
    DecExamples();
    hide Dec, Fixed;
    assert "P" + "3" == "P3" && "T" + "5" == "T5" && "P" + "0" == "P0" && "T" + "10" == "T10" && "D" + "6.000" == "D6.000";
  }

  /** The shape of a line: pocket, number, offsets other than zero in axis order, diameter unless zero, name. */
  lemma LineExample(t: Tool, u: Tool)
    requires t == Tool(5, 3, [1500, 0, -250, 0, 0], 6000, "end mill") && u == Tool(10, -1, NO_OFFSETS, 0, "")
    ensures Line(t) == "P3" + " T5 X1.500 Z-0.250 D6.000" + (" ;" + "end mill")
    ensures Line(u) == "P0" + " T10" + ""
  {
    LongLineWords(t);
    ShortLineWords(u);
    WordExamples(t, u);
    hide *;
    LineFrom(t, "P3", " T5 X1.500 Z-0.250 D6.000", " ;" + "end mill");
    LineFrom(u, "P0", " T10", "");
  }

  lemma LongLineWords(t: Tool)
    requires t == Tool(5, 3, [1500, 0, -250, 0, 0], 6000, "end mill")
    ensures Spaced([IdWord(t)] + AxisWords(t.offsets, 0) + DiameterWords(t)) == " T5 X1.500 Z-0.250 D6.000"
  {
    WordExamples(t, Tool(10, -1, NO_OFFSETS, 0, ""));
    OffsetExample(t.offsets);
    SpacedExample();
    hide *;
    assert ["T5"] + ["X1.500", "Z-0.250"] + ["D6.000"] == ["T5", "X1.500", "Z-0.250", "D6.000"];
  }

  lemma ShortLineWords(u: Tool)
    requires u == Tool(10, -1, NO_OFFSETS, 0, "")
    ensures Spaced([IdWord(u)] + AxisWords(u.offsets, 0) + DiameterWords(u)) == " T10"
  {
    WordExamples(Tool(5, 3, NO_OFFSETS, 6000, ""), u);
    NoOffsetWords();
    SpacedExample();
    hide *;
    assert ["T10"] + [] + [] == ["T10"];
  }

  lemma LineFrom(t: Tool, pocket: string, words: string, name: string)
    requires PocketWord(t) == pocket && Spaced([IdWord(t)] + AxisWords(t.offsets, 0) + DiameterWords(t)) == words
    requires name == if t.name == "" then "" else " ;" + t.name
    ensures Line(t) == pocket + words + name
  {
  }

  lemma OffsetExample(o: Offsets)
    requires o == [1500, 0, -250, 0, 0]
    ensures AxisWords(o, 0) == ["X1.500", "Z-0.250"]
  {
    FixedExamples();
    hide AxisWords, Fixed;
    AxisStep(o, 0); AxisStep(o, 1); AxisStep(o, 2); AxisStep(o, 3); AxisStep(o, 4);
    assert [LETTERS[0]] + "1.500" == "X1.500" && [LETTERS[2]] + "-0.250" == "Z-0.250";
    assert ["Z-0.250"] + [] == ["Z-0.250"] && ["X1.500"] + ["Z-0.250"] == ["X1.500", "Z-0.250"];
  }

  lemma NoOffsetWords()
    ensures AxisWords(NO_OFFSETS, 0) == []
  {
    var o: Offsets := NO_OFFSETS;
    hide AxisWords, Fixed;
    AxisStep(o, 0); AxisStep(o, 1); AxisStep(o, 2); AxisStep(o, 3); AxisStep(o, 4);
  }

  lemma SpacedExample()
    ensures Spaced(["T5", "X1.500", "Z-0.250", "D6.000"]) == " T5 X1.500 Z-0.250 D6.000" && Spaced(["T10"]) == " T10"
  {
    hide Spaced;
    SpacedStep("D6.000", []);
    SpacedStep("Z-0.250", ["D6.000"]);
    SpacedStep("X1.500", ["Z-0.250", "D6.000"]);
    SpacedStep("T5", ["X1.500", "Z-0.250", "D6.000"]);
    SpacedStep("T10", []);
    assert ["T10"] + [] == ["T10"] && ["D6.000"] + [] == ["D6.000"];
    assert ["Z-0.250"] + ["D6.000"] == ["Z-0.250", "D6.000"];
    assert ["X1.500"] + ["Z-0.250", "D6.000"] == ["X1.500", "Z-0.250", "D6.000"];
    assert ["T5"] + ["X1.500", "Z-0.250", "D6.000"] == ["T5", "X1.500", "Z-0.250", "D6.000"];
  }
}
