/** The tool table: every operation rewrites the whole file, and the file always stands for an ordered list of tools. */
module ToolTable {
  import opened Options
  import opened Sequences
  import opened ToolText
  import opened ToolLines
  import opened ToolFile

  datatype Result = Ok | AlreadyRegistered | ToolNotFound | ToolAlreadyInPocket | NoPocketAvailable | WriteError | TableNotLoaded

  // ---------------------------------------------------------------------------------------------------------------
  // The list a file stands for, and what the operations do to it
  // ---------------------------------------------------------------------------------------------------------------

  /** Index of the first tool with the given number, or -1. */
  function Find(ts: seq<Tool>, id: int): (k: int)
    ensures -1 <= k < |ts|
    ensures k >= 0 ==> ts[k].id == id && forall i :: 0 <= i < k ==> ts[i].id != id
    ensures k < 0 ==> forall i :: 0 <= i < |ts| ==> ts[i].id != id
  {
    if ts == [] then -1
    else if ts[0].id == id then 0
    else
      var k := Find(ts[1..], id);
      assert forall i :: 0 < i < |ts| ==> ts[i] == ts[1..][i - 1];
      if k < 0 then -1 else k + 1
  }

  predicate UniqueIds(ts: seq<Tool>) {
    forall i, j :: 0 <= i < j < |ts| ==> ts[i].id != ts[j].id
  }

  predicate UniquePockets(ts: seq<Tool>) {
    forall i, j :: 0 <= i < j < |ts| && ts[i].pocket >= 1 ==> ts[i].pocket != ts[j].pocket
  }

  /** Tools as a file gives them: writable, settled, no number twice, no pocket shared. */
  predicate Wf(ts: seq<Tool>, cap: nat) {
    && (forall i :: 0 <= i < |ts| ==> Writable(ts[i], cap) && Settled(ts[i]) == ts[i])
    && UniqueIds(ts) && UniquePockets(ts)
  }

  /** Pocket p is assigned to a tool. */
  predicate InUse(ts: seq<Tool>, p: int) {
    exists i :: 0 <= i < |ts| && ts[i].pocket == p
  }

  /** Pockets 1 to n are all assigned. */
  predicate CarouselFull(ts: seq<Tool>, n: int) {
    forall p :: 1 <= p <= n ==> InUse(ts, p)
  }

  function StoredName(name: string, cap: nat): string {
    Tidy(Take(name, cap))
  }

  /** Give tool number `id` a pocket (-1 for none) and, unless it is empty, a name; a tool not listed yet goes to the end,
      under as much of its number as 16 bits hold. */
  function AfterAssign(ts: seq<Tool>, id: int, pocket: int, name: string, cap: nat): seq<Tool> {
    var k := Find(ts, id);
    if k >= 0 then ts[k := ts[k].(pocket := pocket, name := if name == "" then ts[k].name else StoredName(name, cap))]
    else ts + [Tool(id % 0x1_0000, pocket, NO_OFFSETS, 0, StoredName(name, cap))]
  }

  function AfterRemove(ts: seq<Tool>, id: int): seq<Tool> {
    var k := Find(ts, id);
    if k >= 0 then ts[k := ts[k].(pocket := -1)] else ts
  }

  function AfterDelete(ts: seq<Tool>, id: int): seq<Tool> {
    var k := Find(ts, id);
    if k >= 0 then ts[..k] + ts[k + 1..] else ts
  }

  function AfterSet(ts: seq<Tool>, id: int, offsets: Offsets, diameter: int): seq<Tool> {
    var k := Find(ts, id);
    if k >= 0 then ts[k := ts[k].(offsets := offsets, diameter := diameter)] else ts
  }

  function AfterClear(ts: seq<Tool>): (r: seq<Tool>)
    ensures |r| == |ts| && forall i :: 0 <= i < |ts| ==> r[i] == ts[i].(offsets := NO_OFFSETS, diameter := 0)
  {
    seq(|ts|, i requires 0 <= i < |ts| => ts[i].(offsets := NO_OFFSETS, diameter := 0))
  }

  /** An entry that has been given a pocket and perhaps a name can still be written and read back. */
  lemma AssignedEntry(t: Tool, pocket: int, name: string, cap: nat)
    requires Writable(t, cap) && Settled(t) == t && (pocket == -1 || 1 <= pocket < 0x1_0000) && PlainText(name)
    ensures var u := t.(pocket := pocket, name := if name == "" then t.name else StoredName(name, cap));
      Writable(u, cap) && Settled(u) == u
  {
    var s := Take(name, cap);
    PlainTidy(s);
    TidyTwice(s);
    hide Tidy;
  }

  lemma ReplaceKeepsWf(ts: seq<Tool>, k: nat, u: Tool, cap: nat)
    requires Wf(ts, cap) && k < |ts| && Writable(u, cap) && Settled(u) == u && u.id == ts[k].id
    requires u.pocket >= 1 ==> forall i :: 0 <= i < |ts| && i != k ==> ts[i].pocket != u.pocket
    ensures Wf(ts[k := u], cap)
  {
    hide Writable, Settled;
  }

  lemma AppendKeepsWf(ts: seq<Tool>, u: Tool, cap: nat)
    requires Wf(ts, cap) && Writable(u, cap) && Settled(u) == u && forall i :: 0 <= i < |ts| ==> ts[i].id != u.id
    requires u.pocket >= 1 ==> forall i :: 0 <= i < |ts| ==> ts[i].pocket != u.pocket
    ensures Wf(ts + [u], cap)
  {
    hide Writable, Settled;
  }

  /** The number fits the file, or what 16 bits hold of it is not listed yet. */
  predicate Distinct(ts: seq<Tool>, id: int) {
    0 <= id < 0x1_0000 || Find(ts, id % 0x1_0000) < 0
  }

  lemma AssignListed(ts: seq<Tool>, id: int, pocket: int, name: string, cap: nat)
    requires Wf(ts, cap) && Find(ts, id) >= 0 && (pocket == -1 || 1 <= pocket < 0x1_0000) && PlainText(name)
    requires pocket >= 1 ==> !InUse(ts, pocket) || ts[Find(ts, id)].pocket == pocket
    ensures Wf(AfterAssign(ts, id, pocket, name, cap), cap) && 0 <= id < 0x1_0000
  {
    FindFacts(ts, id);
    var k := Find(ts, id);
    assert 0 <= ts[k].id < 0x1_0000;
    AssignedEntry(ts[k], pocket, name, cap);
    hide Writable, Settled, StoredName, Find, PlainText;
    ReplaceKeepsWf(ts, k, ts[k].(pocket := pocket, name := if name == "" then ts[k].name else StoredName(name, cap)), cap);
  }

  lemma AssignUnlisted(ts: seq<Tool>, id: int, pocket: int, name: string, cap: nat)
    requires Wf(ts, cap) && Find(ts, id) < 0 && (pocket == -1 || 1 <= pocket < 0x1_0000) && PlainText(name)
    requires pocket >= 1 ==> !InUse(ts, pocket)
    ensures Wf(AfterAssign(ts, id, pocket, name, cap), cap) <==> Find(ts, id % 0x1_0000) < 0
  {
    var low := id % 0x1_0000;
    FindFacts(ts, low);
    BlankEntry(low, cap);
    AssignedEntry(Tool(low, -1, NO_OFFSETS, 0, ""), pocket, name, cap);
    hide Writable, Settled, StoredName, Find, Wf, PlainText;
    var u := Tool(low, pocket, NO_OFFSETS, 0, StoredName(name, cap));
    if Find(ts, low) < 0 {
      AppendKeepsWf(ts, u, cap);
    } else {
      SameNumberTwice(ts, Find(ts, low), u, cap);
    }
  }

  /** Assigning keeps a table well-formed, unless the number is too wide and what is left of it is listed already. */
  lemma AssignKeepsWf(ts: seq<Tool>, id: int, pocket: int, name: string, cap: nat)
    requires Wf(ts, cap) && (pocket == -1 || 1 <= pocket < 0x1_0000) && PlainText(name)
    requires pocket >= 1 ==> (!InUse(ts, pocket) || (Find(ts, id) >= 0 && ts[Find(ts, id)].pocket == pocket))
    ensures Wf(AfterAssign(ts, id, pocket, name, cap), cap) <==> Distinct(ts, id)
  {
    hide Find, Wf, AfterAssign, PlainText, InUse;
    if Find(ts, id) >= 0 {
      AssignListed(ts, id, pocket, name, cap);
    } else {
      AssignUnlisted(ts, id, pocket, name, cap);
    }
  }

  lemma SameNumberTwice(ts: seq<Tool>, k: nat, u: Tool, cap: nat)
    requires k < |ts| && ts[k].id == u.id
    ensures !Wf(ts + [u], cap)
  {
    hide Writable, Settled;
    assert (ts + [u])[k].id == (ts + [u])[|ts|].id;
  }

  lemma BlankEntry(id: int, cap: nat)
    requires 0 <= id < 0x1_0000
    ensures var blank := Tool(id, -1, NO_OFFSETS, 0, ""); Writable(blank, cap) && Settled(blank) == blank
    ensures StoredName("", cap) == ""
  {
    TidyEmpty();
    hide Tidy;
  }

  lemma FindFacts(ts: seq<Tool>, id: int)
    ensures -1 <= Find(ts, id) < |ts|
    ensures Find(ts, id) >= 0 ==> ts[Find(ts, id)].id == id
    ensures Find(ts, id) < 0 ==> forall i :: 0 <= i < |ts| ==> ts[i].id != id
  {
  }

  lemma RemoveKeepsWf(ts: seq<Tool>, id: int, cap: nat)
    requires Wf(ts, cap)
    ensures Wf(AfterRemove(ts, id), cap)
  {
    hide Tidy, Find;
    FindFacts(ts, id);
    var r := AfterRemove(ts, id);
    forall i | 0 <= i < |r| ensures Writable(r[i], cap) && Settled(r[i]) == r[i] {
      assert Writable(ts[i], cap) && Settled(ts[i]) == ts[i];
    }
  }

  lemma DeleteKeepsWf(ts: seq<Tool>, id: int, cap: nat)
    requires Wf(ts, cap)
    ensures Wf(AfterDelete(ts, id), cap)
  {
    hide Tidy, Find, Settled;
    FindFacts(ts, id);
  }

  lemma SetKeepsWf(ts: seq<Tool>, id: int, offsets: Offsets, diameter: int, cap: nat)
    requires Wf(ts, cap) && (forall i :: 0 <= i < N_AXIS ==> InRange(offsets[i])) && InRange(diameter)
    ensures Wf(AfterSet(ts, id, offsets, diameter), cap)
  {
    hide Tidy, Find;
    FindFacts(ts, id);
    var r := AfterSet(ts, id, offsets, diameter);
    forall i | 0 <= i < |r| ensures Writable(r[i], cap) && Settled(r[i]) == r[i] {
      assert Writable(ts[i], cap) && Settled(ts[i]) == ts[i];
    }
  }

  lemma ClearKeepsWf(ts: seq<Tool>, cap: nat)
    requires Wf(ts, cap)
    ensures Wf(AfterClear(ts), cap)
  {
    hide Tidy;
    var r := AfterClear(ts);
    forall i | 0 <= i < |r| ensures Writable(r[i], cap) && Settled(r[i]) == r[i] {
      assert Writable(ts[i], cap) && Settled(ts[i]) == ts[i];
    }
  }

  // ---------------------------------------------------------------------------------------------------------------
  // One pass over a file: each tool is changed, kept or dropped
  // ---------------------------------------------------------------------------------------------------------------

  function Edited(ts: seq<Tool>, edit: Tool -> Option<Tool>): seq<Tool> {
    if ts == [] then []
    else Edited(ts[..|ts| - 1], edit) + if edit(ts[|ts| - 1]).Some? then [edit(ts[|ts| - 1]).value] else []
  }

  lemma {:induction false} EditNothing(ts: seq<Tool>, edit: Tool -> Option<Tool>)
    requires forall i :: 0 <= i < |ts| ==> edit(ts[i]) == Some(ts[i])
    ensures Edited(ts, edit) == ts
    decreases |ts|
  {
    if ts != [] {
      EditNothing(ts[..|ts| - 1], edit);
    }
  }

  /** An edit that touches one tool acts at that tool's place only. */
  lemma {:induction false} EditOne(ts: seq<Tool>, k: nat, edit: Tool -> Option<Tool>)
    requires k < |ts| && forall i :: 0 <= i < |ts| && i != k ==> edit(ts[i]) == Some(ts[i])
    ensures Edited(ts, edit) == if edit(ts[k]).Some? then ts[k := edit(ts[k]).value] else ts[..k] + ts[k + 1..]
    decreases |ts|
  {
    var n := |ts| - 1;
    if k == n {
      EditNothing(ts[..n], edit);
      assert edit(ts[k]).Some? ==> ts[..n] + [edit(ts[k]).value] == ts[k := edit(ts[k]).value];
    } else {
      EditOne(ts[..n], k, edit);
      assert ts[..n][..k] == ts[..k];
      assert ts[..n][k + 1..] + [ts[n]] == ts[k + 1..];
      assert edit(ts[k]).Some? ==> ts[..n][k := edit(ts[k]).value] + [ts[n]] == ts[k := edit(ts[k]).value];
    }
  }

  lemma {:induction false} EditAll(ts: seq<Tool>, edit: Tool -> Option<Tool>, r: seq<Tool>)
    requires |r| == |ts| && forall i :: 0 <= i < |ts| ==> edit(ts[i]) == Some(r[i])
    ensures Edited(ts, edit) == r
    decreases |ts|
  {
    if ts != [] {
      EditAll(ts[..|ts| - 1], edit, r[..|ts| - 1]);
    }
  }

  /** A change of pocket, name or existence for one tool. */
  datatype Override = Override(id: int, pocket: int, name: string, delete: bool)

  /** The first override for the tool decides. */
  function Overridden(t: Tool, overrides: seq<Override>, cap: nat): Option<Tool> {
    if overrides == [] then Some(t)
    else
      var o := overrides[0];
      if o.id != t.id then Overridden(t, overrides[1..], cap)
      else if o.delete then None
      else Some(t.(pocket := o.pocket, name := if o.name == "" then t.name else Take(o.name, cap)))
  }

  function EditBy(overrides: seq<Override>, cap: nat): Tool -> Option<Tool> {
    (t: Tool) => Overridden(t, overrides, cap)
  }

  lemma {:induction false} RenderMore(ts: seq<Tool>, t: Tool)
    ensures Render(ts + [t]) == Render(ts) + (Line(t) + "\n")
  {
    hide Line;
    if ts == [] {
      assert [t][1..] == [] && Render([]) == "";
      assert Line(t) + "\n" + "" == "" + (Line(t) + "\n");
    } else {
      assert (ts + [t])[1..] == ts[1..] + [t];
      RenderMore(ts[1..], t);
    }
  }

  /** A written list is read back as it settles. */
  lemma PassReads(ts: seq<Tool>, cap: nat)
    requires 1 <= cap <= 200 && forall i :: 0 <= i < |ts| ==> Writable(ts[i], cap)
    ensures Tools(Render(ts), cap) == AllSettled(ts)
  {
    hide Writable, Wrapped, Settled, Fitting, AllWrapped, AllSettled, Tools, Render;
    forall t | t in ts ensures Fitting(t, cap) && Wrapped(t) == Settled(t) {
      WritableFits(t, cap);
      WritableSettles(t, cap);
    }
    RenderReads(ts, cap);
    assert AllWrapped(ts) == AllSettled(ts);
  }

  /** The tools listed from position pos of the file on. */
  function ToolsFrom(text: string, pos: nat, cap: nat): seq<Tool>
    requires pos <= |text|
  {
    ToolsIn(Lines(text[pos..]), cap)
  }

  lemma FromStart(text: string, cap: nat)
    ensures ToolsFrom(text, 0, cap) == Tools(text, cap)
  {
    assert text[0..] == text;
  }

  /** What a reader has in hand (`entry`, if it got one) and what is still to come from position pos on. */
  function Ahead(text: string, pos: nat, cap: nat, got: bool, entry: Tool): seq<Tool>
    requires pos <= |text|
  {
    if got then [entry] + ToolsFrom(text, pos, cap) else []
  }

  lemma AheadTaken(done: seq<Tool>, text: string, pos: nat, cap: nat, entry: Tool)
    requires pos <= |text|
    ensures done + Ahead(text, pos, cap, true, entry) == (done + [entry]) + ToolsFrom(text, pos, cap)
    ensures done + Ahead(text, pos, cap, false, entry) == done
    ensures [] + Ahead(text, pos, cap, true, entry) == Ahead(text, pos, cap, true, entry)
    ensures [] + Ahead(text, pos, cap, false, entry) == Ahead(text, pos, cap, false, entry)
  {
    hide ToolsFrom;
  }

  /** Read lines until one describes a tool, passing over all others. */
  method NextTool(text: string, pos: nat, cap: nat) returns (got: bool, entry: Tool, next: nat)
    requires pos <= |text|
    ensures pos <= next <= |text| && (got ==> pos < next)
    ensures ToolsFrom(text, pos, cap) == Ahead(text, next, cap, got, entry)
  {
    hide Lines, Parse, ToolsIn;
    next := pos;
    entry := BLANK_TOOL;
    var more := true;
    while more
      invariant pos <= next <= |text| && ToolsFrom(text, next, cap) == ToolsFrom(text, pos, cap)
      invariant !more ==> Lines(text[next..]) == []
      decreases |text| - next, more
    {
      var line, after;
      more, line, after := ReadLine(text, next);
      if more {
        ToolsInStep(line, Lines(text[after..]), cap);
        got, entry := ParseLine(line, cap);
        next := after;
        if got { return; }
      }
    }
    ToolsInStep("", [], cap);
    got := false;
  }

  class ToolTable {
    var fsAvailable: bool
    var file: Option<string>
    const cap: nat // longest name the name buffer holds

    /** In every reachable state the file reads as a well-formed list of tools. */
    ghost predicate Valid()
      reads this
    {
      1 <= cap <= 200 && (fsAvailable ==> file.Some?) && (file.Some? ==> Wf(Tools(file.value, cap), cap))
    }

    /** The tools listed; none without a file. */
    ghost function Listed(): seq<Tool>
      reads this
    {
      if file.Some? then Table() else []
    }

    /** The list the file stands for. */
    ghost function Table(): seq<Tool>
      requires file.Some?
      reads this
    {
      Tools(file.value, cap)
    }

    constructor (cap: nat)
      requires 1 <= cap <= 200
      ensures Valid() && !fsAvailable && file == None && this.cap == cap
    {
      this.cap, fsAvailable, file := cap, false, None;
    }

    /** The file system is mounted: an absent table is created empty. */
    method LoadTools()
      modifies this
      ensures fsAvailable && file.Some? && Table() == old(Listed())
      ensures old(Valid()) ==> Valid()
    {
      NoLines(cap);
      fsAvailable := true;
      if file.None? {
        file := Some("");
      }
    }

    /** The first entry with a number, in any file. */
    method FileFind(id: int) returns (found: bool, out: Tool)
      ensures file.None? ==> !found
      ensures file.Some? ==> var k := Find(Table(), id); found == (k >= 0) && (found ==> out == Table()[k])
    {
      hide Wf, ToolsFrom, Ahead, Tools;
      out := BLANK_TOOL;
      if file.None? { return false, out; }
      var text := file.value;
      ghost var done: seq<Tool> := [];
      FromStart(text, cap);
      var got, entry, pos := NextTool(text, 0, cap);
      AheadTaken([], text, pos, cap, entry);
      while got && entry.id != id
        invariant pos <= |text|
        invariant Table() == done + Ahead(text, pos, cap, got, entry)
        invariant forall i :: 0 <= i < |done| ==> done[i].id != id
        decreases |text| - pos, got
      {
        AheadTaken(done, text, pos, cap, entry);
        done := done + [entry];
        got, entry, pos := NextTool(text, pos, cap);
      }
      if got {
        AheadTaken(done, text, pos, cap, entry);
        FindAfter(done, entry, ToolsFrom(text, pos, cap));
        out := entry;
      } else {
        AheadTaken(done, text, pos, cap, entry);
        FindFacts(Table(), id);
      }
      found := got;
    }

    /** The read-change-write loop all rewrites share: copy the file tool by tool into a new one, applying an edit. */
    method CopyEdited(edit: Tool -> Option<Tool>) returns (ok: bool, dst: string)
      ensures ok == file.Some?
      ensures ok ==> dst == Render(Edited(Table(), edit))
    {
      hide Wf, ToolsFrom, Ahead, Tools, Line, Render, Edited;
      dst := "";
      if file.None? { return false, dst; }
      var text := file.value;
      ghost var done: seq<Tool> := [];
      RenderNothing(edit);
      FromStart(text, cap);
      var got, entry, pos := NextTool(text, 0, cap);
      AheadTaken([], text, pos, cap, entry);
      while got
        invariant pos <= |text|
        invariant Table() == done + Ahead(text, pos, cap, got, entry)
        invariant dst == Render(Edited(done, edit))
        decreases |text| - pos, got
      {
        var r := edit(entry);
        PassStep(done, entry, edit);
        if r.Some? {
          dst := dst + (Line(r.value) + "\n");
        }
        AheadTaken(done, text, pos, cap, entry);
        done := done + [entry];
        got, entry, pos := NextTool(text, pos, cap);
      }
      AheadTaken(done, text, pos, cap, entry);
      ok := true;
    }

    /** rewrite_file: apply overrides to named tools, keep all others. */
    method RewriteFile(overrides: seq<Override>) returns (ok: bool)
      modifies this`file
      ensures ok == old(file).Some?
      ensures file == if ok then Some(Render(Edited(old(Table()), EditBy(overrides, cap)))) else None
    {
      var dst;
      ok, dst := CopyEdited(EditBy(overrides, cap));
      if ok { file := Some(dst); }
    }

    /** append_tool */
    method AppendTool(t: Tool) returns (ok: bool)
      modifies this`file
      ensures ok == old(file).Some?
      ensures file == if ok then Some(Render(old(Table()) + [t])) else None
    {
      hide Line, Render, Tools;
      var dst;
      ok, dst := CopyEdited((t: Tool) => Some(t));
      if ok {
        EditNothing(Table(), (t: Tool) => Some(t));
        RenderMore(Table(), t);
        dst := dst + (Line(t) + "\n");
        file := Some(dst);
      }
    }

    /** The writing half of the two operations below: override the listed entry, or append a new one. */
    method WriteEntry(found: bool, id: int, pocket: int, name: string) returns (ok: bool)
      requires Valid() && file.Some? && found == (Find(Table(), id) >= 0) && pocket < 0x1_0000 && PlainText(name)
      requires pocket < 1 || !InUse(Table(), pocket) || (found && Table()[Find(Table(), id)].pocket == pocket)
      modifies this`file
      ensures ok && file.Some? && Table() == AfterAssign(old(Table()), id, if pocket >= 1 then pocket else -1, name, cap)
      ensures Valid() <==> Distinct(old(Table()), id)
    {
      hide Find, InUse, PlainText, Take, Wf, AfterAssign, Tools, Render, Distinct;
      ghost var ts := Table();
      if found {
        var o := Override(id, pocket, Take(name, cap), false);
        OverrideAssigns(ts, o, name, cap);
        ok := RewriteFile([o]);
      } else {
        var newEntry := Tool(id, pocket, NO_OFFSETS, 0, Take(name, cap));
        AppendAssigns(ts, newEntry, name, cap);
        ok := AppendTool(newEntry);
      }
    }

    /** Register a tool outside the carousel, or rename a listed one. A number too wide for the file is cut, and the table
        stays well-formed exactly if what is left of it was not listed already. */
    method RegisterTool(id: int, name: string) returns (result: Result)
      requires Valid() && PlainText(name)
      modifies this`file
      ensures old(fsAvailable) ==> file.Some?
      ensures Valid() <==> result != Ok || Distinct(old(Listed()), id)
      ensures result == if !fsAvailable then TableNotLoaded
        else if Find(old(Table()), id) >= 0 && name == "" then AlreadyRegistered else Ok
      ensures result != Ok ==> file == old(file)
      ensures result == Ok ==>
        var ts := old(Table()); var k := Find(ts, id);
        Table() == AfterAssign(ts, id, if k >= 0 then ts[k].pocket else -1, name, cap)
    {
      if !fsAvailable { return TableNotLoaded; }
      ghost var ts := Table();
      hide Find, InUse, PlainText, AfterAssign, Tools, Distinct;
      var found, existing := FileFind(id);
      if found && name == "" { return AlreadyRegistered; }
      assert found ==> existing.pocket < 0x1_0000 && (existing.pocket >= 1 || existing.pocket == -1) by {
        if found { PocketOfWf(ts, Find(ts, id), cap); }
      }
      hide Wf;
      var ok := WriteEntry(found, id, if found then existing.pocket else 0, name);
      result := if ok then Ok else WriteError;
    }

    /** Mark every pocket up to maxPockets that some tool is assigned to. */
    method MarkPockets(maxPockets: nat) returns (inUse: array<bool>)
      ensures fresh(inUse) && inUse.Length == maxPockets + 1
      ensures forall p :: 1 <= p <= maxPockets ==> (inUse[p] <==> InUse(Listed(), p))
    {
      hide ToolsFrom, Ahead, Tools, InUse;
      inUse := new bool[maxPockets + 1](_ => false);
      NothingInUse();
      if file.None? { return; }
      var text := file.value;
      ghost var done: seq<Tool> := [];
      FromStart(text, cap);
      var got, entry, pos := NextTool(text, 0, cap);
      AheadTaken([], text, pos, cap, entry);
      while got
        invariant pos <= |text|
        invariant Table() == done + Ahead(text, pos, cap, got, entry)
        invariant forall p :: 1 <= p <= maxPockets ==> (inUse[p] <==> InUse(done, p))
        decreases |text| - pos, got
      {
        InUseMore(done, entry);
        if entry.pocket >= 1 && entry.pocket <= maxPockets {
          inUse[entry.pocket] := true;
        }
        AheadTaken(done, text, pos, cap, entry);
        done := done + [entry];
        got, entry, pos := NextTool(text, pos, cap);
      }
      AheadTaken(done, text, pos, cap, entry);
    }

    /** The lowest carousel pocket no tool is assigned to, or -1; in any file, and without one. */
    method FindFreePocket(maxPockets: nat) returns (pocket: int)
      ensures pocket >= 1 ==> pocket <= maxPockets && !InUse(Listed(), pocket) && CarouselFull(Listed(), pocket - 1)
      ensures pocket < 1 ==> pocket == -1 && CarouselFull(Listed(), maxPockets)
    {
      hide InUse;
      if maxPockets == 0 { return -1; }
      var inUse := MarkPockets(maxPockets);
      for candidate := 1 to maxPockets + 1
        invariant forall p :: 1 <= p < candidate ==> inUse[p]
      {
        if !inUse[candidate] { return candidate; }
      }
      return -1;
    }

    /** Put a tool into the lowest free pocket, listing it first if need be; its number may be cut as above. */
    method CarouselAdd(id: int, maxPockets: nat, name: string) returns (result: Result, pocket: int)
      requires Valid() && maxPockets < 0x1_0000 && PlainText(name)
      modifies this`file
      ensures old(fsAvailable) ==> file.Some?
      ensures Valid() <==> result != Ok || Distinct(old(Listed()), id)
      ensures result == if !fsAvailable then TableNotLoaded
        else
          var ts := old(Table()); var k := Find(ts, id);
          if k >= 0 && ts[k].pocket >= 1 then ToolAlreadyInPocket
          else if CarouselFull(ts, maxPockets) then NoPocketAvailable
          else Ok
      ensures result != Ok ==> file == old(file)
      ensures result == Ok ==>
        && 1 <= pocket <= maxPockets && !InUse(old(Table()), pocket) && CarouselFull(old(Table()), pocket - 1)
        && Table() == AfterAssign(old(Table()), id, pocket, name, cap)
    {
      hide Find, InUse, CarouselFull, PlainText, Wf, AfterAssign, Tools, Distinct;
      pocket := -1;
      if !fsAvailable { return TableNotLoaded, pocket; }
      ghost var ts := Table();
      var found, existing := FileFind(id);
      if found && existing.pocket >= 1 { return ToolAlreadyInPocket, pocket; }
      var free := FindFreePocket(maxPockets);
      if free < 0 { return NoPocketAvailable, pocket; }
      NotFull(ts, free, maxPockets);
      var ok := WriteEntry(found, id, free, name);
      pocket := free;
      result := if ok then Ok else WriteError;
    }

    /** Take a tool out of its pocket; it stays listed. */
    method CarouselRemove(id: int) returns (result: Result)
      requires Valid()
      modifies this`file
      ensures Valid() && (old(fsAvailable) ==> file.Some?)
      ensures result == if !fsAvailable then TableNotLoaded
        else
          var ts := old(Table()); var k := Find(ts, id);
          if k < 0 || ts[k].pocket < 1 then ToolNotFound else Ok
      ensures if result == Ok then Table() == AfterRemove(old(Table()), id) else file == old(file)
    {
      hide Wf, Find, AfterRemove, Tools, Render;
      if !fsAvailable { return TableNotLoaded; }
      ghost var ts := Table();
      var found, existing := FileFind(id);
      if !found || existing.pocket < 1 { return ToolNotFound; }
      var o := Override(id, 0, "", false);
      OverrideRemoves(ts, o, cap);
      var ok := RewriteFile([o]);
      return Ok;
    }

    /** Unlist a tool that is not in a pocket. */
    method Delete(id: int) returns (result: Result)
      requires Valid()
      modifies this`file
      ensures Valid() && (old(fsAvailable) ==> file.Some?)
      ensures result == if !fsAvailable then TableNotLoaded
        else
          var ts := old(Table()); var k := Find(ts, id);
          if k < 0 then ToolNotFound else if ts[k].pocket >= 1 then ToolAlreadyInPocket else Ok
      ensures if result == Ok then Table() == AfterDelete(old(Table()), id) else file == old(file)
    {
      hide Wf, Find, AfterDelete, Tools, Render;
      if !fsAvailable { return TableNotLoaded; }
      ghost var ts := Table();
      var found, existing := FileFind(id);
      if !found { return ToolNotFound; }
      if existing.pocket >= 1 { return ToolAlreadyInPocket; }
      var o := Override(id, 0, "", true);
      OverrideDeletes(ts, o, cap);
      var ok := RewriteFile([o]);
      return Ok;
    }

    /** Store a tool's offsets and diameter; an unlisted tool is left unlisted. */
    method SetTool(id: int, offsets: Offsets, diameter: int) returns (ok: bool)
      requires Valid() && (forall i :: 0 <= i < N_AXIS ==> InRange(offsets[i])) && InRange(diameter)
      modifies this`file
      ensures Valid() && ok == (id > 0 && old(file).Some?)
      ensures if ok then file.Some? && Table() == AfterSet(old(Table()), id, offsets, diameter) else file == old(file)
    {
      if id <= 0 { return false; }
      ghost var ts := if file.Some? then Table() else [];
      var edit := (t: Tool) => Some(if t.id == id then t.(offsets := offsets, diameter := diameter) else t);
      var dst;
      ok, dst := CopyEdited(edit);
      if ok {
        SetEdits(ts, id, offsets, diameter, cap);
        file := Some(dst);
      }
    }

    /** Zero all offsets and diameters. */
    method ClearTools() returns (ok: bool)
      requires Valid()
      modifies this`file
      ensures Valid() && ok == (!fsAvailable || old(file).Some?)
      ensures if fsAvailable && ok then file.Some? && Table() == AfterClear(old(Table())) else file == old(file)
    {
      if !fsAvailable { return true; }
      ghost var ts := Table();
      var edit := (t: Tool) => Some(t.(offsets := NO_OFFSETS, diameter := 0));
      var dst;
      ok, dst := CopyEdited(edit);
      if ok {
        ClearEdits(ts, cap);
        file := Some(dst);
      }
    }
  }

  lemma PocketOfWf(ts: seq<Tool>, k: nat, cap: nat)
    requires Wf(ts, cap) && k < |ts|
    ensures ts[k].pocket < 0x1_0000 && (ts[k].pocket >= 1 || ts[k].pocket == -1)
  {
    assert Writable(ts[k], cap) && Settled(ts[k]) == ts[k];
    hide Tidy;
  }

  lemma NotFull(ts: seq<Tool>, p: int, n: int)
    requires 1 <= p <= n && !InUse(ts, p)
    ensures !CarouselFull(ts, n)
  {
  }

  lemma NothingInUse()
    ensures forall p :: !InUse([], p)
  {
  }

  lemma InUseMore(ts: seq<Tool>, t: Tool)
    ensures forall p :: InUse(ts + [t], p) <==> InUse(ts, p) || t.pocket == p
  {
    forall p ensures InUse(ts + [t], p) <==> InUse(ts, p) || t.pocket == p {
      if InUse(ts, p) {
        var i :| 0 <= i < |ts| && ts[i].pocket == p;
        assert (ts + [t])[i].pocket == p;
      }
      if t.pocket == p {
        assert (ts + [t])[|ts|].pocket == p;
      }
    }
  }

  /** A well-formed list with one entry changed is read back with that entry settled. */
  lemma ReplacedReads(ts: seq<Tool>, k: nat, raw: Tool, cap: nat)
    requires Wf(ts, cap) && k < |ts| && 1 <= cap <= 200 && Writable(raw, cap)
    ensures Tools(Render(ts[k := raw]), cap) == ts[k := Settled(raw)]
  {
    hide Settled, Writable, UniqueIds, UniquePockets, Tools, Render, AllSettled;
    PassReads(ts[k := raw], cap);
    assert AllSettled(ts[k := raw]) == ts[k := Settled(raw)];
  }

  lemma PocketCleared(t: Tool, cap: nat)
    requires Writable(t, cap) && Settled(t) == t
    ensures Writable(t.(pocket := 0), cap) && Settled(t.(pocket := 0)) == t.(pocket := -1)
  {
    hide Tidy;
  }

  lemma OverrideRemoves(ts: seq<Tool>, o: Override, cap: nat)
    requires Wf(ts, cap) && 1 <= cap <= 200 && !o.delete && o.pocket == 0 && o.name == "" && Find(ts, o.id) >= 0
    ensures Tools(Render(Edited(ts, EditBy([o], cap))), cap) == AfterRemove(ts, o.id) && Wf(AfterRemove(ts, o.id), cap)
  {
    var k := Find(ts, o.id);
    FindFacts(ts, o.id);
    PocketCleared(ts[k], cap);
    RemoveKeepsWf(ts, o.id, cap);
    OverrideEdits(ts, k, o, cap);
    hide Find, Wf, Settled, Writable, Take, Edited, EditBy, Tools, Render;
    ReplacedReads(ts, k, ts[k].(pocket := 0), cap);
  }

  lemma OverrideDeletes(ts: seq<Tool>, o: Override, cap: nat)
    requires Wf(ts, cap) && 1 <= cap <= 200 && o.delete && Find(ts, o.id) >= 0
    ensures Tools(Render(Edited(ts, EditBy([o], cap))), cap) == AfterDelete(ts, o.id) && Wf(AfterDelete(ts, o.id), cap)
  {
    hide Settled, Tidy, Find, Take, Overridden, Edited, Writable, EditBy;
    FindFacts(ts, o.id);
    DeleteKeepsWf(ts, o.id, cap);
    OverrideEdits(ts, Find(ts, o.id), o, cap);
    WfReads(AfterDelete(ts, o.id), cap);
  }

  /** A well-formed list is read back as it is. */
  lemma WfReads(ts: seq<Tool>, cap: nat)
    requires Wf(ts, cap) && 1 <= cap <= 200
    ensures Tools(Render(ts), cap) == ts
  {
    hide Settled, Writable;
    PassReads(ts, cap);
    SettledAll(ts, cap);
  }

  lemma SetEdits(ts: seq<Tool>, id: int, offsets: Offsets, diameter: int, cap: nat)
    requires Wf(ts, cap) && 1 <= cap <= 200 && (forall i :: 0 <= i < N_AXIS ==> InRange(offsets[i])) && InRange(diameter)
    ensures var edit := (t: Tool) => Some(if t.id == id then t.(offsets := offsets, diameter := diameter) else t);
      var r := AfterSet(ts, id, offsets, diameter);
      Edited(ts, edit) == r && Wf(r, cap) && Tools(Render(Edited(ts, edit)), cap) == r
  {
    hide Settled, Find, Writable;
    var edit := (t: Tool) => Some(if t.id == id then t.(offsets := offsets, diameter := diameter) else t);
    var k := Find(ts, id);
    FindFacts(ts, id);
    if k >= 0 {
      assert forall i :: 0 <= i < |ts| && i != k ==> ts[i].id != ts[k].id;
      EditOne(ts, k, edit);
    } else {
      EditNothing(ts, edit);
    }
    SetKeepsWf(ts, id, offsets, diameter, cap);
    WfReads(AfterSet(ts, id, offsets, diameter), cap);
  }

  lemma ClearEdits(ts: seq<Tool>, cap: nat)
    requires Wf(ts, cap) && 1 <= cap <= 200
    ensures var edit := (t: Tool) => Some(t.(offsets := NO_OFFSETS, diameter := 0));
      Wf(AfterClear(ts), cap) && Tools(Render(Edited(ts, edit)), cap) == AfterClear(ts)
  {
    hide Settled, Writable;
    EditAll(ts, (t: Tool) => Some(t.(offsets := NO_OFFSETS, diameter := 0)), AfterClear(ts));
    ClearKeepsWf(ts, cap);
    WfReads(AfterClear(ts), cap);
  }

  lemma SettledAll(ts: seq<Tool>, cap: nat)
    requires Wf(ts, cap)
    ensures AllSettled(ts) == ts
  {
    hide Settled, Writable;
  }

  /** Rewriting with one override for a listed tool assigns it pocket and name. */
  lemma OverrideAssigns(ts: seq<Tool>, o: Override, name: string, cap: nat)
    requires Wf(ts, cap) && 1 <= cap <= 200 && !o.delete && PlainText(name) && o.name == Take(name, cap)
    requires Find(ts, o.id) >= 0 && o.pocket < 0x1_0000
    requires o.pocket < 1 || !InUse(ts, o.pocket) || ts[Find(ts, o.id)].pocket == o.pocket
    ensures var p := if o.pocket >= 1 then o.pocket else -1;
      var r := AfterAssign(ts, o.id, p, name, cap);
      Tools(Render(Edited(ts, EditBy([o], cap))), cap) == r && Wf(r, cap) && Distinct(ts, o.id)
  {
    var k := Find(ts, o.id);
    var p := if o.pocket >= 1 then o.pocket else -1;
    var raw := ts[k].(pocket := o.pocket, name := if o.name == "" then ts[k].name else o.name);
    FindFacts(ts, o.id);
    TakeTwice(name, cap);
    assert Writable(ts[k], cap) && Settled(ts[k]) == ts[k];
    hide Settled, Tidy, Take, Overridden, Edited, Writable, PlainText, EditBy, StoredName, Tools, Render;
    SettledRaw(ts[k], raw, p, name, cap);
    RawWritable(ts[k], raw, cap);
    AssignListed(ts, o.id, p, name, cap);
    hide Find, Wf, InUse;
    OverrideNamed(ts, k, o, raw, cap);
    ReplacedReads(ts, k, raw, cap);
  }

  lemma OverrideNamed(ts: seq<Tool>, k: nat, o: Override, raw: Tool, cap: nat)
    requires k < |ts| && Wf(ts, cap) && ts[k].id == o.id && !o.delete && Take(o.name, cap) == o.name
    requires raw == ts[k].(pocket := o.pocket, name := if o.name == "" then ts[k].name else o.name)
    ensures Edited(ts, EditBy([o], cap)) == ts[k := raw]
  {
    hide Settled, Writable, Take, Edited, EditBy;
    OverrideEdits(ts, k, o, cap);
  }

  lemma RawWritable(t: Tool, raw: Tool, cap: nat)
    requires Writable(t, cap) && raw.pocket < 0x1_0000
    requires raw.name == t.name || (PlainText(raw.name) && |raw.name| <= cap)
    requires raw == t.(pocket := raw.pocket, name := raw.name)
    ensures Writable(raw, cap)
  {
  }

  lemma TakeTwice(name: string, cap: nat)
    ensures Take(Take(name, cap), cap) == Take(name, cap) && (Take(name, cap) == "" <==> name == "" || cap == 0)
    ensures PlainText(name) ==> PlainText(Take(name, cap)) && |Take(name, cap)| <= cap
  {
  }

  lemma SettledRaw(t: Tool, raw: Tool, p: int, name: string, cap: nat)
    requires Settled(t) == t && p == (if raw.pocket >= 1 then raw.pocket else -1)
    requires raw == t.(pocket := raw.pocket, name := if Take(name, cap) == "" then t.name else Take(name, cap))
    ensures Settled(raw) == t.(pocket := p, name := if Take(name, cap) == "" then t.name else StoredName(name, cap))
  {
    hide Tidy, Take;
  }

  /** One override acts on the tool it names and on no other. */
  lemma OverrideEdits(ts: seq<Tool>, k: nat, o: Override, cap: nat)
    requires k < |ts| && UniqueIds(ts) && ts[k].id == o.id
    ensures Edited(ts, EditBy([o], cap)) ==
      if o.delete then ts[..k] + ts[k + 1..]
      else ts[k := ts[k].(pocket := o.pocket, name := if o.name == "" then ts[k].name else Take(o.name, cap))]
  {
    var edit := EditBy([o], cap);
    forall i | 0 <= i < |ts| && i != k ensures edit(ts[i]) == Some(ts[i]) {
      assert ts[i].id != ts[k].id;
      assert [o][1..] == [] && Overridden(ts[i], [], cap) == Some(ts[i]);
    }
    EditOne(ts, k, edit);
  }

  lemma NewEntryFits(t: Tool, name: string, cap: nat)
    requires PlainText(name) && 1 <= cap <= 200 && t == Tool(t.id, t.pocket, NO_OFFSETS, 0, Take(name, cap)) && t.pocket < 0x1_0000
    ensures Fitting(t, cap)
    ensures Wrapped(t) == Tool(t.id % 0x1_0000, if t.pocket >= 1 then t.pocket else -1, NO_OFFSETS, 0, StoredName(name, cap))
  {
    hide Tidy, Take, Line, PlainText, Wrapped, StoredName, Writable;
    CutLine(t);
    NewEntryWraps(t, name, cap);
    var cut := t.(id := t.id % 0x1_0000);
    NewEntryWritable(cut, name, cap);
    WritableFits(cut, cap);
  }

  lemma NewEntryWritable(t: Tool, name: string, cap: nat)
    requires PlainText(name) && 0 <= t.id < 0x1_0000 && t.pocket < 0x1_0000
    requires t.offsets == NO_OFFSETS && t.diameter == 0 && t.name == Take(name, cap)
    ensures Writable(t, cap)
  {
    TakeTwice(name, cap);
    hide Take, PlainText;
  }

  lemma NewEntryWraps(t: Tool, name: string, cap: nat)
    requires t == Tool(t.id, t.pocket, NO_OFFSETS, 0, Take(name, cap)) && t.pocket < 0x1_0000
    ensures Wrapped(t) == Tool(t.id % 0x1_0000, if t.pocket >= 1 then t.pocket else -1, NO_OFFSETS, 0, StoredName(name, cap))
  {
    hide Tidy, Take;
  }

  lemma CutLine(t: Tool)
    ensures Line(t.(id := t.id % 0x1_0000)) == Line(t)
  {
    hide Spaced, AxisWords, IdWord, PocketWord, DiameterWords;
    var cut := t.(id := t.id % 0x1_0000);
    CutId(t);
    PocketOnly(cut, t);
    DiameterOnly(cut, t);
  }

  lemma CutId(t: Tool)
    ensures IdWord(t.(id := t.id % 0x1_0000)) == IdWord(t)
  {
    hide Dec;
  }

  lemma PocketOnly(t: Tool, u: Tool)
    requires t.pocket == u.pocket
    ensures PocketWord(t) == PocketWord(u)
  {
    hide Dec;
  }

  lemma DiameterOnly(t: Tool, u: Tool)
    requires t.diameter == u.diameter
    ensures DiameterWords(t) == DiameterWords(u)
  {
    hide Fixed;
  }

  lemma AppendReads(ts: seq<Tool>, t: Tool, cap: nat)
    requires Wf(ts, cap) && 1 <= cap <= 200 && Fitting(t, cap)
    ensures Tools(Render(ts + [t]), cap) == ts + [Wrapped(t)]
  {
    hide Settled, Writable, Wrapped, Fitting, UniqueIds, UniquePockets, AllWrapped;
    forall i | 0 <= i < |ts| ensures Fitting(ts[i], cap) && Wrapped(ts[i]) == ts[i] {
      WritableFits(ts[i], cap);
      WritableSettles(ts[i], cap);
    }
    RenderReads(ts + [t], cap);
    assert AllWrapped(ts + [t]) == ts + [Wrapped(t)];
  }

  /** Appending an entry for an unlisted tool assigns it pocket and name. */
  lemma AppendAssigns(ts: seq<Tool>, t: Tool, name: string, cap: nat)
    requires Wf(ts, cap) && 1 <= cap <= 200 && PlainText(name)
    requires t == Tool(t.id, t.pocket, NO_OFFSETS, 0, Take(name, cap)) && Find(ts, t.id) < 0 && t.pocket < 0x1_0000
    requires t.pocket < 1 || !InUse(ts, t.pocket)
    ensures var p := if t.pocket >= 1 then t.pocket else -1;
      var r := AfterAssign(ts, t.id, p, name, cap);
      Tools(Render(ts + [t]), cap) == r && (Wf(r, cap) <==> Distinct(ts, t.id))
  {
    hide Take, Find, StoredName, Wf, Wrapped, Fitting;
    var p := if t.pocket >= 1 then t.pocket else -1;
    AssignKeepsWf(ts, t.id, p, name, cap);
    NewEntryFits(t, name, cap);
    AppendReads(ts, t, cap);
  }

  lemma RenderNothing(edit: Tool -> Option<Tool>)
    ensures Edited([], edit) == [] && Render([]) == ""
  {
  }

  lemma ToolsInStep(line: string, lines: seq<string>, cap: nat)
    ensures ToolsIn([line] + lines, cap) == (if Parse(line, cap).Some? then [Parse(line, cap).value] else []) + ToolsIn(lines, cap)
    ensures ToolsIn([], cap) == []
  {
    hide Parse;
    assert ([line] + lines)[1..] == lines;
  }

  lemma FindAfter(done: seq<Tool>, t: Tool, rest: seq<Tool>)
    requires forall i :: 0 <= i < |done| ==> done[i].id != t.id
    ensures Find(done + [t] + rest, t.id) == |done|
  {
    var all := done + [t] + rest;
    assert all[|done|] == t && forall i :: 0 <= i < |done| ==> all[i] == done[i];
  }

  lemma PassStep(done: seq<Tool>, t: Tool, edit: Tool -> Option<Tool>)
    ensures Render(Edited(done + [t], edit)) ==
      Render(Edited(done, edit)) + if edit(t).Some? then Line(edit(t).value) + "\n" else ""
  {
    hide Render, Line;
    EditedMore(done, t, edit);
    if edit(t).Some? {
      RenderMore(Edited(done, edit), edit(t).value);
    } else {
      assert Edited(done, edit) + [] == Edited(done, edit);
    }
  }

  lemma EditedMore(ts: seq<Tool>, t: Tool, edit: Tool -> Option<Tool>)
    ensures Edited(ts + [t], edit) == Edited(ts, edit) + if edit(t).Some? then [edit(t).value] else []
  {
    assert (ts + [t])[..|ts|] == ts;
  }
}
