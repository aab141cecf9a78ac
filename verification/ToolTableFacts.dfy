/** Facts about the tool table that span operations. */
module ToolTableFacts {
  import opened Options
  import opened Sequences
  import opened ToolText
  import opened ToolLines
  import opened ToolFile
  import opened ToolTable

  /** What a lookup by number finds. */
  function Lookup(ts: seq<Tool>, id: int): Option<Tool> {
    var k := Find(ts, id); if k < 0 then None else Some(ts[k])
  }

  lemma FindUnique(ts: seq<Tool>, k: nat)
    requires k < |ts| && UniqueIds(ts)
    ensures Find(ts, ts[k].id) == k
  {
    assert forall f :: 0 <= f < k ==> ts[f].id != ts[k].id;
  }

  lemma LookupIs(ts: seq<Tool>, id: int, k: nat)
    requires k < |ts| && UniqueIds(ts) && ts[k].id == id
    ensures Lookup(ts, id) == Some(ts[k])
  {
    FindUnique(ts, k);
  }

  lemma LookupNothing(ts: seq<Tool>, id: int)
    requires forall i :: 0 <= i < |ts| ==> ts[i].id != id
    ensures Lookup(ts, id) == None
  {
  }

  lemma ReplacedLookup(ts: seq<Tool>, k: nat, t: Tool, other: int)
    requires k < |ts| && UniqueIds(ts) && t.id == ts[k].id != other
    ensures Lookup(ts[k := t], other) == Lookup(ts, other)
  {
    var r := ts[k := t];
    FindFacts(ts, other);
    FindSame(ts, r, other);
  }

  lemma AppendedLookup(ts: seq<Tool>, t: Tool, other: int)
    requires UniqueIds(ts) && t.id != other
    ensures Lookup(ts + [t], other) == Lookup(ts, other)
  {
    FindFacts(ts, other);
    var j := Find(ts, other);
    if j >= 0 {
      FindAfter(ts[..j], ts[j], ts[j + 1..] + [t]);
      assert ts[..j] + [ts[j]] + (ts[j + 1..] + [t]) == ts + [t];
    } else {
      LookupNothing(ts + [t], other);
    }
  }

  lemma RemovedLookup(ts: seq<Tool>, k: nat, other: int)
    requires k < |ts| && UniqueIds(ts) && ts[k].id != other
    ensures Lookup(ts[..k] + ts[k + 1..], other) == Lookup(ts, other)
  {
    FindFacts(ts, other);
    var r := ts[..k] + ts[k + 1..];
    var j := Find(ts, other);
    hide Find;
    if j >= 0 {
      LookupIs(r, other, if k < j then j - 1 else j);
    } else {
      LookupNothing(r, other);
    }
  }

  /** Rewriting, appending or deleting the entry of one tool changes no other lookup, but for that of the number its own is
      cut to. */
  lemma OthersUntouched(ts: seq<Tool>, id: int, other: int, pocket: int, name: string, offsets: Offsets, diameter: int, cap: nat)
    requires UniqueIds(ts) && other != id && other != id % 0x1_0000
    ensures Lookup(AfterAssign(ts, id, pocket, name, cap), other) == Lookup(ts, other)
    ensures Lookup(AfterRemove(ts, id), other) == Lookup(ts, other)
    ensures Lookup(AfterSet(ts, id, offsets, diameter), other) == Lookup(ts, other)
    ensures Lookup(AfterDelete(ts, id), other) == Lookup(ts, other)
  {
    hide Find, StoredName, Lookup;
    FindFacts(ts, id);
    var k := Find(ts, id);
    if k >= 0 {
      ReplacedLookup(ts, k, ts[k].(pocket := pocket, name := if name == "" then ts[k].name else StoredName(name, cap)), other);
      ReplacedLookup(ts, k, ts[k].(pocket := -1), other);
      ReplacedLookup(ts, k, ts[k].(offsets := offsets, diameter := diameter), other);
      RemovedLookup(ts, k, other);
    } else {
      AppendedLookup(ts, Tool(id % 0x1_0000, pocket, NO_OFFSETS, 0, StoredName(name, cap)), other);
    }
  }

  /** What a lookup of the tool itself finds afterwards. */
  lemma OwnEntry(ts: seq<Tool>, id: int, pocket: int, name: string, offsets: Offsets, diameter: int, cap: nat)
    requires UniqueIds(ts) && Find(ts, id) >= 0
    ensures var t := ts[Find(ts, id)];
      && Lookup(AfterAssign(ts, id, pocket, name, cap), id) ==
           Some(Tool(id, pocket, t.offsets, t.diameter, if name == "" then t.name else StoredName(name, cap)))
      && Lookup(AfterRemove(ts, id), id) == Some(Tool(id, -1, t.offsets, t.diameter, t.name))
      && Lookup(AfterSet(ts, id, offsets, diameter), id) == Some(Tool(id, t.pocket, offsets, diameter, t.name))
      && Lookup(AfterDelete(ts, id), id) == None
  {
    hide StoredName;
    var k := Find(ts, id);
    FindFacts(ts, id);
    var t := ts[k];
    hide Find;
    FindSame(ts, ts[k := t.(pocket := pocket, name := if name == "" then t.name else StoredName(name, cap))], id);
    FindSame(ts, ts[k := t.(pocket := -1)], id);
    FindSame(ts, ts[k := t.(offsets := offsets, diameter := diameter)], id);
    LookupNothing(ts[..k] + ts[k + 1..], id);
  }

  /** ... and of one listed anew, at the end. */
  lemma NewEntry(ts: seq<Tool>, id: int, pocket: int, name: string, cap: nat)
    requires Find(ts, id) < 0 && Find(ts, id % 0x1_0000) < 0
    ensures var r := AfterAssign(ts, id, pocket, name, cap);
      && r[..|r| - 1] == ts
      && Lookup(r, id % 0x1_0000) == Some(r[|ts|]) == Some(Tool(id % 0x1_0000, pocket, NO_OFFSETS, 0, StoredName(name, cap)))
  {
    hide StoredName;
    FindFacts(ts, id % 0x1_0000);
    var t := Tool(id % 0x1_0000, pocket, NO_OFFSETS, 0, StoredName(name, cap));
    FindAfter(ts, t, []);
    assert ts + [t] + [] == ts + [t];
  }

  /** No operation reorders the tools that stay. */
  lemma OrderStays(ts: seq<Tool>, id: int, pocket: int, name: string, offsets: Offsets, diameter: int, cap: nat, i: nat)
    requires Find(ts, id) >= 0 && i < |ts| && i != Find(ts, id)
    ensures |AfterAssign(ts, id, pocket, name, cap)| == |AfterRemove(ts, id)| == |AfterSet(ts, id, offsets, diameter)| == |ts|
    ensures AfterAssign(ts, id, pocket, name, cap)[i] == AfterRemove(ts, id)[i] == AfterSet(ts, id, offsets, diameter)[i] == ts[i]
    ensures |AfterDelete(ts, id)| == |ts| - 1 && AfterDelete(ts, id)[if i < Find(ts, id) then i else i - 1] == ts[i]
  {
    hide StoredName, Find;
  }

  lemma RemoveUndoesAssign(ts: seq<Tool>, id: int, pocket: int, cap: nat)
    requires Find(ts, id) >= 0 && ts[Find(ts, id)].pocket == -1
    ensures AfterRemove(AfterAssign(ts, id, pocket, "", cap), id) == ts
  {
    var k := Find(ts, id);
    var added := ts[k := ts[k].(pocket := pocket)];
    FindSame(ts, added, id);
    assert AfterAssign(ts, id, pocket, "", cap) == added;
    hide AfterAssign, Find;
    assert AfterRemove(added, id) == added[k := added[k].(pocket := -1)];
    hide AfterRemove;
    assert added[k := added[k].(pocket := -1)] == ts;
  }

  lemma DeleteUndoesAssign(ts: seq<Tool>, id: int, pocket: int, name: string, cap: nat)
    requires Find(ts, id) < 0 && Find(ts, id % 0x1_0000) < 0
    ensures AfterDelete(AfterAssign(ts, id, pocket, name, cap), id % 0x1_0000) == ts
  {
    hide StoredName;
    FindFacts(ts, id % 0x1_0000);
    var t := Tool(id % 0x1_0000, pocket, NO_OFFSETS, 0, StoredName(name, cap));
    FindAfter(ts, t, []);
    hide Find;
    assert ts + [t] + [] == ts + [t];
    assert (ts + [t])[..|ts|] == ts && (ts + [t])[|ts| + 1..] == [];
  }

  /** Taking a tool out of the carousel undoes putting it in, and deleting it undoes listing it. */
  lemma RemoveUndoesAdd(ts: seq<Tool>, id: int, pocket: int, name: string, cap: nat)
    requires Find(ts, id) >= 0 ==> ts[Find(ts, id)].pocket == -1
    ensures Find(ts, id) >= 0 ==> AfterRemove(AfterAssign(ts, id, pocket, "", cap), id) == ts
    ensures Find(ts, id) < 0 && Find(ts, id % 0x1_0000) < 0 ==>
      AfterDelete(AfterAssign(ts, id, pocket, name, cap), id % 0x1_0000) == ts
  {
    hide Find, AfterAssign, AfterRemove, AfterDelete;
    if Find(ts, id) >= 0 {
      RemoveUndoesAssign(ts, id, pocket, cap);
    } else if Find(ts, id % 0x1_0000) < 0 {
      DeleteUndoesAssign(ts, id, pocket, name, cap);
    }
  }

  lemma {:induction false} FindSame(a: seq<Tool>, b: seq<Tool>, id: int)
    requires |a| == |b| && forall i :: 0 <= i < |a| ==> a[i].id == b[i].id
    ensures Find(a, id) == Find(b, id)
    decreases |a|
  {
    if a != [] { FindSame(a[1..], b[1..], id); }
  }

  /** A rewrite without overrides keeps the list of any file, hand-edited ones included, whose numbers and lines fit;
      and doing it again changes no byte. */
  lemma RewriteIsStable(text: string, cap: nat)
    requires forall t :: t in Tools(text, cap) ==> Fitting(t, cap) && t.id < 0x1_0000 && t.pocket < 0x1_0000
    ensures var once := Render(Edited(Tools(text, cap), EditBy([], cap)));
      Tools(once, cap) == Tools(text, cap) && Render(Edited(Tools(once, cap), EditBy([], cap))) == once
  {
    hide Fitting, Settled, Wrapped, Render, Edited, ToolsIn;
    var ts := Tools(text, cap);
    NoOverrides(ts, cap);
    ToolsAreSettled(Lines(text), cap);
    forall i | 0 <= i < |ts| ensures Wrapped(ts[i]) == ts[i] {
      assert ts[i] in ts;
      WrappedIff(ts[i]);
    }
    RenderReads(ts, cap);
    assert AllWrapped(ts) == ts;
  }

  /** Of several overrides for a tool the first decides, and overrides for others do not matter. */
  lemma {:induction false} FirstOverrideDecides(t: Tool, before: seq<Override>, o: Override, after: seq<Override>, cap: nat)
    requires (forall i :: 0 <= i < |before| ==> before[i].id != t.id) && o.id == t.id
    ensures Overridden(t, before + [o] + after, cap) == if o.delete then None
      else Some(Tool(t.id, o.pocket, t.offsets, t.diameter, if o.name == "" then t.name else Take(o.name, cap)))
    ensures Overridden(t, before, cap) == Some(t)
    decreases |before|
  {
    hide Take;
    var all := before + [o] + after;
    if before == [] {
      assert all[0] == o;
    } else {
      assert all[0] == before[0] && all[1..] == before[1..] + [o] + after;
      FirstOverrideDecides(t, before[1..], o, after, cap);
    }
  }

  lemma NoOverrides(ts: seq<Tool>, cap: nat)
    ensures Edited(ts, EditBy([], cap)) == ts
  {
    forall i | 0 <= i < |ts| ensures EditBy([], cap)(ts[i]) == Some(ts[i]) {
      assert Overridden(ts[i], [], cap) == Some(ts[i]);
    }
    EditNothing(ts, EditBy([], cap));
  }

  function Pockets(ts: seq<Tool>): set<int> {
    set i | 0 <= i < |ts| :: ts[i].pocket
  }

  lemma {:induction false} FewPockets(ts: seq<Tool>)
    ensures |Pockets(ts)| <= |ts|
    decreases |ts|
  {
    if ts == [] {
      assert Pockets(ts) == {};
    } else {
      var n := |ts| - 1;
      FewPockets(ts[..n]);
      assert Pockets(ts) == Pockets(ts[..n]) + {ts[n].pocket};
    }
  }

  function UpTo(n: nat): (s: set<int>)
    ensures forall p :: p in s <==> 1 <= p <= n
  {
    if n == 0 then {} else UpTo(n - 1) + {n}
  }

  lemma {:induction false} UpToSize(n: nat)
    ensures |UpTo(n)| == n
  {
    if n > 0 { UpToSize(n - 1); }
  }

  lemma SubsetSize(a: set<int>, b: set<int>)
    requires a <= b
    ensures |a| <= |b|
  {
    assert b == a + (b - a);
  }

  /** "No pocket available" is only ever reported when at least as many tools are listed as there are pockets. */
  lemma FullMeansManyTools(ts: seq<Tool>, maxPockets: nat)
    requires CarouselFull(ts, maxPockets)
    ensures |ts| >= maxPockets
  {
    forall p | p in UpTo(maxPockets) ensures p in Pockets(ts) {
      assert InUse(ts, p);
    }
    UpToSize(maxPockets);
    SubsetSize(UpTo(maxPockets), Pockets(ts));
    FewPockets(ts);
  }

  // ---------------------------------------------------------------------------------------------------------------
  // Runs
  // ---------------------------------------------------------------------------------------------------------------

  datatype Operation =
    | RegisterOp(id: int, name: string)
    | AddOp(id: int, maxPockets: nat, name: string)
    | RemoveOp(id: int)
    | DeleteOp(id: int)
    | SetOp(id: int, offsets: Offsets, diameter: int)
    | ClearOp

  /** Arguments the operations are specified for. */
  predicate Proper(op: Operation) {
    match op
    case RegisterOp(id, name) => 0 <= id < 0x1_0000 && PlainText(name)
    case AddOp(id, n, name) => 0 <= id < 0x1_0000 && n < 0x1_0000 && PlainText(name)
    case SetOp(_, offsets, diameter) => (forall i :: 0 <= i < N_AXIS ==> InRange(offsets[i])) && InRange(diameter)
    case _ => true
  }

  /** The least pocket not assigned, if there is one. */
  function LeastFree(ts: seq<Tool>, p: nat, maxPockets: nat): (r: int)
    requires 1 <= p
    ensures r == -1 || (p <= r <= maxPockets && !InUse(ts, r) && forall q :: p <= q < r ==> InUse(ts, q))
    ensures r == -1 ==> forall q :: p <= q <= maxPockets ==> InUse(ts, q)
    decreases maxPockets - p + 1
  {
    if p > maxPockets then -1 else if !InUse(ts, p) then p else LeastFree(ts, p + 1, maxPockets)
  }

  /** The pocket the allocator assigns is the least free one, and it reports a full carousel exactly when there is none. */
  lemma LeastFreeIs(ts: seq<Tool>, maxPockets: nat)
    ensures LeastFree(ts, 1, maxPockets) == -1 <==> CarouselFull(ts, maxPockets)
    ensures forall p :: 1 <= p <= maxPockets && !InUse(ts, p) && CarouselFull(ts, p - 1) ==> LeastFree(ts, 1, maxPockets) == p
  {
    hide InUse;
    var r := LeastFree(ts, 1, maxPockets);
    assert r != -1 ==> 1 <= r <= maxPockets && !InUse(ts, r);
  }

  /** The list after an operation, refused ones leaving it alone. */
  function After(ts: seq<Tool>, op: Operation, cap: nat): seq<Tool> {
    match op
    case RegisterOp(id, name) =>
      var k := Find(ts, id);
      if k >= 0 && name == "" then ts else AfterAssign(ts, id, if k >= 0 then ts[k].pocket else -1, name, cap)
    case AddOp(id, n, name) =>
      var k := Find(ts, id);
      var p := LeastFree(ts, 1, n);
      if (k >= 0 && ts[k].pocket >= 1) || p == -1 then ts else AfterAssign(ts, id, p, name, cap)
    case RemoveOp(id) =>
      var k := Find(ts, id);
      if k < 0 || ts[k].pocket < 1 then ts else AfterRemove(ts, id)
    case DeleteOp(id) =>
      var k := Find(ts, id);
      if k < 0 || ts[k].pocket >= 1 then ts else AfterDelete(ts, id)
    case SetOp(id, offsets, diameter) => if id <= 0 then ts else AfterSet(ts, id, offsets, diameter)
    case ClearOp => AfterClear(ts)
  }

  function AfterAll(ts: seq<Tool>, ops: seq<Operation>, cap: nat): seq<Tool>
    decreases |ops|
  {
    if ops == [] then ts else AfterAll(After(ts, ops[0], cap), ops[1..], cap)
  }

  /** In every table reachable from an empty file tool numbers are unique, no pocket is shared and everything listed can be
      written and read back. */
  lemma {:induction false} RunsStayWellFormed(ts: seq<Tool>, ops: seq<Operation>, cap: nat)
    requires Wf(ts, cap) && forall op :: op in ops ==> Proper(op)
    ensures Wf(AfterAll(ts, ops, cap), cap)
    decreases |ops|
  {
    if ops != [] {
      assert ops[0] in ops;
      OperationKeepsWf(ts, ops[0], cap);
      RunsStayWellFormed(After(ts, ops[0], cap), ops[1..], cap);
    }
  }

  lemma OperationKeepsWf(ts: seq<Tool>, op: Operation, cap: nat)
    requires Wf(ts, cap) && Proper(op)
    ensures Wf(After(ts, op, cap), cap)
  {
    match op
    case RegisterOp(id, name) =>
      var k := Find(ts, id);
      if k < 0 || name != "" {
        assert k >= 0 ==> Settled(ts[k]) == ts[k] && Writable(ts[k], cap);
        AssignKeepsWf(ts, id, if k >= 0 then ts[k].pocket else -1, name, cap);
      }
    case AddOp(id, n, name) =>
      if LeastFree(ts, 1, n) != -1 {
        AssignKeepsWf(ts, id, LeastFree(ts, 1, n), name, cap);
      }
    case RemoveOp(id) => RemoveKeepsWf(ts, id, cap);
    case DeleteOp(id) => DeleteKeepsWf(ts, id, cap);
    case SetOp(id, offsets, diameter) => SetKeepsWf(ts, id, offsets, diameter, cap);
    case ClearOp => ClearKeepsWf(ts, cap);
  }

  /** The file refines the list: carried out on the file, an operation does to the list it stands for what After says. */
  method Perform(table: ToolTable, op: Operation)
    requires table.Valid() && table.fsAvailable && Proper(op)
    modifies table`file
    ensures table.Valid() && table.file.Some? && table.Table() == After(old(table.Table()), op, table.cap)
  {
    ghost var ts := table.Table();
    hide Wf, Find, Tools, AfterAssign, AfterRemove, AfterDelete, AfterSet, AfterClear, InUse;
    match op
    case RegisterOp(id, name) =>
      var result := table.RegisterTool(id, name);
    case AddOp(id, n, name) =>
      LeastFreeIs(ts, n);
      var result, pocket := table.CarouselAdd(id, n, name);
    case RemoveOp(id) =>
      var result := table.CarouselRemove(id);
    case DeleteOp(id) =>
      var result := table.Delete(id);
    case SetOp(id, offsets, diameter) =>
      var ok := table.SetTool(id, offsets, diameter);
    case ClearOp =>
      var ok := table.ClearTools();
  }

  /** ... and so for every sequence of operations. */
  method PerformAll(table: ToolTable, ops: seq<Operation>)
    requires table.Valid() && table.fsAvailable && forall op :: op in ops ==> Proper(op)
    modifies table`file
    ensures table.Valid() && table.file.Some? && table.Table() == AfterAll(old(table.Table()), ops, table.cap)
    decreases |ops|
  {
    hide Wf, Tools, After;
    if ops != [] {
      assert ops[0] in ops;
      Perform(table, ops[0]);
      PerformAll(table, ops[1..]);
    }
  }
}
