/** The two keep-out plugins installed as in my_plugin_init, zone plugin outermost, over whole runs of moves, jogs,
    tool-change events and changes of either plugin's settings. */
module KeepoutRuns {
  import opened Geometry
  import opened Zones
  import opened ExclusionZones
  import opened JogSafety
  import Atci = AtciKeepout

  /** The core's own limit hooks, behind the plugins'. */
  datatype Core = Core(check: (Point, Point) -> bool, apply: (Point, Point) -> Point)

  /** A rectangle of the ATCi guard, seen as a zone. */
  type Guard = z: Zone | z.ZUndefined() && z.flags == 0x0C witness ZERO_ZONE.(flags := 0x0C)

  /** `zones` are the zones in force, none while exclusion is disabled. The guard has a rectangle of its own, which zone 0
      may or may not mirror. */
  datatype State = State(pos: Point, tcMacroRunning: bool, zones: seq<Zone>, guard: Guard, guardActive: bool)

  /** SetActive covers every way the ATCi guard is switched: tool change, rack sensor, M960, settings. SetGuard is a change
      of its rectangle; SetTable any change of the zones in force: $ZONE commands, $EXCLUSION, restore, mirroring of zone 0. */
  datatype Event =
    | Move(target: Point) | JogTo(target: Point) | ToolSelected | ToolChanged
    | SetActive(active: bool) | SetGuard(rectangle: Guard) | SetTable(table: seq<Zone>)

  function OpOf(s: State): Op {
    if s.tcMacroRunning then Toolchange else Gcode
  }

  ghost predicate Accepts(core: Core, s: State, target: Point) {
    && MoveAllowed(s.zones, OpOf(s), s.pos, target)
    && Atci.GuardMove(s.guard, s.guardActive, s.pos, target)
    && core.check(s.pos, target)
  }

  ghost function JogEnd(core: Core, s: State, target: Point): Point {
    match JogThrough(s.zones, s.pos, target)
    case Blocked => s.pos
    case Through(q) => Atci.GuardJog(s.guard, s.guardActive, core.apply, s.pos, q)
  }

  ghost function Next(core: Core, s: State, e: Event): State {
    match e
    case Move(target) => if Accepts(core, s, target) then s.(pos := target) else s
    case JogTo(target) => s.(pos := JogEnd(core, s, target))
    case ToolSelected => s.(tcMacroRunning := true)
    case ToolChanged => s.(tcMacroRunning := false)
    case SetActive(active) => s.(guardActive := active)
    case SetGuard(rectangle) => s.(guard := rectangle)
    case SetTable(table) => s.(zones := table)
  }

  /** All states of a run; the machine travels straight from each position to the next. */
  ghost function Run(core: Core, s: State, events: seq<Event>): (states: seq<State>)
    ensures |states| == |events| + 1 && states[0] == s
    decreases |events|
  {
    if events == [] then [s] else [s] + Run(core, Next(core, s, events[0]), events[1..])
  }

  /** r is on the straight way from p to q. */
  ghost predicate OnTheWay(p: Point, q: Point, r: Point) {
    exists t: real :: 0.0 <= t <= 1.0 && r == At(p, q, t)
  }

  /** The core's jog limiter leaves the jog alone or shortens it. */
  ghost predicate CoreShortens(core: Core) {
    forall p: Point, q: Point :: OnTheWay(p, q, core.apply(q, p))
  }

  /** Zone 0 mirrors the guard's rectangle, as sync_zone0_from_atci leaves it. */
  predicate Synced(s: State) {
    s.zones != [] && s.zones[0] == s.guard
  }

  /** The keep-outs a jog is clipped against, one after the other: an active guard comes last, unless zone 0 has already
      done its work. */
  function Chain(s: State): seq<Zone> {
    if s.guardActive && !Synced(s) then s.zones + [s.guard] else s.zones
  }

  predicate InForce(s: State, z: Zone) {
    z in s.zones || (s.guardActive && z == s.guard)
  }

  /** The jogs the two hooks handle: any jog if all-depths keep-outs come first in the chain, level ones otherwise. */
  predicate JogFits(s: State, target: Point) {
    target[Z] == s.pos[Z] || PlanarFirst(Kinds(Chain(s)))
  }

  ghost predicate JogsFit(core: Core, s: State, events: seq<Event>)
    decreases |events|
  {
    events == [] || ((events[0].JogTo? ==> JogFits(s, events[0].target)) && JogsFit(core, Next(core, s, events[0]), events[1..]))
  }

  ghost predicate DeepOnTheWay(z: Zone, p: Point, q: Point) {
    exists t: real :: 0.0 <= t <= 1.0 && PointDeepInZone(z, At(p, q, t))
  }

  /** The jog stays put or crosses nothing in force that bans it. */
  ghost predicate JogSafe(core: Core, s: State, target: Point) {
    JogEnd(core, s, target) == s.pos || forall z :: InForce(s, z) && z.Bans(Jog) ==> !CrossesZone(z, s.pos, JogEnd(core, s, target))
  }

  /** The two implementations agree: once zone 0 mirrors the ATCi settings, a jog that the zone loop lets through
      reaches the hook behind the ATCi guard unchanged, and a non-tool-change move it accepts passes the guard too. */
  lemma AtciFallsThrough(core: Core, s: State, target: Point)
    requires Synced(s)
    ensures match JogThrough(s.zones, s.pos, target)
      case Blocked => true
      case Through(q) => JogEnd(core, s, target) == core.apply(q, s.pos)
    ensures MoveAllowed(s.zones, Gcode, s.pos, target) ==> Atci.GuardMove(s.guard, s.guardActive, s.pos, target)
  {
    var z := s.zones[0];
    assert z.Bans(Jog) && z.Bans(Gcode);
    var end := if CrossesZone(z, s.pos, target) && Enters(z.FullBox(), s.pos, target) then ClippedEnd(z, s.pos, target) else target;
    if Enters(z.FullBox(), s.pos, target) {
      ClippedClearsOwnZone(z, s.pos, target);
    }
    if !CrossesZone(z, s.pos, end) {
      StaysUncrossed(s.zones[1..], z, s.pos, end);
    }
  }

  /** In any state, mirrored or not, the two hooks together act as one loop over the chain, up to the core's limiter. */
  lemma HooksAreOneLoop(core: Core, s: State, target: Point)
    ensures match JogThrough(Chain(s), s.pos, target)
      case Blocked => JogEnd(core, s, target) == s.pos
      case Through(q) => JogEnd(core, s, target) == q || JogEnd(core, s, target) == core.apply(q, s.pos)
  {
    if Synced(s) {
      AtciFallsThrough(core, s, target);
    } else if s.guardActive {
      JogThroughConcat(s.zones, [s.guard], s.pos, target);
      assert [s.guard][1..] == [] && s.guard.Bans(Jog);
    }
  }

  lemma StationaryNotDeep(z: Zone, p: Point)
    requires !PointDeepInZone(z, p)
    ensures !DeepOnTheWay(z, p, p)
  {
    forall t: real | 0.0 <= t <= 1.0 ensures At(p, p, t) == p {
    }
  }

  lemma UncrossedNotDeep(z: Zone, p: Point, q: Point)
    requires !CrossesZone(z, p, q)
    ensures !DeepOnTheWay(z, p, q)
  {
    if t: real :| 0.0 <= t <= 1.0 && PointDeepInZone(z, At(p, q, t)) {
      DeepPointMeansCrossing(z, p, q, t);
    }
  }

  /** What the core's limiter makes of a move crosses nothing that the move itself did not. */
  lemma LimiterKeepsUncrossed(core: Core, z: Zone, pos: Point, q: Point)
    requires CoreShortens(core) && !CrossesZone(z, pos, q)
    ensures var r := core.apply(q, pos); r == pos || !CrossesZone(z, pos, r)
  {
    var r := core.apply(q, pos);
    assert OnTheWay(pos, q, r);
    var t: real :| 0.0 <= t <= 1.0 && r == At(pos, q, t);
    if t == 0.0 {
      assert At(pos, q, 0.0) == pos;
    } else if CrossesZone(z, pos, r) {
      assert ShortensOn(z.Dims(), pos, q, r, t);
      ShortenedCrosses(z.ShrunkBox(), pos, q, r, t);
    }
  }

  /** A jog with all hooks chained either stays put or travels clear of everything in force that bans jogging. */
  lemma ChainedJogIsClear(core: Core, s: State, target: Point)
    requires CoreShortens(core) && JogFits(s, target)
    ensures JogSafe(core, s, target)
  {
    JogIsClear(Chain(s), s.pos, target);
    HooksAreOneLoop(core, s, target);
    if JogThrough(Chain(s), s.pos, target).Through? {
      var q := JogThrough(Chain(s), s.pos, target).end;
      forall z | InForce(s, z) && z.Bans(Jog)
        ensures JogEnd(core, s, target) == s.pos || !CrossesZone(z, s.pos, JogEnd(core, s, target))
      {
        assert z in Chain(s);
        var i :| 0 <= i < |Chain(s)| && Chain(s)[i] == z;
        LimiterKeepsUncrossed(core, z, s.pos, q);
      }
    }
  }

  /** One event never takes the machine through the depth of anything in force that bans G-code and jogging, except while
      a tool-change macro moves it through a zone open to tool changes, or when it does not move at all. */
  lemma StepIsClear(core: Core, s: State, e: Event, z: Zone)
    requires CoreShortens(core) && (e.JogTo? ==> JogFits(s, e.target))
    requires InForce(s, z) && z.Bans(Gcode) && z.Bans(Jog)
    ensures var p := Next(core, s, e).pos;
      p == s.pos || !DeepOnTheWay(z, s.pos, p) || (e.Move? && s.tcMacroRunning && !z.Bans(Toolchange))
  {
    var p := Next(core, s, e).pos;
    if e.JogTo? {
      ChainedJogIsClear(core, s, e.target);
      if p != s.pos { UncrossedNotDeep(z, s.pos, p); }
    } else if e.Move? && p != s.pos && z.Bans(OpOf(s)) {
      if z in s.zones {
        var i :| 0 <= i < |s.zones| && s.zones[i] == z;
      }
      UncrossedNotDeep(z, s.pos, p);
    }
  }

  /** Safety of whole runs, whatever else happens to the tables and the guard meanwhile: as long as a zone that bans all
      operations is in force, no point travelled from a start that is not deep in it is deep in it. */
  lemma {:induction false} NeverDeep(core: Core, s: State, events: seq<Event>, z: Zone, k: nat)
    requires CoreShortens(core) && JogsFit(core, s, events) && k < |events|
    requires forall i :: 0 <= i <= k ==> InForce(Run(core, s, events)[i], z)
    requires z.Bans(Gcode) && z.Bans(Jog) && z.Bans(Toolchange) && !PointDeepInZone(z, s.pos)
    ensures var states := Run(core, s, events);
      !DeepOnTheWay(z, states[k].pos, states[k + 1].pos) && !PointDeepInZone(z, states[k + 1].pos)
    decreases |events|
  {
    var n := Next(core, s, events[0]);
    assert InForce(Run(core, s, events)[0], z);
    StepIsClear(core, s, events[0], z);
    StationaryNotDeep(z, s.pos);
    assert At(s.pos, n.pos, 1.0) == n.pos;
    assert !PointDeepInZone(z, n.pos);
    if k > 0 {
      assert forall i :: 0 <= i <= k - 1 ==> Run(core, n, events[1..])[i] == Run(core, s, events)[i + 1];
      NeverDeep(core, n, events[1..], z, k - 1);
    }
  }

  /** A zone open to tool changes only is entered to any depth only while a tool-change macro runs; outside one, each
      step of any run, from any start, either leaves the machine where it is or stays out of the depth of everything then
      in force that bans G-code and jogging. */
  lemma {:induction false} DeepOnlyInToolChange(core: Core, s: State, events: seq<Event>, z: Zone, k: nat)
    requires CoreShortens(core) && JogsFit(core, s, events) && k < |events|
    requires InForce(Run(core, s, events)[k], z) && z.Bans(Gcode) && z.Bans(Jog)
    ensures var states := Run(core, s, events);
      !states[k].tcMacroRunning ==>
        states[k + 1].pos == states[k].pos || !DeepOnTheWay(z, states[k].pos, states[k + 1].pos)
    decreases |events|
  {
    if k == 0 {
      StepIsClear(core, s, events[0], z);
    } else {
      DeepOnlyInToolChange(core, Next(core, s, events[0]), events[1..], z, k - 1);
    }
  }

  // ---------------------------------------------------------------------------------------------------------------
  // A guard that zone 0 does not mirror
  // ---------------------------------------------------------------------------------------------------------------

  const STALE: Guard := ZERO_ZONE.(flags := 0x0C)
  const MOVED: Guard := PLANAR.(flags := 0x0C)

  /** A table with one solid zone at i and zones of the given kinds that nothing crosses. */
  function SolidAt(kinds: seq<Kind>, i: nat): (zones: seq<Zone>)
    requires i < |kinds| && kinds[i] == Solid
    ensures Kinds(zones) == kinds
  {
    seq(|kinds|, k requires 0 <= k < |kinds| => if k == i then SOLID else Filler(kinds[k]))
  }

  /** The zone loop lets the jog through as requested, and the guard behind it cuts it short in X and Y only. */
  lemma GuardCutsShort(core: Core, zones: seq<Zone>)
    requires forall k :: 0 <= k < |zones| ==> zones[k] == SOLID || zones[k].xMax - zones[k].xMin < 2.0 * TOLERANCE
    ensures JogEnd(core, State(START, false, zones, MOVED, true), REQUEST) == CUT_SHORT
  {
    RequestMissesSolid();
    forall k | 0 <= k < |zones| ensures !CrossesZone(zones[k], START, REQUEST) && !PointDeepInZone(zones[k], START) {
      if zones[k] != SOLID { NarrowZoneNeverBlocks(zones[k], START, REQUEST); NarrowZoneNeverBlocks(zones[k], START, START); }
    }
    NothingMet(zones, START, REQUEST);
    PlanarCutsShort();
    assert MOVED.ShrunkBox() == PLANAR.ShrunkBox() && MOVED.FullBox() == PLANAR.FullBox();
  }

  lemma StaleGuardFails(core: Core, kinds: seq<Kind>, i: nat)
    requires i < |kinds| && kinds[i] == Solid
    ensures var s := State(START, false, SolidAt(kinds, i), MOVED, true); !Synced(s) && !JogSafe(core, s, REQUEST)
  {
    var zones := SolidAt(kinds, i);
    var s := State(START, false, zones, MOVED, true);
    GuardCutsShort(core, zones);
    CutShortCrossesSolid();
    assert zones[i] == SOLID && InForce(s, SOLID);
    assert zones[0] == SOLID || zones[0] == Filler(kinds[0]);
  }

  lemma UnlimitedShortens(core: Core)
    requires forall p: Point, q: Point :: core.apply(q, p) == q
    ensures CoreShortens(core)
  {
    forall p: Point, q: Point ensures OnTheWay(p, q, core.apply(q, p)) {
      assert At(p, q, 1.0) == q;
    }
  }

  lemma WrongChainFails(core: Core, kinds: seq<Kind>, i: nat, j: nat)
    requires i < j < |kinds| && kinds[i] == Solid && kinds[j] == Planar
    requires forall p: Point, q: Point :: core.apply(q, p) == q
    ensures var s := State(START, false, BadTable(kinds, i, j), STALE, false); Kinds(Chain(s)) == kinds && !JogSafe(core, s, REQUEST)
  {
    var zones := BadTable(kinds, i, j);
    var s := State(START, false, zones, STALE, false);
    WrongOrderFails(kinds, i, j);
    hide BadTable, JogThrough, CrossesZone, PlanarFirst;
    assert JogEnd(core, s, REQUEST) == CUT_SHORT;
    var k :| 0 <= k < |zones| && zones[k].Bans(Jog) && CrossesZone(zones[k], START, CUT_SHORT);
    assert InForce(s, zones[k]);
  }

  /** The condition on jogs is the right one: for every layout of the chain, the hooks are safe for all states and jogs
      exactly if all-depths keep-outs come first in it. */
  lemma ChainOrderIsExact(kinds: seq<Kind>)
    ensures PlanarFirst(kinds) <==>
      forall core: Core, s: State, target: Point :: CoreShortens(core) && Kinds(Chain(s)) == kinds ==> JogSafe(core, s, target)
  {
    hide JogSafe, CoreShortens, Kinds, Chain;
    if PlanarFirst(kinds) {
      forall core: Core, s: State, target: Point | CoreShortens(core) && Kinds(Chain(s)) == kinds ensures JogSafe(core, s, target) {
        ChainedJogIsClear(core, s, target);
      }
    } else {
      var i: nat, j: nat :| i < j < |kinds| && kinds[i] == Solid && kinds[j] == Planar;
      var core := Core((p, q) => true, (q, p) => q);
      UnlimitedShortens(core);
      WrongChainFails(core, kinds, i, j);
    }
  }

  /** While the guard is active and zone 0 does not mirror it, the hooks are safe for all tables of a layout and all jogs
      exactly if no zone of the layout that bans jogging has a Z range: the guard clips last, and keeps the requested Z. */
  lemma StaleGuardIsExact(kinds: seq<Kind>)
    ensures Solid !in kinds <==>
      forall core: Core, s: State, target: Point ::
        CoreShortens(core) && Kinds(s.zones) == kinds && s.guardActive && !Synced(s) ==> JogSafe(core, s, target)
  {
    if Solid !in kinds {
      forall core: Core, s: State, target: Point | CoreShortens(core) && Kinds(s.zones) == kinds && s.guardActive && !Synced(s)
        ensures JogSafe(core, s, target)
      {
        assert Solid !in Kinds(Chain(s)) by {
          assert Kinds(Chain(s)) == kinds + [KindOf(s.guard)];
        }
        ChainedJogIsClear(core, s, target);
      }
    } else {
      var i: nat :| i < |kinds| && kinds[i] == Solid;
      var core := Core((p, q) => true, (q, p) => q);
      UnlimitedShortens(core);
      StaleGuardFails(core, kinds, i);
    }
  }

  /** And it happens: from a mirrored table in safe order, giving the guard a new rectangle makes the very next jog pass
      through the depth of a zone that bans everything. */
  lemma NewRectangleFails(core: Core)
    ensures var s := State(START, false, [STALE, SOLID], STALE, true);
      var states := Run(core, s, [SetGuard(MOVED), JogTo(REQUEST)]);
      && Synced(s) && PlanarFirst(Kinds(s.zones)) && !PointDeepInZone(SOLID, START)
      && SOLID in states[1].zones && DeepOnTheWay(SOLID, states[1].pos, states[2].pos)
  {
    var s := State(START, false, [STALE, SOLID], STALE, true);
    var events := [SetGuard(MOVED), JogTo(REQUEST)];
    var t := s.(guard := MOVED);
    assert Next(core, s, events[0]) == t && events[1..] == [JogTo(REQUEST)] && events[1..][1..] == [];
    GuardCutsShort(core, t.zones);
    assert Run(core, t, events[1..]) == [t] + Run(core, t.(pos := CUT_SHORT), []);
    assert Run(core, s, events) == [s] + Run(core, t, events[1..]);
    assert PointDeepInZone(SOLID, At(START, CUT_SHORT, 0.25));
  }
}
