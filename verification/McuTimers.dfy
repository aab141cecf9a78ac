/** The simulated microcontroller's prescaled reload timers, advanced once per master clock. */
module McuTimers {
  import opened Arithmetic

  const N_TIMERS: nat := 3

  /** Prescaler 0 means no prescaling. */
  datatype Timer = Timer(enable: bool, irqEnable: bool, value: nat, load: nat, prescale: nat, prescaler: nat)

  /** The count-down itself: reload from zero, else count and reload on reaching zero, raising an interrupt if allowed. */
  function Count(t: Timer, irq: bool): (Timer, nat) {
    if t.value == 0 then (t.(value := t.load), 0)
    else if t.value == 1 then (t.(value := t.load), if t.irqEnable && irq then 1 else 0)
    else (t.(value := t.value - 1), 0)
  }

  /** One master clock: the new timer and the number of interrupts it raised. */
  function Clock(t: Timer, irq: bool): (Timer, nat) {
    if !t.enable then (t, 0)
    else if t.prescaler == 0 then Count(t, irq)
    else if t.prescale > 1 then (t.(prescale := t.prescale - 1), 0)
    else Count(t.(prescale := t.prescaler), irq)
  }

  /** The timer and the interrupts raised after n clocks with interrupts enabled. */
  function Clocks(t: Timer, n: nat): (Timer, nat) {
    if n == 0 then (t, 0)
    else
      var (u, fired) := Clocks(t, n - 1);
      var (v, more) := Clock(u, true);
      (v, fired + more)
  }

  /** The tick timer counts as a timer without prescaler. */
  function Unscaled(t: Timer): Timer {
    t.(prescaler := 0)
  }

  /** Started from zero with something to load and free to interrupt. */
  predicate Started(t: Timer) {
    t.enable && t.irqEnable && t.value == 0 && t.prescale == 0 && t.load >= 1
  }

  class Mcu {
    var booted: bool
    var irqEnable: bool
    const timers: array<Timer>
    var systick: Timer
    const fired: array<nat> // calls of each timer's interrupt handler
    var systickFired: nat

    ghost predicate Valid()
      reads this
    {
      timers.Length == N_TIMERS && fired.Length == N_TIMERS
    }

    constructor ()
      ensures Valid() && booted && irqEnable && fresh(timers) && fresh(fired)
      ensures forall i :: 0 <= i < N_TIMERS ==> timers[i] == Timer(false, false, 0, 0, 0, 0) && fired[i] == 0
    {
      booted, irqEnable, systickFired := true, true, 0;
      timers := new Timer[N_TIMERS](_ => Timer(false, false, 0, 0, 0, 0));
      fired := new nat[N_TIMERS](_ => 0);
      systick := Timer(false, false, 0, 0, 0, 0);
    }

    /** The body of the timer loop, for one timer. */
    method ClockTimer(i: nat)
      requires Valid() && i < N_TIMERS
      modifies timers, fired
      ensures timers[..] == old(timers[..])[i := Clock(old(timers[i]), irqEnable).0]
      ensures fired[..] == old(fired[..])[i := old(fired[i]) + Clock(old(timers[i]), irqEnable).1]
    {
      if timers[i].enable {
        if timers[i].prescaler != 0 {
          if timers[i].prescale == 0 {
            timers[i] := timers[i].(prescale := timers[i].prescaler);
          } else {
            timers[i] := timers[i].(prescale := timers[i].prescale - 1);
            if timers[i].prescale != 0 { return; }
            timers[i] := timers[i].(prescale := timers[i].prescaler);
          }
        }
        if timers[i].value == 0 {
          timers[i] := timers[i].(value := timers[i].load);
        } else {
          timers[i] := timers[i].(value := timers[i].value - 1);
          if timers[i].value == 0 {
            if timers[i].irqEnable && irqEnable {
              fired[i] := fired[i] + 1;
            }
            timers[i] := timers[i].(value := timers[i].load);
          }
        }
      }
    }

    method ClockSystick()
      modifies this`systick, this`systickFired
      ensures var (s, n) := Clock(Unscaled(old(systick)), irqEnable);
        systick == s.(prescaler := old(systick).prescaler) && systickFired == old(systickFired) + n
    {
      if systick.enable {
        if systick.value == 0 {
          systick := systick.(value := systick.load);
        } else {
          systick := systick.(value := systick.value - 1);
          if systick.value == 0 {
            if systick.irqEnable && irqEnable {
              systickFired := systickFired + 1;
            }
            systick := systick.(value := systick.load);
          }
        }
      }
    }

    /** Advance every timer by one clock. */
    method MasterClock()
      requires Valid()
      modifies this`systick, this`systickFired, timers, fired
      ensures Valid()
      ensures !booted ==> timers[..] == old(timers[..]) && fired[..] == old(fired[..]) && systick == old(systick)
      ensures booted ==> forall i :: 0 <= i < N_TIMERS ==>
        timers[i] == Clock(old(timers[i]), irqEnable).0 && fired[i] == old(fired[i]) + Clock(old(timers[i]), irqEnable).1
      ensures booted ==> var (s, n) := Clock(Unscaled(old(systick)), irqEnable);
        systick == s.(prescaler := old(systick).prescaler) && systickFired == old(systickFired) + n
    {
      hide Clock;
      if !booted { return; }
      for i := 0 to N_TIMERS
        modifies timers, fired
        invariant forall j :: i <= j < N_TIMERS ==> timers[j] == old(timers[j]) && fired[j] == old(fired[j])
        invariant forall j :: 0 <= j < i ==>
          timers[j] == Clock(old(timers[j]), irqEnable).0 && fired[j] == old(fired[j]) + Clock(old(timers[j]), irqEnable).1
      {
        ghost var t, f := timers[..], fired[..];
        ClockTimer(i);
        assert forall j :: 0 <= j < N_TIMERS && j != i ==> timers[..][j] == t[j] && fired[..][j] == f[j];
        assert timers[..][i] == Clock(t[i], irqEnable).0 && fired[..][i] == f[i] + Clock(t[i], irqEnable).1;
      }
      ClockSystick();
    }
  }

  function Period(t: Timer): (p: nat)
    ensures 0 < p
  {
    if t.prescaler == 0 then 1 else t.prescaler
  }

  /** A running timer that has counted c of its load, r clocks into the current prescaler period. */
  function Running(t: Timer, c: nat, r: nat): Timer
    requires c <= t.load && r < Period(t)
  {
    t.(value := t.load - c, prescale := if t.prescaler == 0 then 0 else t.prescaler - r)
  }

  lemma ClockRunning(t: Timer, c: nat, r: nat)
    requires t.enable && t.irqEnable && c < t.load && r < Period(t)
    ensures Clock(Running(t, c, r), true) ==
      if r + 1 < Period(t) then (Running(t, c, r + 1), 0)
      else if c + 1 < t.load then (Running(t, c + 1, 0), 0)
      else (Running(t, 0, 0), 1)
  {
  }

  /** Where a started timer stands m + 1 clocks after its start: k whole prescaler periods have passed, in which it has
      counted its load down f times. */
  lemma {:induction false} TimerState(t: Timer, m: nat) returns (k: nat, r: nat, f: nat, c: nat)
    requires Started(t)
    ensures m == k * Period(t) + r && r < Period(t) && k == f * t.load + c && c < t.load
    ensures Clocks(t, m + 1) == (Running(t, c, r), f)
  {
    hide Clock;
    if m == 0 {
      k, r, f, c := 0, 0, 0, 0;
      assert Clocks(t, 0) == (t, 0);
      StartClock(t);
    } else {
      k, r, f, c := TimerState(t, m - 1);
      ClockRunning(t, c, r);
      if r + 1 < Period(t) {
        r := r + 1;
      } else if c + 1 < t.load {
        k, r, c := k + 1, 0, c + 1;
      } else {
        k, r, f, c := k + 1, 0, f + 1, 0;
      }
    }
  }

  lemma StartClock(t: Timer)
    requires t.enable && t.value == 0 && t.prescale == 0
    ensures Clock(t, true) == (Running(t, 0, 0), 0)
  {
  }

  lemma NestedCount(m: nat, p: nat, l: nat, k: nat, r: nat, f: nat, c: nat)
    requires m == k * p + r && r < p && k == f * l + c && c < l
    ensures 0 < p * l && m / (p * l) == f
  {
    assert k * p == (f * l + c) * p == f * (p * l) + c * p;
    TimesMonotone(c, l - 1, p);
    assert (l - 1) * p == p * l - p;
    TimesMonotone(1, l, p);
    DivisionIsUnique(m, p * l, f, c * p + r);
  }

  /** Closed form: after n >= 1 clocks from a cold start the handler has run floor((n - 1) / (prescaler * load)) times. */
  lemma FiringCount(t: Timer, n: nat)
    requires Started(t) && n >= 1
    ensures 0 < Period(t) * t.load && Clocks(t, n).1 == (n - 1) / (Period(t) * t.load)
  {
    var k, r, f, c := TimerState(t, n - 1);
    NestedCount(n - 1, Period(t), t.load, k, r, f, c);
  }

  /** A timer that is disabled, or has nothing to load, or may not interrupt, never fires. */
  lemma {:induction false} NeverFires(t: Timer, n: nat)
    requires !t.enable || !t.irqEnable || (t.load == 0 && t.value == 0)
    ensures var (u, fired) := Clocks(t, n);
      fired == 0 && u.enable == t.enable && u.irqEnable == t.irqEnable && u.load == t.load && (t.load == 0 && t.value == 0 ==> u.value == 0)
  {
    if n > 0 { NeverFires(t, n - 1); }
  }

  lemma OneMoreClock(t: Timer, n: nat)
    ensures var (u, fired) := Clocks(t, n); var (v, more) := Clock(u, true); Clocks(t, n + 1) == (v, fired + more)
    ensures Clocks(t, 0) == (t, 0)
  {
    hide Clock;
  }

  lemma ClockKeepsPrescaler(t: Timer, irq: bool)
    ensures Clock(t, irq).0.prescaler == t.prescaler
  {
  }

  /** The main loop's clocks: n of them, without anything reprogramming the timers meanwhile. Timers started before fire
      floor((n - 1) / (prescaler * load)) times, the tick timer floor((n - 1) / load) times. */
  method RunClocks(mcu: Mcu, n: nat)
    requires mcu.Valid() && mcu.booted && mcu.irqEnable
    modifies mcu`systick, mcu`systickFired, mcu.timers, mcu.fired
    ensures mcu.Valid()
    ensures forall i :: 0 <= i < N_TIMERS ==>
      mcu.timers[i] == Clocks(old(mcu.timers[i]), n).0 && mcu.fired[i] == old(mcu.fired[i]) + Clocks(old(mcu.timers[i]), n).1
    ensures Unscaled(mcu.systick) == Clocks(Unscaled(old(mcu.systick)), n).0
    ensures mcu.systickFired == old(mcu.systickFired) + Clocks(Unscaled(old(mcu.systick)), n).1
    ensures forall i :: 0 <= i < N_TIMERS && Started(old(mcu.timers[i])) && n >= 1 ==>
      0 < Period(old(mcu.timers[i])) * old(mcu.timers[i]).load
      && mcu.fired[i] == old(mcu.fired[i]) + (n - 1) / (Period(old(mcu.timers[i])) * old(mcu.timers[i]).load)
    ensures Started(old(mcu.systick)) && n >= 1 ==> mcu.systickFired == old(mcu.systickFired) + (n - 1) / old(mcu.systick).load
  {
    hide Clock, Clocks;
    ghost var timers, fired := mcu.timers[..], mcu.fired[..];
    ghost var tick := Unscaled(mcu.systick);
    OneMoreClock(tick, 0);
    forall i | 0 <= i < N_TIMERS ensures Clocks(timers[i], 0) == (timers[i], 0) { OneMoreClock(timers[i], 0); }
    for k := 0 to n
      invariant mcu.Valid()
      invariant forall i :: 0 <= i < N_TIMERS ==>
        mcu.timers[i] == Clocks(timers[i], k).0 && mcu.fired[i] == fired[i] + Clocks(timers[i], k).1
      invariant Unscaled(mcu.systick) == Clocks(tick, k).0 && mcu.systickFired == old(mcu.systickFired) + Clocks(tick, k).1
    {
      OneMoreClock(tick, k);
      ClockKeepsPrescaler(Unscaled(mcu.systick), true);
      forall i | 0 <= i < N_TIMERS
        ensures Clocks(timers[i], k + 1) == (Clock(mcu.timers[i], true).0, Clocks(timers[i], k).1 + Clock(mcu.timers[i], true).1)
      {
        OneMoreClock(timers[i], k);
      }
      mcu.MasterClock();
    }
    forall i | 0 <= i < N_TIMERS && Started(timers[i]) && n >= 1
      ensures 0 < Period(timers[i]) * timers[i].load && Clocks(timers[i], n).1 == (n - 1) / (Period(timers[i]) * timers[i].load)
    {
      FiringCount(timers[i], n);
    }
    if Started(tick) && n >= 1 {
      FiringCount(tick, n);
    }
  }

  /** With interrupts disabled the timers count on just the same, but nothing fires. */
  lemma MaskedClock(t: Timer)
    ensures Clock(t, false) == (Clock(t, true).0, 0)
  {
  }
}
