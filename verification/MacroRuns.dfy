/** The macro stack machine, fed line by line from the current stream, against what macro calls mean:
    run the called body as often as asked, then go on after the call. */
module MacroRuns {
  import opened Macros
  import opened Options
  import opened Sequences

  type Trace = seq<string>

  // ---------------------------------------------------------------------------------------------------------------
  // Meaning
  // ---------------------------------------------------------------------------------------------------------------

  /** Where a call from a line of `at` leads: to another place in that stream, or to the start of a macro file; None if
      there is no such macro. */
  function Resolve(lib: Library, at: Stream, id: nat, local: bool): Option<Stream> {
    if id < 100 then None
    else if local && lib.localPos(at.file, id) != 0 then Some(at.(pos := lib.localPos(at.file, id)))
    else if id in lib.files then Some(Stream(id, 0, true))
    else None
  }

  /** A repeat count as the 32-bit counter sees it: 0 wraps around to the full range. */
  function Times(repeats: nat): (n: nat)
    ensures if repeats == 0 then n == 0x1_0000_0000 else n == repeats
  {
    if repeats == 0 then WORD else repeats
  }

  function Repeated(t: Trace, n: nat): Trace {
    if n == 0 then [] else t + Repeated(t, n - 1)
  }

  /** The plain lines executed by a body that starts where `at` stands, with room for `depth` further nested calls; None
      if a call cannot be made. A return line ends a body; so does the end of a file that a macro call opened, and, with no
      call pending, the end of the main program. Running off the end of the main program inside a call is an error. */
  function Body(lib: Library, at: Stream, depth: nat): Option<Trace>
    decreases depth, |lib.Lines(at.file)| - at.pos, 1
  {
    var lines := lib.Lines(at.file);
    if at.pos >= |lines| then if at.ours || depth == STACK_DEPTH then Some([]) else None
    else if lines[at.pos].Return? then Some([])
    else
      var line := LineTrace(lib, at, depth);
      var rest := Body(lib, at.(pos := at.pos + 1), depth);
      if line.None? || rest.None? then None else Some(line.value + rest.value)
  }

  function LineTrace(lib: Library, at: Stream, depth: nat): Option<Trace>
    requires at.pos < |lib.Lines(at.file)|
    decreases depth, |lib.Lines(at.file)| - at.pos, 0
  {
    match lib.Lines(at.file)[at.pos]
    case Return => Some([])
    case Plain(text) => Some([text])
    case Call(id, repeats, local) =>
      var target := Resolve(lib, at, id, local);
      if depth == 0 || target.None? then None
      else
        var callee := Body(lib, target.value, depth - 1);
        if callee.None? then None else Some(Repeated(callee.value, Times(repeats)))
  }

  // ---------------------------------------------------------------------------------------------------------------
  // Machine
  // ---------------------------------------------------------------------------------------------------------------

  /** `halted` covers everything outside error-free macro execution: a rejected call, or a return or end of stream that is
      not the plugin's. */
  datatype Machine = Machine(s: State, trace: Trace, halted: bool)

  function TopStream(s: State): Stream
    requires s.streams != []
  {
    s.streams[|s.streams| - 1]
  }

  function At(s: State, pos: nat): State
    requires s.streams != []
  {
    s.(streams := Seek(s.streams, |s.streams|, pos))
  }

  /** Read and act on one line of the current stream, or on its end. */
  function Step(lib: Library, m: Machine): Machine {
    if m.halted || m.s.streams == [] then m.(halted := true)
    else
      var top := TopStream(m.s);
      var lines := lib.Lines(top.file);
      if top.pos >= |lines| then
        if top.ours && m.s.stack != [] && Top(m.s).handle == |m.s.streams| then m.(s := Ended(m.s, false).0) else m.(halted := true)
      else
        var s := At(m.s, top.pos + 1);
        match lines[top.pos]
        case Plain(text) => Machine(s, m.trace + [text], false)
        case Return => if s.stack != [] && s.hook == MacroExitHook then m.(s := Ended(s, false).0) else m.(halted := true)
        case Call(id, repeats, local) =>
          var (t, status) := Executed(lib, s, id, repeats, local, false, Unhandled);
          if status == Handled then m.(s := t) else m.(halted := true)
  }

  function Steps(lib: Library, m: Machine, n: nat): Machine
    decreases n
  {
    if n == 0 then m else Steps(lib, Step(lib, m), n - 1)
  }

  lemma {:induction false} StepsAdd(lib: Library, m: Machine, a: nat, b: nat)
    ensures Steps(lib, m, a + b) == Steps(lib, Steps(lib, m, a), b)
    decreases a
  {
    if a > 0 { StepsAdd(lib, Step(lib, m), a - 1, b); }
  }

  // ---------------------------------------------------------------------------------------------------------------
  // The machine does what calls mean
  // ---------------------------------------------------------------------------------------------------------------

  /** The place at or after `pos` where a body ends: a return line or the end of the file. */
  function EndOf(lib: Library, file: nat, pos: nat): (e: nat)
    ensures pos <= e
    decreases |lib.Lines(file)| - pos
  {
    var lines := lib.Lines(file);
    if pos >= |lines| || lines[pos].Return? then pos else EndOf(lib, file, pos + 1)
  }

  /** A call is being executed: its entry is on top and reads the topmost stream. */
  predicate InCall(s: State) {
    && s.streams != [] && s.stack != [] && |s.stack| <= STACK_DEPTH && s.hook == MacroExitHook
    && Top(s).handle == |s.streams| && (Top(s).posReturn == 0 ==> |s.streams| >= 2 && Top(s).pos == 0)
  }

  /** The state a completed call leaves: the entry gone, its file closed or the calling file back where it was. */
  function Returned(s: State): State
    requires InCall(s)
  {
    if Top(s).posReturn != 0 then Dropped(s, Seek(s.streams, |s.streams|, Top(s).posReturn))
    else Dropped(s, s.streams[..|s.streams| - 1])
  }

  lemma AtTwice(s: State, p: nat, q: nat)
    requires s.streams != []
    ensures At(At(s, p), q) == At(s, q)
    ensures InCall(s) ==> InCall(At(s, p)) && Returned(At(s, p)) == Returned(s)
  {
    assert Seek(Seek(s.streams, |s.streams|, p), |s.streams|, q) == Seek(s.streams, |s.streams|, q);
    if InCall(s) {
      assert Seek(s.streams, |s.streams|, p)[..|s.streams| - 1] == s.streams[..|s.streams| - 1];
    }
  }

  /** At the end of a body the machine either starts it over with one repetition fewer, or returns. */
  lemma EndStep(lib: Library, m: Machine)
    requires !m.halted && InCall(m.s)
    requires var top := TopStream(m.s); EndOf(lib, top.file, top.pos) == top.pos && (top.pos >= |lib.Lines(top.file)| ==> top.ours)
    ensures var e := Top(m.s); var left := Decrement(e.repeats);
      Step(lib, m) == m.(s := if left == 0 then Returned(m.s)
                              else At(m.s, e.pos).(stack := m.s.stack[|m.s.stack| - 1 := e.(repeats := left)]))
  {
    var top := TopStream(m.s);
    AtTwice(m.s, top.pos + 1, Top(m.s).pos);
    AtTwice(m.s, top.pos + 1, Top(m.s).posReturn);
    assert Seek(m.s.streams, |m.s.streams|, top.pos + 1)[..|m.s.streams| - 1] == m.s.streams[..|m.s.streams| - 1];
  }

  /** Reading a body from its current place to its end produces its trace and changes nothing else. */
  lemma {:induction false} RunBody(lib: Library, m: Machine, depth: nat) returns (n: nat)
    requires !m.halted && InCall(m.s) && |m.s.stack| + depth == STACK_DEPTH
    requires Body(lib, TopStream(m.s), depth).Some?
    ensures var top := TopStream(m.s);
      Steps(lib, m, n) == Machine(At(m.s, EndOf(lib, top.file, top.pos)), m.trace + Body(lib, top, depth).value, false)
    decreases depth, 0, |lib.Lines(TopStream(m.s).file)| - TopStream(m.s).pos
  {
    hide Step, Steps, LineTrace, Seek;
    var top := TopStream(m.s);
    var lines := lib.Lines(top.file);
    if top.pos >= |lines| || lines[top.pos].Return? {
      n := 0;
      NoSteps(lib, m);
    } else {
      var next, k := OneLine(lib, m, depth);
      AtIsInCall(m.s, top.pos + 1);
      var r := RunBody(lib, next, depth);
      AtTwice(m.s, top.pos + 1, EndOf(lib, top.file, top.pos));
      n := k + r;
      StepsAdd(lib, m, k, r);
      AppendTwice(m.trace, LineTrace(lib, top, depth).value, Body(lib, top.(pos := top.pos + 1), depth).value);
    }
  }

  lemma NoSteps(lib: Library, m: Machine)
    requires m.s.streams != []
    ensures Steps(lib, m, 0) == m && At(m.s, TopStream(m.s).pos) == m.s && m.trace + [] == m.trace
  {
  }

  lemma AtIsInCall(s: State, pos: nat)
    requires InCall(s)
    ensures InCall(At(s, pos)) && TopStream(At(s, pos)) == TopStream(s).(pos := pos) && At(s, pos).stack == s.stack
  {
  }

  lemma SingleStep(lib: Library, m: Machine)
    ensures Steps(lib, m, 1) == Step(lib, m)
  {
    assert Steps(lib, m, 1) == Steps(lib, Step(lib, m), 0);
  }

  /** One line of a body, a call counting as one line. */
  lemma {:induction false} OneLine(lib: Library, m: Machine, depth: nat) returns (next: Machine, n: nat)
    requires !m.halted && m.s.streams != [] && |m.s.stack| + depth == STACK_DEPTH
    requires m.s.stack == [] ==> m.s.savedHook == NoHook
    requires m.s.stack != [] ==> m.s.hook == MacroExitHook
    requires var top := TopStream(m.s);
      && top.pos < |lib.Lines(top.file)| && !lib.Lines(top.file)[top.pos].Return?
      && LineTrace(lib, top, depth).Some?
    ensures Steps(lib, m, n) == next && !next.halted && next.s == At(m.s, TopStream(m.s).pos + 1)
    ensures var top := TopStream(m.s); next.trace == m.trace + LineTrace(lib, top, depth).value
    decreases depth, 0, 0
  {
    hide Step, Steps, Executed, Returned, Seek, Body;
    var top := TopStream(m.s);
    next := Step(lib, m);
    SingleStep(lib, m);
    n := 1;
    if lib.Lines(top.file)[top.pos].Plain? {
      PlainStep(lib, m);
    } else {
      CallStep(lib, m);
      var k := RunRepeats(lib, next, depth - 1);
      n := 1 + k;
      StepsAdd(lib, m, 1, k);
      next := Steps(lib, next, k);
    }
  }

  lemma PlainStep(lib: Library, m: Machine)
    requires !m.halted && m.s.streams != []
    requires var top := TopStream(m.s); top.pos < |lib.Lines(top.file)| && lib.Lines(top.file)[top.pos].Plain?
    ensures var top := TopStream(m.s);
      Step(lib, m) == Machine(At(m.s, top.pos + 1), m.trace + [lib.Lines(top.file)[top.pos].text], false)
  {
  }

  /** Reading a call enters its body; returning from it leads back to just after the calling line. */
  lemma CallStep(lib: Library, m: Machine)
    requires !m.halted && m.s.streams != [] && |m.s.stack| < STACK_DEPTH
    requires if m.s.stack == [] then m.s.savedHook == NoHook else m.s.hook == MacroExitHook
    requires var top := TopStream(m.s);
      && top.pos < |lib.Lines(top.file)| && lib.Lines(top.file)[top.pos].Call?
      && var c := lib.Lines(top.file)[top.pos]; Resolve(lib, top, c.id, c.local).Some?
    ensures var top := TopStream(m.s);
      var c := lib.Lines(top.file)[top.pos];
      var target := Resolve(lib, top, c.id, c.local).value;
      var next := Step(lib, m);
      && !next.halted && next.trace == m.trace && InCall(next.s) && |next.s.stack| == |m.s.stack| + 1
      && TopStream(next.s) == target && Top(next.s).pos == target.pos && Top(next.s).repeats == c.repeats
      && Returned(next.s) == At(m.s, top.pos + 1)
  {
    var top := TopStream(m.s);
    var c := lib.Lines(top.file)[top.pos];
    CallEnters(lib, At(m.s, top.pos + 1), c.id, c.repeats, c.local);
    hide Executed, Returned, InCall, Resolve;
  }

  /** A call that leads nowhere, or one call too many, stops the machine on its line with everything as it was. */
  lemma CallRefused(lib: Library, m: Machine)
    requires !m.halted && m.s.streams != [] && |m.s.stack| <= STACK_DEPTH
    requires var top := TopStream(m.s); top.pos < |lib.Lines(top.file)| && lib.Lines(top.file)[top.pos].Call?
    ensures var top := TopStream(m.s);
      var c := lib.Lines(top.file)[top.pos];
      Step(lib, m).halted <==> Resolve(lib, top, c.id, c.local).None? || |m.s.stack| == STACK_DEPTH
    ensures Step(lib, m).halted ==> Step(lib, m) == m.(halted := true)
  {
    hide Seek, Pushed;
    AtTop(m.s, TopStream(m.s).pos + 1);
  }

  /** Ids below 100 belong to the handler installed before, whose answer is passed on; nothing else happens. */
  lemma EarlierHandlerAnswers(lib: Library, s: State, id: nat, repeats: nat, local: bool, checkMode: bool, prev: Status)
    requires s.streams != [] && id < 100
    ensures Executed(lib, s, id, repeats, local, checkMode, prev) == (s, prev)
    ensures Resolve(lib, TopStream(s), id, local) == None
  {
  }

  /** An accepted call stands at the start of its body, and returning from it leads back to just after the calling line. */
  lemma CallEnters(lib: Library, s: State, id: nat, repeats: nat, local: bool)
    requires s.streams != [] && TopStream(s).pos != 0 && |s.stack| < STACK_DEPTH
    requires if s.stack == [] then s.savedHook == NoHook else s.hook == MacroExitHook
    requires Resolve(lib, TopStream(s), id, local).Some?
    ensures var target := Resolve(lib, TopStream(s), id, local).value;
      var (t, status) := Executed(lib, s, id, repeats, local, false, Unhandled);
      && status == Handled && InCall(t) && |t.stack| == |s.stack| + 1
      && TopStream(t) == target && Top(t).pos == target.pos && Top(t).repeats == repeats
      && Returned(t) == s
  {
    hide Seek, Returned, Pushed, Dropped;
    if local && lib.localPos(TopStream(s).file, id) != 0 {
      LocalEnters(s, Entry(id, repeats, |s.streams|, lib.localPos(TopStream(s).file, id), TopStream(s).pos));
    } else {
      FileEnters(s, Entry(id, repeats, |s.streams| + 1, 0, 0), Stream(id, 0, true));
    }
  }

  lemma LocalEnters(s: State, e: Entry)
    requires s.streams != [] && (s.stack == [] ==> s.savedHook == NoHook) && (s.stack != [] ==> s.hook == MacroExitHook)
    requires |s.stack| < STACK_DEPTH && e.handle == |s.streams| && e.posReturn == TopStream(s).pos != 0
    ensures var t := Pushed(s, e).(streams := Seek(s.streams, |s.streams|, e.pos));
      InCall(t) && |t.stack| == |s.stack| + 1 && TopStream(t) == TopStream(s).(pos := e.pos) && Top(t) == e && Returned(t) == s
  {
    var t := Pushed(s, e).(streams := Seek(s.streams, |s.streams|, e.pos));
    assert t.stack[..|t.stack| - 1] == s.stack;
    assert Seek(t.streams, |s.streams|, TopStream(s).pos) == s.streams;
  }

  lemma FileEnters(s: State, e: Entry, x: Stream)
    requires s.streams != [] && (s.stack == [] ==> s.savedHook == NoHook) && (s.stack != [] ==> s.hook == MacroExitHook)
    requires |s.stack| < STACK_DEPTH && e.handle == |s.streams| + 1 && e.posReturn == 0 && e.pos == 0
    ensures var t := Pushed(s.(streams := s.streams + [x]), e);
      InCall(t) && |t.stack| == |s.stack| + 1 && TopStream(t) == x && Top(t) == e && Returned(t) == s
  {
    var t := Pushed(s.(streams := s.streams + [x]), e);
    assert t.stack[..|t.stack| - 1] == s.stack;
    assert t.streams[..|t.streams| - 1] == s.streams;
  }

  /** From the start of its body, a call runs it as often as asked and returns. */
  lemma {:induction false} RunRepeats(lib: Library, m: Machine, depth: nat) returns (n: nat)
    requires !m.halted && InCall(m.s) && |m.s.stack| + depth == STACK_DEPTH && TopStream(m.s).pos == Top(m.s).pos
    requires Body(lib, TopStream(m.s), depth).Some?
    ensures var top := TopStream(m.s);
      Steps(lib, m, n) == Machine(Returned(m.s),
        m.trace + Repeated(Body(lib, top, depth).value, Times(Top(m.s).repeats)), false)
    decreases depth, Times(Top(m.s).repeats), 0
  {
    hide Step, Steps, LineTrace, Seek, Returned, Body, EndOf;
    var top, e := TopStream(m.s), Top(m.s);
    var b := Body(lib, top, depth).value;
    var end := EndOf(lib, top.file, top.pos);
    var k := RunBody(lib, m, depth);
    var ended := Steps(lib, m, k);
    AtTwice(m.s, end, e.pos);
    AtIsInCall(m.s, end);
    EndOfEnd(lib, top.file, top.pos);
    EndIsOurs(lib, top, depth);
    EndStep(lib, ended);
    SingleStep(lib, ended);
    StepsAdd(lib, m, k, 1);
    var left := Decrement(e.repeats);
    n := k + 1;
    if left != 0 {
      RerunSame(m.s, e.(repeats := left), end);
      var r := RunRepeats(lib, Step(lib, ended), depth);
      n := k + 1 + r;
      StepsAdd(lib, m, k + 1, r);
      AppendTwice(m.trace, b, Repeated(b, Times(left)));
    } else {
      assert Repeated(b, 1) == b + Repeated(b, 0) == b;
    }
  }

  lemma EndOfEnd(lib: Library, file: nat, pos: nat)
    ensures EndOf(lib, file, EndOf(lib, file, pos)) == EndOf(lib, file, pos)
    decreases |lib.Lines(file)| - pos
  {
    var lines := lib.Lines(file);
    if !(pos >= |lines| || lines[pos].Return?) {
      EndOfEnd(lib, file, pos + 1);
    }
  }

  /** A body within a call does not run off the end of the main program. */
  lemma {:induction false} EndIsOurs(lib: Library, at: Stream, depth: nat)
    requires Body(lib, at, depth).Some? && depth != STACK_DEPTH
    ensures EndOf(lib, at.file, at.pos) >= |lib.Lines(at.file)| ==> at.ours
    decreases |lib.Lines(at.file)| - at.pos
  {
    hide LineTrace;
    var lines := lib.Lines(at.file);
    if !(at.pos >= |lines| || lines[at.pos].Return?) {
      EndIsOurs(lib, at.(pos := at.pos + 1), depth);
    }
  }

  /** Starting a body over with another repeat count changes nothing about where its call returns to. */
  lemma RerunSame(s: State, e: Entry, end: nat)
    requires InCall(s) && e.handle == Top(s).handle && e.pos == Top(s).pos && e.posReturn == Top(s).posReturn
    requires TopStream(s).pos == e.pos
    ensures var t := At(At(s, end), e.pos).(stack := s.stack[|s.stack| - 1 := e]);
      InCall(t) && Returned(t) == Returned(s) && TopStream(t) == TopStream(s)
  {
    AtTwice(s, end, e.pos);
    assert At(s, e.pos) == s;
    assert s.stack[|s.stack| - 1 := e][..|s.stack| - 1] == s.stack[..|s.stack| - 1];
  }

  /** Refinement: a call met in any linked state, from the main program or from a macro, makes the machine produce exactly
      the trace of its body, as many times as asked, and come back to just after the call with everything else, including
      the hook, as it was, provided the nesting stays within the stack and every macro called exists. */
  lemma CallRefines(lib: Library, m: Machine) returns (n: nat)
    requires !m.halted && Linked(m.s)
    requires var top := TopStream(m.s);
      && top.pos < |lib.Lines(top.file)| && lib.Lines(top.file)[top.pos].Call?
      && |m.s.stack| < STACK_DEPTH
      && var c := lib.Lines(top.file)[top.pos];
         var t := Resolve(lib, top, c.id, c.local);
         t.Some? && Body(lib, t.value, STACK_DEPTH - |m.s.stack| - 1).Some?
    ensures var top := TopStream(m.s);
      var c := lib.Lines(top.file)[top.pos];
      var t := Resolve(lib, top, c.id, c.local).value;
      Steps(lib, m, n) == Machine(At(m.s, top.pos + 1),
        m.trace + Repeated(Body(lib, t, STACK_DEPTH - |m.s.stack| - 1).value, Times(c.repeats)), false)
  {
    var depth := STACK_DEPTH - |m.s.stack|;
    assert LineTrace(lib, TopStream(m.s), depth).Some?;
    hide Linked, Step, Steps, Seek;
    var next, k := OneLine(lib, m, depth);
    n := k;
  }

  /** Refinement of whole programs: with no call pending, the main program is read to its end (or its first return line)
      with exactly the trace it means, and leaves stack, streams and hook as they were. */
  lemma {:induction false} ProgramRefines(lib: Library, m: Machine) returns (n: nat)
    requires !m.halted && Linked(m.s) && m.s.stack == [] && m.s.streams != []
    requires Body(lib, TopStream(m.s), STACK_DEPTH).Some?
    ensures var top := TopStream(m.s);
      Steps(lib, m, n) ==
        Machine(At(m.s, EndOf(lib, top.file, top.pos)), m.trace + Body(lib, top, STACK_DEPTH).value, false)
    decreases |lib.Lines(TopStream(m.s).file)| - TopStream(m.s).pos
  {
    hide Step, Steps, LineTrace, Seek;
    var top := TopStream(m.s);
    var lines := lib.Lines(top.file);
    if top.pos >= |lines| || lines[top.pos].Return? {
      n := 0;
      NoSteps(lib, m);
    } else {
      var next, k := OneLine(lib, m, STACK_DEPTH);
      AtKeepsLinked(m.s, top.pos + 1);
      AtTop(m.s, top.pos + 1);
      var r := ProgramRefines(lib, next);
      AtTwice(m.s, top.pos + 1, EndOf(lib, top.file, top.pos));
      n := k + r;
      StepsAdd(lib, m, k, r);
      AppendTwice(m.trace, LineTrace(lib, top, STACK_DEPTH).value, Body(lib, top.(pos := top.pos + 1), STACK_DEPTH).value);
    }
  }

  lemma AtKeepsLinked(s: State, pos: nat)
    requires Linked(s) && s.streams != []
    ensures Linked(At(s, pos))
  {
  }

  lemma ExecutedKeepsLinked(lib: Library, s: State, id: nat, repeats: nat, local: bool)
    requires Linked(s) && s.streams != [] && TopStream(s).pos != 0
    ensures Linked(Executed(lib, s, id, repeats, local, false, Unhandled).0)
  {
    hide Linked, Opened;
    if |s.stack| < STACK_DEPTH {
      var pos := lib.localPos(TopStream(s).file, id);
      PushKeepsLinked(s, Entry(id, repeats, |s.streams|, pos, TopStream(s).pos), Seek(s.streams, |s.streams|, pos));
      PushKeepsLinked(s, Entry(id, repeats, |s.streams| + 1, 0, 0), s.streams + [Stream(id, 0, true)]);
    }
  }

  /** Every step of every run keeps the state linked. */
  lemma StepKeepsLinked(lib: Library, m: Machine)
    requires Linked(m.s)
    ensures Linked(Step(lib, m).s)
  {
    hide Linked, Ended, Executed, Seek;
    if !m.halted && m.s.streams != [] {
      var top := TopStream(m.s);
      var s := At(m.s, top.pos + 1);
      AtKeepsLinked(m.s, top.pos + 1);
      if m.s.stack != [] {
        EndKeepsLinked(m.s, false);
        EndKeepsLinked(s, false);
      }
      if top.pos < |lib.Lines(top.file)| && lib.Lines(top.file)[top.pos].Call? {
        var c := lib.Lines(top.file)[top.pos];
        assert TopStream(s).pos == top.pos + 1 by { AtTop(m.s, top.pos + 1); }
        ExecutedKeepsLinked(lib, s, c.id, c.repeats, c.local);
      }
    }
  }

  lemma AtTop(s: State, pos: nat)
    requires s.streams != []
    ensures At(s, pos).streams != [] && TopStream(At(s, pos)) == TopStream(s).(pos := pos)
  {
  }

  /** Where the main stream goes on once all pending calls are gone: where the outermost call was made. */
  function ResumePos(s: State): nat
    requires Linked(s)
  {
    if s.stack != [] && s.stack[0].posReturn != 0 then s.stack[0].posReturn else s.streams[Base(s) - 1].pos
  }

  /** What reset leaves: the streams below the first file a call opened, the main one standing where it goes on. */
  function Restored(s: State): State
    requires Linked(s)
  {
    State([], Seek(s.streams[..Base(s)], Base(s), ResumePos(s)), s.savedHook, NoHook)
  }

  /** Reset undoes everything the pending calls did to the core: their files are closed, the main stream stands just after
      the outermost call, and the hook found at the first push is back. */
  lemma {:induction false} ResetRestores(s: State)
    requires Linked(s) && s.stack != []
    ensures Unwound(s) == State([], Seek(s.streams[..Base(s)], Base(s), ResumePos(s)), s.savedHook, NoHook)
    decreases |s.stack|
  {
    var t := Ended(s, true).0;
    EndKeepsLinked(s, true);
    BaseAfterEnd(s);
    if |s.stack| > 1 {
      ResetRestores(t);
      RestoredAlike(s);
    } else {
      LastCallRestores(s);
    }
    hide Linked, Ended, Seek, ResumePos, Base;
  }

  /** Abandoning one of several calls does not change what reset leaves. */
  lemma RestoredAlike(s: State)
    requires Linked(s) && |s.stack| > 1
    ensures var t := Ended(s, true).0; Linked(t) && Restored(t) == Restored(s)
  {
    var t := Ended(s, true).0;
    EndKeepsLinked(s, true);
    BaseAfterEnd(s);
    HookStays(s);
    assert t.stack != [] && t.stack[0] == s.stack[0];
    if s.stack[0].posReturn == 0 {
      OutermostFile(t.stack);
      hide Linked, Ended, Opened, Base, Seek;
      SameBelow(s.streams, t.streams, Base(s));
    } else {
      hide Linked, Ended, Opened;
      assert Seek(t.streams[..Base(s)], Base(s), ResumePos(s)) == Seek(s.streams[..Base(s)], Base(s), ResumePos(s));
    }
  }

  lemma HookStays(s: State)
    requires Linked(s) && |s.stack| > 1
    ensures Ended(s, true).0.savedHook == s.savedHook && 1 <= Base(s) <= |s.streams|
  {
    hide Seek, Close;
  }

  lemma SameBelow(a: seq<Stream>, b: seq<Stream>, n: int)
    requires 1 <= n <= |a| && n <= |b| && a[..n] == b[..n]
    ensures a[n - 1] == b[n - 1]
  {
    assert a[n - 1] == a[..n][n - 1];
  }

  lemma LastCallRestores(s: State)
    requires Linked(s) && |s.stack| == 1
    ensures Unwound(s) == Restored(s)
  {
    TopReadsTop(s);
    var t := Ended(s, true).0;
    assert Unwound(t) == t;
    assert Opened(s.stack) == if Top(s).posReturn == 0 then 1 else 0 by { assert s.stack[..0] == []; }
  }

  lemma {:induction false} OutermostFile(stack: seq<Entry>)
    requires stack != [] && stack[0].posReturn == 0
    ensures Opened(stack) > 0
    decreases |stack|
  {
    if |stack| > 1 { OutermostFile(stack[..|stack| - 1]); }
  }

  /** Abandoning a call leaves the streams below it as they were, but for the main stream's position if it ran inside it. */
  lemma BaseAfterEnd(s: State)
    requires Linked(s) && s.stack != []
    ensures var t := Ended(s, true).0;
      && t.stack == s.stack[..|s.stack| - 1] && Base(t) == Base(s)
      && (Opened(t.stack) > 0 || Top(s).posReturn == 0 ==> t.streams[..Base(s)] == s.streams[..Base(s)])
      && (Opened(t.stack) == 0 && Top(s).posReturn != 0 ==> t.streams == Seek(s.streams, Base(s), Top(s).posReturn) && |s.streams| == Base(s))
  {
    TopReadsTop(s);
  }

  /** The plugin and the core's line loop around it, one line or end of stream at a time, are the step machine. */
  method PerformStep(plugin: MacroPlugin, lib: Library, trace: Trace) returns (longer: Trace, halted: bool)
    requires plugin.Valid()
    modifies plugin`stackIdx, plugin`onMacroReturn, plugin`grblOnMacroReturn, plugin`streams, plugin.macros
    ensures plugin.Valid()
    ensures halted == Step(lib, Machine(old(plugin.Abs()), trace, false)).halted
    ensures !halted ==> Machine(plugin.Abs(), longer, false) == Step(lib, Machine(old(plugin.Abs()), trace, false))
  {
    hide Linked, Ended, Executed, Opened;
    longer, halted := trace, false;
    var n := |plugin.streams|;
    var top := plugin.streams[n - 1];
    var lines := lib.Lines(top.file);
    if top.pos >= |lines| {
      halted := !(top.ours && plugin.stackIdx >= 0 && plugin.macros[plugin.stackIdx].handle == n);
      if !halted { plugin.OnG65MacroEOF(n, true); }
      return;
    }
    AtKeepsLinked(plugin.Abs(), top.pos + 1);
    plugin.streams := plugin.streams[n - 1 := top.(pos := top.pos + 1)];
    match lines[top.pos]
    case Plain(text) =>
      longer := trace + [text];
    case Return =>
      halted := plugin.stackIdx < 0 || plugin.grblOnMacroReturn != MacroExitHook;
      if !halted { plugin.MacroExit(); }
    case Call(id, repeats, local) =>
      var status := plugin.MacroExecute(lib, id, repeats, local, false, Unhandled);
      halted := status != Handled;
  }
}
