/** Macros run from files: an explicit stack of calls with repeat counts and saved file positions. */
module Macros {

  const STACK_DEPTH: nat := 5
  const WORD: nat := 0x1_0000_0000 // repeat counts are 32-bit words

  /** A program line as far as macros are concerned. `local` asks for a macro defined in the calling file first. */
  datatype Line = Plain(text: string) | Call(id: nat, repeats: nat, local: bool) | Return

  /** The file system seen by macro calls: macro files by id, and where in a file a local macro starts (0 if it does not). */
  datatype Library = Library(files: map<nat, seq<Line>>, localPos: (nat, nat) -> nat) {
    function Lines(file: nat): seq<Line> {
      if file in files then files[file] else []
    }
  }

  /** An input stream being read; redirected streams are stacked, and a stream's handle is its height in the stack.
      `ours`: it was opened by a macro call, so that the plugin hears of its end. */
  datatype Stream = Stream(file: nat, pos: nat, ours: bool)

  /** A pending call; handle 0 is the null file. */
  datatype Entry = Entry(id: nat, repeats: nat, handle: nat, pos: nat, posReturn: nat)

  const NO_ENTRY := Entry(0, 0, 0, 0, 0)

  /** What grbl.on_macro_return points at. */
  datatype Hook = NoHook | MacroExitHook | OtherHook(n: nat)

  datatype Status = Ok | Handled | Unhandled | FileOpenFailed | StackOverflow

  /** The plugin's state and the parts of the core it acts on. */
  datatype State = State(stack: seq<Entry>, streams: seq<Stream>, hook: Hook, savedHook: Hook)

  function Seek(streams: seq<Stream>, handle: nat, pos: nat): (r: seq<Stream>)
    ensures |r| == |streams|
  {
    if 1 <= handle <= |streams| then streams[handle - 1 := streams[handle - 1].(pos := pos)] else streams
  }

  /** Closing the redirected stream on top uncovers the one below. */
  function Close(streams: seq<Stream>, handle: nat): seq<Stream> {
    if streams != [] && handle == |streams| then streams[..|streams| - 1] else streams
  }

  function Decrement(repeats: nat): nat {
    if repeats == 0 then WORD - 1 else repeats - 1
  }

  function Pushed(s: State, e: Entry): State {
    State(s.stack + [e], s.streams, if s.stack == [] then MacroExitHook else s.hook, if s.stack == [] then s.hook else s.savedHook)
  }

  function Top(s: State): Entry
    requires s.stack != []
  {
    s.stack[|s.stack| - 1]
  }

  /** Take the top call off the stack; an emptied stack puts the hook back. */
  function Dropped(s: State, streams: seq<Stream>): State
    requires s.stack != []
  {
    var rest := s.stack[..|s.stack| - 1];
    if rest == [] then State([], streams, s.savedHook, NoHook) else State(rest, streams, s.hook, s.savedHook)
  }

  /** The body of the top call has ended: run it again, or return from it. The flag tells whether the call is over. */
  function Ended(s: State, failed: bool): (State, bool)
    requires s.stack != []
  {
    var e := Top(s);
    var left := Decrement(e.repeats);
    if e.handle == 0 then (Dropped(s, s.streams), true)
    else if !failed && left != 0 then
      (s.(stack := s.stack[|s.stack| - 1 := e.(repeats := left)], streams := Seek(s.streams, e.handle, e.pos)), false)
    else if e.posReturn != 0 then (Dropped(s, Seek(s.streams, e.handle, e.posReturn)), true)
    else (Dropped(s, Close(s.streams, e.handle)), true)
  }

  function Unwound(s: State): State
    decreases |s.stack|
  {
    if s.stack == [] then s else Unwound(Ended(s, true).0)
  }

  /** Open the macro's file and redirect input to it. */
  function Started(lib: Library, s: State, file: nat, id: nat, repeats: nat, checkMode: bool): (State, Status) {
    if |s.stack| >= STACK_DEPTH then (s, StackOverflow)
    else if checkMode then (s, if file in lib.files then Ok else FileOpenFailed)
    else if file !in lib.files then (s, FileOpenFailed)
    else (Pushed(s.(streams := s.streams + [Stream(file, 0, true)]), Entry(id, repeats, |s.streams| + 1, 0, 0)), Handled)
  }

  /** Go on reading inside the current file at `pos`. */
  function StartedLocal(s: State, id: nat, repeats: nat, pos: nat): (State, Status)
    requires s.streams != []
  {
    if |s.stack| >= STACK_DEPTH then (s, StackOverflow)
    else (Pushed(s, Entry(id, repeats, |s.streams|, pos, s.streams[|s.streams| - 1].pos))
            .(streams := Seek(s.streams, |s.streams|, pos)), Handled)
  }

  /** G65 P<id> L<repeats>. Ids below 100 are left to the handler installed before. */
  function Executed(lib: Library, s: State, id: nat, repeats: nat, local: bool, checkMode: bool, prev: Status): (State, Status)
    requires s.streams != []
  {
    if id < 100 then (s, prev)
    else
      var pos := lib.localPos(s.streams[|s.streams| - 1].file, id);
      if local && pos != 0 then StartedLocal(s, id, repeats, pos)
      else Started(lib, s, id, id, repeats, checkMode)
  }

  /** Pending calls that opened a file of their own; the others run inside the calling file. */
  function Opened(stack: seq<Entry>): nat
    decreases |stack|
  {
    if stack == [] then 0 else Opened(stack[..|stack| - 1]) + if stack[|stack| - 1].posReturn == 0 then 1 else 0
  }

  /** The number of streams below the first file a pending call opened. */
  function Base(s: State): int {
    |s.streams| - Opened(s.stack)
  }

  /** What every run keeps: each pending call reads the stream that was on top once it had started, the plugin's hook is in
      place exactly while calls are pending, and the stack stays within its depth. */
  predicate Linked(s: State) {
    && 1 <= Base(s) && |s.stack| <= STACK_DEPTH
    && (forall i :: 0 <= i < |s.stack| ==> s.stack[i].handle == Base(s) + Opened(s.stack[..i + 1]))
    && (forall i :: 0 <= i < |s.stack| && s.stack[i].posReturn == 0 ==> s.stack[i].pos == 0)
    && if s.stack == [] then s.savedHook == NoHook else s.hook == MacroExitHook
  }

  lemma OpenedPush(stack: seq<Entry>, e: Entry)
    ensures Opened(stack + [e]) == Opened(stack) + if e.posReturn == 0 then 1 else 0
  {
    assert (stack + [e])[..|stack|] == stack;
  }

  /** Handles of the calls below do not depend on the calls above. */
  lemma OpenedBelow(a: seq<Entry>, b: seq<Entry>, n: nat)
    requires n <= |a| && n <= |b| && a[..n] == b[..n]
    ensures forall i :: 0 <= i <= n ==> Opened(a[..i]) == Opened(b[..i])
  {
    forall i | 0 <= i <= n ensures Opened(a[..i]) == Opened(b[..i]) {
      assert a[..i] == a[..n][..i] == b[..n][..i] == b[..i];
    }
  }

  lemma PushKeepsLinked(s: State, e: Entry, streams: seq<Stream>)
    requires Linked(s) && |s.stack| < STACK_DEPTH
    requires |streams| == |s.streams| + (if e.posReturn == 0 then 1 else 0)
    requires e.handle == |streams| && (e.posReturn == 0 ==> e.pos == 0)
    ensures Linked(Pushed(s.(streams := streams), e))
  {
    var t := Pushed(s.(streams := streams), e);
    var n := |s.stack|;
    OpenedPush(s.stack, e);
    assert t.stack[..n] == s.stack[..n];
    OpenedBelow(t.stack, s.stack, n);
    forall i | 0 <= i < |t.stack| ensures t.stack[i].handle == Base(t) + Opened(t.stack[..i + 1]) {
      if i < n {
        assert t.stack[i] == s.stack[i];
      } else {
        assert t.stack[..i + 1] == t.stack;
      }
    }
  }

  /** The top call of a linked state reads the topmost stream, which is the main one only for a call inside it. */
  lemma TopReadsTop(s: State)
    requires Linked(s) && s.stack != []
    ensures Top(s).handle == |s.streams| && (Top(s).posReturn == 0 ==> 2 <= |s.streams|)
  {
    assert s.stack[..|s.stack| - 1 + 1] == s.stack;
    assert Top(s).handle == Base(s) + Opened(s.stack);
  }

  lemma DropKeepsLinked(s: State, streams: seq<Stream>)
    requires Linked(s) && s.stack != []
    requires |streams| == |s.streams| - (if Top(s).posReturn == 0 then 1 else 0)
    ensures Linked(Dropped(s, streams))
  {
    var rest := s.stack[..|s.stack| - 1];
    OpenedBelow(rest, s.stack, |rest|);
    assert Base(Dropped(s, streams)) == Base(s) by {
      assert rest[..|rest|] == rest;
    }
    forall i | 0 <= i < |rest| ensures rest[i].handle == Base(s) + Opened(rest[..i + 1]) {
      assert rest[i] == s.stack[i];
    }
  }

  lemma {:induction false} SameOpened(a: seq<Entry>, b: seq<Entry>)
    requires |a| == |b| && forall i :: 0 <= i < |a| ==> a[i].posReturn == b[i].posReturn
    ensures Opened(a) == Opened(b)
    decreases |a|
  {
    if a != [] {
      SameOpened(a[..|a| - 1], b[..|b| - 1]);
    }
  }

  lemma RerunKeepsLinked(s: State, e: Entry, streams: seq<Stream>)
    requires Linked(s) && s.stack != [] && |streams| == |s.streams|
    requires e.handle == Top(s).handle && e.pos == Top(s).pos && e.posReturn == Top(s).posReturn
    ensures Linked(s.(stack := s.stack[|s.stack| - 1 := e], streams := streams))
  {
    var t := s.(stack := s.stack[|s.stack| - 1 := e], streams := streams);
    SameOpened(t.stack, s.stack);
    assert Base(t) == Base(s);
    forall i | 0 <= i < |t.stack| ensures t.stack[i].handle == Base(t) + Opened(t.stack[..i + 1]) {
      SameOpened(t.stack[..i + 1], s.stack[..i + 1]);
    }
  }

  lemma EndKeepsLinked(s: State, failed: bool)
    requires Linked(s) && s.stack != []
    ensures Linked(Ended(s, failed).0)
  {
    TopReadsTop(s);
    hide Linked, Opened;
    var e := Top(s);
    var left := Decrement(e.repeats);
    if !failed && left != 0 {
      RerunKeepsLinked(s, e.(repeats := left), Seek(s.streams, e.handle, e.pos));
    } else if e.posReturn != 0 {
      DropKeepsLinked(s, Seek(s.streams, e.handle, e.posReturn));
    } else {
      DropKeepsLinked(s, Close(s.streams, e.handle));
    }
  }

  /** t is s with a call on top that reads a newly opened file from its start. */
  predicate EnteredFile(s: State, t: State, file: nat, id: nat, repeats: nat) {
    && t.streams == s.streams + [Stream(file, 0, true)]
    && t.stack == s.stack + [Entry(id, repeats, |t.streams|, 0, 0)]
    && t.hook == (if s.stack == [] then MacroExitHook else s.hook)
    && t.savedHook == (if s.stack == [] then s.hook else s.savedHook)
  }

  /** t is s with a call on top that reads the current stream on from `pos`, to come back to where it is now. */
  predicate EnteredLocal(s: State, t: State, id: nat, repeats: nat, pos: nat)
    requires s.streams != []
  {
    var n := |s.streams| - 1;
    && t.streams == s.streams[n := s.streams[n].(pos := pos)]
    && t.stack == s.stack + [Entry(id, repeats, n + 1, pos, s.streams[n].pos)]
    && t.hook == (if s.stack == [] then MacroExitHook else s.hook)
    && t.savedHook == (if s.stack == [] then s.hook else s.savedHook)
  }

  class MacroPlugin {
    var stackIdx: int
    const macros: array<Entry>
    var onMacroReturn: Hook     // the plugin's saved hook
    var grblOnMacroReturn: Hook // the core's hook
    var streams: seq<Stream>

    ghost predicate Valid()
      reads this, macros
    {
      macros.Length == STACK_DEPTH && -1 <= stackIdx < STACK_DEPTH && streams != [] && Linked(Abs())
    }

    ghost function Abs(): State
      requires macros.Length == STACK_DEPTH && -1 <= stackIdx < STACK_DEPTH
      reads this, macros
    {
      State(macros[..stackIdx + 1], streams, grblOnMacroReturn, onMacroReturn)
    }

    constructor (main: Stream, hook: Hook)
      ensures Valid() && fresh(macros) && macros.Length == 5 && Abs() == State([], [main], hook, NoHook)
    {
      stackIdx, onMacroReturn, grblOnMacroReturn, streams := -1, NoHook, hook, [main];
      macros := new Entry[STACK_DEPTH](_ => NO_ENTRY);
    }

    /** The top call's body has ended. */
    method EndMacro(failed: bool) returns (over: bool)
      requires Valid() && stackIdx >= 0
      modifies this`stackIdx, this`onMacroReturn, this`grblOnMacroReturn, this`streams, macros
      ensures Valid() && (Abs(), over) == Ended(old(Abs()), failed)
    {
      ghost var s := Abs();
      EndKeepsLinked(s, failed);
      TopReadsTop(s);
      assert s.stack[stackIdx] == macros[stackIdx];
      if macros[stackIdx].handle != 0 {
        if !failed {
          macros[stackIdx] := macros[stackIdx].(repeats := Decrement(macros[stackIdx].repeats));
          if macros[stackIdx].repeats != 0 {
            streams := Seek(streams, macros[stackIdx].handle, macros[stackIdx].pos);
            assert Abs() == Ended(s, failed).0;
            return false;
          }
        }
        if macros[stackIdx].posReturn != 0 {
          streams := Seek(streams, macros[stackIdx].handle, macros[stackIdx].posReturn);
        } else {
          streams := Close(streams, macros[stackIdx].handle);
        }
        macros[stackIdx] := macros[stackIdx].(handle := 0);
      }
      stackIdx := stackIdx - 1;
      assert macros[..stackIdx + 1] == s.stack[..|s.stack| - 1];
      if stackIdx == -1 {
        grblOnMacroReturn := onMacroReturn;
        onMacroReturn := NoHook;
      }
      assert Abs() == Ended(s, failed).0;
      return true;
    }

    /** Reset: abandon all pending calls, innermost first. */
    method PluginReset()
      requires Valid()
      modifies this`stackIdx, this`onMacroReturn, this`grblOnMacroReturn, this`streams, macros
      ensures Valid() && Abs() == Unwound(old(Abs()))
    {
      while stackIdx >= 0
        invariant Valid() && Unwound(Abs()) == Unwound(old(Abs()))
        decreases stackIdx
      {
        var over := EndMacro(true);
      }
    }

    /** A line of the macro was rejected. */
    method OnG65MacroError()
      requires Valid()
      modifies this`stackIdx, this`onMacroReturn, this`grblOnMacroReturn, this`streams, macros
      ensures Valid() && Abs() == if old(stackIdx) >= 0 then Ended(old(Abs()), true).0 else old(Abs())
    {
      if stackIdx >= 0 {
        var over := EndMacro(true);
      }
    }

    /** A redirected stream reached its end, or failed. */
    method OnG65MacroEOF(handle: nat, ok: bool)
      requires Valid()
      modifies this`stackIdx, this`onMacroReturn, this`grblOnMacroReturn, this`streams, macros
      ensures Valid()
      ensures Abs() == if old(stackIdx) < 0 || Top(old(Abs())).handle != handle then old(Abs())
        else if ok then Ended(old(Abs()), false).0 else Unwound(old(Abs()))
    {
      if stackIdx >= 0 && macros[stackIdx].handle == handle {
        if ok {
          var over := EndMacro(false);
        } else {
          PluginReset();
        }
      }
    }

    /** The hook the plugin installs: a macro returned. */
    method MacroExit()
      requires Valid()
      modifies this`stackIdx, this`onMacroReturn, this`grblOnMacroReturn, this`streams, macros
      ensures Valid() && Abs() == if old(stackIdx) >= 0 then Ended(old(Abs()), false).0 else old(Abs())
    {
      if stackIdx >= 0 {
        var over := EndMacro(false);
      }
    }

    method StackPush(id: nat, repeats: nat, handle: nat, pos: nat, posReturn: nat)
      requires macros.Length == STACK_DEPTH && -1 <= stackIdx < STACK_DEPTH - 1
      modifies this`stackIdx, this`onMacroReturn, this`grblOnMacroReturn, macros
      ensures -1 <= stackIdx < STACK_DEPTH && Abs() == Pushed(old(Abs()), Entry(id, repeats, handle, pos, posReturn))
    {
      ghost var s := Abs();
      if stackIdx == -1 {
        onMacroReturn := grblOnMacroReturn;
        grblOnMacroReturn := MacroExitHook;
      }
      stackIdx := stackIdx + 1;
      macros[stackIdx] := Entry(id, repeats, handle, pos, posReturn);
      assert macros[..stackIdx + 1] == s.stack + [macros[stackIdx]];
    }

    method MacroStart(lib: Library, file: nat, id: nat, repeats: nat, checkMode: bool) returns (status: Status)
      requires Valid()
      modifies this`stackIdx, this`onMacroReturn, this`grblOnMacroReturn, this`streams, macros
      ensures Valid() && (Abs(), status) == Started(lib, old(Abs()), file, id, repeats, checkMode)
      ensures if old(stackIdx) >= STACK_DEPTH - 1 then Abs() == old(Abs()) && status == StackOverflow
        else if file !in lib.files then Abs() == old(Abs()) && status == FileOpenFailed
        else if checkMode then Abs() == old(Abs()) && status == Ok
        else status == Handled && EnteredFile(old(Abs()), Abs(), file, id, repeats)
    {
      hide Linked, Opened;
      if stackIdx >= STACK_DEPTH - 1 { return StackOverflow; }
      if checkMode {
        return if file in lib.files then Ok else FileOpenFailed;
      }
      if file !in lib.files { return FileOpenFailed; }
      PushKeepsLinked(Abs(), Entry(id, repeats, |streams| + 1, 0, 0), streams + [Stream(file, 0, true)]);
      streams := streams + [Stream(file, 0, true)];
      StackPush(id, repeats, |streams|, 0, 0);
      return Handled;
    }

    /** Call a macro defined in the file being read: seek to it, remembering where to come back to. */
    method CallLocal(id: nat, repeats: nat, pos: nat) returns (status: Status)
      requires Valid() && streams[|streams| - 1].pos != 0 // the calling line has been read
      modifies this`stackIdx, this`onMacroReturn, this`grblOnMacroReturn, this`streams, macros
      ensures Valid() && (Abs(), status) == StartedLocal(old(Abs()), id, repeats, pos)
      ensures if old(stackIdx) >= STACK_DEPTH - 1 then Abs() == old(Abs()) && status == StackOverflow
        else status == Handled && EnteredLocal(old(Abs()), Abs(), id, repeats, pos)
    {
      hide Linked, Opened;
      if stackIdx >= STACK_DEPTH - 1 { return StackOverflow; }
      var tell := streams[|streams| - 1].pos;
      PushKeepsLinked(Abs(), Entry(id, repeats, |streams|, pos, tell), Seek(streams, |streams|, pos));
      StackPush(id, repeats, |streams|, pos, tell);
      streams := Seek(streams, |streams|, pos);
      return Handled;
    }

    method MacroExecute(lib: Library, id: nat, repeats: nat, local: bool, checkMode: bool, prev: Status) returns (status: Status)
      requires Valid() && streams[|streams| - 1].pos != 0
      modifies this`stackIdx, this`onMacroReturn, this`grblOnMacroReturn, this`streams, macros
      ensures Valid() && (Abs(), status) == Executed(lib, old(Abs()), id, repeats, local, checkMode, prev)
      ensures var pos := lib.localPos(old(streams)[|old(streams)| - 1].file, id);
        if id < 100 then Abs() == old(Abs()) && status == prev
        else if old(stackIdx) >= STACK_DEPTH - 1 then Abs() == old(Abs()) && status == StackOverflow
        else if local && pos != 0 then status == Handled && EnteredLocal(old(Abs()), Abs(), id, repeats, pos)
        else if id !in lib.files then Abs() == old(Abs()) && status == FileOpenFailed
        else if checkMode then Abs() == old(Abs()) && status == Ok
        else status == Handled && EnteredFile(old(Abs()), Abs(), id, id, repeats)
    {
      hide Linked, Opened, Started, StartedLocal;
      status := Unhandled;
      if id >= 100 {
        var pos := lib.localPos(streams[|streams| - 1].file, id);
        if local && pos != 0 {
          status := CallLocal(id, repeats, pos);
        } else {
          status := MacroStart(lib, id, id, repeats, checkMode);
        }
      } else {
        status := prev;
      }
    }
  }
}
