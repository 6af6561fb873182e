/** What every interleaving of `pipeToProcess` keeps, and what follows at its return. */
module PipeProofs {
  import opened ByteStreams
  import opened PipeMachine

  // ---------------------------------------------------------------- the invariant

  /** What the child will still do with the bytes it has not read yet. */
  function Remaining(s: State): Behaviour
    requires s.child.Running?
  {
    Behave(s.child.p, s.stdin + s.unwritten)
  }

  /** Nothing the child prints is lost, doubled or reordered on its way through the pipes. */
  ghost predicate Conserved(c: Config, s: State) {
    var b := c.Expected();
    match s.child
    case Running(p) =>
      var rest := Remaining(s);
      && s.gathered + s.stdout + rest.out == b.out
      && s.logged + s.stderr + rest.err == b.err
      && rest.ok == b.ok && rest.left == b.left
    case Exited(Finished(ok)) =>
      s.gathered + s.stdout == b.out && s.logged + s.stderr == b.err && ok == b.ok
      && |s.stdin| + |s.unwritten| == b.left
    case Exited(Killed) =>
      s.gathered + s.stdout <= b.out && s.logged + s.stderr <= b.err
  }

  predicate WriteDelivered(s: State) {
    (s.writer.FinishingW? || s.writer.DoneW?) && s.writer.failed
  }

  predicate ReadDelivered(s: State) {
    (s.reader.FinishingR? || s.reader.DoneR?) && s.reader.failed
  }

  ghost predicate WriterConsistent(s: State) {
    && (s.stdinOpen <==> s.writer.Writing? || s.writer.Closing?)
    && (WriteFailed(s) ==> s.child.Exited?)
    && (!s.writer.Writing? && !WriteFailed(s) ==> s.unwritten == [])
  }

  ghost predicate ReaderConsistent(s: State) {
    && s.functionResult == (if s.reader.Reading? then None else Some(s.gathered))
    && (!s.reader.Reading? && !ReadFailed(s) ==> s.stdout == [] && s.child.Exited?)
  }

  /** The collector has appended what was delivered, except for the one error it may still hold. */
  ghost predicate ErrorsConsistent(s: State) {
    && s.delivered == s.errors + (if s.collector.Holding? then [s.collector.e] else [])
    && (StdinWriteError in s.delivered <==> WriteDelivered(s))
    && (StdoutReadError in s.delivered <==> ReadDelivered(s))
    && |s.delivered| == (if WriteDelivered(s) then 1 else 0) + (if ReadDelivered(s) then 1 else 0)
  }

  ghost predicate MainConsistent(s: State) {
    s.main.Returned? ==>
      && s.writer.DoneW? && s.reader.DoneR?
      && s.main.data == s.functionResult
      && s.main.errs <= s.errors
      && |s.delivered| - |s.main.errs| <= 1
  }

  predicate WithinCapacity(c: Config, s: State) {
    |s.stdin| <= c.stdinCap && |s.stdout| <= c.stdoutCap && |s.stderr| <= c.stderrCap
  }

  ghost predicate Inv(c: Config, s: State) {
    && WithinCapacity(c, s)
    && |s.logged| <= Drained(c.logBuffer, s.logged + s.stderr)
    && Conserved(c, s) && WriterConsistent(s) && ReaderConsistent(s) && ErrorsConsistent(s) && MainConsistent(s)
  }

  // ---------------------------------------------------------------- the stderr pump

  /** How much of a stderr stream the pump ever takes out of the pipe: all of it, unless some prefix ends in
      a line that fills the buffer; then exactly the shortest such prefix. */
  function Drained(logBuffer: int, stream: bytes): (n: nat)
    ensures n <= |stream|
  {
    if stream == [] then 0
    else
      var n := Drained(logBuffer, stream[..|stream| - 1]);
      if n == |stream| - 1 && PumpAlive(logBuffer, stream[..n]) then n + 1 else n
  }

  lemma {:induction false} DrainedExtends(logBuffer: int, stream: bytes, more: bytes)
    ensures Drained(logBuffer, stream) <= Drained(logBuffer, stream + more)
    ensures Drained(logBuffer, stream) < |stream| ==>
              Drained(logBuffer, stream + more) == Drained(logBuffer, stream)
    decreases |more|
  {
    if more == [] {
      assert stream + more == stream;
    } else {
      var init := more[..|more| - 1];
      DrainedExtends(logBuffer, stream, init);
      assert (stream + more)[..|stream + more| - 1] == stream + init;
    }
  }

  lemma {:induction false} DrainedStep(logBuffer: int, logged: bytes, rest: bytes)
    requires |logged| <= Drained(logBuffer, logged + rest)
    ensures rest != [] && PumpAlive(logBuffer, logged) ==> |logged| + 1 <= Drained(logBuffer, logged + rest)
    ensures rest != [] && !PumpAlive(logBuffer, logged) ==> |logged| == Drained(logBuffer, logged + rest)
    ensures Drained(logBuffer, logged) == |logged|
  {
    DrainedExtends(logBuffer, logged, rest);
    if rest != [] {
      var one := logged + [rest[0]];
      assert one[..|one| - 1] == logged;
      DrainedExtends(logBuffer, one, rest[1..]);
      assert one + rest[1..] == logged + rest;
    }
  }

  /** The pump stops at the first place where the unfinished line fills the buffer, and nowhere else. */
  lemma {:induction false} DrainedIsFirstStop(logBuffer: int, stream: bytes)
    ensures var n := Drained(logBuffer, stream);
            && (n == |stream| || !PumpAlive(logBuffer, stream[..n]))
            && forall k :: 0 <= k < n ==> PumpAlive(logBuffer, stream[..k])
  {
    if stream != [] {
      var init := stream[..|stream| - 1];
      DrainedIsFirstStop(logBuffer, init);
      assert forall k :: 0 <= k < |stream| ==> stream[..k] == init[..k];
    }
  }

  // ---------------------------------------------------------------- every step keeps the invariant

  lemma InitHolds(c: Config)
    requires c.Valid()
    ensures Inv(c, Init(c))
  {
    assert [] + c.input == c.input;
  }

  lemma EmittingKeepsConserved(c: Config, s: State)
    requires Conserved(c, s) && Enabled(c, s, ChildActs) && s.child.p.Emit?
    ensures Conserved(c, ChildNext(s))
  {
    var to, b, rest := s.child.p.to, s.child.p.b, Behave(s.child.p.next, s.stdin + s.unwritten);
    assert to.ToStdout? ==> s.gathered + s.stdout + ([b] + rest.out) == s.gathered + (s.stdout + [b]) + rest.out;
    assert to.ToStderr? ==> s.logged + s.stderr + ([b] + rest.err) == s.logged + (s.stderr + [b]) + rest.err;
  }

  /** What is left of the input after the child's next action. */
  lemma ChildTakes(c: Config, s: State)
    requires WriterConsistent(s) && Enabled(c, s, ChildActs)
    ensures var t, rest := ChildNext(s), s.stdin + s.unwritten;
            && (!s.child.p.Read? || rest == [] ==> t.stdin + t.unwritten == rest)
            && (s.child.p.Read? && rest != [] ==>
                  s.stdin != [] && rest[0] == s.stdin[0] && t.stdin + t.unwritten == rest[1..])
  {
  }

  lemma ReadingKeepsConserved(c: Config, s: State)
    requires Conserved(c, s) && WriterConsistent(s) && Enabled(c, s, ChildActs) && s.child.p.Read?
    ensures Conserved(c, ChildNext(s))
  {
    ChildTakes(c, s);
    var t := ChildNext(s);
    assert t.child.Running? && Remaining(t) == Remaining(s).(actions := Remaining(t).actions);
  }

  lemma ChildKeepsConserved(c: Config, s: State)
    requires Conserved(c, s) && WriterConsistent(s) && Enabled(c, s, ChildActs)
    ensures Conserved(c, ChildNext(s))
  {
    match s.child.p
    case Exit(ok) =>
    case Emit(_, _, _) => EmittingKeepsConserved(c, s);
    case Read(_, _) => ReadingKeepsConserved(c, s);
  }

  /** Every other step at most moves bytes along one of the three streams. */
  lemma StreamsMoveOn(c: Config, s: State, a: Action)
    requires Enabled(c, s, a) && !a.ChildActs? && !a.ChildIsKilled?
    ensures var t := Next(c, s, a);
            && t.child == s.child
            && t.stdin + t.unwritten == s.stdin + s.unwritten
            && t.gathered + t.stdout == s.gathered + s.stdout
            && t.logged + t.stderr == s.logged + s.stderr
  {
  }

  lemma ConservedAlong(c: Config, s: State, t: State)
    requires Conserved(c, s) && t.child == s.child
    requires t.stdin + t.unwritten == s.stdin + s.unwritten
    requires t.gathered + t.stdout == s.gathered + s.stdout && t.logged + t.stderr == s.logged + s.stderr
    ensures Conserved(c, t)
  {
    assert |t.stdin| + |t.unwritten| == |t.stdin + t.unwritten| == |s.stdin| + |s.unwritten|;
  }

  lemma StepKeepsConserved(c: Config, s: State, a: Action)
    requires Conserved(c, s) && WriterConsistent(s) && Enabled(c, s, a)
    ensures Conserved(c, Next(c, s, a))
  {
    if a.ChildActs? {
      ChildKeepsConserved(c, s);
    } else if !a.ChildIsKilled? {
      hide Conserved, Next, Enabled;
      StreamsMoveOn(c, s, a);
      ConservedAlong(c, s, Next(c, s, a));
    }
  }

  lemma StepKeepsDrained(c: Config, s: State, a: Action)
    requires |s.logged| <= Drained(c.logBuffer, s.logged + s.stderr) && Enabled(c, s, a)
    ensures var t := Next(c, s, a); |t.logged| <= Drained(c.logBuffer, t.logged + t.stderr)
  {
    var t := Next(c, s, a);
    match a
    case PumpByte =>
      DrainedStep(c.logBuffer, s.logged, s.stderr);
      assert t.logged + t.stderr == s.logged + s.stderr;
    case ChildActs =>
      if s.child.p.Emit? && s.child.p.to.ToStderr? {
        var b := [s.child.p.b];
        DrainedExtends(c.logBuffer, s.logged + s.stderr, b);
        assert t.logged + t.stderr == s.logged + s.stderr + b;
      }
    case _ => assert t.logged == s.logged && t.stderr == s.stderr;
  }

  predicate OnErrorChannel(a: Action) {
    a.SendWriteError? || a.SendReadError? || a.AppendError?
  }

  lemma OthersLeaveErrors(c: Config, s: State, a: Action)
    requires Enabled(c, s, a) && !OnErrorChannel(a)
    ensures var t := Next(c, s, a);
            && t.delivered == s.delivered && t.errors == s.errors && t.collector == s.collector
            && (WriteDelivered(t) <==> WriteDelivered(s)) && (ReadDelivered(t) <==> ReadDelivered(s))
  {
  }

  lemma ChannelKeepsErrors(c: Config, s: State, a: Action)
    requires ErrorsConsistent(s) && Enabled(c, s, a) && OnErrorChannel(a)
    ensures ErrorsConsistent(Next(c, s, a))
  {
    var t := Next(c, s, a);
    assert a.AppendError? ==> t.delivered == t.errors + [];
  }

  lemma StepKeepsErrors(c: Config, s: State, a: Action)
    requires ErrorsConsistent(s) && Enabled(c, s, a)
    ensures ErrorsConsistent(Next(c, s, a))
  {
    hide Next, Enabled, WriteDelivered, ReadDelivered;
    if OnErrorChannel(a) {
      ChannelKeepsErrors(c, s, a);
    } else {
      OthersLeaveErrors(c, s, a);
    }
  }

  /** Once main has returned, the goroutines are done; only the collector may still append. */
  lemma AfterReturn(c: Config, s: State, a: Action)
    requires Enabled(c, s, a) && s.main.Returned? && s.writer.DoneW? && s.reader.DoneR?
    ensures var t := Next(c, s, a);
            && t.main == s.main && t.writer == s.writer && t.reader == s.reader
            && t.functionResult == s.functionResult && t.delivered == s.delivered && s.errors <= t.errors
  {
  }

  lemma StepKeepsMain(c: Config, s: State, a: Action)
    requires ErrorsConsistent(s) && MainConsistent(s) && ReaderConsistent(s) && Enabled(c, s, a)
    ensures MainConsistent(Next(c, s, a))
  {
    if s.main.Returned? {
      hide Next, Enabled, ErrorsConsistent, ReaderConsistent;
      AfterReturn(c, s, a);
    } else {
      assert Next(c, s, a).main.Returned? ==> a.Return?;
    }
  }

  lemma StepKeepsWriter(c: Config, s: State, a: Action)
    requires WriterConsistent(s) && Enabled(c, s, a)
    ensures WriterConsistent(Next(c, s, a))
  {
  }

  lemma StepKeepsReader(c: Config, s: State, a: Action)
    requires ReaderConsistent(s) && Enabled(c, s, a)
    ensures ReaderConsistent(Next(c, s, a))
  {
  }

  lemma StepKeepsCapacity(c: Config, s: State, a: Action)
    requires WithinCapacity(c, s) && Enabled(c, s, a)
    ensures WithinCapacity(c, Next(c, s, a))
  {
  }

  lemma StepKeepsInv(c: Config, s: State, a: Action)
    requires Inv(c, s) && Enabled(c, s, a)
    ensures Inv(c, Next(c, s, a))
  {
    hide Next, WithinCapacity, Conserved, WriterConsistent, ReaderConsistent, ErrorsConsistent, MainConsistent, Drained;
    StepKeepsCapacity(c, s, a);
    StepKeepsConserved(c, s, a);
    StepKeepsDrained(c, s, a);
    StepKeepsErrors(c, s, a);
    StepKeepsMain(c, s, a);
    StepKeepsWriter(c, s, a);
    StepKeepsReader(c, s, a);
  }

  lemma {:induction false} RunKeepsInv(c: Config, s: State, acts: seq<Action>, t: State)
    requires Inv(c, s) && IsRun(c, s, acts, t)
    ensures Inv(c, t)
    decreases |acts|
  {
    if acts != [] {
      StepKeepsInv(c, s, acts[0]);
      RunKeepsInv(c, Next(c, s, acts[0]), acts[1..], t);
    }
  }

  lemma ReachableHasInv(c: Config, acts: seq<Action>, t: State)
    requires c.Valid() && IsRun(c, Init(c), acts, t)
    ensures Inv(c, t)
  {
    InitHolds(c);
    RunKeepsInv(c, Init(c), acts, t);
  }

  // ---------------------------------------------------------------- termination

  /** What the child, the pump and the bytes on their way still have to do. */
  function Load(s: State): nat {
    2 * |s.unwritten| + |s.stdin| + |s.stdout| + |s.stderr|
    + (if s.child.Running? then 2 * Remaining(s).actions else 0)
  }

  /** What the goroutines still have to do once nothing is left for them to move. */
  function Phases(s: State): nat {
    (match s.writer
     case Writing => 6 case Closing(_) => 5 case SendingW => 4 case FinishingW(_) => 1 case DoneW(_) => 0)
    + (match s.reader case Reading => 5 case SendingR => 4 case FinishingR(_) => 1 case DoneR(_) => 0)
    + (if s.collector.Holding? then 1 else 0)
    + (if s.main.Waiting? then 1 else 0)
  }

  /** Falls at every step, the environment's included. */
  function Measure(s: State): nat {
    Load(s) + Phases(s)
  }

  lemma ChildSpendsOneAction(c: Config, s: State)
    requires WriterConsistent(s) && Enabled(c, s, ChildActs)
    ensures var t := ChildNext(s); t.child.Running? ==> Remaining(t).actions + 1 == Remaining(s).actions
  {
    ChildTakes(c, s);
  }

  /** The child's action adds at most one byte, and none when it exits; it leaves the goroutines alone. */
  lemma ChildLeavesTheRest(c: Config, s: State)
    requires Enabled(c, s, ChildActs)
    ensures var t := ChildNext(s);
            && t.writer == s.writer && t.reader == s.reader && t.collector == s.collector && t.main == s.main
            && t.unwritten == s.unwritten && |t.stdin| <= |s.stdin|
            && |t.stdout| + |t.stderr| <= |s.stdout| + |s.stderr| + (if t.child.Running? then 1 else 0)
  {
  }

  lemma ChildActsLess(c: Config, s: State)
    requires WriterConsistent(s) && Enabled(c, s, ChildActs)
    ensures Load(ChildNext(s)) < Load(s) && Phases(ChildNext(s)) == Phases(s)
  {
    ChildSpendsOneAction(c, s);
    ActsAtLeastOnce(s.child.p, s.stdin + s.unwritten);
    ChildLeavesTheRest(c, s);
    hide ChildNext, Remaining, Enabled;
  }

  lemma ActsAtLeastOnce(p: Program, input: bytes)
    ensures Behave(p, input).actions >= 1
  {
  }

  predicate MovesBytes(a: Action) {
    a.WriteChunk? || a.ReadChunk? || a.PumpByte?
  }

  lemma MovingBytesIsLess(c: Config, s: State, a: Action)
    requires Enabled(c, s, a) && MovesBytes(a)
    ensures Load(Next(c, s, a)) < Load(s) && Phases(Next(c, s, a)) == Phases(s)
  {
    StreamsMoveOn(c, s, a);
    hide Behave;
  }

  lemma MovingOnIsLess(c: Config, s: State, a: Action)
    requires Enabled(c, s, a) && !MovesBytes(a) && !a.ChildActs? && !a.ChildIsKilled?
    ensures Load(Next(c, s, a)) == Load(s) && Phases(Next(c, s, a)) < Phases(s)
  {
    hide Behave;
  }

  lemma EveryStepDescends(c: Config, s: State, a: Action)
    requires WriterConsistent(s) && Enabled(c, s, a)
    ensures Measure(Next(c, s, a)) < Measure(s)
  {
    if a.ChildActs? {
      ChildActsLess(c, s);
    } else if a.ChildIsKilled? {
      assert Remaining(s).actions >= 1;
    } else {
      hide Next, Enabled, Load, Phases;
      if MovesBytes(a) {
        MovingBytesIsLess(c, s, a);
      } else {
        MovingOnIsLess(c, s, a);
      }
    }
  }

  /** No run, whatever the scheduler and the environment do, is longer than a number known at the start. */
  lemma {:induction false} RunsAreBounded(c: Config, s: State, acts: seq<Action>, t: State)
    requires Inv(c, s) && IsRun(c, s, acts, t)
    ensures |acts| + Measure(t) <= Measure(s)
    decreases |acts|
  {
    if acts != [] {
      StepKeepsInv(c, s, acts[0]);
      EveryStepDescends(c, s, acts[0]);
      RunsAreBounded(c, Next(c, s, acts[0]), acts[1..], t);
    }
  }

  // ---------------------------------------------------------------- deadlock

  /** The one shape of a deadlock: the child waits for room in an output pipe nobody empties any more. */
  predicate Deadlocked(c: Config, s: State) {
    && s.main.Waiting? && s.collector.Idle?
    && s.child.Running? && s.child.p.Emit?
    && (s.child.p.to.ToStdout? ==> |s.stdout| == c.stdoutCap && s.reader == DoneR(true))
    && (s.child.p.to.ToStderr? ==> |s.stderr| == c.stderrCap)
    && (s.stderr == [] || !PumpAlive(c.logBuffer, s.logged))
    && (s.reader == DoneR(true) || (s.reader.Reading? && s.stdout == []))
    && (s.writer == DoneW(false)
        || (s.writer.Writing? && s.unwritten != [] && |s.stdin| == c.stdinCap))
    && !(s.writer.DoneW? && s.reader.DoneR?)
  }

  /** Before `wg.Wait` returns, a state in which nothing can move is exactly a `Deadlocked` one. */
  lemma StuckIffDeadlocked(c: Config, s: State)
    requires c.Valid() && Inv(c, s) && s.main.Waiting?
    ensures Stuck(c, s) <==> Deadlocked(c, s)
  {
    if Stuck(c, s) {
      StuckWorkers(c, s);
      assert !Enabled(c, s, PumpByte) && !Enabled(c, s, Return);
    }
    if Deadlocked(c, s) {
      forall a | Enabled(c, s, a) ensures Environmental(a) {
      }
    }
  }

  lemma StuckChild(c: Config, s: State)
    requires c.Valid() && WriterConsistent(s) && ReaderConsistent(s) && WithinCapacity(c, s)
    requires s.main.Waiting? && Stuck(c, s)
    ensures s.child.Running? && s.child.p.Emit?
    ensures s.child.p.to.ToStdout? ==> |s.stdout| == c.stdoutCap
    ensures s.child.p.to.ToStderr? ==> |s.stderr| == c.stderrCap
  {
    StuckGoroutines(c, s);
    assert !Enabled(c, s, ChildActs) && !Enabled(c, s, Return);
    assert !Enabled(c, s, WriteFails) && !Enabled(c, s, ReadEnds);
  }

  lemma StuckGoroutines(c: Config, s: State)
    requires c.Valid() && WriterConsistent(s) && ReaderConsistent(s) && WithinCapacity(c, s) && Stuck(c, s)
    ensures s.collector.Idle?
    ensures s.reader.DoneR? || (s.reader.Reading? && s.stdout == [])
    ensures s.writer.DoneW?
            || (s.writer.Writing? && s.unwritten != [] && (s.child.Running? ==> |s.stdin| == c.stdinCap))
  {
    assert !Enabled(c, s, AppendError);
    assert !Enabled(c, s, WriteEnds) && !Enabled(c, s, WriteChunk(1));
    assert !Enabled(c, s, CloseStdin) && !Enabled(c, s, SendWriteError) && !Enabled(c, s, WriterDone);
    assert !Enabled(c, s, ReadChunk(1));
    assert !Enabled(c, s, SendReadError) && !Enabled(c, s, ReaderDone);
  }

  lemma StuckWorkers(c: Config, s: State)
    requires c.Valid() && WriterConsistent(s) && ReaderConsistent(s) && WithinCapacity(c, s)
    requires s.main.Waiting? && Stuck(c, s)
    ensures s.collector.Idle? && s.child.Running? && s.child.p.Emit?
    ensures s.child.p.to.ToStdout? ==> |s.stdout| == c.stdoutCap
    ensures s.child.p.to.ToStderr? ==> |s.stderr| == c.stderrCap
    ensures s.reader == DoneR(true) || (s.reader.Reading? && s.stdout == [])
    ensures s.writer == DoneW(false)
            || (s.writer.Writing? && s.unwritten != [] && |s.stdin| == c.stdinCap)
  {
    hide Stuck, WithinCapacity;
    StuckGoroutines(c, s);
    StuckChild(c, s);
  }

  /** Whether the child can get rid of its whole stderr: what the log pump takes plus one pipe full. */
  predicate StderrFits(c: Config) {
    |c.Expected().err| <= Drained(c.logBuffer, c.Expected().err) + c.stderrCap
  }

  /** Then it never waits for room on stderr once the pump has nothing to do. */
  lemma StderrHasRoom(c: Config, s: State)
    requires Inv(c, s) && StderrFits(c) && s.child.Running? && s.child.p.Emit? && s.child.p.to.ToStderr?
    requires s.stderr == [] || !PumpAlive(c.logBuffer, s.logged)
    ensures s.stderr == [] || |s.stderr| < c.stderrCap
  {
    var rest := Remaining(s).err;
    DrainedStep(c.logBuffer, s.logged, s.stderr);
    DrainedExtends(c.logBuffer, s.logged + s.stderr, rest);
  }

  /** A child whose stderr does not fit is never waited out: only a kill or a failing read ends the call. */
  lemma OverflowNeverReturns(c: Config, s: State)
    requires Inv(c, s) && !ReadFailed(s) && !WasKilled(s)
    requires !StderrFits(c)
    ensures !s.main.Returned?
  {
  }

  // ---------------------------------------------------------------- what the call returns

  /** If reading stdout did not fail, the returned data is the child's whole stdout; a kill can only cut it. */
  lemma ReturnedData(c: Config, acts: seq<Action>, t: State)
    requires c.Valid() && IsRun(c, Init(c), acts, t) && t.main.Returned? && !ReadFailed(t)
    ensures t.main.data.Some? && t.child.Exited?
    ensures !WasKilled(t) ==> t.main.data.value == c.Expected().out
                              && t.child == Exited(Finished(c.Expected().ok))
    ensures WasKilled(t) ==> t.main.data.value <= c.Expected().out
  {
    ReachableHasInv(c, acts, t);
    assert t.gathered + t.stdout == t.gathered;
  }

  /** Whatever the child has printed on stdout at some moment is in the result, even if it is killed afterwards. */
  lemma PrintedIsReturned(c: Config, s: State, acts: seq<Action>, t: State)
    requires Inv(c, s) && IsRun(c, s, acts, t) && t.main.Returned? && !ReadFailed(t)
    ensures t.main.data.Some? && s.gathered + s.stdout <= t.main.data.value
  {
    PrintedGrows(c, s, acts, t);
    RunKeepsInv(c, s, acts, t);
    assert t.gathered + t.stdout == t.gathered;
  }

  lemma {:induction false} PrintedGrows(c: Config, s: State, acts: seq<Action>, t: State)
    requires IsRun(c, s, acts, t)
    ensures s.gathered + s.stdout <= t.gathered + t.stdout
    decreases |acts|
  {
    hide Next, Enabled;
    if acts != [] {
      StepPrints(c, s, acts[0]);
      PrintedGrows(c, Next(c, s, acts[0]), acts[1..], t);
    }
  }

  lemma StepPrints(c: Config, s: State, a: Action)
    requires Enabled(c, s, a)
    ensures s.gathered + s.stdout <= Next(c, s, a).gathered + Next(c, s, a).stdout
  {
    var t := Next(c, s, a);
    if a.ChildActs? {
      assert t.stdout == s.stdout || exists b :: t.stdout == s.stdout + [b];
      assert s.stdout <= t.stdout && t.gathered == s.gathered;
    }
  }

  /** Two schedules of the same call return the same data and see the same exit status. */
  lemma ScheduleIndependence(c: Config, acts: seq<Action>, t: State, acts': seq<Action>, t': State)
    requires c.Valid()
    requires IsRun(c, Init(c), acts, t) && t.main.Returned? && !ReadFailed(t) && !WasKilled(t)
    requires IsRun(c, Init(c), acts', t') && t'.main.Returned? && !ReadFailed(t') && !WasKilled(t')
    ensures t.main.data == t'.main.data && t.child == t'.child
  {
    ReturnedData(c, acts, t);
    ReturnedData(c, acts', t');
  }

  /** The returned errors are the delivered ones in delivery order, short of at most the last; what was
      delivered is one error per direction that failed. Two failures are therefore never overlooked. */
  lemma AtMostOneErrorLost(c: Config, acts: seq<Action>, t: State)
    requires c.Valid() && IsRun(c, Init(c), acts, t) && t.main.Returned?
    ensures t.main.errs <= t.delivered && |t.delivered| <= |t.main.errs| + 1
    ensures multiset(t.delivered) == (if WriteFailed(t) then multiset{StdinWriteError} else multiset{})
                                     + (if ReadFailed(t) then multiset{StdoutReadError} else multiset{})
    ensures WriteFailed(t) && ReadFailed(t) ==> t.main.errs != []
    ensures !WriteFailed(t) && !ReadFailed(t) ==> t.main.errs == []
  {
    ReachableHasInv(c, acts, t);
    DeliveredAre(t.delivered, WriteFailed(t), ReadFailed(t));
  }

  lemma DeliveredAre(d: seq<PipeError>, write: bool, read: bool)
    requires (StdinWriteError in d <==> write) && (StdoutReadError in d <==> read)
    requires |d| == (if write then 1 else 0) + (if read then 1 else 0)
    ensures multiset(d) == (if write then multiset{StdinWriteError} else multiset{})
                           + (if read then multiset{StdoutReadError} else multiset{})
  {
    if |d| == 1 {
      assert d == [d[0]];
    } else if |d| == 2 {
      assert d == [d[0], d[1]];
    }
  }

  /** The writer fails only if the child exits without reading all of its input (or is killed). */
  lemma WriteFailsOnlyOnUnreadInput(c: Config, acts: seq<Action>, t: State)
    requires c.Valid() && IsRun(c, Init(c), acts, t)
    requires WriteFailed(t) && !WasKilled(t)
    ensures c.Expected().left > 0
  {
    FailedWriteLeavesBytes(c, Init(c), acts, t);
    ReachableHasInv(c, acts, t);
  }

  lemma {:induction false} FailedWriteLeavesBytes(c: Config, s: State, acts: seq<Action>, t: State)
    requires IsRun(c, s, acts, t)
    requires WriteFailed(s) ==> s.unwritten != []
    ensures WriteFailed(t) ==> t.unwritten != []
    decreases |acts|
  {
    if acts != [] {
      FailedWriteLeavesBytes(c, Next(c, s, acts[0]), acts[1..], t);
    }
  }

  /** Conversely, a child that has exited gets no more input: if the writer still has some, the write fails, and its
      error is delivered before the call returns. */
  lemma {:induction false} EarlyExitFailsTheWrite(c: Config, s: State, acts: seq<Action>, t: State)
    requires Inv(c, s) && IsRun(c, s, acts, t)
    requires s.child.Exited? && s.unwritten != []
    ensures t.unwritten == s.unwritten && t.child == s.child
    ensures t.main.Returned? ==> WriteFailed(t) && StdinWriteError in t.delivered
    decreases |acts|
  {
    hide Next, Enabled, Inv;
    if acts != [] {
      StepKeepsInv(c, s, acts[0]);
      NoMoreInput(c, s, acts[0]);
      EarlyExitFailsTheWrite(c, Next(c, s, acts[0]), acts[1..], t);
    } else {
      ReturnedWithInput(c, s);
    }
  }

  lemma NoMoreInput(c: Config, s: State, a: Action)
    requires s.child.Exited? && Enabled(c, s, a)
    ensures Next(c, s, a).unwritten == s.unwritten && Next(c, s, a).child == s.child
  {
  }

  lemma ReturnedWithInput(c: Config, s: State)
    requires Inv(c, s) && s.unwritten != []
    ensures s.main.Returned? ==> WriteFailed(s) && StdinWriteError in s.delivered
  {
  }

  // ---------------------------------------------------------------- reaching states

  ghost predicate Reachable(c: Config, s: State) {
    exists acts :: IsRun(c, Init(c), acts, s)
  }

  lemma {:induction false} Extend(c: Config, s: State, acts: seq<Action>, t: State, a: Action)
    requires IsRun(c, s, acts, t) && Enabled(c, t, a)
    ensures IsRun(c, s, acts + [a], Next(c, t, a))
    decreases |acts|
  {
    if acts == [] {
      assert (acts + [a])[1..] == [];
    } else {
      Extend(c, Next(c, s, acts[0]), acts[1..], t, a);
      assert (acts + [a])[1..] == acts[1..] + [a];
    }
  }

  lemma ReachStep(c: Config, s: State, a: Action) returns (t: State)
    requires Reachable(c, s) && Enabled(c, s, a)
    ensures t == Next(c, s, a) && Reachable(c, t)
  {
    var acts :| IsRun(c, Init(c), acts, s);
    Extend(c, Init(c), acts, s, a);
    t := Next(c, s, a);
  }
}
