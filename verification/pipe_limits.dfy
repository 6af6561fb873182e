/** Where the guarantees of `pipeToProcess` end: exactly which calls can hang, and which ones can lose their
    only error, as conditions on the call that do not mention any run. */
module PipeLimits {
  import opened ByteStreams
  import opened PipeMachine
  import opened PipeProofs

  // ---------------------------------------------------------------- running on

  /** A part of what the scheduler may choose from. */
  type Choice = (State, Action) -> bool

  ghost predicate Keeps(c: Config, chosen: Choice, keep: State -> bool) {
    forall s, a :: keep(s) && Enabled(c, s, a) && chosen(s, a) ==> keep(Next(c, s, a))
  }

  ghost predicate RanOut(c: Config, s: State, chosen: Choice) {
    forall a :: Enabled(c, s, a) ==> !chosen(s, a)
  }

  /** The scheduler can go on with the chosen steps alone until none of them is left. */
  lemma {:induction false} RunOut(c: Config, s: State, chosen: Choice, keep: State -> bool) returns (t: State)
    requires c.Valid() && Reachable(c, s) && keep(s) && Keeps(c, chosen, keep)
    ensures Reachable(c, t) && Inv(c, t) && keep(t) && RanOut(c, t, chosen)
    decreases Measure(s)
  {
    ReachableInv(c, s);
    hide Next, Enabled, Measure, Inv, Reachable;
    if RanOut(c, s, chosen) {
      t := s;
    } else {
      var a :| Enabled(c, s, a) && chosen(s, a);
      var s' := ReachStep(c, s, a);
      Descends(c, s, a);
      t := RunOut(c, s', chosen, keep);
    }
  }

  lemma ReachableInv(c: Config, s: State)
    requires c.Valid() && Reachable(c, s)
    ensures Inv(c, s)
  {
    var acts :| IsRun(c, Init(c), acts, s);
    ReachableHasInv(c, acts, s);
  }

  lemma Descends(c: Config, s: State, a: Action)
    requires Inv(c, s) && Enabled(c, s, a)
    ensures Measure(Next(c, s, a)) < Measure(s)
  {
    EveryStepDescends(c, s, a);
  }

  lemma ReachInit(c: Config)
    ensures Reachable(c, Init(c))
  {
    assert IsRun(c, Init(c), [], Init(c));
  }

  // ---------------------------------------------------------------- how much input the child asks for

  /** How many bytes of its input the child reads before it prints byte `k` (counted from 0) of its stdout. */
  function Consumed(p: Program, input: bytes, k: nat): (n: nat)
    ensures n <= |input|
    decreases p
  {
    match p
    case Exit(_) => 0
    case Emit(ToStdout, _, next) => if k == 0 then 0 else Consumed(next, input, k - 1)
    case Emit(ToStderr, _, next) => Consumed(next, input, k)
    case Read(branches, otherwise) =>
      var x := if input == [] then None else Some(input[0]);
      var tail := if input == [] then [] else input[1..];
      (if input == [] then 0 else 1)
      + if x in branches then Consumed(branches[x], tail, k) else Consumed(otherwise, tail, k)
  }

  lemma {:induction false} ConsumedGrows(p: Program, input: bytes, k: nat, more: nat)
    requires k <= more
    ensures Consumed(p, input, k) <= Consumed(p, input, more)
    decreases p
  {
    match p
    case Exit(_) =>
    case Emit(ToStdout, _, next) =>
      if k > 0 {
        ConsumedGrows(next, input, k - 1, more - 1);
      }
    case Emit(ToStderr, _, next) => ConsumedGrows(next, input, k, more);
    case Read(branches, otherwise) =>
      var x := if input == [] then None else Some(input[0]);
      var tail := if input == [] then [] else input[1..];
      if x in branches {
        ConsumedGrows(branches[x], tail, k, more);
      } else {
        ConsumedGrows(otherwise, tail, k, more);
      }
  }

  function Emitted(s: State): nat {
    |s.gathered| + |s.stdout|
  }

  /** Before byte `k` of its stdout, the child has taken from stdin what it will have consumed by then, less what
      it still consumes. */
  predicate ConsumedSoFar(c: Config, s: State, k: nat) {
    s.child.Running? && Emitted(s) <= k ==>
      var rest := s.stdin + s.unwritten;
      Consumed(c.program, c.input, k) + |rest| == |c.input| + Consumed(s.child.p, rest, k - Emitted(s))
  }

  lemma StepKeepsConsumed(c: Config, s: State, a: Action, k: nat)
    requires ConsumedSoFar(c, s, k) && WriterConsistent(s) && Enabled(c, s, a)
    ensures ConsumedSoFar(c, Next(c, s, a), k)
  {
    var t := Next(c, s, a);
    match a
    case WriteChunk(n) => assert t.stdin + t.unwritten == s.stdin + s.unwritten;
    case ReadChunk(n) => assert Emitted(t) == Emitted(s);
    case ChildActs => ChildKeepsConsumed(c, s, k);
    case ChildIsKilled =>
    case _ =>
  }

  lemma ChildKeepsConsumed(c: Config, s: State, k: nat)
    requires ConsumedSoFar(c, s, k) && WriterConsistent(s) && Enabled(c, s, ChildActs)
    ensures ConsumedSoFar(c, ChildNext(s), k)
  {
    var t := ChildNext(s);
    var rest, rest' := s.stdin + s.unwritten, t.stdin + t.unwritten;
    if s.child.p.Read? {
      if s.stdin == [] {
        assert rest == [] && rest' == [];
      } else {
        assert rest[1..] == rest' && rest[0] == s.stdin[0];
      }
    }
  }

  lemma {:induction false} RunKeepsConsumed(c: Config, s: State, acts: seq<Action>, t: State, k: nat)
    requires Inv(c, s) && ConsumedSoFar(c, s, k) && IsRun(c, s, acts, t)
    ensures ConsumedSoFar(c, t, k)
    decreases |acts|
  {
    hide ConsumedSoFar, Next;
    if acts != [] {
      StepKeepsInv(c, s, acts[0]);
      StepKeepsConsumed(c, s, acts[0], k);
      RunKeepsConsumed(c, Next(c, s, acts[0]), acts[1..], t, k);
    }
  }

  lemma ReachableConsumed(c: Config, s: State, k: nat)
    requires c.Valid() && Reachable(c, s)
    ensures ConsumedSoFar(c, s, k)
  {
    var acts :| IsRun(c, Init(c), acts, s);
    InitHolds(c);
    assert [] + c.input == c.input;
    RunKeepsConsumed(c, Init(c), acts, s, k);
  }

  // ---------------------------------------------------------------- which calls can hang

  /** With nobody reading stdout any more: either all of it fits its pipe, or the child asks for so much of its
      input beforehand that the rest fits the stdin pipe. */
  predicate SurvivesReadFailure(c: Config) {
    || |c.Expected().out| <= c.stdoutCap
    || |c.input| - Consumed(c.program, c.input, c.stdoutCap) <= c.stdinCap
  }

  /** What it takes to be stuck before `wg.Wait` returns. */
  lemma StuckMeans(c: Config, s: State)
    requires c.Valid() && Reachable(c, s) && s.main.Waiting? && Stuck(c, s)
    ensures !StderrFits(c) || (ReadFailed(s) && !SurvivesReadFailure(c))
  {
    ReachableInv(c, s);
    StuckIffDeadlocked(c, s);
    if StderrFits(c) {
      if s.child.p.to.ToStderr? {
        StderrHasRoom(c, s);
      }
      var rest := s.stdin + s.unwritten;
      ReachableConsumed(c, s, Emitted(s));
      ConsumedGrows(c.program, c.input, c.stdoutCap, Emitted(s));
      assert |Remaining(s).out| > 0;
    }
  }

  /** The reader has given up before it got anything, everybody else has gone on for as long as possible. */
  ghost predicate Abandoned(c: Config, s: State) {
    && s.reader.SendingR? && s.gathered == [] && s.main.Waiting?
    && s.collector.Idle? && s.errors == []
    && s.child.Running? && !ChildCanAct(c, s)
    && (s.stderr == [] || !PumpAlive(c.logBuffer, s.logged))
    && (s.writer == DoneW(false) || (s.writer.Writing? && s.unwritten != [] && |s.stdin| == c.stdinCap))
  }

  /** What everybody else may do meanwhile. */
  predicate WithoutReader(s: State, a: Action) {
    a.WriteChunk? || a.WriteEnds? || a.CloseStdin? || a.WriterDone? || a.ChildActs? || a.PumpByte?
  }

  predicate GivenUp(s: State) {
    && s.reader.SendingR? && s.gathered == [] && s.main.Waiting? && s.collector.Idle? && s.errors == []
    && !WasKilled(s)
  }

  lemma GivenUpStays(c: Config)
    ensures Keeps(c, WithoutReader, GivenUp)
  {
  }

  lemma GivenUpRunsOut(c: Config, s: State)
    requires c.Valid() && Inv(c, s) && GivenUp(s) && RanOut(c, s, WithoutReader)
    requires |c.Expected().out| > c.stdoutCap
    ensures Abandoned(c, s)
  {
    assert s.child.Running?;
    assert !Enabled(c, s, ChildActs) && !Enabled(c, s, PumpByte);
    assert !Enabled(c, s, WriteEnds) && !Enabled(c, s, WriteChunk(1));
    assert !Enabled(c, s, CloseStdin) && !Enabled(c, s, WriterDone);
  }

  /** A child with more stdout than its pipe holds can be abandoned. */
  lemma CanBeAbandoned(c: Config) returns (s: State)
    requires c.Valid() && |c.Expected().out| > c.stdoutCap
    ensures Reachable(c, s) && Inv(c, s) && Abandoned(c, s)
  {
    ReachInit(c);
    s := ReachStep(c, Init(c), ReadFails);
    assert GivenUp(s);
    GivenUpStays(c);
    hide Next, Enabled, Keeps, RanOut, GivenUp, Inv, Reachable, Abandoned;
    s := RunOut(c, s, WithoutReader, GivenUp);
    GivenUpRunsOut(c, s);
  }

  lemma NoRoomForMore(c: Config, s: State)
    requires c.Valid() && Reachable(c, s) && Inv(c, s) && Abandoned(c, s)
    requires !SurvivesReadFailure(c)
    ensures s.writer.Writing?
  {
    if s.writer.DoneW? {
      ReachableConsumed(c, s, c.stdoutCap);
    }
  }

  /** With its report delivered, an abandoned call hangs if the writer has not finished. */
  lemma AbandonedHangs(c: Config, s: State) returns (t: State)
    requires c.Valid() && Reachable(c, s) && Abandoned(c, s) && s.writer.Writing?
    ensures Reachable(c, t) && t.main.Waiting? && Stuck(c, t)
  {
    hide Reachable;
    t := ReachStep(c, s, SendReadError);
    t := ReachStep(c, t, AppendError);
    t := ReachStep(c, t, ReaderDone);
  }

  predicate Unprovoked(s: State, a: Action) {
    !Environmental(a)
  }

  predicate Undisturbed(s: State) {
    !ReadFailed(s) && !WasKilled(s)
  }

  lemma UndisturbedStays(c: Config)
    ensures Keeps(c, Unprovoked, Undisturbed)
  {
  }

  /** Without a mishap, the session runs until nothing moves. */
  lemma RunsUndisturbed(c: Config) returns (t: State)
    requires c.Valid()
    ensures Reachable(c, t) && Inv(c, t) && Undisturbed(t) && Stuck(c, t)
  {
    ReachInit(c);
    UndisturbedStays(c);
    assert Undisturbed(Init(c));
    hide Next, Enabled, Keeps, Undisturbed, Inv, Reachable;
    t := RunOut(c, Init(c), Unprovoked, Undisturbed);
  }

  /** A call of `pipeToProcess` can hang if and only if the child's stderr does not fit, or a failing read of
      stdout would leave the child without room for its stdout and the writer without room for the input. */
  lemma HangsIff(c: Config)
    requires c.Valid()
    ensures (exists s :: Reachable(c, s) && s.main.Waiting? && Stuck(c, s))
            <==> !StderrFits(c) || !SurvivesReadFailure(c)
  {
    hide Inv, Stuck, Reachable, StderrFits;
    if s :| Reachable(c, s) && s.main.Waiting? && Stuck(c, s) {
      StuckMeans(c, s);
    }
    if !StderrFits(c) {
      var t := RunsUndisturbed(c);
      OverflowNeverReturns(c, t);
    }
    if !SurvivesReadFailure(c) {
      var s := CanBeAbandoned(c);
      NoRoomForMore(c, s);
      s := AbandonedHangs(c, s);
    }
  }

  /** Three bytes of stderr without a newline, for a log buffer of one byte and a pipe of one byte. */
  function ChattyChild(): Config {
    Config([], Emit(ToStderr, 65, Emit(ToStderr, 65, Emit(ToStderr, 65, Exit(true)))), 1, 1, 1, 1)
  }

  /** Without any mishap, that call gets stuck. */
  lemma ChattyChildHangs() returns (s: State)
    ensures Reachable(ChattyChild(), s) && Undisturbed(s) && s.main.Waiting? && Stuck(ChattyChild(), s)
  {
    var c := ChattyChild();
    var err: bytes := [65, 65, 65];
    assert c.Expected().err == err;
    assert err[..2] == [65, 65] && err[..2][..1] == [65] && err[..2][..1][..0] == [];
    assert Drained(1, err[..2][..1]) == 1;
    assert Drained(1, err[..2]) == 1;
    s := RunsUndisturbed(c);
    OverflowNeverReturns(c, s);
  }

  /** A run that has nothing more to do has returned from `pipeToProcess`: left alone, if and only if the child's
      stderr fits; whatever happens, if in addition a failing read cannot hang it; always after a kill. Every run
      gets there within `Measure(Init(c))` steps. */
  lemma FinishedRunHasReturned(c: Config, acts: seq<Action>, t: State)
    requires c.Valid() && IsRun(c, Init(c), acts, t) && Stuck(c, t)
    ensures !ReadFailed(t) && !WasKilled(t) ==> (t.main.Returned? <==> StderrFits(c))
    ensures StderrFits(c) && SurvivesReadFailure(c) ==> t.main.Returned?
    ensures WasKilled(t) ==> t.main.Returned?
    ensures |acts| <= Measure(Init(c))
  {
    InitHolds(c);
    ReachableHasInv(c, acts, t);
    RunsAreBounded(c, Init(c), acts, t);
    assert Reachable(c, t);
    if t.main.Waiting? {
      StuckMeans(c, t);
      StuckIffDeadlocked(c, t);
    } else if !StderrFits(c) && !ReadFailed(t) && !WasKilled(t) {
      OverflowNeverReturns(c, t);
    }
  }

  /** By the time nothing moves any more, the log of a child that has exited holds its stderr as far as the pump takes
      it. */
  lemma StderrIsLogged(c: Config, acts: seq<Action>, t: State)
    requires c.Valid() && IsRun(c, Init(c), acts, t) && Stuck(c, t) && t.child.Exited? && !WasKilled(t)
    ensures t.logged == c.Expected().err[..Drained(c.logBuffer, c.Expected().err)]
  {
    ReachableHasInv(c, acts, t);
    assert !Enabled(c, t, PumpByte);
    DrainedStep(c.logBuffer, t.logged, t.stderr);
    assert t.stderr == [] ==> t.logged + t.stderr == t.logged;
  }

  // ---------------------------------------------------------------- including the wait for the exit

  /** The call as a whole hangs: before `wg.Wait` returns, or afterwards, with no error noticed, in `cmd.Wait`. */
  ghost predicate CallStuck(c: Config, s: State) {
    Stuck(c, s) && (s.main.Waiting? || (s.main.errs == [] && s.child.Running?))
  }

  lemma CallStuckMeans(c: Config, s: State)
    requires c.Valid() && Reachable(c, s) && CallStuck(c, s)
    ensures !StderrFits(c) || (ReadFailed(s) && |c.Expected().out| > c.stdoutCap)
  {
    ReachableInv(c, s);
    if s.main.Waiting? {
      StuckMeans(c, s);
    } else if StderrFits(c) {
      assert !Enabled(c, s, ChildActs) && !Enabled(c, s, PumpByte);
      assert s.child.p.Emit?;
      if s.child.p.to.ToStderr? {
        StderrHasRoom(c, s);
      }
      assert |Remaining(s).out| > 0;
    }
  }

  /** A read error that is lost leaves the caller waiting for a child that nobody listens to. */
  lemma LostReadErrorHangs(c: Config, s: State) returns (t: State)
    requires c.Valid() && Reachable(c, s) && Abandoned(c, s) && s.writer.DoneW?
    ensures Reachable(c, t) && CallStuck(c, t)
  {
    hide Reachable;
    t := ReachStep(c, s, SendReadError);
    t := ReachStep(c, t, ReaderDone);
    t := ReachStep(c, t, Return);
    t := ReachStep(c, t, AppendError);
  }

  /** The whole call can hang if and only if stderr does not fit or stdout does not fit its pipe. */
  lemma CallHangsIff(c: Config)
    requires c.Valid()
    ensures (exists s :: Reachable(c, s) && CallStuck(c, s))
            <==> !StderrFits(c) || |c.Expected().out| > c.stdoutCap
  {
    hide Inv, Stuck, Reachable, StderrFits;
    if s :| Reachable(c, s) && CallStuck(c, s) {
      CallStuckMeans(c, s);
    }
    if !StderrFits(c) {
      var t := RunsUndisturbed(c);
      OverflowNeverReturns(c, t);
      assert CallStuck(c, t);
    }
    if |c.Expected().out| > c.stdoutCap {
      var s := CanBeAbandoned(c);
      if s.writer.DoneW? {
        s := LostReadErrorHangs(c, s);
      } else {
        assert s.writer.Writing?;
        s := AbandonedHangs(c, s);
        assert CallStuck(c, s);
      }
    }
  }

  /** The way out of every hang: the execution timeout can still kill the child, and every run that then goes on for
      as long as it can ends with `pipeToProcess` returned and the child gone. */
  lemma KillEndsTheCall(c: Config, s: State, acts: seq<Action>, t: State)
    requires c.Valid() && Reachable(c, s) && CallStuck(c, s)
    ensures Enabled(c, s, ChildIsKilled)
    ensures IsRun(c, Next(c, s, ChildIsKilled), acts, t) && Stuck(c, t) ==> t.main.Returned? && WasKilled(t)
  {
    ReachableInv(c, s);
    if s.main.Waiting? {
      StuckIffDeadlocked(c, s);
    }
    StepKeepsInv(c, s, ChildIsKilled);
    if IsRun(c, Next(c, s, ChildIsKilled), acts, t) && Stuck(c, t) {
      ExitedForGood(c, Next(c, s, ChildIsKilled), acts, t);
      RunKeepsInv(c, Next(c, s, ChildIsKilled), acts, t);
      if t.main.Waiting? {
        StuckIffDeadlocked(c, t);
      }
    }
  }

  lemma {:induction false} ExitedForGood(c: Config, s: State, acts: seq<Action>, t: State)
    requires s.child.Exited? && IsRun(c, s, acts, t)
    ensures t.child == s.child
    decreases |acts|
  {
    hide Next, Enabled;
    if acts != [] {
      NoMoreInput(c, s, acts[0]);
      ExitedForGood(c, Next(c, s, acts[0]), acts[1..], t);
    }
  }

  // ---------------------------------------------------------------- which calls can lose their only error

  /** The writer hands over a byte only when the child waits for it; reader and pump keep up. */
  predicate OnDemand(s: State, a: Action) {
    || a.ChildActs? || a.ReadChunk? || a.PumpByte?
    || (a == WriteChunk(1) && s.stdin == [] && s.child.Running? && s.child.p.Read?)
  }

  predicate Stingy(s: State) {
    && s.writer.Writing? && s.reader.Reading? && s.collector.Idle? && s.errors == [] && s.delivered == []
    && s.main.Waiting? && !WasKilled(s)
    && (s.stdin != [] ==> |s.stdin| == 1 && s.child.Running? && s.child.p.Read?)
  }

  lemma StingyStays(c: Config)
    ensures Keeps(c, OnDemand, Stingy)
  {
  }

  lemma LeftAtMost(p: Program, input: bytes)
    ensures Behave(p, input).left <= |input|
    decreases p
  {
  }

  /** Fed on demand, a child that leaves input unread gets to its exit while the writer still has some of it. */
  lemma StingyRunsOut(c: Config, s: State)
    requires c.Valid() && Inv(c, s) && Stingy(s) && RanOut(c, s, OnDemand)
    requires StderrFits(c) && c.Expected().left > 0
    ensures s.child == Exited(Finished(c.Expected().ok)) && s.unwritten != []
    ensures s.stdout == [] && s.gathered == c.Expected().out
  {
    assert !Enabled(c, s, ChildActs) && !Enabled(c, s, PumpByte);
    assert !Enabled(c, s, ReadChunk(1));
    assert OnDemand(s, WriteChunk(1)) ==> !Enabled(c, s, WriteChunk(1));
    assert s.stdout == [];
    if s.child.Running? {
      if s.child.p.Emit? && s.child.p.to.ToStderr? {
        StderrHasRoom(c, s);
      }
      LeftAtMost(s.child.p, s.stdin + s.unwritten);
      assert false;
    }
  }

  /** Such a call, all but returned: its write error has been handed over but not yet appended. */
  lemma ErrorInFlight(c: Config) returns (s: State)
    requires c.Valid() && StderrFits(c) && c.Expected().left > 0
    ensures Reachable(c, s) && s.main.Waiting? && s.writer == DoneW(true) && s.reader == DoneR(false)
    ensures s.child == Exited(Finished(c.Expected().ok)) && s.functionResult == Some(c.Expected().out)
    ensures s.collector == Holding(StdinWriteError) && s.errors == []
  {
    ReachInit(c);
    StingyStays(c);
    assert Stingy(Init(c));
    hide Keeps, RanOut, Inv, Reachable, StderrFits;
    s := RunOut(c, Init(c), OnDemand, Stingy);
    StingyRunsOut(c, s);
    hide Behave, ChildCanAct;
    s := ReachStep(c, s, WriteFails);
    s := ReachStep(c, s, CloseStdin);
    s := ReachStep(c, s, SendWriteError);
    s := ReachStep(c, s, WriterDone);
    s := ReachStep(c, s, ReadEnds);
    s := ReachStep(c, s, ReaderDone);
  }

  /** Every child that leaves input unread makes its call a race: left alone, the write can fail, and the call can
      then return without that error, or with it. */
  lemma SingleErrorIsARace(c: Config) returns (lost: State, kept: State)
    requires c.Valid() && StderrFits(c) && c.Expected().left > 0
    ensures Reachable(c, lost) && Undisturbed(lost) && WriteFailed(lost)
    ensures Reachable(c, kept) && Undisturbed(kept) && WriteFailed(kept)
    ensures lost.child == kept.child == Exited(Finished(c.Expected().ok))
    ensures lost.main == Returned(Some(c.Expected().out), [])
    ensures kept.main == Returned(Some(c.Expected().out), [StdinWriteError])
  {
    hide Reachable, Behave, StderrFits;
    var s := ErrorInFlight(c);
    lost := ReachStep(c, s, Return);
    kept := ReachStep(c, s, AppendError);
    kept := ReachStep(c, kept, Return);
  }

  // ---------------------------------------------------------------- which calls can send truncated output

  /** The reader holds the last byte of stdout back, and the child has yet to exit. */
  predicate HoldsBack(c: Config, s: State) {
    && s.reader.Reading? && |s.gathered| < |c.Expected().out|
    && s.main.Waiting? && s.collector.Idle? && s.errors == []
    && s.child.Running?
  }

  predicate BeforeTheLastByte(c: Config, s: State, a: Action) {
    || a.WriteChunk? || a.WriteEnds? || a.CloseStdin? || a.WriterDone? || a.PumpByte?
    || (a.ReadChunk? && |s.gathered| + a.n < |c.Expected().out|)
    || (a.ChildActs? && s.child.Running? && !s.child.p.Exit?)
  }

  lemma HoldsBackStays(c: Config)
    ensures Keeps(c, (s, a) => BeforeTheLastByte(c, s, a), s => HoldsBack(c, s))
  {
  }

  lemma HeldBackReads(c: Config, s: State)
    requires c.Valid() && Inv(c, s) && HoldsBack(c, s) && RanOut(c, s, (s, a) => BeforeTheLastByte(c, s, a))
    ensures s.stdin != [] || !s.stdinOpen
  {
    assert BeforeTheLastByte(c, s, WriteEnds) && !Enabled(c, s, WriteEnds);
    assert BeforeTheLastByte(c, s, WriteChunk(1)) && !Enabled(c, s, WriteChunk(1));
    assert BeforeTheLastByte(c, s, CloseStdin) && !Enabled(c, s, CloseStdin);
  }

  lemma HeldBackPrints(c: Config, s: State)
    requires Inv(c, s) && HoldsBack(c, s) && RanOut(c, s, (s, a) => BeforeTheLastByte(c, s, a))
    requires s.child.p.Emit? && s.child.p.to.ToStdout?
    ensures s.stdout == []
  {
    assert |s.gathered| + |s.stdout| + |Remaining(s).out| == |c.Expected().out|;
    assert s.stdout != [] ==> BeforeTheLastByte(c, s, ReadChunk(1)) && Enabled(c, s, ReadChunk(1));
  }

  lemma HeldBackChild(c: Config, s: State)
    requires c.Valid() && Inv(c, s) && HoldsBack(c, s) && RanOut(c, s, (s, a) => BeforeTheLastByte(c, s, a))
    requires StderrFits(c)
    ensures s.child.p.Exit?
  {
    HeldBackReads(c, s);
    if s.child.p.Emit? {
      if s.child.p.to.ToStdout? {
        HeldBackPrints(c, s);
      } else {
        assert BeforeTheLastByte(c, s, PumpByte) && !Enabled(c, s, PumpByte);
        StderrHasRoom(c, s);
      }
    }
    assert Enabled(c, s, ChildActs);
  }

  /** Everybody else then gets as far as the child's exit, if what the child leaves unread fits the stdin pipe. */
  lemma HeldBackRunsOut(c: Config, s: State)
    requires c.Valid() && Inv(c, s) && HoldsBack(c, s) && RanOut(c, s, (s, a) => BeforeTheLastByte(c, s, a))
    requires StderrFits(c) && c.Expected().left <= c.stdinCap
    ensures s.child == Running(Exit(c.Expected().ok)) && s.writer == DoneW(false)
  {
    HeldBackChild(c, s);
    assert BeforeTheLastByte(c, s, WriteEnds) && !Enabled(c, s, WriteEnds);
    assert BeforeTheLastByte(c, s, WriteChunk(1)) && !Enabled(c, s, WriteChunk(1));
    assert BeforeTheLastByte(c, s, CloseStdin) && !Enabled(c, s, CloseStdin);
    assert BeforeTheLastByte(c, s, WriterDone) && !Enabled(c, s, WriterDone);
  }

  /** Then a read that fails, and whose error is lost, cuts the result short without anybody noticing. */
  lemma CanBeCutShort(c: Config) returns (t: State)
    requires c.Valid() && StderrFits(c) && c.Expected().ok
    requires c.Expected().out != [] && c.Expected().left <= c.stdinCap
    ensures Reachable(c, t) && t.child == Exited(Finished(true))
    ensures t.main.Returned? && t.main.errs == [] && t.main.data.Some? && t.main.data.value < c.Expected().out
  {
    ReachInit(c);
    HoldsBackStays(c);
    assert HoldsBack(c, Init(c));
    hide Keeps, RanOut, Inv, Reachable, StderrFits;
    var s := RunOut(c, Init(c), (s, a) => BeforeTheLastByte(c, s, a), s => HoldsBack(c, s));
    HeldBackRunsOut(c, s);
    GatheredIsPrefix(c, s);
    hide Behave;
    t := ReachStep(c, s, ReadFails);
    t := ReachStep(c, t, SendReadError);
    t := ReachStep(c, t, ReaderDone);
    t := ReachStep(c, t, Return);
    t := ReachStep(c, t, ChildActs);
  }

  /** The reader never has anything but the beginning of the child's stdout. */
  lemma GatheredIsPrefix(c: Config, s: State)
    requires Inv(c, s)
    ensures s.gathered <= c.Expected().out
  {
    if s.child.Running? {
      assert s.gathered + s.stdout + Remaining(s).out == s.gathered + (s.stdout + Remaining(s).out);
    }
  }

  /** What it takes for a call that seems to have succeeded to have lost part of the stdout. */
  lemma CutShortMeans(c: Config, t: State)
    requires c.Valid() && Reachable(c, t) && t.main.Returned? && t.child == Exited(Finished(true))
    requires t.main.errs == [] && t.main.data != Some(c.Expected().out)
    ensures ReadFailed(t) && c.Expected().ok && StderrFits(c)
    ensures c.Expected().out != [] && c.Expected().left <= c.stdinCap
  {
    var acts :| IsRun(c, Init(c), acts, t);
    ReachableHasInv(c, acts, t);
    AtMostOneErrorLost(c, acts, t);
    GatheredIsPrefix(c, t);
    if !ReadFailed(t) {
      ReturnedData(c, acts, t);
    }
  }
}
