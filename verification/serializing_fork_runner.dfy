/** The serializing fork runner: the goroutines as methods of one session object, and the response they lead to. */
module SerializingFork {
  import opened ByteStreams
  import opened PipeMachine
  import opened PipeProofs
  import opened PipeLimits
  import opened Responses
  import Logging

  /** Whoever decides which step comes next. It may inject environment events, but does not stop while the
      machine can move. A choice by state is enough: no run visits a state twice (`EveryStepDescends`). */
  type Scheduler = State -> Action

  ghost predicate KeepsGoing(c: Config, pick: Scheduler) {
    forall s, a :: Enabled(c, s, a) && !Environmental(a) ==> Enabled(c, s, pick(s))
  }

  /** The variables shared by `pipeToProcess`, its goroutines, the pipes and the child. */
  class PipeSession {
    const c: Config
    var unwritten: bytes
    var stdin: bytes
    var stdinOpen: bool
    var child: Child
    var stdout: bytes
    var stderr: bytes
    var logged: bytes
    var writer: Writer
    var reader: Reader
    var gathered: bytes
    var functionResult: Option<bytes>
    var collector: Collector
    var errors: seq<PipeError>
    var delivered: seq<PipeError>
    var main: Main

    function View(): State
      reads this
    {
      State(unwritten, stdin, stdinOpen, child, stdout, stderr, logged, writer, reader, gathered, functionResult,
            collector, errors, delivered, main)
    }

    constructor (c: Config)
      ensures this.c == c && View() == Init(c)
    {
      this.c := c;
      unwritten, stdin, stdinOpen := c.input, [], true;
      child, stdout, stderr, logged := Running(c.program), [], [], [];
      writer, reader, gathered, functionResult := Writing, Reading, [], None;
      collector, errors, delivered, main := Idle, [], [], Waiting;
    }

    /** The goroutine that writes stdin, closes it, reports a failure and signals the wait group. */
    method WriterStep(a: Action)
      requires a.WriteChunk? || a.WriteEnds? || a.WriteFails? || a.CloseStdin? || a.SendWriteError? || a.WriterDone?
      requires Enabled(c, View(), a)
      modifies this
      ensures View() == Next(c, old(View()), a)
    {
      match a
      case WriteChunk(n) => stdin, unwritten := stdin + unwritten[..n], unwritten[n..];
      case WriteEnds => writer := Closing(false);
      case WriteFails => writer := Closing(true);
      case CloseStdin =>
        stdinOpen := false;
        writer := if writer.failed then SendingW else FinishingW(false);
      case SendWriteError =>
        collector, delivered := Holding(StdinWriteError), delivered + [StdinWriteError];
        writer := FinishingW(true);
      case WriterDone => writer := DoneW(writer.failed);
    }

    /** The goroutine that reads stdout to its end, publishes the result and reports a failure. */
    method ReaderStep(a: Action)
      requires a.ReadChunk? || a.ReadEnds? || a.ReadFails? || a.SendReadError? || a.ReaderDone?
      requires Enabled(c, View(), a)
      modifies this
      ensures View() == Next(c, old(View()), a)
    {
      match a
      case ReadChunk(n) => gathered, stdout := gathered + stdout[..n], stdout[n..];
      case ReadEnds => functionResult, reader := Some(gathered), FinishingR(false);
      case ReadFails => functionResult, reader := Some(gathered), SendingR;
      case SendReadError =>
        collector, delivered := Holding(StdoutReadError), delivered + [StdoutReadError];
        reader := FinishingR(true);
      case ReaderDone => reader := DoneR(reader.failed);
    }

    /** The goroutine that appends what arrives on the error channel. */
    method CollectorStep()
      requires Enabled(c, View(), AppendError)
      modifies this
      ensures View() == Next(c, old(View()), AppendError)
    {
      errors := errors + [collector.e];
      collector := Idle;
    }

    method ChildStep()
      requires Enabled(c, View(), ChildActs)
      modifies this
      ensures View() == Next(c, old(View()), ChildActs)
    {
      match child.p
      case Exit(ok) => child := Exited(Finished(ok));
      case Emit(ToStdout, b, next) => stdout, child := stdout + [b], Running(next);
      case Emit(ToStderr, b, next) => stderr, child := stderr + [b], Running(next);
      case Read(_, _) =>
        if stdin == [] {
          child := Running(Branch(child.p, None));
        } else {
          child, stdin := Running(Branch(child.p, Some(stdin[0]))), stdin[1..];
        }
    }

    method Step(a: Action)
      requires Enabled(c, View(), a)
      modifies this
      ensures View() == Next(c, old(View()), a)
    {
      match a
      case AppendError => CollectorStep();
      case ChildActs => ChildStep();
      case ChildIsKilled => child := Exited(Killed);
      case PumpByte => logged, stderr := logged + [stderr[0]], stderr[1..];
      case Return => main := Returned(functionResult, errors);
      case ReadChunk(_) => ReaderStep(a);
      case ReadEnds => ReaderStep(a);
      case ReadFails => ReaderStep(a);
      case SendReadError => ReaderStep(a);
      case ReaderDone => ReaderStep(a);
      case _ => WriterStep(a);
    }

    /** Lets the session run under `pick` until `pipeToProcess` returns, or until nothing moves any more. */
    method PipeToProcess(pick: Scheduler) returns (ghost acts: seq<Action>)
      requires c.Valid() && View() == Init(c) && KeepsGoing(c, pick)
      modifies this
      ensures IsRun(c, Init(c), acts, View())
      ensures main.Returned? || Stuck(c, View())
      ensures Inv(c, View())
    {
      acts := [];
      InitHolds(c);
      while main.Waiting? && Enabled(c, View(), pick(View()))
        invariant Inv(c, View()) && IsRun(c, Init(c), acts, View())
        decreases Measure(View())
      {
        acts := Advance(pick(View()), acts);
      }
    }

    /** `cmd.Wait` after the return: the rest of the session runs on until the child has exited. */
    method Wait(pick: Scheduler, ghost soFar: seq<Action>) returns (ghost acts: seq<Action>)
      requires c.Valid() && KeepsGoing(c, pick) && main.Returned?
      requires Inv(c, View()) && IsRun(c, Init(c), soFar, View())
      modifies this
      ensures IsRun(c, Init(c), acts, View()) && Inv(c, View())
      ensures main == old(main) && reader == old(reader) && writer == old(writer)
      ensures child.Exited? || Stuck(c, View())
    {
      acts := soFar;
      while child.Running? && Enabled(c, View(), pick(View()))
        invariant Inv(c, View()) && IsRun(c, Init(c), acts, View())
        invariant main == old(main) && reader == old(reader) && writer == old(writer)
        decreases Measure(View())
      {
        acts := Advance(pick(View()), acts);
      }
    }

    method Advance(a: Action, ghost soFar: seq<Action>) returns (ghost acts: seq<Action>)
      requires c.Valid() && Enabled(c, View(), a) && Inv(c, View()) && IsRun(c, Init(c), soFar, View())
      modifies this
      ensures View() == Next(c, old(View()), a)
      ensures acts == soFar + [a] && IsRun(c, Init(c), acts, View()) && Inv(c, View())
      ensures Measure(View()) < Measure(old(View()))
    {
      StepKeepsInv(c, View(), a);
      EveryStepDescends(c, View(), a);
      acts := soFar + [a];
      Extend(c, Init(c), soFar, View(), a);
      Step(a);
    }
  }

  // ---------------------------------------------------------------- from the request to the response

  datatype CallError = BodyReadError | StartError | PipeFailure(e: PipeError) | ExitFailure

  /** A request body: the bytes that arrive, and whether the stream then breaks instead of ending. */
  datatype RequestBody = NoBody | Body(content: bytes, broken: bool)

  function Content(body: RequestBody): bytes {
    if body.Body? then body.content else []
  }

  /** The declared length is positive, and so many bytes do arrive. */
  predicate LimitReached(body: RequestBody, contentLength: Option<int>) {
    body.Body? && contentLength.Some? && 0 < contentLength.value <= |body.content|
  }

  /** `io.ReadAll`, through a limit when the declared length is positive: what lies beyond is never looked at. */
  function ReadBody(body: RequestBody, contentLength: Option<int>): (r: Result<bytes, CallError>)
    ensures r.Failure? <==> body.Body? && body.broken && !LimitReached(body, contentLength)
    ensures r.Success? && (contentLength.None? || contentLength.value <= 0) ==> r.value == Content(body)
    ensures r.Success? && contentLength.Some? && 0 < contentLength.value ==>
              |r.value| == if |Content(body)| < contentLength.value then |Content(body)| else contentLength.value
    ensures r.Success? ==> r.value <= Content(body)
    ensures r.Success? && LimitReached(body, contentLength) ==> |r.value| == contentLength.value
    ensures r.Success? && !LimitReached(body, contentLength) ==> r.value == Content(body)
  {
    match body
    case NoBody => Success([])
    case Body(content, broken) =>
      if contentLength.Some? && 0 < contentLength.value <= |content| then Success(content[..contentLength.value])
      else if broken then Failure(BodyReadError)
      else Success(content)
  }

  /** What `serializeFunction` makes of a session that has returned and whose child has exited. */
  function Outcome(t: State): Result<bytes, CallError>
    requires t.main.Returned? && t.child.Exited?
  {
    if t.main.errs != [] then Failure(PipeFailure(t.main.errs[0]))
    else if t.child.status != Finished(true) then Failure(ExitFailure)
    else if t.main.data.Some? then Success(t.main.data.value)
    else Success([])
  }

  /** Success means a successful exit, in every interleaving; and provided reading stdout did not fail, it means the
      child's complete stdout, otherwise the beginning of it. A child that reads all of its input and is not killed
      then succeeds exactly if it exits successfully; otherwise an unread byte may still turn success into failure. */
  lemma AllOrNothing(c: Config, acts: seq<Action>, t: State)
    requires c.Valid() && IsRun(c, Init(c), acts, t) && t.main.Returned? && t.child.Exited?
    ensures Outcome(t).Success? ==> c.Expected().ok && !WasKilled(t) && Outcome(t).value <= c.Expected().out
    ensures Outcome(t).Success? && Outcome(t).value != c.Expected().out ==> ReadFailed(t) && CanLoseOutput(c)
    ensures WasKilled(t) ==> Outcome(t).Failure?
    ensures !ReadFailed(t) && !WasKilled(t) && c.Expected().left == 0 ==> (Outcome(t).Success? <==> c.Expected().ok)
    ensures !ReadFailed(t) && !WasKilled(t) && !WriteFailed(t) ==> (Outcome(t).Success? <==> c.Expected().ok)
  {
    ReachableHasInv(c, acts, t);
    GatheredIsPrefix(c, t);
    AtMostOneErrorLost(c, acts, t);
    assert Reachable(c, t);
    if Outcome(t).Success? && Outcome(t).value != c.Expected().out {
      CutShortMeans(c, t);
    }
    if WriteFailed(t) && !WasKilled(t) {
      WriteFailsOnlyOnUnreadInput(c, acts, t);
    }
  }

  /** A successful child that prints something, and that leaves no more input unread than the writer can get rid of. */
  predicate CanLoseOutput(c: Config) {
    c.Expected().ok && StderrFits(c) && c.Expected().out != [] && c.Expected().left <= c.stdinCap
  }

  /** The limit of all-or-nothing: a call can succeed with less than the child's stdout if and only if the child exits
      successfully, its stderr fits, it prints something, and what it leaves unread fits the stdin pipe. */
  lemma TruncatedSuccessIff(c: Config)
    requires c.Valid()
    ensures (exists t :: Reachable(c, t) && t.main.Returned? && t.child.Exited?
                         && Outcome(t).Success? && Outcome(t).value != c.Expected().out)
            <==> CanLoseOutput(c)
  {
    if t :| Reachable(c, t) && t.main.Returned? && t.child.Exited?
            && Outcome(t).Success? && Outcome(t).value != c.Expected().out
    {
      var acts :| IsRun(c, Init(c), acts, t);
      AllOrNothing(c, acts, t);
    }
    if CanLoseOutput(c) {
      var t := CanBeCutShort(c);
      assert Outcome(t) == Success(t.main.data.value);
    }
  }

  /** A session that nobody disturbed and that has come to its end. */
  ghost predicate Ended(c: Config, t: State) {
    Reachable(c, t) && t.main.Returned? && t.child.Exited? && Undisturbed(t)
  }

  lemma ReadingAllFixesOutcome(c: Config, t: State)
    requires c.Valid() && Ended(c, t) && c.Expected().left == 0
    ensures Outcome(t) == if c.Expected().ok then Success(c.Expected().out) else Failure(ExitFailure)
  {
    var acts :| IsRun(c, Init(c), acts, t);
    ReturnedData(c, acts, t);
    AtMostOneErrorLost(c, acts, t);
    if WriteFailed(t) {
      WriteFailsOnlyOnUnreadInput(c, acts, t);
    }
  }

  /** Left alone, a call answers the same in all of its interleavings if and only if it cannot come back at all or
      the child reads all of its input. Otherwise the answer is a matter of chance: for a child that exits
      successfully, its stdout or an error. */
  lemma OutcomeIsFixedIff(c: Config)
    requires c.Valid()
    ensures (forall t, t' :: Ended(c, t) && Ended(c, t') ==> Outcome(t) == Outcome(t'))
            <==> !StderrFits(c) || c.Expected().left == 0
    ensures StderrFits(c) && c.Expected().ok ==>
              ((forall t :: Ended(c, t) ==> Outcome(t).Success?) <==> c.Expected().left == 0)
  {
    if !StderrFits(c) {
      forall t | Ended(c, t) ensures false {
        ReachableInv(c, t);
        OverflowNeverReturns(c, t);
      }
    } else if c.Expected().left == 0 {
      forall t | Ended(c, t) {
        ReadingAllFixesOutcome(c, t);
      }
    } else {
      var lost, kept := SingleErrorIsARace(c);
      assert Ended(c, lost) && Ended(c, kept);
      assert Outcome(lost) == if c.Expected().ok then Success(c.Expected().out) else Failure(ExitFailure);
      assert Outcome(kept) == Failure(PipeFailure(StdinWriteError));
    }
  }

  /** The error a call reports is one that has happened, and of several pipe errors the one delivered first. */
  ghost predicate ReportsTruly(t: State, e: CallError) {
    match e
    case PipeFailure(StdinWriteError) => WriteFailed(t) && t.delivered != [] && t.delivered[0] == StdinWriteError
    case PipeFailure(StdoutReadError) => ReadFailed(t) && t.delivered != [] && t.delivered[0] == StdoutReadError
    case ExitFailure => t.main.Returned? && t.main.errs == [] && t.child.Exited? && t.child.status != Finished(true)
    case _ => false
  }

  lemma FirstErrorReported(c: Config, acts: seq<Action>, t: State)
    requires c.Valid() && IsRun(c, Init(c), acts, t) && t.main.Returned?
    ensures t.main.errs != [] ==> t.delivered != [] && t.main.errs[0] == t.delivered[0]
    ensures t.main.errs != [] ==> ReportsTruly(t, PipeFailure(t.main.errs[0]))
    ensures t.child.Exited? && Outcome(t).Failure? ==> ReportsTruly(t, Outcome(t).error)
  {
    AtMostOneErrorLost(c, acts, t);
    if t.main.errs != [] {
      assert t.delivered[0] in multiset(t.delivered);
    }
  }

  /** With both directions failing, the call always reports an error, whatever the child's exit status. */
  lemma TwoFailuresAlwaysReported(c: Config, acts: seq<Action>, t: State)
    requires c.Valid() && IsRun(c, Init(c), acts, t) && t.main.Returned? && t.child.Exited?
    requires WriteFailed(t) && ReadFailed(t)
    ensures Outcome(t).Failure? && Outcome(t).error.PipeFailure?
  {
    AtMostOneErrorLost(c, acts, t);
  }

  /** A pump with a non-empty buffer drains a whole stderr stream exactly if all of its lines fit. */
  lemma DrainsAllIff(logBuffer: nat, err: bytes)
    requires logBuffer > 0
    ensures Drained(logBuffer, err) == |err| && PumpAlive(logBuffer, err)
            <==> Logging.AllFit(Logging.Lines(err), logBuffer)
  {
    hide Drained, TailLength, Logging.NeverFull, Logging.AllFit, Logging.Lines;
    Logging.NeverFullIffAllFit(err, logBuffer);
    if Logging.NeverFull(err, logBuffer) {
      DrainsIfNeverFull(logBuffer, err);
    }
    if Drained(logBuffer, err) == |err| && PumpAlive(logBuffer, err) {
      NeverFullIfDrained(logBuffer, err);
    }
  }

  lemma DrainsIfNeverFull(logBuffer: nat, err: bytes)
    requires Logging.NeverFull(err, logBuffer)
    ensures Drained(logBuffer, err) == |err| && PumpAlive(logBuffer, err)
  {
    DrainedIsFirstStop(logBuffer, err);
    assert err[..|err|] == err;
    assert TailLength(err[..Drained(logBuffer, err)]) < logBuffer && TailLength(err[..|err|]) < logBuffer;
  }

  lemma NeverFullIfDrained(logBuffer: nat, err: bytes)
    requires Drained(logBuffer, err) == |err| && PumpAlive(logBuffer, err)
    ensures Logging.NeverFull(err, logBuffer)
  {
    DrainedIsFirstStop(logBuffer, err);
    hide TailLength, Drained;
    forall k | 0 <= k <= |err| ensures TailLength(err[..k]) < logBuffer {
      assert k == |err| ==> err[..k] == err;
      assert PumpAlive(logBuffer, err[..k]);
    }
  }

  /** The machine's pump is the scanner's: what `Logging.PipeBuffered` takes out of the pipe, under every chunking,
      is what the machine's pump takes byte by byte. */
  lemma ScannerTakesDrained(stream: bytes, rest: bytes, m: nat)
    requires Logging.TakenFrom(stream, rest, m)
    ensures |stream| - |rest| == Drained(m, stream)
  {
    var n, d := |stream| - |rest|, Drained(m, stream);
    DrainedIsFirstStop(m, stream);
    hide Drained, TailLength;
    var atN, atD := TailLength(stream[..n]), TailLength(stream[..d]);
  }

  /** A caller's guarantee against the stderr deadlock: unlimited lines, or no line longer than the buffer. */
  lemma FittingLinesNeverHang(c: Config)
    requires c.logBuffer < 0 || (c.logBuffer > 0 && Logging.AllFit(Logging.Lines(c.Expected().err), c.logBuffer))
    ensures StderrFits(c)
  {
    if c.logBuffer > 0 {
      DrainsAllIff(c.logBuffer, c.Expected().err);
    } else {
      DrainedIsFirstStop(c.logBuffer, c.Expected().err);
    }
  }

  /** Everything one call depends on besides the request: the child, whether it starts, and the machine room. */
  datatype Environment = Environment(program: Program, starts: bool, message: CallError -> bytes,
                                     stdinCap: nat, stdoutCap: nat, stderrCap: nat, logBuffer: int)
  {
    function Configure(data: bytes): Config {
      Config(data, program, stdinCap, stdoutCap, stderrCap, logBuffer)
    }
  }

  /** `serializeFunction`. `None` stands for a call that never comes back. */
  method SerializeFunction(body: RequestBody, contentLength: Option<int>, env: Environment, pick: Scheduler)
    returns (r: Option<Result<bytes, CallError>>, ghost acts: seq<Action>, ghost t: State)
    requires env.stdinCap > 0 && env.stdoutCap > 0 && env.stderrCap > 0
    requires forall data :: KeepsGoing(env.Configure(data), pick)
    ensures ReadBody(body, contentLength).Failure? ==> r == Some(Failure(BodyReadError))
    ensures ReadBody(body, contentLength).Success? && !env.starts ==> r == Some(Failure(StartError))
    ensures ReadBody(body, contentLength).Success? && env.starts ==>
              var c := env.Configure(ReadBody(body, contentLength).value);
              && IsRun(c, Init(c), acts, t)
              && (r.None? ==> CallStuck(c, t))
              && (r.Some? ==> t.main.Returned?)
              && (r.Some? && t.child.Exited? ==> r.value == Outcome(t))
              && (r.Some? && t.child.Running? ==> r.value.Failure?)
              && (r.Some? && t.main.errs != [] ==>
                    t.delivered != [] && r.value == Failure(PipeFailure(t.delivered[0])))
              && (r.Some? && t.main.errs == [] && r.value.Failure? ==> r.value.error == ExitFailure)
              && (r.Some? && r.value.Failure? ==> ReportsTruly(t, r.value.error))
              && (!ReadFailed(t) && !WasKilled(t) ==> (r.Some? <==> StderrFits(c)))
              && (StderrFits(c) && |c.Expected().out| <= c.stdoutCap ==> r.Some?)
  {
    hide Inv, Stuck, StderrFits, ReadFailed, WasKilled, IsRun, ReadBody;
    var input := ReadBody(body, contentLength);
    acts := [];
    t := Init(env.Configure([]));
    if input.Failure? {
      return Some(Failure(BodyReadError)), acts, t;
    }
    if !env.starts {
      return Some(Failure(StartError)), acts, t;
    }
    var c := env.Configure(input.value);
    var session := new PipeSession(c);
    acts := session.PipeToProcess(pick);
    t := session.View();
    assert Reachable(c, t);
    if !StderrFits(c) && !ReadFailed(t) && !WasKilled(t) {
      OverflowNeverReturns(c, t);
    }
    if session.main.Waiting? {
      CallStuckMeans(c, t);
      return None, acts, t;
    }
    FirstErrorReported(c, acts, t);
    if session.main.errs != [] {
      return Some(Failure(PipeFailure(session.main.errs[0]))), acts, t;
    }
    acts := session.Wait(pick, acts);
    t := session.View();
    if !StderrFits(c) && !ReadFailed(t) && !WasKilled(t) {
      OverflowNeverReturns(c, t);
    }
    if session.child.Running? {
      assert Reachable(c, t);
      CallStuckMeans(c, t);
      return None, acts, t;
    }
    FirstErrorReported(c, acts, t);
    if session.child.status != Finished(true) {
      return Some(Failure(ExitFailure)), acts, t;
    }
    r := Some(Success(if session.main.data.Some? then session.main.data.value else []));
  }

  /** `Run`: one status line, then either the whole result or only the error text. */
  method Run(body: RequestBody, contentLength: Option<int>, env: Environment, pick: Scheduler, w: ResponseWriter)
    returns (r: Option<Result<bytes, CallError>>, ghost acts: seq<Action>, ghost t: State)
    requires env.stdinCap > 0 && env.stdoutCap > 0 && env.stderrCap > 0
    requires forall data :: KeepsGoing(env.Configure(data), pick)
    modifies w
    ensures r.None? ==> w.statuses == old(w.statuses) && w.body == old(w.body)
    ensures r.Some? && r.value.Success? ==>
              && w.statuses == old(w.statuses) + [200]
              && ReadBody(body, contentLength).Success? && env.starts
              && var c := env.Configure(ReadBody(body, contentLength).value);
              && IsRun(c, Init(c), acts, t) && c.Expected().ok
              && r.value.value <= c.Expected().out && w.body == old(w.body) + r.value.value
              && (!ReadFailed(t) || !CanLoseOutput(c) ==> w.body == old(w.body) + c.Expected().out)
    ensures r.Some? && r.value.Failure? ==>
              && w.statuses == old(w.statuses) + [500]
              && w.body == old(w.body) + env.message(r.value.error)
    ensures ReadBody(body, contentLength).Failure? ==> r == Some(Failure(BodyReadError))
    ensures ReadBody(body, contentLength).Success? && !env.starts ==> r == Some(Failure(StartError))
    ensures ReadBody(body, contentLength).Success? && env.starts ==>
              var c := env.Configure(ReadBody(body, contentLength).value);
              && IsRun(c, Init(c), acts, t)
              && (r.None? ==> CallStuck(c, t))
              && (!ReadFailed(t) && !WasKilled(t) ==> (r.Some? <==> StderrFits(c)))
              && (StderrFits(c) && |c.Expected().out| <= c.stdoutCap ==> r.Some?)
              && (r.Some? ==> t.main.Returned?)
              && (r.Some? && t.main.errs != [] ==>
                    t.delivered != [] && r.value == Failure(PipeFailure(t.delivered[0])))
              && (r.Some? && r.value.Failure? ==> ReportsTruly(t, r.value.error))
              && (r.Some? && !ReadFailed(t) && !WasKilled(t) && c.Expected().left == 0 ==>
                    (r.value.Success? <==> c.Expected().ok))
  {
    r, acts, t := SerializeFunction(body, contentLength, env, pick);
    if ReadBody(body, contentLength).Success? && env.starts && r.Some? {
      ghost var c := env.Configure(ReadBody(body, contentLength).value);
      ReachableHasInv(c, acts, t);
      if t.child.Exited? {
        AllOrNothing(c, acts, t);
      }
    }
    if r.Some? {
      match r.value
      case Failure(e) =>
        w.WriteHeader(STATUS_INTERNAL_SERVER_ERROR);
        w.Write(env.message(e));
      case Success(data) =>
        w.WriteHeader(STATUS_OK);
        w.Write(data);
    }
  }
}
