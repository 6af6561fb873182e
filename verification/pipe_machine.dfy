/** The goroutines of `pipeToProcess`, the child process and the kernel pipes between them, as a machine
    that takes one atomic step at a time. Which enabled step comes next is up to the scheduler. */
module PipeMachine {
  import opened ByteStreams

  datatype Stream = ToStdout | ToStderr

  /** A deterministic child whose behaviour depends on nothing but the bytes it reads.
      `Read` takes one byte of standard input, or `None` at end of file. */
  datatype Program =
    | Exit(ok: bool)
    | Emit(to: Stream, b: byte, next: Program)
    | Read(branches: map<Option<byte>, Program>, otherwise: Program)

  function Branch(p: Program, x: Option<byte>): Program
    requires p.Read?
  {
    if x in p.branches then p.branches[x] else p.otherwise
  }

  /** What a program does with a whole input stream: everything it prints on either stream, whether it exits
      successfully, how many input bytes it leaves unread, and how many actions it performs, the exit included. */
  datatype Behaviour = Behaviour(out: bytes, err: bytes, ok: bool, left: nat, actions: nat)

  function Behave(p: Program, input: bytes): Behaviour
    decreases p
  {
    match p
    case Exit(ok) => Behaviour([], [], ok, |input|, 1)
    case Emit(to, b, next) =>
      var rest := Behave(next, input);
      if to.ToStdout? then rest.(out := [b] + rest.out, actions := rest.actions + 1)
      else rest.(err := [b] + rest.err, actions := rest.actions + 1)
    case Read(branches, otherwise) =>
      var x := if input == [] then None else Some(input[0]);
      var tail := if input == [] then [] else input[1..];
      var rest := if x in branches then Behave(branches[x], tail) else Behave(otherwise, tail);
      rest.(actions := rest.actions + 1)
  }

  /** One call: the request body, the child, the capacities of the three kernel pipes and the log buffer size
      that governs the stderr pump (negative: unlimited lines). */
  datatype Config = Config(input: bytes, program: Program,
                           stdinCap: nat, stdoutCap: nat, stderrCap: nat, logBuffer: int)
  {
    predicate Valid() {
      stdinCap > 0 && stdoutCap > 0 && stderrCap > 0
    }

    function Expected(): Behaviour {
      Behave(program, input)
    }
  }

  datatype PipeError = StdinWriteError | StdoutReadError

  datatype ExitStatus = Finished(ok: bool) | Killed

  datatype Child = Running(p: Program) | Exited(status: ExitStatus)

  datatype Writer = Writing | Closing(failed: bool) | SendingW | FinishingW(failed: bool) | DoneW(failed: bool)

  datatype Reader = Reading | SendingR | FinishingR(failed: bool) | DoneR(failed: bool)

  datatype Collector = Idle | Holding(e: PipeError)

  datatype Main = Waiting | Returned(data: Option<bytes>, errs: seq<PipeError>)

  /** `delivered` is a history of the rendezvous on the error channel; no step depends on it. */
  datatype State = State(
    unwritten: bytes, stdin: bytes, stdinOpen: bool,
    child: Child, stdout: bytes, stderr: bytes, logged: bytes,
    writer: Writer, reader: Reader, gathered: bytes, functionResult: Option<bytes>,
    collector: Collector, errors: seq<PipeError>, delivered: seq<PipeError>,
    main: Main)

  function Init(c: Config): State {
    State(c.input, [], true, Running(c.program), [], [], [], Writing, Reading, [], None, Idle, [], [], Waiting)
  }

  /** Chunk sizes are the kernel's choice. `ReadFails` and `ChildIsKilled` are the two events the environment
      may inject: an I/O error on stdout, and the execution timeout. */
  datatype Action =
    | WriteChunk(n: nat) | WriteEnds | WriteFails | CloseStdin | SendWriteError | WriterDone
    | ReadChunk(n: nat) | ReadEnds | ReadFails | SendReadError | ReaderDone
    | AppendError
    | ChildActs | ChildIsKilled
    | PumpByte
    | Return

  predicate Environmental(a: Action) {
    a.ReadFails? || a.ChildIsKilled?
  }

  /** The buffered log pump stops for good once its whole buffer holds one unfinished line. */
  predicate PumpAlive(logBuffer: int, logged: bytes) {
    logBuffer < 0 || TailLength(logged) < logBuffer
  }

  predicate ChildCanAct(c: Config, s: State)
    requires s.child.Running?
  {
    match s.child.p
    case Exit(_) => true
    case Emit(ToStdout, _, _) => |s.stdout| < c.stdoutCap
    case Emit(ToStderr, _, _) => |s.stderr| < c.stderrCap
    case Read(_, _) => s.stdin != [] || !s.stdinOpen
  }

  predicate Enabled(c: Config, s: State, a: Action) {
    match a
    case WriteChunk(n) =>
      s.writer.Writing? && s.child.Running? && 1 <= n <= |s.unwritten| && |s.stdin| + n <= c.stdinCap
    case WriteEnds => s.writer.Writing? && s.unwritten == []
    case WriteFails => s.writer.Writing? && s.unwritten != [] && s.child.Exited?
    case CloseStdin => s.writer.Closing?
    case SendWriteError => s.writer.SendingW? && s.collector.Idle?
    case WriterDone => s.writer.FinishingW?
    case ReadChunk(n) => s.reader.Reading? && 1 <= n <= |s.stdout|
    case ReadEnds => s.reader.Reading? && s.stdout == [] && s.child.Exited?
    case ReadFails => s.reader.Reading?
    case SendReadError => s.reader.SendingR? && s.collector.Idle?
    case ReaderDone => s.reader.FinishingR?
    case AppendError => s.collector.Holding?
    case ChildActs => s.child.Running? && ChildCanAct(c, s)
    case ChildIsKilled => s.child.Running?
    case PumpByte => s.stderr != [] && PumpAlive(c.logBuffer, s.logged)
    case Return => s.main.Waiting? && s.writer.DoneW? && s.reader.DoneR?
  }

  function ChildNext(s: State): State
    requires s.child.Running?
  {
    match s.child.p
    case Exit(ok) => s.(child := Exited(Finished(ok)))
    case Emit(ToStdout, b, next) => s.(child := Running(next), stdout := s.stdout + [b])
    case Emit(ToStderr, b, next) => s.(child := Running(next), stderr := s.stderr + [b])
    case Read(_, _) =>
      if s.stdin == [] then s.(child := Running(Branch(s.child.p, None)))
      else s.(child := Running(Branch(s.child.p, Some(s.stdin[0]))), stdin := s.stdin[1..])
  }

  function Next(c: Config, s: State, a: Action): State
    requires Enabled(c, s, a)
  {
    match a
    case WriteChunk(n) => s.(stdin := s.stdin + s.unwritten[..n], unwritten := s.unwritten[n..])
    case WriteEnds => s.(writer := Closing(false))
    case WriteFails => s.(writer := Closing(true))
    case CloseStdin => s.(stdinOpen := false, writer := if s.writer.failed then SendingW else FinishingW(false))
    case SendWriteError =>
      s.(writer := FinishingW(true), collector := Holding(StdinWriteError),
         delivered := s.delivered + [StdinWriteError])
    case WriterDone => s.(writer := DoneW(s.writer.failed))
    case ReadChunk(n) => s.(gathered := s.gathered + s.stdout[..n], stdout := s.stdout[n..])
    case ReadEnds => s.(functionResult := Some(s.gathered), reader := FinishingR(false))
    case ReadFails => s.(functionResult := Some(s.gathered), reader := SendingR)
    case SendReadError =>
      s.(reader := FinishingR(true), collector := Holding(StdoutReadError),
         delivered := s.delivered + [StdoutReadError])
    case ReaderDone => s.(reader := DoneR(s.reader.failed))
    case AppendError => s.(errors := s.errors + [s.collector.e], collector := Idle)
    case ChildActs => ChildNext(s)
    case ChildIsKilled => s.(child := Exited(Killed))
    case PumpByte => s.(logged := s.logged + [s.stderr[0]], stderr := s.stderr[1..])
    case Return => s.(main := Returned(s.functionResult, s.errors))
  }

  /** The steps `acts`, one after the other, lead from `s` to `t`. */
  ghost predicate IsRun(c: Config, s: State, acts: seq<Action>, t: State)
    decreases |acts|
  {
    if acts == [] then s == t
    else Enabled(c, s, acts[0]) && IsRun(c, Next(c, s, acts[0]), acts[1..], t)
  }

  /** No goroutine, pump or child can move; only the environment could still interfere. */
  ghost predicate Stuck(c: Config, s: State) {
    forall a :: Enabled(c, s, a) ==> Environmental(a)
  }

  predicate ReadFailed(s: State) {
    s.reader.SendingR? || (s.reader.FinishingR? && s.reader.failed) || (s.reader.DoneR? && s.reader.failed)
  }

  predicate WriteFailed(s: State) {
    s.writer.SendingW?
    || ((s.writer.Closing? || s.writer.FinishingW? || s.writer.DoneW?) && s.writer.failed)
  }

  predicate WasKilled(s: State) {
    s.child == Exited(Killed)
  }
}
