/** Start-up, health and graceful shutdown of the watchdog: the main goroutine, the signal goroutine and the
    listener goroutine, with the instrumented requests running through the server, under a discrete clock.
    Steps of the three goroutines take no time; time passes only when none of them is due. */
module Lifecycle {
  import opened ByteStreams
  import Metrics

  function Max0(x: int): int {
    if x < 0 then 0 else x
  }

  /** Both durations may be zero or negative: the configuration rejects only a write timeout of exactly 0. */
  datatype Config = Config(healthInterval: int, writeTimeout: int, suppressLock: bool, httpMode: bool) {
    /** How long `Shutdown` may wait; a context with a past deadline is done at once. */
    function Grace(): int {
      Max0(writeTimeout)
    }
  }

  datatype Main =
    | Creating | Written | AtWait
    | Exited | LockFailed
    | Panicked  // a second close of the channel
    | Aborted   // log.Fatalf because the forked function terminated with an error

  datatype Signal =
    | Listening | Triggered | Cleared | Unlocked
    | Sleeping(wake: Option<int>)
    | Sampling | Draining(deadline: int) | Drained | Closing(connections: int) | Closed

  /** `Stopped(true)`: the listener failed by itself and has closed the channel. */
  datatype Listener = Serving | Broken | Stopped(failed: bool)

  /** `started` and `triggeredAt` are records of what happened; no step depends on them. */
  datatype State = State(
    accepting: bool, lockFile: bool,
    main: Main, signal: Signal, listener: Listener,
    open: bool, closes: nat,
    metrics: Metrics.State, started: map<nat, int>,
    now: int, triggeredAt: Option<int>)

  function Init(staleLock: bool): State {
    State(false, staleLock, Creating, Listening, Serving, true, 0, Metrics.Init(), map[], 0, None)
  }

  datatype Action =
    | WriteLockFile | LockFileFails | StoreOne
    | Trigger | StoreZero | RemoveLock(ok: bool) | StartTick | TickFires
    | BeginShutdown | ShutdownReturns | ReadGauge | CloseIdle
    | ListenerFails | ListenerCloses
    | PassWait
    | ChildDies
    | Request(a: Metrics.Action)
    | Pass

  predicate Alive(s: State) {
    s.main.Creating? || s.main.Written? || s.main.AtWait?
  }

  /** A handler is running for this request. */
  predicate Active(s: State, id: nat) {
    id in s.metrics.requests && !s.metrics.requests[id].Left?
  }

  predicate AllLeft(requests: map<nat, Metrics.Phase>) {
    forall id :: id in requests ==> requests[id].Left?
  }

  predicate Idle(s: State) {
    AllLeft(s.metrics.requests)
  }

  /** Something is due now, so the clock stands still. */
  predicate Urgent(s: State) {
    || s.main.Creating? || s.main.Written? || (s.main.AtWait? && s.closes > 0)
    || s.listener.Broken?
    || (match s.signal
        case Listening => false
        case Sleeping(wake) => wake.Some? && wake.value <= s.now
        case Draining(deadline) => deadline <= s.now
        case Closed => false
        case _ => true)
  }

  predicate Enabled(c: Config, s: State, a: Action) {
    && Alive(s)
    && match a
       case WriteLockFile => s.main.Creating? && !c.suppressLock
       case LockFileFails => s.main.Creating? && !c.suppressLock
       case StoreOne => if c.suppressLock then s.main.Creating? else s.main.Written?
       case Trigger => s.signal.Listening?
       case StoreZero => s.signal.Triggered?
       case RemoveLock(ok) => s.signal.Cleared? && (ok ==> s.lockFile)
       case StartTick => s.signal.Unlocked?
       case TickFires => s.signal.Sleeping? && s.signal.wake.Some? && s.signal.wake.value <= s.now
       case BeginShutdown => s.signal.Sampling?
       case ShutdownReturns => s.signal.Draining? && (Idle(s) || s.signal.deadline <= s.now)
       case ReadGauge => s.signal.Drained?
       case CloseIdle => s.signal.Closing?
       case ListenerFails => s.listener.Serving?
       case ListenerCloses => s.listener.Broken?
       case PassWait => s.main.AtWait? && s.closes > 0
       case ChildDies => c.httpMode
       case Request(r) => Metrics.Enabled(s.metrics, r) && (r.Arrive? ==> s.open)
       case Pass => !Urgent(s)
  }

  function CloseChannel(s: State): State {
    s.(closes := s.closes + 1, main := if s.closes > 0 then Panicked else s.main)
  }

  function Next(c: Config, s: State, a: Action): State
    requires Enabled(c, s, a)
  {
    match a
    case WriteLockFile => s.(lockFile := true, main := Written)
    case LockFileFails => s.(main := LockFailed)
    case StoreOne => s.(accepting := true, main := AtWait)
    case Trigger => s.(signal := Triggered, triggeredAt := Some(s.now))
    case StoreZero => s.(accepting := false, signal := Cleared)
    case RemoveLock(ok) => s.(lockFile := s.lockFile && !ok, signal := Unlocked)
    case StartTick =>
      s.(signal := Sleeping(if c.healthInterval > 0 then Some(s.now + c.healthInterval) else None))
    case TickFires => s.(signal := Sampling)
    case BeginShutdown =>
      s.(signal := Draining(s.now + c.Grace()), open := false,
         listener := if s.listener.Serving? then Stopped(false) else s.listener)
    case ShutdownReturns => s.(signal := Drained)
    case ReadGauge => s.(signal := Closing(s.metrics.inFlight))
    case CloseIdle => CloseChannel(s.(signal := Closed))
    case ListenerFails => s.(listener := Broken, open := false)
    case ListenerCloses => CloseChannel(s.(listener := Stopped(true)))
    case PassWait => s.(main := Exited)
    case ChildDies => s.(main := Aborted)
    case Request(r) =>
      s.(metrics := Metrics.Next(s.metrics, r),
         started := if r.Arrive? then s.started[r.id := s.now] else s.started)
    case Pass => s.(now := s.now + 1)
  }

  /** `tr` is the sequence of states visited by the actions `acts`. */
  ghost predicate IsPath(c: Config, tr: seq<State>, acts: seq<Action>) {
    && |tr| == |acts| + 1
    && forall i :: 0 <= i < |acts| ==> Enabled(c, tr[i], acts[i]) && tr[i + 1] == Next(c, tr[i], acts[i])
  }

  /** A run of the process: a path from a start with or without a stale lock. */
  ghost predicate IsTrace(c: Config, tr: seq<State>, acts: seq<Action>) {
    IsPath(c, tr, acts) && (tr[0] == Init(false) || tr[0] == Init(true))
  }

  ghost predicate LeadsTo(c: Config, s: State, t: State) {
    exists tr, acts :: IsPath(c, tr, acts) && tr[0] == s && tr[|acts|] == t
  }

  ghost predicate Reachable(c: Config, s: State) {
    LeadsTo(c, Init(false), s) || LeadsTo(c, Init(true), s)
  }
}
