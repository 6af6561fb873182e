/** The watchdog process: its goroutines as methods of one object that share its fields, and the handlers. */
module Watchdog {
  import opened ByteStreams
  import opened Lifecycle
  import opened LifecycleProofs
  import opened Health
  import Metrics
  import Responses

  class Process {
    const c: Config
    var acceptingConnections: int
    var lockFile: bool
    var main: Main
    var signal: Signal
    var listener: Listener
    var open: bool
    var closes: nat
    var metrics: Metrics.State
    var started: map<nat, int>
    var now: int
    var triggeredAt: Option<int>

    function View(): State
      reads this
    {
      State(acceptingConnections != 0, lockFile, main, signal, listener, open, closes, metrics, started,
            now, triggeredAt)
    }

    constructor (c: Config, staleLock: bool)
      ensures this.c == c && View() == Init(staleLock)
    {
      this.c := c;
      acceptingConnections, lockFile := 0, staleLock;
      main, signal, listener, open, closes := Creating, Listening, Serving, true, 0;
      metrics, started, now, triggeredAt := Metrics.Init(), map[], 0, None;
    }

    /** `createLockFile` or, with the lock suppressed, the plain store; then the wait on the channel. */
    method MainStep(a: Action)
      requires a.WriteLockFile? || a.LockFileFails? || a.StoreOne? || a.PassWait?
      requires Enabled(c, View(), a)
      modifies this
      ensures View() == Next(c, old(View()), a)
    {
      match a
      case WriteLockFile => lockFile, main := true, Written;
      case LockFileFails => main := LockFailed;
      case StoreOne => acceptingConnections, main := 1, AtWait;
      case PassWait => main := Exited;
    }

    /** The goroutine that waits for SIGTERM or the context: `markUnhealthy`, the tick, `Shutdown`, the close. */
    method SignalStep(a: Action)
      requires a.Trigger? || a.StoreZero? || a.RemoveLock? || a.StartTick? || a.TickFires? || a.BeginShutdown?
               || a.ShutdownReturns? || a.ReadGauge? || a.CloseIdle?
      requires Enabled(c, View(), a)
      modifies this
      ensures View() == Next(c, old(View()), a)
    {
      match a
      case Trigger => signal, triggeredAt := Triggered, Some(now);
      case StoreZero => acceptingConnections, signal := 0, Cleared;
      case RemoveLock(ok) =>
        if ok {
          lockFile := false;
        }
        signal := Unlocked;
      case StartTick =>
        signal := Sleeping(if c.healthInterval > 0 then Some(now + c.healthInterval) else None);
      case TickFires => signal := Sampling;
      case BeginShutdown =>
        open := false;
        if listener.Serving? {
          listener := Stopped(false);
        }
        signal := Draining(now + c.Grace());
      case ShutdownReturns => signal := Drained;
      case ReadGauge => signal := Closing(metrics.inFlight);
      case CloseIdle =>
        signal := Closed;
        CloseIdleConns();
    }

    /** The goroutine around `ListenAndServe`, once that has failed. */
    method ListenerStep(a: Action)
      requires a.ListenerFails? || a.ListenerCloses?
      requires Enabled(c, View(), a)
      modifies this
      ensures View() == Next(c, old(View()), a)
    {
      if a.ListenerFails? {
        listener, open := Broken, false;
      } else {
        listener := Stopped(true);
        CloseIdleConns();
      }
    }

    /** `close(idleConnsClosed)`: closing a closed channel panics. */
    method CloseIdleConns()
      modifies this`closes, this`main
      ensures View() == CloseChannel(old(View()))
    {
      if closes > 0 {
        main := Panicked;
      }
      closes := closes + 1;
    }

    /** A step of some request's instrumented handler. */
    method ServeStep(r: Metrics.Action)
      requires Enabled(c, View(), Request(r))
      modifies this
      ensures View() == Next(c, old(View()), Request(r))
    {
      metrics := Metrics.Next(metrics, r);
      if r.Arrive? {
        started := started[r.id := now];
      }
    }

    method Step(a: Action)
      requires Enabled(c, View(), a)
      modifies this
      ensures View() == Next(c, old(View()), a)
    {
      match a
      case WriteLockFile => MainStep(a);
      case LockFileFails => MainStep(a);
      case StoreOne => MainStep(a);
      case PassWait => MainStep(a);
      case ListenerFails => ListenerStep(a);
      case ListenerCloses => ListenerStep(a);
      case ChildDies => main := Aborted;
      case Request(r) => ServeStep(r);
      case Pass => now := now + 1;
      case _ => SignalStep(a);
    }

    /** `listenUntilShutdown` under any scheduler that does not stop while something can move. An unsignalled process
        serves for ever, so there is a limit to the requests' steps and to all steps before the signal; the steps of
        the shutdown itself are not limited. If the limit is not used up, the process has come to its end; if that was
        a regular one, it did so in time and only after the drain. */
    method ListenUntilShutdown(pick: Scheduler, limit: nat) returns (left: nat)
      requires (View() == Init(false) || View() == Init(true)) && KeepsGoing(c, pick)
      modifies this
      ensures Reachable(c, View())
      ensures left > 0 ==> !Alive(View())
      ensures triggeredAt.Some? && Undisturbed(View()) && c.healthInterval > 0 ==>
                && (c.writeTimeout > 0 ==> now <= triggeredAt.value + c.healthInterval + c.writeTimeout)
                && (c.writeTimeout <= 0 ==> now <= triggeredAt.value + c.healthInterval)
      ensures main.Exited? && Undisturbed(View()) ==>
                && triggeredAt.Some? && now >= triggeredAt.value + c.healthInterval && !open
                && (metrics.inFlight > 0 ==> now == triggeredAt.value + c.healthInterval
                                                    + (if c.writeTimeout > 0 then c.writeTimeout else 0))
    {
      hide Next, Undisturbed, Rank;
      LeadsNowhere(c, View());
      ReachableHasInv(c, View());
      left := limit;
      while Alive(View()) && left > 0
        invariant Reachable(c, View()) && Inv(c, View())
        decreases left, StepsLeft(c, View())
      {
        CanMove(c, View(), pick);
        var a := pick(View());
        if a.Request? || triggeredAt.None? || c.healthInterval <= 0 {
          left := left - 1;
        }
        if !a.Request? && triggeredAt.Some? && c.healthInterval > 0 {
          StepsFall(c, View(), a);
        }
        Advance(a);
      }
      EndsInTime(c, View());
    }

    method Advance(a: Action)
      requires Reachable(c, View()) && Enabled(c, View(), a)
      modifies this
      ensures View() == Next(c, old(View()), a) && Reachable(c, View()) && Inv(c, View())
    {
      ghost var next := ReachStep(c, View(), a);
      Step(a);
      ReachableHasInv(c, View());
    }
  }

  lemma EndsInTime(c: Config, s: State)
    requires Reachable(c, s)
    ensures s.triggeredAt.Some? && Undisturbed(s) && c.healthInterval > 0 ==>
              && (c.writeTimeout > 0 ==> s.now <= s.triggeredAt.value + c.healthInterval + c.writeTimeout)
              && (c.writeTimeout <= 0 ==> s.now <= s.triggeredAt.value + c.healthInterval)
    ensures s.main.Exited? && Undisturbed(s) ==>
              && s.triggeredAt.Some? && s.now >= s.triggeredAt.value + c.healthInterval && !s.open
              && (s.metrics.inFlight > 0 ==> s.now == s.triggeredAt.value + c.healthInterval
                                                      + (if c.writeTimeout > 0 then c.writeTimeout else 0))
  {
    ReachableHasInv(c, s);
    SingleCloseAndOrderedExit(c, s);
    if s.main.Exited? && Undisturbed(s) {
      DrainGuarantee(c, s);
    }
  }

  type Scheduler = State -> Action

  ghost predicate SomethingMoves(c: Config, s: State) {
    exists a :: Enabled(c, s, a)
  }

  ghost predicate KeepsGoing(c: Config, pick: Scheduler) {
    forall s :: SomethingMoves(c, s) ==> Enabled(c, s, pick(s))
  }

  lemma CanMove(c: Config, s: State, pick: Scheduler)
    requires Inv(c, s) && Alive(s) && KeepsGoing(c, pick)
    ensures Enabled(c, s, pick(s))
  {
    if s.triggeredAt.Some? {
      ShutdownNeverWaits(c, s);
    } else {
      assert Enabled(c, s, Trigger);
    }
    assert SomethingMoves(c, s);
  }

  /** A bound on the steps of a shutdown under way. */
  function StepsLeft(c: Config, s: State): int {
    if Alive(s) && s.triggeredAt.Some? && c.healthInterval > 0 then Rank(c, s) + 1 else 0
  }

  lemma StepsFall(c: Config, s: State, a: Action)
    requires Inv(c, s) && Enabled(c, s, a) && s.triggeredAt.Some? && c.healthInterval > 0 && !a.Request?
    ensures 0 <= StepsLeft(c, Next(c, s, a)) < StepsLeft(c, s)
  {
    RankIsNatural(c, s);
    if Alive(Next(c, s, a)) {
      RankFalls(c, s, a);
    }
  }

  /** `makeHealthHandler`; `load` and `stat` are the states in which the two reads happen. */
  method ServeHealth(isGet: bool, load: State, stat: State, w: Responses.ResponseWriter)
    modifies w
    ensures w.statuses == old(w.statuses) + [HealthStatus(isGet, load, stat)]
    ensures var status := w.statuses[|old(w.statuses)|];
            && (status == 405 <==> !isGet)
            && (status == 200 <==> isGet && load.accepting && stat.lockFile)
            && (status == 503 <==> isGet && !(load.accepting && stat.lockFile))
    ensures w.body == old(w.body) + if isGet && load.accepting && stat.lockFile then [79, 75] else []
  {
    if isGet {
      if !load.accepting || !stat.lockFile {
        w.WriteHeader(Responses.STATUS_SERVICE_UNAVAILABLE);
        return;
      }
      w.WriteHeader(Responses.STATUS_OK);
      w.Write([79, 75]);
    } else {
      w.WriteHeader(Responses.STATUS_METHOD_NOT_ALLOWED);
    }
  }

  /** `readiness.ServeHTTP`; a proxied check is left to the function handler, which writes its own status. */
  method ServeReady(isGet: bool, load: State, stat: State, limiter: Limiter, endpoint: Endpoint,
                    w: Responses.ResponseWriter)
    returns (proxied: bool)
    modifies w
    ensures proxied <==> ReadyStatus(isGet, load, stat, limiter, endpoint).ProxiedToFunction?
    ensures proxied ==> w.statuses == old(w.statuses)
    ensures !proxied ==>
              w.statuses == old(w.statuses) + [ReadyStatus(isGet, load, stat, limiter, endpoint).code]
    ensures var healthy, full := isGet && load.accepting && stat.lockFile, limiter.Limited? && limiter.met;
            && (proxied <==> healthy && !full && endpoint.ReadyPath? && endpoint.requestIsValid)
            && (!proxied ==>
                  var status := w.statuses[|old(w.statuses)|];
                  && (status == 405 <==> !isGet)
                  && (status == 503 <==> isGet && !healthy)
                  && (status == 429 <==> healthy && full)
                  && (status == 500 <==> healthy && !full && endpoint.ReadyPath?)
                  && (status == 200 <==> healthy && !full && endpoint.NoEndpoint?))
    ensures w.body == old(w.body)
  {
    if !isGet {
      w.WriteHeader(Responses.STATUS_METHOD_NOT_ALLOWED);
      return false;
    }
    var status := Responses.STATUS_OK;
    if !load.accepting || !stat.lockFile {
      status := Responses.STATUS_SERVICE_UNAVAILABLE;
    } else if LimitMet(limiter) {
      status := Responses.STATUS_TOO_MANY_REQUESTS;
    } else if endpoint.ReadyPath? {
      if endpoint.requestIsValid {
        return true;
      }
      status := Responses.STATUS_INTERNAL_SERVER_ERROR;
    }
    w.WriteHeader(status);
    return false;
  }
}
