/** What every run of the watchdog's life cycle guarantees. */
module LifecycleProofs {
  import opened ByteStreams
  import opened Lifecycle
  import Metrics

  // ---------------------------------------------------------------- the invariant

  predicate BeforeShutdown(s: State) {
    s.signal.Listening? || s.signal.Triggered? || s.signal.Cleared? || s.signal.Unlocked?
    || s.signal.Sleeping? || s.signal.Sampling?
  }

  predicate ShutdownOver(s: State) {
    s.signal.Drained? || s.signal.Closing? || s.signal.Closed?
  }

  /** Where the clock may stand in each phase of the shutdown. */
  predicate OnTime(c: Config, s: State) {
    && (s.signal.Listening? <==> s.triggeredAt.None?)
    && (s.triggeredAt.Some? ==>
          var t, h := s.triggeredAt.value, c.healthInterval;
          match s.signal
          case Sleeping(Some(wake)) => h > 0 && wake == t + h && t <= s.now <= wake
          case Sleeping(None) => h <= 0 && t <= s.now
          case Sampling => h > 0 && s.now == t + h
          case Draining(deadline) => h > 0 && deadline == t + h + c.Grace() && t + h <= s.now <= deadline
          case Triggered => s.now == t
          case Cleared => s.now == t
          case Unlocked => s.now == t
          case _ => h > 0 && t + h <= s.now <= t + h + c.Grace())
  }

  predicate ChannelConsistent(s: State) {
    && s.closes == (if s.signal.Closed? then 1 else 0) + (if s.listener == Stopped(true) then 1 else 0)
    && (s.main.Panicked? <==> s.closes == 2)
    && (s.main.Exited? ==> s.closes == 1)
    && (s.open <==> s.listener.Serving?)
    && (s.listener.Serving? ==> BeforeShutdown(s))
    && (s.listener == Stopped(false) ==> !BeforeShutdown(s))
  }

  predicate LockConsistent(c: Config, s: State) {
    && (s.accepting && !c.suppressLock ==> !s.main.Creating? && !s.main.Written? && !s.main.LockFailed?)
    && (s.main.Written? || s.main.LockFailed? ==> !c.suppressLock)
  }

  /** Requests started while the listener was open; one that outlives `Shutdown` has used up the whole grace. */
  ghost predicate DrainConsistent(c: Config, s: State) {
    && s.metrics.requests.Keys == s.started.Keys
    && (forall id :: id in s.started ==> s.started[id] <= s.now)
    && (s.triggeredAt.Some? && !BeforeShutdown(s) ==>
          forall id :: id in s.started ==> s.started[id] <= s.triggeredAt.value + c.healthInterval)
    && (s.triggeredAt.Some? && ShutdownOver(s) && !Idle(s) ==>
          s.now == s.triggeredAt.value + c.healthInterval + c.Grace())
  }

  ghost predicate Inv(c: Config, s: State) {
    && OnTime(c, s) && ChannelConsistent(s) && LockConsistent(c, s) && DrainConsistent(c, s)
    && (s.main.Aborted? ==> c.httpMode)
    && Metrics.Inv(s.metrics)
  }

  lemma InitHolds(c: Config, stale: bool)
    ensures Inv(c, Init(stale))
  {
    Metrics.InitHolds();
  }

  /** The steps of the signal goroutine, and the clock, are the only ones that enter into the timing. */
  predicate Timed(a: Action) {
    a.Trigger? || a.StoreZero? || a.RemoveLock? || a.StartTick? || a.TickFires? || a.BeginShutdown?
    || a.ShutdownReturns? || a.ReadGauge? || a.CloseIdle? || a.Pass?
  }

  lemma OthersLeaveTime(c: Config, s: State, a: Action)
    requires Enabled(c, s, a) && !Timed(a)
    ensures var t := Next(c, s, a); t.signal == s.signal && t.now == s.now && t.triggeredAt == s.triggeredAt
  {
  }

  lemma PassKeepsOnTime(c: Config, s: State)
    requires OnTime(c, s) && ChannelConsistent(s) && Enabled(c, s, Pass)
    ensures OnTime(c, Next(c, s, Pass))
  {
    assert !s.signal.Closed?;
  }

  lemma SignalKeepsOnTime(c: Config, s: State, a: Action)
    requires OnTime(c, s) && Enabled(c, s, a) && Timed(a) && !a.Pass?
    ensures OnTime(c, Next(c, s, a))
  {
    var t := Next(c, s, a);
    assert t.now == s.now;
    assert !a.Trigger? ==> t.triggeredAt == s.triggeredAt;
  }

  lemma StepKeepsOnTime(c: Config, s: State, a: Action)
    requires OnTime(c, s) && ChannelConsistent(s) && Enabled(c, s, a)
    ensures OnTime(c, Next(c, s, a))
  {
    hide Next;
    if a.Pass? {
      PassKeepsOnTime(c, s);
    } else if Timed(a) {
      SignalKeepsOnTime(c, s, a);
    } else {
      OthersLeaveTime(c, s, a);
    }
  }

  lemma StepKeepsChannel(c: Config, s: State, a: Action)
    requires ChannelConsistent(s) && Enabled(c, s, a)
    ensures ChannelConsistent(Next(c, s, a))
  {
  }

  lemma RequestKeepsDrain(c: Config, s: State, r: Metrics.Action)
    requires OnTime(c, s) && ChannelConsistent(s) && DrainConsistent(c, s) && Enabled(c, s, Request(r))
    ensures DrainConsistent(c, Next(c, s, Request(r)))
  {
    var t := Next(c, s, Request(r));
    if !Idle(t) && !r.Arrive? {
      var id :| id in t.metrics.requests && !t.metrics.requests[id].Left?;
      assert !s.metrics.requests[id].Left?;
    }
  }

  lemma OtherStepLeavesRequests(c: Config, s: State, a: Action)
    requires Enabled(c, s, a) && !a.Request?
    ensures var t := Next(c, s, a); t.metrics == s.metrics && t.started == s.started && s.now <= t.now
  {
  }

  /** When the two halves of `DrainConsistent` about the shutdown come into force. */
  lemma DrainBegins(c: Config, s: State, a: Action)
    requires OnTime(c, s) && ChannelConsistent(s) && Enabled(c, s, a) && !a.Request?
    ensures var t := Next(c, s, a);
            t.triggeredAt.Some? && !BeforeShutdown(t) ==>
              && s.triggeredAt == t.triggeredAt
              && (BeforeShutdown(s) ==> t.now == t.triggeredAt.value + c.healthInterval)
              && (ShutdownOver(s) ==> t.now == s.now)
              && (ShutdownOver(t) && !ShutdownOver(s) ==>
                    Idle(s) || t.now == t.triggeredAt.value + c.healthInterval + c.Grace())
  {
    hide AllLeft;
  }

  lemma OtherStepKeepsDrain(c: Config, s: State, a: Action)
    requires OnTime(c, s) && ChannelConsistent(s) && DrainConsistent(c, s) && Enabled(c, s, a) && !a.Request?
    ensures DrainConsistent(c, Next(c, s, a))
  {
    hide Next, Enabled, OnTime, ChannelConsistent, AllLeft;
    OtherStepLeavesRequests(c, s, a);
    DrainBegins(c, s, a);
  }

  lemma StepKeepsLock(c: Config, s: State, a: Action)
    requires LockConsistent(c, s) && (s.main.Aborted? ==> c.httpMode) && Enabled(c, s, a)
    ensures LockConsistent(c, Next(c, s, a)) && (Next(c, s, a).main.Aborted? ==> c.httpMode)
  {
  }

  lemma RequestKeepsMetrics(c: Config, s: State, r: Metrics.Action)
    requires Metrics.Inv(s.metrics) && Enabled(c, s, Request(r))
    ensures Metrics.Inv(Next(c, s, Request(r)).metrics)
  {
    Metrics.StepKeepsInv(s.metrics, r);
  }

  lemma StepKeepsInv(c: Config, s: State, a: Action)
    requires Inv(c, s) && Enabled(c, s, a)
    ensures Inv(c, Next(c, s, a))
  {
    hide Next, Enabled, OnTime, ChannelConsistent, LockConsistent, DrainConsistent, Metrics.Inv;
    StepKeepsOnTime(c, s, a);
    StepKeepsChannel(c, s, a);
    StepKeepsLock(c, s, a);
    if !a.Request? {
      OtherStepLeavesRequests(c, s, a);
      OtherStepKeepsDrain(c, s, a);
    } else {
      RequestKeepsDrain(c, s, a.a);
      RequestKeepsMetrics(c, s, a.a);
    }
  }

  lemma {:induction false} PathKeepsInv(c: Config, tr: seq<State>, acts: seq<Action>, i: nat)
    requires IsPath(c, tr, acts) && i <= |acts| && Inv(c, tr[0])
    ensures Inv(c, tr[i])
    decreases i
  {
    hide Inv, Next;
    if i > 0 {
      PathKeepsInv(c, tr, acts, i - 1);
      StepKeepsInv(c, tr[i - 1], acts[i - 1]);
    }
  }

  lemma TraceKeepsInv(c: Config, tr: seq<State>, acts: seq<Action>, i: nat)
    requires IsTrace(c, tr, acts) && i <= |acts|
    ensures Inv(c, tr[i])
  {
    InitHolds(c, false);
    InitHolds(c, true);
    PathKeepsInv(c, tr, acts, i);
  }

  lemma ReachableHasInv(c: Config, s: State)
    requires Reachable(c, s)
    ensures Inv(c, s)
  {
    var tr, acts :| IsTrace(c, tr, acts) && tr[|acts|] == s;
    TraceKeepsInv(c, tr, acts, |acts|);
  }

  // ---------------------------------------------------------------- reaching states

  lemma LeadsNowhere(c: Config, s: State)
    ensures LeadsTo(c, s, s)
  {
    assert IsPath(c, [s], []);
  }

  lemma LeadsOn(c: Config, from: State, s: State, a: Action) returns (t: State)
    requires LeadsTo(c, from, s) && Enabled(c, s, a)
    ensures t == Next(c, s, a) && LeadsTo(c, from, t)
  {
    var tr, acts :| IsPath(c, tr, acts) && tr[0] == from && tr[|acts|] == s;
    t := Next(c, s, a);
    hide Next, Enabled;
    var tr', acts' := tr + [t], acts + [a];
    forall i | 0 <= i < |acts'| ensures Enabled(c, tr'[i], acts'[i]) && tr'[i + 1] == Next(c, tr'[i], acts'[i]) {
      assert i < |acts| ==> tr'[i] == tr[i] && tr'[i + 1] == tr[i + 1] && acts'[i] == acts[i];
    }
    assert IsPath(c, tr', acts');
  }

  lemma ReachInit(c: Config)
    ensures Reachable(c, Init(false))
  {
    LeadsNowhere(c, Init(false));
  }

  lemma ReachStep(c: Config, s: State, a: Action) returns (t: State)
    requires Reachable(c, s) && Enabled(c, s, a)
    ensures t == Next(c, s, a) && Reachable(c, t)
  {
    t := LeadsOn(c, Init(if LeadsTo(c, Init(false), s) then false else true), s, a);
  }

  // ---------------------------------------------------------------- timing of a shutdown

  /** The listener did not fail by itself, the lock file could be written, no forked server died. */
  predicate Undisturbed(s: State) {
    !s.listener.Broken? && s.listener != Stopped(true) && !s.main.LockFailed? && !s.main.Aborted?
  }

  /** A shutdown triggered at `t` keeps the listener open until `t + h`, and no undisturbed state is later than
      `t + h + w`, or than `t + h` if the write timeout `w` is not positive, whatever requests arrive: the process has
      exited by then, after `Shutdown` returned. */
  lemma TimedShutdown(c: Config, s: State)
    requires Reachable(c, s) && s.triggeredAt.Some? && Undisturbed(s) && c.healthInterval > 0
    ensures s.now < s.triggeredAt.value + c.healthInterval ==> s.open && Alive(s)
    ensures c.writeTimeout > 0 ==> s.now <= s.triggeredAt.value + c.healthInterval + c.writeTimeout
    ensures c.writeTimeout <= 0 ==> s.now <= s.triggeredAt.value + c.healthInterval
    ensures !Alive(s) ==> s.main.Exited? && ShutdownOver(s) && !s.open
    ensures var grace := if c.writeTimeout > 0 then c.writeTimeout else 0;
            var last := s.triggeredAt.value + c.healthInterval + grace;
            Alive(s) && s.now == last ==> !Enabled(c, s, Pass)
  {
    ReachableHasInv(c, s);
  }

  /** With an interval of zero or less the tick never fires: an undisturbed process never stops serving. */
  lemma NoTickNoShutdown(c: Config, s: State)
    requires Reachable(c, s) && Undisturbed(s) && c.healthInterval <= 0
    ensures s.open && Alive(s) && BeforeShutdown(s)
  {
    ReachableHasInv(c, s);
  }

  /** What each goroutine still has to do on its way to the exit. */
  function SignalRank(g: Signal): nat {
    match g
    case Listening => 9 case Triggered => 8 case Cleared => 7 case Unlocked => 6 case Sleeping(_) => 5
    case Sampling => 4 case Draining(_) => 3 case Drained => 2 case Closing(_) => 1 case Closed => 0
  }

  function MainRank(m: Main): nat {
    match m case Creating => 3 case Written => 2 case AtWait => 1 case _ => 0
  }

  function ListenerRank(l: Listener): nat {
    match l case Serving => 2 case Broken => 1 case Stopped(_) => 0
  }

  /** Steps left until the exit, for a triggered shutdown; requests do not enter into it. */
  function Rank(c: Config, s: State): int
    requires s.triggeredAt.Some?
  {
    s.triggeredAt.value + c.healthInterval + c.Grace() - s.now
    + SignalRank(s.signal) + MainRank(s.main) + ListenerRank(s.listener)
  }

  /** The environment's steps: requests and mishaps. */
  predicate FromOutside(a: Action) {
    a.Request? || a.ChildDies? || a.ListenerFails? || a.LockFileFails?
  }

  /** As long as a triggered process lives, one of its own steps or the clock can move, requests and mishaps aside. */
  lemma ShutdownNeverWaits(c: Config, s: State)
    requires Inv(c, s) && s.triggeredAt.Some? && Alive(s)
    ensures exists a :: Enabled(c, s, a) && !FromOutside(a)
  {
    var a :=
      if s.main.Creating? then (if c.suppressLock then StoreOne else WriteLockFile)
      else if s.main.Written? then StoreOne
      else if s.closes > 0 then PassWait
      else if s.listener.Broken? then ListenerCloses
      else match s.signal
           case Triggered => StoreZero
           case Cleared => RemoveLock(false)
           case Unlocked => StartTick
           case Sleeping(wake) => if wake.Some? && wake.value <= s.now then TickFires else Pass
           case Sampling => BeginShutdown
           case Draining(deadline) => if deadline <= s.now then ShutdownReturns else Pass
           case Drained => ReadGauge
           case _ => CloseIdle;
    assert Enabled(c, s, a);
  }

  lemma RankIsNatural(c: Config, s: State)
    requires Inv(c, s) && s.triggeredAt.Some? && c.healthInterval > 0
    ensures Rank(c, s) >= if Alive(s) then 1 else 0
  {
  }

  lemma StepKeepsTrigger(c: Config, s: State, a: Action)
    requires (s.signal.Listening? <==> s.triggeredAt.None?) && Enabled(c, s, a) && s.triggeredAt.Some?
    ensures Next(c, s, a).triggeredAt == s.triggeredAt
  {
  }

  /** The steps that belong to the signal goroutine, to main, and to the listener. */
  predicate OfSignal(a: Action) {
    Timed(a) && !a.Pass?
  }

  predicate OfMain(a: Action) {
    a.WriteLockFile? || a.LockFileFails? || a.StoreOne? || a.PassWait? || a.ChildDies?
  }

  predicate OfListener(a: Action) {
    a.ListenerFails? || a.ListenerCloses?
  }

  lemma SignalPartFalls(c: Config, s: State, a: Action)
    requires Enabled(c, s, a)
    ensures var t := Next(c, s, a);
            if OfSignal(a) then SignalRank(t.signal) < SignalRank(s.signal) else t.signal == s.signal
  {
  }

  lemma MainPartFalls(c: Config, s: State, a: Action)
    requires Enabled(c, s, a) && Alive(Next(c, s, a))
    ensures var t := Next(c, s, a); if OfMain(a) then MainRank(t.main) < MainRank(s.main) else t.main == s.main
  {
  }

  lemma ListenerPartFalls(c: Config, s: State, a: Action)
    requires Enabled(c, s, a)
    ensures var t := Next(c, s, a);
            && ListenerRank(t.listener) <= ListenerRank(s.listener)
            && (OfListener(a) ==> ListenerRank(t.listener) < ListenerRank(s.listener))
            && (a.Request? || a.Pass? ==> t.listener == s.listener)
  {
  }

  lemma ClockPartFalls(c: Config, s: State, a: Action)
    requires Enabled(c, s, a)
    ensures Next(c, s, a).now == s.now + if a.Pass? then 1 else 0
  {
  }

  /** No step raises a part of the rank, and every step but a request's lowers one or lets time pass. */
  lemma PartsFall(c: Config, s: State, a: Action)
    requires s.triggeredAt.Some? && (s.signal.Listening? <==> s.triggeredAt.None?) && Enabled(c, s, a)
    requires Alive(Next(c, s, a))
    ensures var t := Next(c, s, a);
            && t.triggeredAt == s.triggeredAt
            && s.now <= t.now && (a.Pass? ==> t.now == s.now + 1)
            && SignalRank(t.signal) <= SignalRank(s.signal)
            && MainRank(t.main) <= MainRank(s.main)
            && ListenerRank(t.listener) <= ListenerRank(s.listener)
            && (a.Request? ==> t.now == s.now && t.signal == s.signal && t.main == s.main && t.listener == s.listener)
            && (!a.Request? && !a.Pass? ==>
                  || SignalRank(t.signal) < SignalRank(s.signal)
                  || MainRank(t.main) < MainRank(s.main)
                  || ListenerRank(t.listener) < ListenerRank(s.listener))
  {
    StepKeepsTrigger(c, s, a);
    hide Next, Enabled, SignalRank, MainRank, ListenerRank;
    SignalPartFalls(c, s, a);
    MainPartFalls(c, s, a);
    ListenerPartFalls(c, s, a);
    ClockPartFalls(c, s, a);
  }

  /** Every such step lowers the rank, which is positive until the end; requests leave it alone. */
  lemma RankFalls(c: Config, s: State, a: Action)
    requires Inv(c, s) && s.triggeredAt.Some? && c.healthInterval > 0
    requires Enabled(c, s, a) && Alive(Next(c, s, a))
    ensures Next(c, s, a).triggeredAt == s.triggeredAt
    ensures 1 <= Rank(c, Next(c, s, a))
    ensures if a.Request? then Rank(c, Next(c, s, a)) == Rank(c, s) else Rank(c, Next(c, s, a)) < Rank(c, s)
  {
    StepKeepsInv(c, s, a);
    PartsFall(c, s, a);
    hide Next, ChannelConsistent, LockConsistent, DrainConsistent;
    RankIsNatural(c, Next(c, s, a));
  }

  function CountOwn(acts: seq<Action>): nat {
    if acts == [] then 0 else (if acts[0].Request? then 0 else 1) + CountOwn(acts[1..])
  }

  lemma {:induction false} CountOwnAppend(acts: seq<Action>, a: Action)
    ensures CountOwn(acts + [a]) == CountOwn(acts) + (if a.Request? then 0 else 1)
    decreases |acts|
  {
    if acts == [] {
      assert (acts + [a])[1..] == [];
    } else {
      CountOwnAppend(acts[1..], a);
      assert (acts + [a])[1..] == acts[1..] + [a];
    }
  }

  /** After the trigger, a process that still lives has taken fewer than `Rank` steps besides serving requests. */
  lemma {:induction false} ShutdownIsForced(c: Config, tr: seq<State>, acts: seq<Action>, i: nat, j: nat)
    requires IsTrace(c, tr, acts) && i <= j <= |acts|
    requires tr[i].triggeredAt.Some? && c.healthInterval > 0 && Alive(tr[j])
    ensures tr[j].triggeredAt == tr[i].triggeredAt
    ensures 1 <= Rank(c, tr[j]) <= Rank(c, tr[i]) - CountOwn(acts[i..j])
    decreases j
  {
    hide Next, Inv;
    if i < j {
      var s, a := tr[j - 1], acts[j - 1];
      TraceKeepsInv(c, tr, acts, j - 1);
      ShutdownIsForced(c, tr, acts, i, j - 1);
      RankFalls(c, s, a);
      CountOwnAppend(acts[i..j - 1], acts[j - 1]);
      assert acts[i..j] == acts[i..j - 1] + [acts[j - 1]];
    } else {
      TraceKeepsInv(c, tr, acts, i);
      RankIsNatural(c, tr[i]);
    }
  }

  lemma TriggerStep(c: Config, s: State, a: Action)
    requires Inv(c, s) && Enabled(c, s, a) && s.triggeredAt.Some?
    ensures Next(c, s, a).triggeredAt == s.triggeredAt
  {
    StepKeepsTrigger(c, s, a);
  }

  lemma {:induction false} TriggerStays(c: Config, tr: seq<State>, acts: seq<Action>, i: nat, j: nat)
    requires IsTrace(c, tr, acts) && i <= j <= |acts| && tr[i].triggeredAt.Some?
    ensures tr[j].triggeredAt == tr[i].triggeredAt
    decreases j
  {
    hide Next, Enabled;
    if i < j {
      TriggerStays(c, tr, acts, i, j - 1);
      TraceKeepsInv(c, tr, acts, j - 1);
      StepKeepsTrigger(c, tr[j - 1], acts[j - 1]);
    }
  }

  /** Dead or alive, no run takes more than `Rank` such steps after the trigger. */
  lemma OwnStepsAreBounded(c: Config, tr: seq<State>, acts: seq<Action>, i: nat, j: nat)
    requires IsTrace(c, tr, acts) && i <= j <= |acts|
    requires tr[i].triggeredAt.Some? && c.healthInterval > 0
    ensures CountOwn(acts[i..j]) <= Rank(c, tr[i])
  {
    hide Next, Inv;
    if i < j {
      assert Enabled(c, tr[j - 1], acts[j - 1]);
      ShutdownIsForced(c, tr, acts, i, j - 1);
      CountOwnAppend(acts[i..j - 1], acts[j - 1]);
      assert acts[i..j] == acts[i..j - 1] + [acts[j - 1]];
    } else {
      TraceKeepsInv(c, tr, acts, i);
      RankIsNatural(c, tr[i]);
    }
  }

  lemma UndisturbedEnd(c: Config, s: State)
    requires Inv(c, s) && s.triggeredAt.Some? && c.healthInterval > 0 && Undisturbed(s) && !Alive(s)
    ensures s.main.Exited? && ShutdownOver(s) && !s.open
    ensures c.writeTimeout > 0 ==> s.now <= s.triggeredAt.value + c.healthInterval + c.writeTimeout
    ensures c.writeTimeout <= 0 ==> s.now <= s.triggeredAt.value + c.healthInterval
  {
  }

  /** So a triggered process that can do nothing more of its own is gone, after at most `Rank` steps besides serving
      requests; and if nothing disturbed it, it has exited in time and after `Shutdown` returned. */
  lemma ExitIsForced(c: Config, tr: seq<State>, acts: seq<Action>, i: nat, j: nat)
    requires IsTrace(c, tr, acts) && i <= j <= |acts|
    requires tr[i].triggeredAt.Some? && c.healthInterval > 0
    requires forall a :: Enabled(c, tr[j], a) ==> FromOutside(a)
    ensures !Alive(tr[j])
    ensures CountOwn(acts[i..j]) <= Rank(c, tr[i])
    ensures Undisturbed(tr[j]) ==>
              && tr[j].main.Exited? && ShutdownOver(tr[j]) && !tr[j].open
              && (c.writeTimeout > 0 ==>
                    tr[j].now <= tr[i].triggeredAt.value + c.healthInterval + c.writeTimeout)
              && (c.writeTimeout <= 0 ==> tr[j].now <= tr[i].triggeredAt.value + c.healthInterval)
  {
    hide Next, Enabled, Inv, Undisturbed;
    TraceKeepsInv(c, tr, acts, i);
    TraceKeepsInv(c, tr, acts, j);
    TriggerStays(c, tr, acts, i, j);
    if Alive(tr[j]) {
      ShutdownNeverWaits(c, tr[j]);
    }
    OwnStepsAreBounded(c, tr, acts, i, j);
    if Undisturbed(tr[j]) {
      UndisturbedEnd(c, tr[j]);
    }
  }

  lemma OwnStepStaysUndisturbed(c: Config, s: State, a: Action)
    requires Undisturbed(s) && Enabled(c, s, a) && !FromOutside(a)
    ensures Undisturbed(Next(c, s, a))
  {
  }

  /** And the regular exit is always there to be had: whatever requests are running, an undisturbed process that has
      been triggered can get to it by its own steps. */
  lemma {:induction false} LeadsToExit(c: Config, from: State, s: State) returns (t: State)
    requires LeadsTo(c, from, s) && Inv(c, s) && s.triggeredAt.Some? && c.healthInterval > 0
    requires Alive(s) && Undisturbed(s)
    ensures LeadsTo(c, from, t) && Undisturbed(t) && t.main.Exited? && ShutdownOver(t)
    ensures t.triggeredAt == s.triggeredAt
    ensures c.writeTimeout > 0 ==> t.now <= s.triggeredAt.value + c.healthInterval + c.writeTimeout
    ensures c.writeTimeout <= 0 ==> t.now <= s.triggeredAt.value + c.healthInterval
    decreases Rank(c, s)
  {
    hide Next, Enabled, LeadsTo, Inv, Undisturbed;
    RankIsNatural(c, s);
    ShutdownNeverWaits(c, s);
    var a :| Enabled(c, s, a) && !FromOutside(a);
    t := LeadsOn(c, from, s, a);
    OwnStepStaysUndisturbed(c, s, a);
    StepKeepsInv(c, s, a);
    TriggerStep(c, s, a);
    if Alive(t) {
      RankFalls(c, s, a);
      t := LeadsToExit(c, from, t);
    } else {
      UndisturbedEnd(c, t);
    }
  }

  // ---------------------------------------------------------------- draining

  /** Every handler still running when the process exits was running when `Shutdown` began, a whole grace period
      ago; so if none runs that long, the gauge is zero at exit. The number reported at the end is that of the
      handlers between increment and decrement. */
  lemma DrainGuarantee(c: Config, s: State)
    requires Reachable(c, s) && s.triggeredAt.Some? && ShutdownOver(s)
    ensures forall id :: id in s.metrics.requests && Active(s, id) ==>
              && id in s.started
              && s.started[id] <= s.triggeredAt.value + c.healthInterval
              && s.now - s.started[id] >= c.writeTimeout
    ensures (forall id :: id in s.started && Active(s, id) ==> s.now - s.started[id] < c.writeTimeout) ==>
              s.metrics.inFlight == 0
    ensures s.metrics.inFlight > 0 ==>
              s.now == s.triggeredAt.value + c.healthInterval + (if c.writeTimeout > 0 then c.writeTimeout else 0)
    ensures Enabled(c, s, ReadGauge) ==>
              Next(c, s, ReadGauge).signal == Closing(Metrics.Count(s.metrics.requests, Metrics.InFlight))
  {
    ReachableHasInv(c, s);
    var m := s.metrics.requests;
    forall id | id in m && Active(s, id) ensures !Idle(s) {
    }
    if Idle(s) {
      assert forall id :: id in m ==> !Metrics.In(m[id], Metrics.InFlight);
      assert Metrics.Those(m, Metrics.InFlight) == {};
    }
  }

  /** The starting times that `DrainGuarantee` speaks of are the times of arrival, once and for all. */
  lemma {:induction false} StartedAtArrival(c: Config, tr: seq<State>, acts: seq<Action>, i: nat, j: nat, id: nat)
    requires IsTrace(c, tr, acts) && i < j <= |acts| && acts[i] == Request(Metrics.Arrive(id))
    ensures id in tr[j].metrics.requests && id in tr[j].started && tr[j].started[id] == tr[i].now
    decreases j
  {
    hide Next, Enabled;
    if i + 1 < j {
      StartedAtArrival(c, tr, acts, i, j - 1, id);
      StartStays(c, tr[j - 1], acts[j - 1], id);
    } else {
      Starts(c, tr[i], id);
    }
  }

  lemma Starts(c: Config, s: State, id: nat)
    requires Enabled(c, s, Request(Metrics.Arrive(id)))
    ensures var t := Next(c, s, Request(Metrics.Arrive(id)));
            id in t.metrics.requests && id in t.started && t.started[id] == s.now
  {
  }

  lemma StartStays(c: Config, s: State, a: Action, id: nat)
    requires Enabled(c, s, a) && id in s.metrics.requests && id in s.started
    ensures var t := Next(c, s, a);
            id in t.metrics.requests && id in t.started && t.started[id] == s.started[id]
  {
    if !a.Request? {
      OtherStepLeavesRequests(c, s, a);
    } else {
      RequestOnlyAdds(c, s, a.a);
    }
    hide Next, Enabled;
  }

  lemma RequestOnlyAdds(c: Config, s: State, r: Metrics.Action)
    requires Enabled(c, s, Request(r))
    ensures var t := Next(c, s, Request(r));
            && s.metrics.requests.Keys <= t.metrics.requests.Keys
            && s.started.Keys <= t.started.Keys
            && forall id :: id in s.metrics.requests && id in s.started ==> t.started[id] == s.started[id]
  {
  }

  // ---------------------------------------------------------------- exit

  /** The channel is closed twice exactly if the listener failed by itself and the shutdown completed as well;
      a regular exit happens only after `Shutdown` returned or the listener failed. */
  lemma SingleCloseAndOrderedExit(c: Config, s: State)
    requires Reachable(c, s)
    ensures s.main.Panicked? <==> s.signal.Closed? && s.listener == Stopped(true)
    ensures s.main.Exited? ==> (s.signal.Closed? || s.listener == Stopped(true)) && s.closes == 1
    ensures s.main.Exited? && Undisturbed(s) ==> s.signal.Closed? && !s.open
  {
    ReachableHasInv(c, s);
  }

  // ---------------------------------------------------------------- when the channel is closed twice

  /** The shutdown has waited for as long as it takes the health checks to notice. */
  predicate TickIsDue(c: Config, s: State) {
    s.triggeredAt.Some? && c.healthInterval > 0 && s.now >= s.triggeredAt.value + c.healthInterval
  }

  /** The listener has failed by itself at a time when no shutdown can follow any more. */
  predicate FailedEarly(c: Config, s: State) {
    && BeforeShutdown(s) && !s.main.Panicked?
    && ((s.listener.Broken? && s.closes == 0) || (s.listener == Stopped(true) && s.closes == 1))
    && !TickIsDue(c, s)
  }

  lemma FailsEarly(c: Config, s: State)
    requires ChannelConsistent(s) && Enabled(c, s, ListenerFails) && !TickIsDue(c, s)
    ensures FailedEarly(c, Next(c, s, ListenerFails))
  {
  }

  lemma StaysFailedEarly(c: Config, s: State, a: Action)
    requires OnTime(c, s) && FailedEarly(c, s) && Enabled(c, s, a)
    ensures FailedEarly(c, Next(c, s, a))
  {
    assert Urgent(s);
    hide Urgent, Idle;
    assert !a.TickFires? && !a.Pass?;
    if a.Request? {
    } else if OfSignal(a) {
    } else {
    }
  }

  /** A listener that fails before the tick of a shutdown is due makes for a single close: the clock stands still
      until the process has exited. */
  lemma {:induction false} EarlyFailureClosesOnce(c: Config, tr: seq<State>, acts: seq<Action>, i: nat, j: nat)
    requires IsPath(c, tr, acts) && Inv(c, tr[0]) && i < j <= |acts|
    requires acts[i] == ListenerFails && !TickIsDue(c, tr[i])
    ensures FailedEarly(c, tr[j]) && !tr[j].main.Panicked?
    decreases j
  {
    PathKeepsInv(c, tr, acts, j - 1);
    hide Next, LockConsistent, DrainConsistent, OnTime, ChannelConsistent, TickIsDue;
    if i + 1 < j {
      EarlyFailureClosesOnce(c, tr, acts, i, j - 1);
      StaysFailedEarly(c, tr[j - 1], acts[j - 1]);
    } else {
      FailsEarly(c, tr[i]);
    }
  }

  predicate ListenerHasFailed(s: State) {
    s.listener.Broken? || s.listener == Stopped(true)
  }

  lemma OnlyFailureFails(c: Config, s: State, a: Action)
    requires Enabled(c, s, a) && ListenerHasFailed(Next(c, s, a))
    ensures ListenerHasFailed(s) || a == ListenerFails
  {
  }

  lemma {:induction false} FailureHappened(c: Config, tr: seq<State>, acts: seq<Action>, j: nat) returns (i: nat)
    requires IsTrace(c, tr, acts) && j <= |acts| && ListenerHasFailed(tr[j])
    ensures i < j && acts[i] == ListenerFails
    decreases j
  {
    hide Next, Enabled;
    assert j > 0;
    i := j - 1;
    if acts[i] != ListenerFails {
      OnlyFailureFails(c, tr[i], acts[i]);
      i := FailureHappened(c, tr, acts, j - 1);
    }
  }

  /** Whenever a second close panics, the listener has failed after the tick of the shutdown was due. */
  lemma PanicMeansLateFailure(c: Config, tr: seq<State>, acts: seq<Action>, j: nat)
    requires IsTrace(c, tr, acts) && j <= |acts| && tr[j].main.Panicked?
    ensures exists i :: 0 <= i < j && acts[i] == ListenerFails && TickIsDue(c, tr[i])
  {
    TraceKeepsInv(c, tr, acts, 0);
    TraceKeepsInv(c, tr, acts, j);
    var i := FailureHappened(c, tr, acts, j);
    if !TickIsDue(c, tr[i]) {
      EarlyFailureClosesOnce(c, tr, acts, i, j);
    }
  }

  /** What a request still has to go through. */
  function PhaseRank(ph: Metrics.Phase): nat {
    match ph
    case Arrived => 7 case Marked(_) => 6 case InHandler(_) => 5 case HandlerReturned(_) => 4
    case Timed(_) => 3 case Counted(_) => 2 case Leaving(_, _) => 1 case Left(_, _) => 0
  }

  /** The next step of a request whose handler returns normally. */
  function Onward(id: nat, ph: Metrics.Phase): Metrics.Action
    requires !ph.Left?
  {
    match ph
    case Arrived => Metrics.TryMark(id) case Marked(_) => Metrics.IncInFlight(id)
    case InHandler(_) => Metrics.HandlerReturns(id) case HandlerReturned(_) => Metrics.ObserveDuration(id)
    case Timed(_) => Metrics.IncTotal(id) case Counted(_) => Metrics.ObserveFirst(id)
    case Leaving(_, _) => Metrics.DecInFlight(id)
  }

  function Running(s: State): set<nat> {
    set id | id in s.metrics.requests && Active(s, id)
  }

  /** A running request can leave, everything but the metrics staying as it is. */
  lemma {:induction false} LetLeave(c: Config, from: State, s: State, id: nat) returns (t: State)
    requires LeadsTo(c, from, s) && Alive(s) && Active(s, id)
    ensures LeadsTo(c, from, t) && t == s.(metrics := t.metrics)
    ensures Running(t) == Running(s) - {id}
    decreases PhaseRank(s.metrics.requests[id])
  {
    hide LeadsTo;
    var ph := s.metrics.requests[id];
    t := LeadsOn(c, from, s, Request(Onward(id, ph)));
    assert forall k :: k != id ==> (Active(t, k) <==> Active(s, k));
    if Active(t, id) {
      assert Running(t) == Running(s);
      t := LetLeave(c, from, t, id);
    }
  }

  lemma {:induction false} LetAllLeave(c: Config, from: State, s: State) returns (t: State)
    requires LeadsTo(c, from, s) && Alive(s)
    ensures LeadsTo(c, from, t) && t == s.(metrics := t.metrics) && Idle(t)
    decreases Running(s)
  {
    hide LeadsTo, Metrics.Inv;
    if id :| id in Running(s) {
      t := LetLeave(c, from, s, id);
      t := LetAllLeave(c, from, t);
    } else {
      t := s;
      assert forall id :: id in s.metrics.requests && Active(s, id) ==> id in Running(s);
    }
  }

  lemma ShutdownBegins(c: Config, from: State, s: State) returns (t: State)
    requires LeadsTo(c, from, s) && Alive(s) && s.listener.Broken? && s.closes == 0
    requires s.signal.Sampling? || s.signal == Sleeping(Some(s.now))
    ensures LeadsTo(c, from, t) && Alive(t) && t.listener.Broken? && t.closes == 0 && t.signal.Draining?
  {
    hide LeadsTo;
    t := s;
    if t.signal.Sleeping? {
      t := LeadsOn(c, from, t, TickFires);
    }
    t := LeadsOn(c, from, t, BeginShutdown);
  }

  lemma BothClose(c: Config, from: State, s: State) returns (t: State)
    requires LeadsTo(c, from, s) && Alive(s) && s.listener.Broken? && s.closes == 0 && s.signal.Draining? && Idle(s)
    ensures LeadsTo(c, from, t) && t.main.Panicked?
  {
    hide LeadsTo;
    t := LeadsOn(c, from, s, ShutdownReturns);
    t := LeadsOn(c, from, t, ReadGauge);
    t := LeadsOn(c, from, t, CloseIdle);
    t := LeadsOn(c, from, t, ListenerCloses);
  }

  /** In the instant of the tick, a listener that fails lets the shutdown go through before it closes. */
  lemma LateFailureClosesTwice(c: Config, s: State) returns (t: State)
    requires OnTime(c, s) && ChannelConsistent(s) && Enabled(c, s, ListenerFails) && TickIsDue(c, s)
    ensures LeadsTo(c, Next(c, s, ListenerFails), t) && t.main.Panicked?
  {
    var from := Next(c, s, ListenerFails);
    LeadsNowhere(c, from);
    t := ShutdownBegins(c, from, from);
    t := LetAllLeave(c, from, t);
    t := BothClose(c, from, t);
  }

  lemma LeadsAfter(c: Config, s: State, a: Action, t: State) returns (tr: seq<State>, acts: seq<Action>)
    requires Enabled(c, s, a) && LeadsTo(c, Next(c, s, a), t)
    ensures IsPath(c, tr, acts) && tr[0] == s && tr[|acts|] == t && |acts| > 0 && acts[0] == a
  {
    hide Enabled, Next;
    var tr', acts' :| IsPath(c, tr', acts') && tr'[0] == Next(c, s, a) && tr'[|acts'|] == t;
    tr, acts := [s] + tr', [a] + acts';
    forall i | 0 <= i < |acts| ensures Enabled(c, tr[i], acts[i]) && tr[i + 1] == Next(c, tr[i], acts[i]) {
      assert i > 0 ==> tr[i] == tr'[i - 1] && tr[i + 1] == tr'[i] && acts[i] == acts'[i - 1];
    }
  }

  /** A listener that fails by itself can make the channel be closed twice, which panics, if and only if the tick of
      a shutdown is due when it fails. */
  lemma DoubleCloseIff(c: Config, s: State)
    requires Reachable(c, s) && Alive(s) && s.listener.Serving?
    ensures Enabled(c, s, ListenerFails)
    ensures (exists t :: LeadsTo(c, Next(c, s, ListenerFails), t) && t.main.Panicked?) <==> TickIsDue(c, s)
  {
    ReachableHasInv(c, s);
    hide Reachable, LeadsTo, IsPath;
    if TickIsDue(c, s) {
      var t := LateFailureClosesTwice(c, s);
    } else if t :| LeadsTo(c, Next(c, s, ListenerFails), t) && t.main.Panicked? {
      var tr, acts := LeadsAfter(c, s, ListenerFails, t);
      EarlyFailureClosesOnce(c, tr, acts, 0, |acts|);
    }
  }

  // ---------------------------------------------------------------- runs that show the hypotheses are needed

  /** In HTTP mode a forked server that dies of the forwarded signal ends the process at once, with the listener
      open and a handler running. */
  lemma ChildDeathAbortsDrain(c: Config) returns (s: State)
    requires c.httpMode && !c.suppressLock
    ensures Reachable(c, s) && s.main.Aborted? && s.triggeredAt == Some(s.now) && s.open && Active(s, 0)
  {
    ReachInit(c);
    s := ReachStep(c, Init(false), WriteLockFile);
    s := ReachStep(c, s, StoreOne);
    s := ReachStep(c, s, Request(Metrics.Arrive(0)));
    s := ReachStep(c, s, Trigger);
    s := ReachStep(c, s, ChildDies);
  }

  /** Nothing else aborts the process: without a forked server, every shutdown runs its course. */
  lemma OnlyHttpModeAborts(c: Config)
    ensures (exists s :: Reachable(c, s) && s.main.Aborted?) <==> c.httpMode
  {
    if s :| Reachable(c, s) && s.main.Aborted? {
      ReachableHasInv(c, s);
    }
    if c.httpMode {
      ReachInit(c);
      var s := ReachStep(c, Init(false), ChildDies);
    }
  }

  /** A signal that arrives before the lock is published can be overwritten: the watchdog, on its way to shutting
      down, is accepting and its lock file is there. */
  lemma EarlySignalIsOverwritten(c: Config) returns (s: State)
    requires !c.suppressLock
    ensures Reachable(c, s) && s.signal.Sleeping? && Alive(s) && s.accepting && s.lockFile
  {
    ReachInit(c);
    s := ReachStep(c, Init(false), Trigger);
    s := ReachStep(c, s, StoreZero);
    s := ReachStep(c, s, RemoveLock(false));
    s := ReachStep(c, s, StartTick);
    s := ReachStep(c, s, WriteLockFile);
    s := ReachStep(c, s, StoreOne);
  }
}
