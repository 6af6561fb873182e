/** The health and readiness endpoints. A handler reads the flag in one state of a run and the lock file in a
    later one; the states in between are whatever the other goroutines make of them. */
module Health {
  import opened Lifecycle
  import opened LifecycleProofs
  import Responses

  predicate Healthy(s: State) {
    s.accepting && s.lockFile
  }

  /** `makeHealthHandler`: the flag as read in `load`, the lock file as found in `stat`. */
  function HealthStatus(isGet: bool, load: State, stat: State): int {
    if !isGet then Responses.STATUS_METHOD_NOT_ALLOWED
    else if !load.accepting || !stat.lockFile then Responses.STATUS_SERVICE_UNAVAILABLE
    else Responses.STATUS_OK
  }

  datatype ReadyAnswer = Status(code: int) | ProxiedToFunction

  /** The limiter, if there is one, and whether it is full at the moment it is asked. */
  datatype Limiter = NoLimiter | Limited(met: bool)

  datatype Endpoint = NoEndpoint | ReadyPath(requestIsValid: bool)

  function LimitMet(l: Limiter): bool {
    l.Limited? && l.met
  }

  /** `readiness.ServeHTTP`: lock first, then the limit, then the function's own check. */
  function ReadyStatus(isGet: bool, load: State, stat: State, limiter: Limiter, endpoint: Endpoint): ReadyAnswer {
    if !isGet then Status(Responses.STATUS_METHOD_NOT_ALLOWED)
    else if !load.accepting || !stat.lockFile then Status(Responses.STATUS_SERVICE_UNAVAILABLE)
    else if LimitMet(limiter) then Status(Responses.STATUS_TOO_MANY_REQUESTS)
    else if endpoint.NoEndpoint? then Status(Responses.STATUS_OK)
    else if endpoint.requestIsValid then ProxiedToFunction
    else Status(Responses.STATUS_INTERNAL_SERVER_ERROR)
  }

  // ---------------------------------------------------------------- linearizability

  /** Nobody will create the lock file any more. */
  predicate NoMoreWrites(c: Config, s: State) {
    c.suppressLock || !s.main.Creating?
  }

  lemma LockStep(c: Config, s: State, a: Action)
    requires NoMoreWrites(c, s) && Enabled(c, s, a)
    ensures NoMoreWrites(c, Next(c, s, a)) && (Next(c, s, a).lockFile ==> s.lockFile)
  {
  }

  lemma {:induction false} LockOnlyFalls(c: Config, tr: seq<State>, acts: seq<Action>, i: nat, j: nat)
    requires IsTrace(c, tr, acts) && i <= j <= |acts| && NoMoreWrites(c, tr[i])
    ensures NoMoreWrites(c, tr[j]) && (tr[j].lockFile ==> tr[i].lockFile)
    decreases j
  {
    hide Next;
    if i < j {
      LockOnlyFalls(c, tr, acts, i, j - 1);
      LockStep(c, tr[j - 1], acts[j - 1]);
    }
  }

  /** Although a handler reads the flag and the lock file at different times, it answers as if it had read both at
      one moment in between; the readiness handler likewise. */
  lemma HealthIsLinearizable(c: Config, tr: seq<State>, acts: seq<Action>, i: nat, j: nat,
                             isGet: bool, limiter: Limiter, endpoint: Endpoint)
    requires IsTrace(c, tr, acts) && i <= j <= |acts|
    ensures exists k :: i <= k <= j
              && (isGet ==> (HealthStatus(isGet, tr[i], tr[j]) == Responses.STATUS_OK <==> Healthy(tr[k])))
              && HealthStatus(isGet, tr[i], tr[j]) == HealthStatus(isGet, tr[k], tr[k])
              && ReadyStatus(isGet, tr[i], tr[j], limiter, endpoint)
                 == ReadyStatus(isGet, tr[k], tr[k], limiter, endpoint)
  {
    if tr[i].accepting {
      TraceKeepsInv(c, tr, acts, i);
      LockOnlyFalls(c, tr, acts, i, j);
      assert Healthy(if tr[j].lockFile then tr[i] else tr[j]) <==> tr[j].lockFile;
    } else {
      assert !Healthy(tr[i]);
    }
  }

  // ---------------------------------------------------------------- unhealthy is permanent

  /** `acceptingConnections` has been set, for the only time. */
  predicate Published(s: State) {
    s.main.AtWait?
  }

  predicate PastStoreZero(s: State) {
    !s.signal.Listening? && !s.signal.Triggered?
  }

  lemma FlagStep(c: Config, s: State, a: Action)
    requires PastStoreZero(s) && Enabled(c, s, a) && Alive(Next(c, s, a))
    ensures var t := Next(c, s, a);
            && PastStoreZero(t)
            && (Published(s) ==> Published(t))
            && (t.accepting <==> s.accepting || (!Published(s) && Published(t)))
  {
  }

  lemma FlagCleared(c: Config, s: State)
    requires Enabled(c, s, StoreZero)
    ensures var t := Next(c, s, StoreZero); PastStoreZero(t) && !t.accepting && (Published(t) <==> Published(s))
  {
  }

  /** From the shutdown goroutine's store of 0 on, the flag of a living process is 1 if and only if the store of 1
      came after it. */
  lemma {:induction false} FlagAfterStoreZero(c: Config, tr: seq<State>, acts: seq<Action>, i: nat, j: nat)
    requires IsTrace(c, tr, acts) && i < j <= |acts| && acts[i] == StoreZero && Alive(tr[j])
    ensures PastStoreZero(tr[j])
    ensures Published(tr[i]) ==> Published(tr[j])
    ensures tr[j].accepting <==> !Published(tr[i]) && Published(tr[j])
    decreases j
  {
    hide Next;
    if i + 1 < j {
      FlagAfterStoreZero(c, tr, acts, i, j - 1);
      FlagStep(c, tr[j - 1], acts[j - 1]);
    } else {
      FlagCleared(c, tr[i]);
    }
  }

  /** Every check that begins after the store of 0 answers 503 for as long as the process lives, provided the
      store of 1 came first; without that, a check answers 503 exactly until the store of 1, or for want of a
      lock file. */
  lemma UnhealthyIsPermanent(c: Config, tr: seq<State>, acts: seq<Action>, i: nat, k: nat, j: nat,
                             limiter: Limiter, endpoint: Endpoint)
    requires IsTrace(c, tr, acts) && i < k <= j <= |acts| && acts[i] == StoreZero && Alive(tr[j])
    ensures var down := Published(tr[i]) || !Published(tr[k]) || !tr[j].lockFile;
            && (HealthStatus(true, tr[k], tr[j]) == Responses.STATUS_SERVICE_UNAVAILABLE <==> down)
            && (ReadyStatus(true, tr[k], tr[j], limiter, endpoint) == Status(Responses.STATUS_SERVICE_UNAVAILABLE)
                <==> down)
  {
    AliveEarlier(c, tr, acts, k, j);
    FlagAfterStoreZero(c, tr, acts, i, k);
  }

  lemma AliveEarlier(c: Config, tr: seq<State>, acts: seq<Action>, k: nat, j: nat)
    requires IsTrace(c, tr, acts) && k <= j <= |acts| && Alive(tr[j])
    ensures Alive(tr[k])
  {
    if k < j {
      assert Enabled(c, tr[k], acts[k]);
    }
  }

  /** Once removed, the lock file stays away to the end, unless the signal came before it was first written. */
  lemma LockStaysRemoved(c: Config, tr: seq<State>, acts: seq<Action>, i: nat, j: nat)
    requires IsTrace(c, tr, acts) && i < j <= |acts| && acts[i] == RemoveLock(true)
    ensures tr[j].lockFile ==> tr[i].main.Creating? && !c.suppressLock
  {
    if NoMoreWrites(c, tr[i]) {
      LockOnlyFalls(c, tr, acts, i + 1, j);
    }
  }

  // ---------------------------------------------------------------- what the flag and the file go back to

  /** Whether the lock file is there, going by the last step that wrote or removed it. */
  function LockAfter(stale: bool, acts: seq<Action>): bool {
    if acts == [] then stale
    else
      match acts[|acts| - 1]
      case WriteLockFile => true
      case RemoveLock(true) => false
      case _ => LockAfter(stale, acts[..|acts| - 1])
  }

  /** The flag, going by the last store to it. */
  function FlagAfter(acts: seq<Action>): bool {
    if acts == [] then false
    else
      match acts[|acts| - 1]
      case StoreOne => true
      case StoreZero => false
      case _ => FlagAfter(acts[..|acts| - 1])
  }

  /** Nothing else ever touches the two. */
  lemma {:induction false} SharedStateIsHistory(c: Config, tr: seq<State>, acts: seq<Action>, j: nat)
    requires IsTrace(c, tr, acts) && j <= |acts|
    ensures tr[j].lockFile == LockAfter(tr[0].lockFile, acts[..j])
    ensures tr[j].accepting == FlagAfter(acts[..j])
    decreases j
  {
    hide Next, Enabled;
    if j > 0 {
      SharedStateIsHistory(c, tr, acts, j - 1);
      assert acts[..j][..j - 1] == acts[..j - 1];
      SharedStep(c, tr[j - 1], acts[j - 1]);
    }
  }

  lemma SharedStep(c: Config, s: State, a: Action)
    requires Enabled(c, s, a)
    ensures Next(c, s, a).lockFile
            == if a.WriteLockFile? then true else if a == RemoveLock(true) then false else s.lockFile
    ensures Next(c, s, a).accepting
            == if a.StoreOne? then true else if a.StoreZero? then false else s.accepting
  {
  }

  // ---------------------------------------------------------------- healthy once started

  /** As long as no signal has come, the flag tells whether it was published, and the lock file is there once it was
      written; with the lock suppressed, only if it was left over. */
  predicate Unsignalled(c: Config, stale: bool, s: State) {
    && s.signal.Listening?
    && (Alive(s) ==> (s.accepting <==> Published(s)))
    && (c.suppressLock ==> !s.main.Written? && s.lockFile == stale)
    && (!c.suppressLock && (s.main.Written? || s.main.AtWait?) ==> s.lockFile)
  }

  lemma UnsignalledStep(c: Config, stale: bool, s: State, a: Action)
    requires Enabled(c, s, a) && Next(c, s, a).signal.Listening?
    requires s.signal.Listening? ==> Unsignalled(c, stale, s)
    ensures s.signal.Listening? && Unsignalled(c, stale, Next(c, s, a))
    ensures Published(s) && Alive(Next(c, s, a)) ==> Published(Next(c, s, a))
  {
  }

  lemma {:induction false} UnsignalledSince(c: Config, tr: seq<State>, acts: seq<Action>, i: nat, j: nat)
    requires IsTrace(c, tr, acts) && i <= j <= |acts| && tr[j].signal.Listening?
    ensures Unsignalled(c, tr[0].lockFile, tr[i]) && Unsignalled(c, tr[0].lockFile, tr[j])
    ensures Published(tr[i]) && Alive(tr[j]) ==> Published(tr[j])
    decreases j
  {
    hide Next, Alive, Unsignalled;
    if j > 0 {
      StillListening(c, tr[j - 1], acts[j - 1]);
      UnsignalledSince(c, tr, acts, if i < j then i else j - 1, j - 1);
      UnsignalledStep(c, tr[0].lockFile, tr[j - 1], acts[j - 1]);
    } else {
      StartsUnsignalled(c, tr[0]);
    }
  }

  lemma StillListening(c: Config, s: State, a: Action)
    requires Enabled(c, s, a) && Next(c, s, a).signal.Listening?
    ensures s.signal.Listening? && Alive(s)
  {
  }

  lemma StartsUnsignalled(c: Config, s: State)
    requires s == Init(false) || s == Init(true)
    ensures Unsignalled(c, s.lockFile, s)
  {
  }

  /** A process that nobody has signalled yet is healthy, and not refused as unready, exactly from the moment on at
      which it has published the flag; with the lock suppressed, only if a lock file was left over from before. */
  lemma HealthyOnceStarted(c: Config, tr: seq<State>, acts: seq<Action>, i: nat, j: nat,
                           limiter: Limiter, endpoint: Endpoint)
    requires IsTrace(c, tr, acts) && i <= j <= |acts| && tr[j].signal.Listening? && Alive(tr[j])
    ensures var up := Published(tr[i]) && (c.suppressLock ==> tr[0].lockFile);
            && (HealthStatus(true, tr[i], tr[j]) == 200 <==> up)
            && (ReadyStatus(true, tr[i], tr[j], limiter, endpoint) == Status(503) <==> !up)
  {
    AliveEarlier(c, tr, acts, i, j);
    UnsignalledSince(c, tr, acts, i, j);
  }

  /** With the lock suppressed and no lock file left over, health is refused throughout, signal or not. */
  lemma SuppressedLockHealth(c: Config, tr: seq<State>, acts: seq<Action>, i: nat, j: nat)
    requires IsTrace(c, tr, acts) && i <= j <= |acts| && c.suppressLock
    ensures tr[i].signal.Listening? && tr[j].signal.Listening? && Alive(tr[j]) ==>
              (HealthStatus(true, tr[i], tr[j]) == Responses.STATUS_OK <==> tr[0].lockFile && Published(tr[i]))
    ensures !tr[0].lockFile ==> HealthStatus(true, tr[i], tr[j]) == Responses.STATUS_SERVICE_UNAVAILABLE
  {
    LockOnlyFalls(c, tr, acts, 0, j);
    if tr[i].signal.Listening? && tr[j].signal.Listening? && Alive(tr[j]) {
      HealthyOnceStarted(c, tr, acts, i, j, NoLimiter, NoEndpoint);
    }
  }
}
