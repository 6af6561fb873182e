/** Request instrumentation: any number of requests interleave through the steps of `InstrumentHandler`. */
module Metrics {
  import opened ByteStreams

  /** Where one request stands. `first` is the local result of its compare-and-swap. */
  datatype Phase =
    | Arrived
    | Marked(first: bool)
    | InHandler(first: bool)
    | HandlerReturned(first: bool)
    | Timed(first: bool)
    | Counted(first: bool)
    | Leaving(first: bool, panicked: bool)
    | Left(first: bool, panicked: bool)

  datatype State = State(firstRequestRecorded: bool, inFlight: int, requestsTotal: nat, durations: nat,
                         firstSamples: nat, requests: map<nat, Phase>)

  function Init(): State {
    State(false, 0, 0, 0, 0, map[])
  }

  datatype Action =
    | Arrive(id: nat) | TryMark(id: nat) | IncInFlight(id: nat)
    | HandlerReturns(id: nat) | HandlerPanics(id: nat)
    | ObserveDuration(id: nat) | IncTotal(id: nat) | ObserveFirst(id: nat) | DecInFlight(id: nat)

  predicate Enabled(s: State, a: Action) {
    if a.Arrive? then a.id !in s.requests
    else
      && a.id in s.requests
      && var ph := s.requests[a.id];
      match a
      case TryMark(_) => ph.Arrived?
      case IncInFlight(_) => ph.Marked?
      case HandlerReturns(_) => ph.InHandler?
      case HandlerPanics(_) => ph.InHandler?
      case ObserveDuration(_) => ph.HandlerReturned?
      case IncTotal(_) => ph.Timed?
      case ObserveFirst(_) => ph.Counted?
      case DecInFlight(_) => ph.Leaving?
  }

  /** A panicking handler skips everything but the deferred decrement. */
  function Next(s: State, a: Action): State
    requires Enabled(s, a)
  {
    if a.Arrive? then s.(requests := s.requests[a.id := Arrived])
    else
      var ph := s.requests[a.id];
      match a
      case TryMark(id) =>
        s.(requests := s.requests[id := Marked(!s.firstRequestRecorded)], firstRequestRecorded := true)
      case IncInFlight(id) =>
        s.(requests := s.requests[id := InHandler(ph.first)], inFlight := s.inFlight + 1)
      case HandlerReturns(id) => s.(requests := s.requests[id := HandlerReturned(ph.first)])
      case HandlerPanics(id) => s.(requests := s.requests[id := Leaving(ph.first, true)])
      case ObserveDuration(id) =>
        s.(requests := s.requests[id := Timed(ph.first)], durations := s.durations + 1)
      case IncTotal(id) =>
        s.(requests := s.requests[id := Counted(ph.first)], requestsTotal := s.requestsTotal + 1)
      case ObserveFirst(id) =>
        s.(requests := s.requests[id := Leaving(ph.first, false)],
           firstSamples := s.firstSamples + if ph.first then 1 else 0)
      case DecInFlight(id) =>
        s.(requests := s.requests[id := Left(ph.first, ph.panicked)], inFlight := s.inFlight - 1)
  }

  ghost predicate IsRun(s: State, acts: seq<Action>, t: State)
    decreases |acts|
  {
    if acts == [] then s == t
    else Enabled(s, acts[0]) && IsRun(Next(s, acts[0]), acts[1..], t)
  }

  // ---------------------------------------------------------------- counting requests by phase

  /** The groups of requests that the metrics are compared with. */
  datatype Group =
    | NotYetInc | InFlight | Finished | PanickedAndLeft
    | PassedTotal | PassedDuration | PassedFirst
    | Tried | Won

  predicate In(ph: Phase, g: Group) {
    match g
    case NotYetInc => ph.Arrived? || ph.Marked?
    case InFlight => !ph.Arrived? && !ph.Marked? && !ph.Left?
    case Finished => ph.Left? && !ph.panicked
    case PanickedAndLeft => ph.Left? && ph.panicked
    case PassedTotal => ph.Counted? || ((ph.Leaving? || ph.Left?) && !ph.panicked)
    case PassedDuration => ph.Timed? || ph.Counted? || ((ph.Leaving? || ph.Left?) && !ph.panicked)
    case PassedFirst => (ph.Leaving? || ph.Left?) && ph.first && !ph.panicked
    case Tried => !ph.Arrived?
    case Won => !ph.Arrived? && ph.first
  }

  function Those(m: map<nat, Phase>, g: Group): set<nat> {
    set id | id in m && In(m[id], g)
  }

  function Count(m: map<nat, Phase>, g: Group): nat {
    |Those(m, g)|
  }

  lemma CountUpdate(m: map<nat, Phase>, id: nat, ph: Phase, g: Group)
    ensures Count(m[id := ph], g)
            == Count(m, g) - (if id in m && In(m[id], g) then 1 else 0) + (if In(ph, g) then 1 else 0)
  {
    ThoseUpdate(m, id, ph, g);
    hide Those;
    var before := Those(m, g);
    SizeWithout(before, id);
    SizeWithout(before + {id}, id);
    assert (before + {id}) - {id} == before - {id};
  }

  lemma ThoseUpdate(m: map<nat, Phase>, id: nat, ph: Phase, g: Group)
    ensures Those(m[id := ph], g) == if In(ph, g) then Those(m, g) + {id} else Those(m, g) - {id}
    ensures id in Those(m, g) <==> id in m && In(m[id], g)
  {
    hide In;
  }

  // ---------------------------------------------------------------- the invariant

  ghost predicate Inv(s: State) {
    && s.inFlight == Count(s.requests, InFlight)
    && s.requestsTotal == Count(s.requests, PassedTotal)
    && s.durations == Count(s.requests, PassedDuration)
    && s.firstSamples == Count(s.requests, PassedFirst)
    && Count(s.requests, Won) == (if s.firstRequestRecorded then 1 else 0)
    && (s.firstRequestRecorded <==> Count(s.requests, Tried) > 0)
  }

  lemma InitHolds()
    ensures Inv(Init())
  {
    var none: map<nat, Phase> := map[];
    assert forall g :: Those(none, g) == {};
  }

  lemma StepKeepsInv(s: State, a: Action)
    requires Inv(s) && Enabled(s, a)
    ensures Inv(Next(s, a))
  {
    var t := Next(s, a);
    var ph := t.requests[a.id];
    assert t.requests == s.requests[a.id := ph];
    CountUpdate(s.requests, a.id, ph, InFlight);
    CountUpdate(s.requests, a.id, ph, PassedTotal);
    CountUpdate(s.requests, a.id, ph, PassedDuration);
    CountUpdate(s.requests, a.id, ph, PassedFirst);
    CountUpdate(s.requests, a.id, ph, Won);
    CountUpdate(s.requests, a.id, ph, Tried);
  }

  lemma {:induction false} RunKeepsInv(s: State, acts: seq<Action>, t: State)
    requires Inv(s) && IsRun(s, acts, t)
    ensures Inv(t)
    decreases |acts|
  {
    if acts != [] {
      StepKeepsInv(s, acts[0]);
      RunKeepsInv(Next(s, acts[0]), acts[1..], t);
    }
  }

  // ---------------------------------------------------------------- what holds in every reachable state

  lemma Partition(m: map<nat, Phase>)
    ensures |m| == Count(m, NotYetInc) + Count(m, InFlight) + Count(m, Finished) + Count(m, PanickedAndLeft)
  {
    var a, b, c, d :=
      Those(m, NotYetInc), Those(m, InFlight), Those(m, Finished), Those(m, PanickedAndLeft);
    assert m.Keys == a + b + c + d;
    DisjointSize(a, b);
    DisjointSize(a + b, c);
    DisjointSize(a + b + c, d);
  }

  /** The gauge equals the number of requests between increment and deferred decrement, panics included, and
      no request is lost; the counter and the duration histogram hold one entry per handler that returned
      normally and got that far. */
  lemma Conservation(acts: seq<Action>, s: State)
    requires IsRun(Init(), acts, s)
    ensures s.inFlight == Count(s.requests, InFlight) >= 0
    ensures |s.requests| == Count(s.requests, NotYetInc) + s.inFlight
                            + Count(s.requests, Finished) + Count(s.requests, PanickedAndLeft)
    ensures s.requestsTotal == Count(s.requests, PassedTotal) <= s.durations == Count(s.requests, PassedDuration)
    ensures (forall id :: id in s.requests ==> s.requests[id].Left?) ==>
              s.inFlight == 0 && s.requestsTotal == s.durations == Count(s.requests, Finished)
  {
    InitHolds();
    RunKeepsInv(Init(), acts, s);
    Partition(s.requests);
    assert Those(s.requests, PassedTotal) <= Those(s.requests, PassedDuration);
    CountWithin(s.requests, PassedTotal, PassedDuration);
    if forall id :: id in s.requests ==> s.requests[id].Left? {
      assert Those(s.requests, InFlight) == {};
      assert Those(s.requests, PassedTotal) == Those(s.requests, Finished) == Those(s.requests, PassedDuration);
    }
  }

  lemma CountWithin(m: map<nat, Phase>, p: Group, q: Group)
    requires Those(m, p) <= Those(m, q)
    ensures Count(m, p) <= Count(m, q)
  {
    var p', q' := Those(m, p), Those(m, q);
    assert q' == p' + (q' - p');
  }

  /** A compare-and-swap wins exactly if no request has executed one before; so there is one winner as soon as
      anyone has tried, never two, and the first-request histogram holds its one sample exactly if the winner
      returned normally and passed its observation. */
  lemma ExactlyOneFirstRequest(acts: seq<Action>, s: State)
    requires IsRun(Init(), acts, s)
    ensures Those(s.requests, Won) != {} <==> Those(s.requests, Tried) != {}
    ensures forall id, id' :: id in Those(s.requests, Won) && id' in Those(s.requests, Won) ==> id == id'
    ensures forall id :: id in s.requests && s.requests[id].Arrived? ==>
              (Next(s, TryMark(id)).requests[id] == Marked(true) <==> Those(s.requests, Tried) == {})
    ensures s.firstSamples <= 1
    ensures s.firstSamples == 1 <==> Those(s.requests, PassedFirst) != {}
  {
    InitHolds();
    RunKeepsInv(Init(), acts, s);
    var won := Those(s.requests, Won);
    if w :| w in won {
      assert |won - {w}| == 0;
      assert won == {w};
    }
    CountWithin(s.requests, PassedFirst, Won);
  }

  lemma OneStep(s: State, a: Action)
    requires Enabled(s, a)
    ensures IsRun(s, [a], Next(s, a))
  {
  }

  lemma StepsBefore(s: State, a: Action, acts: seq<Action>, t: State)
    requires Enabled(s, a) && IsRun(Next(s, a), acts, t)
    ensures IsRun(s, [a] + acts, t)
  {
    assert ([a] + acts)[1..] == acts;
  }

  lemma {:induction false} RunAfter(s: State, acts: seq<Action>, t: State, more: seq<Action>, u: State)
    requires IsRun(s, acts, t) && IsRun(t, more, u)
    ensures IsRun(s, acts + more, u)
    decreases |acts|
  {
    if acts == [] {
      assert acts + more == more;
    } else {
      RunAfter(Next(s, acts[0]), acts[1..], t, more, u);
      assert (acts + more)[1..] == acts[1..] + more;
    }
  }

  // ---------------------------------------------------------------- the metrics object

  /** The `Http` metrics object, together with the program counters of the requests that run through it. */
  class Http {
    var firstRequestRecorded: int
    var inFlight: int
    var requestsTotal: nat
    var durations: nat
    var firstSamples: nat
    ghost var requests: map<nat, Phase>

    ghost function View(): State
      reads this
    {
      State(firstRequestRecorded != 0, inFlight, requestsTotal, durations, firstSamples, requests)
    }

    constructor ()
      ensures View() == Init()
    {
      firstRequestRecorded, inFlight, requestsTotal, durations, firstSamples := 0, 0, 0, 0, 0;
      requests := map[];
    }

    /** `atomic.CompareAndSwapUint32(&h.firstRequestRecorded, 0, 1)`. */
    method TryMarkFirstRequest(ghost id: nat) returns (first: bool)
      requires Enabled(View(), TryMark(id))
      modifies this
      ensures View() == Next(old(View()), TryMark(id)) && first == requests[id].first
    {
      first := firstRequestRecorded == 0;
      if first {
        firstRequestRecorded := 1;
      }
      requests := requests[id := Marked(first)];
    }

    method Inc(ghost id: nat)
      requires Enabled(View(), IncInFlight(id))
      modifies this
      ensures View() == Next(old(View()), IncInFlight(id))
    {
      inFlight := inFlight + 1;
      requests := requests[id := InHandler(requests[id].first)];
    }

    method Dec(ghost id: nat)
      requires Enabled(View(), DecInFlight(id))
      modifies this
      ensures View() == Next(old(View()), DecInFlight(id))
    {
      inFlight := inFlight - 1;
      requests := requests[id := Left(requests[id].first, requests[id].panicked)];
    }

    method RecordDuration(ghost id: nat)
      requires Enabled(View(), ObserveDuration(id))
      modifies this
      ensures View() == Next(old(View()), ObserveDuration(id))
    {
      durations := durations + 1;
      requests := requests[id := Timed(requests[id].first)];
    }

    method CountRequest(ghost id: nat)
      requires Enabled(View(), IncTotal(id))
      modifies this
      ensures View() == Next(old(View()), IncTotal(id))
    {
      requestsTotal := requestsTotal + 1;
      requests := requests[id := Counted(requests[id].first)];
    }

    /** The `if firstRequest { observe }` at the end of the handler. */
    method ObserveFirstRequest(first: bool, ghost id: nat)
      requires Enabled(View(), ObserveFirst(id)) && first == requests[id].first
      modifies this
      ensures View() == Next(old(View()), ObserveFirst(id))
    {
      if first {
        firstSamples := firstSamples + 1;
      }
      requests := requests[id := Leaving(first, false)];
    }

    /** `then(w, r)` and the code after it, down to the return: a panic leaves at once. */
    method Handle(first: bool, panics: bool, ghost id: nat) returns (ghost acts: seq<Action>)
      requires id in requests && requests[id] == InHandler(first)
      modifies this
      ensures IsRun(old(View()), acts, View())
      ensures requests == old(requests)[id := Leaving(first, panics)]
      ensures (firstRequestRecorded != 0 <==> old(firstRequestRecorded) != 0) && inFlight == old(inFlight)
      ensures requestsTotal == old(requestsTotal) + if panics then 0 else 1
      ensures durations == old(durations) + if panics then 0 else 1
      ensures firstSamples == old(firstSamples) + if first && !panics then 1 else 0
    {
      hide IsRun;
      if panics {
        OneStep(View(), HandlerPanics(id));
        requests := requests[id := Leaving(first, true)];
        return [HandlerPanics(id)];
      }
      ghost var before := View();
      requests := requests[id := HandlerReturned(first)];
      acts := Record(first, id);
      StepsBefore(before, HandlerReturns(id), acts, View());
      acts := [HandlerReturns(id)] + acts;
    }

    /** What is recorded of a handler that has returned normally. */
    method Record(first: bool, ghost id: nat) returns (ghost acts: seq<Action>)
      requires id in requests && requests[id] == HandlerReturned(first)
      modifies this
      ensures IsRun(old(View()), acts, View())
      ensures requests == old(requests)[id := Leaving(first, false)]
      ensures (firstRequestRecorded != 0 <==> old(firstRequestRecorded) != 0) && inFlight == old(inFlight)
      ensures requestsTotal == old(requestsTotal) + 1 && durations == old(durations) + 1
      ensures firstSamples == old(firstSamples) + if first then 1 else 0
    {
      hide IsRun;
      ghost var s0 := View();
      RecordDuration(id);
      ghost var s1 := View();
      CountRequest(id);
      OneStep(View(), ObserveFirst(id));
      ObserveFirstRequest(first, id);
      StepsBefore(s1, IncTotal(id), [ObserveFirst(id)], View());
      acts := [IncTotal(id)] + [ObserveFirst(id)];
      StepsBefore(s0, ObserveDuration(id), acts, View());
      acts := [ObserveDuration(id)] + acts;
    }

    /** The compare-and-swap of a request that has just arrived, and the increment. */
    method Enter(ghost id: nat) returns (first: bool, ghost acts: seq<Action>)
      requires id !in requests
      modifies this
      ensures IsRun(old(View()), acts, View())
      ensures first == (old(firstRequestRecorded) == 0) && firstRequestRecorded != 0
      ensures requests == old(requests)[id := InHandler(first)] && inFlight == old(inFlight) + 1
      ensures requestsTotal == old(requestsTotal) && durations == old(durations) && firstSamples == old(firstSamples)
    {
      hide IsRun;
      ghost var s0 := View();
      requests := requests[id := Arrived];
      ghost var s1 := View();
      first := TryMarkFirstRequest(id);
      OneStep(View(), IncInFlight(id));
      Inc(id);
      StepsBefore(s1, TryMark(id), [IncInFlight(id)], View());
      acts := [TryMark(id)] + [IncInFlight(id)];
      StepsBefore(s0, Arrive(id), acts, View());
      acts := [Arrive(id)] + acts;
    }

    /** One request that nobody interleaves with: the steps in program order, the decrement deferred. */
    method InstrumentHandler(ghost id: nat, panics: bool) returns (ghost acts: seq<Action>)
      requires id !in requests
      modifies this
      ensures IsRun(old(View()), acts, View())
      ensures requests == old(requests)[id := Left(old(firstRequestRecorded) == 0, panics)]
      ensures firstRequestRecorded != 0 && inFlight == old(inFlight)
      ensures requestsTotal == old(requestsTotal) + if panics then 0 else 1
      ensures durations == old(durations) + if panics then 0 else 1
      ensures firstSamples == old(firstSamples) + if old(firstRequestRecorded) == 0 && !panics then 1 else 0
    {
      hide IsRun;
      ghost var s0 := View();
      var first;
      first, acts := Enter(id);
      ghost var s1 := View();
      ghost var more := Handle(first, panics, id);
      RunAfter(s0, acts, s1, more, View());
      ghost var s2 := View();
      OneStep(s2, DecInFlight(id));
      Dec(id);
      RunAfter(s0, acts + more, s2, [DecInFlight(id)], View());
      acts := acts + more + [DecInFlight(id)];
    }
  }
}
