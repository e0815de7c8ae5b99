/** The aggregate memory governor: one lock, many observers, and stop events that are set
    outside the lock. */
module Governor {
  import opened Wrappers

  /** A sample is a measured size or a sampling failure; only the failure carries a diagnostic. */
  datatype Sample = Measured(mb: real) | Failed(reason: string)

  /** A stop event, named by identity. */
  datatype StopEvent = StopEvent(id: int)

  const RESOURCE_SAMPLE_FAIL_CLOSED_MB := 1048577.0

  /** The diagnostic of a failed sample. A bare sentinel value counts as a failure too. */
  function Diagnostic(s: Sample): Option<string> {
    match s
    case Failed(reason) => Some(reason)
    case Measured(mb) => if mb == RESOURCE_SAMPLE_FAIL_CLOSED_MB then Some("legacy_sampling_failure") else None
  }

  /** The state guarded by the lock. */
  datatype Shared = Shared(
    limitMb: real,
    currentMb: map<string, real>,
    stopEvents: map<string, StopEvent>,
    tripped: bool,
    peakMb: real,
    failures: map<string, string>)

  const MAX_CONFIGURED_RSS_MB := 1048576.0

  predicate LimitOk(limit: real) {
    0.0 < limit <= MAX_CONFIGURED_RSS_MB
  }

  function Fresh(limit: real): Shared {
    Shared(limit, map[], map[], false, 0.0, map[])
  }

  /** The sum of all values of a map. */
  ghost function Total(m: map<string, real>): real {
    if m == map[] then 0.0 else
      var k :| k in m;
      m[k] + Total(m - {k})
  }

  /** Any participant can be taken out of the sum first. */
  lemma {:induction false} TotalRemove(m: map<string, real>, k: string)
    requires k in m
    ensures Total(m) == m[k] + Total(m - {k})
    decreases |m|
  {
    var j :| j in m && Total(m) == m[j] + Total(m - {j});
    if j != k {
      TotalRemove(m - {j}, k);
      TotalRemove(m - {k}, j);
      assert m - {j} - {k} == m - {k} - {j};
    }
  }

  /** The map after a participant's report: a positive size replaces, zero removes. */
  function Reported(m: map<string, real>, p: string, mb: real): map<string, real> {
    if mb == 0.0 then m - {p} else m[p := mb]
  }

  /** The total moves by exactly the difference one participant reports. */
  lemma TotalReported(m: map<string, real>, p: string, mb: real)
    ensures Total(Reported(m, p, mb)) == Total(m) - (if p in m then m[p] else 0.0) + mb
  {
    var after := Reported(m, p, mb);
    if p in m { TotalRemove(m, p); }
    if p in after {
      TotalRemove(after, p);
      assert after - {p} == m - {p};
    }
    if p !in m {
      assert m - {p} == m;
    }
  }

  function Register(events: map<string, StopEvent>, p: string, e: Option<StopEvent>): map<string, StopEvent> {
    if e.Some? then events[p := e.value] else events
  }

  /** The locked part of observe. */
  ghost function Observe(g: Shared, p: string, s: Sample, e: Option<StopEvent>): Shared {
    var noted :=
      if Diagnostic(s).Some? then
        g.(failures := g.failures[p := Diagnostic(s).value], tripped := true,
           stopEvents := Register(g.stopEvents, p, e))
      else if s.mb == 0.0 then g.(currentMb := g.currentMb - {p}, stopEvents := g.stopEvents - {p})
      else g.(currentMb := g.currentMb[p := s.mb], stopEvents := Register(g.stopEvents, p, e));
    var total := Total(noted.currentMb);
    noted.(peakMb := if noted.peakMb < total then total else noted.peakMb,
           tripped := noted.tripped || total > noted.limitMb)
  }

  /** The events the observer must set once it has left the lock: every registered event, and its
      own even when it has just been dropped. */
  function Batch(g: Shared, e: Option<StopEvent>): set<StopEvent> {
    if g.tripped then g.stopEvents.Values + (if e.Some? then {e.value} else {}) else {}
  }

  function Release(g: Shared, p: string): Shared {
    g.(currentMb := g.currentMb - {p}, stopEvents := g.stopEvents - {p})
  }

  // ----- The class -----

  class StopEvents {
    var isSet: set<StopEvent>

    constructor ()
      ensures isSet == {}
    {
      isSet := {};
    }

    method Set(e: StopEvent)
      modifies this
      ensures isSet == old(isSet) + {e}
    {
      isSet := isSet + {e};
    }
  }

  /** The loop that runs after the lock is released. */
  method SetAll(events: StopEvents, batch: set<StopEvent>)
    modifies events
    ensures events.isSet == old(events.isSet) + batch
  {
    var todo := batch;
    while todo != {}
      invariant todo <= batch
      invariant events.isSet == old(events.isSet) + (batch - todo)
      decreases |todo|
    {
      var x :| x in todo;
      events.Set(x);
      todo := todo - {x};
    }
  }

  class AggregateProcessTreeRSSGovernor {
    const limitMb: real
    const events: StopEvents
    var currentMb: map<string, real>
    var stopEvents: map<string, StopEvent>
    var tripped: bool
    var peakMb: real
    var failures: map<string, string>

    constructor (limit: real, events: StopEvents)
      requires LimitOk(limit)
      ensures State() == Fresh(limit) && this.events == events
    {
      limitMb := limit;
      this.events := events;
      currentMb, stopEvents, tripped, peakMb, failures := map[], map[], false, 0.0, map[];
    }

    function State(): Shared
      reads this
    {
      Shared(limitMb, currentMb, stopEvents, tripped, peakMb, failures)
    }

    /** The sum over the dictionary's values. */
    method CurrentTotal() returns (total: real)
      ensures total == Total(currentMb)
    {
      total := 0.0;
      var rest := currentMb;
      while rest != map[]
        invariant total + Total(rest) == Total(currentMb)
        decreases |rest|
      {
        var p :| p in rest;
        TotalRemove(rest, p);
        total := total + rest[p];
        rest := rest - {p};
      }
    }

    /** The locked part: the batch to set is captured before the lock is released. */
    method ObserveLocked(p: string, s: Sample, e: Option<StopEvent>) returns (total: real, nowTripped: bool,
                         batch: set<StopEvent>)
      modifies this
      ensures State() == Observe(old(State()), p, s, e)
      ensures total == Total(currentMb) && nowTripped == tripped
      ensures batch == Batch(State(), e)
    {
      hide Total;
      var diagnostic := Diagnostic(s);
      if diagnostic.Some? {
        failures := failures[p := diagnostic.value];
        tripped := true;
        if e.Some? {
          stopEvents := stopEvents[p := e.value];
        }
      } else if s.mb == 0.0 {
        currentMb := currentMb - {p};
        stopEvents := stopEvents - {p};
      } else {
        currentMb := currentMb[p := s.mb];
        if e.Some? {
          stopEvents := stopEvents[p := e.value];
        }
      }
      total := CurrentTotal();
      if peakMb < total {
        peakMb := total;
      }
      if total > limitMb {
        tripped := true;
      }
      nowTripped := tripped;
      batch := if nowTripped then stopEvents.Values else {};
      if nowTripped && e.Some? {
        batch := batch + {e.value};
      }
    }

    /** observe, uninterrupted; None for the ValueError of a bad argument. */
    method ObserveSample(p: string, s: Sample, e: Option<StopEvent>) returns (r: Option<(real, bool)>)
      requires events as object != this
      modifies this, events
      ensures r.None? <==> p == "" || (s.Measured? && s.mb < 0.0)
      ensures r.None? ==> State() == old(State()) && events.isSet == old(events.isSet)
      ensures r.Some? ==>
        && State() == Observe(old(State()), p, s, e) && r.value == (Total(currentMb), tripped)
        && events.isSet == old(events.isSet) + Batch(State(), e)
    {
      if p == "" || (s.Measured? && s.mb < 0.0) {
        return None;
      }
      var total, nowTripped, batch := ObserveLocked(p, s, e);
      SetAll(events, batch);
      r := Some((total, nowTripped));
    }

    method ReleaseParticipant(p: string)
      modifies this
      ensures State() == Release(old(State()), p)
    {
      currentMb := currentMb - {p};
      stopEvents := stopEvents - {p};
    }
  }

  // ----- All interleavings -----

  /** A locked operation, as it enters the history. */
  datatype Op =
    | Observed(p: string, s: Sample, e: Option<StopEvent>)
    | Released(p: string)

  /** The whole system: the shared state, the operations so far in lock order, the events already
      set, and per thread the events it still has to set. `returned` are the stop events of
      observers that have returned a tripped verdict. */
  datatype System = System(
    shared: Shared,
    history: seq<Op>,
    isSet: set<StopEvent>,
    pending: map<int, set<StopEvent>>,
    own: map<int, Option<StopEvent>>,
    returned: set<StopEvent>)

  datatype Step =
    | Enter(thread: int, p: string, s: Sample, e: Option<StopEvent>)
    | SetOne(thread: int, event: StopEvent)
    | Return(thread: int)
    | ReleaseStep(p: string)

  predicate Enabled(y: System, t: Step) {
    match t
    case Enter(thread, p, s, e) => thread !in y.pending && p != "" && (s.Measured? ==> s.mb >= 0.0)
    case SetOne(thread, event) => thread in y.pending && event in y.pending[thread]
    case Return(thread) => thread in y.pending && y.pending[thread] == {} && thread in y.own
    case ReleaseStep(_) => true
  }

  ghost function Next(y: System, t: Step): System
    requires Enabled(y, t)
  {
    match t
    case Enter(thread, p, s, e) =>
      var g := Observe(y.shared, p, s, e);
      y.(shared := g, history := y.history + [Observed(p, s, e)],
         pending := y.pending[thread := Batch(g, e)],
         own := y.own[thread := if g.tripped then e else None])
    case SetOne(thread, event) =>
      y.(isSet := y.isSet + {event}, pending := y.pending[thread := y.pending[thread] - {event}])
    case Return(thread) =>
      y.(pending := y.pending - {thread}, own := y.own - {thread},
         returned := y.returned + (if y.own[thread].Some? then {y.own[thread].value} else {}))
    case ReleaseStep(p) =>
      y.(shared := Release(y.shared, p), history := y.history + [Released(p)])
  }

  function Start(limit: real): System {
    System(Fresh(limit), [], {}, map[], map[], {})
  }

  ghost predicate IsRun(limit: real, trace: seq<Step>, y: System)
    decreases |trace|
  {
    if trace == [] then y == Start(limit)
    else
      var t := trace[|trace| - 1];
      exists before :: IsRun(limit, trace[..|trace| - 1], before) && Enabled(before, t) && y == Next(before, t)
  }

  /** What each participant last reported, read off the history alone. */
  function Sizes(history: seq<Op>): map<string, real> {
    if history == [] then map[] else
      var before := Sizes(history[..|history| - 1]);
      match history[|history| - 1]
      case Observed(p, s, e) => if Diagnostic(s).None? then Reported(before, p, s.mb) else before
      case Released(p) => before - {p}
  }

  /** The operation at position k was an observation that must trip the governor: a sampling
      failure, or a total above the limit. */
  ghost predicate Trips(limit: real, history: seq<Op>, k: nat)
    requires k < |history|
  {
    history[k].Observed? && (Diagnostic(history[k].s).Some? || Total(Sizes(history[..k + 1])) > limit)
  }

  /** The largest total any observation produced. */
  ghost function Peak(history: seq<Op>): real {
    if history == [] then 0.0 else
      var before := Peak(history[..|history| - 1]);
      var total := Total(Sizes(history));
      if history[|history| - 1].Observed? && before < total then total else before
  }

  /** Registered events are set or about to be set by a thread in flight. */
  predicate Covered(y: System, e: StopEvent) {
    e in y.isSet || exists t :: t in y.pending && e in y.pending[t]
  }

  ghost predicate Invariant(limit: real, y: System) {
    && y.shared.limitMb == limit
    && y.shared.currentMb == Sizes(y.history)
    && y.shared.peakMb == Peak(y.history)
    && (y.shared.tripped <==> exists k :: 0 <= k < |y.history| && Trips(limit, y.history, k))
    && (y.shared.tripped ==> forall p | p in y.shared.stopEvents :: Covered(y, y.shared.stopEvents[p]))
    && y.own.Keys == y.pending.Keys
    && (forall t | t in y.own && y.own[t].Some? :: y.own[t].value in y.isSet || y.own[t].value in y.pending[t])
    && y.returned <= y.isSet
  }

  lemma TripsKept(limit: real, history: seq<Op>, op: Op)
    ensures (exists k :: 0 <= k < |history| + 1 && Trips(limit, history + [op], k))
       <==> (exists k :: 0 <= k < |history| && Trips(limit, history, k)) || Trips(limit, history + [op], |history|)
  {
    forall k | 0 <= k < |history| ensures Trips(limit, history + [op], k) <==> Trips(limit, history, k) {
      assert (history + [op])[..k + 1] == history[..k + 1];
    }
    assert Trips(limit, history + [op], |history|) ==> |history| < |history| + 1;
  }

  lemma HistoryStep(history: seq<Op>, op: Op)
    ensures (history + [op])[..|history|] == history
    ensures (history + [op])[..|history| + 1] == history + [op]
  {
  }

  lemma EnterKeeps(limit: real, y: System, thread: int, p: string, s: Sample, e: Option<StopEvent>)
    requires Invariant(limit, y) && Enabled(y, Enter(thread, p, s, e))
    ensures Invariant(limit, Next(y, Enter(thread, p, s, e)))
  {
    var y' := Next(y, Enter(thread, p, s, e));
    HistoryStep(y.history, Observed(p, s, e));
    TripsKept(limit, y.history, Observed(p, s, e));
    assert Sizes(y'.history) == y'.shared.currentMb;
    assert Peak(y'.history) == y'.shared.peakMb;
    assert Trips(limit, y'.history, |y.history|) <==> Diagnostic(s).Some? || Total(y'.shared.currentMb) > limit;
    hide Trips, Peak, Sizes, Total;
    forall q | y'.shared.tripped && q in y'.shared.stopEvents ensures Covered(y', y'.shared.stopEvents[q]) {
      assert y'.shared.stopEvents[q] in y'.pending[thread];
    }
  }

  lemma SetKeeps(limit: real, y: System, thread: int, event: StopEvent)
    requires Invariant(limit, y) && Enabled(y, SetOne(thread, event))
    ensures Invariant(limit, Next(y, SetOne(thread, event)))
  {
    var y' := Next(y, SetOne(thread, event));
    hide Trips, Peak, Total, Sizes;
    forall x | Covered(y, x) ensures Covered(y', x) {
      CoveredKept(y, y', x);
    }
  }

  lemma ReturnKeeps(limit: real, y: System, thread: int)
    requires Invariant(limit, y) && Enabled(y, Return(thread))
    ensures Invariant(limit, Next(y, Return(thread)))
  {
    var y' := Next(y, Return(thread));
    hide Trips, Peak, Total, Sizes;
    forall x | Covered(y, x) ensures Covered(y', x) {
      CoveredKept(y, y', x);
    }
  }

  lemma ReleaseKeeps(limit: real, y: System, p: string)
    requires Invariant(limit, y)
    ensures Invariant(limit, Next(y, ReleaseStep(p)))
  {
    var y' := Next(y, ReleaseStep(p));
    HistoryStep(y.history, Released(p));
    TripsKept(limit, y.history, Released(p));
    assert !Trips(limit, y'.history, |y.history|);
    assert Peak(y'.history) == Peak(y.history);
    hide Trips, Peak, Total;
    forall q | y'.shared.tripped && q in y'.shared.stopEvents ensures Covered(y', y'.shared.stopEvents[q]) {
      assert Covered(y, y.shared.stopEvents[q]);
      CoveredKept(y, y', y.shared.stopEvents[q]);
    }
  }

  lemma CoveredKept(y: System, y': System, x: StopEvent)
    requires Covered(y, x) && y.isSet <= y'.isSet
    requires forall t | t in y.pending && x in y.pending[t] && x !in y'.isSet :: t in y'.pending && x in y'.pending[t]
    ensures Covered(y', x)
  {
    if x !in y'.isSet {
      var t :| t in y.pending && x in y.pending[t];
      assert t in y'.pending && x in y'.pending[t];
    }
  }

  /** Safety over every interleaving of every number of observers: the governor has tripped
      exactly when some observation had to trip it, its peak is the largest total ever, and once
      it has tripped every registered event is set or in the hands of a thread in flight. */
  lemma {:induction false} SafeInEveryRun(limit: real, trace: seq<Step>, y: System)
    requires IsRun(limit, trace, y)
    ensures Invariant(limit, y)
    decreases |trace|
  {
    if trace != [] {
      var t := trace[|trace| - 1];
      var before :| IsRun(limit, trace[..|trace| - 1], before) && Enabled(before, t) && y == Next(before, t);
      SafeInEveryRun(limit, trace[..|trace| - 1], before);
      match t
      case Enter(thread, p, s, e) => EnterKeeps(limit, before, thread, p, s, e);
      case SetOne(thread, event) => SetKeeps(limit, before, thread, event);
      case Return(thread) => ReturnKeeps(limit, before, thread);
      case ReleaseStep(p) => ReleaseKeeps(limit, before, p);
    }
  }

  /** A tripped governor stays tripped: no step of any thread resets it. */
  lemma TrippedForever(y: System, t: Step)
    requires y.shared.tripped && Enabled(y, t)
    ensures Next(y, t).shared.tripped
  {
  }

  /** When no thread is between the lock and its last set, a tripped governor has stopped every
      registered participant; and an observer that has returned a tripped verdict finds its own
      event set. */
  lemma QuiescentMeansStopped(limit: real, trace: seq<Step>, y: System)
    requires IsRun(limit, trace, y)
    ensures y.shared.tripped && y.pending == map[] ==>
      forall p | p in y.shared.stopEvents :: y.shared.stopEvents[p] in y.isSet
    ensures forall e | e in y.returned :: e in y.isSet
  {
    SafeInEveryRun(limit, trace, y);
  }

  // ----- The tables, read off the history by position -----

  /** The operation is a report of the participant that hands over its stop event and keeps it
      registered: any sample but a measured zero. */
  predicate Gives(op: Op, p: string) {
    op.Observed? && op.p == p && op.e.Some? && op.s != Measured(0.0)
  }

  /** The operation takes the participant out: a measured zero, or its release. */
  predicate Drops(op: Op, p: string) {
    op == Released(p) || (op.Observed? && op.p == p && op.s == Measured(0.0))
  }

  /** The operation is a failed sample, the bare sentinel included. */
  predicate FailsSample(op: Op) {
    op.Observed? && (op.s.Failed? || op.s == Measured(1048577.0))
  }

  /** A measured size other than zero. */
  predicate Measures(op: Op, p: string) {
    op.Observed? && op.p == p && op.s.Measured? && op.s.mb != 0.0 && !FailsSample(op)
  }

  /** The event is the one the participant last handed over, and it has not been taken out since. */
  ghost predicate IsRegistered(history: seq<Op>, p: string, e: StopEvent) {
    exists k :: 0 <= k < |history| && Gives(history[k], p) && history[k].e.value == e
      && forall j | k < j < |history| :: !Gives(history[j], p) && !Drops(history[j], p)
  }

  /** The size is the one the participant last measured, and it has not been taken out since. */
  ghost predicate IsSize(history: seq<Op>, p: string, mb: real) {
    exists k :: 0 <= k < |history| && Measures(history[k], p) && history[k].s.mb == mb
      && forall j | k < j < |history| :: !Measures(history[j], p) && !Drops(history[j], p)
  }

  /** The diagnostic is that of the participant's last failed sample. */
  ghost predicate IsFailure(history: seq<Op>, p: string, reason: string) {
    exists k :: 0 <= k < |history| && FailsWith(history[k], p, reason)
      && forall j | k < j < |history| :: !(FailsSample(history[j]) && history[j].p == p)
  }

  predicate FailsWith(op: Op, p: string, reason: string) {
    && FailsSample(op) && op.p == p
    && reason == if op.s.Failed? then op.s.reason else "legacy_sampling_failure"
  }

  lemma RegisteredStep(history: seq<Op>, op: Op, p: string, e: StopEvent)
    ensures IsRegistered(history + [op], p, e) <==>
      if Gives(op, p) then op.e.value == e else !Drops(op, p) && IsRegistered(history, p, e)
  {
    var after := history + [op];
    assert after[|history|] == op;
    hide Drops;
    if k :| 0 <= k < |history| && Gives(history[k], p) && history[k].e.value == e
            && forall j | k < j < |history| :: !Gives(history[j], p) && !Drops(history[j], p) {
      assert after[k] == history[k];
    }
    if k :| 0 <= k < |after| && Gives(after[k], p) && after[k].e.value == e
            && forall j | k < j < |after| :: !Gives(after[j], p) && !Drops(after[j], p) {
      if k < |history| {
        assert forall j | k < j < |history| :: history[j] == after[j];
      }
    }
  }

  lemma SizeStep(history: seq<Op>, op: Op, p: string, mb: real)
    ensures IsSize(history + [op], p, mb) <==>
      if Measures(op, p) then op.s.mb == mb else !Drops(op, p) && IsSize(history, p, mb)
  {
    var after := history + [op];
    assert after[|history|] == op;
    hide Drops, FailsSample;
    if k :| 0 <= k < |history| && Measures(history[k], p) && history[k].s.mb == mb
            && forall j | k < j < |history| :: !Measures(history[j], p) && !Drops(history[j], p) {
      assert after[k] == history[k];
    }
    if k :| 0 <= k < |after| && Measures(after[k], p) && after[k].s.mb == mb
            && forall j | k < j < |after| :: !Measures(after[j], p) && !Drops(after[j], p) {
      if k < |history| {
        assert forall j | k < j < |history| :: history[j] == after[j];
      }
    }
  }

  lemma FailureStep(history: seq<Op>, op: Op, p: string, reason: string)
    ensures IsFailure(history + [op], p, reason) <==>
      FailsWith(op, p, reason) || (!(FailsSample(op) && op.p == p) && IsFailure(history, p, reason))
  {
    var after := history + [op];
    assert after[|history|] == op;
    assert FailsWith(op, p, reason) ==> FailsSample(op) && op.p == p;
    hide FailsWith, FailsSample;
    if k :| 0 <= k < |history| && FailsWith(history[k], p, reason)
            && forall j | k < j < |history| :: !(FailsSample(history[j]) && history[j].p == p) {
      assert after[k] == history[k];
    }
    if k :| 0 <= k < |after| && FailsWith(after[k], p, reason)
            && forall j | k < j < |after| :: !(FailsSample(after[j]) && after[j].p == p) {
      if k < |history| {
        assert forall j | k < j < |history| :: history[j] == after[j];
      }
    }
  }

  /** The guarded tables are exactly what the history says. */
  ghost predicate TablesMatch(g: Shared, history: seq<Op>) {
    && (forall p, e :: (p in g.stopEvents && g.stopEvents[p] == e) <==> IsRegistered(history, p, e))
    && (forall p, mb :: (p in g.currentMb && g.currentMb[p] == mb) <==> IsSize(history, p, mb))
    && (forall p, reason :: (p in g.failures && g.failures[p] == reason) <==> IsFailure(history, p, reason))
  }

  /** The tables after one locked operation. */
  ghost function After(g: Shared, op: Op): Shared {
    match op
    case Observed(p, s, e) => Observe(g, p, s, e)
    case Released(p) => Release(g, p)
  }

  lemma TablesKept(g: Shared, history: seq<Op>, op: Op)
    requires TablesMatch(g, history)
    ensures TablesMatch(After(g, op), history + [op])
  {
    var after := After(g, op);
    hide Total, IsRegistered, IsSize, IsFailure;
    forall p, e ensures (p in after.stopEvents && after.stopEvents[p] == e) <==> IsRegistered(history + [op], p, e) {
      RegisteredStep(history, op, p, e);
    }
    forall p, mb ensures (p in after.currentMb && after.currentMb[p] == mb) <==> IsSize(history + [op], p, mb) {
      SizeStep(history, op, p, mb);
    }
    forall p, r ensures (p in after.failures && after.failures[p] == r) <==> IsFailure(history + [op], p, r) {
      FailureStep(history, op, p, r);
    }
  }

  /** In every run of every number of observers, the tables are what the history says by position: a
      participant's registered event is the one it last handed over with a nonzero or failed sample, its
      size the last nonzero one it measured, both gone after a measured zero or a release, and its
      diagnostic that of its last failed sample. */
  lemma {:induction false} TablesInEveryRun(limit: real, trace: seq<Step>, y: System)
    requires IsRun(limit, trace, y)
    ensures TablesMatch(y.shared, y.history)
    decreases |trace|
  {
    if trace == [] {
      assert y.shared == Fresh(limit) && y.history == [];
    } else {
      var t := trace[|trace| - 1];
      var before :| IsRun(limit, trace[..|trace| - 1], before) && Enabled(before, t) && y == Next(before, t);
      TablesInEveryRun(limit, trace[..|trace| - 1], before);
      hide TablesMatch, Total;
      match t
      case Enter(thread, p, s, e) => TablesKept(before.shared, before.history, Observed(p, s, e));
      case ReleaseStep(p) => TablesKept(before.shared, before.history, Released(p));
      case _ =>
    }
  }

  /** Safety, from the history alone: the governor has tripped exactly when some observation was a
      failed sample or found a total above the limit; from then on every event a participant last
      handed over and has not withdrawn is set or in the batch of a thread in flight, and it is set once
      no thread is in flight; and before that no event is set or waiting to be. */
  lemma EveryRegisteredIsStopped(limit: real, trace: seq<Step>, y: System)
    requires IsRun(limit, trace, y)
    ensures y.shared.tripped <==>
      exists k :: 0 <= k < |y.history| && y.history[k].Observed?
                  && (FailsSample(y.history[k]) || Total(Sizes(y.history[..k + 1])) > limit)
    ensures y.shared.tripped ==>
      forall p, e | IsRegistered(y.history, p, e) ::
        e in y.isSet || exists t :: t in y.pending && e in y.pending[t]
    ensures y.shared.tripped && y.pending == map[] ==> forall p, e | IsRegistered(y.history, p, e) :: e in y.isSet
    ensures !y.shared.tripped ==> y.isSet == {} && forall t | t in y.pending :: y.pending[t] == {}
    ensures forall p, mb :: (p in Sizes(y.history) && Sizes(y.history)[p] == mb) <==> IsSize(y.history, p, mb)
  {
    SafeInEveryRun(limit, trace, y);
    TablesInEveryRun(limit, trace, y);
    NothingSetBefore(limit, trace, y);
    forall k | 0 <= k < |y.history|
      ensures Trips(limit, y.history, k) <==>
        y.history[k].Observed? && (FailsSample(y.history[k]) || Total(Sizes(y.history[..k + 1])) > limit)
    {
    }
    hide Total, Sizes, Trips, FailsSample, IsRegistered, IsSize, IsFailure;
    forall p, e | y.shared.tripped && IsRegistered(y.history, p, e) ensures Covered(y, e) {
      assert p in y.shared.stopEvents && y.shared.stopEvents[p] == e;
    }
  }

  lemma {:induction false} NothingSetBefore(limit: real, trace: seq<Step>, y: System)
    requires IsRun(limit, trace, y)
    ensures !y.shared.tripped ==> y.isSet == {} && forall t | t in y.pending :: y.pending[t] == {}
    decreases |trace|
  {
    if trace != [] {
      var t := trace[|trace| - 1];
      var before :| IsRun(limit, trace[..|trace| - 1], before) && Enabled(before, t) && y == Next(before, t);
      NothingSetBefore(limit, trace[..|trace| - 1], before);
      hide Total;
    }
  }

  lemma {:induction false} PeakIsMaximum(history: seq<Op>)
    ensures 0.0 <= Peak(history)
    ensures forall k | 0 <= k < |history| && history[k].Observed? :: Total(Sizes(history[..k + 1])) <= Peak(history)
    ensures Peak(history) == 0.0
         || exists k :: 0 <= k < |history| && history[k].Observed? && Peak(history) == Total(Sizes(history[..k + 1]))
  {
    if history != [] {
      var init := history[..|history| - 1];
      hide Total, Sizes;
      PeakIsMaximum(init);
      assert history[..|history|] == history;
      forall k | 0 <= k < |init| ensures init[..k + 1] == history[..k + 1] && init[k] == history[k] {}
    }
  }
}
