/**
 How calls on the worker sessions end: whoever stops using, creating or closing wakes every
 sleeper, and without new calls the ones in progress all end, however the threads are scheduled.
 */
module SessionsEnd {
  import opened Sessions

  // ----- Who ends a wait --------------------------------------------------------------

  predicate CreatesAt(calls: map<Thread, Call>, t: Thread) {
    t in calls && Creates(calls[t])
  }

  predicate ClosesAt(calls: map<Thread, Call>, t: Thread) {
    t in calls && IsCloser(calls[t])
  }

  /** What others wait for: the thread stops using, creating or closing. */
  predicate Ceases(b: Backend, step: Step, t: Thread)
    requires Enabled(b, step)
  {
    var after := Do(b, step).calls;
    || (UsesAt(b.calls, t) && !UsesAt(after, t))
    || (CreatesAt(b.calls, t) && !CreatesAt(after, t))
    || (ClosesAt(b.calls, t) && !ClosesAt(after, t))
  }

  /** What a step makes of the calls: its own thread's call changes, the others are at most woken. */
  predicate Moves(before: map<Thread, Call>, after: map<Thread, Call>, t: Thread) {
    after - {t} == before - {t} || after - {t} == Notified(before) - {t}
  }

  lemma EndsMove(b: Backend, step: Step)
    requires Enabled(b, step) && (Ends(step) || step.EndClose?)
    ensures Do(b, step).calls == Notified(b.calls) - {step.t}
  {
    hide Drain, LookAt, PublishBy, EvictBy, Notified, Woken;
  }

  lemma TableMoves(b: Backend, step: Step)
    requires Enabled(b, step) && (step.Publish? || step.Evict?)
    ensures Moves(b.calls, Do(b, step).calls, step.t)
  {
    hide Drain, LookAt, Notified, Woken;
  }

  lemma DrainMoves(b: Backend, t: Thread)
    ensures Drain(b, t).calls - {t} == b.calls - {t}
  {
    hide Drained;
  }

  lemma ClosingMoves(b: Backend, step: Step)
    requires Enabled(b, step) && OnClosing(step)
    ensures Do(b, step).calls - {step.t} == b.calls - {step.t}
  {
    hide PublishBy, EvictBy, LookAt, Drain, Notified, Woken;
    DrainMoves(b, step.t);
    DrainMoves(b.(phase := Closing, closer := step.t), step.t);
  }

  lemma OthersMove(b: Backend, step: Step)
    requires Enabled(b, step) && !Ends(step) && !OnClosing(step)
    requires !step.EndClose? && !step.Publish? && !step.Evict?
    ensures Do(b, step).calls - {step.t} == b.calls - {step.t}
  {
    hide PublishBy, EvictBy, Drain, Notified, Woken;
  }

  lemma MovesOne(b: Backend, step: Step)
    requires Enabled(b, step)
    ensures Moves(b.calls, Do(b, step).calls, step.t)
  {
    hide Do, Enabled, Notified, Woken;
    if Ends(step) || step.EndClose? {
      EndsMove(b, step);
    } else if step.Publish? || step.Evict? {
      TableMoves(b, step);
    } else if OnClosing(step) {
      ClosingMoves(b, step);
    } else {
      OthersMove(b, step);
    }
  }

  lemma OthersStay(before: map<Thread, Call>, after: map<Thread, Call>, t: Thread, x: Thread)
    requires Moves(before, after, t) && x != t
    ensures UsesAt(before, x) <==> UsesAt(after, x)
    ensures CreatesAt(before, x) <==> CreatesAt(after, x)
    ensures ClosesAt(before, x) <==> ClosesAt(after, x)
  {
    assert x in after <==> x in after - {t};
    assert x in before <==> x in before - {t};
    assert x in after ==> after[x] == (after - {t})[x];
    assert x in before ==> before[x] == (before - {t})[x];
  }

  lemma CeasesByEnding(b: Backend, step: Step)
    requires Enabled(b, step) && Ceases(b, step, step.t)
    ensures Ends(step) || step.EndClose? || (step.Publish? && b.phase.Open?)
  {
    hide Notified, Woken;
  }

  /** Nobody sleeps on once a user, a creator or the closer is done. */
  lemma EndWakesAll(b: Backend, step: Step, t: Thread)
    requires Enabled(b, step) && Ceases(b, step, t)
    ensures forall x | x in Do(b, step).calls :: !Asleep(Do(b, step).calls[x])
  {
    hide LookAt, EvictBy, Drain, Notified, Woken, Ceases;
    NotifiedAreAwake(b.calls);
    NotifiedKeys(b.calls);
    MovesOne(b, step);
    OnlyOwnCeases(b, step, t);
    CeasesByEnding(b, step);
    if !step.Publish? {
      EndsMove(b, step);
    }
  }

  lemma OnlyOwnCeases(b: Backend, step: Step, t: Thread)
    requires Enabled(b, step) && Ceases(b, step, t)
    ensures t == step.t
  {
    hide Do, Enabled;
    MovesOne(b, step);
    if t != step.t {
      OthersStay(b.calls, Do(b, step).calls, step.t, t);
      assert false;
    }
  }

  // ----- How much is left to do -------------------------------------------------------

  function Weight(c: Call): nat {
    match c
    case Acquiring(_) => 8
    case Sleeping(_) => 8
    case Creating(_) => 7
    case Created(_, _) => 6
    case Discarding(_, _) => 5
    case Discarded(_) => 4
    case Using(_, _) => 4
    case Evicting(_) => 3
    case Leaving => 2
    case Constructing => 1
    case Draining(_) => 2
    case Shutting(left) => 1 + |left|
    case AwaitingClose(_) => 1
  }

  ghost function Pick(calls: map<Thread, Call>): Thread
    requires calls != map[]
    ensures Pick(calls) in calls
  {
    assert exists t :: t in calls;
    var t :| t in calls;
    t
  }

  ghost function Total(calls: map<Thread, Call>): nat {
    if calls == map[] then 0 else Weight(calls[Pick(calls)]) + Total(calls - {Pick(calls)})
  }

  lemma {:induction false} TotalWithout(calls: map<Thread, Call>, t: Thread)
    requires t in calls
    ensures Total(calls) == Weight(calls[t]) + Total(calls - {t})
    decreases |calls|
  {
    var x := Pick(calls);
    if x != t {
      TotalWithout(calls - {x}, t);
      TotalWithout(calls - {t}, x);
      assert calls - {x} - {t} == calls - {t} - {x};
    }
  }

  lemma {:induction false} TotalSame(before: map<Thread, Call>, after: map<Thread, Call>)
    requires before.Keys == after.Keys && forall t | t in before :: Weight(before[t]) == Weight(after[t])
    ensures Total(before) == Total(after)
    decreases |before|
  {
    if before != map[] {
      var t := Pick(before);
      assert after != map[];
      TotalWithout(after, t);
      TotalSame(before - {t}, after - {t});
    }
  }

  lemma NotifiedTotal(calls: map<Thread, Call>)
    ensures Total(Notified(calls)) == Total(calls) && Notified(calls).Keys == calls.Keys
  {
    TotalSame(calls, Notified(calls));
  }

  lemma TotalMoves(before: map<Thread, Call>, after: map<Thread, Call>, t: Thread)
    requires Moves(before, after, t) && t in before
    ensures t in after ==> Total(after) + Weight(before[t]) == Total(before) + Weight(after[t])
    ensures t !in after ==> Total(after) + Weight(before[t]) == Total(before)
    ensures after.Keys <= before.Keys + {t} && |after| <= |before|
  {
    hide Total, Weight, Woken, Notified;
    var rest := Notified(before) - {t};
    NotifiedTotal(before);
    TotalWithout(before, t);
    TotalWithout(Notified(before), t);
    NotifiedWeight(before, t);
    WithoutLess(before, after, t);
    if t in after {
      TotalWithout(after, t);
    } else {
      assert after - {t} == after;
    }
  }

  lemma NotifiedWeight(calls: map<Thread, Call>, t: Thread)
    requires t in calls
    ensures Weight(Notified(calls)[t]) == Weight(calls[t])
  {
  }

  lemma WithoutLess(before: map<Thread, Call>, after: map<Thread, Call>, t: Thread)
    requires Moves(before, after, t) && t in before
    ensures after.Keys <= before.Keys && |after| <= |before|
  {
    hide Woken;
    NotifiedKeys(before);
    forall x | x in after
      ensures x in before
    {
      assert x != t ==> x in after - {t};
    }
    Fewer(after.Keys, before.Keys);
    assert |after.Keys| == |after| && |before.Keys| == |before|;
  }

  lemma {:induction false} Fewer<T>(a: set<T>, b: set<T>)
    requires a <= b
    ensures |a| <= |b|
  {
    assert b == a + (b - a);
  }

  /** Awake and about to look whether what it waits for has happened. */
  predicate Looks(c: Call) {
    c.Acquiring? || c == Draining(false) || c == AwaitingClose(false)
  }

  function Lookers(calls: map<Thread, Call>): set<Thread> {
    set t | t in calls && Looks(calls[t])
  }

  ghost function Core(b: Backend): nat {
    Total(b.calls) + |b.sessions|
  }

  /** Each thread may look once more after anything else that happens. */
  ghost function Work(b: Backend): nat {
    Core(b) * (|b.calls| + 1) + |Lookers(b.calls)|
  }

  /** A call that begins. */
  predicate Opens(step: Step) {
    step.Acquire? || step.Construct? || step.Close?
  }

  predicate FallsAsleep(before: map<Thread, Call>, after: map<Thread, Call>, t: Thread) {
    && t in before && t in after && Looks(before[t]) && !Looks(after[t])
    && Weight(after[t]) == Weight(before[t]) && after == before[t := after[t]]
  }

  lemma ValuesFew<K, V>(m: map<K, V>)
    ensures |m.Values| <= |m|
    decreases |m|
  {
    if m != map[] {
      assert exists k :: k in m;
      var k :| k in m;
      var rest := m - {k};
      ValuesFew(rest);
      forall v | v in m.Values
        ensures v in rest.Values + {m[k]}
      {
        var j :| j in m && m[j] == v;
        assert j != k ==> j in rest && rest[j] == v;
      }
      Fewer(m.Values, rest.Values + {m[k]});
    }
  }

  /** The thread that moves gets further, unless it looks and falls asleep. */
  predicate Further(b: Backend, c: Backend, t: Thread) {
    && t in b.calls
    && (if t in c.calls then Weight(c.calls[t]) else 0) + |c.sessions| < Weight(b.calls[t]) + |b.sessions|
  }

  lemma LookGoes(b: Backend, step: Step)
    requires Enabled(b, step) && step.Look?
    ensures Further(b, Do(b, step), step.t) ||
      (FallsAsleep(b.calls, Do(b, step).calls, step.t) && Do(b, step).sessions == b.sessions)
  {
    hide PublishBy, EvictBy, Drain, Notified, Woken;
  }

  lemma RecheckGoes(b: Backend, step: Step)
    requires Enabled(b, step) && step.Recheck?
    ensures Further(b, Do(b, step), step.t) ||
      (FallsAsleep(b.calls, Do(b, step).calls, step.t) && Do(b, step).sessions == b.sessions)
  {
    hide PublishBy, EvictBy, LookAt, Notified, Woken;
    ValuesFew(b.sessions);
  }

  lemma TableGoes(b: Backend, step: Step)
    requires Enabled(b, step) && (step.Publish? || step.Evict?)
    ensures Further(b, Do(b, step), step.t)
  {
    hide LookAt, Drain, Notified, Woken;
  }

  lemma EndsKeepTable(b: Backend, step: Step)
    requires Enabled(b, step) && (Ends(step) || step.EndClose?)
    ensures step.t in b.calls && Do(b, step).sessions == b.sessions
  {
    hide LookAt, PublishBy, EvictBy, Drain, Notified, Woken;
  }

  lemma SomethingLeft(c: Call)
    ensures Weight(c) > 0
  {
  }

  lemma EndsGo(b: Backend, step: Step)
    requires Enabled(b, step) && (Ends(step) || step.EndClose?)
    ensures Further(b, Do(b, step), step.t)
  {
    hide Do, Enabled, Weight, Notified;
    EndsMove(b, step);
    EndsKeepTable(b, step);
    SomethingLeft(b.calls[step.t]);
  }

  lemma OthersGo(b: Backend, step: Step)
    requires Enabled(b, step) && (step.Create? || step.Discard? || step.CloseEvicted?)
    ensures Further(b, Do(b, step), step.t)
  {
    hide LookAt, PublishBy, EvictBy, Drain, Notified, Woken;
  }

  lemma ShutGoes(b: Backend, step: Step)
    requires Enabled(b, step) && step.ShutOne?
    ensures Further(b, Do(b, step), step.t)
  {
    hide LookAt, PublishBy, EvictBy, Drain, Notified, Woken;
    var left := b.calls[step.t].left;
    assert |left - {step.session}| == |left| - 1;
  }

  lemma StepGoes(b: Backend, step: Step)
    requires Enabled(b, step) && !Opens(step)
    ensures Further(b, Do(b, step), step.t) ||
      (FallsAsleep(b.calls, Do(b, step).calls, step.t) && Do(b, step).sessions == b.sessions)
  {
    hide Do, Enabled, Further, FallsAsleep;
    match step {
      case Look(_) => LookGoes(b, step);
      case Recheck(_) => RecheckGoes(b, step);
      case Publish(_) | Evict(_) => TableGoes(b, step);
      case Create(_, _) | Discard(_) | CloseEvicted(_) => OthersGo(b, step);
      case ShutOne(_, _) => ShutGoes(b, step);
      case _ => EndsGo(b, step);
    }
  }

  lemma LookersFew(calls: map<Thread, Call>)
    ensures |Lookers(calls)| <= |calls|
  {
    Fewer(Lookers(calls), calls.Keys);
    assert |calls.Keys| == |calls|;
  }

  lemma CoreCounts(core: nat, less: nat, n: nat, m: nat, lookers: nat, fewer: nat)
    requires less < core && m <= n && fewer <= m
    ensures less * (m + 1) + fewer < core * (n + 1) + lookers
  {
    assert less * (m + 1) <= less * (n + 1);
    assert (less + 1) * (n + 1) <= core * (n + 1);
  }

  lemma SleepWorks(b: Backend, c: Backend, t: Thread)
    requires FallsAsleep(b.calls, c.calls, t) && c.sessions == b.sessions
    ensures Work(c) < Work(b)
  {
    hide Weight, Total;
    assert Moves(b.calls, c.calls, t);
    TotalMoves(b.calls, c.calls, t);
    assert c.calls.Keys == b.calls.Keys && |c.calls.Keys| == |c.calls| && |b.calls.Keys| == |b.calls|;
    assert Lookers(c.calls) == Lookers(b.calls) - {t};
  }

  /** Every step but a new call leaves less to do. */
  lemma WorkFalls(b: Backend, step: Step)
    requires Enabled(b, step) && !Opens(step)
    ensures Work(Do(b, step)) < Work(b)
  {
    hide Do, Enabled, Weight, Total, Moves, FallsAsleep, Lookers;
    var c := Do(b, step);
    StepGoes(b, step);
    if Further(b, c, step.t) {
      MovesOne(b, step);
      TotalMoves(b.calls, c.calls, step.t);
      LookersFew(c.calls);
      CoreCounts(Core(b), Core(c), |b.calls|, |c.calls|, |Lookers(b.calls)|, |Lookers(c.calls)|);
    } else {
      SleepWorks(b, c, step.t);
    }
  }

  // ----- Every call ends --------------------------------------------------------------

  lemma SomeStep(b: Backend) returns (step: Step)
    requires Inv(b) && b.calls != map[]
    ensures Enabled(b, step) && !Opens(step)
  {
    var t := Pick(b.calls);
    var u := SomebodyIsAwake(b, t);
    step := Next(b, u);
  }

  /**
   However the threads are scheduled, in whatever reachable state new calls stop coming, what follows
   is bounded and can always go on until every call has ended.
   */
  lemma {:induction false} CallsEnd(b: Backend, steps: seq<Step>) returns (more: seq<Step>)
    requires Inv(b) && Runs(b, steps) && forall step | step in steps :: !Opens(step)
    ensures Runs(b, steps + more) && |steps + more| <= Work(b)
    ensures forall step | step in steps + more :: !Opens(step)
    ensures After(b, steps + more).calls == map[]
    decreases Work(b)
  {
    hide Do, Enabled, Inv, Work;
    if steps != [] {
      WorkFalls(b, steps[0]);
      DoKeeps(b, steps[0]);
      more := CallsEnd(Do(b, steps[0]), steps[1..]);
      assert (steps + more)[1..] == steps[1..] + more;
    } else if b.calls != map[] {
      var step := SomeStep(b);
      WorkFalls(b, step);
      DoKeeps(b, step);
      var rest := CallsEnd(Do(b, step), []);
      assert [] + rest == rest;
      more := [step] + rest;
      assert (steps + more)[1..] == rest;
    } else {
      more := [];
    }
  }
}
