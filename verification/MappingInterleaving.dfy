/**
 The worker applies the entries of a batch one at a time, packet after packet, while another of its
 threads finishes invocations. Batches as single steps lose nothing by that: every interleaving ends
 where the whole batch followed by the finishes ends, and meanwhile no running invocation misses a
 mapping.
 */
module MappingInterleaving {
  import opened MappingTables
  import opened MappingMirror

  /** What happens to the worker's cache while a batch is on its way. */
  datatype Event = Entered(entry: Entry) | Ended(invocation: nat)

  function EntriesOf(events: seq<Event>): seq<Entry> {
    if events == [] then []
    else EntriesOf(events[..|events| - 1]) + match events[|events| - 1] case Entered(e) => [e] case Ended(_) => []
  }

  function EndedOf(events: seq<Event>): seq<nat> {
    if events == [] then []
    else EndedOf(events[..|events| - 1]) + match events[|events| - 1] case Entered(_) => [] case Ended(j) => [j]
  }

  function Happen(w: WorkerTable, events: seq<Event>): Applied {
    if events == [] then Applied(w)
    else match Happen(w, events[..|events| - 1])
      case Refused => Refused
      case Applied(t) =>
        match events[|events| - 1] case Entered(e) => ApplyOne(t, e) case Ended(j) => Applied(Finished(t, j))
  }

  function FinishedAll(w: WorkerTable, js: seq<nat>): WorkerTable {
    if js == [] then w else Finished(FinishedAll(w, js[..|js| - 1]), js[|js| - 1])
  }

  // ----- One entry and one finish -----------------------------------------------------

  function BufferOf(e: Entry): nat {
    match e case Map(s) => s.bufferId case Retire(b, _, _) => b
  }

  /** The invocation owns neither what the entry maps nor what is mapped there now. */
  predicate Apart(w: WorkerTable, e: Entry, j: nat) {
    && (BufferOf(e) in w ==> !OwnedBy(w[BufferOf(e)], j))
    && (e.Map? ==> !OwnedBy(e.spec, j))
  }

  function FinishedAfter(a: Applied, js: seq<nat>): Applied {
    match a case Refused => Refused case Applied(t) => Applied(FinishedAll(t, js))
  }

  lemma Commute(w: WorkerTable, e: Entry, j: nat)
    requires Apart(w, e, j)
    ensures ApplyOne(Finished(w, j), e) ==
            match ApplyOne(w, e) case Refused => Refused case Applied(t) => Applied(Finished(t, j))
  {
    var b := BufferOf(e);
    assert b in Finished(w, j) <==> b in w;
    match ApplyOne(w, e)
    case Refused =>
    case Applied(t) => assert ApplyOne(Finished(w, j), e).table == Finished(t, j);
  }

  lemma {:induction false} CommuteAll(w: WorkerTable, e: Entry, js: seq<nat>)
    requires forall j | j in js :: Apart(w, e, j)
    ensures ApplyOne(FinishedAll(w, js), e) == FinishedAfter(ApplyOne(w, e), js)
    ensures BufferOf(e) in FinishedAll(w, js) <==> BufferOf(e) in w
    ensures BufferOf(e) in w ==> FinishedAll(w, js)[BufferOf(e)] == w[BufferOf(e)]
  {
    if js != [] {
      var front, j := js[..|js| - 1], js[|js| - 1];
      assert j in js && forall x | x in front :: x in js;
      CommuteAll(w, e, front);
      assert Apart(FinishedAll(w, front), e, j);
      Commute(FinishedAll(w, front), e, j);
    }
  }

  // ----- A batch and many finishes ----------------------------------------------------

  lemma ApartStays(w: WorkerTable, e: Entry, next: Entry, j: nat)
    requires Apart(w, e, j) && Apart(w, next, j) && ApplyOne(w, next).Applied?
    ensures Apart(ApplyOne(w, next).table, e, j)
  {
  }

  lemma {:induction false} ApartAfter(w: WorkerTable, entries: seq<Entry>, n: nat, e: Entry, j: nat)
    requires n <= |entries| && Apart(w, e, j) && (forall x | x in entries :: Apart(w, x, j))
    requires Apply(w, entries, n).Applied?
    ensures Apart(Apply(w, entries, n).table, e, j)
  {
    if n > 0 {
      ApartAfter(w, entries, n - 1, e, j);
      ApartAfter(w, entries, n - 1, entries[n - 1], j);
      ApartStays(Apply(w, entries, n - 1).table, e, entries[n - 1], j);
    }
  }

  /** Every interleaving comes to the batch first and the finishes after it. */
  lemma {:induction false} BatchFirst(w: WorkerTable, events: seq<Event>)
    requires forall e, j | e in EntriesOf(events) && j in EndedOf(events) :: Apart(w, e, j)
    ensures Happen(w, events) == FinishedAfter(Apply(w, EntriesOf(events), |EntriesOf(events)|), EndedOf(events))
    decreases |events|
  {
    if events != [] {
      var front, last := events[..|events| - 1], events[|events| - 1];
      var entries, js := EntriesOf(front), EndedOf(front);
      BatchFirst(w, front);
      match last
      case Ended(j) =>
        assert EntriesOf(events) == entries && EndedOf(events) == js + [j];
        assert (js + [j])[..|js|] == js;
      case Entered(e) =>
        assert EntriesOf(events) == entries + [e] && EndedOf(events) == js;
        ApplyPrefix(w, entries, EntriesOf(events), |entries|);
        if Apply(w, entries, |entries|).Applied? {
          forall j | j in js
            ensures Apart(Apply(w, entries, |entries|).table, e, j)
          {
            ApartAfter(w, entries, |entries|, e, j);
          }
          CommuteAll(Apply(w, entries, |entries|).table, e, js);
        }
    }
  }

  // ----- The batches of the protocol --------------------------------------------------

  predicate SendsBatch(step: Step) {
    step.MapAll? || step.RetireAll? || step.Abort?
  }

  /** The entries a step sends, in however many packets. */
  function BatchOf(u: World, step: Step): seq<Entry>
    requires Enabled(u, step) && SendsBatch(step)
  {
    match step
    case MapAll(i, requests) => Sent(u.host, SpecsOf(u, i, requests), |requests|)
    case RetireAll(keys) => Retirements(Active(u.host, keys, |keys|))
    case Abort(_, keys) => Retirements(Active(u.host, keys, |keys|))
  }

  ghost predicate Keyed(h: HostTable) {
    forall k | k in h :: KeyOf(h[k]) == k
  }

  lemma {:induction false} RequestedKeyed(h: HostTable, specs: seq<Spec>, n: nat)
    requires Keyed(h) && n <= |specs|
    ensures Keyed(AllRequested(h, specs, n))
  {
    if n > 0 {
      RequestedKeyed(h, specs, n - 1);
    }
  }

  /** Every entry of a mapping batch is about the buffer of one of the requests. */
  lemma {:induction false} SentFor(h: HostTable, specs: seq<Spec>, n: nat, e: Entry) returns (m: nat)
    requires Keyed(h) && n <= |specs| && e in Sent(h, specs, n)
    ensures m < n && BufferOf(e) == specs[m].bufferId && (e.Map? ==> e.spec == specs[m])
    ensures e in EntriesFor(AllRequested(h, specs, m), specs[m])
  {
    RequestedKeyed(h, specs, n - 1);
    if e in Sent(h, specs, n - 1) {
      m := SentFor(h, specs, n - 1, e);
    } else {
      m := n - 1;
    }
  }

  /** Nobody but the leaseholder owns what the worker has mapped of a leased buffer. */
  lemma OwnerLeases(u: World, b: nat, j: nat)
    requires Inv(u) && b in u.worker && OwnedBy(u.worker[b], j)
    ensures Lease(j, b, true) in u.leases && b in u.buffers && !u.buffers[b].arena
  {
    var k := KeyOf(u.worker[b]);
    assert k in u.host && u.host[k] == u.worker[b] && k.bufferId == b;
  }

  lemma MapApart(u: World, i: nat, requests: seq<Request>, e: Entry, j: nat)
    requires Inv(u) && Enabled(u, MapAll(i, requests)) && e in BatchOf(u, MapAll(i, requests)) && In(u, j, Dispatched)
    ensures Apart(u.worker, e, j)
  {
    var specs := SpecsOf(u, i, requests);
    var m := SentFor(u.host, specs, |requests|, e);
    AsksAll(u, i, requests);
    assert Asks(u, specs[m]) && specs[m].invocationId == i;
    assert specs[m].arena || Leases(u, i, BufferOf(e));
    if BufferOf(e) in u.worker && OwnedBy(u.worker[BufferOf(e)], j) {
      OwnerLeases(u, BufferOf(e), j);
    }
  }

  /** A retired mapping is a recorded one that the step names. */
  lemma RetirementFor(u: World, keys: seq<MapKey>, e: Entry) returns (s: Spec)
    requires Inv(u) && e in Retirements(Active(u.host, keys, |keys|))
    ensures e == RetireOf(s) && KeyOf(s) in keys && KeyOf(s) in u.host && u.host[KeyOf(s)] == s && !s.arena
  {
    var active := Active(u.host, keys, |keys|);
    ActiveRecorded(u.host, keys, |keys|);
    var n :| 0 <= n < |active| && e == RetireOf(active[n]);
    s := active[n];
    assert s in active;
  }

  lemma RetireApart(u: World, step: Step, e: Entry, j: nat)
    requires Inv(u) && Enabled(u, step) && (step.RetireAll? || step.Abort?) && e in BatchOf(u, step)
    requires In(u, j, Dispatched)
    ensures Apart(u.worker, e, j)
  {
    var s := RetirementFor(u, step.keys, e);
    assert step.Abort? ==> Lease(step.invocation, s.bufferId, true) in u.leases && step.invocation != j;
    if s.bufferId in u.worker && OwnedBy(u.worker[s.bufferId], j) {
      OwnerLeases(u, s.bufferId, j);
    }
  }

  // ----- Batches may be taken whole ---------------------------------------------------

  /** Invocations the worker is running, each once. */
  ghost predicate Finishing(u: World, js: seq<nat>) {
    (forall j | j in js :: In(u, j, Dispatched)) && forall m, n | 0 <= m < n < |js| :: js[m] != js[n]
  }

  function FinishSteps(js: seq<nat>): seq<Step> {
    seq(|js|, n requires 0 <= n < |js| => Finish(js[n]))
  }

  lemma {:induction false} FinishedFirst(w: WorkerTable, js: seq<nat>)
    requires js != []
    ensures FinishedAll(w, js) == FinishedAll(Finished(w, js[0]), js[1..])
  {
    if |js| > 1 {
      var front := js[..|js| - 1];
      FinishedFirst(w, front);
      assert front[1..] == js[1..][..|js| - 2];
    }
  }

  lemma OthersStillRun(u: World, js: seq<nat>)
    requires Finishing(u, js) && js != []
    ensures Finishing(Do(u, Finish(js[0])), js[1..])
  {
    forall j | j in js[1..]
      ensures In(u, j, Dispatched) && j != js[0]
    {
      var m :| 0 <= m < |js| - 1 && js[1..][m] == j;
      assert js[m + 1] == j;
    }
  }

  lemma {:induction false} FinishesRun(u: World, js: seq<nat>)
    requires Finishing(u, js)
    ensures Runs(u, FinishSteps(js)) && After(u, FinishSteps(js)).worker == FinishedAll(u.worker, js)
    decreases |js|
  {
    if js != [] {
      var v := Do(u, Finish(js[0]));
      OthersStillRun(u, js);
      FinishesRun(v, js[1..]);
      FinishedFirst(u.worker, js);
      assert FinishSteps(js)[1..] == FinishSteps(js[1..]);
    }
  }

  lemma StepAppliesBatch(u: World, step: Step)
    requires Inv(u) && Enabled(u, step) && SendsBatch(step)
    ensures var es := BatchOf(u, step);
      Apply(u.worker, es, |es|) == Applied(Do(u, step).worker)
  {
    DoKeeps(u, step);
    match step
    case MapAll(i, requests) =>
      assert |SpecsOf(u, i, requests)| == |requests|;
    case _ =>
  }

  lemma StillFinishing(u: World, step: Step, js: seq<nat>)
    requires Enabled(u, step) && SendsBatch(step) && Finishing(u, js)
    ensures Finishing(Do(u, step), js)
  {
  }

  /** At every moment of a batch: its first `n` entries, and finishes of invocations other than this one. */
  ghost predicate Midway(u: World, step: Step, events: seq<Event>, n: nat)
    requires Enabled(u, step) && SendsBatch(step)
  {
    && n <= |BatchOf(u, step)| && EntriesOf(events) == BatchOf(u, step)[..n] && Finishing(u, EndedOf(events))
  }

  lemma BatchApart(u: World, step: Step, events: seq<Event>, n: nat)
    requires Inv(u) && Enabled(u, step) && SendsBatch(step) && Midway(u, step, events, n)
    ensures forall e, j | e in EntriesOf(events) && j in EndedOf(events) :: Apart(u.worker, e, j)
  {
    forall e, j | e in EntriesOf(events) && j in EndedOf(events)
      ensures Apart(u.worker, e, j)
    {
      if step.MapAll? {
        MapApart(u, step.invocation, step.requests, e, j);
      } else {
        RetireApart(u, step, e, j);
      }
    }
  }

  /**
   However the entries of a batch and the finishes of running invocations interleave at the worker,
   no entry is refused, and the cache is the one that the whole step and then the finishes give.
   */
  lemma BatchInterleaves(u: World, step: Step, events: seq<Event>)
    requires Inv(u) && Enabled(u, step) && SendsBatch(step)
    requires EntriesOf(events) == BatchOf(u, step) && Finishing(u, EndedOf(events))
    ensures var steps := FinishSteps(EndedOf(events));
      Runs(Do(u, step), steps) && Happen(u.worker, events) == Applied(After(Do(u, step), steps).worker)
  {
    BatchApart(u, step, events, |BatchOf(u, step)|);
    BatchFirst(u.worker, events);
    StepAppliesBatch(u, step);
    StillFinishing(u, step, EndedOf(events));
    FinishesRun(Do(u, step), EndedOf(events));
  }

  // ----- Lookups in the middle of a batch ---------------------------------------------

  lemma {:induction false} ReadOnlyStays(h: HostTable, specs: seq<Spec>, n: nat, k: MapKey)
    requires n <= |specs| && k in h
    requires forall m | 0 <= m < n && KeyOf(specs[m]) == k :: h[k].writable || !specs[m].writable
    ensures k in AllRequested(h, specs, n) && AllRequested(h, specs, n)[k] == h[k]
  {
    if n > 0 {
      ReadOnlyStays(h, specs, n - 1, k);
    }
  }

  /** The batch is sent for this invocation: it maps its buffers, or unmaps what it mapped. */
  predicate Sends(step: Step, invocation: nat) {
    (step.MapAll? || step.Abort?) && step.invocation == invocation
  }

  /** A batch says nothing of a buffer that another running invocation has mapped. */
  lemma MapLeavesAlone(u: World, i: nat, requests: seq<Request>, l: Lease, e: Entry)
    requires Inv(u) && Enabled(u, MapAll(i, requests)) && e in BatchOf(u, MapAll(i, requests))
    requires l in u.wanted && Running(u.phases, l.invocation) && l.invocation != i
    ensures BufferOf(e) != l.bufferId
  {
    var specs := SpecsOf(u, i, requests);
    var k := MapKey(l.bufferId, u.buffers[l.bufferId].generation);
    assert Provided(u.host, l, u.buffers);
    AsksAll(u, i, requests);
    forall m | 0 <= m < |specs| && KeyOf(specs[m]) == k
      ensures u.host[k].writable || !specs[m].writable
    {
      assert Asks(u, specs[m]) && specs[m].invocationId == i;
    }
    var m := SentFor(u.host, specs, |requests|, e);
    assert Asks(u, specs[m]);
    ReadOnlyStays(u.host, specs, m, k);
  }

  lemma RetireLeavesAlone(u: World, step: Step, l: Lease, e: Entry)
    requires Inv(u) && Enabled(u, step) && (step.RetireAll? || step.Abort?) && e in BatchOf(u, step)
    requires l in u.wanted && Running(u.phases, l.invocation) && !Sends(step, l.invocation)
    ensures BufferOf(e) != l.bufferId
  {
    var s := RetirementFor(u, step.keys, e);
    assert step.Abort? ==> Lease(step.invocation, s.bufferId, true) in u.leases && step.invocation != l.invocation;
    assert u.buffers[l.bufferId].arena || Leases(u, l.invocation, l.bufferId);
    assert !u.buffers[s.bufferId].arena;
  }

  lemma {:induction false} EntriesElsewhere(w: WorkerTable, entries: seq<Entry>, n: nat, b: nat)
    requires n <= |entries| && (forall e | e in entries :: BufferOf(e) != b) && Apply(w, entries, n).Applied?
    ensures var t := Apply(w, entries, n).table;
      (b in t <==> b in w) && (b in w ==> t[b] == w[b])
  {
    if n > 0 {
      EntriesElsewhere(w, entries, n - 1, b);
      assert BufferOf(entries[n - 1]) != b;
    }
  }

  lemma {:induction false} FinishesElsewhere(w: WorkerTable, js: seq<nat>, b: nat)
    requires b in w && forall j | j in js :: !OwnedBy(w[b], j)
    ensures b in FinishedAll(w, js) && FinishedAll(w, js)[b] == w[b]
  {
    if js != [] {
      var front, last := js[..|js| - 1], js[|js| - 1];
      assert last in js && forall j | j in front :: j in js;
      FinishesElsewhere(w, front, b);
    }
  }

  lemma BatchLeavesAlone(u: World, step: Step, l: Lease)
    requires Inv(u) && Enabled(u, step) && SendsBatch(step)
    requires l in u.wanted && Running(u.phases, l.invocation) && !Sends(step, l.invocation)
    ensures forall e | e in BatchOf(u, step) :: BufferOf(e) != l.bufferId
  {
    forall e | e in BatchOf(u, step)
      ensures BufferOf(e) != l.bufferId
    {
      if step.MapAll? {
        MapLeavesAlone(u, step.invocation, step.requests, l, e);
      } else {
        RetireLeavesAlone(u, step, l, e);
      }
    }
  }

  lemma {:induction false} PrefixApplies(w: WorkerTable, entries: seq<Entry>, n: nat)
    requires n <= |entries| && Apply(w, entries, |entries|).Applied?
    ensures Apply(w, entries, n).Applied?
    decreases |entries| - n
  {
    if n < |entries| {
      PrefixApplies(w, entries, n + 1);
    }
  }

  /**
   What a running invocation mapped, whether planning at the worker or dispatched, lies there
   untouched at every moment of somebody else's batch.
   */
  lemma LookupsMeanwhile(u: World, step: Step, events: seq<Event>, n: nat, l: Lease)
    requires Inv(u) && Enabled(u, step) && SendsBatch(step) && Midway(u, step, events, n)
    requires l in u.wanted && Running(u.phases, l.invocation) && !Sends(step, l.invocation)
    requires l.invocation !in EndedOf(events)
    ensures Happen(u.worker, events).Applied?
    ensures var t := Happen(u.worker, events).table;
      l.bufferId in u.worker && l.bufferId in t && t[l.bufferId] == u.worker[l.bufferId]
  {
    var es, batch := EntriesOf(events), BatchOf(u, step);
    BatchApart(u, step, events, n);
    BatchFirst(u.worker, events);
    BatchLeavesAlone(u, step, l);
    StepAppliesBatch(u, step);
    PrefixApplies(u.worker, batch, n);
    ApplyPrefix(u.worker, es, batch, n);
    WantedIsMapped(u, l);
    EntriesElsewhere(u.worker, es, n, l.bufferId);
    FinishesElsewhere(Apply(u.worker, es, n).table, EndedOf(events), l.bufferId);
  }

  lemma WantedIsMapped(u: World, l: Lease)
    requires Inv(u) && l in u.wanted && Running(u.phases, l.invocation)
    ensures l.bufferId in u.worker
    ensures forall j | j != l.invocation :: !OwnedBy(u.worker[l.bufferId], j)
  {
    var k := MapKey(l.bufferId, u.buffers[l.bufferId].generation);
    assert Provided(u.host, l, u.buffers);
    assert u.host[k].writable && !u.host[k].arena ==> Lease(u.host[k].invocationId, k.bufferId, true) in u.leases;
    assert !Gone(u.host[k], u.phases);
  }
}
