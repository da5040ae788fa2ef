/**
 One session's mapping protocol over whole runs: invocations that take leases, map what they
 need, run at the worker and end, and buffers that are retired and reused. The host's table and
 the worker's cache mirror one another, and the worker refuses nothing.
 */
module MappingMirror {
  import opened MappingTables

  datatype Buffer = Buffer(generation: nat, allocationId: nat, byteLength: nat, arena: bool)

  /** An invocation's lease on a pooled buffer; arena buffers are leased by allocation, not by mapping. */
  datatype Lease = Lease(invocation: nat, bufferId: nat, writable: bool)

  datatype Phase =
    | Preparing   // mapping inputs and outputs, planning
    | Dispatched  // its command is on the way to the worker or running there
    | Done        // the worker finished it, the host has not heard
    | Completed   // the host dropped its mappings; its leases are still held

  /** A buffer handle names its allocation; all allocations of an arena share its one buffer. */
  datatype Request = Request(bufferId: nat, allocationId: nat, writable: bool)

  /** `registered` are the buffers whose retirement this session must hear of; `wanted` is what was mapped for whom. */
  datatype World = World(
    host: HostTable, worker: WorkerTable, refused: bool, buffers: map<nat, Buffer>, leases: set<Lease>,
    phases: map<nat, Phase>, registered: set<nat>, wanted: set<Lease>)

  datatype Step =
    | Create(bufferId: nat, buffer: Buffer)
    | Begin(invocation: nat)
    | Acquire(lease: Lease)
    | MapAll(invocation: nat, requests: seq<Request>)
    | Dispatch(invocation: nat)
    | Finish(invocation: nat)                      // the worker finishes the invocation
    | Complete(invocation: nat)                    // the host consumes its completion
    | Abort(invocation: nat, keys: seq<MapKey>)    // it failed before it was dispatched
    | End(invocation: nat)                         // its leases are released
    | RetireAll(keys: seq<MapKey>)                 // dead buffers are retired
    | Recycle(bufferId: nat, allocationId: nat)    // a retired buffer starts a new generation

  // ----- The steps --------------------------------------------------------------------

  predicate In(u: World, invocation: nat, phase: Phase) {
    invocation in u.phases && u.phases[invocation] == phase
  }

  predicate Leases(u: World, invocation: nat, bufferId: nat) {
    Lease(invocation, bufferId, true) in u.leases || Lease(invocation, bufferId, false) in u.leases
  }

  predicate Unleased(u: World, bufferId: nat) {
    forall l | l in u.leases :: l.bufferId != bufferId
  }

  /** The mapping a buffer handle stands for: an arena is always mapped writable. */
  function SpecOf(b: Buffer, r: Request, invocation: nat): Spec {
    Spec(r.bufferId, b.generation, r.allocationId, b.byteLength, r.writable || b.arena, b.arena, invocation)
  }

  predicate Allowed(u: World, invocation: nat, r: Request) {
    && r.bufferId in u.buffers
    && (u.buffers[r.bufferId].arena || r.allocationId == u.buffers[r.bufferId].allocationId)
    && (u.buffers[r.bufferId].arena || Lease(invocation, r.bufferId, true) in u.leases ||
        (!r.writable && Lease(invocation, r.bufferId, false) in u.leases))
  }

  predicate AllAllowed(u: World, invocation: nat, requests: seq<Request>) {
    forall n | 0 <= n < |requests| :: Allowed(u, invocation, requests[n])
  }

  predicate MayAcquire(u: World, l: Lease) {
    && l.bufferId in u.buffers && !u.buffers[l.bufferId].arena
    && forall m | m in u.leases && m.bufferId == l.bufferId && m.invocation != l.invocation ::
        !m.writable && !l.writable
  }

  predicate Enabled(u: World, step: Step) {
    match step
    case Create(b, buffer) => b !in u.buffers && buffer.byteLength > 0
    case Begin(i) => i !in u.phases
    case Acquire(l) => In(u, l.invocation, Preparing) && MayAcquire(u, l)
    case MapAll(i, requests) => In(u, i, Preparing) && AllAllowed(u, i, requests)
    case Dispatch(i) => In(u, i, Preparing)
    case Finish(i) => In(u, i, Dispatched)
    case Complete(i) => In(u, i, Done)
    case Abort(i, keys) =>
      In(u, i, Preparing) && (forall k | k in keys :: k in u.host && OwnedBy(u.host[k], i))
      && (forall k | k in u.host && OwnedBy(u.host[k], i) :: k in keys)
    case End(i) => In(u, i, Completed)
    case RetireAll(keys) =>
      forall k | k in keys :: k.bufferId in u.buffers && k.generation == u.buffers[k.bufferId].generation
                              && !u.buffers[k.bufferId].arena && Unleased(u, k.bufferId)
    case Recycle(b, _) => b in u.buffers && !u.buffers[b].arena && Unleased(u, b) && b !in u.registered
  }

  function SpecsOf(u: World, invocation: nat, requests: seq<Request>): seq<Spec>
    requires AllAllowed(u, invocation, requests)
  {
    seq(|requests|, i requires 0 <= i < |requests| && Allowed(u, invocation, requests[i]) =>
      SpecOf(u.buffers[requests[i].bufferId], requests[i], invocation))
  }

  function PooledIds(u: World, requests: seq<Request>): set<nat> {
    set r | r in requests && r.bufferId in u.buffers && !u.buffers[r.bufferId].arena :: r.bufferId
  }

  function WantedBy(invocation: nat, requests: seq<Request>): set<Lease> {
    set r | r in requests :: Lease(invocation, r.bufferId, r.writable)
  }

  function Mapped(u: World, invocation: nat, requests: seq<Request>): World
    requires AllAllowed(u, invocation, requests)
  {
    var specs := SpecsOf(u, invocation, requests);
    var entries := Sent(u.host, specs, |specs|);
    var v := u.(host := AllRequested(u.host, specs, |specs|));
    match Apply(u.worker, entries, |entries|)
    case Refused => v.(refused := true, worker := map[])
    case Applied(w) =>
      v.(worker := w,
         registered := u.registered + PooledIds(u, requests),
         wanted := u.wanted + WantedBy(invocation, requests))
  }

  function Retired(u: World, keys: seq<MapKey>): World {
    var active := Active(u.host, keys, |keys|);
    match Apply(u.worker, Retirements(active), |active|)
    case Refused => u.(refused := true, worker := map[])
    case Applied(w) => u.(host := Without(u.host, active), worker := w)
  }

  function OfOthers(leases: set<Lease>, invocation: nat): set<Lease> {
    set l | l in leases && l.invocation != invocation
  }

  function Do(u: World, step: Step): World
    requires Enabled(u, step)
  {
    match step
    case Create(b, buffer) => u.(buffers := u.buffers[b := buffer])
    case Begin(i) => u.(phases := u.phases[i := Preparing])
    case Acquire(l) => u.(leases := u.leases + {l})
    case MapAll(i, requests) => Mapped(u, i, requests)
    case Dispatch(i) => u.(phases := u.phases[i := Dispatched])
    case Finish(i) => u.(worker := Finished(u.worker, i), phases := u.phases[i := Done])
    case Complete(i) => u.(host := Dropped(u.host, i), phases := u.phases[i := Completed])
    case Abort(i, keys) => Retired(u, keys).(phases := u.phases[i := Completed])
    case End(i) =>
      u.(phases := u.phases - {i}, leases := OfOthers(u.leases, i), wanted := OfOthers(u.wanted, i))
    case RetireAll(keys) => Retired(u, keys).(registered := u.registered - (set k | k in keys :: k.bufferId))
    case Recycle(b, allocation) =>
      var before := u.buffers[b];
      u.(buffers := u.buffers[b := before.(generation := before.generation + 1, allocationId := allocation)])
  }

  const START := World(map[], map[], false, map[], {}, map[], {}, {})

  // ----- The invariant ----------------------------------------------------------------

  /** Dropped at the worker, not yet at the host. */
  ghost predicate Gone(s: Spec, phases: map<nat, Phase>) {
    s.writable && !s.arena && s.invocationId in phases && phases[s.invocationId].Done?
  }

  /** The worker's cache is exactly the host's table less what a finished invocation has already dropped. */
  ghost predicate Mirrors(h: HostTable, w: WorkerTable, phases: map<nat, Phase>) {
    && (forall b | b in w :: w[b].bufferId == b && KeyOf(w[b]) in h && h[KeyOf(w[b])] == w[b] && !Gone(w[b], phases))
    && (forall k | k in h && !Gone(h[k], phases) :: k.bufferId in w && w[k.bufferId] == h[k])
  }

  ghost predicate Describes(s: Spec, buffers: map<nat, Buffer>) {
    && s.bufferId in buffers
    && var b := buffers[s.bufferId];
      && s.generation == b.generation && s.byteLength == b.byteLength > 0
      && (s.arena || s.allocationId == b.allocationId) && s.arena == b.arena && (s.arena ==> s.writable)
  }

  /** Only current generations are recorded. */
  ghost predicate Current(h: HostTable, buffers: map<nat, Buffer>) {
    forall k | k in h :: KeyOf(h[k]) == k && Describes(h[k], buffers)
  }

  /** A pooled writable mapping belongs to an invocation that holds the buffer's write lease. */
  ghost predicate Owned(h: HostTable, leases: set<Lease>, phases: map<nat, Phase>) {
    forall k | k in h && h[k].writable && !h[k].arena ::
      && Lease(h[k].invocationId, k.bufferId, true) in leases
      && h[k].invocationId in phases && !phases[h[k].invocationId].Completed?
  }

  /** A writer is alone on its buffer. */
  ghost predicate Exclusive(leases: set<Lease>) {
    forall l, m | l in leases && m in leases && l.bufferId == m.bufferId && l.invocation != m.invocation ::
      !l.writable && !m.writable
  }

  ghost predicate Running(phases: map<nat, Phase>, invocation: nat) {
    invocation in phases && (phases[invocation].Preparing? || phases[invocation].Dispatched?)
  }

  /** What a running invocation asked for is recorded, and recorded as its own where it writes. */
  ghost predicate Provided(h: HostTable, l: Lease, buffers: map<nat, Buffer>) {
    && l.bufferId in buffers
    && var b := buffers[l.bufferId];
      var k := MapKey(l.bufferId, b.generation);
      k in h && (l.writable ==> h[k].writable && (b.arena || h[k].invocationId == l.invocation))
  }

  ghost predicate AllProvided(u: World) {
    forall l | l in u.wanted && Running(u.phases, l.invocation) ::
      Provided(u.host, l, u.buffers) && (u.buffers[l.bufferId].arena || Leases(u, l.invocation, l.bufferId))
  }

  ghost predicate Registers(u: World) {
    forall k | k in u.host && !u.host[k].arena :: k.bufferId in u.registered
  }

  ghost predicate LeasesHeld(u: World) {
    forall l | l in u.leases :: l.invocation in u.phases && l.bufferId in u.buffers
  }

  ghost predicate Sized(buffers: map<nat, Buffer>) {
    forall b | b in buffers :: buffers[b].byteLength > 0
  }

  ghost predicate Inv(u: World) {
    && !u.refused && Mirrors(u.host, u.worker, u.phases) && Current(u.host, u.buffers)
    && Owned(u.host, u.leases, u.phases) && Exclusive(u.leases) && LeasesHeld(u)
    && AllProvided(u) && Registers(u) && Sized(u.buffers) && (forall l | l in u.wanted :: l.invocation in u.phases)
  }

  // ----- One request ------------------------------------------------------------------

  /** What a request of a running invocation keeps of the two tables, whatever else goes on. */
  ghost predicate Tables(u: World, h: HostTable, w: WorkerTable) {
    Mirrors(h, w, u.phases) && Current(h, u.buffers) && Owned(h, u.leases, u.phases)
  }

  ghost predicate Asks(u: World, s: Spec) {
    && In(u, s.invocationId, Preparing) && Describes(s, u.buffers)
    && (s.writable && !s.arena ==> Lease(s.invocationId, s.bufferId, true) in u.leases)
    && (!s.arena ==> Leases(u, s.invocationId, s.bufferId))
  }

  lemma NewRequest(u: World, h: HostTable, w: WorkerTable, s: Spec)
    requires Tables(u, h, w) && Asks(u, s) && KeyOf(s) !in h
    ensures ApplyMap(w, s) == Applied(w[s.bufferId := s]) && Tables(u, h[KeyOf(s) := s], w[s.bufferId := s])
  {
    assert s.bufferId !in w;
  }

  lemma UpgradeRequest(u: World, h: HostTable, w: WorkerTable, s: Spec)
    requires Tables(u, h, w) && Asks(u, s) && KeyOf(s) in h && !h[KeyOf(s)].writable && s.writable
    ensures var e := h[KeyOf(s)];
      && ApplyRetire(w, e.bufferId, e.generation, e.allocationId) == Applied(w - {s.bufferId})
      && ApplyMap(w - {s.bufferId}, s) == Applied(w[s.bufferId := s])
      && Tables(u, h[KeyOf(s) := s], w[s.bufferId := s])
  {
    assert (w - {s.bufferId})[s.bufferId := s] == w[s.bufferId := s];
  }

  lemma OneRequest(u: World, h: HostTable, w: WorkerTable, s: Spec)
    requires Tables(u, h, w) && Asks(u, s)
    ensures var es := EntriesFor(h, s);
      Apply(w, es, |es|).Applied? && Tables(u, Requested(h, s), Apply(w, es, |es|).table)
  {
    var es := EntriesFor(h, s);
    if Needed(h, s) {
      if KeyOf(s) in h {
        UpgradeRequest(u, h, w, s);
        assert Apply(w, es, 1) == ApplyOne(w, es[0]);
      } else {
        NewRequest(u, h, w, s);
        assert Apply(w, es, 0) == Applied(w);
      }
    }
  }

  /** No batch of requests is refused, and host and worker mirror one another after it. */
  lemma {:induction false} AllRequests(u: World, specs: seq<Spec>, n: nat)
    requires Tables(u, u.host, u.worker) && n <= |specs| && forall s | s in specs :: Asks(u, s)
    ensures var es := Sent(u.host, specs, n);
      && Apply(u.worker, es, |es|).Applied?
      && Tables(u, AllRequested(u.host, specs, n), Apply(u.worker, es, |es|).table)
  {
    if n > 0 {
      AllRequests(u, specs, n - 1);
      var before := Sent(u.host, specs, n - 1);
      var h, w := AllRequested(u.host, specs, n - 1), Apply(u.worker, before, |before|).table;
      OneRequest(u, h, w, specs[n - 1]);
      ApplyPieces(u.worker, before, EntriesFor(h, specs[n - 1]));
    }
  }

  lemma RequestProvides(u: World, h: HostTable, s: Spec, writable: bool)
    requires Current(h, u.buffers) && Owned(h, u.leases, u.phases) && Exclusive(u.leases)
    requires Asks(u, s) && s.writable == (writable || s.arena)
    ensures Provided(Requested(h, s), Lease(s.invocationId, s.bufferId, writable), u.buffers)
  {
    var k := KeyOf(s);
    if !Needed(h, s) && h[k].writable && !h[k].arena && writable {
      assert Lease(h[k].invocationId, k.bufferId, true) in u.leases;
    }
  }

  lemma ProvidedStays(u: World, h: HostTable, s: Spec, l: Lease)
    requires Current(h, u.buffers) && Exclusive(u.leases) && Asks(u, s)
    requires Provided(h, l, u.buffers) && (u.buffers[l.bufferId].arena || Leases(u, l.invocation, l.bufferId))
    ensures Provided(Requested(h, s), l, u.buffers)
  {
    if Needed(h, s) && s.bufferId == l.bufferId && !s.arena && l.invocation != s.invocationId {
      assert Lease(s.invocationId, s.bufferId, true) in u.leases;
    }
  }

  ghost predicate StillProvided(u: World, h: HostTable) {
    forall l | l in u.wanted && Running(u.phases, l.invocation) :: Provided(h, l, u.buffers)
  }

  ghost predicate FirstProvided(u: World, h: HostTable, i: nat, requests: seq<Request>, n: nat)
    requires n <= |requests|
  {
    forall m | 0 <= m < n :: Provided(h, Lease(i, requests[m].bufferId, requests[m].writable), u.buffers)
  }

  ghost predicate Registering(u: World, h: HostTable, requests: seq<Request>) {
    forall k | k in h && !h[k].arena :: k.bufferId in u.registered || k.bufferId in PooledIds(u, requests)
  }

  lemma RequestKeepsProvided(u: World, h: HostTable, s: Spec)
    requires AllProvided(u) && StillProvided(u, h) && Current(h, u.buffers) && Exclusive(u.leases) && Asks(u, s)
    ensures StillProvided(u, Requested(h, s))
  {
    forall l | l in u.wanted && Running(u.phases, l.invocation)
      ensures Provided(Requested(h, s), l, u.buffers)
    {
      ProvidedStays(u, h, s, l);
    }
  }

  lemma RequestKeepsFirst(u: World, h: HostTable, i: nat, requests: seq<Request>, n: nat)
    requires n < |requests| && AllAllowed(u, i, requests) && FirstProvided(u, h, i, requests, n)
    requires Current(h, u.buffers) && Owned(h, u.leases, u.phases) && Exclusive(u.leases)
    requires Asks(u, SpecOf(u.buffers[requests[n].bufferId], requests[n], i))
    ensures FirstProvided(u, Requested(h, SpecOf(u.buffers[requests[n].bufferId], requests[n], i)), i, requests, n + 1)
  {
    var s := SpecOf(u.buffers[requests[n].bufferId], requests[n], i);
    forall m | 0 <= m < n + 1
      ensures Provided(Requested(h, s), Lease(i, requests[m].bufferId, requests[m].writable), u.buffers)
    {
      AllowedLeases(u, i, requests, m);
      if m < n {
        ProvidedStays(u, h, s, Lease(i, requests[m].bufferId, requests[m].writable));
      } else {
        RequestProvides(u, h, s, requests[n].writable);
      }
    }
  }

  lemma RequestKeepsRegistering(u: World, h: HostTable, i: nat, requests: seq<Request>, n: nat)
    requires n < |requests| && AllAllowed(u, i, requests) && Registering(u, h, requests)
    ensures Registering(u, Requested(h, SpecOf(u.buffers[requests[n].bufferId], requests[n], i)), requests)
  {
    assert requests[n] in requests;
  }

  lemma OneMoreProvides(u: World, h: HostTable, g: HostTable, i: nat, requests: seq<Request>, n: nat)
    requires Inv(u) && 0 < n <= |requests| && AllAllowed(u, i, requests)
    requires StillProvided(u, h) && FirstProvided(u, h, i, requests, n - 1) && Registering(u, h, requests)
    requires Current(h, u.buffers) && Owned(h, u.leases, u.phases)
    requires Asks(u, SpecOf(u.buffers[requests[n - 1].bufferId], requests[n - 1], i))
    requires g == Requested(h, SpecOf(u.buffers[requests[n - 1].bufferId], requests[n - 1], i))
    ensures StillProvided(u, g) && FirstProvided(u, g, i, requests, n) && Registering(u, g, requests)
  {
    hide Provided, StillProvided, FirstProvided, Registering, Mirrors;
    RequestKeepsProvided(u, h, SpecOf(u.buffers[requests[n - 1].bufferId], requests[n - 1], i));
    RequestKeepsFirst(u, h, i, requests, n - 1);
    RequestKeepsRegistering(u, h, i, requests, n - 1);
  }

  lemma RequestsGoWell(u: World, i: nat, requests: seq<Request>, n: nat)
    requires Inv(u) && Enabled(u, MapAll(i, requests)) && n < |requests|
    ensures var h := AllRequested(u.host, SpecsOf(u, i, requests), n);
      Current(h, u.buffers) && Owned(h, u.leases, u.phases) && Asks(u, SpecsOf(u, i, requests)[n])
  {
    AsksAll(u, i, requests);
    AllRequests(u, SpecsOf(u, i, requests), n);
  }

  lemma FirstRequest(u: World, i: nat, requests: seq<Request>)
    requires AllProvided(u) && Registers(u)
    ensures StillProvided(u, u.host) && FirstProvided(u, u.host, i, requests, 0) && Registering(u, u.host, requests)
  {
  }

  /** After the first `n` requests each of them is provided, and so is everything that was before. */
  lemma {:induction false} AllProvide(u: World, i: nat, requests: seq<Request>, n: nat)
    requires Inv(u) && Enabled(u, MapAll(i, requests)) && n <= |requests|
    ensures var h := AllRequested(u.host, SpecsOf(u, i, requests), n);
      StillProvided(u, h) && FirstProvided(u, h, i, requests, n) && Registering(u, h, requests)
  {
    hide Provided, StillProvided, FirstProvided, Registering, Mirrors, AllProvided, LeasesHeld, Sized;
    if n == 0 {
      FirstRequest(u, i, requests);
    } else {
      AllProvide(u, i, requests, n - 1);
      RequestsGoWell(u, i, requests, n - 1);
      var specs := SpecsOf(u, i, requests);
      var h := AllRequested(u.host, specs, n - 1);
      OneMoreProvides(u, h, AllRequested(u.host, specs, n), i, requests, n);
    }
  }

  lemma AllowedLeases(u: World, i: nat, requests: seq<Request>, m: nat)
    requires AllAllowed(u, i, requests) && m < |requests|
    ensures requests[m].bufferId in u.buffers
    ensures u.buffers[requests[m].bufferId].arena || Leases(u, i, requests[m].bufferId)
  {
    assert Allowed(u, i, requests[m]);
  }

  lemma AsksAll(u: World, i: nat, requests: seq<Request>)
    requires Inv(u) && Enabled(u, MapAll(i, requests))
    ensures forall s | s in SpecsOf(u, i, requests) :: Asks(u, s)
  {
  }

  /** Mapping is never refused, and keeps everything. */
  lemma MapAllKeeps(u: World, i: nat, requests: seq<Request>)
    requires Inv(u) && Enabled(u, MapAll(i, requests))
    ensures Inv(Do(u, MapAll(i, requests)))
  {
    var specs := SpecsOf(u, i, requests);
    AsksAll(u, i, requests);
    AllRequests(u, specs, |specs|);
    AllProvide(u, i, requests, |requests|);
    var v := Do(u, MapAll(i, requests));
    assert !v.refused && Tables(u, v.host, v.worker);
    WantedProvided(u, i, requests);
  }

  lemma WantedProvided(u: World, i: nat, requests: seq<Request>)
    requires Inv(u) && Enabled(u, MapAll(i, requests))
    requires var h := AllRequested(u.host, SpecsOf(u, i, requests), |requests|);
      StillProvided(u, h) && FirstProvided(u, h, i, requests, |requests|)
    ensures var h := AllRequested(u.host, SpecsOf(u, i, requests), |requests|);
      forall l | l in u.wanted + WantedBy(i, requests) && Running(u.phases, l.invocation) ::
        Provided(h, l, u.buffers) && (u.buffers[l.bufferId].arena || Leases(u, l.invocation, l.bufferId))
  {
    forall m | 0 <= m < |requests|
      ensures requests[m].bufferId in u.buffers
      ensures u.buffers[requests[m].bufferId].arena || Leases(u, i, requests[m].bufferId)
    {
      AllowedLeases(u, i, requests, m);
    }
  }

  // ----- Retirement -------------------------------------------------------------------

  ghost predicate Recorded(h: HostTable, active: seq<Spec>) {
    forall n | 0 <= n < |active| :: KeyOf(active[n]) in h && h[KeyOf(active[n])] == active[n] && !active[n].arena
  }

  function WorkerWithout(w: WorkerTable, active: seq<Spec>, n: nat): WorkerTable
    requires n <= |active|
  {
    if n == 0 then w else WorkerWithout(w, active, n - 1) - {active[n - 1].bufferId}
  }

  lemma {:induction false} ActiveRecorded(h: HostTable, keys: seq<MapKey>, n: nat)
    requires n <= |keys| && forall k | k in h :: KeyOf(h[k]) == k
    ensures Recorded(h, Active(h, keys, n))
    ensures forall s | s in Active(h, keys, n) :: KeyOf(s) in keys
    ensures forall m | 0 <= m < n && keys[m] in h && !h[keys[m]].arena :: h[keys[m]] in Active(h, keys, n)
  {
    if n > 0 {
      ActiveRecorded(h, keys, n - 1);
    }
  }

  lemma {:induction false} WithoutContents(w: WorkerTable, active: seq<Spec>, n: nat)
    requires n <= |active|
    ensures forall b :: b in WorkerWithout(w, active, n) <==>
                        b in w && (forall m | 0 <= m < n :: active[m].bufferId != b)
    ensures forall b | b in WorkerWithout(w, active, n) :: WorkerWithout(w, active, n)[b] == w[b]
  {
    if n > 0 {
      WithoutContents(w, active, n - 1);
    }
  }

  lemma RetireOne(u: World, w: WorkerTable, s: Spec)
    requires Mirrors(u.host, u.worker, u.phases) && Current(u.host, u.buffers)
    requires forall b | b in w :: b in u.worker && w[b] == u.worker[b]
    requires KeyOf(s) in u.host && u.host[KeyOf(s)] == s && !s.arena
    ensures ApplyOne(w, RetireOf(s)) == Applied(w - {s.bufferId})
  {
    if s.bufferId in w {
      assert u.worker[s.bufferId] == s;
    } else {
      assert w - {s.bufferId} == w;
    }
  }

  /** The worker accepts every retirement of what the host has recorded, even twice, even when already gone. */
  lemma {:induction false} RetirementsAccepted(u: World, active: seq<Spec>, n: nat)
    requires n <= |active| && Mirrors(u.host, u.worker, u.phases) && Current(u.host, u.buffers)
    requires Recorded(u.host, active)
    ensures Apply(u.worker, Retirements(active), n) == Applied(WorkerWithout(u.worker, active, n))
  {
    hide Mirrors, Current;
    if n > 0 {
      RetirementsAccepted(u, active, n - 1);
      WithoutContents(u.worker, active, n - 1);
      RetireOne(u, WorkerWithout(u.worker, active, n - 1), active[n - 1]);
    }
  }

  lemma RetiredMirrors(u: World, active: seq<Spec>)
    requires Mirrors(u.host, u.worker, u.phases) && Current(u.host, u.buffers) && Recorded(u.host, active)
    ensures Mirrors(Without(u.host, active), WorkerWithout(u.worker, active, |active|), u.phases)
  {
    WithoutContents(u.worker, active, |active|);
    var h, w := Without(u.host, active), WorkerWithout(u.worker, active, |active|);
    forall b | b in w
      ensures KeyOf(w[b]) in h
    {
      forall s | s in active
        ensures KeyOf(s) != KeyOf(w[b])
      {
      }
    }
    forall k | k in h && !Gone(h[k], u.phases)
      ensures k.bufferId in w
    {
      forall m | 0 <= m < |active|
        ensures active[m].bufferId != k.bufferId
      {
        assert active[m] in active;
      }
    }
  }

  /** A retirement is never refused; exactly the named entries, shared arenas apart, leave both tables. */
  lemma RetiredKeeps(u: World, keys: seq<MapKey>)
    requires Mirrors(u.host, u.worker, u.phases) && Current(u.host, u.buffers)
    ensures var v := Retired(u, keys);
      && v.refused == u.refused && Mirrors(v.host, v.worker, u.phases)
      && (forall k :: k in v.host <==> k in u.host && (k in keys ==> u.host[k].arena))
      && (forall k | k in v.host :: v.host[k] == u.host[k])
  {
    var active := Active(u.host, keys, |keys|);
    ActiveRecorded(u.host, keys, |keys|);
    RetirementsAccepted(u, active, |active|);
    RetiredMirrors(u, active);
  }

  // ----- The other steps --------------------------------------------------------------

  lemma FinishMirrors(u: World, i: nat)
    requires Mirrors(u.host, u.worker, u.phases) && In(u, i, Dispatched)
    ensures Mirrors(u.host, Finished(u.worker, i), u.phases[i := Done])
  {
  }

  lemma CompleteMirrors(u: World, i: nat)
    requires Mirrors(u.host, u.worker, u.phases) && In(u, i, Done)
    ensures Mirrors(Dropped(u.host, i), u.worker, u.phases[i := Completed])
  {
  }

  lemma FinishKeeps(u: World, i: nat)
    requires Inv(u) && Enabled(u, Finish(i))
    ensures Inv(Do(u, Finish(i)))
  {
    FinishMirrors(u, i);
  }

  /** Nobody else loses what it mapped when an invocation's own mappings go. */
  lemma OwnersAlone(u: World, i: nat, l: Lease)
    requires Owned(u.host, u.leases, u.phases) && Exclusive(u.leases) && Current(u.host, u.buffers)
    requires Provided(u.host, l, u.buffers) && (u.buffers[l.bufferId].arena || Leases(u, l.invocation, l.bufferId))
    requires l.invocation != i
    ensures !OwnedBy(u.host[MapKey(l.bufferId, u.buffers[l.bufferId].generation)], i)
  {
    var k := MapKey(l.bufferId, u.buffers[l.bufferId].generation);
    assert OwnedBy(u.host[k], i) ==> Lease(i, k.bufferId, true) in u.leases;
  }

  lemma CompleteKeeps(u: World, i: nat)
    requires Inv(u) && Enabled(u, Complete(i))
    ensures Inv(Do(u, Complete(i)))
  {
    CompleteMirrors(u, i);
    var v := Do(u, Complete(i));
    forall l | l in v.wanted && Running(v.phases, l.invocation)
      ensures Provided(v.host, l, v.buffers)
    {
      OwnersAlone(u, i, l);
    }
  }

  lemma AbortKeeps(u: World, i: nat, keys: seq<MapKey>)
    requires Inv(u) && Enabled(u, Abort(i, keys))
    ensures Inv(Do(u, Abort(i, keys)))
  {
    AbortTables(u, i, keys);
    AbortProvides(u, i, keys);
  }

  lemma MirrorsAfter(h: HostTable, w: WorkerTable, phases: map<nat, Phase>, i: nat, phase: Phase)
    requires Mirrors(h, w, phases) && i in phases && !phases[i].Done? && !phase.Done?
    ensures Mirrors(h, w, phases[i := phase])
  {
    hide KeyOf;
    assert forall s: Spec :: Gone(s, phases[i := phase]) <==> Gone(s, phases);
  }

  lemma AbortTables(u: World, i: nat, keys: seq<MapKey>)
    requires Inv(u) && Enabled(u, Abort(i, keys))
    ensures var v := Do(u, Abort(i, keys));
      !v.refused && Tables(v, v.host, v.worker) && Registers(v)
  {
    hide Mirrors, Retired, Exclusive;
    RetiredKeeps(u, keys);
    MirrorsAfter(Retired(u, keys).host, Retired(u, keys).worker, u.phases, i, Completed);
    RetiredFields(u, keys);
  }

  lemma RetiredFields(u: World, keys: seq<MapKey>)
    ensures var v := Retired(u, keys);
      v.phases == u.phases && v.leases == u.leases && v.buffers == u.buffers && v.registered == u.registered
      && v.wanted == u.wanted
  {
  }

  lemma AbortProvides(u: World, i: nat, keys: seq<MapKey>)
    requires Inv(u) && Enabled(u, Abort(i, keys))
    ensures AllProvided(Do(u, Abort(i, keys)))
  {
    RetiredKeeps(u, keys);
    var v := Do(u, Abort(i, keys));
    forall l | l in v.wanted && Running(v.phases, l.invocation)
      ensures Provided(v.host, l, v.buffers)
    {
      OwnersAlone(u, i, l);
    }
  }

  lemma RetireAllKeeps(u: World, keys: seq<MapKey>)
    requires Inv(u) && Enabled(u, RetireAll(keys))
    ensures Inv(Do(u, RetireAll(keys)))
  {
    RetiredKeeps(u, keys);
  }

  lemma RecycleKeeps(u: World, b: nat, allocation: nat)
    requires Inv(u) && Enabled(u, Recycle(b, allocation))
    ensures Inv(Do(u, Recycle(b, allocation)))
  {
    assert forall k | k in u.host :: k.bufferId != b;
  }

  lemma CreateKeeps(u: World, b: nat, buffer: Buffer)
    requires Inv(u) && Enabled(u, Create(b, buffer))
    ensures Inv(Do(u, Create(b, buffer)))
  {
  }

  lemma EndKeeps(u: World, i: nat)
    requires Inv(u) && Enabled(u, End(i))
    ensures Inv(Do(u, End(i)))
  {
  }

  lemma BeginKeeps(u: World, i: nat)
    requires Inv(u) && Enabled(u, Begin(i))
    ensures Inv(Do(u, Begin(i)))
  {
  }

  lemma AcquireKeeps(u: World, l: Lease)
    requires Inv(u) && Enabled(u, Acquire(l))
    ensures Inv(Do(u, Acquire(l)))
  {
    hide Mirrors, Current;
  }

  lemma DispatchKeeps(u: World, i: nat)
    requires Inv(u) && Enabled(u, Dispatch(i))
    ensures Inv(Do(u, Dispatch(i)))
  {
    hide Mirrors, Current;
    MirrorsAfter(u.host, u.worker, u.phases, i, Dispatched);
  }

  lemma DoKeeps(u: World, step: Step)
    requires Inv(u) && Enabled(u, step)
    ensures Inv(Do(u, step))
  {
    hide Inv, Do, Enabled;
    match step {
      case Create(b, buffer) => CreateKeeps(u, b, buffer);
      case MapAll(i, requests) => MapAllKeeps(u, i, requests);
      case Finish(i) => FinishKeeps(u, i);
      case Complete(i) => CompleteKeeps(u, i);
      case Abort(i, keys) => AbortKeeps(u, i, keys);
      case End(i) => EndKeeps(u, i);
      case RetireAll(keys) => RetireAllKeeps(u, keys);
      case Recycle(b, allocation) => RecycleKeeps(u, b, allocation);
      case Begin(i) => BeginKeeps(u, i);
      case Acquire(l) => AcquireKeeps(u, l);
      case Dispatch(i) => DispatchKeeps(u, i);
    }
  }

  // ----- Whole runs -------------------------------------------------------------------

  ghost predicate Runs(u: World, steps: seq<Step>)
    decreases |steps|
  {
    steps == [] || (Enabled(u, steps[0]) && Runs(Do(u, steps[0]), steps[1..]))
  }

  ghost function After(u: World, steps: seq<Step>): World
    requires Runs(u, steps)
    decreases |steps|
  {
    if steps == [] then u else After(Do(u, steps[0]), steps[1..])
  }

  lemma {:induction false} RunKeeps(u: World, steps: seq<Step>)
    requires Inv(u) && Runs(u, steps)
    ensures Inv(After(u, steps))
    decreases |steps|
  {
    if steps != [] {
      DoKeeps(u, steps[0]);
      RunKeeps(Do(u, steps[0]), steps[1..]);
    }
  }

  /**
   In every reachable state the worker has refused no batch, and the two tables hold the same
   mappings but for the pooled writable ones of invocations whose completion is on its way.
   */
  lemma MirrorHolds(steps: seq<Step>)
    requires Runs(START, steps)
    ensures var u := After(START, steps);
      && !u.refused && Mirrors(u.host, u.worker, u.phases)
      && ((forall i | i in u.phases :: !u.phases[i].Done?) ==>
          && u.worker.Keys == (set k | k in u.host :: k.bufferId)
          && (forall k | k in u.host :: k.bufferId in u.worker && u.worker[k.bufferId] == u.host[k]))
  {
    RunKeeps(START, steps);
    var u := After(START, steps);
    if forall i | i in u.phases :: !u.phases[i].Done? {
      assert forall b | b in u.worker :: KeyOf(u.worker[b]) in u.host && KeyOf(u.worker[b]).bufferId == b;
    }
  }

  /** The worker finds the leased buffer as it is now, and for what is written, writable and the invocation's own. */
  ghost predicate Found(u: World, l: Lease) {
    && l.bufferId in u.buffers
    && var b := u.buffers[l.bufferId];
      Finds(u.worker, l.bufferId, b.generation, b.allocationId, l.invocation, l.writable)
  }

  lemma WantedFound(u: World, l: Lease)
    requires Inv(u) && l in u.wanted && Running(u.phases, l.invocation)
    ensures Found(u, l)
  {
    var k := MapKey(l.bufferId, u.buffers[l.bufferId].generation);
    assert u.host[k].writable && !u.host[k].arena ==> Lease(u.host[k].invocationId, k.bufferId, true) in u.leases;
    assert !Gone(u.host[k], u.phases);
  }

  /** Whatever a running invocation mapped, its command finds at the worker. */
  lemma LookupsSucceed(steps: seq<Step>, l: Lease)
    requires Runs(START, steps) && l in After(START, steps).wanted && Running(After(START, steps).phases, l.invocation)
    ensures Found(After(START, steps), l)
  {
    RunKeeps(START, steps);
    WantedFound(After(START, steps), l);
  }

  /** An invocation that ended, however it ended, owns no mapping on either side. */
  lemma NothingLeftBehind(steps: seq<Step>, i: nat)
    requires Runs(START, steps)
    requires i !in After(START, steps).phases || After(START, steps).phases[i].Completed?
    ensures var u := After(START, steps);
      && (forall k | k in u.host :: !OwnedBy(u.host[k], i))
      && (forall b | b in u.worker :: !OwnedBy(u.worker[b], i))
  {
    RunKeeps(START, steps);
  }

  /** Two invocations never own a mapping of the same pooled buffer, and no other invocation leases it meanwhile. */
  lemma OwnerIsAlone(steps: seq<Step>, k: MapKey, i: nat)
    requires Runs(START, steps) && k in After(START, steps).host && OwnedBy(After(START, steps).host[k], i)
    ensures var u := After(START, steps);
      forall l | l in u.leases && l.bufferId == k.bufferId :: l.invocation == i
  {
    RunKeeps(START, steps);
    var u := After(START, steps);
    assert Lease(i, k.bufferId, true) in u.leases;
  }

  /**
   An upgrade of a recorded read-only mapping is sent as a retirement and a new mapping. The
   worker accepts it exactly when the recorded mapping is not a shared arena, which it never
   retires; handles of arenas are therefore always mapped writable from the start.
   */
  lemma UpgradeAcceptedExactly(h: HostTable, w: WorkerTable, s: Spec)
    requires KeyOf(s) in h && KeyOf(h[KeyOf(s)]) == KeyOf(s) && s.byteLength > 0 && s.writable && !h[KeyOf(s)].writable
    requires s.bufferId in w && w[s.bufferId] == h[KeyOf(s)]
    ensures Apply(w, EntriesFor(h, s), |EntriesFor(h, s)|).Applied? <==> !h[KeyOf(s)].arena
  {
    var e := h[KeyOf(s)];
    assert EntriesFor(h, s) == [RetireOf(e), Map(s)];
    assert Apply(w, EntriesFor(h, s), 1) == ApplyOne(w, RetireOf(e));
  }
}
