/** The pool as the buffer manager keeps it: allocate, register, drain, retire, release, close. */
module PoolManager {
  import opened Pool

  /** Everything the pool keeps, and the history its promises speak of. */
  datatype Books = Books(
    regions: Regions, free: FreeLists, cachedBytes: int, active: Active, reclaiming: seq<Handle>,
    place: Places, issued: set<Handle>, registered: set<Registration>, acked: set<Registration>)

  ghost predicate Placed(s: Books) {
    && LivePlaced(s.active, s.place) && ReclaimingPlaced(s.reclaiming, s.place)
    && FreePlaced(s.free, s.regions, s.place) && ClosedPlaced(s.regions, s.place)
  }

  ghost predicate Dated(s: Books) {
    && Generations(s.regions, s.place) && Held(s.active, s.reclaiming, s.regions, s.issued)
    && Issued(s.issued, s.active, s.regions, s.place) && Retired(s.registered, s.acked, s.regions)
  }

  ghost predicate Sound(s: Books, maxBuffers: nat, maxBytes: nat) {
    Placed(s) && Dated(s) && Cached(s.cachedBytes, maxBuffers, maxBytes, s.regions, s.place)
  }

  // ----- The operations on values -----------------------------------------------------

  function HandleFor(regions: Regions, id: Id, a: Allocation): Handle
    requires id in regions
  {
    Handle(id, regions[id].generation, a, regions[id].byteLength)
  }

  /** Takes the last region cached for a size, and the list with it when it was the only one. */
  function Popped(free: FreeLists, size: nat): FreeLists
    requires size in free && free[size] != []
  {
    if |free[size]| == 1 then free - {size} else free[size := free[size][..|free[size]| - 1]]
  }

  function Last(ids: seq<Id>): Id
    requires ids != []
  {
    ids[|ids| - 1]
  }

  function Pushed(free: FreeLists, size: nat, id: Id): FreeLists {
    free[size := (if size in free then free[size] else []) + [id]]
  }

  function Reused(s: Books, size: nat, a: Allocation): Books
    requires size in s.free && s.free[size] != [] && s.free[size][|s.free[size]| - 1] in s.regions
  {
    var id := s.free[size][|s.free[size]| - 1];
    var h := HandleFor(s.regions, id, a);
    s.(free := Popped(s.free, size), cachedBytes := s.cachedBytes - size, active := s.active[a := h],
       place := s.place[id := Live(a)], issued := s.issued + {h})
  }

  function Created(s: Books, size: nat, a: Allocation, id: Id): Books {
    var h := Handle(id, 1, a, size);
    s.(regions := s.regions[id := Region(1, size, false, {})], active := s.active[a := h],
       place := s.place[id := Live(a)], issued := s.issued + {h})
  }

  function Joined(s: Books, id: Id, x: Recipient): Books
    requires id in s.regions
  {
    var r := s.regions[id];
    s.(regions := s.regions[id := r.(recipients := r.recipients + {x})],
       registered := s.registered + {Registration(id, r.generation, x)})
  }

  function Drained(s: Books, a: Allocation): Books
    requires a in s.active
  {
    s.(active := s.active - {a}, reclaiming := s.reclaiming + [s.active[a]],
      place := s.place[s.active[a].region := Reclaiming])
  }

  function Shut(s: Books): Books
    requires s.reclaiming != [] && s.reclaiming[0].region in s.regions
  {
    var id := s.reclaiming[0].region;
    s.(regions := s.regions[id := s.regions[id].(closed := true)], reclaiming := s.reclaiming[1..],
       place := s.place[id := Closed])
  }

  function Reset(r: Region): Region {
    r.(generation := r.generation + 1, recipients := {})
  }

  function ShutAfterReset(s: Books): Books
    requires s.reclaiming != [] && s.reclaiming[0].region in s.regions
  {
    var id := s.reclaiming[0].region;
    Shut(s.(regions := s.regions[id := Reset(s.regions[id])]))
  }

  function Cache(s: Books): Books
    requires s.reclaiming != [] && s.reclaiming[0].region in s.regions
  {
    var id := s.reclaiming[0].region;
    var r := Reset(s.regions[id]);
    s.(regions := s.regions[id := r], reclaiming := s.reclaiming[1..], free := Pushed(s.free, r.byteLength, id),
       cachedBytes := s.cachedBytes + r.byteLength, place := s.place[id := Free])
  }

  /** Everybody the region still knows of has retired its present generation. */
  ghost predicate AllRetired(s: Books, id: Id) {
    id in s.regions &&
    forall x | x in s.regions[id].recipients :: Registration(id, s.regions[id].generation, x) in s.acked
  }

  lemma ActiveNamed(s: Books, maxBuffers: nat, maxBytes: nat)
    requires Sound(s, maxBuffers, maxBytes)
    ensures forall a | a in s.active :: s.active[a].allocation == a
  {
  }

  lemma IssuedRegions(s: Books, h: Handle, maxBuffers: nat, maxBytes: nat)
    requires Sound(s, maxBuffers, maxBytes) && h in s.issued
    ensures h.region in s.regions
  {
  }

  /** A cached region is open, of its list's size, and mapped by nobody. */
  lemma AllocationIsOpen(s: Books, size: nat, maxBuffers: nat, maxBytes: nat)
    requires Sound(s, maxBuffers, maxBytes) && size in s.free
    ensures s.free[size] != [] && Last(s.free[size]) in s.regions
    ensures var r := s.regions[Last(s.free[size])];
      r.byteLength == size && !r.closed && r.recipients == {}
  {
    hide LivePlaced, ReclaimingPlaced, Held, Issued, Retired;
  }

  // ----- Each keeps the books sound ---------------------------------------------------

  lemma ReusedLive(s: Books, size: nat, a: Allocation)
    requires Placed(s) && a !in s.active && size in s.free
    ensures LivePlaced(Reused(s, size, a).active, Reused(s, size, a).place)
  {
    hide ReclaimingPlaced;
  }

  lemma ReusedPlaces(s: Books, size: nat, a: Allocation)
    requires Placed(s) && a !in s.active && size in s.free
    ensures var t := Reused(s, size, a);
      ReclaimingPlaced(t.reclaiming, t.place) && ClosedPlaced(t.regions, t.place)
  {
    hide LivePlaced;
  }

  lemma ReusedFree(s: Books, size: nat, a: Allocation)
    requires Placed(s) && a !in s.active && size in s.free
    ensures var t := Reused(s, size, a);
      FreePlaced(t.free, t.regions, t.place)
  {
    hide LivePlaced, ReclaimingPlaced, Dated;
  }

  lemma ReusedHeld(s: Books, size: nat, a: Allocation)
    requires Placed(s) && Dated(s) && a !in s.active && size in s.free
    ensures var t := Reused(s, size, a);
      Generations(t.regions, t.place) && Held(t.active, t.reclaiming, t.regions, t.issued)
  {
    hide Issued, Retired;
  }

  lemma ReusedIssued(s: Books, size: nat, a: Allocation)
    requires Placed(s) && Dated(s) && a !in s.active && size in s.free
    ensures var t := Reused(s, size, a);
      Issued(t.issued, t.active, t.regions, t.place)
  {
    hide Held, Retired, ReclaimingPlaced;
  }

  lemma ReusedRetired(s: Books, size: nat, a: Allocation)
    requires Placed(s) && Dated(s) && a !in s.active && size in s.free
    ensures var t := Reused(s, size, a);
      Retired(t.registered, t.acked, t.regions)
  {
    hide Held, Issued, LivePlaced;
  }

  lemma ReusedDates(s: Books, size: nat, a: Allocation)
    requires Placed(s) && Dated(s) && a !in s.active && size in s.free
    ensures Dated(Reused(s, size, a))
  {
    hide Placed, Generations, Held, Issued, Retired, AllRetired;
    ReusedHeld(s, size, a);
    ReusedIssued(s, size, a);
    ReusedRetired(s, size, a);
  }

  lemma ReusedCached(s: Books, size: nat, a: Allocation, maxBuffers: nat, maxBytes: nat)
    requires Sound(s, maxBuffers, maxBytes) && size in s.free
    ensures var t := Reused(s, size, a);
      Cached(t.cachedBytes, maxBuffers, maxBytes, t.regions, t.place)
  {
    var id, t := s.free[size][|s.free[size]| - 1], Reused(s, size, a);
    assert FreeIds(t.place) == FreeIds(s.place) - {id};
    BytesWithout(FreeIds(s.place), s.regions, id);
  }

  lemma CreatedLive(s: Books, size: nat, a: Allocation, id: Id)
    requires Placed(s) && a !in s.active && id !in s.regions
    ensures LivePlaced(Created(s, size, a, id).active, Created(s, size, a, id).place)
  {
    hide FreePlaced, ReclaimingPlaced;
  }

  lemma CreatedReclaiming(s: Books, size: nat, a: Allocation, id: Id)
    requires Placed(s) && id !in s.regions
    ensures ReclaimingPlaced(Created(s, size, a, id).reclaiming, Created(s, size, a, id).place)
  {
    hide FreePlaced, LivePlaced;
  }

  lemma CreatedFree(s: Books, size: nat, a: Allocation, id: Id)
    requires Placed(s) && a !in s.active && id !in s.regions
    ensures var t := Created(s, size, a, id);
      FreePlaced(t.free, t.regions, t.place) && ClosedPlaced(t.regions, t.place)
  {
    hide LivePlaced, ReclaimingPlaced;
  }

  lemma CreatedHeld(s: Books, size: nat, a: Allocation, id: Id)
    requires Dated(s) && a !in s.active && id !in s.regions
    ensures var t := Created(s, size, a, id);
      Generations(t.regions, t.place) && Held(t.active, t.reclaiming, t.regions, t.issued)
  {
    hide Issued, Retired;
  }

  lemma CreatedIssued(s: Books, size: nat, a: Allocation, id: Id)
    requires Dated(s) && a !in s.active && id !in s.regions
    ensures var t := Created(s, size, a, id);
      Issued(t.issued, t.active, t.regions, t.place) && Retired(t.registered, t.acked, t.regions)
  {
  }

  lemma CreatedCached(s: Books, size: nat, a: Allocation, id: Id, maxBuffers: nat, maxBytes: nat)
    requires Sound(s, maxBuffers, maxBytes) && id !in s.regions
    ensures var t := Created(s, size, a, id);
      Cached(t.cachedBytes, maxBuffers, maxBytes, t.regions, t.place)
  {
    var t := Created(s, size, a, id);
    assert FreeIds(t.place) == FreeIds(s.place);
    BytesSame(FreeIds(s.place), s.regions, t.regions);
  }

  lemma JoinedPlaces(s: Books, id: Id, x: Recipient)
    requires Placed(s) && id in s.regions
    ensures Placed(Joined(s, id, x))
  {
    hide LivePlaced, ReclaimingPlaced;
  }

  lemma JoinedHeld(s: Books, h: Handle, x: Recipient)
    requires Placed(s) && Dated(s) && h in s.issued && IsCurrent(h, s.regions)
    ensures var t := Joined(s, h.region, x);
      Generations(t.regions, t.place) && Held(t.active, t.reclaiming, t.regions, t.issued)
  {
    hide LivePlaced, ReclaimingPlaced, FreePlaced, Retired;
  }

  lemma JoinedIssued(s: Books, h: Handle, x: Recipient)
    requires Dated(s) && h.region in s.regions
    ensures var t := Joined(s, h.region, x);
      Issued(t.issued, t.active, t.regions, t.place) && Retired(t.registered, t.acked, t.regions)
  {
    hide Held, Generations;
  }

  lemma JoinedCached(s: Books, id: Id, x: Recipient, maxBuffers: nat, maxBytes: nat)
    requires Sound(s, maxBuffers, maxBytes) && id in s.regions
    ensures var t := Joined(s, id, x);
      Cached(t.cachedBytes, maxBuffers, maxBytes, t.regions, t.place)
  {
    hide Placed, Dated;
    BytesSame(FreeIds(s.place), s.regions, Joined(s, id, x).regions);
  }

  lemma DrainedLive(s: Books, a: Allocation)
    requires Placed(s) && a in s.active
    ensures LivePlaced(Drained(s, a).active, Drained(s, a).place)
  {
    hide ReclaimingPlaced, FreePlaced, ClosedPlaced;
  }

  lemma DrainedFree(s: Books, a: Allocation)
    requires Placed(s) && a in s.active
    ensures var t := Drained(s, a);
      FreePlaced(t.free, t.regions, t.place) && ClosedPlaced(t.regions, t.place)
  {
    hide ReclaimingPlaced;
    assert s.place[s.active[a].region] == Live(a);
  }

  lemma DrainedReclaiming(s: Books, a: Allocation)
    requires Placed(s) && a in s.active
    ensures ReclaimingPlaced(Drained(s, a).reclaiming, Drained(s, a).place)
  {
    var t, n := Drained(s, a), |s.reclaiming|;
    assert t.reclaiming[n].region == s.active[a].region;
    assert forall i | 0 <= i < n :: t.reclaiming[i] == s.reclaiming[i];
  }

  lemma DrainedDates(s: Books, a: Allocation)
    requires Placed(s) && Dated(s) && a in s.active
    ensures Dated(Drained(s, a))
  {
    hide ReclaimingPlaced, FreePlaced, ClosedPlaced;
  }

  lemma DrainedCached(s: Books, a: Allocation, maxBuffers: nat, maxBytes: nat)
    requires Sound(s, maxBuffers, maxBytes) && a in s.active
    ensures var t := Drained(s, a);
      Cached(t.cachedBytes, maxBuffers, maxBytes, t.regions, t.place)
  {
    assert FreeIds(Drained(s, a).place) == FreeIds(s.place);
  }

  lemma ShutLive(s: Books)
    requires Placed(s) && s.reclaiming != []
    ensures LivePlaced(Shut(s).active, Shut(s).place)
  {
    hide FreePlaced, ClosedPlaced;
  }

  lemma ShutReclaiming(s: Books)
    requires Placed(s) && s.reclaiming != []
    ensures ReclaimingPlaced(Shut(s).reclaiming, Shut(s).place)
  {
    hide LivePlaced, FreePlaced;
    var t := Shut(s);
    assert forall i | 0 <= i < |t.reclaiming| :: t.reclaiming[i] == s.reclaiming[i + 1];
    assert forall i | 1 <= i < |s.reclaiming| :: s.reclaiming[i] == t.reclaiming[i - 1];
  }

  lemma ShutPlaces(s: Books)
    requires Placed(s) && s.reclaiming != []
    ensures Placed(Shut(s))
  {
    hide LivePlaced;
    ShutLive(s);
    ShutReclaiming(s);
  }

  lemma ShutHeld(s: Books)
    requires Placed(s) && Dated(s) && s.reclaiming != []
    ensures var t := Shut(s);
      Generations(t.regions, t.place) && Held(t.active, t.reclaiming, t.regions, t.issued)
  {
    hide Issued, Retired, FreePlaced;
  }

  lemma ShutIssued(s: Books)
    requires Placed(s) && Dated(s) && s.reclaiming != []
    ensures var t := Shut(s);
      Issued(t.issued, t.active, t.regions, t.place)
  {
    hide Held, Retired, FreePlaced, ReclaimingPlaced;
  }

  lemma ShutRetired(s: Books)
    requires Placed(s) && Dated(s) && s.reclaiming != []
    ensures var t := Shut(s);
      Retired(t.registered, t.acked, t.regions)
  {
    hide Held, Issued, FreePlaced, LivePlaced;
  }

  lemma ShutDates(s: Books)
    requires Placed(s) && Dated(s) && s.reclaiming != []
    ensures Dated(Shut(s))
  {
    hide Placed, Generations, Held, Issued, Retired, AllRetired;
    ShutHeld(s);
    ShutIssued(s);
    ShutRetired(s);
  }

  lemma ShutCached(s: Books, maxBuffers: nat, maxBytes: nat)
    requires Sound(s, maxBuffers, maxBytes) && s.reclaiming != []
    ensures var t := Shut(s);
      Cached(t.cachedBytes, maxBuffers, maxBytes, t.regions, t.place)
  {
    var t := Shut(s);
    assert FreeIds(t.place) == FreeIds(s.place);
    BytesSame(FreeIds(s.place), s.regions, t.regions);
  }

  lemma ResetPlaces(s: Books, id: Id)
    requires Placed(s) && id in s.regions
    ensures Placed(s.(regions := s.regions[id := Reset(s.regions[id])]))
  {
  }

  lemma EvictedPlaces(s: Books)
    requires Placed(s) && s.reclaiming != []
    ensures Placed(ShutAfterReset(s))
  {
    var id := s.reclaiming[0].region;
    ResetPlaces(s, id);
    ShutPlaces(s.(regions := s.regions[id := Reset(s.regions[id])]));
  }

  lemma EvictedHeld(s: Books)
    requires Placed(s) && Dated(s) && s.reclaiming != []
    requires s.regions[s.reclaiming[0].region].generation < MAX_GENERATION
    ensures var t := ShutAfterReset(s);
      Generations(t.regions, t.place) && Held(t.active, t.reclaiming, t.regions, t.issued)
  {
    hide Issued, Retired, FreePlaced;
  }

  lemma EvictedIssued(s: Books)
    requires Placed(s) && Dated(s) && s.reclaiming != []
    requires s.regions[s.reclaiming[0].region].generation < MAX_GENERATION
    ensures var t := ShutAfterReset(s);
      Issued(t.issued, t.active, t.regions, t.place)
  {
    hide Held, Retired, FreePlaced, ReclaimingPlaced;
  }

  lemma EvictedRetired(s: Books)
    requires Placed(s) && Dated(s) && s.reclaiming != []
    requires s.regions[s.reclaiming[0].region].generation < MAX_GENERATION
    ensures var t := ShutAfterReset(s);
      Retired(t.registered, t.acked, t.regions)
  {
    hide Held, Issued, FreePlaced, LivePlaced;
  }

  lemma EvictedDates(s: Books)
    requires Placed(s) && Dated(s) && s.reclaiming != []
    requires s.regions[s.reclaiming[0].region].generation < MAX_GENERATION
    ensures Dated(ShutAfterReset(s))
  {
    hide Placed, Generations, Held, Issued, Retired, AllRetired;
    EvictedHeld(s);
    EvictedIssued(s);
    EvictedRetired(s);
  }

  lemma EvictedCached(s: Books, maxBuffers: nat, maxBytes: nat)
    requires Sound(s, maxBuffers, maxBytes) && s.reclaiming != []
    ensures var t := ShutAfterReset(s);
      Cached(t.cachedBytes, maxBuffers, maxBytes, t.regions, t.place)
  {
    var t := ShutAfterReset(s);
    assert FreeIds(t.place) == FreeIds(s.place);
    BytesSame(FreeIds(s.place), s.regions, t.regions);
  }

  lemma CachePlaces(s: Books)
    requires Placed(s) && s.reclaiming != []
    ensures var t := Cache(s);
      LivePlaced(t.active, t.place) && ReclaimingPlaced(t.reclaiming, t.place) && ClosedPlaced(t.regions, t.place)
  {
    var t := Cache(s);
    assert forall i | 0 <= i < |t.reclaiming| :: t.reclaiming[i] == s.reclaiming[i + 1];
    assert forall i | 1 <= i < |s.reclaiming| :: s.reclaiming[i] == t.reclaiming[i - 1];
  }

  lemma CacheFree(s: Books)
    requires Placed(s) && s.reclaiming != []
    ensures FreePlaced(Cache(s).free, Cache(s).regions, Cache(s).place)
  {
  }

  lemma CacheHeld(s: Books)
    requires Placed(s) && Dated(s) && s.reclaiming != []
    requires AllRetired(s, s.reclaiming[0].region)
    requires s.regions[s.reclaiming[0].region].generation < MAX_GENERATION
    ensures var t := Cache(s);
      Generations(t.regions, t.place) && Held(t.active, t.reclaiming, t.regions, t.issued)
  {
    hide Issued, Retired, FreePlaced;
  }

  lemma CacheIssued(s: Books)
    requires Placed(s) && Dated(s) && s.reclaiming != []
    requires AllRetired(s, s.reclaiming[0].region)
    requires s.regions[s.reclaiming[0].region].generation < MAX_GENERATION
    ensures var t := Cache(s);
      Issued(t.issued, t.active, t.regions, t.place)
  {
    hide Held, Retired, FreePlaced, ReclaimingPlaced;
  }

  lemma CacheRetired(s: Books)
    requires Placed(s) && Dated(s) && s.reclaiming != []
    requires AllRetired(s, s.reclaiming[0].region)
    requires s.regions[s.reclaiming[0].region].generation < MAX_GENERATION
    ensures var t := Cache(s);
      Retired(t.registered, t.acked, t.regions)
  {
    hide Held, Issued, FreePlaced, LivePlaced;
  }

  lemma CacheDates(s: Books)
    requires Placed(s) && Dated(s) && s.reclaiming != []
    requires AllRetired(s, s.reclaiming[0].region)
    requires s.regions[s.reclaiming[0].region].generation < MAX_GENERATION
    ensures Dated(Cache(s))
  {
    hide Placed, Generations, Held, Issued, Retired, AllRetired;
    CacheHeld(s);
    CacheIssued(s);
    CacheRetired(s);
  }

  /**
   Resetting a drained region forgets whom it told; that is sound exactly when everybody it knows of
   has retired it. A recipient that joined after the others were told would be forgotten unheard.
   */
  lemma CacheSafeExactly(s: Books)
    requires Placed(s) && Dated(s) && s.reclaiming != []
    requires s.regions[s.reclaiming[0].region].generation < MAX_GENERATION
    ensures Dated(Cache(s)) <==> AllRetired(s, s.reclaiming[0].region)
  {
    hide LivePlaced, FreePlaced, Generations, Held, Issued;
    var id := s.reclaiming[0].region;
    if AllRetired(s, id) {
      CacheDates(s);
    }
    if Dated(Cache(s)) {
      forall x | x in s.regions[id].recipients
        ensures Registration(id, s.regions[id].generation, x) in s.acked
      {
        assert Registration(id, s.regions[id].generation, x) in s.registered;
      }
    }
  }

  lemma CacheFreeIds(s: Books)
    requires Placed(s) && s.reclaiming != []
    ensures var id := s.reclaiming[0].region;
      id !in FreeIds(s.place) && FreeIds(Cache(s).place) == FreeIds(s.place) + {id} && id in s.regions
  {
    hide LivePlaced, FreePlaced;
  }

  lemma CacheCached(s: Books, maxBuffers: nat, maxBytes: nat)
    requires Sound(s, maxBuffers, maxBytes) && s.reclaiming != []
    requires |FreeIds(s.place)| < maxBuffers && s.reclaiming[0].region in s.regions
    requires s.cachedBytes + s.regions[s.reclaiming[0].region].byteLength <= maxBytes
    ensures var t := Cache(s);
      Cached(t.cachedBytes, maxBuffers, maxBytes, t.regions, t.place)
  {
    hide Placed, Dated, FreeIds;
    CacheFreeIds(s);
    var id, t := s.reclaiming[0].region, Cache(s);
    BytesWithout(FreeIds(t.place), t.regions, id);
    assert FreeIds(t.place) - {id} == FreeIds(s.place);
    BytesSame(FreeIds(s.place), s.regions, t.regions);
  }

  lemma AckedMore(s: Books, more: set<Registration>)
    requires Dated(s)
    ensures Dated(s.(acked := s.acked + more))
  {
  }

  /** The region lies in a list of cached ones. */
  ghost predicate Listed(free: FreeLists, id: Id) {
    exists k :: k in free && id in free[k]
  }

  lemma FreeIsListed(s: Books, id: Id)
    requires FreePlaced(s.free, s.regions, s.place) && id in s.place
    ensures s.place[id].Free? <==> Listed(s.free, id)
  {
  }

  /** Closing shuts exactly what lies in the lists. */
  lemma EmptiedEffect(s: Books)
    requires Placed(s)
    ensures var t := Emptied(s);
      && t.regions.Keys == s.regions.Keys
      && forall id | id in s.regions ::
        t.regions[id] == if Listed(s.free, id) then s.regions[id].(closed := true) else s.regions[id]
  {
    hide LivePlaced, ReclaimingPlaced, FreePlaced, Listed;
    forall id | id in s.regions
      ensures s.place[id].Free? <==> Listed(s.free, id)
    {
      FreeIsListed(s, id);
    }
  }

  /** Closing shuts everything cached. */
  function Emptied(s: Books): Books {
    s.(regions := map id | id in s.regions ::
                    if id in s.place && s.place[id].Free? then s.regions[id].(closed := true) else s.regions[id],
       place := map id | id in s.place :: if s.place[id].Free? then Closed else s.place[id],
       free := map[], cachedBytes := 0)
  }

  lemma EmptiedSound(s: Books, maxBuffers: nat, maxBytes: nat)
    requires Sound(s, maxBuffers, maxBytes)
    ensures Sound(Emptied(s), maxBuffers, maxBytes)
  {
    EmptiedLive(s);
    EmptiedReclaiming(s);
    EmptiedClosed(s);
    EmptiedDates(s);
    assert FreeIds(Emptied(s).place) == {};
  }

  lemma EmptiedLive(s: Books)
    requires Placed(s)
    ensures LivePlaced(Emptied(s).active, Emptied(s).place)
  {
    hide ReclaimingPlaced, FreePlaced, ClosedPlaced;
  }

  lemma EmptiedReclaiming(s: Books)
    requires Placed(s)
    ensures ReclaimingPlaced(Emptied(s).reclaiming, Emptied(s).place)
  {
    hide LivePlaced, FreePlaced, ClosedPlaced;
  }

  lemma EmptiedClosed(s: Books)
    requires Placed(s)
    ensures var t := Emptied(s);
      FreePlaced(t.free, t.regions, t.place) && ClosedPlaced(t.regions, t.place)
  {
    hide LivePlaced, ReclaimingPlaced;
  }

  lemma EmptiedHeld(s: Books)
    requires Placed(s) && Dated(s)
    ensures var t := Emptied(s);
      Generations(t.regions, t.place) && Held(t.active, t.reclaiming, t.regions, t.issued)
  {
    hide Issued, Retired;
  }

  lemma EmptiedIssued(s: Books)
    requires Placed(s) && Dated(s)
    ensures var t := Emptied(s);
      Issued(t.issued, t.active, t.regions, t.place)
  {
    hide Held, Retired, ReclaimingPlaced;
  }

  lemma EmptiedRetired(s: Books)
    requires Placed(s) && Dated(s)
    ensures var t := Emptied(s);
      Retired(t.registered, t.acked, t.regions)
  {
    hide Held, Issued, LivePlaced;
  }

  lemma EmptiedDates(s: Books)
    requires Placed(s) && Dated(s)
    ensures Dated(Emptied(s))
  {
    hide Placed, Generations, Held, Issued, Retired, AllRetired;
    EmptiedHeld(s);
    EmptiedIssued(s);
    EmptiedRetired(s);
  }

  /** The released allocations that are still active leave it in order; repeats and unknown ids are skipped. */
  function DrainedAll(s: Books, released: seq<Allocation>, n: nat): Books
    requires n <= |released|
  {
    if n == 0 then s
    else
      var t := DrainedAll(s, released, n - 1);
      if released[n - 1] in t.active then Drained(t, released[n - 1]) else t
  }

  /** The first of the two was released before the other was, if ever. */
  predicate Earlier(released: seq<Allocation>, a: Allocation, b: Allocation) {
    exists m :: 0 <= m < |released| && released[m] == a && b !in released[..m + 1]
  }

  /**
   Of what was active exactly the released is gone, each once, in the order of the releases; it is
   up for reclaiming behind what was there before.
   */
  ghost predicate DrainedFrom(s: Books, t: Books, released: seq<Allocation>, n: nat)
    requires n <= |released|
  {
    var before, after := |s.reclaiming|, |t.reclaiming|;
    && t.active == (map a | a in s.active && a !in released[..n] :: s.active[a])
    && s.reclaiming <= t.reclaiming
    && (forall i | before <= i < after :: var a := t.reclaiming[i].allocation;
          a in released[..n] && a in s.active && t.reclaiming[i] == s.active[a])
    && (forall a | a in s.active && a in released[..n] :: s.active[a] in t.reclaiming[before..])
    && (forall i, j | before <= i < j < after ::
          Earlier(released, t.reclaiming[i].allocation, t.reclaiming[j].allocation))
    && t.regions == s.regions && t.free == s.free && t.cachedBytes == s.cachedBytes
  }

  /** The first drained region is closed, evicted or cached. */
  ghost function ReleasedNext(s: Books, failed: bool, closed: bool, maxBuffers: nat, maxBytes: nat): Books
    requires s.reclaiming != [] && s.reclaiming[0].region in s.regions
  {
    var r := s.regions[s.reclaiming[0].region];
    if failed || closed || r.generation == MAX_GENERATION then Shut(s)
    else if |FreeIds(s.place)| >= maxBuffers || s.cachedBytes + r.byteLength > maxBytes then ShutAfterReset(s)
    else Cache(s)
  }

  lemma ReusedSound(s: Books, size: nat, a: Allocation, maxBuffers: nat, maxBytes: nat)
    requires Sound(s, maxBuffers, maxBytes) && a !in s.active && size in s.free
    ensures Sound(Reused(s, size, a), maxBuffers, maxBytes)
  {
    ReusedLive(s, size, a);
    ReusedPlaces(s, size, a);
    ReusedFree(s, size, a);
    ReusedDates(s, size, a);
    ReusedCached(s, size, a, maxBuffers, maxBytes);
  }

  lemma CreatedSound(s: Books, size: nat, a: Allocation, id: Id, maxBuffers: nat, maxBytes: nat)
    requires Sound(s, maxBuffers, maxBytes) && a !in s.active && id !in s.regions
    ensures Sound(Created(s, size, a, id), maxBuffers, maxBytes)
  {
    CreatedLive(s, size, a, id);
    CreatedReclaiming(s, size, a, id);
    CreatedFree(s, size, a, id);
    CreatedHeld(s, size, a, id);
    CreatedIssued(s, size, a, id);
    CreatedCached(s, size, a, id, maxBuffers, maxBytes);
  }

  lemma JoinedSound(s: Books, h: Handle, x: Recipient, maxBuffers: nat, maxBytes: nat)
    requires Sound(s, maxBuffers, maxBytes) && h in s.issued && IsCurrent(h, s.regions)
    ensures Sound(Joined(s, h.region, x), maxBuffers, maxBytes)
  {
    hide Placed, Generations, Held, Issued, Retired, Cached;
    JoinedPlaces(s, h.region, x);
    JoinedHeld(s, h, x);
    JoinedIssued(s, h, x);
    JoinedCached(s, h.region, x, maxBuffers, maxBytes);
  }

  lemma DrainedSound(s: Books, a: Allocation, maxBuffers: nat, maxBytes: nat)
    requires Sound(s, maxBuffers, maxBytes) && a in s.active
    ensures Sound(Drained(s, a), maxBuffers, maxBytes)
  {
    hide LivePlaced, ReclaimingPlaced, FreePlaced, ClosedPlaced, Dated, Cached;
    DrainedLive(s, a);
    DrainedFree(s, a);
    DrainedReclaiming(s, a);
    DrainedDates(s, a);
    DrainedCached(s, a, maxBuffers, maxBytes);
  }

  lemma ReleasedSound(s: Books, failed: bool, closed: bool, maxBuffers: nat, maxBytes: nat)
    requires Sound(s, maxBuffers, maxBytes) && s.reclaiming != [] && s.reclaiming[0].region in s.regions
    requires failed || AllRetired(s, s.reclaiming[0].region)
    ensures Sound(ReleasedNext(s, failed, closed, maxBuffers, maxBytes), maxBuffers, maxBytes)
  {
    hide LivePlaced, ReclaimingPlaced, FreePlaced, ClosedPlaced, Held, Issued, Retired, AllRetired;
    var r := s.regions[s.reclaiming[0].region];
    if failed || closed || r.generation == MAX_GENERATION {
      ShutPlaces(s);
      ShutDates(s);
      ShutCached(s, maxBuffers, maxBytes);
    } else if |FreeIds(s.place)| >= maxBuffers || s.cachedBytes + r.byteLength > maxBytes {
      EvictedPlaces(s);
      EvictedDates(s);
      EvictedCached(s, maxBuffers, maxBytes);
    } else {
      CachePlaces(s);
      CacheFree(s);
      CacheDates(s);
      CacheCached(s, maxBuffers, maxBytes);
    }
  }

  ghost function Members(ids: seq<Id>): set<Id> {
    set id | id in ids
  }

  lemma {:induction false} DistinctCount(ids: seq<Id>)
    requires forall i, j | 0 <= i < j < |ids| :: ids[i] != ids[j]
    ensures |Members(ids)| == |ids|
  {
    if ids != [] {
      DistinctCount(ids[1..]);
      assert ids[0] !in Members(ids[1..]);
      assert Members(ids) == Members(ids[1..]) + {ids[0]};
    }
  }

  /** Cached regions of the given sizes. */
  ghost function OfSizes(s: Books, sizes: set<nat>): set<Id> {
    set id | id in s.place && s.place[id].Free? && id in s.regions && s.regions[id].byteLength in sizes
  }

  lemma OneMoreSize(s: Books, sizes: set<nat>, k: nat)
    requires FreePlaced(s.free, s.regions, s.place) && k in s.free && k !in sizes
    ensures |OfSizes(s, sizes + {k})| == |OfSizes(s, sizes)| + |s.free[k]|
  {
    DistinctCount(s.free[k]);
    SizeIsList(s, k);
    assert OfSizes(s, sizes + {k}) == OfSizes(s, sizes) + OfSizes(s, {k});
    assert OfSizes(s, sizes) * OfSizes(s, {k}) == {};
  }

  lemma SizeIsList(s: Books, k: nat)
    requires FreePlaced(s.free, s.regions, s.place) && k in s.free
    ensures OfSizes(s, {k}) == Members(s.free[k])
  {
  }

  class BufferPool {
    const maxBuffers: nat
    const maxBytes: nat
    var closed: bool
    var regions: Regions
    var free: FreeLists
    var cachedBytes: int
    var active: Active
    var reclaiming: seq<Handle>
    ghost var books: Books

    ghost predicate Tied()
      reads this
    {
      && books.regions == regions && books.free == free && books.cachedBytes == cachedBytes
      && books.active == active && books.reclaiming == reclaiming
    }

    ghost predicate Valid()
      reads this
    {
      Tied() && Sound(books, maxBuffers, maxBytes)
    }

    constructor (maxBuffers: nat, maxBytes: nat)
      ensures Valid() && !closed && books == Books(map[], map[], 0, map[], [], map[], {}, {}, {})
      ensures this.maxBuffers == maxBuffers && this.maxBytes == maxBytes
    {
      this.maxBuffers, this.maxBytes, closed := maxBuffers, maxBytes, false;
      regions, free, cachedBytes, active, reclaiming := map[], map[], 0, map[], [];
      books := Books(map[], map[], 0, map[], [], map[], {}, {}, {});
      new;
      assert FreeIds(books.place) == {};
    }

    /** A cached region of exactly this size, or a new one; ids are random and fresh. */
    method Allocate(byteLength: nat, a: Allocation, freshId: Id) returns (h: Handle)
      requires Valid() && a !in active && freshId !in regions
      modifies this
      ensures Valid() && closed == old(closed)
      ensures books == if byteLength in old(free) then Reused(old(books), byteLength, a)
                       else Created(old(books), byteLength, a, freshId)
      ensures active == old(active)[a := h] && h.allocation == a && h.byteLength == byteLength && IsCurrent(h, regions)
      ensures regions[h.region].byteLength == byteLength && !regions[h.region].closed
      ensures regions[h.region].recipients == {} && regions - {h.region} == old(regions) - {h.region}
      ensures if byteLength in old(free) then h.region == Last(old(free)[byteLength]) && regions == old(regions)
              else h.region == freshId && h.generation == 1
      ensures free == if byteLength in old(free) then Popped(old(free), byteLength) else old(free)
      ensures cachedBytes == old(cachedBytes) - if byteLength in old(free) then byteLength else 0
      ensures reclaiming == old(reclaiming) && books.place == old(books.place)[h.region := Live(a)]
      ensures books.issued == old(books.issued) + {h} && books.registered == old(books.registered)
    {
      hide Sound;
      if byteLength in free {
        AllocationIsOpen(books, byteLength, maxBuffers, maxBytes);
      }
      if byteLength in free {
        h := Reuse(byteLength, a);
      } else {
        h := NewRegion(byteLength, a, freshId);
      }
    }

    method Reuse(byteLength: nat, a: Allocation) returns (h: Handle)
      requires Valid() && a !in active && byteLength in free
      modifies `free, `cachedBytes, `active, `books
      ensures Valid() && books == Reused(old(books), byteLength, a)
      ensures a in active && active[a] == h && h.allocation == a && h.byteLength == byteLength && IsCurrent(h, regions)
    {
      ReusedSound(books, byteLength, a, maxBuffers, maxBytes);
      h := TakeCached(byteLength, a);
    }

    method TakeCached(byteLength: nat, a: Allocation) returns (h: Handle)
      requires Tied() && byteLength in free && free[byteLength] != []
      requires free[byteLength][|free[byteLength]| - 1] in regions
      modifies `free, `cachedBytes, `active, `books
      ensures Tied() && books == Reused(old(books), byteLength, a)
      ensures h == HandleFor(regions, old(free)[byteLength][|old(free)[byteLength]| - 1], a)
    {
      var available := free[byteLength];
      var id := available[|available| - 1];
      h := HandleFor(regions, id, a);
      books := Reused(books, byteLength, a);
      free := if |available| == 1 then free - {byteLength} else free[byteLength := available[..|available| - 1]];
      cachedBytes := cachedBytes - byteLength;
      active := active[a := h];
    }

    method NewRegion(byteLength: nat, a: Allocation, freshId: Id) returns (h: Handle)
      requires Valid() && a !in active && freshId !in regions
      modifies `regions, `active, `books
      ensures Valid() && books == Created(old(books), byteLength, a, freshId)
      ensures a in active && active[a] == h && h.allocation == a && h.byteLength == byteLength && IsCurrent(h, regions)
    {
      CreatedSound(books, byteLength, a, freshId, maxBuffers, maxBytes);
      books := Created(books, byteLength, a, freshId);
      regions := regions[freshId := Region(1, byteLength, false, {})];
      h := Handle(freshId, 1, a, byteLength);
      active := active[a := h];
    }

    /**
     Whether a handle is still good. It never refuses a live allocation's own handle, and never passes
     one of an earlier allocation whose region is cached or was handed out again.
     */
    method EnsureCurrent(h: Handle) returns (ok: bool)
      requires Valid() && h in books.issued
      ensures ok <==> IsCurrent(h, regions)
      ensures h.allocation in active && active[h.allocation] == h ==> ok
      ensures books.place[h.region].Free? ==> !ok
      ensures ok && books.place[h.region].Live? ==> h.allocation in active && active[h.allocation] == h
    {
      ok := regions[h.region].generation == h.generation;
    }

    /** A session that mapped a buffer asks to hear of its retirement. */
    method RegisterRecipient(h: Handle, x: Recipient) returns (ok: bool)
      requires Valid() && h in books.issued
      modifies `regions, `books
      ensures Valid() && (ok <==> old(IsCurrent(h, regions)))
      ensures books == if ok then Joined(old(books), h.region, x) else old(books)
      ensures regions.Keys == old(regions).Keys && h.region in regions
      ensures ok ==>
        && x in regions[h.region].recipients && Registration(h.region, h.generation, x) in books.registered
        && regions[h.region] == old(regions)[h.region].(recipients := old(regions)[h.region].recipients + {x})
        && books.registered == old(books.registered) + {Registration(h.region, h.generation, x)}
      ensures regions - {h.region} == old(regions) - {h.region}
      ensures books == old(books).(regions := regions, registered := books.registered)
    {
      hide Sound;
      IssuedRegions(books, h, maxBuffers, maxBytes);
      ok := EnsureCurrent(h);
      if ok {
        JoinedSound(books, h, x, maxBuffers, maxBytes);
        Joins(h, x);
      }
    }

    method Joins(h: Handle, x: Recipient)
      requires Tied() && h.region in regions
      modifies `regions, `books
      ensures Tied() && books == Joined(old(books), h.region, x)
    {
      books := Joined(books, h.region, x);
      var r := regions[h.region];
      regions := regions[h.region := r.(recipients := r.recipients + {x})];
    }

    method DrainOne(a: Allocation)
      requires Valid() && a in active
      modifies `active, `reclaiming, `books
      ensures Valid() && books == Drained(old(books), a)
    {
      hide Sound;
      DrainedSound(books, a, maxBuffers, maxBytes);
      books := Drained(books, a);
      reclaiming := reclaiming + [active[a]];
      active := active - {a};
    }

    /** Takes the allocations whose storage died out of the active table. */
    method Drain(released: seq<Allocation>)
      requires Valid()
      modifies `active, `reclaiming, `books
      ensures Valid() && books == DrainedAll(old(books), released, |released|)
      ensures DrainedFrom(old(books), books, released, |released|)
    {
      ActiveNamed(books, maxBuffers, maxBytes);
      DrainedWhole(books, released, |released|);
      for n := 0 to |released|
        invariant Valid() && books == DrainedAll(old(books), released, n)
      {
        if released[n] in active {
          DrainOne(released[n]);
        }
      }
    }

    /** Tells every recipient of the drained buffers; the buffers of those that refuse are lost. */
    method NotifyRecipients(refusing: set<Recipient>) returns (failed: set<Id>)
      requires Valid()
      modifies `books
      ensures Valid() && books == old(books).(acked := books.acked) && old(books).acked <= books.acked
      ensures forall h | h in reclaiming :: h.region !in failed ==> AllRetired(books, h.region)
      ensures forall r | r in books.acked && r !in old(books).acked ::
                r.recipient !in refusing && exists h :: h in reclaiming && h.region == r.region
      ensures forall h | h in reclaiming ::
                h.region in regions && (h.region in failed <==> regions[h.region].recipients * refusing != {})
    {
      KnownRegions(books);
      failed := {};
      for n := 0 to |reclaiming|
        invariant forall id | id in failed :: id in regions && regions[id].recipients * refusing != {}
        invariant forall i | 0 <= i < n :: regions[reclaiming[i].region].recipients * refusing != {} ==>
                    reclaiming[i].region in failed
      {
        var id := reclaiming[n].region;
        if regions[id].recipients * refusing != {} {
          failed := failed + {id};
        }
      }
      ghost var heard := Heard(books, refusing);
      AckedMore(books, heard);
      forall h | h in reclaiming && h.region !in failed
        ensures AllRetired(books.(acked := books.acked + heard), h.region)
      {
        HeardAll(books, refusing, h.region);
      }
      books := books.(acked := books.acked + heard);
    }

    method CountCached() returns (count: nat)
      requires Valid()
      ensures count == |FreeIds(books.place)|
    {
      count := 0;
      var left := free.Keys;
      assert OfSizes(books, {}) == {};
      while left != {}
        invariant left <= free.Keys
        invariant count == |OfSizes(books, free.Keys - left)|
        decreases |left|
      {
        var k :| k in left;
        OneMoreSize(books, free.Keys - left, k);
        assert free.Keys - (left - {k}) == (free.Keys - left) + {k};
        count := count + |free[k]|;
        left := left - {k};
      }
      assert OfSizes(books, free.Keys - left) == FreeIds(books.place);
    }

    /** Closes the first drained region, or resets it and caches it if the limits allow. */
    method ReleaseNext(failed: bool)
      requires Valid() && reclaiming != [] && (failed || AllRetired(books, reclaiming[0].region))
      modifies `regions, `reclaiming, `free, `cachedBytes, `books
      ensures Valid() && old(reclaiming)[0].region in old(books).regions
      ensures books == ReleasedNext(old(books), failed, closed, maxBuffers, maxBytes)
      ensures var c := Collection(map[], {}, closed, maxBuffers, maxBytes);
        OneReleased(old(books), books, old(reclaiming)[0].region, failed, c)
    {
      ReleasedEffect(books, failed, Collection(map[], {}, closed, maxBuffers, maxBytes));
      hide LivePlaced, ReclaimingPlaced, FreePlaced, ClosedPlaced, Held, Issued, Retired, Cached, AllRetired,
        OneReleased;
      KnownRegions(books);
      var id := reclaiming[0].region;
      if failed || closed || regions[id].generation == MAX_GENERATION {
        ReleasedSound(books, failed, closed, maxBuffers, maxBytes);
        CloseRegion(id);
      } else {
        ResetOrRelease(id);
      }
    }

    method CloseRegion(id: Id)
      requires Tied() && reclaiming != [] && reclaiming[0].region == id && id in regions
      modifies `regions, `reclaiming, `books
      ensures Tied() && books == Shut(old(books))
    {
      books := Shut(books);
      regions := regions[id := regions[id].(closed := true)];
      reclaiming := reclaiming[1..];
    }

    method ResetOrRelease(id: Id)
      requires Valid() && reclaiming != [] && reclaiming[0].region == id && AllRetired(books, id)
      requires !closed && regions[id].generation < MAX_GENERATION
      modifies `regions, `reclaiming, `free, `cachedBytes, `books
      ensures Valid() && books == ReleasedNext(old(books), false, false, maxBuffers, maxBytes)
    {
      var count := CountCached();
      ReleasedSound(books, false, false, maxBuffers, maxBytes);
      if count >= maxBuffers || cachedBytes + regions[id].byteLength > maxBytes {
        EvictRegion(id);
      } else {
        CacheRegion(id);
      }
    }

    method EvictRegion(id: Id)
      requires Tied() && reclaiming != [] && reclaiming[0].region == id && id in regions
      modifies `regions, `reclaiming, `books
      ensures Tied() && books == ShutAfterReset(old(books))
    {
      books := ShutAfterReset(books);
      reclaiming := reclaiming[1..];
      regions := regions[id := Reset(regions[id])];
      regions := regions[id := regions[id].(closed := true)];
    }

    method CacheRegion(id: Id)
      requires Tied() && reclaiming != [] && reclaiming[0].region == id && id in regions
      modifies `regions, `reclaiming, `free, `cachedBytes, `books
      ensures Tied() && books == Cache(old(books))
    {
      books := Cache(books);
      reclaiming := reclaiming[1..];
      regions := regions[id := Reset(regions[id])];
      free := Pushed(free, regions[id].byteLength, id);
      cachedBytes := cachedBytes + regions[id].byteLength;
    }

    /**
     One collection: whatever died is no longer active, its regions are cached or closed, and cached
     only if nobody who mapped them refused to let go.
     */
    method Collect(released: seq<Allocation>, refusing: set<Recipient>)
      requires Valid() && reclaiming == []
      modifies `active, `regions, `reclaiming, `free, `cachedBytes, `books
      ensures Valid() && reclaiming == []
      ensures active == map a | a in old(active) && a !in released :: old(active)[a]
      ensures var c := Collection(old(regions), refusing, closed, maxBuffers, maxBytes);
        forall a | a in released && a in old(active) :: SettledAt(books, old(active)[a].region, c)
    {
      hide LivePlaced, ReclaimingPlaced, FreePlaced, ClosedPlaced, Dated, Cached, AllRetired, SettledAt;
      ghost var was := books;
      ghost var c := Collection(regions, refusing, closed, maxBuffers, maxBytes);
      assert released[..|released|] == released;
      Drain(released);
      DrainedAreWhere(was, books, released);
      ghost var drained := reclaiming;
      var failed := NotifyRecipients(refusing);
      ReleaseAll(failed, c, drained);
      forall a | a in released && a in was.active
        ensures SettledAt(books, was.active[a].region, c)
      {
        assert was.active[a] in drained;
      }
    }

    method ReleaseAll(failed: set<Id>, ghost c: Collection, ghost drained: seq<Handle>)
      requires Valid() && drained == reclaiming && Releasing(books, drained, {}, failed, c)
      requires c.closed == closed && c.maxBuffers == maxBuffers && c.maxBytes == maxBytes
      modifies `regions, `reclaiming, `free, `cachedBytes, `books
      ensures Valid() && reclaiming == [] && active == old(active)
      ensures forall h | h in drained :: SettledAt(books, h.region, c)
    {
      ghost var settled: set<Id> := {};
      while reclaiming != []
        invariant Valid() && Releasing(books, drained, settled, failed, c)
        decreases |reclaiming|
      {
        ghost var id := reclaiming[0].region;
        ReleaseFirst(failed, c, drained, settled);
        settled := settled + {id};
      }
      ReleasingDone(books, drained, settled, failed, c);
    }

    method ReleaseFirst(failed: set<Id>, ghost c: Collection, ghost drained: seq<Handle>, ghost settled: set<Id>)
      requires Valid() && reclaiming != [] && Releasing(books, drained, settled, failed, c)
      requires c.closed == closed && c.maxBuffers == maxBuffers && c.maxBytes == maxBytes
      modifies `regions, `reclaiming, `free, `cachedBytes, `books
      ensures Valid() && reclaiming == old(reclaiming)[1..]
      ensures Releasing(books, drained, settled + {old(reclaiming)[0].region}, failed, c)
    {
      hide LivePlaced, ReclaimingPlaced, FreePlaced, ClosedPlaced, Dated, Cached, SettledAt;
      ReleasingStep(books, drained, settled, failed, c);
      ReleaseNext(reclaiming[0].region in failed);
    }

    /** Closes every cached region. */
    method Close()
      requires Valid()
      modifies `closed, `regions, `free, `cachedBytes, `books
      ensures Valid() && closed && books == Emptied(old(books))
      ensures free == map[] && cachedBytes == 0 && active == old(active) && reclaiming == old(reclaiming)
      ensures regions.Keys == old(regions).Keys
      ensures forall id | id in regions ::
                regions[id] == if Listed(old(free), id) then old(regions)[id].(closed := true) else old(regions)[id]
    {
      hide LivePlaced, ReclaimingPlaced, ClosedPlaced, Dated, Cached;
      EmptiedSound(books, maxBuffers, maxBytes);
      AllSizesClosed(books);
      EmptiedEffect(books);
      closed := true;
      CloseCached(books);
      EmptyLists();
    }

    method EmptyLists()
      requires books.active == active && books.reclaiming == reclaiming && regions == Emptied(books).regions
      modifies `free, `cachedBytes, `books
      ensures Tied() && books == Emptied(old(books))
    {
      books := Emptied(books);
      free, cachedBytes := map[], 0;
    }

    method CloseCached(ghost b: Books)
      requires FreePlaced(b.free, b.regions, b.place) && free == b.free && regions == ClosedSizes(b, {})
      modifies `regions
      ensures regions == ClosedSizes(b, free.Keys)
    {
      var left := free.Keys;
      assert free.Keys - left == {};
      while left != {}
        invariant left <= free.Keys
        invariant regions == ClosedSizes(b, free.Keys - left)
        decreases |left|
      {
        var k :| k in left;
        assert free.Keys - (left - {k}) == (free.Keys - left) + {k};
        CloseSize(k, b, free.Keys - left);
        left := left - {k};
      }
      assert free.Keys - left == free.Keys;
    }

    method CloseSize(k: nat, ghost b: Books, ghost sizes: set<nat>)
      requires FreePlaced(b.free, b.regions, b.place) && free == b.free && k in free
      requires regions == ClosedSizes(b, sizes)
      modifies `regions
      ensures regions == ClosedSizes(b, sizes + {k})
    {
      CloseOneSize(b, sizes, k);
      regions := map id | id in regions :: if id in free[k] then regions[id].(closed := true) else regions[id];
    }
  }

  /** One collection: the regions it found, who refuses to let go, and the limits of the cache. */
  datatype Collection = Collection(
    known: Regions, refusing: set<Recipient>, closed: bool, maxBuffers: nat, maxBytes: nat)

  ghost predicate Refused(id: Id, c: Collection)
    requires id in c.known
  {
    c.known[id].recipients * c.refusing != {}
  }

  /** Another region of so many bytes goes beyond what may be cached. */
  ghost predicate Full(s: Books, byteLength: nat, c: Collection) {
    |FreeIds(s.place)| >= c.maxBuffers || s.cachedBytes + byteLength > c.maxBytes
  }

  /**
   Reclaimed: closed where a recipient refused, and otherwise only for want of generations or room,
   or because the pool is closed; cached in every other case.
   */
  ghost predicate SettledAt(s: Books, id: Id, c: Collection) {
    && id in s.place && id in c.known && (s.place[id].Free? || s.place[id].Closed?)
    && (Refused(id, c) ==> s.place[id].Closed?)
    && (s.place[id].Closed? ==>
          Refused(id, c) || c.closed || c.known[id].generation == MAX_GENERATION || Full(s, c.known[id].byteLength, c))
  }

  lemma DrainedOnce(s: Books, released: seq<Allocation>, n: nat, t: Books)
    requires n < |released| && released[n] in t.active && t.active[released[n]].allocation == released[n]
    requires DrainedFrom(s, t, released, n) && t.active[released[n]] == s.active[released[n]]
    ensures DrainedFrom(s, Drained(t, released[n]), released, n + 1)
  {
    var a, u, k := released[n], Drained(t, released[n]), |t.reclaiming|;
    assert released[..n + 1] == released[..n] + [a];
    assert a !in released[..n] && u.reclaiming[k] == s.active[a];
    assert u.reclaiming[|s.reclaiming|..] == t.reclaiming[|s.reclaiming|..] + [s.active[a]];
    forall i | |s.reclaiming| <= i < k
      ensures Earlier(released, u.reclaiming[i].allocation, a)
    {
      var b := t.reclaiming[i].allocation;
      var m :| 0 <= m < n && released[..n][m] == b;
      assert released[m] == b && forall x | x in released[..m + 1] :: x in released[..n];
    }
  }

  lemma NotDrained(s: Books, released: seq<Allocation>, n: nat, t: Books)
    requires n < |released| && released[n] !in t.active && DrainedFrom(s, t, released, n)
    ensures DrainedFrom(s, t, released, n + 1)
  {
    assert released[..n + 1] == released[..n] + [released[n]];
  }

  lemma {:induction false} DrainedWhole(s: Books, released: seq<Allocation>, n: nat)
    requires n <= |released| && forall a | a in s.active :: s.active[a].allocation == a
    ensures DrainedFrom(s, DrainedAll(s, released, n), released, n)
  {
    hide DrainedFrom;
    if n == 0 {
      NothingDrained(s, released);
    } else {
      var t := DrainedAll(s, released, n - 1);
      DrainedWhole(s, released, n - 1);
      StillActive(s, t, released, n - 1);
      if released[n - 1] in t.active {
        DrainedOnce(s, released, n - 1, t);
      } else {
        NotDrained(s, released, n - 1, t);
      }
    }
  }

  lemma NothingDrained(s: Books, released: seq<Allocation>)
    ensures DrainedFrom(s, s, released, 0)
  {
  }

  lemma StillActive(s: Books, t: Books, released: seq<Allocation>, n: nat)
    requires n <= |released| && DrainedFrom(s, t, released, n)
    ensures forall a | a in t.active :: a in s.active && t.active[a] == s.active[a]
  {
  }

  /** Releasing one region leaves every other as it was. */
  lemma ReleasedEffect(s: Books, failed: bool, c: Collection)
    requires Placed(s) && s.reclaiming != [] && s.reclaiming[0].region in s.regions
    ensures var t := ReleasedNext(s, failed, c.closed, c.maxBuffers, c.maxBytes);
      OneReleased(s, t, s.reclaiming[0].region, failed, c)
  {
    hide LivePlaced, ReclaimingPlaced, FreePlaced, ClosedPlaced, FreeIds;
    OthersReclaiming(s);
  }

  lemma OthersReclaiming(s: Books)
    requires Placed(s) && s.reclaiming != []
    ensures forall h | h in s.reclaiming[1..] :: h in s.reclaiming && h.region != s.reclaiming[0].region
    ensures forall h | h in s.reclaiming :: h.region == s.reclaiming[0].region || h in s.reclaiming[1..]
  {
    var rest := s.reclaiming[1..];
    assert s.reclaiming == [s.reclaiming[0]] + rest;
    forall h | h in rest
      ensures h.region != s.reclaiming[0].region
    {
      var i :| 0 <= i < |rest| && rest[i] == h;
      assert s.reclaiming[i + 1] == h;
    }
  }

  /** In the middle of a collection: part of what was drained has settled, the rest waits its turn. */
  ghost predicate Releasing(s: Books, drained: seq<Handle>, settled: set<Id>, failed: set<Id>, c: Collection) {
    && (forall h | h in drained :: h in s.reclaiming || h.region in settled)
    && (forall h | h in s.reclaiming :: h.region !in settled && Awaits(s, h.region, failed, c))
    && (forall id | id in settled :: SettledAt(s, id, c))
  }

  ghost predicate Awaits(s: Books, id: Id, failed: set<Id>, c: Collection) {
    && id in c.known && id in s.regions && s.regions[id] == c.known[id]
    && (id !in failed ==> AllRetired(s, id)) && (id in failed <==> Refused(id, c))
  }

  /** The released region goes back to the cache, of nobody and with a new generation. */
  ghost predicate Keeps(s: Books, id: Id, failed: bool, c: Collection)
    requires id in s.regions
  {
    !failed && !c.closed && s.regions[id].generation != MAX_GENERATION && !Full(s, s.regions[id].byteLength, c)
  }

  /** What releasing the first region changes, and what it leaves. */
  ghost predicate OneReleased(s: Books, t: Books, id: Id, failed: bool, c: Collection) {
    && s.reclaiming != [] && t.reclaiming == s.reclaiming[1..] && t.active == s.active && t.acked == s.acked
    && id in s.regions && t.regions.Keys == s.regions.Keys
    && (forall x | x != id && x in s.regions :: t.regions[x] == s.regions[x])
    && (forall h | h in t.reclaiming :: h in s.reclaiming && h.region != id)
    && (forall h | h in s.reclaiming :: h.region == id || h in t.reclaiming)
    && if Keeps(s, id, failed, c) then CachedAgain(s, t, id) else ClosedNow(s, t, id)
  }

  ghost predicate CachedAgain(s: Books, t: Books, id: Id)
    requires id in s.regions && id in t.regions
  {
    var r, size := s.regions[id], s.regions[id].byteLength;
    && t.regions[id] == Region(r.generation + 1, size, r.closed, {}) && t.place == s.place[id := Free]
    && size in t.free && t.free[size] == (if size in s.free then s.free[size] else []) + [id]
    && t.free - {size} == s.free - {size} && t.cachedBytes == s.cachedBytes + size
  }

  ghost predicate ClosedNow(s: Books, t: Books, id: Id)
    requires id in s.regions && id in t.regions
  {
    t.regions[id].closed && t.place == s.place[id := Closed] && t.free == s.free && t.cachedBytes == s.cachedBytes
  }

  lemma OthersStillWait(s: Books, t: Books, id: Id, failed: set<Id>, c: Collection, x: Id)
    requires OneReleased(s, t, id, id in failed, c) && x != id && Awaits(s, x, failed, c)
    ensures Awaits(t, x, failed, c)
  {
  }

  lemma StillFull(s: Books, t: Books, id: Id, failed: bool, c: Collection, byteLength: nat)
    requires OneReleased(s, t, id, failed, c) && id in s.place && !s.place[id].Free?
    ensures Full(s, byteLength, c) ==> Full(t, byteLength, c)
  {
    assert FreeIds(t.place) == if Keeps(s, id, failed, c) then FreeIds(s.place) + {id} else FreeIds(s.place);
  }

  lemma SettledFurther(s: Books, t: Books, id: Id, failed: set<Id>, c: Collection, x: Id)
    requires OneReleased(s, t, id, id in failed, c) && Awaits(s, id, failed, c)
    requires id in s.place && !s.place[id].Free?
    requires x == id || SettledAt(s, x, c)
    ensures SettledAt(t, x, c)
  {
    hide Full;
    if x in c.known {
      StillFull(s, t, id, id in failed, c, c.known[x].byteLength);
    }
  }

  lemma ReleasingStep(s: Books, drained: seq<Handle>, settled: set<Id>, failed: set<Id>, c: Collection)
    requires Placed(s) && s.reclaiming != [] && Releasing(s, drained, settled, failed, c)
    ensures var id := s.reclaiming[0].region;
      && (id in failed || AllRetired(s, id)) && id in s.regions
      && Releasing(ReleasedNext(s, id in failed, c.closed, c.maxBuffers, c.maxBytes), drained, settled + {id},
                   failed, c)
  {
    hide Placed, AllRetired, SettledAt, ReleasedNext, OneReleased;
    assert s.reclaiming[0] in s.reclaiming;
    var id := s.reclaiming[0].region;
    var t := ReleasedNext(s, id in failed, c.closed, c.maxBuffers, c.maxBytes);
    ReleasedEffect(s, id in failed, c);
    ReleasedReclaiming(s, t, id, id in failed, c);
    FirstIsReclaiming(s);
    forall h | h in t.reclaiming
      ensures Awaits(t, h.region, failed, c)
    {
      OthersStillWait(s, t, id, failed, c, h.region);
    }
    forall x | x in settled + {id}
      ensures SettledAt(t, x, c)
    {
      SettledFurther(s, t, id, failed, c, x);
    }
  }

  lemma FirstIsReclaiming(s: Books)
    requires Placed(s) && s.reclaiming != []
    ensures var id := s.reclaiming[0].region;
      id in s.place && s.place[id].Reclaiming?
  {
  }

  lemma ReleasedReclaiming(s: Books, t: Books, id: Id, failed: bool, c: Collection)
    requires OneReleased(s, t, id, failed, c)
    ensures forall h | h in t.reclaiming :: h in s.reclaiming && h.region != id
    ensures forall h | h in s.reclaiming :: h.region == id || h in t.reclaiming
  {
  }

  lemma ReleasingDone(s: Books, drained: seq<Handle>, settled: set<Id>, failed: set<Id>, c: Collection)
    requires s.reclaiming == [] && Releasing(s, drained, settled, failed, c)
    ensures forall h | h in drained :: SettledAt(s, h.region, c)
  {
  }

  lemma DrainedAreWhere(s: Books, t: Books, released: seq<Allocation>)
    requires DrainedFrom(s, t, released, |released|) && s.reclaiming == []
    ensures t.active == map a | a in s.active && a !in released :: s.active[a]
    ensures forall a | a in s.active && a in released :: s.active[a] in t.reclaiming
  {
    assert released[..|released|] == released;
  }

  lemma KnownRegions(s: Books)
    requires Placed(s)
    ensures forall h | h in s.reclaiming :: h.region in s.regions
  {
  }

  ghost function Heard(s: Books, refusing: set<Recipient>): set<Registration>
    requires forall h | h in s.reclaiming :: h.region in s.regions
  {
    set h, x | h in s.reclaiming && x in s.regions[h.region].recipients && x !in refusing ::
      Registration(h.region, s.regions[h.region].generation, x)
  }

  lemma HeardAll(s: Books, refusing: set<Recipient>, id: Id)
    requires (forall h | h in s.reclaiming :: h.region in s.regions) && id in s.regions
    requires (exists h :: h in s.reclaiming && h.region == id) && s.regions[id].recipients * refusing == {}
    ensures AllRetired(s.(acked := s.acked + Heard(s, refusing)), id)
  {
    var h :| h in s.reclaiming && h.region == id;
    forall x | x in s.regions[id].recipients
      ensures Registration(id, s.regions[id].generation, x) in Heard(s, refusing)
    {
      assert x !in s.regions[id].recipients * refusing;
    }
  }

  /** The regions when the cached ones of these sizes are closed. */
  function ClosedSizes(s: Books, sizes: set<nat>): Regions {
    map id | id in s.regions ::
      if id in s.place && s.place[id].Free? && s.regions[id].byteLength in sizes
      then s.regions[id].(closed := true) else s.regions[id]
  }

  lemma CloseOneSize(s: Books, sizes: set<nat>, k: nat)
    requires FreePlaced(s.free, s.regions, s.place) && k in s.free
    ensures ClosedSizes(s, sizes + {k}) ==
            map id | id in ClosedSizes(s, sizes) ::
              if id in s.free[k] then ClosedSizes(s, sizes)[id].(closed := true) else ClosedSizes(s, sizes)[id]
  {
    assert forall id | id in s.regions && id in s.place && s.place[id].Free? &&
        s.regions[id].byteLength == k :: id in s.free[k];
  }

  lemma AllSizesClosed(s: Books)
    requires Placed(s)
    ensures ClosedSizes(s, s.free.Keys) == Emptied(s).regions
    ensures ClosedSizes(s, {}) == s.regions
  {
  }
}
