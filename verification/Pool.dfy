/**
 Ownership of pooled regions, on values: every region is live, being reclaimed, cached or closed, and
 its generation tells the handles of earlier allocations from the present one.
 */
module Pool {

  const MAX_GENERATION := 0xFFFF_FFFF

  type Id = nat
  type Allocation = nat
  type Recipient = nat

  datatype Region = Region(generation: nat, byteLength: nat, closed: bool, recipients: set<Recipient>)

  /** What a caller holds of an allocation. */
  datatype Handle = Handle(region: Id, generation: nat, allocation: Allocation, byteLength: nat)

  datatype Place = Live(allocation: Allocation) | Reclaiming | Free | Closed

  /** A recipient that mapped a region of a certain generation. */
  datatype Registration = Registration(region: Id, generation: nat, recipient: Recipient)

  type Regions = map<Id, Region>
  type Places = map<Id, Place>
  type Active = map<Allocation, Handle>
  type FreeLists = map<nat, seq<Id>>

  /** A handle is good while its region is at the generation the handle was made with. */
  predicate IsCurrent(h: Handle, regions: Regions) {
    h.region in regions && regions[h.region].generation == h.generation
  }

  // ----- Each region in one place -----------------------------------------------------

  ghost predicate LivePlaced(active: Active, place: Places) {
    && (forall a | a in active ::
          active[a].allocation == a && active[a].region in place && place[active[a].region] == Live(a))
    && (forall id | id in place && place[id].Live? ::
          place[id].allocation in active && active[place[id].allocation].region == id)
  }

  ghost predicate ReclaimingPlaced(reclaiming: seq<Handle>, place: Places) {
    && (forall i | 0 <= i < |reclaiming| :: reclaiming[i].region in place && place[reclaiming[i].region] == Reclaiming)
    && (forall i, j | 0 <= i < j < |reclaiming| :: reclaiming[i].region != reclaiming[j].region)
    && (forall id | id in place && place[id].Reclaiming? ::
          exists i :: 0 <= i < |reclaiming| && reclaiming[i].region == id)
  }

  /** Cached regions lie in the list of their own size. */
  ghost predicate FreePlaced(free: FreeLists, regions: Regions, place: Places) {
    && (forall k | k in free :: free[k] != [])
    && (forall k, i | k in free && 0 <= i < |free[k]| ::
          && free[k][i] in place && place[free[k][i]] == Free
          && free[k][i] in regions && regions[free[k][i]].byteLength == k)
    && (forall k, i, j | k in free && 0 <= i < j < |free[k]| :: free[k][i] != free[k][j])
    && (forall id | id in place && place[id].Free? ::
          id in regions && regions[id].byteLength in free && id in free[regions[id].byteLength])
  }

  ghost predicate ClosedPlaced(regions: Regions, place: Places) {
    && regions.Keys == place.Keys
    && forall id | id in place :: regions[id].closed <==> place[id].Closed?
  }

  // ----- Generations and handles ------------------------------------------------------

  ghost predicate Generations(regions: Regions, place: Places) {
    && (forall id | id in regions :: 1 <= regions[id].generation <= MAX_GENERATION)
    && (forall id | id in regions && id in place && place[id].Free? :: regions[id].recipients == {})
  }

  ghost predicate Held(active: Active, reclaiming: seq<Handle>, regions: Regions, issued: set<Handle>) {
    && (forall a | a in active :: active[a] in issued && IsCurrent(active[a], regions))
    && (forall i | 0 <= i < |reclaiming| :: IsCurrent(reclaiming[i], regions))
  }

  /** A handle still current is its region's live one, or its region is never handed out with that generation again. */
  ghost predicate Issued(issued: set<Handle>, active: Active, regions: Regions, place: Places) {
    forall h | h in issued ::
      && h.region in regions && h.region in place && h.generation <= regions[h.region].generation
      && (h.generation == regions[h.region].generation ==>
            match place[h.region]
            case Live(a) => a in active && active[a] == h
            case Free => false
            case _ => true)
  }

  // ----- Retirement -------------------------------------------------------------------

  /**
   Whoever mapped a region has retired that generation, or the region still knows of them; it knows
   of nobody else.
   */
  ghost predicate Retired(registered: set<Registration>, acked: set<Registration>, regions: Regions) {
    && (forall r | r in registered ::
          && r.region in regions && r.generation <= regions[r.region].generation
          && (r in acked || regions[r.region].closed ||
              (r.generation == regions[r.region].generation && r.recipient in regions[r.region].recipients)))
    && (forall id, x | id in regions && x in regions[id].recipients ::
          Registration(id, regions[id].generation, x) in registered)
  }

  // ----- Cached bytes and count -------------------------------------------------------

  ghost function FreeIds(place: Places): set<Id> {
    set id | id in place && place[id].Free?
  }

  ghost function Bytes(ids: set<Id>, regions: Regions): nat
    requires forall id | id in ids :: id in regions
  {
    if ids == {} then 0
    else
      var id :| id in ids;
      regions[id].byteLength + Bytes(ids - {id}, regions)
  }

  lemma {:induction false} BytesWithout(ids: set<Id>, regions: Regions, id: Id)
    requires (forall x | x in ids :: x in regions) && id in ids
    ensures Bytes(ids, regions) == regions[id].byteLength + Bytes(ids - {id}, regions)
    decreases |ids|
  {
    var x :| x in ids && Bytes(ids, regions) == regions[x].byteLength + Bytes(ids - {x}, regions);
    if x != id {
      BytesWithout(ids - {x}, regions, id);
      BytesWithout(ids - {id}, regions, x);
      assert ids - {x} - {id} == ids - {id} - {x};
    }
  }

  lemma {:induction false} BytesSame(ids: set<Id>, a: Regions, b: Regions)
    requires forall x | x in ids :: x in a && x in b && a[x].byteLength == b[x].byteLength
    ensures Bytes(ids, a) == Bytes(ids, b)
    decreases |ids|
  {
    if ids != {} {
      var x :| x in ids;
      BytesWithout(ids, a, x);
      BytesWithout(ids, b, x);
      BytesSame(ids - {x}, a, b);
    }
  }

  ghost predicate Cached(cachedBytes: int, maxBuffers: nat, maxBytes: nat, regions: Regions, place: Places) {
    && (forall id | id in FreeIds(place) :: id in regions)
    && cachedBytes == Bytes(FreeIds(place), regions) <= maxBytes
    && |FreeIds(place)| <= maxBuffers
  }

  // ----- What it means ----------------------------------------------------------------

  /** Two live allocations never share a region. */
  lemma NeverShared(active: Active, place: Places, a: Allocation, b: Allocation)
    requires LivePlaced(active, place) && a in active && b in active && a != b
    ensures active[a].region != active[b].region
  {
  }

  /** Once a region is cached or handed out again, every handle of an earlier allocation fails. */
  lemma StaleHandlesFail(issued: set<Handle>, active: Active, regions: Regions, place: Places, h: Handle)
    requires LivePlaced(active, place) && Issued(issued, active, regions, place) && h in issued
    requires place[h.region].Free? || (place[h.region].Live? && place[h.region].allocation != h.allocation)
    ensures !IsCurrent(h, regions)
  {
  }

  /** A cached region, and a region handed out again, was retired by all who mapped it before. */
  lemma ReuseIsSafe(registered: set<Registration>, acked: set<Registration>, regions: Regions, place: Places,
      r: Registration)
    requires Retired(registered, acked, regions) && Generations(regions, place) && ClosedPlaced(regions, place)
    requires r in registered
    requires place[r.region].Free? || (place[r.region].Live? && r.generation < regions[r.region].generation)
    ensures r in acked
  {
  }
}
