/**
 The two tables of the mapping protocol. The host records what it believes the worker has mapped,
 by buffer and generation; the worker keeps one mapping per buffer. The host turns requests into
 batches of MAP and RETIRE entries, which the worker applies one by one or refuses.
 */
module MappingTables {
  import opened Wrappers

  datatype Spec = Spec(
    bufferId: nat, generation: nat, allocationId: nat, byteLength: nat,
    writable: bool, arena: bool, invocationId: nat)

  datatype MapKey = MapKey(bufferId: nat, generation: nat)

  datatype Entry = Map(spec: Spec) | Retire(bufferId: nat, generation: nat, allocationId: nat)

  type HostTable = map<MapKey, Spec>
  type WorkerTable = map<nat, Spec>

  datatype Applied = Applied(table: WorkerTable) | Refused

  function KeyOf(s: Spec): MapKey {
    MapKey(s.bufferId, s.generation)
  }

  // ----- The worker -------------------------------------------------------------------

  /** An existing mapping serves a repeated request. */
  predicate Serves(current: Spec, s: Spec) {
    && current.generation == s.generation && (current.writable || !s.writable) && current.arena == s.arena
    && (s.arena || current.allocationId == s.allocationId)
  }

  function ApplyMap(w: WorkerTable, s: Spec): Applied {
    if s.byteLength == 0 then Refused
    else if s.bufferId !in w then Applied(w[s.bufferId := s])
    else if Serves(w[s.bufferId], s) then Applied(w)
    else Refused
  }

  function ApplyRetire(w: WorkerTable, bufferId: nat, generation: nat, allocationId: nat): Applied {
    if bufferId !in w then Applied(w)
    else if w[bufferId].generation != generation || w[bufferId].allocationId != allocationId then Refused
    else if w[bufferId].arena then Refused
    else Applied(w - {bufferId})
  }

  function ApplyOne(w: WorkerTable, e: Entry): Applied {
    match e
    case Map(s) => ApplyMap(w, s)
    case Retire(b, g, a) => ApplyRetire(w, b, g, a)
  }

  /** The first `n` entries in order; a refused entry refuses everything after it. */
  function Apply(w: WorkerTable, entries: seq<Entry>, n: nat): Applied
    requires n <= |entries|
  {
    if n == 0 then Applied(w)
    else match Apply(w, entries, n - 1)
      case Refused => Refused
      case Applied(t) => ApplyOne(t, entries[n - 1])
  }

  /** Writable mappings outside the arena belong to one invocation. */
  predicate OwnedBy(s: Spec, invocation: nat) {
    s.writable && !s.arena && s.invocationId == invocation
  }

  function Finished(w: WorkerTable, invocation: nat): WorkerTable {
    map b | b in w && !OwnedBy(w[b], invocation) :: w[b]
  }

  /** The worker's checks before it looks at the view a tensor descriptor asks for. */
  predicate Finds(w: WorkerTable, bufferId: nat, generation: nat, allocationId: nat, invocation: nat, writable: bool) {
    && bufferId in w
    && w[bufferId].generation == generation
    && (w[bufferId].arena || w[bufferId].allocationId == allocationId)
    && (writable ==> w[bufferId].writable)
    && (writable && !w[bufferId].arena ==> w[bufferId].invocationId == invocation)
  }

  lemma {:induction false} ApplyPrefix(w: WorkerTable, a: seq<Entry>, b: seq<Entry>, n: nat)
    requires n <= |a| && n <= |b| && forall i | 0 <= i < n :: a[i] == b[i]
    ensures Apply(w, a, n) == Apply(w, b, n)
  {
    if n > 0 {
      ApplyPrefix(w, a, b, n - 1);
    }
  }

  /** Entries may be sent in any number of batches: applying them in pieces is applying them all. */
  lemma {:induction false} ApplyPieces(w: WorkerTable, a: seq<Entry>, b: seq<Entry>)
    ensures Apply(w, a + b, |a + b|) ==
      match Apply(w, a, |a|) case Refused => Refused case Applied(t) => Apply(t, b, |b|)
    decreases |b|
  {
    if b == [] {
      assert a + b == a;
    } else {
      var front := b[..|b| - 1];
      ApplyPieces(w, a, front);
      assert (a + b)[..|a + b| - 1] == a + front;
      ApplyPrefix(w, a + b, a + front, |a + front|);
      match Apply(w, a, |a|)
      case Refused =>
      case Applied(t) => ApplyPrefix(t, b, front, |front|);
    }
  }

  // ----- The host ---------------------------------------------------------------------

  predicate Needed(h: HostTable, s: Spec) {
    KeyOf(s) !in h || (!h[KeyOf(s)].writable && s.writable)
  }

  function RetireOf(s: Spec): Entry {
    Retire(s.bufferId, s.generation, s.allocationId)
  }

  function EntriesFor(h: HostTable, s: Spec): seq<Entry> {
    if !Needed(h, s) then []
    else if KeyOf(s) in h then [RetireOf(h[KeyOf(s)]), Map(s)]
    else [Map(s)]
  }

  function Requested(h: HostTable, s: Spec): HostTable {
    if Needed(h, s) then h[KeyOf(s) := s] else h
  }

  function AllRequested(h: HostTable, specs: seq<Spec>, n: nat): HostTable
    requires n <= |specs|
  {
    if n == 0 then h else Requested(AllRequested(h, specs, n - 1), specs[n - 1])
  }

  function Sent(h: HostTable, specs: seq<Spec>, n: nat): seq<Entry>
    requires n <= |specs|
  {
    if n == 0 then [] else Sent(h, specs, n - 1) + EntriesFor(AllRequested(h, specs, n - 1), specs[n - 1])
  }

  /** The recorded mappings a retirement names, shared arenas left alone. */
  function Active(h: HostTable, keys: seq<MapKey>, n: nat): seq<Spec>
    requires n <= |keys|
  {
    if n == 0 then []
    else
      var k := keys[n - 1];
      Active(h, keys, n - 1) + if k in h && !h[k].arena then [h[k]] else []
  }

  function Retirements(specs: seq<Spec>): seq<Entry> {
    seq(|specs|, i requires 0 <= i < |specs| => RetireOf(specs[i]))
  }

  function Without(h: HostTable, specs: seq<Spec>): HostTable {
    map k | k in h && (forall s | s in specs :: KeyOf(s) != k) :: h[k]
  }

  function Dropped(h: HostTable, invocation: nat): HostTable {
    map k | k in h && !OwnedBy(h[k], invocation) :: h[k]
  }

  // ----- The code that keeps the tables -----------------------------------------------

  function Maps(entries: seq<Entry>, n: nat): nat
    requires n <= |entries|
  {
    Count((e: Entry) => e.Map?, entries, n)
  }

  /** The descriptor of a MAP entry has the size the entry names. */
  predicate SizeFits(entries: seq<Entry>, fdSizes: seq<nat>, i: nat)
    requires i < |entries|
  {
    entries[i].Map? ==> Maps(entries, i) < |fdSizes| && fdSizes[Maps(entries, i)] == entries[i].spec.byteLength
  }

  predicate SizesMatch(entries: seq<Entry>, fdSizes: seq<nat>) {
    |fdSizes| == Maps(entries, |entries|) && forall i | 0 <= i < |entries| :: SizeFits(entries, fdSizes, i)
  }

  class WorkerCache {
    var buffers: WorkerTable

    constructor ()
      ensures buffers == map[]
    {
      buffers := map[];
    }

    /** Maps a descriptor of a certain size; the map itself goes by what the entry says. */
    method Map(s: Spec, fdSize: nat) returns (ok: bool)
      modifies this
      ensures ok <==> fdSize == s.byteLength && ApplyMap(old(buffers), s).Applied?
      ensures ok <==>
        && fdSize == s.byteLength > 0
        && (s.bufferId in old(buffers) ==>
              var there := old(buffers)[s.bufferId];
              there.arena == s.arena &&
              Finds(old(buffers), s.bufferId, s.generation, s.allocationId, there.invocationId, s.writable))
      ensures ok ==> buffers == if s.bufferId in old(buffers) then old(buffers) else old(buffers)[s.bufferId := s]
      ensures ok ==> Applied(buffers) == ApplyMap(old(buffers), s) && s.bufferId in buffers
      ensures ok ==>
        Finds(buffers, s.bufferId, s.generation, s.allocationId, buffers[s.bufferId].invocationId, s.writable)
      ensures !ok ==> buffers == old(buffers)
      ensures buffers - {s.bufferId} == old(buffers) - {s.bufferId}
    {
      if s.byteLength == 0 || fdSize != s.byteLength {
        return false;
      }
      if s.bufferId in buffers {
        var current := buffers[s.bufferId];
        return current.generation == s.generation && (current.writable || !s.writable) && current.arena == s.arena &&
               (s.arena || current.allocationId == s.allocationId);
      }
      buffers := buffers[s.bufferId := s];
      ok := true;
    }

    method Retire(bufferId: nat, generation: nat, allocationId: nat) returns (ok: bool)
      modifies this
      ensures
        if ok then Applied(buffers) == ApplyRetire(old(buffers), bufferId, generation, allocationId)
        else ApplyRetire(old(buffers), bufferId, generation, allocationId) == Refused
      ensures ok <==> (bufferId in old(buffers) ==>
                         var there := old(buffers)[bufferId];
                         !there.arena && there.generation == generation && there.allocationId == allocationId)
      ensures !ok ==> buffers == old(buffers)
      ensures ok ==> buffers == old(buffers) - {bufferId}
    {
      if bufferId !in buffers {
        return true;
      }
      var spec := buffers[bufferId];
      if spec.generation != generation || spec.allocationId != allocationId || spec.arena {
        return false;
      }
      buffers := buffers - {bufferId};
      ok := true;
    }

    /**
     One packet of entries with the sizes of its descriptors, which go to the MAP entries in turn. The
     first refusal empties the cache and ends the session.
     */
    method Receive(entries: seq<Entry>, fdSizes: seq<nat>) returns (ok: bool)
      modifies this
      ensures ok <==> SizesMatch(entries, fdSizes) && Apply(old(buffers), entries, |entries|).Applied?
      ensures ok ==> Applied(buffers) == Apply(old(buffers), entries, |entries|)
      ensures !ok ==> buffers == map[]
    {
      if |fdSizes| != Maps(entries, |entries|) {
        buffers := map[];
        return false;
      }
      var n, used := 0, 0;
      while n < |entries|
        invariant 0 <= n <= |entries| && used == Maps(entries, n)
        invariant Apply(old(buffers), entries, n) == Applied(buffers)
        invariant forall i | 0 <= i < n :: SizeFits(entries, fdSizes, i)
      {
        CountGrows((e: Entry) => e.Map?, entries, n + 1, |entries|);
        match entries[n] {
          case Map(s) =>
            ok := Map(s, fdSizes[used]);
            used := used + 1;
          case Retire(b, g, a) => ok := Retire(b, g, a);
        }
        if !ok {
          if Apply(old(buffers), entries, n + 1).Refused? {
            RefusalStays(old(buffers), entries, n + 1);
          } else {
            assert !SizeFits(entries, fdSizes, n);
          }
          buffers := map[];
          return;
        }
        n := n + 1;
      }
      ok := true;
    }

    method FinishInvocation(invocation: nat)
      modifies this
      ensures buffers == Finished(old(buffers), invocation)
    {
      var left := buffers.Keys;
      while left != {}
        invariant left <= old(buffers).Keys
        invariant buffers ==
                  map b | b in old(buffers) && (b in left || !OwnedBy(old(buffers)[b], invocation)) :: old(buffers)[b]
        decreases |left|
      {
        var b :| b in left;
        if buffers[b].writable && !buffers[b].arena && buffers[b].invocationId == invocation {
          buffers := buffers - {b};
        }
        left := left - {b};
      }
    }
  }

  lemma {:induction false} RefusalStays(w: WorkerTable, entries: seq<Entry>, n: nat)
    requires n <= |entries| && Apply(w, entries, n) == Refused
    ensures Apply(w, entries, |entries|) == Refused
    decreases |entries| - n
  {
    if n < |entries| {
      RefusalStays(w, entries, n + 1);
    }
  }

  class HostMappings {
    var mappings: HostTable

    constructor ()
      ensures mappings == map[]
    {
      mappings := map[];
    }

    method Request(s: Spec) returns (batch: seq<Entry>, needed: bool)
      modifies this
      ensures mappings == Requested(old(mappings), s)
      ensures batch == EntriesFor(old(mappings), s)
      ensures needed == Needed(old(mappings), s)
      ensures KeyOf(s) in mappings && (s.writable ==> mappings[KeyOf(s)].writable)
      ensures mappings - {KeyOf(s)} == old(mappings) - {KeyOf(s)}
      ensures needed <==> !(KeyOf(s) in old(mappings) && (s.writable ==> old(mappings)[KeyOf(s)].writable))
      ensures needed ==> mappings[KeyOf(s)] == s && batch != [] && batch[|batch| - 1] == Entry.Map(s)
      ensures needed && KeyOf(s) in old(mappings) ==>
        var there := old(mappings)[KeyOf(s)];
        batch[..|batch| - 1] == [Entry.Retire(there.bufferId, there.generation, there.allocationId)]
      ensures needed && KeyOf(s) !in old(mappings) ==> |batch| == 1
      ensures !needed ==> batch == [] && mappings == old(mappings)
    {
      var key := MapKey(s.bufferId, s.generation);
      needed := key !in mappings || (!mappings[key].writable && s.writable);
      batch := [];
      if needed {
        if key in mappings {
          batch := batch + [RetireOf(mappings[key])];
        }
        batch := batch + [Entry.Map(s)];
        mappings := mappings[key := s];
      }
    }

    /** The batch to send and which requests it carries; the caller sends it before anything else. */
    method MapBuffers(specs: seq<Spec>) returns (entries: seq<Entry>, needed: seq<bool>)
      modifies this
      ensures mappings == AllRequested(old(mappings), specs, |specs|)
      ensures entries == Sent(old(mappings), specs, |specs|)
      ensures |needed| == |specs|
      ensures forall i | 0 <= i < |specs| :: needed[i] == Needed(AllRequested(old(mappings), specs, i), specs[i])
    {
      hide KeyOf, EntriesFor, Needed, Requested;
      entries, needed := [], [];
      for n := 0 to |specs|
        invariant mappings == AllRequested(old(mappings), specs, n)
        invariant entries == Sent(old(mappings), specs, n)
        invariant |needed| == n
        invariant forall i | 0 <= i < n :: needed[i] == Needed(AllRequested(old(mappings), specs, i), specs[i])
      {
        var batch, isNeeded := Request(specs[n]);
        entries := entries + batch;
        needed := needed + [isNeeded];
      }
    }

    /** What a retirement sends; the entries are erased once the worker has acknowledged them. */
    method CollectActive(keys: seq<MapKey>) returns (active: seq<Spec>)
      ensures active == Active(mappings, keys, |keys|)
    {
      active := [];
      for n := 0 to |keys|
        invariant active == Active(mappings, keys, n)
      {
        if keys[n] in mappings && !mappings[keys[n]].arena {
          active := active + [mappings[keys[n]]];
        }
      }
    }

    method Erase(active: seq<Spec>)
      modifies this
      ensures mappings == Without(old(mappings), active)
    {
      for n := 0 to |active|
        invariant mappings == Without(old(mappings), active[..n])
      {
        mappings := mappings - {KeyOf(active[n])};
        assert active[..n + 1] == active[..n] + [active[n]];
      }
      assert active[..|active|] == active;
    }

    method DropInvocation(invocation: nat)
      modifies this
      ensures mappings == Dropped(old(mappings), invocation)
    {
      var left := mappings.Keys;
      while left != {}
        invariant left <= old(mappings).Keys
        invariant mappings ==
                  map k | k in old(mappings) && (k in left || !OwnedBy(old(mappings)[k], invocation)) ::
                    old(mappings)[k]
        decreases |left|
      {
        var k :| k in left;
        if !mappings[k].arena && mappings[k].writable && mappings[k].invocationId == invocation {
          mappings := mappings - {k};
        }
        left := left - {k};
      }
    }
  }
}
