/**
 What each step of the mapping protocol does to leases, phases and mappings, and what it leaves
 alone: a request mapped is found until its invocation ends, whatever others do.
 */
module MappingEffects {
  import opened MappingTables
  import opened MappingMirror

  /** Neither buffers nor leases nor what is wanted changes. */
  ghost predicate SameClaims(u: World, v: World) {
    v.buffers == u.buffers && v.leases == u.leases && v.wanted == u.wanted
  }

  /** Mapping leaves every requested buffer mapped for its invocation, and takes nothing from anybody. */
  lemma MapAllEffect(u: World, i: nat, requests: seq<Request>)
    requires Inv(u) && Enabled(u, MapAll(i, requests))
    ensures var v := Do(u, MapAll(i, requests));
      && !v.refused && v.buffers == u.buffers && v.leases == u.leases && v.phases == u.phases
      && (forall r | r in requests ::
            Lease(i, r.bufferId, r.writable) in v.wanted && Found(v, Lease(i, r.bufferId, r.writable)))
      && (forall l :: l in v.wanted <==>
                      l in u.wanted || exists r :: r in requests && l == Lease(i, r.bufferId, r.writable))
      && (forall r | r in requests && !u.buffers[r.bufferId].arena :: r.bufferId in v.registered)
  {
    DoKeeps(u, MapAll(i, requests));
    var v := Do(u, MapAll(i, requests));
    forall r | r in requests
      ensures Lease(i, r.bufferId, r.writable) in v.wanted && Found(v, Lease(i, r.bufferId, r.writable))
    {
      WantedFound(v, Lease(i, r.bufferId, r.writable));
    }
  }

  /** A retired buffer is mapped nowhere any more, and every other mapping stays. */
  lemma RetireAllEffect(u: World, keys: seq<MapKey>)
    requires Inv(u) && Enabled(u, RetireAll(keys))
    ensures var v := Do(u, RetireAll(keys));
      && !v.refused && SameClaims(u, v) && v.phases == u.phases
      && (forall k | k in keys :: k.bufferId !in v.worker && k !in v.host && k.bufferId !in v.registered)
      && (forall k | k in u.host && k !in keys :: k in v.host && v.host[k] == u.host[k])
      && (forall b | b in u.registered && (forall k | k in keys :: k.bufferId != b) :: b in v.registered)
  {
    hide Retired, Exclusive, Owned, AllProvided, LeasesHeld;
    RetiredKeeps(u, keys);
    RetiredFields(u, keys);
    KeysUnshared(u, keys);
    var v := Do(u, RetireAll(keys));
    forall k | k in keys
      ensures k !in v.host && k.bufferId !in v.worker
    {
      assert k.bufferId in v.worker ==> KeyOf(v.worker[k.bufferId]) == k;
    }
  }

  lemma KeysUnshared(u: World, keys: seq<MapKey>)
    requires Inv(u) && Enabled(u, RetireAll(keys))
    ensures forall k | k in keys && k in u.host :: !u.host[k].arena
  {
  }

  /** An aborted invocation owns nothing any more; what others have mapped stays. */
  lemma AbortEffect(u: World, i: nat, keys: seq<MapKey>)
    requires Inv(u) && Enabled(u, Abort(i, keys))
    ensures var v := Do(u, Abort(i, keys));
      && !v.refused && SameClaims(u, v) && v.phases == u.phases[i := Completed]
      && (forall k :: k in v.host <==> k in u.host && !OwnedBy(u.host[k], i))
      && (forall k | k in v.host :: v.host[k] == u.host[k])
  {
    hide Retired, Exclusive, Owned, AllProvided, LeasesHeld;
    RetiredKeeps(u, keys);
    RetiredFields(u, keys);
  }

  /** The worker forgets exactly what the invocation owned, and the host hears of it later. */
  lemma FinishEffect(u: World, i: nat)
    requires Inv(u) && Enabled(u, Finish(i))
    ensures var v := Do(u, Finish(i));
      && SameClaims(u, v) && v.host == u.host && v.phases == u.phases[i := Done]
      && (forall b :: b in v.worker <==> b in u.worker && !OwnedBy(u.worker[b], i))
      && (forall b | b in v.worker :: v.worker[b] == u.worker[b])
  {
  }

  lemma CompleteEffect(u: World, i: nat)
    requires Inv(u) && Enabled(u, Complete(i))
    ensures var v := Do(u, Complete(i));
      && SameClaims(u, v) && v.worker == u.worker && v.phases == u.phases[i := Completed]
      && (forall k :: k in v.host <==> k in u.host && !OwnedBy(u.host[k], i))
      && (forall k | k in v.host :: v.host[k] == u.host[k])
  {
  }

  /** The end of an invocation frees exactly its leases. */
  lemma EndEffect(u: World, i: nat)
    requires Inv(u) && Enabled(u, End(i))
    ensures var v := Do(u, End(i));
      && v.host == u.host && v.worker == u.worker && v.buffers == u.buffers && v.phases == u.phases - {i}
      && (forall l :: l in v.leases <==> l in u.leases && l.invocation != i)
      && (forall l :: l in v.wanted <==> l in u.wanted && l.invocation != i)
  {
  }

  /** A buffer starts its next generation unmapped: no handle of the last one finds anything. */
  lemma RecycleEffect(u: World, b: nat, allocation: nat)
    requires Inv(u) && Enabled(u, Recycle(b, allocation))
    ensures var v := Do(u, Recycle(b, allocation));
      && v.host == u.host && v.worker == u.worker && v.leases == u.leases && v.phases == u.phases
      && v.buffers[b].generation > u.buffers[b].generation && v.buffers[b].allocationId == allocation
      && v.buffers - {b} == u.buffers - {b} && b !in v.worker
  {
  }

  /** Starting, leasing and dispatching touch no mapping. */
  lemma ClaimsEffect(u: World, step: Step)
    requires Enabled(u, step) && (step.Create? || step.Begin? || step.Acquire? || step.Dispatch?)
    ensures var v := Do(u, step);
      && v.host == u.host && v.worker == u.worker && v.wanted == u.wanted && v.refused == u.refused
      && v.leases == (if step.Acquire? then u.leases + {step.lease} else u.leases)
      && (step.Begin? ==> v.phases == u.phases[step.invocation := Preparing])
      && (step.Dispatch? ==> v.phases == u.phases[step.invocation := Dispatched])
      && (step.Create? ==> v.buffers == u.buffers[step.bufferId := step.buffer])
  {
  }

  lemma WantedStays(u: World, step: Step, l: Lease)
    requires Inv(u) && Enabled(u, step) && l in u.wanted && step != End(l.invocation)
    ensures l in Do(u, step).wanted
  {
  }

  /** What an invocation mapped is found in every state until it ends, whatever is done in between. */
  lemma {:induction false} FoundUntilEnd(u: World, steps: seq<Step>, l: Lease)
    requires Inv(u) && Runs(u, steps) && l in u.wanted && End(l.invocation) !in steps
    ensures l in After(u, steps).wanted
    ensures Running(After(u, steps).phases, l.invocation) ==> Found(After(u, steps), l)
    decreases |steps|
  {
    hide Inv, Do, Enabled;
    if steps != [] {
      WantedStays(u, steps[0], l);
      DoKeeps(u, steps[0]);
      FoundUntilEnd(Do(u, steps[0]), steps[1..], l);
    } else if Running(u.phases, l.invocation) {
      WantedFound(u, l);
    }
  }

  lemma Onwards(u: World, first: Step, rest: seq<Step>)
    requires Enabled(u, first) && Runs(Do(u, first), rest)
    ensures Runs(u, [first] + rest) && After(u, [first] + rest) == After(Do(u, first), rest)
  {
    assert ([first] + rest)[1..] == rest;
  }

  lemma NoMore(u: World)
    ensures Runs(u, []) && After(u, []) == u
  {
  }

  /** A first invocation leases a new buffer, maps it and finds it. */
  lemma FirstMapping(b: nat, buffer: Buffer, i: nat, writable: bool) returns (steps: seq<Step>)
    requires buffer.byteLength > 0 && !buffer.arena
    ensures Runs(START, steps) && Found(After(START, steps), Lease(i, b, writable))
    ensures Running(After(START, steps).phases, i)
  {
    hide Runs, After, Mapped, Found, Inv;
    var l, r := Lease(i, b, writable), Request(b, buffer.allocationId, writable);
    var u1 := START.(buffers := map[b := buffer]);
    var u2 := u1.(phases := map[i := Preparing]);
    var u3 := u2.(leases := {l});
    assert Do(START, Create(b, buffer)) == u1 && Do(u1, Begin(i)) == u2 && Do(u2, Acquire(l)) == u3;
    assert Allowed(u3, i, r);
    var last := MapAll(i, [r]);
    ThreeKeep(u1, u2, u3, b, buffer, i, l);
    MapAllEffect(u3, i, [r]);
    assert r in [r];
    NoMore(Do(u3, last));
    Onwards(u3, last, []);
    Onwards(u2, Acquire(l), [last] + []);
    Onwards(u1, Begin(i), [Acquire(l)] + ([last] + []));
    Onwards(START, Create(b, buffer), [Begin(i)] + ([Acquire(l)] + ([last] + [])));
    steps := [Create(b, buffer)] + ([Begin(i)] + ([Acquire(l)] + ([last] + [])));
  }

  lemma ThreeKeep(u1: World, u2: World, u3: World, b: nat, buffer: Buffer, i: nat, l: Lease)
    requires Enabled(START, Create(b, buffer)) && u1 == Do(START, Create(b, buffer))
    requires Enabled(u1, Begin(i)) && u2 == Do(u1, Begin(i)) && Enabled(u2, Acquire(l)) && u3 == Do(u2, Acquire(l))
    ensures Inv(u3)
  {
    hide Do, Enabled;
    assert Inv(START);
    DoKeeps(START, Create(b, buffer));
    DoKeeps(u1, Begin(i));
    DoKeeps(u2, Acquire(l));
  }
}
