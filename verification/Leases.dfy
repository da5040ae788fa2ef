/**
 Read and write access leases over shared buffers: a first-in first-out queue of
 requests, each of which takes all its keys at once or none of them.

 A lease is known by the identity of its request. `held` maps each granted and not
 yet released lease to the keys it locks; the scheduler itself only keeps the counters
 of `AccessState`, which `StatesOf` derives from the leases.
 */
module Leases {

  datatype Key = Key(bufferId: nat, generation: nat, allocationId: nat)

  /** What one request wants: each key, and whether it is to be written. */
  type Accesses = map<Key, bool>

  datatype AccessState = AccessState(readers: nat, writer: bool)

  datatype Waiter = Waiter(id: nat, accesses: Accesses)

  type Leased = map<nat, Accesses>

  const IDLE := AccessState(0, false)

  // ----- Counters and the leases they stand for ---------------------------------------

  ghost predicate Compatible(a: Accesses, b: Accesses) {
    forall k | k in a && k in b :: !a[k] && !b[k]
  }

  ghost predicate Admits(held: Leased, a: Accesses) {
    forall id | id in held :: Compatible(held[id], a)
  }

  /** A writer excludes every other holder of its key. */
  ghost predicate Exclusive(held: Leased) {
    forall i, j | i in held && j in held && i != j :: Compatible(held[i], held[j])
  }

  ghost function Readers(held: Leased, k: Key): set<nat> {
    set id | id in held && k in held[id] && !held[id][k]
  }

  ghost function Writers(held: Leased, k: Key): set<nat> {
    set id | id in held && k in held[id] && held[id][k]
  }

  ghost function Touched(held: Leased): set<Key> {
    set id, k | id in held && k in held[id] :: k
  }

  ghost function StatesOf(held: Leased): map<Key, AccessState> {
    map k | k in Touched(held) :: AccessState(|Readers(held, k)|, Writers(held, k) != {})
  }

  predicate CanGrant(states: map<Key, AccessState>, a: Accesses) {
    forall k | k in a :: k in states ==> !(states[k].writer || (a[k] && states[k].readers != 0))
  }

  function TakenState(st: AccessState, writable: bool): AccessState {
    if writable then st.(writer := true) else st.(readers := st.readers + 1)
  }

  function DroppedState(st: AccessState, writable: bool): AccessState
    requires !writable ==> st.readers > 0
  {
    if writable then st.(writer := false) else st.(readers := st.readers - 1)
  }

  lemma KeyMembers(held: Leased, k: Key)
    ensures k in Touched(held) <==> Readers(held, k) + Writers(held, k) != {}
    ensures forall id | id in held && k in held[id] :: id in if held[id][k] then Writers(held, k) else Readers(held, k)
  {
    if k in Touched(held) {
      var id :| id in held && k in held[id];
      assert id in Readers(held, k) + Writers(held, k);
    }
    if Readers(held, k) + Writers(held, k) != {} {
      var id :| id in Readers(held, k) + Writers(held, k);
      assert id in held && k in held[id];
    }
  }

  /** The counters decide exactly what the held leases allow. */
  lemma CountersDecide(held: Leased, a: Accesses)
    ensures CanGrant(StatesOf(held), a) <==> Admits(held, a)
  {
    forall k | k in a
      ensures (k in StatesOf(held) ==>
                 !StatesOf(held)[k].writer && !(a[k] && StatesOf(held)[k].readers != 0))
         <==> forall id | id in held && k in held[id] :: !held[id][k] && !a[k]
    {
      KeyMembers(held, k);
    }
  }

  function StateAt(states: map<Key, AccessState>, k: Key): AccessState {
    if k in states then states[k] else IDLE
  }

  /** Counters after the keys of `done`, a part of `a`, were taken. */
  function Take(states: map<Key, AccessState>, a: Accesses, done: set<Key>): map<Key, AccessState>
    requires done <= a.Keys
  {
    map k | k in states.Keys + done ::
      if k in done then TakenState(StateAt(states, k), a[k]) else states[k]
  }

  ghost predicate Holds(states: map<Key, AccessState>, a: Accesses) {
    forall k | k in a :: k in states && (if a[k] then states[k].writer else states[k].readers > 0)
  }

  /** Counters after the keys of `done`, a part of `a`, were given back. */
  ghost function Drop(states: map<Key, AccessState>, a: Accesses, done: set<Key>): map<Key, AccessState>
    requires Holds(states, a) && done <= a.Keys
  {
    map k | k in states && (k in done ==> DroppedState(states[k], a[k]) != IDLE) ::
      if k in done then DroppedState(states[k], a[k]) else states[k]
  }

  lemma MembersAfterTake(held: Leased, id: nat, a: Accesses, k: Key)
    requires id !in held
    ensures Readers(held[id := a], k) == Readers(held, k) + if k in a && !a[k] then {id} else {}
    ensures Writers(held[id := a], k) == Writers(held, k) + if k in a && a[k] then {id} else {}
    ensures id !in Readers(held, k) + Writers(held, k)
  {
    assert forall i | i in held :: held[id := a][i] == held[i];
  }

  lemma TakeAt(held: Leased, id: nat, a: Accesses, k: Key)
    requires id !in held
    ensures k in Touched(held[id := a]) <==> k in Touched(held) || k in a
    ensures StateAt(StatesOf(held[id := a]), k)
         == if k in a then TakenState(StateAt(StatesOf(held), k), a[k]) else StateAt(StatesOf(held), k)
  {
    KeyMembers(held, k);
    KeyMembers(held[id := a], k);
    MembersAfterTake(held, id, a, k);
    var readers, writers := Readers(held, k), Writers(held, k);
    assert StateAt(StatesOf(held), k) == AccessState(|readers|, writers != {});
    assert StateAt(StatesOf(held[id := a]), k)
        == AccessState(|Readers(held[id := a], k)|, Writers(held[id := a], k) != {});
  }

  /** Counting a request in gives the counters of the leases with it added. */
  lemma TakeTracks(held: Leased, id: nat, a: Accesses)
    requires id !in held
    ensures Take(StatesOf(held), a, a.Keys) == StatesOf(held[id := a])
  {
    forall k ensures k in Touched(held[id := a]) <==> k in Touched(held) || k in a
    {
      TakeAt(held, id, a, k);
    }
    forall k | k in Touched(held[id := a])
      ensures Take(StatesOf(held), a, a.Keys)[k] == StatesOf(held[id := a])[k]
    {
      TakeAt(held, id, a, k);
    }
  }

  lemma HeldCounted(held: Leased, id: nat)
    requires id in held
    ensures Holds(StatesOf(held), held[id])
  {
    forall k | k in held[id]
      ensures k in Touched(held)
      ensures if held[id][k] then Writers(held, k) != {} else |Readers(held, k)| > 0
    {
      KeyMembers(held, k);
    }
  }

  lemma MembersAfterDrop(held: Leased, id: nat, k: Key)
    requires id in held && Exclusive(held)
    ensures Readers(held - {id}, k) == Readers(held, k) - {id}
    ensures Writers(held - {id}, k) == Writers(held, k) - {id}
    ensures k in held[id] && held[id][k] ==> Writers(held, k) == {id} && Readers(held, k) == {}
    ensures k in held[id] && !held[id][k] ==> Writers(held, k) == {} && id in Readers(held, k)
  {
    assert forall i | i in held && i != id :: Compatible(held[i], held[id]);
  }

  lemma DropAt(held: Leased, id: nat, k: Key)
    requires id in held && Exclusive(held) && k in Touched(held)
    ensures Holds(StatesOf(held), held[id])
    ensures var a, st := held[id], StatesOf(held)[k];
      && (k in Touched(held - {id}) <==> !(k in a && DroppedState(st, a[k]) == IDLE))
      && (k in Touched(held - {id}) ==>
            StatesOf(held - {id})[k] == if k in a then DroppedState(st, a[k]) else st)
  {
    HeldCounted(held, id);
    KeyMembers(held, k);
    KeyMembers(held - {id}, k);
    MembersAfterDrop(held, id, k);
    var readers, writers := Readers(held, k), Writers(held, k);
    assert StatesOf(held)[k] == AccessState(|readers|, writers != {});
    if k in held[id] {
      assert held[id][k] ==> writers - {id} == {};
      assert !held[id][k] ==> |readers - {id}| == |readers| - 1;
    } else {
      assert id !in readers && id !in writers;
    }
  }

  /** Counting a lease out gives the counters of the leases without it. */
  lemma DropTracks(held: Leased, id: nat)
    requires id in held && Exclusive(held)
    ensures Holds(StatesOf(held), held[id])
    ensures Drop(StatesOf(held), held[id], held[id].Keys) == StatesOf(held - {id})
  {
    hide Readers, Writers, Compatible, DroppedState;
    HeldCounted(held, id);
    forall k | k in Touched(held)
      ensures k in Drop(StatesOf(held), held[id], held[id].Keys) <==> k in Touched(held - {id})
      ensures k in Touched(held - {id}) ==>
        Drop(StatesOf(held), held[id], held[id].Keys)[k] == StatesOf(held - {id})[k]
    {
      DropAt(held, id, k);
    }
    assert Touched(held - {id}) <= Touched(held);
  }
}
