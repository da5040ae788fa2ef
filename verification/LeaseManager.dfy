/**
 The lease part of the buffer manager, with the fields it updates in place. Each method
 is one stretch of code under the manager's lock and is proved to be one event of
 `LeaseRuns`, so everything proved there about runs holds of these methods.
 */
module LeaseManager {
  import opened Leases
  import opened LeaseQueue
  import opened LeaseRuns
  import opened LeaseEffects

  datatype Attempt = Granted(id: nat) | Waiting(id: nat) | NothingToLock | ManagerClosed

  lemma Seam<T>(xs: seq<T>, ys: seq<T>, i: nat)
    requires i < |ys|
    ensures var zs := xs + ys[i..];
      && |zs| > |xs| && zs[..|xs|] == xs && zs[|xs|] == ys[i] && zs[|xs| + 1..] == ys[i + 1..]
      && |zs| - |ys[i..]| == |xs|
  {
  }

  class AccessManager {
    var closed: bool
    var states: map<Key, AccessState>
    var waiters: seq<Waiter>
    var granted: set<nat>       // requests whose flag is set and whose lease is not given back
    var requests: seq<Accesses> // what each caller asked for
    ghost var held: Leased

    ghost predicate Valid()
      reads this
    {
      Counts() && Inv(Model())
    }

    ghost function Model(): Scheduler
      reads this
    {
      Scheduler(closed, held, waiters, requests)
    }

    constructor ()
      ensures Valid() && Model() == START
    {
      closed, states, waiters, granted, requests, held := false, map[], [], {}, [], map[];
    }

    /** Requests with both a read and a write of one key want it once, for writing. */
    static method CollectAccesses(inputs: seq<Key>, outputs: seq<Key>) returns (a: Accesses)
      ensures forall k :: k in a <==> k in inputs || k in outputs
      ensures forall k | k in a :: a[k] <==> k in outputs
    {
      a := map[];
      for i := 0 to |inputs|
        invariant forall k :: k in a <==> k in inputs[..i]
        invariant forall k | k in a :: !a[k]
      {
        if inputs[i] !in a {
          a := a[inputs[i] := false];
        }
      }
      assert inputs[..|inputs|] == inputs;
      for i := 0 to |outputs|
        invariant forall k :: k in a <==> k in inputs || k in outputs[..i]
        invariant forall k | k in a :: a[k] <==> k in outputs[..i]
      {
        a := a[outputs[i] := true];
      }
      assert outputs[..|outputs|] == outputs;
    }

    /** The counters track the leases. */
    ghost predicate Counts()
      reads this
    {
      states == StatesOf(held) && granted == held.Keys
    }

    method CanGrantAccess(a: Accesses) returns (ok: bool)
      requires Counts()
      ensures ok <==> Admits(held, a)
    {
      CountersDecide(held, a);
      var todo := a.Keys;
      while todo != {}
        invariant todo <= a.Keys
        invariant forall k | k in a && k !in todo ::
          k in states ==> !(states[k].writer || (a[k] && states[k].readers != 0))
        decreases todo
      {
        var k :| k in todo;
        if k in states && (states[k].writer || (a[k] && states[k].readers != 0)) {
          return false;
        }
        todo := todo - {k};
      }
      ok := true;
    }

    method TakeAccess(w: Waiter)
      requires Counts() && w.id !in held
      modifies `states, `granted, `held
      ensures Counts() && held == old(held)[w.id := w.accesses]
    {
      TakeTracks(held, w.id, w.accesses);
      CountIn(w.accesses);
      held, granted := held[w.id := w.accesses], granted + {w.id};
    }

    method CountIn(a: Accesses)
      modifies `states
      ensures states == Take(old(states), a, a.Keys)
    {
      var todo := a.Keys;
      while todo != {}
        invariant todo <= a.Keys
        invariant states == Take(old(states), a, a.Keys - todo)
        decreases todo
      {
        var k :| k in todo;
        var state := if k in states then states[k] else IDLE;
        states := states[k := if a[k] then state.(writer := true) else state.(readers := state.readers + 1)];
        todo := todo - {k};
      }
      assert a.Keys - todo == a.Keys;
    }

    method ReleaseAccessLocked(id: nat)
      requires Counts() && id in held && Exclusive(held) && id < |requests| && requests[id] == held[id]
      modifies `states, `granted, `held
      ensures Counts() && held == old(held) - {id}
    {
      DropTracks(held, id);
      CountOut(requests[id]);
      held, granted := held - {id}, granted - {id};
    }

    method CountOut(a: Accesses)
      requires Holds(states, a)
      modifies `states
      ensures states == Drop(old(states), a, a.Keys)
    {
      var todo := a.Keys;
      while todo != {}
        invariant todo <= a.Keys
        invariant states == Drop(old(states), a, a.Keys - todo)
        decreases todo
      {
        var k :| k in todo;
        var state := states[k];
        state := if a[k] then state.(writer := false) else state.(readers := state.readers - 1);
        states := states[k := state];
        if !state.writer && state.readers == 0 {
          states := states - {k};
        }
        todo := todo - {k};
      }
      assert a.Keys - todo == a.Keys;
    }

    /** One round of the pass: the waiter at position `at` of the live queue is granted and
        leaves it, or stays and blocks its keys for those behind it. */
    method OfferTo(w: Waiter, blocked: set<Key>, at: nat, ghost p: Passed) returns (nowBlocked: set<Key>)
      requires Counts() && w.id !in held && held == p.held && blocked == KeysOf(p.left)
      requires at == |p.left| && at < |waiters| && waiters[at] == w && waiters[..at] == p.left
      modifies `states, `waiters, `granted, `held
      ensures Counts() && held == Offered(p, w).held && nowBlocked == KeysOf(Offered(p, w).left)
      ensures waiters == Offered(p, w).left + old(waiters)[at + 1..]
    {
      nowBlocked := blocked;
      var free := CanGrantAccess(w.accesses);
      if blocked !! w.accesses.Keys && free {
        TakeAccess(w);
        waiters := waiters[..at] + waiters[at + 1..];
      } else {
        nowBlocked := blocked + w.accesses.Keys;
        assert waiters == waiters[..at] + [w] + waiters[at + 1..];
      }
    }

    method GrantAccessWaiters()
      requires Counts() && Consistent(Model())
      modifies `states, `waiters, `granted, `held
      ensures Valid() && Model() == Granting(old(Model()))
    {
      GrantingKeeps(Model());
      if !closed {
        PassOverWaiters();
      }
    }

    method PassOverWaiters()
      requires Counts() && Fresh(held, waiters)
      modifies `states, `waiters, `granted, `held
      ensures Counts() && Passed(held, waiters) == Pass(old(held), old(waiters), |old(waiters)|)
    {
      ghost var p := Passed(held, []);
      var snapshot := waiters;
      var blocked: set<Key> := {};
      for i := 0 to |snapshot|
        invariant p == Pass(old(held), snapshot, i) && Counts()
        invariant held == p.held && waiters == p.left + snapshot[i..] && blocked == KeysOf(p.left)
      {
        LaterNotHeld(old(held), snapshot, i, i);
        Seam(p.left, snapshot, i);
        blocked := OfferTo(snapshot[i], blocked, |waiters| - |snapshot[i..]|, p);
        p := Offered(p, snapshot[i]);
      }
    }

    /** A caller asks for its buffers, and sleeps if it gets `Waiting`. */
    method ReserveAccess(inputs: seq<Key>, outputs: seq<Key>) returns (r: Attempt, ghost a: Accesses)
      requires Valid()
      modifies this
      ensures Valid() && Model() == Apply(old(Model()), Reserve(a))
      ensures forall k :: k in a <==> k in inputs || k in outputs
      ensures forall k | k in a :: a[k] <==> k in outputs
      ensures var id := |old(requests)|;
        r == if old(closed) then ManagerClosed else if a == map[] then NothingToLock
             else if id in held then Granted(id) else Waiting(id)
      ensures r.Granted? <==>
        !old(closed) && a != map[] && Admits(old(held), a) && forall w | w in old(waiters) :: w.accesses.Keys !! a.Keys
    {
      hide Pass, Served, Admits, Exclusive;
      var accesses := CollectAccesses(inputs, outputs);
      a := accesses;
      SettledGrants(Model());
      ReserveEffect(Model(), a);
      if closed {
        return ManagerClosed, a;
      }
      if accesses == map[] {
        return NothingToLock, a;
      }
      var id := |requests|;
      PreparedKeeps(Model(), Reserve(a));
      waiters, requests := waiters + [Waiter(id, accesses)], requests + [accesses];
      GrantAccessWaiters();
      r := if id in granted then Granted(id) else Waiting(id);
    }

    /** A sleeping caller wakes up with the lock. */
    method Resume(id: nat) returns (r: Attempt)
      requires Valid() && id < |requests|
      modifies this
      ensures Valid() && Model() == Apply(old(Model()), Wake(id))
      ensures r == if id in old(held) then Granted(id) else if closed then ManagerClosed
                   else if id in held then Granted(id) else Waiting(id)
    {
      SettledGrants(Model());
      if id in granted {
        return Granted(id);
      }
      if closed {
        assert Apply(Model(), Wake(id)) == Apply(Model(), Interrupt(id));
        LeaveWait(id);
        return ManagerClosed;
      }
      GrantAccessWaiters();
      r := if id in granted then Granted(id) else Waiting(id);
    }

    /** The handler a sleeping caller runs when an exception ends its wait. */
    method LeaveWait(id: nat)
      requires Valid() && id < |requests|
      modifies this
      ensures Valid() && Model() == Apply(old(Model()), Interrupt(id))
    {
      hide Pass, RemoveEqual, Consistent, Served;
      if id in granted {
        ReleaseAccess(id);
      } else {
        var at := FirstEqual(waiters, requests[id]);
        if at == |waiters| {
          SettledGrants(Model());
          return;
        }
        RemovingKeeps(Model(), requests[id]);
        waiters := waiters[..at] + waiters[at + 1..];
        GrantAccessWaiters();
      }
    }

    static method FirstEqual(ws: seq<Waiter>, a: Accesses) returns (at: nat)
      ensures at <= |ws| && (at == |ws| <==> !Queues(ws, a))
      ensures at < |ws| ==> RemoveEqual(ws, a) == ws[..at] + ws[at + 1..]
    {
      at := 0;
      while at < |ws| && ws[at].accesses != a
        invariant at <= |ws| && forall j | 0 <= j < at :: ws[j].accesses != a
      {
        at := at + 1;
      }
      if at < |ws| {
        assert ws[at] in ws;
        var first := RemovesFirst(ws, a);
        assert first == at;
      }
    }

    method ReleaseAccess(id: nat)
      requires Valid() && id in held
      modifies this
      ensures Valid() && Model() == Apply(old(Model()), Release(id))
      ensures id !in held && Served(old(held) - {id}, old(waiters), Model())
      ensures forall x | x in old(held) && x != id :: x in held && held[x] == old(held[x])
    {
      hide Pass, Fresh, Stuck, Served;
      ReleaseEffect(Model(), id);
      PreparedKeeps(Model(), Release(id));
      ReleaseAccessLocked(id);
      GrantAccessWaiters();
    }

    method CloseManager()
      requires Valid()
      modifies this
      ensures Valid() && Model() == Apply(old(Model()), Close)
    {
      closed := true;
    }
  }

  lemma SettledGrants(s: Scheduler)
    requires Inv(s)
    ensures Granting(s) == s
  {
  }

  class BufferAccessLease {
    var manager: AccessManager?
    const id: nat

    constructor (m: AccessManager, id: nat)
      requires id in m.held
      ensures manager == m && this.id == id
    {
      manager, this.id := m, id;
    }

    /** Gives the lease back once; every further call changes nothing. */
    method Release()
      requires manager != null ==> manager.Valid() && id in manager.held
      modifies this, manager
      ensures manager == null
      ensures old(manager) == null ==> unchanged(this)
      ensures old(manager) != null ==>
        && old(manager).Valid() && old(manager).Model() == Apply(old(manager.Model()), LeaseRuns.Release(id))
        && id !in old(manager).held
    {
      var m := manager;
      if m == null {
        return;
      }
      manager := null;
      m.ReleaseAccess(id);
    }
  }
}
