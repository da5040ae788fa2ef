/**
 What each event of the lease scheduler does, said of the leases and the queue before and after it:
 who holds, who waits, and that the description leaves no choice.
 */
module LeaseEffects {
  import opened Leases
  import opened LeaseQueue
  import opened LeaseRuns

  /**
   From the leases `held` the queue `ws` is served first come, first served: a request is granted
   exactly when it goes together with every lease and with every request granted ahead of it, and
   shares no key with one left waiting ahead of it. A closed manager grants nothing.
   */
  ghost predicate Served(held: Leased, ws: seq<Waiter>, t: Scheduler) {
    && Extends(held, t.held)
    && (forall id | id in t.held && id !in held :: Waiter(id, t.held[id]) in ws)
    && (forall w :: w in t.waiters <==> w in ws && w.id !in t.held)
    && t.waiters == Remaining(ws, t.held)
    && forall i | 0 <= i < |ws| :: ws[i].id in t.held <==> Deserves(held, ws, t, i)
  }

  ghost predicate Deserves(held: Leased, ws: seq<Waiter>, t: Scheduler, i: nat)
    requires i < |ws|
  {
    && !t.closed && Admits(held, ws[i].accesses)
    && forall j | 0 <= j < i ::
      if ws[j].id in t.held then Compatible(ws[j].accesses, ws[i].accesses)
      else ws[j].accesses.Keys !! ws[i].accesses.Keys
  }

  /** Everything but leases and queue. */
  ghost predicate SameBooks(s: Scheduler, t: Scheduler) {
    t.closed == s.closed && t.requests == s.requests
  }

  lemma {:induction false} NobodyRemaining(ws: seq<Waiter>, granted: Leased)
    requires forall w | w in ws :: w.id !in granted
    ensures Remaining(ws, granted) == ws
  {
    if ws != [] {
      assert ws[|ws| - 1] in ws && forall w | w in ws[..|ws| - 1] :: w in ws;
      NobodyRemaining(ws[..|ws| - 1], granted);
    }
  }

  lemma ClosedServes(s: Scheduler)
    requires Fresh(s.held, s.waiters) && s.closed
    ensures Served(s.held, s.waiters, s)
  {
    NobodyRemaining(s.waiters, s.held);
  }

  lemma OpenServes(s: Scheduler)
    requires Fresh(s.held, s.waiters) && !s.closed
    ensures var p := Pass(s.held, s.waiters, |s.waiters|);
      Served(s.held, s.waiters, s.(held := p.held, waiters := p.left))
  {
    hide Pass, Remaining, Admits, Compatible;
    var ws := s.waiters;
    var p := Pass(s.held, ws, |ws|);
    var t := s.(held := p.held, waiters := p.left);
    assert ws[..|ws|] == ws;
    PassSorts(s.held, ws, |ws|);
    forall w
      ensures w in t.waiters <==> w in ws && w.id !in t.held
    {
      if w in ws {
        var j :| 0 <= j < |ws| && ws[j] == w;
      }
    }
    forall i | 0 <= i < |ws|
      ensures ws[i].id in t.held <==> Deserves(s.held, ws, t, i)
    {
      GrantedExactlyWhen(s.held, ws, i);
    }
  }

  lemma GrantingServes(s: Scheduler)
    requires Fresh(s.held, s.waiters)
    ensures Served(s.held, s.waiters, Granting(s)) && SameBooks(s, Granting(s))
  {
    hide Served, Pass, Fresh;
    if s.closed {
      ClosedServes(s);
    } else {
      OpenServes(s);
    }
  }

  lemma {:induction false} SameGrants(held: Leased, ws: seq<Waiter>, t: Scheduler, u: Scheduler, n: nat)
    requires Served(held, ws, t) && Served(held, ws, u) && t.closed == u.closed && n <= |ws|
    ensures forall i | 0 <= i < n :: ws[i].id in t.held <==> ws[i].id in u.held
  {
    hide Served, Admits, Compatible;
    if n > 0 {
      SameGrants(held, ws, t, u, n - 1);
      DeservesIt(held, ws, t, n - 1);
      DeservesIt(held, ws, u, n - 1);
    }
  }

  lemma DeservesIt(held: Leased, ws: seq<Waiter>, t: Scheduler, i: nat)
    requires Served(held, ws, t) && i < |ws|
    ensures ws[i].id in t.held <==> Deserves(held, ws, t, i)
  {
  }

  lemma HoldsAsMuch(held: Leased, ws: seq<Waiter>, t: Scheduler, u: Scheduler)
    requires Fresh(held, ws) && Served(held, ws, t) && Served(held, ws, u)
    requires forall i | 0 <= i < |ws| :: ws[i].id in t.held <==> ws[i].id in u.held
    ensures Extends(t.held, u.held)
  {
    forall id | id in t.held
      ensures id in u.held && u.held[id] == t.held[id]
    {
      if id !in held {
        var i :| 0 <= i < |ws| && ws[i] == Waiter(id, t.held[id]);
        var j :| 0 <= j < |ws| && ws[j] == Waiter(id, u.held[id]);
      }
    }
  }

  /** The description is complete: only one outcome meets it. */
  lemma ServedIsUnique(held: Leased, ws: seq<Waiter>, t: Scheduler, u: Scheduler)
    requires Fresh(held, ws) && Served(held, ws, t) && Served(held, ws, u) && t.closed == u.closed
    ensures t.held == u.held && t.waiters == u.waiters
  {
    SameGrants(held, ws, t, u, |ws|);
    HoldsAsMuch(held, ws, t, u);
    HoldsAsMuch(held, ws, u, t);
    assert t.held.Keys == u.held.Keys;
  }

  // ----- The five events --------------------------------------------------------------

  /** A new request is granted at once exactly when it goes together with every lease and touches no
      key somebody already waits for; otherwise it is last in the queue. Nobody else is affected. */
  lemma ReserveEffect(s: Scheduler, a: Accesses)
    requires Inv(s)
    ensures var t, id := Apply(s, Reserve(a)), |s.requests|;
      if s.closed || a == map[] then t == s
      else
        && t.closed == s.closed && t.requests == s.requests + [a]
        && if Admits(s.held, a) && forall w | w in s.waiters :: w.accesses.Keys !! a.Keys
           then t.held == s.held[id := a] && t.waiters == s.waiters
           else t.held == s.held && t.waiters == s.waiters + [Waiter(id, a)]
  {
    hide Consistent, Pass, Admits, KeysOf;
    if !s.closed && a != map[] {
      PassAppend(s.held, s.waiters, Waiter(|s.requests|, a));
      NoKeyWanted(s.waiters, a);
    } else {
      SettledStays(s);
    }
  }

  lemma NoKeyWanted(ws: seq<Waiter>, a: Accesses)
    ensures KeysOf(ws) !! a.Keys <==> forall w | w in ws :: w.accesses.Keys !! a.Keys
  {
    forall w | w in ws
      ensures w.accesses.Keys <= KeysOf(ws)
    {
    }
  }

  lemma FreedEffect(s: Scheduler, id: nat)
    requires Inv(s) && id in s.held
    ensures var t := Granting(s.(held := s.held - {id}));
      && Served(s.held - {id}, s.waiters, t) && SameBooks(s, t)
      && id !in t.held && (forall x | x in s.held && x != id :: x in t.held && t.held[x] == s.held[x])
      && (forall x | x in t.held && x !in s.held :: Waiter(x, t.held[x]) in s.waiters)
  {
    hide Granting, Remaining, Deserves, Settled, Exclusive, Ours;
    var u := s.(held := s.held - {id});
    GrantingServes(u);
    forall w | w in s.waiters
      ensures w.id != id
    {
      var i :| 0 <= i < |s.waiters| && s.waiters[i] == w;
    }
  }

  /** A lease given back is gone, whoever waits; every other lease stays, and the queue is served. */
  lemma ReleaseEffect(s: Scheduler, id: nat)
    requires Inv(s) && id in s.held
    ensures var t := Apply(s, Release(id));
      && Served(s.held - {id}, s.waiters, t) && SameBooks(s, t)
      && id !in t.held && (forall x | x in s.held && x != id :: x in t.held && t.held[x] == s.held[x])
      && (forall x | x in t.held && x !in s.held :: Waiter(x, t.held[x]) in s.waiters)
  {
    hide Granting, Served, Inv;
    FreedEffect(s, id);
  }

  /** An exception takes the lease from a caller that already has it. */
  lemma InterruptedHolder(s: Scheduler, id: nat)
    requires Inv(s) && id in s.held
    ensures id < |s.requests| && Apply(s, Interrupt(id)) == Apply(s, Release(id))
  {
  }

  /** Otherwise the first request equal to the caller's leaves the queue, which is served again. */
  lemma InterruptedWaiter(s: Scheduler, id: nat, i: nat)
    requires Inv(s) && id < |s.requests| && id !in s.held
    requires i < |s.waiters| && s.waiters[i].accesses == s.requests[id]
    requires forall j | 0 <= j < i :: s.waiters[j].accesses != s.requests[id]
    ensures var t := Apply(s, Interrupt(id));
      Served(s.held, s.waiters[..i] + s.waiters[i + 1..], t) && SameBooks(s, t)
  {
    hide Granting, Served, Settled;
    assert s.waiters[i] in s.waiters;
    var n := RemovesFirst(s.waiters, s.requests[id]);
    assert n == i;
    RemovingKeeps(s, s.requests[id]);
    GrantingServes(s.(waiters := RemoveEqual(s.waiters, s.requests[id])));
  }

  /** With neither a lease nor such a request nothing changes. */
  lemma InterruptedOther(s: Scheduler, id: nat)
    requires Inv(s) && id !in s.held
    requires id < |s.requests| ==> forall w | w in s.waiters :: w.accesses != s.requests[id]
    ensures Apply(s, Interrupt(id)) == s
  {
    SettledStays(s);
  }

  lemma SettledStays(s: Scheduler)
    requires Settled(s)
    ensures Granting(s) == s
  {
  }

  /** Looking again changes nothing, except that a caller not granted leaves a closed manager. */
  lemma WakeEffect(s: Scheduler, id: nat)
    requires Inv(s)
    ensures Apply(s, Wake(id)) ==
      if id < |s.requests| && id !in s.held && s.closed then Apply(s, Interrupt(id)) else s
  {
    SettledStays(s);
  }

  /** Closing takes no lease away and drops nobody from the queue. */
  lemma CloseEffect(s: Scheduler)
    ensures var t := Apply(s, Close);
      t.closed && t.held == s.held && t.waiters == s.waiters && t.requests == s.requests
  {
  }

  /** A lease granted at once and given back leaves no trace but the record of the request. */
  lemma ReserveThenRelease(s: Scheduler, a: Accesses)
    requires Inv(s) && !s.closed && a != map[]
    ensures var t, id := Apply(s, Reserve(a)), |s.requests|;
      id in t.held ==> Apply(t, Release(id)) == s.(requests := s.requests + [a])
    ensures s.held == map[] && s.waiters == [] ==> |s.requests| in Apply(s, Reserve(a)).held
  {
    hide Apply, Served, Settled, Deserves, Exclusive;
    var t, id := Apply(s, Reserve(a)), |s.requests|;
    ReserveEffect(s, a);
    ApplyKeeps(s, Reserve(a));
    assert id !in s.held;
    if id in t.held {
      assert t.held - {id} == s.held;
      ReleaseEffect(t, id);
      SettledServes(s);
      ServedIsUnique(s.held, s.waiters, s, Apply(t, Release(id)));
    }
  }

  lemma SettledServes(s: Scheduler)
    requires Inv(s)
    ensures Served(s.held, s.waiters, s)
  {
    hide Served;
    SettledStays(s);
    GrantingServes(s);
  }
}
