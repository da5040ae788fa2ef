/**
 Why every request is granted as long as leases are given back, also one that only waits behind
 others: the ranks of a request and of all those ahead of it add up to a burden that no event
 raises, and at every moment somebody holds a lease whose release lowers it.
 */
module LeaseProgress {
  import opened Leases
  import opened LeaseQueue
  import opened LeaseRuns

  /** Places in the queue and holders on their keys, summed over some requests. */
  ghost function Weight(ws: seq<Waiter>, held: Leased): nat {
    if ws == [] then 0
    else
      var front, last := ws[..|ws| - 1], ws[|ws| - 1];
      Weight(front, held) + |front| + |Holders(held, last.accesses)|
  }

  /** The sum of the ranks up to and including the request at `i`. */
  ghost function Burden(s: Scheduler, i: nat): nat
    requires i < |s.waiters|
  {
    Weight(s.waiters[..i + 1], s.held)
  }

  lemma BurdenIsSum(s: Scheduler, i: nat)
    requires i < |s.waiters|
    ensures Burden(s, i) == Rank(s, i) + if i == 0 then 0 else Burden(s, i - 1)
  {
    assert s.waiters[..i + 1] == s.waiters[..i] + [s.waiters[i]];
    WeightOfOneMore(s.waiters[..i], s.waiters[i], s.held);
  }

  // ----- A grant pass -----------------------------------------------------------------

  lemma {:induction false} SameHolders(ws: seq<Waiter>, held: Leased, w: Waiter)
    requires w.id !in held && KeysOf(ws) !! w.accesses.Keys
    ensures Weight(ws, held[w.id := w.accesses]) == Weight(ws, held)
  {
    if ws != [] {
      var front, last := ws[..|ws| - 1], ws[|ws| - 1];
      assert last in ws && KeysOf(front) <= KeysOf(ws) && last.accesses.Keys <= KeysOf(ws);
      SameHolders(front, held, w);
      OneMoreHolder(held, w, last.accesses);
    }
  }

  lemma WeightOfOneMore(ws: seq<Waiter>, w: Waiter, held: Leased)
    ensures Weight(ws + [w], held) == Weight(ws, held) + |ws| + |Holders(held, w.accesses)|
  {
    assert (ws + [w])[..|ws|] == ws;
  }

  lemma OfferedLightens(p: Passed, w: Waiter, ws: seq<Waiter>, held: Leased)
    requires w.id !in p.held && Weight(p.left, p.held) <= Weight(ws, held)
    requires |p.left| + |Holders(p.held, w.accesses)| <= |ws| + |Holders(held, w.accesses)|
    ensures Weight(Offered(p, w).left, Offered(p, w).held) <= Weight(ws + [w], held)
  {
    hide KeysOf, Admits, Holders, Weight;
    WeightOfOneMore(ws, w, held);
    if Grantable(p, w) {
      SameHolders(p.left, p.held, w);
    } else {
      WeightOfOneMore(p.left, w, p.held);
    }
  }

  /** The requests a pass leaves weigh no more than all it looked at did. */
  lemma {:induction false} PassLightens(held: Leased, ws: seq<Waiter>, n: nat)
    requires Fresh(held, ws) && n <= |ws|
    ensures Weight(Pass(held, ws, n).left, Pass(held, ws, n).held) <= Weight(ws[..n], held)
    decreases n
  {
    hide Grantable, Holders, Offered, Weight;
    if n > 0 {
      PassLightens(held, ws, n - 1);
      LaterNotHeld(held, ws, n - 1, n - 1);
      HoldersAhead(held, ws, ws[n - 1].accesses, n - 1);
      OfferedLightens(Pass(held, ws, n - 1), ws[n - 1], ws[..n - 1], held);
      assert ws[..n] == ws[..n - 1] + [ws[n - 1]];
    }
  }

  lemma KeysOfPrefix(small: seq<Waiter>, big: seq<Waiter>)
    requires small <= big
    ensures KeysOf(small) <= KeysOf(big)
  {
    assert forall w | w in small :: w in big;
  }

  /** What the pass grants later shares no key with what it has left. */
  lemma {:induction false} LaterGrantsApart(held: Leased, ws: seq<Waiter>, i: nat, n: nat)
    requires Fresh(held, ws) && i <= n <= |ws|
    ensures Weight(Pass(held, ws, i).left, Pass(held, ws, n).held) ==
        Weight(Pass(held, ws, i).left, Pass(held, ws, i).held)
    decreases n
  {
    hide KeysOf, Admits, Holders, Weight;
    if i < n {
      LaterGrantsApart(held, ws, i, n - 1);
      var p, w := Pass(held, ws, n - 1), ws[n - 1];
      LaterNotHeld(held, ws, n - 1, n - 1);
      if Grantable(p, w) {
        PassGrows(held, ws, i, n - 1);
        KeysOfPrefix(Pass(held, ws, i).left, p.left);
        SameHolders(Pass(held, ws, i).left, p.held, w);
      }
    }
  }

  lemma PlaceIsUnique(ws: seq<Waiter>, id: nat, i: nat, k: nat)
    requires WaitsAt(ws, id, i) && WaitsAt(ws, id, k) && forall m, n | 0 <= m < n < |ws| :: ws[m].id != ws[n].id
    ensures i == k
  {
  }

  /** A request the pass leaves comes right after those before it that the pass leaves. */
  lemma LeftPlace(held: Leased, ws: seq<Waiter>, i: nat, k: nat)
    requires Fresh(held, ws) && i < |ws| && WaitsAt(Pass(held, ws, |ws|).left, ws[i].id, k)
    ensures Pass(held, ws, |ws|).left[..k + 1] == Pass(held, ws, i + 1).left
  {
    hide Grantable;
    var p, early := Pass(held, ws, |ws|), Pass(held, ws, i + 1);
    PassFresh(held, ws, |ws|);
    Decided(held, ws, i, |ws|);
    assert !Grantable(Pass(held, ws, i), ws[i]);
    PassGrows(held, ws, i + 1, |ws|);
    assert early.left == Pass(held, ws, i).left + [ws[i]];
    PlaceIsUnique(p.left, ws[i].id, |early.left| - 1, k);
  }

  lemma GrantingEases(s: Scheduler, i: nat, k: nat)
    requires Consistent(s) && i < |s.waiters| && WaitsAt(Granting(s).waiters, s.waiters[i].id, k)
    ensures Burden(Granting(s), k) <= Burden(s, i)
  {
    hide Pass, Weight;
    if !s.closed {
      LeftPlace(s.held, s.waiters, i, k);
      PassLightens(s.held, s.waiters, i + 1);
      LaterGrantsApart(s.held, s.waiters, i + 1, |s.waiters|);
    } else {
      PlaceIsUnique(s.waiters, s.waiters[i].id, i, k);
    }
  }

  // ----- What comes before the pass ---------------------------------------------------

  /** The lease keeps some of these requests waiting. */
  ghost predicate Blocks(held: Leased, ws: seq<Waiter>, id: nat) {
    id in held && !(held[id].Keys !! KeysOf(ws))
  }

  lemma {:induction false} WeightFewer(ws: seq<Waiter>, held: Leased, id: nat)
    ensures Weight(ws, held - {id}) + (if Blocks(held, ws, id) then 1 else 0) <= Weight(ws, held)
  {
    if ws != [] {
      var front, last := ws[..|ws| - 1], ws[|ws| - 1];
      WeightFewer(front, held, id);
      FewerHolders(held, id, last.accesses);
      KeysOfOneMore(front, last);
      assert ws == front + [last];
    }
  }

  lemma KeysOfOneMore(ws: seq<Waiter>, w: Waiter)
    ensures KeysOf(ws + [w]) == KeysOf(ws) + w.accesses.Keys
  {
    assert forall x :: x in ws + [w] <==> x in ws || x == w;
  }

  lemma {:induction false} WeightWithout(ws: seq<Waiter>, at: nat, held: Leased)
    requires at < |ws|
    ensures Weight(ws[..at] + ws[at + 1..], held) <= Weight(ws, held)
  {
    var front, last := ws[..|ws| - 1], ws[|ws| - 1];
    if at == |ws| - 1 {
      assert ws[..at] + ws[at + 1..] == front;
    } else {
      WeightWithout(front, at, held);
      var less := front[..at] + front[at + 1..];
      assert ws[..at] + ws[at + 1..] == less + [last];
      WeightOfOneMore(less, last, held);
    }
  }

  /** Whether the event gives back a lease that keeps the request at `i`, or one ahead of it, waiting. */
  ghost function Eases(s: Scheduler, i: nat, e: Event): nat
    requires i < |s.waiters|
  {
    if e.Release? && Blocks(s.held, s.waiters[..i + 1], e.id) then 1 else 0
  }

  lemma RemovalEases(s: Scheduler, a: Accesses, i: nat, k: nat)
    requires Consistent(s) && i < |s.waiters| && Queues(s.waiters, a)
    requires WaitsAt(RemoveEqual(s.waiters, a), s.waiters[i].id, k)
    ensures Burden(s.(waiters := RemoveEqual(s.waiters, a)), k) <= Burden(s, i)
  {
    hide Weight, RemoveEqual, Queues;
    var at := RemovesFirst(s.waiters, a);
    RemovedPlace(s.waiters, at, i, k);
    if at < i {
      WeightWithout(s.waiters[..i + 1], at, s.held);
    }
  }

  lemma RemovedPlace(ws: seq<Waiter>, at: nat, i: nat, k: nat)
    requires at < |ws| && i < |ws| && WaitsAt(ws[..at] + ws[at + 1..], ws[i].id, k)
    requires forall m, n | 0 <= m < n < |ws| :: ws[m].id != ws[n].id
    ensures (ws[..at] + ws[at + 1..])[..k + 1] ==
            if at < i then ws[..i + 1][..at] + ws[..i + 1][at + 1..] else ws[..i + 1]
  {
    PlaceIsUnique(ws, ws[i].id, i, if k < at then k else k + 1);
  }

  lemma PreparedEases(s: Scheduler, e: Event, i: nat, k: nat)
    requires Consistent(s) && i < |s.waiters| && WaitsAt(Prepared(s, e).waiters, s.waiters[i].id, k)
    ensures Burden(Prepared(s, e), k) + Eases(s, i, e) <= Burden(s, i)
  {
    hide Weight;
    var removed := (e.Interrupt? || (e.Wake? && s.closed)) && e.id < |s.requests| && e.id !in s.held;
    if removed && Queues(s.waiters, s.requests[e.id]) {
      RemovalEases(s, s.requests[e.id], i, k);
    } else {
      PreparedPlace(s, e, i, k);
      assert Prepared(s, e).waiters[..i + 1] == s.waiters[..i + 1];
      if e.Interrupt? || e.Release? {
        WeightFewer(s.waiters[..i + 1], s.held, e.id);
      }
    }
  }

  lemma PreparedPlace(s: Scheduler, e: Event, i: nat, k: nat)
    requires Consistent(s) && i < |s.waiters| && WaitsAt(Prepared(s, e).waiters, s.waiters[i].id, k)
    requires s.waiters <= Prepared(s, e).waiters
    ensures k == i
  {
    PreparedKeeps(s, e);
    PlaceIsUnique(Prepared(s, e).waiters, s.waiters[i].id, i, k);
  }

  // ----- One event and whole runs -----------------------------------------------------

  /** No event raises the burden of a request that goes on waiting, and an easing release lowers it. */
  lemma BurdenFalls(s: Scheduler, e: Event, i: nat) returns (k: nat)
    requires Inv(s) && i < |s.waiters| && Waits(Apply(s, e), s.waiters[i].id)
    ensures var t := Apply(s, e);
      k <= i && k < |t.waiters| && t.waiters[k] == s.waiters[i] && Burden(t, k) + Eases(s, i, e) <= Burden(s, i)
  {
    var id := s.waiters[i].id;
    NeverReturns(s, e, id);
    PreparedKeeps(s, e);
    k := ApplyAdvances(s, e, i);
    var j := PreparedAdvances(s, e, i);
    PreparedEases(s, e, i, j);
    GrantingEases(Prepared(s, e), j, k);
  }

  /** While a request waits in an open manager, a lease is held whose release eases it. */
  lemma SomebodyHolds(s: Scheduler, i: nat) returns (id: nat)
    requires Inv(s) && !s.closed && i < |s.waiters|
    ensures id in s.held && !Compatible(s.held[id], s.waiters[0].accesses) && Eases(s, i, Release(id)) == 1
  {
    WaitingNeedsHolder(s.held, s.waiters);
    id :| id in s.held && !Compatible(s.held[id], s.waiters[0].accesses);
    assert s.waiters[..i + 1][0] == s.waiters[0] && s.waiters[0] in s.waiters[..i + 1];
    var k :| k in s.held[id] && k in s.waiters[0].accesses;
    assert k in KeysOf(s.waiters[..i + 1]);
  }

  /** How often a run gives back a lease that keeps request `id`, or one ahead of it, waiting. */
  ghost function EasingReleases(s: Scheduler, events: seq<Event>, id: nat): nat
    decreases |events|
  {
    if events == [] then 0
    else
      (if exists i :: WaitsAt(s.waiters, id, i) && Eases(s, i, events[0]) == 1 then 1 else 0)
      + EasingReleases(Apply(s, events[0]), events[1..], id)
  }

  /**
   No starvation: a request still waiting has seen at most as many easing releases as its burden
   was; and as long as it waits, `SomebodyHolds` names a lease that can be released next.
   */
  lemma {:induction false} NoStarvation(s: Scheduler, events: seq<Event>, i: nat)
    requires Inv(s) && i < |s.waiters| && Waits(Run(s, events), s.waiters[i].id)
    ensures EasingReleases(s, events, s.waiters[i].id) <= Burden(s, i)
    decreases |events|
  {
    if events != [] {
      var e, t, id := events[0], Apply(s, events[0]), s.waiters[i].id;
      ApplyKeeps(s, e);
      RequestsGrow(s, e);
      if !Waits(t, id) {
        StaysAway(t, events[1..], id);
      }
      var k := BurdenFalls(s, e, i);
      NoStarvation(t, events[1..], k);
      OnePlace(s, id, i, e);
    }
  }

  lemma OnePlace(s: Scheduler, id: nat, i: nat, e: Event)
    requires Consistent(s) && WaitsAt(s.waiters, id, i)
    ensures (exists n :: WaitsAt(s.waiters, id, n) && Eases(s, n, e) == 1) <==> Eases(s, i, e) == 1
  {
    forall n | WaitsAt(s.waiters, id, n)
      ensures n == i
    {
      PlaceIsUnique(s.waiters, id, i, n);
    }
  }
}
