/**
 Runs of the lease scheduler: one event is one stretch of code under the manager's lock.
 What every run keeps, how long a request can wait, and the one interruption that hits
 the wrong request.
 */
module LeaseRuns {
  import opened Leases
  import opened LeaseQueue

  /** `requests` lists every request ever made; a request is known by its index there. */
  datatype Scheduler = Scheduler(closed: bool, held: Leased, waiters: seq<Waiter>, requests: seq<Accesses>)

  datatype Event =
    | Reserve(accesses: Accesses) // a caller asks, and tries once before it sleeps
    | Wake(id: nat)               // a sleeping caller is notified and looks again
    | Interrupt(id: nat)          // an exception is raised in a sleeping caller
    | Release(id: nat)            // a holder gives its lease back
    | Close

  const START := Scheduler(false, map[], [], [])

  ghost function Granting(s: Scheduler): Scheduler {
    if s.closed then s
    else var p := Pass(s.held, s.waiters, |s.waiters|); s.(held := p.held, waiters := p.left)
  }

  /** Queued requests are removed by comparing what they ask for, not who asks. */
  function RemoveEqual(ws: seq<Waiter>, a: Accesses): seq<Waiter> {
    if ws == [] then [] else if ws[0].accesses == a then ws[1..] else [ws[0]] + RemoveEqual(ws[1..], a)
  }

  ghost predicate Queues(ws: seq<Waiter>, a: Accesses) {
    exists w | w in ws :: w.accesses == a
  }

  /** What a caller undoes when it leaves the wait with an exception. */
  ghost function Abandoned(s: Scheduler, id: nat): Scheduler
    requires id < |s.requests|
  {
    if id in s.held then s.(held := s.held - {id})
    else if Queues(s.waiters, s.requests[id]) then s.(waiters := RemoveEqual(s.waiters, s.requests[id]))
    else s
  }

  /** The effect of an event before the grant pass that follows it. */
  ghost function Prepared(s: Scheduler, e: Event): Scheduler {
    match e
    case Reserve(a) =>
      if s.closed || a == map[] then s
      else s.(waiters := s.waiters + [Waiter(|s.requests|, a)], requests := s.requests + [a])
    case Wake(id) => if id < |s.requests| && id !in s.held && s.closed then Abandoned(s, id) else s
    case Interrupt(id) => if id < |s.requests| then Abandoned(s, id) else s
    case Release(id) => s.(held := s.held - {id})
    case Close => s.(closed := true)
  }

  ghost function Apply(s: Scheduler, e: Event): Scheduler {
    Granting(Prepared(s, e))
  }

  ghost predicate Ours(s: Scheduler) {
    && (forall i | 0 <= i < |s.waiters| ::
          var w := s.waiters[i]; w.id < |s.requests| && s.requests[w.id] == w.accesses && w.accesses != map[])
    && (forall id | id in s.held :: id < |s.requests| && s.held[id] == s.requests[id])
  }

  ghost predicate Consistent(s: Scheduler) {
    Fresh(s.held, s.waiters) && Exclusive(s.held) && Ours(s)
  }

  /** A pass would grant nobody: nothing is kept waiting that could be granted. */
  ghost predicate Settled(s: Scheduler) {
    s.closed || Stuck(s.held, s.waiters)
  }

  ghost predicate Inv(s: Scheduler) {
    Consistent(s) && Settled(s)
  }

  // ----- What every event keeps -------------------------------------------------------

  lemma GrantingKeeps(s: Scheduler)
    requires Consistent(s)
    ensures Inv(Granting(s))
  {
    if !s.closed {
      PassSorts(s.held, s.waiters, |s.waiters|);
      PassExclusive(s.held, s.waiters, |s.waiters|);
      PassFresh(s.held, s.waiters, |s.waiters|);
      PassIdempotent(s.held, s.waiters, |s.waiters|, Pass(s.held, s.waiters, |s.waiters|).held);
      OursAfterPass(s);
    }
  }

  lemma OursAfterPass(s: Scheduler)
    requires Consistent(s)
    ensures var p := Pass(s.held, s.waiters, |s.waiters|); Ours(s.(held := p.held, waiters := p.left))
  {
    var p := Pass(s.held, s.waiters, |s.waiters|);
    PassSorts(s.held, s.waiters, |s.waiters|);
    assert s.waiters[..|s.waiters|] == s.waiters;
    forall i | 0 <= i < |p.left|
      ensures var w := p.left[i]; w.id < |s.requests| && s.requests[w.id] == w.accesses && w.accesses != map[]
    {
      assert p.left[i] in s.waiters;
    }
    forall id | id in p.held && id !in s.held ensures id < |s.requests| && p.held[id] == s.requests[id] {
      assert Waiter(id, p.held[id]) in s.waiters;
    }
  }

  /** Where the removal takes its element: the first request for exactly the same accesses. */
  lemma {:induction false} RemovesFirst(ws: seq<Waiter>, a: Accesses) returns (i: nat)
    requires Queues(ws, a)
    ensures i < |ws| && ws[i].accesses == a && forall j | 0 <= j < i :: ws[j].accesses != a
    ensures RemoveEqual(ws, a) == ws[..i] + ws[i + 1..]
    decreases |ws|
  {
    hide WaitsAt;
    if ws[0].accesses == a {
      i := 0;
    } else {
      assert ws == [ws[0]] + ws[1..];
      var n := RemovesFirst(ws[1..], a);
      i := n + 1;
    }
  }

  lemma RemovingKeeps(s: Scheduler, a: Accesses)
    requires Consistent(s) && Queues(s.waiters, a)
    ensures Consistent(s.(waiters := RemoveEqual(s.waiters, a)))
  {
    var i := RemovesFirst(s.waiters, a);
    OneFewerKeeps(s, i);
  }

  lemma OneFewerKeeps(s: Scheduler, i: nat)
    requires Consistent(s) && i < |s.waiters|
    ensures Consistent(s.(waiters := s.waiters[..i] + s.waiters[i + 1..]))
  {
    var us := s.waiters[..i] + s.waiters[i + 1..];
    assert forall k | 0 <= k < |us| :: us[k] == s.waiters[if k < i then k else k + 1];
  }

  lemma AbandonedKeeps(s: Scheduler, id: nat)
    requires Consistent(s) && id < |s.requests|
    ensures Consistent(Abandoned(s, id))
  {
    if id !in s.held && Queues(s.waiters, s.requests[id]) {
      RemovingKeeps(s, s.requests[id]);
    }
  }

  lemma PreparedKeeps(s: Scheduler, e: Event)
    requires Consistent(s)
    ensures Consistent(Prepared(s, e))
  {
    if (e.Interrupt? || e.Wake?) && e.id < |s.requests| {
      AbandonedKeeps(s, e.id);
    }
  }

  /** Every event leaves the queue settled, the leases exclusive and the identities straight. */
  lemma ApplyKeeps(s: Scheduler, e: Event)
    requires Consistent(s)
    ensures Inv(Apply(s, e))
  {
    PreparedKeeps(s, e);
    GrantingKeeps(Prepared(s, e));
  }

  ghost function Run(s: Scheduler, events: seq<Event>): Scheduler
    decreases |events|
  {
    if events == [] then s else Run(Apply(s, events[0]), events[1..])
  }

  lemma {:induction false} RunKeeps(s: Scheduler, events: seq<Event>)
    requires Inv(s)
    ensures Inv(Run(s, events))
    decreases |events|
  {
    if events != [] {
      ApplyKeeps(s, events[0]);
      RunKeeps(Apply(s, events[0]), events[1..]);
    }
  }

  /** After any run from the start: a writer is alone on its key, and while the manager is
      open a waiting request means that some lease is held that it cannot share. */
  lemma NoDeadlock(events: seq<Event>)
    ensures var s := Run(START, events);
      && Exclusive(s.held)
      && (!s.closed && s.waiters != [] ==> exists id | id in s.held :: !Compatible(s.held[id], s.waiters[0].accesses))
  {
    RunKeeps(START, events);
    var s := Run(START, events);
    if !s.closed && s.waiters != [] {
      WaitingNeedsHolder(s.held, s.waiters);
    }
  }

  // ----- How long a request waits -----------------------------------------------------

  ghost predicate WaitsAt(ws: seq<Waiter>, id: nat, i: int) {
    0 <= i < |ws| && ws[i].id == id
  }

  ghost predicate Waits(s: Scheduler, id: nat) {
    exists i :: WaitsAt(s.waiters, id, i)
  }

  /** Leases held on some key of `a`. */
  ghost function Holders(held: Leased, a: Accesses): set<nat> {
    set id | id in held && !(held[id].Keys !! a.Keys)
  }

  /** Earlier requests, and holders on the keys of the request waiting at `i`. */
  ghost function Rank(s: Scheduler, i: nat): nat
    requires i < |s.waiters|
  {
    i + |Holders(s.held, s.waiters[i].accesses)|
  }

  lemma OneMoreHolder(held: Leased, w: Waiter, a: Accesses)
    requires w.id !in held
    ensures |Holders(held[w.id := w.accesses], a)| <= |Holders(held, a)| + 1
    ensures w.accesses.Keys !! a.Keys ==> Holders(held[w.id := w.accesses], a) == Holders(held, a)
  {
    SetSize(Holders(held[w.id := w.accesses], a), Holders(held, a) + {w.id});
  }

  lemma {:induction false} HoldersAhead(held: Leased, ws: seq<Waiter>, a: Accesses, n: nat)
    requires Fresh(held, ws) && n <= |ws|
    ensures |Pass(held, ws, n).left| + |Holders(Pass(held, ws, n).held, a)| <= n + |Holders(held, a)|
    decreases n
  {
    if n > 0 {
      HoldersAhead(held, ws, a, n - 1);
      LaterNotHeld(held, ws, n - 1, n - 1);
      var p, w := Pass(held, ws, n - 1), ws[n - 1];
      OneMoreHolder(p.held, w, a);
      assert |Offered(p, w).left| + |Holders(Offered(p, w).held, a)| <= |p.left| + |Holders(p.held, a)| + 1;
    }
  }

  lemma OfferedBehind(p: Passed, w: Waiter, x: Waiter)
    requires w.id !in p.held && x in p.left
    ensures Holders(Offered(p, w).held, x.accesses) == Holders(p.held, x.accesses)
  {
    assert x.accesses.Keys <= KeysOf(p.left);
    OneMoreHolder(p.held, w, x.accesses);
  }

  lemma {:induction false} HoldersBehind(held: Leased, ws: seq<Waiter>, i: nat, n: nat)
    requires Fresh(held, ws) && i < n <= |ws| && !Grantable(Pass(held, ws, i), ws[i])
    ensures Holders(Pass(held, ws, n).held, ws[i].accesses) == Holders(Pass(held, ws, i).held, ws[i].accesses)
    decreases n
  {
    hide Admits, KeysOf, Holders;
    if i < n - 1 {
      HoldersBehind(held, ws, i, n - 1);
      Decided(held, ws, i, n - 1);
      LaterNotHeld(held, ws, n - 1, n - 1);
      OfferedBehind(Pass(held, ws, n - 1), ws[n - 1], ws[i]);
    }
  }

  lemma {:induction false} SetSize<T>(small: set<T>, big: set<T>)
    requires small <= big
    ensures |small| <= |big|
  {
    assert big == small + (big - small);
  }

  /** The pass moves a request it leaves waiting forward by at least the holders it adds on its keys. */
  lemma PassRank(held: Leased, ws: seq<Waiter>, i: nat) returns (k: nat)
    requires Fresh(held, ws) && i < |ws| && ws[i].id !in Pass(held, ws, |ws|).held
    ensures var p := Pass(held, ws, |ws|);
      && k <= i && k < |p.left| && p.left[k] == ws[i]
      && k + |Holders(p.held, ws[i].accesses)| <= i + |Holders(held, ws[i].accesses)|
  {
    k := |Pass(held, ws, i).left|;
    HoldersAhead(held, ws, ws[i].accesses, i);
    PassLength(held, ws, i);
    assert !Grantable(Pass(held, ws, i), ws[i]) by {
        Decided(held, ws, i, |ws|);
    }
    assert Holders(Pass(held, ws, |ws|).held, ws[i].accesses) == Holders(Pass(held, ws, i).held, ws[i].accesses) by {
        HoldersBehind(held, ws, i, |ws|);
    }
    assert Pass(held, ws, i).left + [ws[i]] <= Pass(held, ws, |ws|).left by {
        PassGrows(held, ws, i + 1, |ws|);
    }
  }

  lemma {:induction false} PassLength(held: Leased, ws: seq<Waiter>, n: nat)
    requires n <= |ws|
    ensures |Pass(held, ws, n).left| <= n
    decreases n
  {
    if n > 0 {
      PassLength(held, ws, n - 1);
    }
  }

  /** Whether the event releases a lease on some key of the request waiting at `i`. */
  ghost function Falls(s: Scheduler, i: nat, e: Event): nat
    requires i < |s.waiters|
  {
    if e.Release? && e.id in Holders(s.held, s.waiters[i].accesses) then 1 else 0
  }

  lemma GrantingAdvances(s: Scheduler, i: nat) returns (k: nat)
    requires Consistent(s) && i < |s.waiters| && Waits(Granting(s), s.waiters[i].id)
    ensures var t := Granting(s);
      k <= i && k < |t.waiters| && t.waiters[k] == s.waiters[i] && Rank(t, k) <= Rank(s, i)
  {
    if s.closed {
      k := i;
    } else {
      var p, id := Pass(s.held, s.waiters, |s.waiters|), s.waiters[i].id;
      PassFresh(s.held, s.waiters, |s.waiters|);
      var n :| WaitsAt(p.left, id, n);
      k := PassRank(s.held, s.waiters, i);
    }
  }

  lemma RemovedEarlier(ws: seq<Waiter>, a: Accesses, id: nat, i: nat) returns (k: nat)
    requires Queues(ws, a) && WaitsAt(ws, id, i) && exists n :: WaitsAt(RemoveEqual(ws, a), id, n)
    requires forall m, n | 0 <= m < n < |ws| :: ws[m].id != ws[n].id
    ensures k <= i && k < |RemoveEqual(ws, a)| && RemoveEqual(ws, a)[k] == ws[i]
  {
    var at := RemovesFirst(ws, a);
    var n :| WaitsAt(RemoveEqual(ws, a), id, n);
    assert RemoveEqual(ws, a)[n] == if n < at then ws[n] else ws[n + 1];
    assert at != i;
    k := if i < at then i else i - 1;
  }

  lemma FewerHolders(held: Leased, id: nat, a: Accesses)
    ensures Holders(held - {id}, a) == Holders(held, a) - {id}
    ensures |Holders(held - {id}, a)| + (if id in Holders(held, a) then 1 else 0) <= |Holders(held, a)|
  {
    assert Holders(held - {id}, a) == Holders(held, a) - {id};
  }

  lemma PreparedAdvances(s: Scheduler, e: Event, i: nat) returns (k: nat)
    requires Consistent(s) && i < |s.waiters| && Waits(Prepared(s, e), s.waiters[i].id)
    ensures var t := Prepared(s, e);
      && k <= i && k < |t.waiters| && t.waiters[k] == s.waiters[i]
      && Rank(t, k) + Falls(s, i, e) <= Rank(s, i)
  {
    k := i;
    if (e.Interrupt? || (e.Wake? && s.closed)) && e.id < |s.requests| {
      if e.id in s.held {
        FewerHolders(s.held, e.id, s.waiters[i].accesses);
      } else if Queues(s.waiters, s.requests[e.id]) {
        k := RemovedEarlier(s.waiters, s.requests[e.id], s.waiters[i].id, i);
      }
    } else if e.Release? {
      FewerHolders(s.held, e.id, s.waiters[i].accesses);
    }
  }

  lemma GrantingShrinks(s: Scheduler)
    requires Consistent(s)
    ensures forall w | w in Granting(s).waiters :: w in s.waiters
  {
    PassSorts(s.held, s.waiters, |s.waiters|);
  }

  lemma PreparedShrinks(s: Scheduler, e: Event)
    requires Consistent(s)
    ensures forall w | w in Prepared(s, e).waiters :: w in s.waiters || w.id >= |s.requests|
  {
    if (e.Interrupt? || (e.Wake? && s.closed)) && e.id < |s.requests| {
      if e.id !in s.held && Queues(s.waiters, s.requests[e.id]) {
        var at := RemovesFirst(s.waiters, s.requests[e.id]);
      }
    }
  }

  lemma StaysQueued(ws: seq<Waiter>, us: seq<Waiter>, id: nat, limit: nat)
    requires id < limit && forall w | w in ws :: w in us || w.id >= limit
    requires exists i :: WaitsAt(ws, id, i)
    ensures exists i :: WaitsAt(us, id, i)
  {
    var i :| WaitsAt(ws, id, i);
    assert ws[i] in us;
    var n :| 0 <= n < |us| && us[n] == ws[i];
    assert WaitsAt(us, id, n);
  }

  /** A request that left the queue does not come back. */
  lemma NeverReturns(s: Scheduler, e: Event, id: nat)
    requires Consistent(s) && id < |s.requests|
    ensures Waits(Apply(s, e), id) ==> Waits(Prepared(s, e), id)
    ensures Waits(Prepared(s, e), id) ==> Waits(s, id)
  {
    PreparedKeeps(s, e);
    GrantingShrinks(Prepared(s, e));
    PreparedShrinks(s, e);
    if Waits(Apply(s, e), id) {
      StaysQueued(Apply(s, e).waiters, Prepared(s, e).waiters, id, |s.requests|);
    }
    if Waits(Prepared(s, e), id) {
      StaysQueued(Prepared(s, e).waiters, s.waiters, id, |s.requests|);
    }
  }

  /** Made once, and now neither queued nor granted. */
  ghost predicate Out(s: Scheduler, id: nat) {
    id < |s.requests| && id !in s.held && !Waits(s, id)
  }

  lemma GrantsWaiters(s: Scheduler, id: nat)
    requires Consistent(s) && id in Granting(s).held && id !in s.held
    ensures Waits(s, id)
  {
    hide Offered, Grantable, Exclusive, Ours;
    var p := Pass(s.held, s.waiters, |s.waiters|);
    PassSorts(s.held, s.waiters, |s.waiters|);
    assert s.waiters[..|s.waiters|] == s.waiters;
    var i :| 0 <= i < |s.waiters| && s.waiters[i] == Waiter(id, p.held[id]);
    assert WaitsAt(s.waiters, id, i);
  }

  lemma StaysOut(s: Scheduler, e: Event, id: nat)
    requires Consistent(s) && Out(s, id)
    ensures Out(Apply(s, e), id)
  {
    NeverReturns(s, e, id);
    PreparedKeeps(s, e);
    RequestsGrow(s, e);
    assert id !in Prepared(s, e).held;
    if id in Apply(s, e).held {
      GrantsWaiters(Prepared(s, e), id);
    }
  }

  /** A request that is neither queued nor granted will never be either, whatever happens. */
  lemma {:induction false} OutForGood(s: Scheduler, events: seq<Event>, id: nat)
    requires Consistent(s) && Out(s, id)
    ensures Out(Run(s, events), id)
    decreases |events|
  {
    if events != [] {
      StaysOut(s, events[0], id);
      ApplyKeeps(s, events[0]);
      OutForGood(Apply(s, events[0]), events[1..], id);
    }
  }

  /** One event against a request that goes on waiting: it never falls back in the queue, its
      rank never rises, and the rank drops when a holder on one of its keys releases. */
  lemma ApplyAdvances(s: Scheduler, e: Event, i: nat) returns (k: nat)
    requires Inv(s) && i < |s.waiters| && Waits(Apply(s, e), s.waiters[i].id)
    ensures var t := Apply(s, e);
      && k <= i && k < |t.waiters| && t.waiters[k] == s.waiters[i]
      && Rank(t, k) + Falls(s, i, e) <= Rank(s, i)
  {
    NeverReturns(s, e, s.waiters[i].id);
    PreparedKeeps(s, e);
    var j := PreparedAdvances(s, e, i);
    k := GrantingAdvances(Prepared(s, e), j);
  }

  /** How often a run from `s` releases a lease on some key of request `id`. */
  ghost function BlockingReleases(s: Scheduler, events: seq<Event>, id: nat): nat
    requires id < |s.requests|
    decreases |events|
  {
    if events == [] then 0
    else
      var e, t := events[0], Apply(s, events[0]);
      (if e.Release? && e.id in Holders(s.held, s.requests[id]) then 1 else 0)
      + if id < |t.requests| then BlockingReleases(t, events[1..], id) else 0
  }

  /** No starvation: a request outlasts at most as many releases on its keys as it had
      earlier requests and holders on its keys, whatever else happens in between. */
  lemma {:induction false} BoundedWaiting(s: Scheduler, events: seq<Event>, i: nat)
    requires Inv(s) && i < |s.waiters| && Waits(Run(s, events), s.waiters[i].id)
    ensures BlockingReleases(s, events, s.waiters[i].id) <= Rank(s, i)
    decreases |events|
  {
    if events != [] {
      var e, t, id := events[0], Apply(s, events[0]), s.waiters[i].id;
      ApplyKeeps(s, e);
      RequestsGrow(s, e);
      if !Waits(t, id) {
        StaysAway(t, events[1..], id);
      }
      var k := ApplyAdvances(s, e, i);
      BoundedWaiting(t, events[1..], k);
    }
  }

  lemma RequestsGrow(s: Scheduler, e: Event)
    ensures s.requests <= Apply(s, e).requests
  {
  }

  lemma {:induction false} StaysAway(s: Scheduler, events: seq<Event>, id: nat)
    requires Consistent(s) && id < |s.requests| && !Waits(s, id)
    ensures !Waits(Run(s, events), id)
    decreases |events|
  {
    if events != [] {
      var t := Apply(s, events[0]);
      assert Consistent(t) by { ApplyKeeps(s, events[0]); }
      assert id < |t.requests| by { RequestsGrow(s, events[0]); }
      assert !Waits(t, id) by { NeverReturns(s, events[0], id); }
      StaysAway(t, events[1..], id);
    }
  }

  // ----- Interrupting a waiting caller ------------------------------------------------

  /** An interrupted caller takes its own request off the queue, and nobody else's, exactly
      when no earlier request asks for the same keys in the same modes. */
  lemma InterruptRemovesOwnRequest(ws: seq<Waiter>, i: nat)
    requires i < |ws| && forall m, n | 0 <= m < n < |ws| :: ws[m].id != ws[n].id
    ensures RemoveEqual(ws, ws[i].accesses) == ws[..i] + ws[i + 1..] <==>
      forall j | 0 <= j < i :: ws[j].accesses != ws[i].accesses
  {
    assert ws[i] in ws;
    var at := RemovesFirst(ws, ws[i].accesses);
    if at < i {
      assert (ws[..at] + ws[at + 1..])[at] == ws[at + 1];
      assert (ws[..i] + ws[i + 1..])[at] == ws[at];
    }
  }

  const SOME_KEY := Key(1, 1, 1)
  const WRITE: Accesses := map[SOME_KEY := true]

  /** The first of three requests for one key is granted, the others queue behind it. */
  lemma FirstIsGranted()
    ensures Apply(START, Reserve(WRITE)) == Scheduler(false, map[0 := WRITE], [], [WRITE])
  {
    assert SOME_KEY in WRITE && START.waiters + [Waiter(0, WRITE)] == [Waiter(0, WRITE)];
    OnePass(map[], Waiter(0, WRITE));
  }

  lemma SecondWaits()
    ensures Apply(Scheduler(false, map[0 := WRITE], [], [WRITE]), Reserve(WRITE)) ==
            Scheduler(false, map[0 := WRITE], [Waiter(1, WRITE)], [WRITE, WRITE])
  {
    assert SOME_KEY in WRITE && 0 in map[0 := WRITE];
    assert [] + [Waiter(1, WRITE)] == [Waiter(1, WRITE)] && [WRITE] + [WRITE] == [WRITE, WRITE];
    OnePass(map[0 := WRITE], Waiter(1, WRITE));
  }

  lemma ThirdWaits()
    ensures Apply(Scheduler(false, map[0 := WRITE], [Waiter(1, WRITE)], [WRITE, WRITE]), Reserve(WRITE)) ==
            Scheduler(false, map[0 := WRITE], [Waiter(1, WRITE), Waiter(2, WRITE)], [WRITE, WRITE, WRITE])
  {
    var held, queue := map[0 := WRITE], [Waiter(1, WRITE), Waiter(2, WRITE)];
    OnePass(held, Waiter(1, WRITE));
    PassPrefix(held, [Waiter(1, WRITE)], queue, 1);
    assert [Waiter(1, WRITE)] + [Waiter(2, WRITE)] == queue && [WRITE, WRITE] + [WRITE] == [WRITE, WRITE, WRITE];
    assert !Compatible(held[0], WRITE) by { assert WRITE[SOME_KEY]; }
  }

  lemma ThirdRemovesSecond()
    ensures Apply(Scheduler(false, map[0 := WRITE], [Waiter(1, WRITE), Waiter(2, WRITE)], [WRITE, WRITE, WRITE]),
        Interrupt(2)) ==
            Scheduler(false, map[0 := WRITE], [Waiter(2, WRITE)], [WRITE, WRITE, WRITE])
  {
    var queue := [Waiter(1, WRITE), Waiter(2, WRITE)];
    assert 0 in map[0 := WRITE] && queue[0] in queue && queue[1..] == [Waiter(2, WRITE)];
    OnePass(map[0 := WRITE], Waiter(2, WRITE));
  }

  lemma ThirdIsGranted()
    ensures Apply(Scheduler(false, map[0 := WRITE], [Waiter(2, WRITE)], [WRITE, WRITE, WRITE]), Release(0)) ==
            Scheduler(false, map[2 := WRITE], [], [WRITE, WRITE, WRITE])
  {
    assert map[0 := WRITE] - {0} == map[];
    OnePass(map[], Waiter(2, WRITE));
  }

  /** Otherwise it drops a caller that still waits and keeps the one that left: here the
      interrupted third request is granted later, while the second never will be. */
  lemma InterruptCanDropAnotherRequest()
    ensures var s := Run(START, [Reserve(WRITE), Reserve(WRITE), Reserve(WRITE), Interrupt(2)]);
            && Waits(s, 2) && Apply(s, Release(0)).held == map[2 := WRITE]
            && forall events :: Out(Run(s, events), 1)
  {
    hide Apply, Run, Consistent, Settled;
    FirstIsGranted();
    SecondWaits();
    ThirdWaits();
    ThirdRemovesSecond();
    ThirdIsGranted();
    var before := [Reserve(WRITE), Reserve(WRITE), Reserve(WRITE), Interrupt(2)];
    RunFour(START, Reserve(WRITE), Reserve(WRITE), Reserve(WRITE), Interrupt(2));
    assert WaitsAt([Waiter(2, WRITE)], 2, 0);
    StartHolds();
    RunKeeps(START, before);
    forall events
      ensures Out(Run(Run(START, before), events), 1)
    {
      OutForGood(Run(START, before), events, 1);
    }
  }

  lemma StartHolds()
    ensures Inv(START)
  {
  }

  lemma OnePass(held: Leased, w: Waiter)
    requires w.accesses == WRITE && (held == map[] || held == map[0 := w.accesses])
    ensures Pass(held, [w], 1) == if held == map[] then Passed(map[w.id := w.accesses], []) else Passed(held, [w])
  {
    assert w.accesses[SOME_KEY];
    if held != map[] {
      assert !Compatible(held[0], w.accesses);
    }
  }

  lemma RunFour(s: Scheduler, a: Event, b: Event, c: Event, d: Event)
    ensures Run(s, [a, b, c, d]) == Apply(Apply(Apply(Apply(s, a), b), c), d)
  {
    var t := Apply(Apply(s, a), b);
    assert Run(t, [c, d]) == Apply(Apply(t, c), d) by {
      assert [c, d][1..] == [d] && Run(Apply(t, c), [d]) == Run(Apply(Apply(t, c), d), [d][1..]);
    }
    assert [a, b, c, d][1..] == [b, c, d] && [b, c, d][1..] == [c, d];
    assert Run(s, [a, b, c, d]) == Run(Apply(s, a), [b, c, d]);
    assert Run(Apply(s, a), [b, c, d]) == Run(t, [c, d]);
  }
}
