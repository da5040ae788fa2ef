/**
 The grant pass over the queue of lease requests: which requests it grants, that a second
 pass would grant nobody, and that nobody is overtaken on a key.
 */
module LeaseQueue {
  import opened Leases

  datatype Passed = Passed(held: Leased, left: seq<Waiter>)

  ghost function KeysOf(ws: seq<Waiter>): set<Key> {
    set w, k | w in ws && k in w.accesses :: k
  }

  ghost predicate Grantable(p: Passed, w: Waiter) {
    KeysOf(p.left) !! w.accesses.Keys && Admits(p.held, w.accesses)
  }

  ghost function Offered(p: Passed, w: Waiter): Passed {
    if Grantable(p, w) then p.(held := p.held[w.id := w.accesses]) else p.(left := p.left + [w])
  }

  /** Leases and remaining queue after the pass has looked at the first `n` of `ws`. */
  ghost function Pass(held: Leased, ws: seq<Waiter>, n: nat): Passed
    requires n <= |ws|
  {
    if n == 0 then Passed(held, []) else Offered(Pass(held, ws, n - 1), ws[n - 1])
  }

  lemma {:induction false} PassPrefix(held: Leased, xs: seq<Waiter>, ys: seq<Waiter>, n: nat)
    requires n <= |xs| && xs <= ys
    ensures Pass(held, xs, n) == Pass(held, ys, n)
    decreases n
  {
    if n > 0 {
      PassPrefix(held, xs, ys, n - 1);
    }
  }

  /** Queued requests have their own identities, none of them granted yet. */
  ghost predicate Fresh(held: Leased, ws: seq<Waiter>) {
    && (forall i, j | 0 <= i < j < |ws| :: ws[i].id != ws[j].id)
    && (forall i | 0 <= i < |ws| :: ws[i].id !in held)
  }

  ghost predicate Extends(small: Leased, big: Leased) {
    forall id | id in small :: id in big && big[id] == small[id]
  }

  lemma AdmitsFewer(small: Leased, big: Leased, a: Accesses)
    requires Extends(small, big) && Admits(big, a)
    ensures Admits(small, a)
  {
    forall id | id in small ensures Compatible(small[id], a) {
      assert Compatible(big[id], a);
    }
  }

  lemma {:induction false} LaterNotHeld(held: Leased, ws: seq<Waiter>, i: nat, j: nat)
    requires Fresh(held, ws) && i <= j < |ws|
    ensures ws[j].id !in Pass(held, ws, i).held
    decreases i
  {
    if i > 0 {
      LaterNotHeld(held, ws, i - 1, j);
    }
  }

  lemma OfferedGrows(held: Leased, p: Passed, w: Waiter)
    requires w.id !in p.held && Extends(held, p.held)
    ensures Extends(held, Offered(p, w).held)
    ensures p.left <= Offered(p, w).left
  {
  }

  /** The pass only ever adds leases and appends to the requests it leaves. */
  lemma {:induction false} PassGrows(held: Leased, ws: seq<Waiter>, i: nat, j: nat)
    requires Fresh(held, ws) && i <= j <= |ws|
    ensures Extends(Pass(held, ws, i).held, Pass(held, ws, j).held)
    ensures Pass(held, ws, i).left <= Pass(held, ws, j).left
    decreases j - i
  {
    hide Grantable;
    if i < j {
      PassGrows(held, ws, i, j - 1);
      LaterNotHeld(held, ws, j - 1, j - 1);
      var p := Pass(held, ws, j - 1);
      OfferedGrows(Pass(held, ws, i).held, p, ws[j - 1]);
      assert Pass(held, ws, j) == Offered(p, ws[j - 1]);
    }
  }

  lemma {:induction false} LeftFrom(held: Leased, ws: seq<Waiter>, n: nat)
    requires n <= |ws|
    ensures forall w | w in Pass(held, ws, n).left :: w in ws[..n]
    decreases n
  {
    if n > 0 {
      LeftFrom(held, ws, n - 1);
      assert ws[..n] == ws[..n - 1] + [ws[n - 1]];
    }
  }

  lemma OthersDiffer(held: Leased, ws: seq<Waiter>, i: nat)
    requires Fresh(held, ws) && i < |ws|
    ensures forall x | x in ws[..i] :: x.id != ws[i].id
  {
  }

  ghost predicate DecidedIn(p: Passed, w: Waiter, granted: bool) {
    if granted then w.id in p.held && p.held[w.id] == w.accesses && w !in p.left
    else w.id !in p.held && w in p.left
  }

  lemma DecidedNow(held: Leased, ws: seq<Waiter>, i: nat)
    requires Fresh(held, ws) && i < |ws|
    ensures DecidedIn(Pass(held, ws, i + 1), ws[i], Grantable(Pass(held, ws, i), ws[i]))
  {
    LaterNotHeld(held, ws, i, i);
    LeftFrom(held, ws, i);
    OthersDiffer(held, ws, i);
  }

  /** The request at `i` is granted, or left, once the pass is beyond it, and stays so. */
  lemma {:induction false} Decided(held: Leased, ws: seq<Waiter>, i: nat, n: nat)
    requires Fresh(held, ws) && i < n <= |ws|
    ensures DecidedIn(Pass(held, ws, n), ws[i], Grantable(Pass(held, ws, i), ws[i]))
    decreases n
  {
    if i < n - 1 {
      Decided(held, ws, i, n - 1);
      assert ws[i].id != ws[n - 1].id;
    } else {
      DecidedNow(held, ws, i);
    }
  }

  lemma {:induction false} HeldFrom(held: Leased, ws: seq<Waiter>, n: nat)
    requires n <= |ws|
    ensures forall id | id in Pass(held, ws, n).held && id !in held ::
              Waiter(id, Pass(held, ws, n).held[id]) in ws[..n]
    decreases n
  {
    if n > 0 {
      HeldFrom(held, ws, n - 1);
      assert ws[..n] == ws[..n - 1] + [ws[n - 1]];
    }
  }

  /** The requests not granted, in their order. */
  ghost function Remaining(ws: seq<Waiter>, granted: Leased): seq<Waiter> {
    if ws == [] then []
    else Remaining(ws[..|ws| - 1], granted) + if ws[|ws| - 1].id in granted then [] else [ws[|ws| - 1]]
  }

  lemma {:induction false} RemainingSame(ws: seq<Waiter>, a: Leased, b: Leased)
    requires forall w | w in ws :: w.id in a <==> w.id in b
    ensures Remaining(ws, a) == Remaining(ws, b)
  {
    if ws != [] {
      assert forall w | w in ws[..|ws| - 1] :: w in ws;
      RemainingSame(ws[..|ws| - 1], a, b);
    }
  }

  /** The queue that is left keeps its order. */
  lemma {:induction false} LeftInOrder(held: Leased, ws: seq<Waiter>, n: nat)
    requires Fresh(held, ws) && n <= |ws|
    ensures Pass(held, ws, n).left == Remaining(ws[..n], Pass(held, ws, n).held)
    decreases n
  {
    hide Grantable;
    if n > 0 {
      LeftInOrder(held, ws, n - 1);
      LaterNotHeld(held, ws, n - 1, n - 1);
      OthersDiffer(held, ws, n - 1);
      assert ws[..n][..n - 1] == ws[..n - 1];
      RemainingSame(ws[..n - 1], Pass(held, ws, n - 1).held, Pass(held, ws, n).held);
    }
  }

  /** Of the first `n` requests each is granted or left in its order, never both; none is lost or invented. */
  lemma PassSorts(held: Leased, ws: seq<Waiter>, n: nat)
    requires Fresh(held, ws) && n <= |ws|
    ensures var p := Pass(held, ws, n);
      && Extends(held, p.held) && p.left == Remaining(ws[..n], p.held)
      && (forall id | id in p.held && id !in held :: Waiter(id, p.held[id]) in ws[..n])
      && (forall w | w in p.left :: w in ws[..n])
      && (forall j | 0 <= j < n :: ws[j] in p.left <==> ws[j].id !in p.held)
      && (forall j | 0 <= j < n && ws[j].id in p.held :: p.held[ws[j].id] == ws[j].accesses)
  {
    hide Pass, Remaining;
    PassGrows(held, ws, 0, n);
    StartsHeld(held, ws);
    HeldFrom(held, ws, n);
    LeftFrom(held, ws, n);
    LeftInOrder(held, ws, n);
    var p := Pass(held, ws, n);
    forall j | 0 <= j < n
      ensures ws[j] in p.left <==> ws[j].id !in p.held
      ensures ws[j].id in p.held ==> p.held[ws[j].id] == ws[j].accesses
    {
      Decided(held, ws, j, n);
    }
  }

  lemma StartsHeld(held: Leased, ws: seq<Waiter>)
    ensures Pass(held, ws, 0) == Passed(held, [])
  {
  }

  lemma {:induction false} PassExclusive(held: Leased, ws: seq<Waiter>, n: nat)
    requires Exclusive(held) && n <= |ws|
    ensures Exclusive(Pass(held, ws, n).held)
    decreases n
  {
    if n > 0 {
      PassExclusive(held, ws, n - 1);
    }
  }

  lemma OfferedFresh(p: Passed, w: Waiter)
    requires Fresh(p.held, p.left) && w.id !in p.held && forall x | x in p.left :: x.id != w.id
    ensures Fresh(Offered(p, w).held, Offered(p, w).left)
  {
    forall i | 0 <= i < |p.left| ensures p.left[i].id != w.id {
      assert p.left[i] in p.left;
    }
  }

  lemma {:induction false} PassFresh(held: Leased, ws: seq<Waiter>, n: nat)
    requires Fresh(held, ws) && n <= |ws|
    ensures Fresh(Pass(held, ws, n).held, Pass(held, ws, n).left)
    decreases n
  {
    hide Grantable;
    if n > 0 {
      PassFresh(held, ws, n - 1);
      LaterNotHeld(held, ws, n - 1, n - 1);
      LeftFrom(held, ws, n - 1);
      OthersDiffer(held, ws, n - 1);
      OfferedFresh(Pass(held, ws, n - 1), ws[n - 1]);
    }
  }

  lemma KeysOfLeft(held: Leased, ws: seq<Waiter>, n: nat, a: Accesses)
    requires Fresh(held, ws) && n <= |ws|
    ensures var p := Pass(held, ws, n);
      KeysOf(p.left) !! a.Keys <==>
        forall j | 0 <= j < n && ws[j].id !in p.held :: ws[j].accesses.Keys !! a.Keys
  {
    var p := Pass(held, ws, n);
    PassSorts(held, ws, n);
    forall j | 0 <= j < n && ws[j].id !in p.held ensures ws[j].accesses.Keys <= KeysOf(p.left) {
    }
    forall k | k in KeysOf(p.left)
      ensures exists j :: 0 <= j < n && ws[j].id !in p.held && k in ws[j].accesses
    {
      var x :| x in p.left && k in x.accesses;
      var j :| 0 <= j < n && ws[j] == x;
    }
  }

  lemma AdmitsGranted(held: Leased, ws: seq<Waiter>, n: nat, a: Accesses)
    requires Fresh(held, ws) && n <= |ws|
    ensures var p := Pass(held, ws, n);
      Admits(p.held, a) <==>
        (Admits(held, a) && forall j | 0 <= j < n && ws[j].id in p.held :: Compatible(ws[j].accesses, a))
  {
    var p := Pass(held, ws, n);
    PassSorts(held, ws, n);
    forall id | id in p.held && id !in held
      ensures exists j :: 0 <= j < n && ws[j].id == id && ws[j].accesses == p.held[id]
    {
      assert Waiter(id, p.held[id]) in ws[..n];
    }
  }

  /**
   What a pass decides, without running it: a request is granted exactly when it is
   compatible with every lease held before, compatible with every request granted ahead
   of it, and shares no key with a request passed over ahead of it.
   */
  lemma GrantedExactlyWhen(held: Leased, ws: seq<Waiter>, i: nat)
    requires Fresh(held, ws) && i < |ws|
    ensures var granted := Pass(held, ws, |ws|).held;
      ws[i].id in granted <==>
        && Admits(held, ws[i].accesses)
        && forall j | 0 <= j < i ::
             if ws[j].id in granted then Compatible(ws[j].accesses, ws[i].accesses)
             else ws[j].accesses.Keys !! ws[i].accesses.Keys
  {
    var granted, early := Pass(held, ws, |ws|).held, Pass(held, ws, i).held;
    Decided(held, ws, i, |ws|);
    KeysOfLeft(held, ws, i, ws[i].accesses);
    AdmitsGranted(held, ws, i, ws[i].accesses);
    forall j | 0 <= j < i ensures ws[j].id in granted <==> ws[j].id in early {
      Decided(held, ws, j, |ws|);
      Decided(held, ws, j, i);
    }
  }

  lemma PassAppend(held: Leased, ws: seq<Waiter>, w: Waiter)
    ensures Pass(held, ws + [w], |ws| + 1) == Offered(Pass(held, ws, |ws|), w)
  {
    PassPrefix(held, ws, ws + [w], |ws|);
  }

  lemma NotGrantableLater(p: Passed, later: Leased, w: Waiter)
    requires !Grantable(p, w) && Extends(p.held, later)
    ensures !Grantable(Passed(later, p.left), w)
  {
    if Admits(later, w.accesses) {
      AdmitsFewer(p.held, later, w.accesses);
    }
  }

  ghost predicate Stuck(held: Leased, ws: seq<Waiter>) {
    Pass(held, ws, |ws|) == Passed(held, ws)
  }

  /** A second pass would grant nobody, whatever further leases were added in between. */
  lemma {:induction false} PassIdempotent(held: Leased, ws: seq<Waiter>, n: nat, later: Leased)
    requires Fresh(held, ws) && n <= |ws| && Extends(Pass(held, ws, n).held, later)
    ensures Stuck(later, Pass(held, ws, n).left)
    decreases n
  {
    if n > 0 {
      var p, w := Pass(held, ws, n - 1), ws[n - 1];
      PassGrows(held, ws, n - 1, n);
      PassIdempotent(held, ws, n - 1, later);
      if !Grantable(p, w) {
        PassAppend(later, p.left, w);
        NotGrantableLater(p, later, w);
      }
    }
  }

  ghost predicate Obstructed(held: Leased, ws: seq<Waiter>, i: nat)
    requires i < |ws|
  {
    !Grantable(Passed(held, ws[..i]), ws[i])
  }

  lemma SameTail(xs: seq<Waiter>, ys: seq<Waiter>, w: Waiter)
    ensures xs + [w] == ys + [w] <==> xs == ys
  {
    if xs + [w] == ys + [w] {
      assert xs == (xs + [w])[..|xs + [w]| - 1];
      assert ys == (ys + [w])[..|ys + [w]| - 1];
    }
  }

  lemma FixedStep(held: Leased, front: seq<Waiter>, p: Passed, w: Waiter)
    requires w.id !in held
    ensures Offered(p, w) == Passed(held, front + [w]) <==> p == Passed(held, front) && !Grantable(p, w)
  {
    hide Grantable;
    SameTail(p.left, front, w);
    if Grantable(p, w) {
      assert w.id in Offered(p, w).held;
    }
  }

  /** A pass over a prefix grants nobody exactly when every request in it is obstructed. */
  lemma {:induction false} FixedMeansObstructed(held: Leased, ws: seq<Waiter>, n: nat)
    requires Fresh(held, ws) && n <= |ws|
    ensures Pass(held, ws, n) == Passed(held, ws[..n]) <==> forall i | 0 <= i < n :: Obstructed(held, ws, i)
    decreases n
  {
    hide Grantable, Offered;
    if n > 0 {
      FixedMeansObstructed(held, ws, n - 1);
      assert ws[..n] == ws[..n - 1] + [ws[n - 1]];
      FixedStep(held, ws[..n - 1], Pass(held, ws, n - 1), ws[n - 1]);
      assert Obstructed(held, ws, n - 1) <==> !Grantable(Passed(held, ws[..n - 1]), ws[n - 1]);
    }
  }

  /** No request is overtaken: one left waiting keeps every later one off its keys. */
  lemma NoOvertaking(held: Leased, ws: seq<Waiter>, i: nat, j: nat)
    requires Fresh(held, ws) && i < j < |ws|
    requires ws[i].id !in Pass(held, ws, |ws|).held
    requires !(ws[i].accesses.Keys !! ws[j].accesses.Keys)
    ensures ws[j].id !in Pass(held, ws, |ws|).held
  {
    GrantedExactlyWhen(held, ws, j);
  }

  /** With somebody left waiting, somebody holds a lease that keeps the first of them out. */
  lemma WaitingNeedsHolder(held: Leased, ws: seq<Waiter>)
    requires Fresh(held, ws) && ws != [] && Stuck(held, ws)
    ensures exists id | id in held :: !Compatible(held[id], ws[0].accesses)
  {
    assert ws[..|ws|] == ws;
    FixedMeansObstructed(held, ws, |ws|);
    assert Obstructed(held, ws, 0);
    assert ws[..0] == [];
  }
}
