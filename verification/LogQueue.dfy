/**
 The bounded log queue. A full queue gives up its least important record for one at least as
 important: of equal levels the later arrival is kept.
 */
module LogQueue {

  /** A record by what the queue looks at: its level, and when it arrived. */
  datatype Item = Item(level: int, arrival: nat)

  predicate Below(a: Item, b: Item) {
    a.level < b.level || (a.level == b.level && a.arrival < b.arrival)
  }

  predicate InArrivalOrder(q: seq<Item>) {
    forall i, j | 0 <= i < j < |q| :: q[i].arrival < q[j].arrival
  }

  /** The `capacity` greatest of `all` by level, then arrival, listed in arrival order. */
  ghost predicate IsTop(q: seq<Item>, all: seq<Item>, capacity: nat) {
    && InArrivalOrder(q)
    && (forall x | x in q :: x in all)
    && (forall x, y | x in q && y in all && y !in q :: Below(y, x))
    && (if |all| <= capacity then q == all else |q| == capacity)
  }

  // ----- The queue is determined ------------------------------------------------------

  function Members(q: seq<Item>): set<Item> {
    set x | x in q
  }

  lemma {:induction false} OrderedCount(q: seq<Item>)
    requires InArrivalOrder(q)
    ensures |Members(q)| == |q|
  {
    if q != [] {
      var front, last := q[..|q| - 1], q[|q| - 1];
      OrderedCount(front);
      assert Members(q) == Members(front) + {last};
      assert last !in front;
    }
  }

  lemma MembersBefore(q: seq<Item>)
    requires InArrivalOrder(q) && q != []
    ensures InArrivalOrder(q[..|q| - 1]) && Members(q[..|q| - 1]) == Members(q) - {q[|q| - 1]}
    ensures q[|q| - 1] in Members(q) && forall x | x in Members(q) :: x.arrival <= q[|q| - 1].arrival
    ensures forall x | x in Members(q) && x.arrival == q[|q| - 1].arrival :: x == q[|q| - 1]
  {
    var front, last := q[..|q| - 1], q[|q| - 1];
    assert q == front + [last];
    assert forall x | x in front :: x in q && x.arrival < last.arrival;
  }

  lemma {:induction false} OrderedSame(a: seq<Item>, b: seq<Item>)
    requires InArrivalOrder(a) && InArrivalOrder(b) && Members(a) == Members(b)
    ensures a == b
  {
    hide Members, InArrivalOrder;
    OrderedCount(a);
    OrderedCount(b);
    if a != [] {
      MembersBefore(a);
      MembersBefore(b);
      assert a[|a| - 1] == b[|b| - 1];
      OrderedSame(a[..|a| - 1], b[..|b| - 1]);
      assert a == a[..|a| - 1] + [a[|a| - 1]] && b == b[..|b| - 1] + [b[|b| - 1]];
    }
  }

  /** There is one such queue: streaming keeps what sorting all of it would keep. */
  lemma TopIsUnique(a: seq<Item>, b: seq<Item>, all: seq<Item>, capacity: nat)
    requires IsTop(a, all, capacity) && IsTop(b, all, capacity)
    ensures a == b
  {
    OrderedCount(a);
    OrderedCount(b);
    if Members(a) == Members(b) {
      OrderedSame(a, b);
    } else {
      var x := SomeMissing(Members(a), Members(b));
      var y := SomeMissing(Members(b), Members(a));
    }
  }

  lemma SomeMissing(a: set<Item>, b: set<Item>) returns (x: Item)
    requires a != b && |a| == |b|
    ensures x in a && x !in b
  {
    if forall y | y in a :: y in b {
      SubsetOfSize(a, b);
    }
    x :| x in a && x !in b;
  }

  lemma SubsetOfSize(a: set<Item>, b: set<Item>)
    requires a <= b && |a| == |b|
    ensures a == b
  {
    assert b == a + (b - a);
  }

  // ----- One record more --------------------------------------------------------------

  /** The first of the least important records. */
  predicate IsLowest(q: seq<Item>, at: nat) {
    && at < |q|
    && (forall i | 0 <= i < |q| :: q[at].level <= q[i].level)
    && (forall i | 0 <= i < at :: q[at].level < q[i].level)
  }

  method FindLowest(q: seq<Item>) returns (at: nat)
    requires q != []
    ensures IsLowest(q, at)
  {
    at := 0;
    for n := 1 to |q|
      invariant at < n
      invariant forall i | 0 <= i < n :: q[at].level <= q[i].level
      invariant forall i | 0 <= i < at :: q[at].level < q[i].level
    {
      if q[n].level < q[at].level {
        at := n;
      }
    }
  }

  function Replaced(q: seq<Item>, at: nat, x: Item): seq<Item>
    requires at < |q|
  {
    q[..at] + q[at + 1..] + [x]
  }

  predicate Newest(all: seq<Item>, x: Item) {
    forall y | y in all :: y.arrival < x.arrival
  }

  lemma RoomForOne(q: seq<Item>, all: seq<Item>, capacity: nat, x: Item)
    requires IsTop(q, all, capacity) && InArrivalOrder(all) && Newest(all, x) && |q| < capacity
    ensures IsTop(q + [x], all + [x], capacity)
  {
    assert q == all;
  }

  lemma LowestIsBelow(q: seq<Item>, at: nat, y: Item)
    requires InArrivalOrder(q) && IsLowest(q, at) && y in q && y != q[at]
    ensures Below(q[at], y)
  {
    var i :| 0 <= i < |q| && q[i] == y;
  }

  lemma ReplacedMembers(q: seq<Item>, at: nat, x: Item)
    requires InArrivalOrder(q) && at < |q|
    ensures forall y :: y in Replaced(q, at, x) <==> y == x || (y in q && y != q[at])
  {
    var r := Replaced(q, at, x);
    forall y | y in q && y != q[at]
      ensures y in r
    {
      var i :| 0 <= i < |q| && q[i] == y;
      assert i < at ==> r[i] == y;
      assert i > at ==> r[i - 1] == y;
    }
    forall y | y in r && y != x
      ensures y in q && y != q[at]
    {
      var i :| 0 <= i < |r| && r[i] == y;
      assert i < at ==> y == q[i];
      assert i >= at ==> y == q[i + 1];
    }
    assert r[|r| - 1] == x;
  }

  lemma LowestGivesWay(q: seq<Item>, all: seq<Item>, capacity: nat, at: nat, x: Item)
    requires IsTop(q, all, capacity) && InArrivalOrder(all) && Newest(all, x) && |q| == capacity
    requires IsLowest(q, at) && q[at].level <= x.level
    ensures IsTop(Replaced(q, at, x), all + [x], capacity)
  {
    var r := Replaced(q, at, x);
    ReplacedMembers(q, at, x);
    assert q[at] in q;
    forall a, b | a in r && b in all + [x] && b !in r
      ensures Below(b, a)
    {
      if b == q[at] {
        if a != x {
          LowestIsBelow(q, at, a);
        }
      } else {
        assert b in all && b !in q;
        assert Below(b, q[at]);
      }
    }
  }

  lemma NewcomerIsTooLow(q: seq<Item>, all: seq<Item>, capacity: nat, at: nat, x: Item)
    requires IsTop(q, all, capacity) && Newest(all, x) && |q| == capacity
    requires IsLowest(q, at) && x.level < q[at].level
    ensures IsTop(q, all + [x], capacity)
  {
  }

  lemma NoRoomAtAll(q: seq<Item>, all: seq<Item>, x: Item)
    requires IsTop(q, all, 0)
    ensures q == [] && IsTop([], all + [x], 0)
  {
  }

  lemma PopLeavesTop(q: seq<Item>, all: seq<Item>, capacity: nat)
    requires IsTop(q, all, capacity) && q != []
    ensures IsTop(q[1..], q[1..], capacity) && |q| <= capacity
  {
  }

  /** A record for a full queue: the first of the lowest gives way unless it is more important. */
  method Crowd(queue: seq<Item>, ghost all: seq<Item>, capacity: nat, x: Item) returns (r: seq<Item>)
    requires IsTop(queue, all, capacity) && InArrivalOrder(all) && Newest(all, x) && |queue| == capacity > 0
    ensures IsTop(r, all + [x], capacity) && |r| == |queue|
  {
    var lowest := FindLowest(queue);
    if queue[lowest].level <= x.level {
      LowestGivesWay(queue, all, capacity, lowest, x);
      r := queue[..lowest] + queue[lowest + 1..] + [x];
    } else {
      NewcomerIsTooLow(queue, all, capacity, lowest, x);
      r := queue;
    }
  }

  // ----- The native sink --------------------------------------------------------------

  class LogSink {
    const capacity: nat
    var queue: seq<Item>
    var dropped: nat
    var closing: bool
    /** What the queue held after the last pop, and what was enqueued since. */
    ghost var offered: seq<Item>
    /** How many were enqueued; the next one's place in the order of arrival. */
    var arrivals: nat
    ghost var popped: nat
    ghost var reported: nat

    ghost predicate Valid()
      reads this
    {
      && IsTop(queue, offered, capacity) && InArrivalOrder(offered)
      && (forall y | y in offered :: y.arrival < arrivals)
      && arrivals == |queue| + popped + reported + dropped
      && (capacity > 0 && queue == [] ==> dropped == 0)
      && (capacity == 0 ==> popped == 0 && reported == 0)
    }

    constructor (capacity: nat)
      ensures Valid() && this.capacity == capacity && queue == [] && arrivals == 0 && !closing
    {
      this.capacity, queue, dropped, closing := capacity, [], 0, false;
      offered, arrivals, popped, reported := [], 0, 0, 0;
    }

    /** Every record enqueued before the close is queued, popped, or counted as dropped. */
    method Enqueue(level: int)
      requires Valid()
      modifies `queue, `dropped, `offered, `arrivals
      ensures Valid()
      ensures old(closing) ==> queue == old(queue) && dropped == old(dropped) && arrivals == old(arrivals)
      ensures !old(closing) ==> arrivals == old(arrivals) + 1 && offered == old(offered) + [Item(level, old(arrivals))]
    {
      if closing {
        return;
      }
      ghost var before := offered;
      var x := Item(level, arrivals);
      if |queue| == capacity {
        if queue == [] {
          NoRoomAtAll(queue, before, x);
        } else {
          queue := Crowd(queue, before, capacity, x);
        }
        dropped := dropped + 1;
      } else {
        RoomForOne(queue, before, capacity, x);
        queue := queue + [x];
      }
      offered := before + [x];
      arrivals := arrivals + 1;
    }

    method Close()
      requires Valid()
      modifies `closing
      ensures Valid() && closing
    {
      closing := true;
    }

    /**
     The sender takes the oldest record and reports the drops since the last one; it ends when
     closing empties the queue. By then every record was popped or reported as dropped, exactly
     unless records came to a sink without capacity, whose sender never wakes to report.
     */
    method TakeNext() returns (ended: bool, item: Item, droppedBefore: nat)
      requires Valid() && (queue != [] || closing)
      modifies `queue, `dropped, `offered, `popped, `reported
      ensures Valid()
      ensures ended <==> old(queue) == []
      ensures ended ==> queue == old(queue) && dropped == old(dropped)
      ensures ended ==> popped == old(popped) && reported == old(reported)
      ensures ended ==> (arrivals == popped + reported <==> capacity > 0 || arrivals == 0)
      ensures !ended ==>
        && item == old(queue)[0] && queue == offered == old(queue)[1..]
        && droppedBefore == old(dropped) && dropped == 0
        && popped == old(popped) + 1 && reported == old(reported) + droppedBefore
    {
      item, droppedBefore := Item(0, 0), 0;
      ended := queue == [];
      if !ended {
        PopLeavesTop(queue, offered, capacity);
        item, droppedBefore := queue[0], dropped;
        assert forall y | y in queue[1..] :: y in queue;
        queue, dropped := queue[1..], 0;
        offered, popped, reported := queue, popped + 1, reported + droppedBefore;
      }
    }
  }

  lemma TailIsOld(q: seq<Item>, all: seq<Item>, last: nat)
    requires q != [] && (forall y | y in q :: y in all) && (forall y | y in all :: y.arrival <= last)
    ensures forall y | y in q[1..] :: y.arrival <= last
  {
  }

  // ----- The Python logger ------------------------------------------------------------

  /** A record on its way out, with the drops it reports. */
  datatype Delivery = NoDelivery | Delivering(item: Item, droppedBefore: nat)

  class AsyncLogger {
    const capacity: nat
    var queue: seq<Item>
    var dropped: nat
    var sequence: nat
    var delivery: Delivery
    ghost var offered: seq<Item>
    ghost var accepted: nat
    ghost var delivered: nat
    ghost var reported: nat

    ghost function InDelivery(): nat
      reads this
    {
      if delivery.Delivering? then 1 + delivery.droppedBefore else 0
    }

    ghost predicate Valid()
      reads this
    {
      && IsTop(queue, offered, capacity) && InArrivalOrder(offered)
      && (forall y | y in offered :: y.arrival <= sequence)
      && accepted == |queue| + delivered + reported + dropped + InDelivery()
    }

    constructor (capacity: nat)
      ensures Valid() && this.capacity == capacity && queue == [] && delivery == NoDelivery
    {
      this.capacity, queue, dropped, sequence, delivery := capacity, [], 0, 0, NoDelivery;
      offered, accepted, delivered, reported := [], 0, 0, 0;
    }

    /**
     A record at or above the level. With no capacity at all the search for the least important
     one fails, and the record is lost without being counted.
     */
    method Log(level: int) returns (counted: bool)
      requires Valid()
      modifies `queue, `dropped, `sequence, `offered, `accepted
      ensures Valid() && sequence == old(sequence) + 1
      ensures counted <==> capacity > 0
      ensures counted ==> offered == old(offered) + [Item(level, sequence)] && accepted == old(accepted) + 1
      ensures !counted ==> queue == old(queue) && dropped == old(dropped) && accepted == old(accepted)
    {
      ghost var before := offered;
      sequence := sequence + 1;
      var x := Item(level, sequence);
      if |queue| >= capacity {
        if queue == [] {
          return false;
        }
        queue := Crowd(queue, before, capacity, x);
        dropped := dropped + 1;
      } else {
        RoomForOne(queue, before, capacity, x);
        queue := queue + [x];
      }
      offered, accepted, counted := before + [x], accepted + 1, true;
    }

    method TakeNext()
      requires Valid() && queue != [] && delivery == NoDelivery
      modifies `queue, `dropped, `delivery, `offered
      ensures Valid() && delivery == Delivering(old(queue)[0], old(dropped)) && dropped == 0
      ensures queue == offered == old(queue)[1..]
    {
      PopLeavesTop(queue, offered, capacity);
      TailIsOld(queue, offered, sequence);
      delivery := Delivering(queue[0], dropped);
      queue, dropped := queue[1..], 0;
      offered := queue;
    }

    /** A delivery that fails counts as dropped, along with the drops it was to report. */
    method EndDelivery(ok: bool)
      requires Valid() && delivery.Delivering?
      modifies `dropped, `delivery, `delivered, `reported
      ensures Valid() && delivery == NoDelivery
      ensures ok ==> dropped == old(dropped) && delivered == old(delivered) + 1
                     && reported == old(reported) + old(delivery).droppedBefore
      ensures !ok ==> dropped == old(dropped) + old(delivery).droppedBefore + 1 && delivered == old(delivered)
    {
      if ok {
        delivered, reported := delivered + 1, reported + delivery.droppedBefore;
      } else {
        dropped := dropped + delivery.droppedBefore + 1;
      }
      delivery := NoDelivery;
    }
  }
}
