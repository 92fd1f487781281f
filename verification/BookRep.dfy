/**
 The arena book's representation as a whole: two sides over one slot array, each live
 slot in one queue of one side except the taker in flight.
 */
module BookRep {
  import opened Types
  import opened Seqs
  import opened OrderPools
  import opened BookSpec
  import opened Ladders
  import opened LadderSteps
  import opened PriceLadders

  // Two opposite sides, and the in-flight slot (NULL_IDX between operations).
  ghost predicate SidesInv(s: seq<Order>, v: Ladder, u: Ladder, flying: int) {
    && LadderInv(s, v) && LadderInv(s, u) && u.side == Opposite(v.side)
    && forall i :: 0 <= i < |s| ==> (InFlight(s[i]) <==> i == flying)
  }

  function BookOf(s: seq<Order>, bids: Ladder, asks: Ladder): Book {
    Book(Abs(s, bids), Abs(s, asks))
  }

  lemma FreshSides(s: seq<Order>, low: Price, n: nat)
    requires 1 <= n <= 2 * MAX_RADIUS + 1 && low + n <= INT64_MAX
    requires forall i :: 0 <= i < |s| ==> s[i].orderId == INVALID_ORDER_ID
    ensures SidesInv(s, EmptyLadder(Buy, low, n), EmptyLadder(Sell, low, n), NULL_IDX)
    ensures BookOf(s, EmptyLadder(Buy, low, n), EmptyLadder(Sell, low, n)) == Book(map[], map[])
  {
    EmptyLadderInv(s, Buy, low, n);
    EmptyLadderInv(s, Sell, low, n);
  }

  // ----- What the representation means

  lemma AbsOrder(s: seq<Order>, v: Ladder, p: Price, k: int)
    requires LadderInv(s, v) && p in v.fifo && 0 <= k < |v.fifo[p]|
    ensures 0 <= v.fifo[p][k] < |s| && RestsAt(s, v, v.fifo[p][k], k) && s[v.fifo[p][k]].price == p
    ensures Abs(s, v)[p][k] == View(s, v.fifo[p][k])
    ensures OrderOk(Abs(s, v)[p][k], v.side, p)
  {
    assert ChainInv(s, v.side, p, LevelIdx(v, p), v.fifo[p]);
    assert Linked(s, v.side, p, LevelIdx(v, p), v.fifo[p], k);
  }

  lemma AbsOk(s: seq<Order>, v: Ladder)
    requires LadderInv(s, v)
    ensures LevelsOk(Abs(s, v), v.side)
  {
    forall p | p in v.fifo
      ensures QueueOk(Abs(s, v)[p], v.side, p)
    {
      forall k | 0 <= k < |v.fifo[p]|
        ensures OrderOk(Abs(s, v)[p][k], v.side, p)
      {
        AbsOrder(s, v, p, k);
      }
    }
  }

  // An id rests where its slot says, and nowhere else.
  lemma HoldsMeans(s: seq<Order>, head: I32, live: int, free: seq<int>, v: Ladder,
                   id: OrderId, p: Price, k: int)
    requires PoolInv(s, head, live, free) && LadderInv(s, v) && Holds(Abs(s, v), id, p, k)
    ensures IndexOf(id) < |s| && s[IndexOf(id)].orderId == id && RestsOn(s[IndexOf(id)], v.side)
    ensures s[IndexOf(id)].price == p && v.fifo[p][k] == IndexOf(id)
  {
    AbsOrder(s, v, p, k);
  }

  lemma AbsUnique(s: seq<Order>, head: I32, live: int, free: seq<int>, v: Ladder)
    requires PoolInv(s, head, live, free) && LadderInv(s, v)
    ensures UniqueOn(Abs(s, v))
  {
    forall id: OrderId, p: Price, k: int, q: Price, j: int | Holds(Abs(s, v), id, p, k) && Holds(Abs(s, v), id, q, j)
      ensures p == q && k == j
    {
      HoldsMeans(s, head, live, free, v, id, p, k);
      HoldsMeans(s, head, live, free, v, id, q, j);
      assert ChainInv(s, v.side, p, LevelIdx(v, p), v.fifo[p]);
    }
  }

  lemma OpenOnMeans(s: seq<Order>, head: I32, live: int, free: seq<int>, v: Ladder, id: OrderId)
    requires PoolInv(s, head, live, free) && LadderInv(s, v)
    ensures OpenOn(Abs(s, v), id) <==>
      id != INVALID_ORDER_ID && IndexOf(id) < |s| && s[IndexOf(id)].orderId == id && RestsOn(s[IndexOf(id)], v.side)
  {
    if OpenOn(Abs(s, v), id) {
      var p, k :| Holds(Abs(s, v), id, p, k);
      HoldsMeans(s, head, live, free, v, id, p, k);
    }
    var i := IndexOf(id);
    if id != INVALID_ORDER_ID && i < |s| && s[i].orderId == id && RestsOn(s[i], v.side) {
      var k := PositionOf(s, v, i);
      AbsOrder(s, v, s[i].price, k);
      assert Holds(Abs(s, v), id, s[i].price, k);
    }
  }

  lemma PositionOf(s: seq<Order>, v: Ladder, i: int) returns (k: int)
    requires LadderInv(s, v) && 0 <= i < |s| && RestsOn(s[i], v.side)
    ensures RestsAt(s, v, i, k)
  {
    assert i in QueueAt(v.fifo, s[i].price);
    k :| 0 <= k < |QueueAt(v.fifo, s[i].price)| && QueueAt(v.fifo, s[i].price)[k] == i;
  }

  ghost predicate InFifo(s: seq<Order>, v: Ladder, i: int) {
    exists k: int :: RestsAt(s, v, i, k)
  }

  // Every slot is in exactly one of the free list, one queue of one side, and the
  // in-flight taker's hands.
  lemma SlotsPartition(s: seq<Order>, head: I32, live: int, free: seq<int>, v: Ladder, u: Ladder, flying: int, i: int)
    requires PoolInv(s, head, live, free) && SidesInv(s, v, u, flying) && 0 <= i < |s|
    ensures i in free || InFifo(s, v, i) || InFifo(s, u, i) || i == flying
    ensures i in free ==> !InFifo(s, v, i) && !InFifo(s, u, i) && i != flying
    ensures InFifo(s, v, i) ==> !InFifo(s, u, i) && i != flying
    ensures InFifo(s, u, i) ==> i != flying
    ensures forall p: Price, q: Price, j: int, k: int ::
      RestsIn(v, i, p, j) && RestsIn(v, i, q, k) ==> p == q && j == k
  {
    if RestsOn(s[i], v.side) {
      var k := PositionOf(s, v, i);
    } else if RestsOn(s[i], u.side) {
      var k := PositionOf(s, u, i);
    }
    forall p: Price, q: Price, j: int, k: int | RestsIn(v, i, p, j) && RestsIn(v, i, q, k)
      ensures p == q && j == k
    {
      AbsOrder(s, v, p, j);
      AbsOrder(s, v, q, k);
    }
  }

  ghost predicate RestsIn(v: Ladder, i: int, p: Price, k: int) {
    p in v.fifo && 0 <= k < |v.fifo[p]| && v.fifo[p][k] == i
  }

  // Open orders are the pool's live ids, save the taker's.
  lemma RepMeansOk(s: seq<Order>, head: I32, live: int, free: seq<int>, bids: Ladder, asks: Ladder, flying: int)
    requires PoolInv(s, head, live, free) && bids.side == Buy && SidesInv(s, bids, asks, flying)
    ensures PoolOk(PoolOf(s, free)) && BookOk(BookOf(s, bids, asks))
    ensures forall id :: Open(BookOf(s, bids, asks), id) <==>
      Live(PoolOf(s, free), id) && IndexOf(id) != flying
  {
    InvMeansPoolOk(s, head, live, free);
    AbsOk(s, bids);
    AbsOk(s, asks);
    AbsUnique(s, head, live, free, bids);
    AbsUnique(s, head, live, free, asks);
    var b := BookOf(s, bids, asks);
    forall id
      ensures !(OpenOn(b.bids, id) && OpenOn(b.asks, id))
      ensures Open(b, id) <==> Live(PoolOf(s, free), id) && IndexOf(id) != flying
    {
      OpenOnMeans(s, head, live, free, bids, id);
      OpenOnMeans(s, head, live, free, asks, id);
      if IndexOf(id) < |s| {
        assert InFlight(s[IndexOf(id)]) <==> IndexOf(id) == flying;
      }
    }
  }

  // The front order at p.
  lemma FrontOrder(s: seq<Order>, v: Ladder, p: Price)
    requires LadderInv(s, v) && p in v.fifo
    ensures var i := LevelOf(v, p).head;
            0 <= i < |s| && RestsAt(s, v, i, 0) && s[i].price == p && At(v.fifo[p], 0) == i
            && Abs(s, v)[p][0] == View(s, i) && 1 <= s[i].remaining <= LevelOf(v, p).total
            && !InFlight(s[i])
  {
    AbsOrder(s, v, p, 0);
    assert LevelOk(LevelOf(v, p), s, QueueAt(v.fifo, p));
    assert QueueQty(Queue(s, v.fifo[p])) >= Queue(s, v.fifo[p])[0].remaining;
  }

  // ----- Changes between the ladder operations

  // Slots in no queue, before and after, may change freely.
  lemma IdleSlot(s: seq<Order>, t: seq<Order>, v: Ladder, u: Ladder, i: int, flying: int, flyingAfter: int)
    requires SidesInv(s, v, u, flying) && 0 <= i < |s| && |t| == |s|
    requires forall j :: 0 <= j < |s| && j != i ==> t[j] == s[j]
    requires forall side :: !RestsOn(s[i], side) && !RestsOn(t[i], side)
    requires forall j :: 0 <= j < |s| ==> (InFlight(t[j]) <==> j == flyingAfter)
    ensures SidesInv(t, v, u, flyingAfter) && Abs(t, v) == Abs(s, v) && Abs(t, u) == Abs(s, u)
  {
    SideFrame(s, t, v);
    SideFrame(s, t, u);
  }

  lemma AfterPush(s: seq<Order>, t: seq<Order>, v: Ladder, w: Ladder, u: Ladder, i: int)
    requires SidesInv(s, v, u, i) && 0 <= i < |s| && PushedAs(s, v, i, t, w)
    ensures SidesInv(t, w, u, NULL_IDX) && Abs(t, u) == Abs(s, u)
  {
    SideFrame(s, t, u);
  }

  lemma AfterRemove(s: seq<Order>, t: seq<Order>, v: Ladder, w: Ladder, u: Ladder, i: int, k: int, flying: int)
    requires SidesInv(s, v, u, flying) && RestsAt(s, v, i, k) && RemovedAs(s, v, i, k, t, w)
    requires s[i].orderId != INVALID_ORDER_ID
    ensures LadderInv(t, w) && LadderInv(t, u) && Abs(t, u) == Abs(s, u)
    ensures forall j :: 0 <= j < |s| ==> (InFlight(t[j]) <==> j == flying || j == i)
  {
    SideFrame(s, t, u);
  }

  // Removing a resting order and freeing its slot.
  lemma AfterRelease(t: seq<Order>, r: seq<Order>, w: Ladder, u: Ladder, i: int, flying: int)
    requires LadderInv(t, w) && LadderInv(t, u) && u.side == Opposite(w.side)
    requires 0 <= i < |t| && |r| == |t| && i != flying
    requires forall j :: 0 <= j < |t| ==> (InFlight(t[j]) <==> j == flying || j == i)
    requires forall j :: 0 <= j < |t| && j != i ==> r[j] == t[j]
    requires r[i].orderId == INVALID_ORDER_ID
    ensures SidesInv(r, w, u, flying) && Abs(r, w) == Abs(t, w) && Abs(r, u) == Abs(t, u)
  {
    SideFrame(t, r, w);
    SideFrame(t, r, u);
  }

  lemma AfterDebit(s: seq<Order>, v: Ladder, u: Ladder, p: Price, i: int, fill: Qty, flying: int)
    requires SidesInv(s, v, u, flying) && p in v.fifo && 0 <= i < |s| && At(v.fifo[p], 0) == i
    requires fill < s[i].remaining && LevelOf(v, p).total >= fill && LevelOf(v, p).head != NULL_IDX
    ensures var t, w := DebitSlots(s, i, fill), DebitLadder(v, p, fill);
            && SidesInv(t, w, u, flying) && SamePool(s, t) && Abs(t, u) == Abs(s, u)
            && (0 <= flying < |s| ==> t[flying] == s[flying])
            && Abs(t, w) == SetQueue(Abs(s, v), p, FillFront(Abs(s, v)[p], fill))
  {
    AbsOrder(s, v, p, 0);
    assert !InFlight(s[i]);
    DebitOk(s, v, p, i, fill);
    DebitTouches(s, v, p, i, fill);
    SideFrame(s, DebitSlots(s, i, fill), u);
  }

  // Removing a resting order from its queue and freeing its slot.
  lemma AfterTakeOut(s: seq<Order>, t: seq<Order>, r: seq<Order>, v: Ladder, w: Ladder, u: Ladder,
                     i: int, k: int, flying: int)
    requires SidesInv(s, v, u, flying) && RestsAt(s, v, i, k) && RemovedAs(s, v, i, k, t, w)
    requires s[i].orderId != INVALID_ORDER_ID && |r| == |t|
    requires forall j :: 0 <= j < |t| && j != i ==> r[j] == t[j]
    requires r[i].orderId == INVALID_ORDER_ID
    ensures SidesInv(r, w, u, flying) && Abs(r, u) == Abs(s, u)
    ensures 0 <= flying < |s| ==> r[flying] == s[flying]
    ensures Abs(r, w) == SetQueue(Abs(s, v), s[i].price, RemoveAt(Abs(s, v)[s[i].price], k))
  {
    AfterRemove(s, t, v, w, u, i, k, flying);
    assert !InFlight(s[i]);
    AfterRelease(t, r, w, u, i, flying);
  }

  // A full fill takes out the front order, a partial one debits it: either way FillFront.
  lemma FillFrontFull(s: seq<Order>, v: Ladder, p: Price)
    requires LadderInv(s, v) && p in v.fifo
    ensures FillFront(Abs(s, v)[p], Abs(s, v)[p][0].remaining) == RemoveAt(Abs(s, v)[p], 0)
  {
    AbsOrder(s, v, p, 0);
  }
}
