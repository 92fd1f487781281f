/**
 What push_order, remove_order and a partial fill make of one side: the new slots
 and records as functions of the old ones, and the proofs that they keep the
 invariant and perform the book's queue operations.
 */
module LadderSteps {
  import opened Types
  import opened Seqs
  import opened OrderPools
  import opened BookSpec
  import opened Ladders

  // ----- push_order

  // Slot i is filled in and linked nowhere.
  ghost predicate ReadyToRest(s: seq<Order>, i: int, side: Side) {
    && 0 <= i < |s| <= MAX_CAPACITY
    && s[i].orderId != INVALID_ORDER_ID && s[i].levelIdx == NULL_IDX
    && s[i].prev == NULL_IDX && s[i].next == NULL_IDX
    && s[i].side == side && 1 <= s[i].remaining <= s[i].qty
  }

  function PushSlots(s: seq<Order>, v: Ladder, i: int): seq<Order>
    requires 0 <= i < |s| <= MAX_CAPACITY && LevelOf(v, s[i].price).tail < |s|
    requires |v.levels| <= INT32_MAX
  {
    var t := LinkedBack(s, LevelOf(v, s[i].price).tail, i);
    t[i := t[i].(levelIdx := LevelIdx(v, s[i].price))]
  }

  // The record after push_back.
  function PushRecord(l: PriceLevel, i: I32, remaining: Qty): PriceLevel
    requires l.total + remaining <= UINT64_MAX && l.count < UINT32_MAX
  {
    PriceLevel(if l.tail != NULL_IDX then l.head else i, i, l.count + 1, l.total + remaining)
  }

  lemma PushFits(s: seq<Order>, v: Ladder, i: int)
    requires LadderInv(s, v) && ReadyToRest(s, i, v.side)
    ensures ShapeOk(v) && v.bandOrders < UINT32_MAX
    ensures LevelOf(v, s[i].price).total + s[i].remaining <= UINT64_MAX
    ensures LevelOf(v, s[i].price).count < UINT32_MAX
    ensures -1 <= LevelOf(v, s[i].price).tail < |s|
    ensures LevelOf(v, s[i].price).tail == NULL_IDX <==> QueueAt(v.fifo, s[i].price) == []
    ensures i !in QueueAt(v.fifo, s[i].price)
    ensures LevelOf(v, s[i].price).tail != i
    ensures LevelOf(v, s[i].price).tail != NULL_IDX ==> LevelOf(v, s[i].price).head != NULL_IDX
  {
    var p := s[i].price;
    var q := QueueAt(v.fifo, p);
    TotalBound(s, v, p);
    BandBound(s, v, i);
    assert LevelOk(LevelOf(v, p), s, q);
    if q != [] {
      forall k | 0 <= k < |q|
        ensures 0 <= q[k] < |s| && q[k] != i
      {
        assert Linked(s, v.side, p, LevelIdx(v, p), q, k);
      }
    }
  }

  lemma PushRecordOk(s: seq<Order>, v: Ladder, i: int)
    requires LadderInv(s, v) && ReadyToRest(s, i, v.side)
    requires -1 <= LevelOf(v, s[i].price).tail < |s| && i !in QueueAt(v.fifo, s[i].price)
    requires LevelOf(v, s[i].price).tail == NULL_IDX <==> QueueAt(v.fifo, s[i].price) == []
    requires LevelOf(v, s[i].price).total + s[i].remaining <= UINT64_MAX
    requires LevelOf(v, s[i].price).count < UINT32_MAX
    ensures LevelOk(PushRecord(LevelOf(v, s[i].price), i, s[i].remaining),
                    PushSlots(s, v, i), QueueAt(v.fifo, s[i].price) + [i])
    ensures Queue(PushSlots(s, v, i), QueueAt(v.fifo, s[i].price) + [i])
         == Queue(s, QueueAt(v.fifo, s[i].price)) + [View(s, i)]
  {
    var p := s[i].price;
    var q := QueueAt(v.fifo, p);
    assert LevelOk(LevelOf(v, p), s, q);
    PushView(s, q, i, LevelIdx(v, p));
    QueueQtyConcat(Queue(s, q), [View(s, i)]);
    assert QueueQty([View(s, i)]) == View(s, i).remaining + QueueQty([]);
  }

  lemma PushTouches(s: seq<Order>, v: Ladder, i: int)
    requires QueuesOk(s, v) && RecordsOk(s, v) && ReadyToRest(s, i, v.side) && |v.levels| <= INT32_MAX
    requires -1 <= LevelOf(v, s[i].price).tail < |s| && LevelOf(v, s[i].price).tail != i
    ensures OnlyAt(s, PushSlots(s, v, i), v.side, s[i].price, QueueAt(v.fifo, s[i].price) + [i])
    ensures Keeps(s, PushSlots(s, v, i), Opposite(v.side))
    ensures SamePool(s, PushSlots(s, v, i))
    ensures forall j :: 0 <= j < |s| && j != i ==> PushSlots(s, v, i)[j].levelIdx == s[j].levelIdx
  {
    var p := s[i].price;
    var q := QueueAt(v.fifo, p);
    var tail := LevelOf(v, p).tail;
    assert tail == At(q, |q| - 1) by {
      assert LevelOk(LevelOf(v, p), s, q);
    }
    if q != [] {
      assert ChainInv(s, v.side, p, LevelIdx(v, p), q);
      assert Linked(s, v.side, p, LevelIdx(v, p), q, |q| - 1);
    }
    forall j | 0 <= j < |s| && RestsOn(s[j], v.side) && s[j].price == p
      ensures j in q + [i]
    {
      assert j in QueueAt(v.fifo, s[j].price);
    }
  }

  // The side after push_order.
  function PushLadder(s: seq<Order>, v: Ladder, i: int): Ladder
    requires 0 <= i < |s| <= MAX_CAPACITY && v.bandOrders < UINT32_MAX && |v.levels| <= INT32_MAX
    requires LevelOf(v, s[i].price).total + s[i].remaining <= UINT64_MAX
    requires LevelOf(v, s[i].price).count < UINT32_MAX
  {
    var p := s[i].price;
    var w := SetLevel(v, p, PushRecord(LevelOf(v, p), i, s[i].remaining));
    var improves := InBand(v, p) && (v.best == NULL_IDX || Better(v.side, p - v.low, v.best));
    w.(fifo := SetQueue(v.fifo, p, QueueAt(v.fifo, p) + [i]),
       bandOrders := if InBand(v, p) then v.bandOrders + 1 else v.bandOrders,
       best := if improves then p - v.low else v.best)
  }

  lemma PushStructure(s: seq<Order>, v: Ladder, i: int)
    requires LadderInv(s, v) && ReadyToRest(s, i, v.side)
    requires -1 <= LevelOf(v, s[i].price).tail < |s| && v.bandOrders < UINT32_MAX
    requires LevelOf(v, s[i].price).total + s[i].remaining <= UINT64_MAX
    requires LevelOf(v, s[i].price).count < UINT32_MAX
    ensures QueuesOk(PushSlots(s, v, i), PushLadder(s, v, i))
    ensures RecordsOk(PushSlots(s, v, i), PushLadder(s, v, i))
    ensures Abs(PushSlots(s, v, i), PushLadder(s, v, i))
         == SetQueue(Abs(s, v), s[i].price, Queue(s, QueueAt(v.fifo, s[i].price)) + [View(s, i)])
  {
    var p, t, w := s[i].price, PushSlots(s, v, i), PushLadder(s, v, i);
    var q := QueueAt(v.fifo, p);
    var l := PushRecord(LevelOf(v, p), i, s[i].remaining);
    PushFits(s, v, i);
    PushTouches(s, v, i);
    assert LevelOk(LevelOf(v, p), s, q);
    PushLinks(s, v.side, p, LevelIdx(v, p), q, i);
    PushRecordOk(s, v, i);
    UpdateQueues(s, t, v, p, q + [i]);
    QueuesAlike(t, v.(fifo := SetQueue(v.fifo, p, q + [i])), w);
    UpdateAbs(s, t, v, p, q + [i]);
    forall k | 0 <= k < |q + [i]|
      ensures (q + [i])[k] >= 0
    {
      assert Linked(t, v.side, p, LevelIdx(v, p), q + [i], k);
    }
    UpdateRecords(s, t, v, p, q + [i], l);
    RecordsAlike(t, SetLevel(v, p, l).(fifo := SetQueue(v.fifo, p, q + [i])), w);
  }

  lemma PushBest(s: seq<Order>, v: Ladder, i: int)
    requires 0 <= i < |s| <= MAX_CAPACITY && ShapeOk(v) && BestOk(v) && v.bandOrders < UINT32_MAX
    requires LevelOf(v, s[i].price).total + s[i].remaining <= UINT64_MAX
    requires LevelOf(v, s[i].price).count < UINT32_MAX
    ensures BestOk(PushLadder(s, v, i))
  {
    var p, w := s[i].price, PushLadder(s, v, i);
    assert w.fifo.Keys == v.fifo.Keys + {p};
    assert forall r: Price :: InBand(w, r) <==> InBand(v, r);
  }

  lemma PushOk(s: seq<Order>, v: Ladder, i: int)
    requires LadderInv(s, v) && ReadyToRest(s, i, v.side)
    requires -1 <= LevelOf(v, s[i].price).tail < |s| && v.bandOrders < UINT32_MAX
    requires LevelOf(v, s[i].price).total + s[i].remaining <= UINT64_MAX
    requires LevelOf(v, s[i].price).count < UINT32_MAX
    ensures LadderInv(PushSlots(s, v, i), PushLadder(s, v, i))
    ensures Abs(PushSlots(s, v, i), PushLadder(s, v, i))
         == Abs(s, v)[s[i].price := QueueAt(Abs(s, v), s[i].price) + [View(s, i)]]
  {
    var p := s[i].price;
    PushStructure(s, v, i);
    PushBest(s, v, i);
    if InBand(v, p) {
      CountSumUpdate(v.levels, p - v.low, PushRecord(LevelOf(v, p), i, s[i].remaining));
    }
    assert QueueAt(Abs(s, v), p) == Queue(s, QueueAt(v.fifo, p));
  }

  // ----- remove_order

  // Order i rests at position k of the queue at its price.
  ghost predicate RestsAt(s: seq<Order>, v: Ladder, i: int, k: int) {
    0 <= i < |s| && RestsOn(s[i], v.side) && s[i].price in v.fifo
    && 0 <= k < |v.fifo[s[i].price]| && v.fifo[s[i].price][k] == i
  }

  // The record after unlink.
  function RemoveRecord(l: PriceLevel, o: Order): PriceLevel
    requires l.count > 0 && l.total >= o.remaining
  {
    PriceLevel(if o.prev == NULL_IDX then o.next else l.head,
               if o.next == NULL_IDX then o.prev else l.tail,
               l.count - 1, l.total - o.remaining)
  }

  lemma RemoveFits(s: seq<Order>, v: Ladder, i: int, k: int)
    requires LadderInv(s, v) && RestsAt(s, v, i, k)
    ensures s[i].levelIdx == LevelIdx(v, s[i].price)
    ensures -1 <= s[i].prev < |s| && -1 <= s[i].next < |s|
    ensures s[i].prev != i && s[i].next != i && s[i].remaining > 0
    ensures var l := LevelOf(v, s[i].price);
            l.count > 0 && l.total >= s[i].remaining && l.head != NULL_IDX
    ensures !InBand(v, s[i].price) ==> s[i].price in v.overflow
    ensures InBand(v, s[i].price) ==> v.bandOrders > 0
  {
    var p := s[i].price;
    var q := v.fifo[p];
    assert ChainInv(s, v.side, p, LevelIdx(v, p), q);
    assert Linked(s, v.side, p, LevelIdx(v, p), q, k);
    UnlinkLinks(s, v.side, p, LevelIdx(v, p), q, k);
    assert LevelOk(LevelOf(v, p), s, q);
    QueueQtyRemove(Queue(s, q), k);
    assert Linked(s, v.side, p, LevelIdx(v, p), q, 0);
    if InBand(v, p) {
      CountSumCovers(v.levels, p - v.low);
    }
  }

  // The neighbours of position k, as the links name them.
  lemma LinksOf(s: seq<Order>, side: Side, p: int, lidx: int, q: seq<int>, k: int)
    requires ChainInv(s, side, p, lidx, q) && 0 <= k < |q|
    ensures 0 <= q[k] < |s| && s[q[k]].prev == At(q, k - 1) && s[q[k]].next == At(q, k + 1)
    ensures s[q[k]].prev == NULL_IDX <==> k == 0
    ensures s[q[k]].next == NULL_IDX <==> k == |q| - 1
    ensures k > 0 ==>
      0 <= s[q[k]].prev < |s| && RestsOn(s[s[q[k]].prev], side) && s[s[q[k]].prev].price == p
    ensures k < |q| - 1 ==>
      0 <= s[q[k]].next < |s| && RestsOn(s[s[q[k]].next], side) && s[s[q[k]].next].price == p
  {
    assert Linked(s, side, p, lidx, q, k);
    if k > 0 { assert Linked(s, side, p, lidx, q, k - 1); }
    if k + 1 < |q| { assert Linked(s, side, p, lidx, q, k + 1); }
  }

  lemma RemoveQty(s: seq<Order>, q: seq<int>, k: int)
    requires NoDup(q) && 0 <= k < |q| && 0 <= q[k] < |s|
    requires s[q[k]].prev < |s| && s[q[k]].next < |s|
    ensures QueueQty(Queue(Unlinked(s, q[k]), RemoveAt(q, k))) == QueueQty(Queue(s, q)) - s[q[k]].remaining
  {
    UnlinkView(s, q, k);
    QueueQtyRemove(Queue(s, q), k);
  }

  lemma RemoveRecordOk(s: seq<Order>, l: PriceLevel, q: seq<int>, k: int)
    requires NoDup(q) && 0 <= k < |q| && 0 <= q[k] < |s| && LevelOk(l, s, q)
    requires s[q[k]].prev == At(q, k - 1) < |s| && s[q[k]].next == At(q, k + 1) < |s|
    requires s[q[k]].prev == NULL_IDX <==> k == 0
    requires s[q[k]].next == NULL_IDX <==> k == |q| - 1
    requires l.count > 0 && l.total >= s[q[k]].remaining
    ensures LevelOk(RemoveRecord(l, s[q[k]]), Unlinked(s, q[k]), RemoveAt(q, k))
  {
    var t, o, r := Unlinked(s, q[k]), s[q[k]], RemoveAt(q, k);
    var total := QueueQty(Queue(t, r));
    assert total == l.total - o.remaining by {
      RemoveQty(s, q, k);
    }
    var m := RemoveRecord(l, o);
    assert m.head == At(r, 0);
    assert m.tail == At(r, |r| - 1);
  }

  lemma RemoveStaysAt(s: seq<Order>, v: Ladder, i: int, k: int)
    requires QueuesOk(s, v) && RestsAt(s, v, i, k) && -1 <= s[i].prev < |s| && -1 <= s[i].next < |s|
    requires s[i].prev >= 0 ==> RestsOn(s[s[i].prev], v.side) && s[s[i].prev].price == s[i].price
    requires s[i].next >= 0 ==> RestsOn(s[s[i].next], v.side) && s[s[i].next].price == s[i].price
    ensures OnlyAt(s, Unlinked(s, i), v.side, s[i].price, RemoveAt(v.fifo[s[i].price], k))
  {
    var p := s[i].price;
    var t := Unlinked(s, i);
    var r := RemoveAt(v.fifo[p], k);
    assert ChainInv(s, v.side, p, LevelIdx(v, p), v.fifo[p]);
    forall j | 0 <= j < |s| && (RestsOn(s[j], v.side) || RestsOn(t[j], v.side))
      ensures (t[j] == s[j] && s[j].price != p)
           || (s[j].price == p && t[j].price == p && (RestsOn(t[j], v.side) ==> j in r))
    {
      if j != i {
        assert j in QueueAt(v.fifo, s[j].price);
      }
    }
  }

  // The side after remove_order, except for the cursor.
  function RemoveLadder(s: seq<Order>, v: Ladder, i: int, k: int): Ladder
    requires 0 <= i < |s| && s[i].price in v.fifo && 0 <= k < |v.fifo[s[i].price]|
    requires LevelOf(v, s[i].price).count > 0 && LevelOf(v, s[i].price).total >= s[i].remaining
    requires InBand(v, s[i].price) ==> v.bandOrders > 0
  {
    var p := s[i].price;
    SetLevel(v, p, RemoveRecord(LevelOf(v, p), s[i]))
    .(fifo := SetQueue(v.fifo, p, RemoveAt(v.fifo[p], k)),
      bandOrders := if InBand(v, p) then v.bandOrders - 1 else v.bandOrders)
  }

  lemma RemoveStructure(s: seq<Order>, v: Ladder, i: int, k: int)
    requires LadderInv(s, v) && RestsAt(s, v, i, k) && s[i].prev < |s| && s[i].next < |s|
    requires LevelOf(v, s[i].price).count > 0 && LevelOf(v, s[i].price).total >= s[i].remaining
    requires InBand(v, s[i].price) ==> v.bandOrders > 0
    ensures QueuesOk(Unlinked(s, i), RemoveLadder(s, v, i, k))
    ensures RecordsOk(Unlinked(s, i), RemoveLadder(s, v, i, k))
    ensures Abs(Unlinked(s, i), RemoveLadder(s, v, i, k))
         == SetQueue(Abs(s, v), s[i].price, RemoveAt(Abs(s, v)[s[i].price], k))
  {
    var p, t, w := s[i].price, Unlinked(s, i), RemoveLadder(s, v, i, k);
    var q := RemoveAt(v.fifo[p], k);
    var l := RemoveRecord(LevelOf(v, p), s[i]);
    LinksOf(s, v.side, p, LevelIdx(v, p), v.fifo[p], k);
    RemoveStaysAt(s, v, i, k);
    UnlinkLinks(s, v.side, p, LevelIdx(v, p), v.fifo[p], k);
    assert LevelOk(LevelOf(v, p), s, v.fifo[p]) by {
      assert LevelOk(LevelOf(v, p), s, QueueAt(v.fifo, p));
    }
    RemoveRecordOk(s, LevelOf(v, p), v.fifo[p], k);
    UnlinkView(s, v.fifo[p], k);
    UpdateQueues(s, t, v, p, q);
    QueuesAlike(t, v.(fifo := SetQueue(v.fifo, p, q)), w);
    UpdateAbs(s, t, v, p, q);
    forall j | 0 <= j < |q|
      ensures q[j] >= 0
    {
      assert Linked(t, v.side, p, LevelIdx(v, p), q, j);
    }
    UpdateRecords(s, t, v, p, q, l);
    RecordsAlike(t, SetLevel(v, p, l).(fifo := SetQueue(v.fifo, p, q)), w);
  }

  lemma RemoveCount(s: seq<Order>, v: Ladder, i: int, k: int)
    requires LadderInv(s, v) && 0 <= i < |s| && s[i].price in v.fifo && 0 <= k < |v.fifo[s[i].price]|
    requires LevelOf(v, s[i].price).count > 0 && LevelOf(v, s[i].price).total >= s[i].remaining
    requires InBand(v, s[i].price) ==> v.bandOrders > 0
    ensures var w := RemoveLadder(s, v, i, k); ShapeOk(w) && w.bandOrders == CountSum(w.levels)
  {
    var p := s[i].price;
    if InBand(v, p) {
      CountSumUpdate(v.levels, p - v.low, RemoveRecord(LevelOf(v, p), s[i]));
    }
  }

  // ----- The cursor after a removal

  lemma LevelEmpty(s: seq<Order>, v: Ladder, p: Price)
    requires QueuesOk(s, v) && RecordsOk(s, v)
    ensures p in v.fifo <==> LevelOf(v, p).head != NULL_IDX
    ensures p in v.fifo <==> LevelOf(v, p).count > 0
  {
    assert LevelOk(LevelOf(v, p), s, QueueAt(v.fifo, p));
    if p in v.fifo {
      assert ChainInv(s, v.side, p, LevelIdx(v, p), v.fifo[p]);
      assert Linked(s, v.side, p, LevelIdx(v, p), v.fifo[p], 0);
    }
  }

  // The removal left the cursor's level occupied, or another level lost its order.
  lemma BestStays(s: seq<Order>, v: Ladder, i: int, k: int)
    requires LadderInv(s, v) && 0 <= i < |s| && s[i].price in v.fifo && 0 <= k < |v.fifo[s[i].price]|
    requires LevelOf(v, s[i].price).count > 0 && LevelOf(v, s[i].price).total >= s[i].remaining
    requires InBand(v, s[i].price) ==> v.bandOrders > 0
    requires !InBand(v, s[i].price) || v.low + v.best != s[i].price || |v.fifo[s[i].price]| > 1
    ensures BestOk(RemoveLadder(s, v, i, k))
  {
    var w := RemoveLadder(s, v, i, k);
    assert forall r: Price :: InBand(w, r) <==> InBand(v, r);
    assert forall r :: r in w.fifo ==> r in v.fifo;
  }

  // The O(1) shortcut: no in-band orders left, so no level for the cursor.
  lemma BandEmpty(s: seq<Order>, v: Ladder)
    requires QueuesOk(s, v) && RecordsOk(s, v) && CountSum(v.levels) == 0
    ensures BestOk(v.(best := NULL_IDX))
  {
    forall p | p in v.fifo
      ensures !InBand(v, p)
    {
      if InBand(v, p) {
        LevelEmpty(s, v, p);
        CountSumCovers(v.levels, p - v.low);
      }
    }
  }

  // b is the first occupied offset in order of priority.
  ghost predicate FirstOccupied(side: Side, levels: seq<PriceLevel>, b: int) {
    && 0 <= b < |levels| && levels[b].head != NULL_IDX
    && forall off :: 0 <= off < |levels| && Better(side, off, b) ==> levels[off].head == NULL_IDX
  }

  lemma CursorOk(s: seq<Order>, v: Ladder, b: I32)
    requires ShapeOk(v) && QueuesOk(s, v) && RecordsOk(s, v) && FirstOccupied(v.side, v.levels, b)
    ensures BestOk(v.(best := b))
  {
    LevelEmpty(s, v, v.low + b);
    assert InBand(v, v.low + b) && LevelOf(v, v.low + b) == v.levels[b];
    forall p | p in v.fifo && InBand(v, p)
      ensures !Better(v.side, p, v.low + b)
    {
      LevelEmpty(s, v, p);
      assert LevelOf(v, p) == v.levels[p - v.low];
    }
  }

  // ----- A partial fill of the front order

  function DebitSlots(s: seq<Order>, i: int, fill: Qty): seq<Order>
    requires 0 <= i < |s| && fill <= s[i].remaining
  {
    s[i := s[i].(remaining := s[i].remaining - fill)]
  }

  // The side after the front order at p and its level are debited.
  function DebitLadder(v: Ladder, p: Price, fill: Qty): Ladder
    requires LevelOf(v, p).total >= fill
  {
    SetLevel(v, p, LevelOf(v, p).(total := LevelOf(v, p).total - fill))
  }

  lemma DebitTouches(s: seq<Order>, v: Ladder, p: Price, i: int, fill: Qty)
    requires QueuesOk(s, v) && p in v.fifo && 0 <= i < |s| && At(v.fifo[p], 0) == i
    requires fill < s[i].remaining
    ensures OnlyAt(s, DebitSlots(s, i, fill), v.side, p, v.fifo[p])
    ensures Keeps(s, DebitSlots(s, i, fill), Opposite(v.side))
    ensures SamePool(s, DebitSlots(s, i, fill))
  {
    var q := v.fifo[p];
    assert ChainInv(s, v.side, p, LevelIdx(v, p), q);
    assert Linked(s, v.side, p, LevelIdx(v, p), q, 0);
    forall j | 0 <= j < |s| && RestsOn(s[j], v.side) && s[j].price == p
      ensures j in q
    {
      assert j in QueueAt(v.fifo, s[j].price);
    }
  }

  lemma DebitQueues(s: seq<Order>, v: Ladder, p: Price, i: int, fill: Qty)
    requires QueuesOk(s, v) && p in v.fifo && 0 <= i < |s| && At(v.fifo[p], 0) == i
    requires fill < s[i].remaining
    ensures QueuesOk(DebitSlots(s, i, fill), v)
    ensures forall r: Price :: r != p ==>
      Queue(DebitSlots(s, i, fill), QueueAt(v.fifo, r)) == Queue(s, QueueAt(v.fifo, r))
    ensures Abs(DebitSlots(s, i, fill), v) == SetQueue(Abs(s, v), p, FillFront(Abs(s, v)[p], fill))
    ensures forall j :: 0 <= j < |v.fifo[p]| ==> v.fifo[p][j] >= 0
    ensures NoDup(v.fifo[p])
  {
    var q, t := v.fifo[p], DebitSlots(s, i, fill);
    DebitTouches(s, v, p, i, fill);
    assert ChainInv(s, v.side, p, LevelIdx(v, p), q);
    DebitLinks(s, v.side, p, LevelIdx(v, p), q, fill);
    UpdateQueues(s, t, v, p, q);
    assert SetQueue(v.fifo, p, q) == v.fifo;
    UpdateAbs(s, t, v, p, q);
    forall j | 0 <= j < |q|
      ensures q[j] >= 0
    {
      assert Linked(s, v.side, p, LevelIdx(v, p), q, j);
    }
  }

  lemma DebitRecord(s: seq<Order>, l: PriceLevel, q: seq<int>, i: int, fill: Qty)
    requires NoDup(q) && LevelOk(l, s, q)
    requires 0 <= i < |s| && At(q, 0) == i && fill <= s[i].remaining && l.total >= fill
    ensures LevelOk(l.(total := l.total - fill), DebitSlots(s, i, fill), q)
  {
    var t := DebitSlots(s, i, fill);
    assert Queue(t, q)[1..] == Queue(s, q)[1..];
  }

  lemma DebitRecords(s: seq<Order>, t: seq<Order>, v: Ladder, p: Price, m: PriceLevel)
    requires RecordsOk(s, v) && p in v.fifo && v.fifo[p] != [] && LevelOk(m, t, v.fifo[p])
    requires forall j :: 0 <= j < |v.fifo[p]| ==> v.fifo[p][j] >= 0
    requires forall r: Price :: r != p ==> Queue(t, QueueAt(v.fifo, r)) == Queue(s, QueueAt(v.fifo, r))
    ensures RecordsOk(t, SetLevel(v, p, m))
  {
    var w := SetLevel(v, p, m);
    UpdateRecords(s, t, v, p, v.fifo[p], m);
    assert w.(fifo := SetQueue(v.fifo, p, v.fifo[p])) == w;
  }

  lemma DebitOk(s: seq<Order>, v: Ladder, p: Price, i: int, fill: Qty)
    requires LadderInv(s, v) && p in v.fifo && 0 <= i < |s| && At(v.fifo[p], 0) == i
    requires fill < s[i].remaining && LevelOf(v, p).total >= fill && LevelOf(v, p).head != NULL_IDX
    ensures LadderInv(DebitSlots(s, i, fill), DebitLadder(v, p, fill))
    ensures Abs(DebitSlots(s, i, fill), DebitLadder(v, p, fill))
         == SetQueue(Abs(s, v), p, FillFront(Abs(s, v)[p], fill))
  {
    var t, w := DebitSlots(s, i, fill), DebitLadder(v, p, fill);
    var m := LevelOf(v, p).(total := LevelOf(v, p).total - fill);
    DebitQueues(s, v, p, i, fill);
    QueuesAlike(t, v, w);
    assert LevelOk(LevelOf(v, p), s, v.fifo[p]) by {
      assert LevelOk(LevelOf(v, p), s, QueueAt(v.fifo, p));
    }
    DebitRecord(s, LevelOf(v, p), v.fifo[p], i, fill);
    DebitRecords(s, t, v, p, m);
    DebitCursor(v, p, m);
  }

  lemma DebitCursor(v: Ladder, p: Price, m: PriceLevel)
    requires ShapeOk(v) && BestOk(v) && v.bandOrders == CountSum(v.levels)
    requires m.count == LevelOf(v, p).count && m.head != NULL_IDX
    ensures var w := SetLevel(v, p, m); ShapeOk(w) && BestOk(w) && w.bandOrders == CountSum(w.levels)
  {
    var w := SetLevel(v, p, m);
    assert forall r: Price :: InBand(w, r) <==> InBand(v, r);
    if InBand(v, p) {
      CountSumUpdate(v.levels, p - v.low, m);
    }
  }

  // ----- The best price over band and overflow

  function BestFrom(v: Ladder): int
    requires v.best != NULL_IDX || v.overflow != map[]
  {
    if v.overflow == map[] then v.low + v.best
    else if v.best == NULL_IDX then Best(v.side, v.overflow)
    else if v.side == Buy then Max(v.low + v.best, Best(v.side, v.overflow))
    else Min(v.low + v.best, Best(v.side, v.overflow))
  }

  lemma BestIsBest(s: seq<Order>, v: Ladder)
    requires LadderInv(s, v)
    ensures Abs(s, v) == map[] <==> v.best == NULL_IDX && v.overflow == map[]
    ensures Abs(s, v) != map[] ==> BestFrom(v) == Best(v.side, Abs(s, v))
  {
    var a := Abs(s, v);
    forall p: Price
      ensures p in v.overflow <==> p in v.fifo && !InBand(v, p)
    {
      LevelEmpty(s, v, p);
    }
    if v.best != NULL_IDX {
      var b: Price := v.low + v.best;
      assert b in a;
    }
    if v.overflow != map[] {
      assert Best(v.side, v.overflow) in a;
    }
    if a != map[] {
      var p := Best(v.side, a);
      assert IsBest(v.side, a, p);
      assert p in v.fifo;
      assert IsBest(v.side, a, BestFrom(v)) by {
        forall r | r in a
          ensures !Better(v.side, r, BestFrom(v))
        {
          if !InBand(v, r) {
            assert r in v.overflow;
          }
        }
      }
    }
  }
}
