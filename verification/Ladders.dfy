/**
 One side of the arena book as values: the intrusive queues threaded through the
 slots, the level records, and the invariant that ties both to the book's queues.
 The methods of PriceLadders and OrderBooks assign; these lemmas say what the
 assignments mean.
 */
module Ladders {
  import opened Types
  import opened Seqs
  import opened OrderPools
  import opened BookSpec

  const OVERFLOW_IDX: I32 := -2
  const MAX_RADIUS := 0x100_0000

  datatype PriceLevel = PriceLevel(head: I32, tail: I32, count: U32, total: U64)

  const EMPTY_LEVEL := PriceLevel(NULL_IDX, NULL_IDX, 0, 0)

  // ----- Slots as resting orders

  predicate RestsOn(o: Order, side: Side) {
    o.orderId != INVALID_ORDER_ID && o.levelIdx != NULL_IDX && o.side == side
  }

  // Taken from the pool, but in no queue.
  predicate InFlight(o: Order) {
    o.orderId != INVALID_ORDER_ID && o.levelIdx == NULL_IDX
  }

  function View(s: seq<Order>, i: int): Resting {
    if 0 <= i < |s| then Resting(s[i].orderId, s[i].price, s[i].qty, s[i].remaining, s[i].side)
    else Resting(INVALID_ORDER_ID, 0, 0, 0, Buy)
  }

  function Queue(s: seq<Order>, q: seq<int>): (r: seq<Resting>)
    ensures |r| == |q| && forall k :: 0 <= k < |q| ==> r[k] == View(s, q[k])
  {
    seq(|q|, k requires 0 <= k < |q| => View(s, q[k]))
  }

  // ----- One level's queue

  ghost predicate Linked(s: seq<Order>, side: Side, p: int, lidx: int, q: seq<int>, k: int)
    requires 0 <= k < |q|
  {
    && 0 <= q[k] < |s|
    && RestsOn(s[q[k]], side)
    && s[q[k]].price == p && s[q[k]].levelIdx == lidx
    && 1 <= s[q[k]].remaining <= s[q[k]].qty
    && s[q[k]].prev == At(q, k - 1) && s[q[k]].next == At(q, k + 1)
  }

  ghost predicate ChainInv(s: seq<Order>, side: Side, p: int, lidx: int, q: seq<int>) {
    NoDup(q) && forall k :: 0 <= k < |q| ==> Linked(s, side, p, lidx, q, k)
  }

  lemma ChainFrame(s: seq<Order>, t: seq<Order>, side: Side, p: int, lidx: int, q: seq<int>)
    requires ChainInv(s, side, p, lidx, q) && |s| == |t|
    requires forall k :: 0 <= k < |q| && 0 <= q[k] < |s| ==> t[q[k]] == s[q[k]]
    ensures ChainInv(t, side, p, lidx, q) && Queue(t, q) == Queue(s, q)
  {
    forall k | 0 <= k < |q|
      ensures Linked(t, side, p, lidx, q, k) && View(t, q[k]) == View(s, q[k])
    {
      assert Linked(s, side, p, lidx, q, k);
    }
  }

  ghost predicate LevelOk(l: PriceLevel, s: seq<Order>, q: seq<int>) {
    && l.head == At(q, 0) && l.tail == At(q, |q| - 1)
    && l.count == |q| && l.total == QueueQty(Queue(s, q))
  }

  // ----- Appending

  // push_back: links slot i behind the queue q.
  function LinkedBack(s: seq<Order>, tail: I32, i: int): (t: seq<Order>)
    requires 0 <= i < |s| <= MAX_CAPACITY && tail < |s|
    ensures |t| == |s|
  {
    var t := s[i := s[i].(prev := tail)];
    if tail >= 0 then t[tail := t[tail].(next := i)] else t
  }

  lemma PushLinks(s: seq<Order>, side: Side, p: int, lidx: I32, q: seq<int>, i: int)
    requires |s| <= MAX_CAPACITY && 0 <= i < |s| && lidx != NULL_IDX
    requires ChainInv(s, side, p, lidx, q) && i !in q && -1 <= At(q, |q| - 1) < |s|
    requires s[i].orderId != INVALID_ORDER_ID && s[i].side == side && s[i].price == p
    requires s[i].next == NULL_IDX && 1 <= s[i].remaining <= s[i].qty
    ensures var t := LinkedBack(s, At(q, |q| - 1), i);
            ChainInv(t[i := t[i].(levelIdx := lidx)], side, p, lidx, q + [i])
  {
    var t := LinkedBack(s, At(q, |q| - 1), i);
    var u := t[i := t[i].(levelIdx := lidx)];
    var r := q + [i];
    forall k | 0 <= k < |r|
      ensures Linked(u, side, p, lidx, r, k)
    {
      if k < |q| {
        assert Linked(s, side, p, lidx, q, k);
        assert q[k] in q;
        if k < |q| - 1 {
          assert q[k] != q[|q| - 1];
        }
      }
    }
  }

  lemma PushView(s: seq<Order>, q: seq<int>, i: int, lidx: I32)
    requires |s| <= MAX_CAPACITY && 0 <= i < |s| && -1 <= At(q, |q| - 1) < |s| && i !in q
    ensures var t := LinkedBack(s, At(q, |q| - 1), i);
            Queue(t[i := t[i].(levelIdx := lidx)], q + [i]) == Queue(s, q) + [View(s, i)]
  {
  }

  // ----- Unlinking

  // unlink: detaches slot i from its neighbours and from its level.
  function Unlinked(s: seq<Order>, i: int): (t: seq<Order>)
    requires 0 <= i < |s| && s[i].prev < |s| && s[i].next < |s|
    ensures |t| == |s|
  {
    var t := if s[i].prev >= 0 then s[s[i].prev := s[s[i].prev].(next := s[i].next)] else s;
    var u := if s[i].next >= 0 then t[s[i].next := t[s[i].next].(prev := s[i].prev)] else t;
    u[i := s[i].(prev := NULL_IDX, next := NULL_IDX, levelIdx := NULL_IDX)]
  }

  lemma UnlinkLinks(s: seq<Order>, side: Side, p: int, lidx: int, q: seq<int>, k: int)
    requires ChainInv(s, side, p, lidx, q) && 0 <= k < |q|
    ensures 0 <= q[k] < |s| && -1 <= s[q[k]].prev < |s| && -1 <= s[q[k]].next < |s|
    ensures ChainInv(Unlinked(s, q[k]), side, p, lidx, RemoveAt(q, k))
  {
    assert Linked(s, side, p, lidx, q, k);
    if k > 0 { assert Linked(s, side, p, lidx, q, k - 1); }
    if k + 1 < |q| { assert Linked(s, side, p, lidx, q, k + 1); }
    var t := Unlinked(s, q[k]);
    var r := RemoveAt(q, k);
    forall j | 0 <= j < |r|
      ensures Linked(t, side, p, lidx, r, j)
    {
      var m := if j < k then j else j + 1;
      assert r[j] == q[m];
      assert Linked(s, side, p, lidx, q, m);
      UnlinkOne(s, q, k, m);
    }
  }

  // What unlinking q[k] does to another member q[m].
  lemma UnlinkOne(s: seq<Order>, q: seq<int>, k: int, m: int)
    requires NoDup(q) && 0 <= k < |q| && 0 <= m < |q| && m != k
    requires 0 <= q[k] < |s| && 0 <= q[m] < |s|
    requires s[q[k]].prev == At(q, k - 1) < |s| && s[q[k]].next == At(q, k + 1) < |s|
    requires At(q, k - 1) >= -1 && At(q, k + 1) >= -1
    ensures Unlinked(s, q[k])[q[m]] ==
      s[q[m]].(next := if m == k - 1 then s[q[k]].next else s[q[m]].next,
               prev := if m == k + 1 then s[q[k]].prev else s[q[m]].prev)
  {
  }

  lemma UnlinkView(s: seq<Order>, q: seq<int>, k: int)
    requires NoDup(q) && 0 <= k < |q| && 0 <= q[k] < |s|
    requires s[q[k]].prev < |s| && s[q[k]].next < |s|
    ensures Queue(Unlinked(s, q[k]), RemoveAt(q, k)) == RemoveAt(Queue(s, q), k)
  {
  }

  // ----- Debiting the front order

  lemma DebitLinks(s: seq<Order>, side: Side, p: int, lidx: int, q: seq<int>, fill: Qty)
    requires ChainInv(s, side, p, lidx, q) && q != [] && 0 <= q[0] < |s| && fill < s[q[0]].remaining
    ensures ChainInv(s[q[0] := s[q[0]].(remaining := s[q[0]].remaining - fill)], side, p, lidx, q)
    ensures Queue(s[q[0] := s[q[0]].(remaining := s[q[0]].remaining - fill)], q) == FillFront(Queue(s, q), fill)
  {
    var t := s[q[0] := s[q[0]].(remaining := s[q[0]].remaining - fill)];
    forall k | 0 <= k < |q|
      ensures Linked(t, side, p, lidx, q, k)
    {
      assert Linked(s, side, p, lidx, q, k);
    }
  }

  // ----- A whole side

  datatype Ladder = Ladder(
    side: Side,
    low: Price,
    best: I32,
    bandOrders: U32,
    levels: seq<PriceLevel>,
    overflow: map<Price, PriceLevel>,
    fifo: map<Price, seq<int>>)

  predicate InBand(v: Ladder, p: int) {
    v.low <= p < v.low + |v.levels|
  }

  function LevelIdx(v: Ladder, p: int): int {
    if InBand(v, p) then p - v.low else OVERFLOW_IDX
  }

  // The level record at p: every in-band price has one.
  function LevelOf(v: Ladder, p: Price): PriceLevel {
    if InBand(v, p) then v.levels[p - v.low]
    else if p in v.overflow then v.overflow[p] else EMPTY_LEVEL
  }

  function SetLevel(v: Ladder, p: Price, l: PriceLevel): Ladder {
    if InBand(v, p) then v.(levels := v.levels[p - v.low := l])
    else if l.head == NULL_IDX then v.(overflow := v.overflow - {p})
    else v.(overflow := v.overflow[p := l])
  }

  ghost predicate QueuesOk(s: seq<Order>, v: Ladder) {
    && (forall p :: p in v.fifo ==> v.fifo[p] != [] && ChainInv(s, v.side, p, LevelIdx(v, p), v.fifo[p]))
    && (forall i :: 0 <= i < |s| && RestsOn(s[i], v.side) ==> i in QueueAt(v.fifo, s[i].price))
  }

  ghost predicate RecordsOk(s: seq<Order>, v: Ladder) {
    && (forall p: Price :: LevelOk(LevelOf(v, p), s, QueueAt(v.fifo, p)))
    && (forall p :: p in v.overflow ==> !InBand(v, p) && p in v.fifo)
  }

  ghost predicate BestOk(v: Ladder) {
    if v.best == NULL_IDX then
      forall p :: p in v.fifo ==> !InBand(v, p)
    else
      && 0 <= v.best < |v.levels| && v.low + v.best in v.fifo
      && forall p :: p in v.fifo && InBand(v, p) ==> !Better(v.side, p, v.low + v.best)
  }

  function CountSum(levels: seq<PriceLevel>): nat {
    if levels == [] then 0 else CountSum(levels[..|levels| - 1]) + levels[|levels| - 1].count
  }

  ghost predicate ShapeOk(v: Ladder) {
    1 <= |v.levels| <= 2 * MAX_RADIUS + 1 && v.low + |v.levels| <= INT64_MAX
  }

  ghost predicate LadderInv(s: seq<Order>, v: Ladder) {
    && ShapeOk(v) && QueuesOk(s, v) && RecordsOk(s, v) && BestOk(v)
    && v.bandOrders == CountSum(v.levels)
  }

  // The side as the market sees it.
  function Abs(s: seq<Order>, v: Ladder): Levels {
    map p | p in v.fifo :: Queue(s, v.fifo[p])
  }

  // ----- Frame: slots that rest on this side before or after are untouched

  ghost predicate Keeps(s: seq<Order>, t: seq<Order>, side: Side) {
    && |s| == |t|
    && forall i :: 0 <= i < |s| && (RestsOn(s[i], side) || RestsOn(t[i], side)) ==> t[i] == s[i]
  }

  lemma SideFrame(s: seq<Order>, t: seq<Order>, v: Ladder)
    requires LadderInv(s, v) && Keeps(s, t, v.side)
    ensures LadderInv(t, v) && Abs(t, v) == Abs(s, v)
  {
    forall p | p in v.fifo
      ensures ChainInv(t, v.side, p, LevelIdx(v, p), v.fifo[p]) && Queue(t, v.fifo[p]) == Queue(s, v.fifo[p])
    {
      var q := v.fifo[p];
      forall k | 0 <= k < |q|
        ensures 0 <= q[k] < |s| && t[q[k]] == s[q[k]]
      {
        assert Linked(s, v.side, p, LevelIdx(v, p), q, k);
      }
      ChainFrame(s, t, v.side, p, LevelIdx(v, p), q);
    }
    forall p: Price
      ensures LevelOk(LevelOf(v, p), t, QueueAt(v.fifo, p))
    {
      assert LevelOk(LevelOf(v, p), s, QueueAt(v.fifo, p));
    }
  }

  // The queues do not depend on the records, nor the records on the cursor.
  lemma QueuesAlike(s: seq<Order>, v: Ladder, w: Ladder)
    requires QueuesOk(s, v)
    requires w.side == v.side && w.low == v.low && |w.levels| == |v.levels| && w.fifo == v.fifo
    ensures QueuesOk(s, w) && Abs(s, w) == Abs(s, v)
  {
    forall p | p in w.fifo
      ensures ChainInv(s, w.side, p, LevelIdx(w, p), w.fifo[p])
    {
      assert LevelIdx(w, p) == LevelIdx(v, p);
    }
  }

  lemma RecordsAlike(s: seq<Order>, v: Ladder, w: Ladder)
    requires RecordsOk(s, v)
    requires w.low == v.low && w.levels == v.levels && w.overflow == v.overflow && w.fifo == v.fifo
    ensures RecordsOk(s, w)
  {
    forall p: Price
      ensures LevelOk(LevelOf(w, p), s, QueueAt(w.fifo, p))
    {
      assert LevelOf(w, p) == LevelOf(v, p);
    }
  }

  // ----- Update of the queue at one price

  // Slots of other prices are untouched, and those resting at p afterwards are in q.
  ghost predicate OnlyAt(s: seq<Order>, t: seq<Order>, side: Side, p: Price, q: seq<int>) {
    && |s| == |t|
    && forall i :: 0 <= i < |s| && (RestsOn(s[i], side) || RestsOn(t[i], side)) ==>
         (t[i] == s[i] && s[i].price != p) || (s[i].price == p && t[i].price == p && (RestsOn(t[i], side) ==> i in q))
  }

  lemma OtherQueue(s: seq<Order>, t: seq<Order>, v: Ladder, p: Price, q: seq<int>, r: Price)
    requires QueuesOk(s, v) && OnlyAt(s, t, v.side, p, q) && r != p
    ensures r in v.fifo ==> ChainInv(t, v.side, r, LevelIdx(v, r), v.fifo[r])
    ensures Queue(t, QueueAt(v.fifo, r)) == Queue(s, QueueAt(v.fifo, r))
  {
    if r in v.fifo {
      var c := v.fifo[r];
      forall k | 0 <= k < |c|
        ensures 0 <= c[k] < |s| && t[c[k]] == s[c[k]]
      {
        assert Linked(s, v.side, r, LevelIdx(v, r), c, k);
      }
      ChainFrame(s, t, v.side, r, LevelIdx(v, r), c);
    }
  }

  lemma UpdateQueues(s: seq<Order>, t: seq<Order>, v: Ladder, p: Price, q: seq<int>)
    requires QueuesOk(s, v) && OnlyAt(s, t, v.side, p, q)
    requires ChainInv(t, v.side, p, LevelIdx(v, p), q)
    ensures QueuesOk(t, v.(fifo := SetQueue(v.fifo, p, q)))
    ensures forall r: Price :: r != p ==> Queue(t, QueueAt(v.fifo, r)) == Queue(s, QueueAt(v.fifo, r))
  {
    forall r: Price | r != p
      ensures r in v.fifo ==> ChainInv(t, v.side, r, LevelIdx(v, r), v.fifo[r])
      ensures Queue(t, QueueAt(v.fifo, r)) == Queue(s, QueueAt(v.fifo, r))
    {
      OtherQueue(s, t, v, p, q, r);
    }
  }

  lemma UpdateAbs(s: seq<Order>, t: seq<Order>, v: Ladder, p: Price, q: seq<int>)
    requires forall r: Price :: r != p ==> Queue(t, QueueAt(v.fifo, r)) == Queue(s, QueueAt(v.fifo, r))
    ensures Abs(t, v.(fifo := SetQueue(v.fifo, p, q))) == SetQueue(Abs(s, v), p, Queue(t, q))
  {
    forall r | r in v.fifo && r != p
      ensures Queue(t, v.fifo[r]) == Queue(s, v.fifo[r])
    {
      assert QueueAt(v.fifo, r) == v.fifo[r];
    }
  }

  lemma UpdateRecords(s: seq<Order>, t: seq<Order>, v: Ladder, p: Price, q: seq<int>, l: PriceLevel)
    requires RecordsOk(s, v) && LevelOk(l, t, q) && (forall k :: 0 <= k < |q| ==> q[k] >= 0)
    requires forall r: Price :: r != p ==> Queue(t, QueueAt(v.fifo, r)) == Queue(s, QueueAt(v.fifo, r))
    ensures RecordsOk(t, SetLevel(v, p, l).(fifo := SetQueue(v.fifo, p, q)))
  {
    var w := SetLevel(v, p, l).(fifo := SetQueue(v.fifo, p, q));
    forall r: Price
      ensures LevelOk(LevelOf(w, r), t, QueueAt(w.fifo, r))
    {
      assert LevelOk(LevelOf(v, r), s, QueueAt(v.fifo, r));
      if r == p {
        assert QueueAt(w.fifo, p) == q;
        if q == [] {
          assert LevelOf(w, p).total == 0;
        }
      } else {
        assert LevelOf(w, r) == LevelOf(v, r);
        assert QueueAt(w.fifo, r) == QueueAt(v.fifo, r);
      }
    }
  }

  lemma {:induction false} CountSumUpdate(levels: seq<PriceLevel>, off: int, l: PriceLevel)
    requires 0 <= off < |levels|
    ensures CountSum(levels[off := l]) == CountSum(levels) - levels[off].count + l.count
  {
    var n := |levels| - 1;
    if off == n {
      assert levels[off := l][..n] == levels[..n];
    } else {
      assert levels[off := l][..n] == levels[..n][off := l];
      CountSumUpdate(levels[..n], off, l);
    }
  }

  lemma {:induction false} CountSumWitness(levels: seq<PriceLevel>) returns (off: int)
    requires CountSum(levels) > 0
    ensures 0 <= off < |levels| && levels[off].count > 0
  {
    var n := |levels| - 1;
    if levels[n].count > 0 {
      off := n;
    } else {
      off := CountSumWitness(levels[..n]);
    }
  }

  lemma {:induction false} CountSumCovers(levels: seq<PriceLevel>, off: int)
    requires 0 <= off < |levels|
    ensures CountSum(levels) >= levels[off].count
  {
    var n := |levels| - 1;
    if off < n {
      CountSumCovers(levels[..n], off);
    }
  }

  // ----- In-band orders never outnumber the slots

  // The queues of the first n band levels, one after the other.
  ghost function BandSlots(v: Ladder, n: nat): seq<int> {
    if n == 0 then [] else BandSlots(v, n - 1) + QueueAt(v.fifo, v.low + n - 1)
  }

  lemma {:induction false} BandSlotsApart(s: seq<Order>, v: Ladder, n: nat)
    requires ShapeOk(v) && QueuesOk(s, v) && RecordsOk(s, v) && n <= |v.levels|
    ensures NoDup(BandSlots(v, n)) && |BandSlots(v, n)| == CountSum(v.levels[..n])
    ensures forall k :: 0 <= k < |BandSlots(v, n)| ==>
      var i := BandSlots(v, n)[k];
      0 <= i < |s| && RestsOn(s[i], v.side) && s[i].price < v.low + n
  {
    if n > 0 {
      BandSlotsApart(s, v, n - 1);
      var p: Price := v.low + n - 1;
      var q := QueueAt(v.fifo, p);
      assert v.levels[..n][..n - 1] == v.levels[..n - 1];
      assert LevelOk(LevelOf(v, p), s, q);
      forall k | 0 <= k < |q|
        ensures 0 <= q[k] < |s| && RestsOn(s[q[k]], v.side) && s[q[k]].price == p
      {
        assert Linked(s, v.side, p, LevelIdx(v, p), q, k);
      }
      assert NoDup(q);
    }
  }

  lemma BandBound(s: seq<Order>, v: Ladder, i: int)
    requires LadderInv(s, v) && 0 <= i < |s| && !RestsOn(s[i], v.side)
    ensures v.bandOrders < |s|
  {
    var n := |v.levels|;
    BandSlotsApart(s, v, n);
    assert v.levels[..n] == v.levels;
    NoDupBound(BandSlots(v, n) + [i], |s|);
  }

  // No level's aggregate can reach the range of the 64-bit field.
  lemma TotalBound(s: seq<Order>, v: Ladder, p: Price)
    requires |s| <= MAX_CAPACITY && LadderInv(s, v)
    ensures |QueueAt(v.fifo, p)| <= |s|
    ensures LevelOf(v, p).total <= MAX_CAPACITY * UINT32_MAX
  {
    var q := QueueAt(v.fifo, p);
    assert LevelOk(LevelOf(v, p), s, q);
    if q != [] {
      forall k | 0 <= k < |q|
        ensures 0 <= q[k] < |s|
      {
        assert Linked(s, v.side, p, LevelIdx(v, p), q, k);
      }
      NoDupBound(q, |s|);
    }
    QueueQtyBound(Queue(s, q));
  }
}
