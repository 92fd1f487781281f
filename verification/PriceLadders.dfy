/**
 One side of the arena book: a banded array of levels around the anchor with a best
 cursor, and a sorted-map overflow for the prices outside the band. Levels are
 records stored by value in the array and in the map, as in the original.
 */
module PriceLadders {
  import opened Types
  import opened Seqs
  import opened OrderPools
  import opened BookSpec
  import opened Ladders
  import opened LadderSteps

  // PriceLevel::push_back: the level record is updated in the caller's storage.
  method PushBack(pool: OrderPool, level: PriceLevel, index: U32) returns (l: PriceLevel)
    requires index < pool.slots.Length <= MAX_CAPACITY
    requires level.total + pool.slots[index].remaining <= UINT64_MAX && level.count < UINT32_MAX
    requires NULL_IDX <= level.tail < pool.slots.Length && level.tail != index
    modifies pool.slots
    ensures pool.slots[..] == LinkedBack(old(pool.slots[..]), level.tail, index)
    ensures l == PushRecord(level, index, old(pool.slots[index].remaining))
  {
    ghost var s := pool.slots[..];
    l := level;
    pool.slots[index] := pool.slots[index].(prev := l.tail);
    if l.tail != NULL_IDX {
      pool.slots[l.tail] := pool.slots[l.tail].(next := index);
    } else {
      l := l.(head := index);
    }
    l := l.(tail := index);
    l := l.(count := l.count + 1);
    l := l.(total := l.total + pool.slots[index].remaining);
    assert pool.slots[..] == LinkedBack(s, level.tail, index);
  }

  // PriceLevel::unlink.
  method Unlink(pool: OrderPool, level: PriceLevel, index: U32) returns (l: PriceLevel)
    requires index < pool.slots.Length
    requires level.count > 0 && level.total >= pool.slots[index].remaining
    requires NULL_IDX <= pool.slots[index].prev < pool.slots.Length && pool.slots[index].prev != index
    requires NULL_IDX <= pool.slots[index].next < pool.slots.Length && pool.slots[index].next != index
    modifies pool.slots
    ensures pool.slots[..][index := pool.slots[index].(levelIdx := NULL_IDX)] == Unlinked(old(pool.slots[..]), index)
    ensures pool.slots[index] == old(pool.slots[index]).(prev := NULL_IDX, next := NULL_IDX)
    ensures l == RemoveRecord(level, old(pool.slots[index]))
  {
    ghost var s := pool.slots[..];
    l := level;
    var order := pool.slots[index];
    if order.prev != NULL_IDX {
      pool.slots[order.prev] := pool.slots[order.prev].(next := order.next);
    } else {
      l := l.(head := order.next);
    }
    if order.next != NULL_IDX {
      pool.slots[order.next] := pool.slots[order.next].(prev := order.prev);
    } else {
      l := l.(tail := order.prev);
    }
    pool.slots[index] := pool.slots[index].(prev := NULL_IDX, next := NULL_IDX);
    l := l.(count := l.count - 1);
    l := l.(total := l.total - order.remaining);
    assert pool.slots[..][index := pool.slots[index].(levelIdx := NULL_IDX)] == Unlinked(s, index);
  }

  function EmptyLadder(side: Side, low: Price, n: nat): Ladder {
    Ladder(side, low, NULL_IDX, 0, seq(n, _ => EMPTY_LEVEL), map[], map[])
  }

  lemma {:induction false} EmptyCount(n: nat)
    ensures CountSum(seq(n, _ => EMPTY_LEVEL)) == 0
  {
    if n > 0 {
      EmptyCount(n - 1);
      assert seq(n, _ => EMPTY_LEVEL)[..n - 1] == seq(n - 1, _ => EMPTY_LEVEL);
    }
  }

  lemma EmptyLadderInv(s: seq<Order>, side: Side, low: Price, n: nat)
    requires 1 <= n <= 2 * MAX_RADIUS + 1 && low + n <= INT64_MAX
    requires forall i :: 0 <= i < |s| ==> s[i].orderId == INVALID_ORDER_ID
    ensures LadderInv(s, EmptyLadder(side, low, n))
    ensures Abs(s, EmptyLadder(side, low, n)) == map[]
  {
    EmptyCount(n);
  }

  lemma InOverflow(v: Ladder, p: Price)
    requires !InBand(v, p)
    ensures LevelOf(v, p) == if p in v.overflow then v.overflow[p] else EMPTY_LEVEL
  {
  }

  lemma InLevels(v: Ladder, p: Price)
    requires InBand(v, p)
    ensures LevelOf(v, p) == v.levels[p - v.low]
  {
  }

  // What push_order leaves when the price is out of the band, and when it is in it.
  lemma PushedOutOfBand(s: seq<Order>, v: Ladder, i: int, node: PriceLevel)
    requires ShapeOk(v) && ReadyToRest(s, i, v.side) && v.bandOrders < UINT32_MAX && !InBand(v, s[i].price)
    requires -1 <= LevelOf(v, s[i].price).tail < |s|
    requires LevelOf(v, s[i].price).tail != NULL_IDX ==> LevelOf(v, s[i].price).head != NULL_IDX
    requires LevelOf(v, s[i].price).total + s[i].remaining <= UINT64_MAX && LevelOf(v, s[i].price).count < UINT32_MAX
    requires node == PushRecord(LevelOf(v, s[i].price), i, s[i].remaining)
    ensures v.(overflow := v.overflow[s[i].price := node],
               fifo := SetQueue(v.fifo, s[i].price, QueueAt(v.fifo, s[i].price) + [i])) == PushLadder(s, v, i)
    ensures var t := LinkedBack(s, LevelOf(v, s[i].price).tail, i);
            t[i := t[i].(levelIdx := OVERFLOW_IDX)] == PushSlots(s, v, i)
  {
  }

  lemma PushedInBand(s: seq<Order>, v: Ladder, i: int, level: PriceLevel)
    requires ShapeOk(v) && ReadyToRest(s, i, v.side) && v.bandOrders < UINT32_MAX && InBand(v, s[i].price)
    requires -1 <= LevelOf(v, s[i].price).tail < |s|
    requires LevelOf(v, s[i].price).total + s[i].remaining <= UINT64_MAX && LevelOf(v, s[i].price).count < UINT32_MAX
    requires level == PushRecord(LevelOf(v, s[i].price), i, s[i].remaining)
    ensures var off := s[i].price - v.low;
            v.(levels := v.levels[off := level],
               fifo := SetQueue(v.fifo, s[i].price, QueueAt(v.fifo, s[i].price) + [i]),
               bandOrders := v.bandOrders + 1,
               best := if v.best == NULL_IDX || Better(v.side, off, v.best) then off else v.best)
            == PushLadder(s, v, i)
    ensures var t := LinkedBack(s, LevelOf(v, s[i].price).tail, i);
            t[i := t[i].(levelIdx := s[i].price - v.low)] == PushSlots(s, v, i)
  {
  }

  class PriceLadder {
    const side: Side
    const low: Price
    const levels: array<PriceLevel>
    var best: I32
    var bandOrders: U32
    var overflow: map<Price, PriceLevel>
    // The slot indices resting at each price, front first.
    ghost var fifo: map<Price, seq<int>>

    ghost function V(): (v: Ladder)
      reads this, levels
      ensures v.side == side && v.low == low && v.levels == levels[..] && v.overflow == overflow
      ensures v.fifo == fifo && v.best == best && v.bandOrders == bandOrders
    {
      Ladder(side, low, best, bandOrders, levels[..], overflow, fifo)
    }

    constructor (side: Side, anchor: Price, radius: U32)
      requires anchor > 0 && 1 <= radius <= MAX_RADIUS && anchor + radius + 1 <= INT64_MAX
      ensures fresh(levels) && this.side == side
      ensures V() == EmptyLadder(side, anchor - radius, 2 * radius + 1)
    {
      this.side := side;
      low := anchor - radius;
      levels := new PriceLevel[2 * radius + 1](_ => EMPTY_LEVEL);
      best := NULL_IDX;
      bandOrders := 0;
      overflow := map[];
      fifo := map[];
      new;
      assert levels[..] == seq(2 * radius + 1, _ => EMPTY_LEVEL);
    }

    predicate InBandAt(p: Price)
      ensures InBandAt(p) <==> low <= p < low + levels.Length
    {
      p >= low && p < low + levels.Length
    }

    method FindLevel(p: Price) returns (l: Option<PriceLevel>)
      ensures LevelOf(V(), p) == (if l.Some? then l.value else EMPTY_LEVEL)
    {
      if InBandAt(p) {
        return Some(levels[p - low]);
      }
      return if p in overflow then Some(overflow[p]) else None;
    }

    // The level at a price where orders rest (level_at), and its write-back.
    method LevelAt(p: Price) returns (l: PriceLevel)
      requires InBandAt(p) || p in overflow
      ensures l == LevelOf(V(), p)
    {
      l := if InBandAt(p) then levels[p - low] else overflow[p];
    }

    method StoreLevel(p: Price, l: PriceLevel)
      requires l.head != NULL_IDX
      modifies this, levels
      ensures V() == SetLevel(old(V()), p, l)
    {
      if InBandAt(p) {
        levels[p - low] := l;
      } else {
        overflow := overflow[p := l];
      }
    }

    method PushOrder(pool: OrderPool, index: U32)
      requires pool.slots.Length <= MAX_CAPACITY
      requires LadderInv(pool.slots[..], V()) && ReadyToRest(pool.slots[..], index, side)
      modifies this, levels, pool.slots
      ensures PushedAs(old(pool.slots[..]), old(V()), index, pool.slots[..], V())
    {
      hide LadderInv, PushedAs, LevelOf, SetLevel, PushRecord, PushSlots, LinkedBack, SetQueue;
      ghost var s, v := pool.slots[..], V();
      PushFits(s, v, index);
      var p := pool.slots[index].price;
      fifo := SetQueue(fifo, p, QueueAt(fifo, p) + [index]);
      if !InBandAt(p) {
        ghost var level := LevelOf(v, p);
        InOverflow(v, p);
        var node := PushBack(pool, if p in overflow then overflow[p] else EMPTY_LEVEL, index);
        overflow := overflow[p := node];
        pool.slots[index] := pool.slots[index].(levelIdx := OVERFLOW_IDX);
        PushedOutOfBand(s, v, index, node);
      } else {
        var offset: I32 := p - low;
        InLevels(v, p);
        var level := PushBack(pool, levels[offset], index);
        levels[offset] := level;
        pool.slots[index] := pool.slots[index].(levelIdx := offset);
        bandOrders := bandOrders + 1;
        if best == NULL_IDX || Better(side, offset, best) {
          best := offset;
        }
        PushedInBand(s, v, index, level);
      }
      PushIsPushed(s, v, index);
    }

    // `k` is the order's position in the queue at its price.
    method RemoveOrder(pool: OrderPool, index: U32, ghost k: int)
      requires LadderInv(pool.slots[..], V()) && RestsAt(pool.slots[..], V(), index, k)
      modifies this, levels, pool.slots
      ensures RemovedAs(old(pool.slots[..]), old(V()), index, k, pool.slots[..], V())
    {
      hide LadderInv, RemovedAs;
      ghost var s, v := pool.slots[..], V();
      RemoveFits(s, v, index, k);
      var p := pool.slots[index].price;
      var offset := pool.slots[index].levelIdx;
      fifo := SetQueue(fifo, p, RemoveAt(fifo[p], k));
      if offset == OVERFLOW_IDX {
        var node := Unlink(pool, overflow[p], index);
        pool.slots[index] := pool.slots[index].(levelIdx := NULL_IDX);
        overflow := if node.head == NULL_IDX then overflow - {p} else overflow[p := node];
        assert V() == RemoveLadder(s, v, index, k);
        BestStays(s, v, index, k);
      } else {
        var level := Unlink(pool, levels[offset], index);
        levels[offset] := level;
        pool.slots[index] := pool.slots[index].(levelIdx := NULL_IDX);
        bandOrders := bandOrders - 1;
        assert V() == RemoveLadder(s, v, index, k);
        RefreshBest(s, v, index, k, level.head == NULL_IDX && offset == best);
      }
      assert pool.slots[..] == Unlinked(s, index);
      RemoveIsRemoved(s, v, index, k, V());
    }

    // The cursor step of RemoveOrder, once the band order is out of its level.
    method RefreshBest(ghost s: seq<Order>, ghost v: Ladder, ghost i: int, ghost k: int, emptied: bool)
      requires LadderInv(s, v) && RestsAt(s, v, i, k) && InBand(v, s[i].price)
      requires -1 <= s[i].prev < |s| && -1 <= s[i].next < |s|
      requires LevelOf(v, s[i].price).count > 0 && LevelOf(v, s[i].price).total >= s[i].remaining
      requires v.bandOrders > 0 && V() == RemoveLadder(s, v, i, k)
      requires emptied <==> RemoveRecord(LevelOf(v, s[i].price), s[i]).head == NULL_IDX
                            && v.low + v.best == s[i].price
      modifies this`best
      ensures V() == RemoveLadder(s, v, i, k).(best := best) && BestOk(V())
    {
      ghost var t, w := Unlinked(s, i), V();
      RemoveStructure(s, v, i, k);
      RemoveCount(s, v, i, k);
      if emptied {
        if bandOrders == 0 {
          BandEmpty(t, w);
          best := NULL_IDX;
        } else {
          NothingBetter(s, v, i, k);
          var b := AdvanceBest(t);
          CursorOk(t, w, b);
          best := b;
        }
      } else {
        StillOccupied(s, v, i, k);
        BestStays(s, v, i, k);
      }
    }

    // Steps from the emptied best level toward worse prices. The search never runs off
    // the band: the band order count says an occupied level is there.
    method AdvanceBest(ghost s: seq<Order>) returns (b: I32)
      requires ShapeOk(V()) && QueuesOk(s, V()) && RecordsOk(s, V())
      requires bandOrders > 0 && bandOrders == CountSum(levels[..])
      requires 0 <= best < levels.Length && levels[best].head == NULL_IDX
      requires forall off :: 0 <= off < levels.Length && Better(side, off, best) ==>
        levels[off].head == NULL_IDX
      ensures FirstOccupied(side, levels[..], b)
    {
      var step: int := if side == Buy then -1 else 1;
      var end: int := if side == Buy then -1 else levels.Length;
      var off: int := best + step;
      while off != end
        invariant -1 <= off <= levels.Length
        invariant if side == Buy then off < best else off > best
        invariant forall o :: 0 <= o < levels.Length && Better(side, o, off) ==> levels[o].head == NULL_IDX
        decreases if side == Buy then off + 1 else levels.Length - off
      {
        if levels[off].head != NULL_IDX {
          return off;
        }
        off := off + step;
      }
      ghost var hit := CountSumWitness(levels[..]);
      LevelEmpty(s, V(), low + hit);
      assert false;
      b := NULL_IDX;
    }

    method Empty(ghost s: seq<Order>) returns (empty: bool)
      requires LadderInv(s, V())
      ensures empty <==> Abs(s, V()) == map[]
    {
      BestIsBest(s, V());
      empty := best == NULL_IDX && overflow == map[];
    }

    method BestPrice(ghost s: seq<Order>) returns (p: Price)
      requires LadderInv(s, V()) && Abs(s, V()) != map[]
      ensures p == Best(side, Abs(s, V()))
    {
      BestIsBest(s, V());
      if overflow == map[] {
        return low + best;
      }
      var overflowBest := Best(side, overflow);
      if best == NULL_IDX {
        return overflowBest;
      }
      var bandBest := low + best;
      return if side == Buy then Max(bandBest, overflowBest) else Min(bandBest, overflowBest);
    }
  }

  ghost predicate PushedAs(s: seq<Order>, v: Ladder, i: int, t: seq<Order>, w: Ladder)
    requires 0 <= i < |s|
  {
    && LadderInv(t, w) && w.side == v.side
    && Abs(t, w) == Abs(s, v)[s[i].price := QueueAt(Abs(s, v), s[i].price) + [View(s, i)]]
    && Keeps(s, t, Opposite(v.side)) && SamePool(s, t)
    && (forall j :: 0 <= j < |s| && j != i ==> t[j].levelIdx == s[j].levelIdx)
    && t[i].levelIdx != NULL_IDX
  }

  lemma PushIsPushed(s: seq<Order>, v: Ladder, i: int)
    requires LadderInv(s, v) && ReadyToRest(s, i, v.side)
    requires -1 <= LevelOf(v, s[i].price).tail < |s| && v.bandOrders < UINT32_MAX
    requires LevelOf(v, s[i].price).tail != i
    requires LevelOf(v, s[i].price).total + s[i].remaining <= UINT64_MAX
    requires LevelOf(v, s[i].price).count < UINT32_MAX
    ensures PushedAs(s, v, i, PushSlots(s, v, i), PushLadder(s, v, i))
  {
    PushOk(s, v, i);
    PushTouches(s, v, i);
  }

  ghost predicate RemovedAs(s: seq<Order>, v: Ladder, i: int, k: int, t: seq<Order>, w: Ladder)
    requires RestsAt(s, v, i, k)
  {
    && LadderInv(t, w) && w.side == v.side
    && Abs(t, w) == SetQueue(Abs(s, v), s[i].price, RemoveAt(Abs(s, v)[s[i].price], k))
    && Keeps(s, t, Opposite(v.side)) && SamePool(s, t)
    && (forall j :: 0 <= j < |s| && j != i ==> t[j].levelIdx == s[j].levelIdx)
    && (forall j :: 0 <= j < |s| && InFlight(s[j]) ==> t[j] == s[j])
    && t[i].levelIdx == NULL_IDX
  }

  lemma RemoveOthers(s: seq<Order>, v: Ladder, i: int, k: int)
    requires QueuesOk(s, v) && RestsAt(s, v, i, k)
    requires -1 <= s[i].prev < |s| && -1 <= s[i].next < |s|
    ensures Keeps(s, Unlinked(s, i), Opposite(v.side)) && SamePool(s, Unlinked(s, i))
    ensures forall j :: 0 <= j < |s| && j != i ==> Unlinked(s, i)[j].levelIdx == s[j].levelIdx
    ensures forall j :: 0 <= j < |s| && InFlight(s[j]) ==> Unlinked(s, i)[j] == s[j]
    ensures Unlinked(s, i)[i].levelIdx == NULL_IDX
  {
    var p := s[i].price;
    LinksOf(s, v.side, p, LevelIdx(v, p), v.fifo[p], k);
  }

  lemma RemoveIsRemoved(s: seq<Order>, v: Ladder, i: int, k: int, u: Ladder)
    requires LadderInv(s, v) && RestsAt(s, v, i, k)
    requires -1 <= s[i].prev < |s| && -1 <= s[i].next < |s|
    requires LevelOf(v, s[i].price).count > 0 && LevelOf(v, s[i].price).total >= s[i].remaining
    requires InBand(v, s[i].price) ==> v.bandOrders > 0
    requires u == RemoveLadder(s, v, i, k).(best := u.best) && BestOk(u)
    ensures RemovedAs(s, v, i, k, Unlinked(s, i), u)
  {
    var p, t, w := s[i].price, Unlinked(s, i), RemoveLadder(s, v, i, k);
    hide QueuesOk, RecordsOk, BestOk, Keeps, SamePool;
    RemoveOthers(s, v, i, k);
    RemoveStructure(s, v, i, k);
    RemoveCount(s, v, i, k);
    QueuesAlike(t, w, u);
    RecordsAlike(t, w, u);
  }

  lemma StillOccupied(s: seq<Order>, v: Ladder, i: int, k: int)
    requires LadderInv(s, v) && RestsAt(s, v, i, k) && s[i].prev < |s| && s[i].next < |s|
    requires LevelOf(v, s[i].price).count > 0 && LevelOf(v, s[i].price).total >= s[i].remaining
    ensures RemoveRecord(LevelOf(v, s[i].price), s[i]).head != NULL_IDX ==> |v.fifo[s[i].price]| > 1
  {
    var p := s[i].price;
    LinksOf(s, v.side, p, LevelIdx(v, p), v.fifo[p], k);
  }

  // Before the cursor's level emptied, every better level was empty already.
  lemma NothingBetter(s: seq<Order>, v: Ladder, i: int, k: int)
    requires LadderInv(s, v) && RestsAt(s, v, i, k) && InBand(v, s[i].price)
    requires LevelOf(v, s[i].price).count > 0 && LevelOf(v, s[i].price).total >= s[i].remaining
    requires v.bandOrders > 0 && v.low + v.best == s[i].price
    ensures 0 <= v.best < |v.levels|
    ensures var levels := RemoveLadder(s, v, i, k).levels;
            forall off :: 0 <= off < |levels| && Better(v.side, off, v.best) ==> levels[off].head == NULL_IDX
  {
    forall off | 0 <= off < |v.levels| && Better(v.side, off, v.best)
      ensures v.levels[off].head == NULL_IDX
    {
      LevelEmpty(s, v, v.low + off);
      assert LevelOf(v, v.low + off) == v.levels[off];
    }
  }
}
