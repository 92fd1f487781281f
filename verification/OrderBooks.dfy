/**
 The arena book: a slot pool and a ladder per side. Each method is proved to perform
 the operation of BookSpec on the book's abstract state, and to keep the whole
 representation invariant.
 */
module OrderBooks {
  import opened Types
  import opened Seqs
  import opened OrderPools
  import opened BookSpec
  import opened BookFacts
  import opened Ladders
  import opened LadderSteps
  import opened PriceLadders
  import opened BookRep

  class OrderBook {
    const pool: OrderPool
    const bids: PriceLadder
    const asks: PriceLadder

    ghost function Repr(): set<object> {
      {pool, pool.slots, bids, bids.levels, asks, asks.levels}
    }

    ghost predicate Shape() {
      && bids != asks && bids.levels != asks.levels
      && bids.side == Buy && asks.side == Sell
    }

    function Ladder(side: Side): PriceLadder {
      if side == Buy then bids else asks
    }

    // The full invariant, with slot `flying` (or none: NULL_IDX) taken but in no queue.
    ghost predicate Holding(flying: int)
      reads Repr()
    {
      Shape() && pool.Valid() && SidesInv(pool.slots[..], bids.V(), asks.V(), flying)
    }

    ghost predicate Valid()
      reads Repr()
    {
      Holding(NULL_IDX)
    }

    ghost function BookV(): Book
      requires Shape()
      reads Repr()
    {
      BookOf(pool.slots[..], bids.V(), asks.V())
    }

    ghost function StateV(): State
      requires Shape()
      reads Repr()
    {
      State(pool.Spec(), BookV())
    }

    lemma HoldingMeansOk(flying: int)
      requires Holding(flying)
      ensures PoolOk(pool.Spec()) && BookOk(BookV())
      ensures forall id :: Open(BookV(), id) <==> Live(pool.Spec(), id) && IndexOf(id) != flying
      ensures flying == NULL_IDX ==> StateOk(StateV())
    {
      RepMeansOk(pool.slots[..], pool.freeHead, pool.liveCount, pool.free, bids.V(), asks.V(), flying);
    }

    constructor (anchor: Price, radius: U32, capacity: U32)
      requires anchor > 0 && 1 <= radius <= MAX_RADIUS && anchor + radius + 1 <= INT64_MAX
      requires capacity <= MAX_CAPACITY
      ensures Valid() && fresh(Repr())
      ensures StateV() == State(EmptyPool(capacity), Book(map[], map[]))
    {
      hide SidesInv, PoolInv, BookOf, PoolOf, EmptyLadder, EmptyPool;
      pool := new OrderPool(capacity);
      bids := new PriceLadder(Buy, anchor, radius);
      asks := new PriceLadder(Sell, anchor, radius);
      new;
      ghost var s, n := pool.slots[..], 2 * radius + 1;
      FreshSides(s, anchor - radius, n);
      assert bids.V() == EmptyLadder(Buy, anchor - radius, n);
      assert asks.V() == EmptyLadder(Sell, anchor - radius, n);
    }

    // ----- Either side as "own", the other as "opposite"

    ghost function L(side: Side): Levels
      requires Shape()
      reads Repr()
    {
      Abs(pool.slots[..], Ladder(side).V())
    }

    lemma Facing(side: Side, flying: int)
      requires Holding(flying)
      ensures SidesInv(pool.slots[..], Ladder(side).V(), Ladder(Opposite(side)).V(), flying)
    {
    }

    // Takes a resting order out of its queue and returns its slot to the pool.
    method TakeOut(side: Side, index: U32, ghost k: int, ghost flying: int)
      requires Holding(flying) && RestsAt(pool.slots[..], Ladder(side).V(), index, k)
      modifies Repr()
      ensures Holding(flying)
      ensures L(Opposite(side)) == old(L(Opposite(side)))
      ensures 0 <= flying < pool.slots.Length ==> pool.slots[flying] == old(pool.slots[flying])
      ensures L(side) == old(
        SetQueue(L(side), pool.slots[index].price, RemoveAt(L(side)[pool.slots[index].price], k)))
      ensures pool.Spec() == Released(old(pool.Spec()), index)
    {
      hide LadderInv, PoolInv, Keeps;
      var own := Ladder(side);
      ghost var other := Ladder(Opposite(side));
      Facing(side, flying);
      ghost var s, v, u := pool.slots[..], own.V(), other.V();
      own.RemoveOrder(pool, index, k);
      ghost var t, w := pool.slots[..], own.V();
      PoolFrame(s, t, pool.freeHead, pool.liveCount, pool.free);
      pool.Free(index);
      assert own.V() == w && other.V() == u;
      AfterTakeOut(s, t, pool.slots[..], v, w, u, index, k, flying);
    }

    // maker.remaining and the level's aggregate are debited by hand.
    method Debit(side: Side, p: Price, level: PriceLevel, index: U32, fill: Qty, ghost flying: int)
      requires Holding(flying) && p in Ladder(side).fifo
      requires level == LevelOf(Ladder(side).V(), p) && index == level.head
      requires index < pool.slots.Length && At(Ladder(side).fifo[p], 0) == index
      requires fill < pool.slots[index].remaining <= level.total
      modifies Repr()
      ensures Holding(flying)
      ensures L(Opposite(side)) == old(L(Opposite(side)))
      ensures 0 <= flying < pool.slots.Length ==> pool.slots[flying] == old(pool.slots[flying])
      ensures L(side) == SetQueue(old(L(side)), p, FillFront(old(L(side))[p], fill))
      ensures pool.Spec() == old(pool.Spec())
    {
      hide LadderInv, PoolInv, SamePool, Abs, FillFront, SetQueue;
      var own := Ladder(side);
      ghost var other := Ladder(Opposite(side));
      Facing(side, flying);
      ghost var s, v, u := pool.slots[..], own.V(), other.V();
      AfterDebit(s, v, u, p, index, fill, flying);
      pool.slots[index] := pool.slots[index].(remaining := pool.slots[index].remaining - fill);
      own.StoreLevel(p, level.(total := level.total - fill));
      assert pool.slots[..] == DebitSlots(s, index, fill);
      assert own.V() == DebitLadder(v, p, fill) && other.V() == u;
      PoolFrame(s, pool.slots[..], pool.freeHead, pool.liveCount, pool.free);
    }

    // One fill of the best opposing order, as the sweep performs it.
    method FillOne(taker: Side, levelPx: Price, remaining: Qty, takerId: OrderId, ghost flying: int)
      returns (left: Qty, events: seq<Event>)
      requires Holding(flying) && remaining > 0
      requires LevelsOk(L(Opposite(taker)), Opposite(taker)) && L(Opposite(taker)) != map[]
      requires levelPx == Best(Opposite(taker), L(Opposite(taker)))
      modifies Repr()
      ensures Holding(flying) && L(taker) == old(L(taker))
      ensures 0 <= flying < pool.slots.Length ==> pool.slots[flying] == old(pool.slots[flying])
      ensures left == remaining - Min(remaining, Maker(old(L(Opposite(taker))), taker).remaining)
      ensures events ==
        FillEvents(Maker(old(L(Opposite(taker))), taker), taker, takerId, remaining - left, left)
      ensures L(Opposite(taker)) == FillBest(old(L(Opposite(taker))), taker, remaining - left)
      ensures pool.Spec() ==
        if remaining - left == Maker(old(L(Opposite(taker))), taker).remaining
        then Released(old(pool.Spec()), IndexOf(Maker(old(L(Opposite(taker))), taker).id))
        else old(pool.Spec())
    {
      hide LadderInv, PoolInv;
      var side := Opposite(taker);
      var opposite := Ladder(side);
      ghost var s, v := pool.slots[..], opposite.V();
      Facing(side, flying);
      FrontOrder(s, v, levelPx);
      IdNamesSlot(s, pool.freeHead, pool.liveCount, pool.free, LevelOf(v, levelPx).head);
      FillFrontFull(s, v, levelPx);
      var level := opposite.LevelAt(levelPx);
      var makerIdx := level.head;
      var maker := pool.slots[makerIdx];
      var fill := Min(remaining, maker.remaining);
      left := remaining - fill;
      var makerLeft := maker.remaining - fill;
      events := [Event(Traded, maker.side, NoReason, fill, makerLeft, maker.price, maker.orderId),
                 Event(Traded, taker, NoReason, fill, left, maker.price, takerId)];
      ghost var opp := L(side);
      assert opp[levelPx][0] == View(s, makerIdx) == Maker(opp, taker);
      if makerLeft == 0 {
        TakeOut(side, makerIdx, 0, flying);
        assert L(side) == SetQueue(opp, levelPx, FillFront(opp[levelPx], fill));
      } else {
        Debit(side, levelPx, level, makerIdx, fill, flying);
      }
    }

    // Sweeps the opposite side best level first, first in first out within a level.
    method Match(taker: Side, limit: Price, qty: Qty, takerId: OrderId, ghost flying: int)
      returns (remaining: Qty, events: seq<Event>)
      requires Holding(flying) && LevelsOk(L(Opposite(taker)), Opposite(taker))
      modifies Repr()
      ensures Holding(flying) && L(taker) == old(L(taker))
      ensures 0 <= flying < pool.slots.Length ==> pool.slots[flying] == old(pool.slots[flying])
      ensures L(Opposite(taker)) == Sweep(old(L(Opposite(taker))), taker, limit, qty, takerId).levels
      ensures remaining == Sweep(old(L(Opposite(taker))), taker, limit, qty, takerId).remaining
      ensures events == Sweep(old(L(Opposite(taker))), taker, limit, qty, takerId).events
      ensures pool.Spec() == ReleasedAll(old(pool.Spec()),
                                         Sweep(old(L(Opposite(taker))), taker, limit, qty, takerId).filled)
    {
      hide LadderInv, PoolInv, SidesInv, FillBest, FillEvents, ReleasedAll, Best, Sweep, Resume, Abs, PoolOf;
      var side := Opposite(taker);
      var opposite := Ladder(side);
      ghost var start, pool0 := L(side), pool.Spec();
      ghost var whole := Sweep(start, taker, limit, qty, takerId);
      ghost var filled: seq<OrderId> := [];
      ReleasedNone(pool0);
      remaining := qty;
      events := [];
      ResumeNothing(whole);
      while remaining > 0
        invariant Holding(flying) && L(taker) == old(L(taker)) && LevelsOk(L(side), side)
        invariant 0 <= flying < pool.slots.Length ==> pool.slots[flying] == old(pool.slots[flying])
        invariant whole == Resume(Sweep(L(side), taker, limit, remaining, takerId), events, filled)
        invariant pool.Spec() == ReleasedAll(pool0, filled)
        decreases remaining
      {
        Facing(side, flying);
        var empty := opposite.Empty(pool.slots[..]);
        if empty {
          break;
        }
        var levelPx := opposite.BestPrice(pool.slots[..]);
        if !Crosses(taker, limit, levelPx) {
          break;
        }
        ghost var opp, rem, maker := L(side), remaining, Maker(L(side), taker);
        assert maker.remaining >= 1;
        var fillEvents;
        remaining, fillEvents := FillOne(taker, levelPx, remaining, takerId, flying);
        ResumeOne(opp, taker, limit, rem, takerId, remaining, events, filled);
        ghost var done := if rem - remaining == maker.remaining then [maker.id] else [];
        ReleasedMore(pool0, filled, maker.id);
        AppendNothing(filled);
        events := events + fillEvents;
        filled := filled + done;
      }
      ResumeNone(L(side), taker, limit, remaining, takerId, events, filled);
    }

    // ----- The taker's slot: taken before the sweep, then rested or given back

    method TakeSlot() returns (id: OrderId)
      requires Valid()
      modifies Repr()
      ensures L(Buy) == old(L(Buy)) && L(Sell) == old(L(Sell))
      ensures PoolOk(old(pool.Spec()))
      ensures id == INVALID_ORDER_ID <==> old(pool.Spec().free) == []
      ensures id == INVALID_ORDER_ID ==> Valid() && pool.Spec() == old(pool.Spec())
      ensures id != INVALID_ORDER_ID ==>
        && id == NextId(old(pool.Spec())) && pool.Spec() == Taken(old(pool.Spec()))
        && IndexOf(id) < pool.slots.Length && Holding(IndexOf(id))
        && pool.slots[IndexOf(id)].orderId == id
        && pool.slots[IndexOf(id)].prev == NULL_IDX && pool.slots[IndexOf(id)].next == NULL_IDX
    {
      hide LadderInv, PoolInv, Abs;
      ghost var s, v, u := pool.slots[..], bids.V(), asks.V();
      InvMeansPoolOk(s, pool.freeHead, pool.liveCount, pool.free);
      id := pool.Alloc();
      assert bids.V() == v && asks.V() == u;
      if id != INVALID_ORDER_ID {
        IdleSlot(s, pool.slots[..], v, u, IndexOf(id), NULL_IDX, IndexOf(id));
      } else {
        assert pool.slots[..] == s;
      }
    }

    method GiveBack(index: U32)
      requires index < pool.slots.Length && Holding(index)
      modifies Repr()
      ensures Valid()
      ensures L(Buy) == old(L(Buy)) && L(Sell) == old(L(Sell))
      ensures pool.Spec() == Released(old(pool.Spec()), index)
    {
      hide LadderInv, PoolInv, Abs;
      ghost var s, v, u := pool.slots[..], bids.V(), asks.V();
      assert InFlight(s[index]);
      pool.Free(index);
      assert bids.V() == v && asks.V() == u;
      IdleSlot(s, pool.slots[..], v, u, index, index, NULL_IDX);
    }

    method Rest(index: U32, side: Side, otype: OrderType, price: Price, qty: Qty, remaining: Qty)
      requires index < pool.slots.Length && Holding(index) && 1 <= remaining <= qty
      requires pool.slots[index].prev == NULL_IDX && pool.slots[index].next == NULL_IDX
      modifies Repr()
      ensures Valid()
      ensures L(Opposite(side)) == old(L(Opposite(side)))
      ensures L(side) == old(L(side)[price :=
        QueueAt(L(side), price) + [Resting(pool.slots[index].orderId, price, qty, remaining, side)]])
      ensures pool.Spec() == old(pool.Spec())
    {
      hide LadderInv, PoolInv, Keeps;
      var own := Ladder(side);
      ghost var other := Ladder(Opposite(side));
      Facing(side, index);
      ghost var r, v, u := pool.slots[..], own.V(), other.V();
      assert InFlight(r[index]);
      pool.slots[index] := pool.slots[index].(price := price, qty := qty, remaining := remaining,
                                              side := side, otype := otype);
      ghost var s := pool.slots[..];
      IdleSlot(r, s, v, u, index, index, index);
      PoolFrame(r, s, pool.freeHead, pool.liveCount, pool.free);
      own.PushOrder(pool, index);
      AfterPush(s, pool.slots[..], v, own.V(), u, index);
      PoolFrame(s, pool.slots[..], pool.freeHead, pool.liveCount, pool.free);
      assert other.V() == u;
    }

    // ----- The public operations

    method Add(side: Side, otype: OrderType, price: Price, qty: Qty)
      returns (id: OrderId, events: seq<Event>)
      requires Valid()
      modifies Repr()
      ensures Valid()
      ensures StateOk(old(StateV())) && StateOk(StateV())
      ensures StateV() == BookSpec.Add(old(StateV()), side, otype, price, qty).state
      ensures events == BookSpec.Add(old(StateV()), side, otype, price, qty).events
      ensures id == BookSpec.Add(old(StateV()), side, otype, price, qty).id
    {
      hide LadderInv, PoolInv, SidesInv, Abs, PoolOf, Sweep, ReleasedAll, BookOk, StateOk, Best, Taken, NextId,
        LevelsOk, BookSpec.Add;
      HoldingMeansOk(NULL_IDX);
      ghost var before := StateV();
      StateSides(before);
      AddRejects(before, side, otype, price, qty);
      AddAccepts(before, side, otype, price, qty);
      if qty == 0 {
        return INVALID_ORDER_ID, [Event(Rejected, side, InvalidQty, qty, 0, price, INVALID_ORDER_ID)];
      }
      var isMarket := otype == Market;
      if !isMarket && price <= 0 {
        return INVALID_ORDER_ID, [Event(Rejected, side, InvalidPrice, qty, 0, price, INVALID_ORDER_ID)];
      }
      id := TakeSlot();
      if id == INVALID_ORDER_ID {
        HoldingMeansOk(NULL_IDX);
        return INVALID_ORDER_ID, [Event(Rejected, side, PoolExhausted, qty, 0, price, INVALID_ORDER_ID)];
      }
      var orderPx := if isMarket then 0 else price;
      events := [Event(Accepted, side, NoReason, qty, qty, orderPx, id)];
      var limit := if !isMarket then price else if side == Buy then INT64_MAX else INT64_MIN;
      var index := IndexOf(id);
      var remaining, fills := Match(side, limit, qty, id, index);
      events := events + fills;
      ghost var swept := Sweep(SideOf(before.book, Opposite(side)), side, limit, qty, id);
      if remaining == 0 || otype != Limit {
        if remaining > 0 {
          events := events + [Event(Canceled, side, NoReason, remaining, 0, orderPx, id)];
        } else {
          assert events + [] == events;
        }
        GiveBack(index);
        ReleasedMore(Taken(before.pool), swept.filled, id);
      } else {
        Rest(index, side, otype, price, qty, remaining);
        AppendNothing(swept.filled);
      }
      HoldingMeansOk(NULL_IDX);
    }

    method AddLimit(side: Side, price: Price, qty: Qty) returns (id: OrderId)
      requires Valid()
      modifies Repr()
      ensures Valid()
      ensures StateOk(old(StateV())) && StateOk(StateV())
      ensures StateV() == BookSpec.AddLimit(old(StateV()), side, price, qty).state
      ensures id == BookSpec.AddLimit(old(StateV()), side, price, qty).id
    {
      hide LadderInv, PoolInv, SidesInv, Abs, PoolOf, BookOk, StateOk, Best;
      HoldingMeansOk(NULL_IDX);
      StateSides(StateV());
      if qty == 0 || price <= 0 {
        return INVALID_ORDER_ID;
      }
      id := TakeSlot();
      if id != INVALID_ORDER_ID {
        Rest(IndexOf(id), side, Limit, price, qty, qty);
      }
      HoldingMeansOk(NULL_IDX);
    }

    method Cancel(id: OrderId) returns (done: bool, event: Event)
      requires Valid()
      modifies Repr()
      ensures Valid()
      ensures StateOk(old(StateV())) && StateOk(StateV())
      ensures done <==> Open(old(BookV()), id)
      ensures event == CancelEvent(old(BookV()), id)
      ensures StateV() == CancelState(old(StateV()), id)
    {
      hide LadderInv, PoolInv, SidesInv, PoolOf, StateOk;
      HoldingMeansOk(NULL_IDX);
      ghost var before := BookV();
      var found := pool.Find(id);
      if found == None {
        return false, Event(Rejected, Buy, UnknownOrder, 0, 0, 0, id);
      }
      var index := found.value;
      var order := pool.slots[index];
      ghost var k := Locate(order.side, id);
      TakeOut(order.side, index, k, NULL_IDX);
      HoldingMeansOk(NULL_IDX);
      return true, Event(Canceled, order.side, NoReason, order.remaining, 0, order.price, id);
    }

    // Where a live order rests, and that the spec's cancel finds it there.
    lemma Locate(side: Side, id: OrderId) returns (k: int)
      requires Valid() && id != INVALID_ORDER_ID && IndexOf(id) < pool.slots.Length
      requires pool.slots[IndexOf(id)].orderId == id && pool.slots[IndexOf(id)].side == side
      ensures RestsAt(pool.slots[..], Ladder(side).V(), IndexOf(id), k)
      ensures var p := pool.slots[IndexOf(id)].price;
        && p in L(side) && 0 <= k < |L(side)[p]|
        && Open(BookV(), id) && OrderOf(BookV(), id) == View(pool.slots[..], IndexOf(id))
        && Without(BookV(), id) == WithSide(BookV(), side, SetQueue(L(side), p, RemoveAt(L(side)[p], k)))
    {
      hide LadderInv, PoolInv;
      var s, v, i := pool.slots[..], Ladder(side).V(), IndexOf(id);
      Facing(side, NULL_IDX);
      assert !InFlight(s[i]);
      k := PositionOf(s, v, i);
      AbsOrder(s, v, s[i].price, k);
      HoldingMeansOk(NULL_IDX);
      CancelAt(BookV(), side, id, s[i].price, k);
    }

    // ----- Queries

    method BestOf(side: Side) returns (p: Option<Price>)
      requires Valid()
      ensures p == if L(side) == map[] then None else Some(Best(side, L(side)))
    {
      hide LadderInv, PoolInv, Abs, Best;
      Facing(side, NULL_IDX);
      var empty := Ladder(side).Empty(pool.slots[..]);
      if empty {
        return None;
      }
      var best := Ladder(side).BestPrice(pool.slots[..]);
      return Some(best);
    }

    method QtyAt(side: Side, price: Price) returns (qty: U64)
      requires Valid()
      ensures qty == QueueQty(QueueAt(L(side), price))
    {
      hide PoolInv, QueuesOk, BestOk;
      Facing(side, NULL_IDX);
      ghost var s, v := pool.slots[..], Ladder(side).V();
      assert LevelOk(LevelOf(v, price), s, QueueAt(v.fifo, price));
      assert QueueAt(L(side), price) == Queue(s, QueueAt(v.fifo, price));
      var level := Ladder(side).FindLevel(price);
      qty := if level == None then 0 else level.value.total;
    }

    method OrdersAt(side: Side, price: Price) returns (count: U32)
      requires Valid()
      ensures count == |QueueAt(L(side), price)|
    {
      hide PoolInv, QueuesOk, BestOk;
      Facing(side, NULL_IDX);
      ghost var s, v := pool.slots[..], Ladder(side).V();
      assert LevelOk(LevelOf(v, price), s, QueueAt(v.fifo, price));
      assert QueueAt(L(side), price) == Queue(s, QueueAt(v.fifo, price));
      var level := Ladder(side).FindLevel(price);
      count := if level == None then 0 else level.value.count;
    }

    method OpenOrders() returns (count: U32)
      requires Valid()
      ensures forall ids :: IsOpenSet(BookV(), ids) ==> |ids| == count
    {
      hide LadderInv, Abs, Open, Live;
      HoldingMeansOk(NULL_IDX);
      LiveCensus(pool.Spec());
      count := pool.liveCount;
      forall ids | IsOpenSet(BookV(), ids)
        ensures |ids| == count
      {
        assert ids == LiveIds(pool.Spec());
      }
    }

    method Contains(id: OrderId) returns (found: bool)
      requires Valid()
      ensures found <==> Open(BookV(), id)
    {
      hide LadderInv, PoolInv, Abs, Live, Open;
      HoldingMeansOk(NULL_IDX);
      var index := pool.Find(id);
      found := index != None;
    }
  }

  // The outcomes of an add, one by one.
  lemma AddRejects(s: State, side: Side, otype: OrderType, price: Price, qty: Qty)
    requires StateOk(s)
    ensures PoolOk(s.pool) && SidesOk(s.book)
    ensures var reason := Validate(otype, price, qty);
            reason != NoReason || s.pool.free == [] ==>
              BookSpec.Add(s, side, otype, price, qty) ==
                AddResult(s, [Reject(side, if reason != NoReason then reason else PoolExhausted,
                                     qty, price, INVALID_ORDER_ID)], INVALID_ORDER_ID)
  {
    StateSides(s);
  }

  lemma AddAccepts(s: State, side: Side, otype: OrderType, price: Price, qty: Qty)
    requires StateOk(s)
    ensures PoolOk(s.pool) && SidesOk(s.book)
    ensures Validate(otype, price, qty) == NoReason && s.pool.free != [] ==>
              var id, echo := NextId(s.pool), if otype == Market then 0 else price;
              var w := Sweep(SideOf(s.book, Opposite(side)), side, SweepLimit(side, otype, price), qty, id);
              var swept := WithSide(s.book, Opposite(side), w.levels);
              var events := [Event(Accepted, side, NoReason, qty, qty, echo, id)] + w.events;
              && id != INVALID_ORDER_ID && SidesOk(swept)
              && BookSpec.Add(s, side, otype, price, qty) ==
                   if w.remaining > 0 && otype == Limit then
                     AddResult(State(ReleasedAll(Taken(s.pool), w.filled + []),
                                     Rested(swept, Resting(id, price, qty, w.remaining, side))), events, id)
                   else
                     AddResult(State(ReleasedAll(Taken(s.pool), w.filled + [id]), swept),
                               events + (if w.remaining > 0
                                         then [Event(Canceled, side, NoReason, w.remaining, 0, echo, id)] else []), id)
  {
    hide Sweep, ReleasedAll, Taken;
    StateSides(s);
  }

  lemma ReleasedNone(p: Pool)
    ensures ReleasedAll(p, []) == p
  {
  }

  lemma ReleasedMore(p: Pool, ids: seq<OrderId>, id: OrderId)
    ensures ReleasedAll(p, ids + [id]) == Released(ReleasedAll(p, ids), IndexOf(id))
  {
    ReleasedAllConcat(p, ids, [id]);
    assert [id][1..] == [];
  }
}
