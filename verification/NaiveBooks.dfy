/**
 The reference book: a sorted map of first-in-first-out lists per side and an index
 from open ids to their place. Its loops and updates are proved to perform the
 operations of BookSpec on the maps themselves.
 */
module NaiveBooks {
  import opened Types
  import opened Seqs
  import opened BookSpec
  import opened BookFacts

  // Where an open order is; the list position is found by the order's id.
  datatype Locator = Locator(side: Side, price: Price)

  ghost predicate FoundAt(b: Book, id: OrderId, loc: Locator) {
    InQueue(QueueAt(SideOf(b, loc.side), loc.price), id)
  }

  ghost predicate IndexOk(b: Book, index: map<OrderId, Locator>) {
    && (forall id :: id in index <==> Open(b, id))
    && (forall id :: id in index ==> FoundAt(b, id, index[id]))
  }

  // The list node of an id, by position.
  function NodeOf(q: seq<Resting>, id: OrderId): (k: nat)
    requires InQueue(q, id)
    ensures k < |q| && q[k].id == id
  {
    if q[0].id == id then 0
    else
      assert InQueue(q[1..], id) by {
        var j :| 0 <= j < |q| && q[j].id == id;
        assert q[1..][j - 1].id == id;
      }
      1 + NodeOf(q[1..], id)
  }

  // The queue at (side, p) becomes q; other places keep their orders.
  lemma FoundElsewhere(b: Book, side: Side, p: Price, q: seq<Resting>, id: OrderId, loc: Locator)
    requires FoundAt(b, id, loc)
    requires loc.side == side && loc.price == p ==> InQueue(q, id)
    ensures FoundAt(WithSide(b, side, SetQueue(SideOf(b, side), p, q)), id, loc)
  {
    var c := WithSide(b, side, SetQueue(SideOf(b, side), p, q));
    if loc.side == side && loc.price == p {
      assert QueueAt(SideOf(c, side), p) == q;
    }
  }

  // The orders in `gone` leave the queue at (side, p) and the index.
  lemma IndexKept(b: Book, index: map<OrderId, Locator>, side: Side, p: Price, q: seq<Resting>, gone: set<OrderId>)
    requires IndexOk(b, index)
    requires forall id :: Open(WithSide(b, side, SetQueue(SideOf(b, side), p, q)), id) <==> Open(b, id) && id !in gone
    requires forall id :: InQueue(QueueAt(SideOf(b, side), p), id) && id !in gone ==> InQueue(q, id)
    ensures IndexOk(WithSide(b, side, SetQueue(SideOf(b, side), p, q)), index - gone)
  {
    hide Open, SetQueue, SideOf, WithSide;
    forall id | id in index && id !in gone
      ensures FoundAt(WithSide(b, side, SetQueue(SideOf(b, side), p, q)), id, index[id])
    {
      FoundElsewhere(b, side, p, q, id, index[id]);
    }
  }

  // Filled makers leave the index; everything else in it stays where it was.
  lemma IndexAfterFill(b: Book, index: map<OrderId, Locator>, taker: Side, fill: Qty)
    requires BookOk(b) && IndexOk(b, index)
    requires SideOf(b, Opposite(taker)) != map[]
    requires fill <= Maker(SideOf(b, Opposite(taker)), taker).remaining
    ensures BookOk(WithSide(b, Opposite(taker), FillBest(SideOf(b, Opposite(taker)), taker, fill)))
    ensures IndexOk(WithSide(b, Opposite(taker), FillBest(SideOf(b, Opposite(taker)), taker, fill)),
      if fill == Maker(SideOf(b, Opposite(taker)), taker).remaining
      then index - {Maker(SideOf(b, Opposite(taker)), taker).id} else index)
  {
    hide Open, Best, IsBest, FillBest, SetQueue, FillFront, IndexOk, UniqueOn, LevelsOk, InQueue;
    OkSides(b);
    var side := Opposite(taker);
    var opp := SideOf(b, side);
    var maker := Maker(opp, taker);
    var p := Best(side, opp);
    var gone := if fill == maker.remaining then {maker.id} else {};
    FillBook(b, taker, fill);
    FillBestIs(opp, taker, fill);
    FrontOf(opp, side);
    FillQueueKeeps(opp, p, fill);
    assert index - {} == index;
    IndexKept(b, index, side, p, FillFront(opp[p], fill), gone);
  }

  lemma FillQueueKeeps(l: Levels, p: Price, fill: Qty)
    requires UniqueOn(l) && p in l && l[p] != [] && fill <= l[p][0].remaining
    ensures forall id :: InQueue(QueueAt(l, p), id) && !(fill == l[p][0].remaining && id == l[p][0].id) ==>
      InQueue(FillFront(l[p], fill), id)
  {
    hide UniqueOn, InQueue, Elsewhere;
    UniqueSplit(l, p);
    forall id
      ensures InQueue(l[p], id) && !(fill == l[p][0].remaining && id == l[p][0].id) ==>
        InQueue(FillFront(l[p], fill), id)
    {
      FillFrontIds(l[p], fill, id);
    }
  }

  lemma IndexAfterRest(b: Book, index: map<OrderId, Locator>, o: Resting)
    requires BookOk(b) && IndexOk(b, index) && OrderOk(o, o.side, o.price) && !Open(b, o.id)
    ensures BookOk(Rested(b, o))
    ensures IndexOk(Rested(b, o), index[o.id := Locator(o.side, o.price)])
  {
    RestedOpen(b, o);
    var q := QueueAt(SideOf(b, o.side), o.price);
    AppendIds(q, o, o.id);
    forall id | id in index
      ensures FoundAt(Rested(b, o), id, index[id])
    {
      AppendIds(q, o, id);
      FoundElsewhere(b, o.side, o.price, q + [o], id, index[id]);
    }
  }

  lemma IndexAfterErase(b: Book, index: map<OrderId, Locator>, id: OrderId, k: int)
    requires BookOk(b) && IndexOk(b, index) && id in index
    requires Holds(SideOf(b, index[id].side), id, index[id].price, k)
    ensures BookOk(Without(b, id)) && IndexOk(Without(b, id), index - {id})
  {
    WithoutOpen(b, id);
    var loc := index[id];
    var l := SideOf(b, loc.side);
    CancelAt(b, loc.side, id, loc.price, k);
    UniqueSplit(l, loc.price);
    forall x
      ensures InQueue(l[loc.price], x) && x != id ==> InQueue(RemoveAt(l[loc.price], k), x)
    {
      RemoveAtIds(l[loc.price], k, x);
    }
    IndexKept(b, index, loc.side, loc.price, RemoveAt(l[loc.price], k), {id});
  }

  class NaiveBook {
    var bids: Levels
    var asks: Levels
    var index: map<OrderId, Locator>

    ghost function BookV(): Book
      reads this
    {
      Book(bids, asks)
    }

    ghost predicate Valid()
      reads this
    {
      BookOk(BookV()) && IndexOk(BookV(), index)
    }

    constructor ()
      ensures Valid() && BookV() == Book(map[], map[])
    {
      bids, asks, index := map[], map[], map[];
    }

    function Map(side: Side): Levels
      reads this
    {
      if side == Buy then bids else asks
    }

    // Stores through a reference to the side's map.
    method SetMap(side: Side, l: Levels)
      modifies this`bids, this`asks
      ensures BookV() == WithSide(old(BookV()), side, l)
    {
      if side == Buy {
        bids := l;
      } else {
        asks := l;
      }
    }

    // The sweep of an order that takes any price if `isMarket`, and none beyond `price`
    // otherwise.
    method Match(taker: Side, isMarket: bool, price: Price, qty: Qty, takerId: OrderId)
      returns (remaining: Qty, events: seq<Event>)
      requires Valid()
      modifies this
      ensures Valid()
      ensures var limit := SweepLimit(taker, if isMarket then Market else Limit, price);
              var s := Sweep(SideOf(old(BookV()), Opposite(taker)), taker, limit, qty, takerId);
              && BookV() == WithSide(old(BookV()), Opposite(taker), s.levels)
              && remaining == s.remaining && events == s.events
    {
      hide BookOk, IndexOk, Sweep, Best, IsBest, FillBest, Resume, QueueAt, LevelsOk;
      ghost var limit := SweepLimit(taker, if isMarket then Market else Limit, price);
      var side := Opposite(taker);
      ghost var b := BookV();
      OkSides(b);
      ghost var whole := Sweep(SideOf(b, side), taker, limit, qty, takerId);
      remaining := qty;
      events := [];
      ghost var filled: seq<OrderId> := [];
      ResumeNothing(whole);
      while remaining > 0
        invariant Valid() && SidesOk(BookV())
        invariant BookV() == WithSide(b, side, Map(side))
        invariant whole == Resume(Sweep(Map(side), taker, limit, remaining, takerId), events, filled)
        decreases remaining
      {
        var opposite := Map(side);
        if opposite == map[] {
          break;
        }
        FrontOf(opposite, side);
        var levelPx := Best(side, opposite);
        var crosses := isMarket || (if taker == Buy then levelPx <= price else levelPx >= price);
        if !crosses {
          break;
        }
        var level := opposite[levelPx];
        var maker := level[0];
        assert maker == Maker(opposite, taker) && OrderOk(maker, side, levelPx);
        var fill := Min(remaining, maker.remaining);
        ResumeOne(opposite, taker, limit, remaining, takerId, remaining - fill, events, filled);
        IndexAfterFill(BookV(), index, taker, fill);
        FillBestIs(opposite, taker, fill);
        maker := maker.(remaining := maker.remaining - fill);
        remaining := remaining - fill;
        events := events
          + [Event(Traded, maker.side, NoReason, fill, maker.remaining, maker.price, maker.id),
             Event(Traded, taker, NoReason, fill, remaining, maker.price, takerId)];
        if maker.remaining == 0 {
          index := index - {maker.id};
          filled := filled + [maker.id];
          level := level[1..];
          SetMap(side, if level == [] then opposite - {levelPx} else opposite[levelPx := level]);
        } else {
          AppendNothing(filled);
          SetMap(side, opposite[levelPx := [maker] + level[1..]]);
        }
        OkSides(BookV());
      }
      ResumeNone(Map(side), taker, limit, remaining, takerId, events, filled);
    }

    method Rest(id: OrderId, side: Side, price: Price, originalQty: Qty, remaining: Qty)
      requires Valid() && id != INVALID_ORDER_ID && 1 <= remaining <= originalQty && !Open(BookV(), id)
      modifies this
      ensures Valid() && SidesOk(old(BookV()))
      ensures BookV() == Rested(old(BookV()), Resting(id, price, originalQty, remaining, side))
    {
      var order := Resting(id, price, originalQty, remaining, side);
      IndexAfterRest(BookV(), index, order);
      var level := QueueAt(Map(side), price);
      SetMap(side, Map(side)[price := level + [order]]);
      index := index[id := Locator(side, price)];
    }

    method Add(id: OrderId, side: Side, otype: OrderType, price: Price, qty: Qty)
      returns (accepted: bool, events: seq<Event>)
      requires Valid() && id != INVALID_ORDER_ID && !Open(BookV(), id)
      modifies this
      ensures Valid() && SidesOk(old(BookV()))
      ensures var r := NaiveAdd(old(BookV()), id, side, otype, price, qty);
              BookV() == r.book && accepted == r.accepted && events == r.events
    {
      hide BookOk, IndexOk, Sweep;
      OkSides(BookV());
      if qty == 0 {
        return false, [Event(Rejected, side, InvalidQty, qty, 0, price, id)];
      }
      var isMarket := otype == Market;
      if !isMarket && price <= 0 {
        return false, [Event(Rejected, side, InvalidPrice, qty, 0, price, id)];
      }
      ghost var before := BookV();
      var orderPx := if isMarket then 0 else price;
      events := [Event(Accepted, side, NoReason, qty, qty, orderPx, id)];
      var remaining, fills := Match(side, isMarket, price, qty, id);
      events := events + fills;
      if remaining > 0 {
        if otype == Limit {
          StillFresh(before, id, side, otype, price, qty);
          Rest(id, side, price, qty, remaining);
        } else {
          events := events + [Event(Canceled, side, NoReason, remaining, 0, orderPx, id)];
        }
      } else {
        assert events + [] == events;
      }
      accepted := true;
    }

    method AddLimit(id: OrderId, side: Side, price: Price, qty: Qty)
      returns (accepted: bool, events: seq<Event>)
      requires Valid() && id != INVALID_ORDER_ID && !Open(BookV(), id)
      modifies this
      ensures Valid() && SidesOk(old(BookV()))
      ensures var r := NaiveAddLimit(old(BookV()), id, side, price, qty);
              BookV() == r.book && accepted == r.accepted && events == r.events
    {
      hide BookOk, IndexOk;
      OkSides(BookV());
      if qty == 0 {
        return false, [Event(Rejected, side, InvalidQty, qty, 0, price, id)];
      }
      if price <= 0 {
        return false, [Event(Rejected, side, InvalidPrice, qty, 0, price, id)];
      }
      Rest(id, side, price, qty, qty);
      return true, [Event(Accepted, side, NoReason, qty, qty, price, id)];
    }

    method Cancel(id: OrderId) returns (done: bool, event: Event)
      requires Valid()
      modifies this
      ensures Valid() && BookV() == Cancelled(old(BookV()), id)
      ensures done <==> Open(old(BookV()), id)
      ensures event == CancelEvent(old(BookV()), id)
    {
      if id !in index {
        return false, Event(Rejected, Buy, UnknownOrder, 0, 0, 0, id);
      }
      var loc := index[id];
      assert FoundAt(BookV(), id, loc);
      var level := Map(loc.side)[loc.price];
      var it := NodeOf(level, id);
      IndexAfterErase(BookV(), index, id, it);
      CancelAt(BookV(), loc.side, id, loc.price, it);
      var open := level[it].remaining;
      assert OrderOk(level[it], loc.side, loc.price);
      index := index - {id};
      level := RemoveAt(level, it);
      SetMap(loc.side, if level == [] then Map(loc.side) - {loc.price} else Map(loc.side)[loc.price := level]);
      return true, Event(Canceled, loc.side, NoReason, open, 0, loc.price, id);
    }

    method BestOf(side: Side) returns (p: Option<Price>)
      ensures p == if SideOf(BookV(), side) == map[] then None else Some(Best(side, SideOf(BookV(), side)))
    {
      p := if Map(side) == map[] then None else Some(Best(side, Map(side)));
    }

    // The reference sums a level into 32 bits.
    method QtyAt(side: Side, price: Price) returns (total: Qty)
      ensures total == QueueQty(QueueAt(SideOf(BookV(), side), price)) % TWO32
    {
      total := 0;
      if price in Map(side) {
        var level := Map(side)[price];
        var k := 0;
        while k < |level|
          invariant 0 <= k <= |level|
          invariant total == QueueQty(level[..k]) % TWO32
        {
          QueueQtyConcat(level[..k], [level[k]]);
          assert level[..k + 1] == level[..k] + [level[k]];
          assert QueueQty([level[k]]) == level[k].remaining + QueueQty([]);
          total := (total + level[k].remaining) % TWO32;
          k := k + 1;
        }
        assert level[..|level|] == level;
      }
    }

    method OrdersAt(side: Side, price: Price) returns (count: nat)
      ensures count == |QueueAt(SideOf(BookV(), side), price)|
    {
      count := if price in Map(side) then |Map(side)[price]| else 0;
    }

    method OpenOrders() returns (count: nat)
      requires Valid()
      ensures forall ids :: IsOpenSet(BookV(), ids) ==> |ids| == count
    {
      count := |index.Keys|;
      forall ids | IsOpenSet(BookV(), ids)
        ensures |ids| == count
      {
        assert ids == index.Keys;
      }
    }

    method Contains(id: OrderId) returns (found: bool)
      requires Valid()
      ensures found <==> Open(BookV(), id)
    {
      found := id in index;
    }
  }

  lemma OkSides(b: Book)
    requires BookOk(b)
    ensures SidesOk(b)
  {
  }

  lemma FillBestIs(opp: Levels, taker: Side, fill: Qty)
    requires LevelsOk(opp, Opposite(taker)) && opp != map[] && fill <= Maker(opp, taker).remaining
    ensures FillBest(opp, taker, fill) ==
      var p := Best(Opposite(taker), opp);
      SetQueue(opp, p, FillFront(opp[p], fill))
  {
  }

  // The taker's id is still unused after its own sweep.
  lemma StillFresh(b: Book, id: OrderId, side: Side, otype: OrderType, price: Price, qty: Qty)
    requires BookOk(b) && !Open(b, id)
    ensures !Open(WithSide(b, Opposite(side),
      Sweep(SideOf(b, Opposite(side)), side, SweepLimit(side, otype, price), qty, id).levels), id)
  {
    SweepOpen(SideOf(b, Opposite(side)), side, SweepLimit(side, otype, price), qty, id);
  }
}
