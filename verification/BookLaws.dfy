/**
 What adds and cancels mean, said of the orders, prices and events a caller can see: the
 laws below name no function that computes them.
 */
module BookLaws {
  import opened Types
  import opened Seqs
  import opened OrderPools
  import opened BookSpec
  import opened BookFacts
  import opened BookRuns
  import opened Market

  // ----- One trade

  // The order rests on this side.
  ghost predicate RestsIn(l: Levels, o: Resting) {
    exists p: Price, k: int :: p in l && 0 <= k < |l[p]| && l[p][k] == o
  }

  // The order at this price is one a taker limited to `limit` may trade with.
  predicate Within(taker: Side, limit: Price, price: Price) {
    if taker == Buy then price <= limit else price >= limit
  }

  // Events 2 * i + 1 and 2 * i + 2 are a trade: the first tells a resting order of the
  // other side, the second the taker, both at that order's price and for one quantity.
  ghost predicate TradeAt(opp: Levels, taker: Side, id: OrderId, limit: Price, events: seq<Event>, i: nat) {
    && 2 * i + 2 < |events|
    && var m, t, left := events[2 * i + 1], events[2 * i + 2], events[2 * i].remaining;
       exists o: Resting :: TradesWith(opp, taker, id, limit, o, m, t, left)
  }

  ghost predicate TradesWith(opp: Levels, taker: Side, id: OrderId, limit: Price, o: Resting,
                             m: Event, t: Event, left: Qty) {
    && RestsIn(opp, o) && Within(taker, limit, o.price)
    && 1 <= m.qty <= o.remaining && m.qty <= left
    && m == Event(Traded, o.side, NoReason, m.qty, o.remaining - m.qty, o.price, o.id)
    && t == Event(Traded, taker, NoReason, m.qty, left - m.qty, o.price, id)
    && (m.qty == o.remaining || m.qty == left)
  }

  ghost predicate TradesOk(opp: Levels, taker: Side, id: OrderId, limit: Price, events: seq<Event>, n: nat) {
    && 2 * n < |events|
    && forall i: nat :: i < n ==> TradeAt(opp, taker, id, limit, events, i)
  }

  lemma FullFillLeavesOthers(opp: Levels, taker: Side, o: Resting)
    requires LevelsOk(opp, Opposite(taker)) && opp != map[]
    requires RestsIn(FillBest(opp, taker, Maker(opp, taker).remaining), o)
    ensures RestsIn(opp, o)
  {
    var best := Best(Opposite(taker), opp);
    FrontOf(opp, Opposite(taker));
    var next := FillBest(opp, taker, Maker(opp, taker).remaining);
    var p: Price, k: int :| p in next && 0 <= k < |next[p]| && next[p][k] == o;
    var d := if p == best then 1 else 0;
    assert opp[p][k + d] == o;
  }

  // One round of a sweep, and the sweep of what is left.
  lemma SweepSteps(opp: Levels, taker: Side, limit: Price, rem: Qty, id: OrderId)
    requires LevelsOk(opp, Opposite(taker))
    ensures var s := Sweep(opp, taker, limit, rem, id);
            if CanFill(opp, taker, limit, rem) then
              var maker := Maker(opp, taker);
              var fill := Min(rem, maker.remaining);
              var pair := FillEvents(maker, taker, id, fill, rem - fill);
              var rest := Sweep(FillBest(opp, taker, fill), taker, limit, rem - fill, id);
              && 1 <= fill && s.events == pair + rest.events && s.remaining == rest.remaining
              && |pair| == 2 && pair[1].remaining == rem - fill && (rem - fill == 0 ==> rest.events == [])
            else
              s.events == [] && s.remaining == rem
  {
    hide FillBest, Best, IsBest, LevelsOk;
    if CanFill(opp, taker, limit, rem) {
      FrontOf(opp, Opposite(taker));
    }
  }

  lemma {:induction false} SweepTradesOk(opp: Levels, taker: Side, limit: Price, rem: Qty, id: OrderId, first: Event)
    requires LevelsOk(opp, Opposite(taker)) && first.remaining == rem
    ensures var s := Sweep(opp, taker, limit, rem, id);
            |s.events| % 2 == 0
            && TradesOk(opp, taker, id, limit, [first] + s.events, |s.events| / 2)
            && ([first] + s.events)[|s.events|].remaining == s.remaining
    decreases rem
  {
    hide FillBest, FillEvents, Maker, Sweep, Best, IsBest, Crosses, LevelsOk, TradesOk;
    SweepSteps(opp, taker, limit, rem, id);
    if CanFill(opp, taker, limit, rem) {
      var maker := Maker(opp, taker);
      var fill := Min(rem, maker.remaining);
      var pair := FillEvents(maker, taker, id, fill, rem - fill);
      var rest := Sweep(FillBest(opp, taker, fill), taker, limit, rem - fill, id).events;
      SweepTradesOk(FillBest(opp, taker, fill), taker, limit, rem - fill, id, pair[1]);
      MoreTrades(opp, taker, limit, rem, id, first, rest);
      assert [first] + (pair + rest) == [first] + pair + rest;
      assert ([first] + pair + rest)[2 + |rest|] == ([pair[1]] + rest)[|rest|];
    } else {
      NoTrades(opp, taker, id, limit, [first]);
      assert [first] + [] == [first];
    }
  }

  lemma NoTrades(opp: Levels, taker: Side, id: OrderId, limit: Price, events: seq<Event>)
    requires |events| == 1
    ensures TradesOk(opp, taker, id, limit, events, 0)
  {
  }

  lemma MoreTrades(opp: Levels, taker: Side, limit: Price, rem: Qty, id: OrderId, first: Event, rest: seq<Event>)
    requires LevelsOk(opp, Opposite(taker)) && CanFill(opp, taker, limit, rem) && first.remaining == rem
    requires |rest| % 2 == 0
    requires var maker := Maker(opp, taker);
             var fill := Min(rem, maker.remaining);
             && (rem - fill == 0 ==> rest == [])
             && var pair := FillEvents(maker, taker, id, fill, rem - fill);
                TradesOk(FillBest(opp, taker, fill), taker, id, limit, [pair[1]] + rest, |rest| / 2)
    ensures var maker := Maker(opp, taker);
            var fill := Min(rem, maker.remaining);
            var pair := FillEvents(maker, taker, id, fill, rem - fill);
            TradesOk(opp, taker, id, limit, [first] + pair + rest, 1 + |rest| / 2)
  {
    hide FillBest, Best, IsBest, LevelsOk, TradeAt;
    var maker := Maker(opp, taker);
    var fill := Min(rem, maker.remaining);
    var pair := FillEvents(maker, taker, id, fill, rem - fill);
    var events := [first] + pair + rest;
    FirstTrade(opp, taker, limit, rem, id, first, rest);
    assert events[2..] == [pair[1]] + rest;
    forall i: nat | i < 1 + |rest| / 2
      ensures TradeAt(opp, taker, id, limit, events, i)
    {
      if i > 0 {
        var j: nat := i - 1;
        assert TradeAt(FillBest(opp, taker, fill), taker, id, limit, [pair[1]] + rest, j);
        LaterTrade(opp, taker, limit, rem, id, events, i);
      }
    }
  }

  lemma FirstTrade(opp: Levels, taker: Side, limit: Price, rem: Qty, id: OrderId, first: Event, rest: seq<Event>)
    requires LevelsOk(opp, Opposite(taker)) && CanFill(opp, taker, limit, rem) && first.remaining == rem
    ensures var maker := Maker(opp, taker);
            var fill := Min(rem, maker.remaining);
            TradeAt(opp, taker, id, limit, [first] + FillEvents(maker, taker, id, fill, rem - fill) + rest, 0)
  {
    hide FillBest, IsBest;
    FrontOf(opp, Opposite(taker));
    var maker := Maker(opp, taker);
    var fill := Min(rem, maker.remaining);
    var events := [first] + FillEvents(maker, taker, id, fill, rem - fill) + rest;
    assert opp[Best(Opposite(taker), opp)][0] == maker;
    assert RestsIn(opp, maker);
    assert TradesWith(opp, taker, id, limit, maker, events[1], events[2], rem);
  }

  // A trade after the first one: the first took all of its maker, so this one's was there.
  lemma LaterTrade(opp: Levels, taker: Side, limit: Price, rem: Qty, id: OrderId, events: seq<Event>, i: nat)
    requires LevelsOk(opp, Opposite(taker)) && CanFill(opp, taker, limit, rem) && i > 0
    requires var fill := Min(rem, Maker(opp, taker).remaining);
             fill <= Maker(opp, taker).remaining && |events| > 2
             && (rem - fill == 0 ==> |events| == 3)
             && TradeAt(FillBest(opp, taker, fill), taker, id, limit, events[2..], i - 1)
    ensures TradeAt(opp, taker, id, limit, events, i)
  {
    hide FillBest, Best, IsBest, LevelsOk, RestsIn, Within;
    var maker := Maker(opp, taker);
    var next := FillBest(opp, taker, Min(rem, maker.remaining));
    var tail, j := events[2..], i - 1;
    var m, t, left := tail[2 * j + 1], tail[2 * j + 2], tail[2 * j].remaining;
    assert m == events[2 * i + 1] && t == events[2 * i + 2] && left == events[2 * i].remaining;
    var o: Resting :| TradesWith(next, taker, id, limit, o, m, t, left);
    FullFillLeavesOthers(opp, taker, o);
    assert TradesWith(opp, taker, id, limit, o, m, t, left);
  }

  // ----- The limit

  // A sweep leaves every level beyond its limit as it was.
  lemma {:induction false} SweepKeepsBeyond(opp: Levels, taker: Side, limit: Price, rem: Qty, id: OrderId, p: Price)
    requires LevelsOk(opp, Opposite(taker)) && !Within(taker, limit, p)
    ensures QueueAt(Sweep(opp, taker, limit, rem, id).levels, p) == QueueAt(opp, p)
    decreases rem
  {
    hide Best, IsBest, LevelsOk;
    if CanFill(opp, taker, limit, rem) {
      FrontOf(opp, Opposite(taker));
      var fill := Min(rem, Maker(opp, taker).remaining);
      SweepKeepsBeyond(FillBest(opp, taker, fill), taker, limit, rem - fill, id, p);
    }
  }

  lemma SweepEnds(opp: Levels, taker: Side, limit: Price, rem: Qty, id: OrderId)
    requires LevelsOk(opp, Opposite(taker))
    ensures var s := Sweep(opp, taker, limit, rem, id);
            s.remaining > 0 ==> forall p :: p in s.levels ==> !Within(taker, limit, p)
  {
    hide Sweep, LevelsOk;
    SweepStops(opp, taker, limit, rem, id);
  }

  // ----- A placed order

  // The end of the price range for a market order, the order's own price otherwise.
  ghost predicate LimitIs(side: Side, otype: OrderType, price: Price, limit: Price) {
    if otype != Market then limit == price
    else limit == if side == Buy then 0x7FFF_FFFF_FFFF_FFFF else -0x8000_0000_0000_0000
  }

  /** A valid order with id `id` placed in book b: first it is accepted with its quantity (a
      market order at price 0); then come n trades, never beyond its price; what is left rests
      behind the orders at its price, if it is a limit order, or else is canceled, and only
      if no order it may trade with is left. Nothing else changes on either side. */
  ghost predicate PlacedRight(b: Book, id: OrderId, side: Side, otype: OrderType, price: Price, qty: Qty,
                              events: seq<Event>, after: Book, n: nat, limit: Price) {
    var echo := if otype == Market then 0 else price;
    var opp, own := SideOf(b, Opposite(side)), SideOf(b, side);
    && LimitIs(side, otype, price, limit)
    && TradesOk(opp, side, id, limit, events, n)
    && events[0] == Event(Accepted, side, NoReason, qty, qty, echo, id)
    && var left := events[2 * n].remaining;
       && (left > 0 ==> forall p :: p in SideOf(after, Opposite(side)) ==> !Within(side, limit, p))
       && (forall p: Price :: !Within(side, limit, p) ==>
             QueueAt(SideOf(after, Opposite(side)), p) == QueueAt(opp, p))
       && (if left > 0 && otype == Limit then
             && |events| == 2 * n + 1
             && SideOf(after, side) == own[price := QueueAt(own, price) + [Resting(id, price, qty, left, side)]]
           else if left > 0 then
             && |events| == 2 * n + 2 && SideOf(after, side) == own
             && events[2 * n + 1] == Event(Canceled, side, NoReason, left, 0, echo, id)
           else
             |events| == 2 * n + 1 && SideOf(after, side) == own)
  }

  // A placed order's events and sides, around its sweep.
  lemma PlaceShape(b: Book, id: OrderId, side: Side, otype: OrderType, price: Price, qty: Qty)
    requires SidesOk(b) && id != INVALID_ORDER_ID && qty > 0
    ensures var r := Place(b, id, side, otype, price, qty);
            var s := Sweep(SideOf(b, Opposite(side)), side, SweepLimit(side, otype, price), qty, id);
            var echo, own := if otype == Market then 0 else price, SideOf(b, side);
            var head := [Event(Accepted, side, NoReason, qty, qty, echo, id)] + s.events;
            && SideOf(r.book, Opposite(side)) == s.levels
            && (if s.remaining > 0 && otype == Limit then
                  && r.events == head
                  && SideOf(r.book, side)
                     == own[price := QueueAt(own, price) + [Resting(id, price, qty, s.remaining, side)]]
                else if s.remaining > 0 then
                  && r.events == head + [Event(Canceled, side, NoReason, s.remaining, 0, echo, id)]
                  && SideOf(r.book, side) == own
                else
                  r.events == head && SideOf(r.book, side) == own)
  {
    hide Sweep, LevelsOk;
  }

  lemma PlaceIsRight(b: Book, id: OrderId, side: Side, otype: OrderType, price: Price, qty: Qty)
    returns (n: nat, limit: Price)
    requires SidesOk(b) && id != INVALID_ORDER_ID && qty > 0
    ensures var r := Place(b, id, side, otype, price, qty);
            PlacedRight(b, id, side, otype, price, qty, r.events, r.book, n, limit)
  {
    hide Sweep, LevelsOk, TradesOk, Within, Place;
    limit := SweepLimit(side, otype, price);
    var opp := SideOf(b, Opposite(side));
    var r, s := Place(b, id, side, otype, price, qty), Sweep(opp, side, limit, qty, id);
    PlaceShape(b, id, side, otype, price, qty);
    var first := r.events[0];
    n := |s.events| / 2;
    SweepTradesOk(opp, side, limit, qty, id, first);
    SweepEnds(opp, side, limit, qty, id);
    forall p: Price | !Within(side, limit, p)
      ensures QueueAt(s.levels, p) == QueueAt(opp, p)
    {
      SweepKeepsBeyond(opp, side, limit, qty, id, p);
    }
    var head := [first] + s.events;
    var last := r.events[|head|..];
    assert r.events == head + last && r.events[|s.events|] == head[|s.events|];
    TradesPrefix(opp, side, id, limit, head, last, n);
  }

  lemma TradesPrefix(opp: Levels, taker: Side, id: OrderId, limit: Price, events: seq<Event>, more: seq<Event>, n: nat)
    requires TradesOk(opp, taker, id, limit, events, n)
    ensures TradesOk(opp, taker, id, limit, events + more, n)
  {
    hide TradesWith;
    var all := events + more;
    forall i: nat | i < n
      ensures TradeAt(opp, taker, id, limit, all, i)
    {
      assert TradeAt(opp, taker, id, limit, events, i);
      assert all[2 * i] == events[2 * i] && all[2 * i + 1] == events[2 * i + 1] && all[2 * i + 2] == events[2 * i + 2];
    }
  }

  // ----- Adds

  predicate Takes(otype: OrderType, price: Price, qty: Qty) {
    qty > 0 && (otype == Market || price > 0)
  }

  // An add that is not refused is a placed order under a new id.
  lemma AddLaw(s: State, side: Side, otype: OrderType, price: Price, qty: Qty) returns (n: nat, limit: Price)
    requires StateOk(s) && Takes(otype, price, qty) && s.pool.free != []
    ensures PoolOk(s.pool) && SidesOk(s.book)
    ensures var r := Add(s, side, otype, price, qty);
            && r.id != INVALID_ORDER_ID && !Open(s.book, r.id)
            && PlacedRight(s.book, r.id, side, otype, price, qty, r.events, r.state.book, n, limit)
  {
    hide PlacedRight, Place, PoolOk, BookOk;
    StateSides(s);
    TakenIsFresh(s.pool);
    n, limit := PlaceIsRight(s.book, NextId(s.pool), side, otype, price, qty);
  }

  // The refusals, in the order they are looked for; none mints an id or changes anything.
  lemma RejectLaw(s: State, side: Side, otype: OrderType, price: Price, qty: Qty)
    requires StateOk(s)
    ensures PoolOk(s.pool) && SidesOk(s.book)
    ensures qty == 0 ==>
      Add(s, side, otype, price, qty) == AddResult(s, [Event(Rejected, side, InvalidQty, 0, 0, price, 0)], 0)
    ensures qty > 0 && otype != Market && price <= 0 ==>
      Add(s, side, otype, price, qty) == AddResult(s, [Event(Rejected, side, InvalidPrice, qty, 0, price, 0)], 0)
    ensures Takes(otype, price, qty) && s.pool.free == [] ==>
      Add(s, side, otype, price, qty) == AddResult(s, [Event(Rejected, side, PoolExhausted, qty, 0, price, 0)], 0)
  {
    StateSides(s);
  }

  // The trades, as a caller sees them: the maker was open, on the other side, and is told
  // its own price; the taker is told the same price and quantity.
  lemma TradesAreWithOpenOrders(b: Book, taker: Side, id: OrderId, limit: Price, events: seq<Event>, n: nat, i: nat)
    requires BookOk(b) && TradesOk(SideOf(b, Opposite(taker)), taker, id, limit, events, n) && i < n
    ensures var m, t := events[2 * i + 1], events[2 * i + 2];
            && Open(b, m.id) && OpenSide(b, m.id) == Opposite(taker)
            && m.kind == t.kind == Traded && m.side == Opposite(taker) && t.side == taker && t.id == id
            && m.price == t.price == OrderOf(b, m.id).price && Within(taker, limit, m.price)
            && m.qty == t.qty && m.remaining == OrderOf(b, m.id).remaining - m.qty
  {
    hide BookOk, OpenOn, UniqueIds;
    var opp := SideOf(b, Opposite(taker));
    assert TradeAt(opp, taker, id, limit, events, i);
    var m, t, left := events[2 * i + 1], events[2 * i + 2], events[2 * i].remaining;
    var o: Resting :| TradesWith(opp, taker, id, limit, o, m, t, left);
    var p: Price, k: int :| p in opp && 0 <= k < |opp[p]| && opp[p][k] == o;
    SideOk(b, Opposite(taker), p, k);
    CancelAt(b, Opposite(taker), o.id, p, k);
  }

  lemma SideOk(b: Book, side: Side, p: Price, k: int)
    requires BookOk(b) && p in SideOf(b, side) && 0 <= k < |SideOf(b, side)[p]|
    ensures OrderOk(SideOf(b, side)[p][k], side, p)
  {
  }

  // The reference book places the same way, under the caller's id, and echoes that id in
  // its refusals.
  lemma NaiveAddLaw(b: Book, id: OrderId, side: Side, otype: OrderType, price: Price, qty: Qty)
    returns (n: nat, limit: Price)
    requires SidesOk(b) && id != INVALID_ORDER_ID
    ensures var r := NaiveAdd(b, id, side, otype, price, qty);
            && (r.accepted <==> Takes(otype, price, qty))
            && (r.accepted ==> PlacedRight(b, id, side, otype, price, qty, r.events, r.book, n, limit))
            && (!r.accepted ==>
                  && r.book == b
                  && r.events ==
                       [Event(Rejected, side, if qty == 0 then InvalidQty else InvalidPrice, qty, 0, price, id)])
  {
    hide PlacedRight, Place;
    n, limit := 0, 0;
    if Takes(otype, price, qty) {
      n, limit := PlaceIsRight(b, id, side, otype, price, qty);
    }
  }

  // Resting without matching: the whole order behind those at its price.
  lemma AddLimitLaw(s: State, side: Side, price: Price, qty: Qty)
    requires StateOk(s)
    ensures PoolOk(s.pool) && SidesOk(s.book)
    ensures var r, own := AddLimit(s, side, price, qty), SideOf(s.book, side);
            if qty > 0 && price > 0 && s.pool.free != [] then
              && r.id != INVALID_ORDER_ID && !Open(s.book, r.id)
              && SideOf(r.state.book, side)
                 == own[price := QueueAt(own, price) + [Resting(r.id, price, qty, qty, side)]]
              && SideOf(r.state.book, Opposite(side)) == SideOf(s.book, Opposite(side))
            else
              r.state == s && r.id == INVALID_ORDER_ID
  {
    hide PoolOk, BookOk;
    StateSides(s);
    if s.pool.free != [] {
      TakenIsFresh(s.pool);
    }
  }

  lemma NaiveAddLimitLaw(b: Book, id: OrderId, side: Side, price: Price, qty: Qty)
    requires SidesOk(b) && id != INVALID_ORDER_ID
    ensures var r, own := NaiveAddLimit(b, id, side, price, qty), SideOf(b, side);
            if qty > 0 && price > 0 then
              && r.accepted && r.events == [Event(Accepted, side, NoReason, qty, qty, price, id)]
              && SideOf(r.book, side) == own[price := QueueAt(own, price) + [Resting(id, price, qty, qty, side)]]
              && SideOf(r.book, Opposite(side)) == SideOf(b, Opposite(side))
            else
              && !r.accepted && r.book == b
              && r.events == [Event(Rejected, side, if qty == 0 then InvalidQty else InvalidPrice, qty, 0, price, id)]
  {
    hide LevelsOk;
  }

  // ----- Cancels

  // A cancel reports the side, price and open quantity of the order it removes; of an id
  // that is not open it knows nothing.
  lemma CancelLaw(b: Book, id: OrderId)
    requires BookOk(b)
    ensures forall side: Side, p: Price, k: int :: Holds(SideOf(b, side), id, p, k) ==>
      CancelEvent(b, id) == Event(Canceled, side, NoReason, SideOf(b, side)[p][k].remaining, 0, p, id)
    ensures !Open(b, id) ==> CancelEvent(b, id) == Event(Rejected, Buy, UnknownOrder, 0, 0, 0, id)
  {
    forall side: Side, p: Price, k: int | Holds(SideOf(b, side), id, p, k)
      ensures CancelEvent(b, id) == Event(Canceled, side, NoReason, SideOf(b, side)[p][k].remaining, 0, p, id)
    {
      CancelAt(b, side, id, p, k);
      SideOk(b, side, p, k);
    }
  }

  // ----- Ids after an order has gone

  // The slot of an order canceled, or of a taker that does not rest, is the next one used,
  // in its next generation.
  predicate Succeeds(next: OrderId, id: OrderId) {
    && next % 0x1_0000_0000 == id % 0x1_0000_0000
    && next / 0x1_0000_0000 == if id / 0x1_0000_0000 == 0xFFFF_FFFF then 1 else id / 0x1_0000_0000 + 1
  }

  lemma CancelReuses(s: State, id: OrderId)
    requires StateOk(s) && Open(s.book, id)
    ensures var pool := CancelState(s, id).pool;
            PoolOk(pool) && pool.free != [] && Succeeds(NextId(pool), id)
  {
    hide BookOk, Open, PoolOk, Live;
    ReusedNext(s.pool, id);
  }

  lemma {:induction false} LastReleased(p: Pool, ids: seq<OrderId>, last: OrderId)
    ensures ReleasedAll(p, ids + [last]) == Released(ReleasedAll(p, ids), IndexOf(last))
    decreases |ids|
  {
    if ids == [] {
      assert [last][1..] == [] && [] + [last] == [last];
    } else {
      assert (ids + [last])[1..] == ids[1..] + [last];
      LastReleased(Released(p, IndexOf(ids[0])), ids[1..], last);
    }
  }

  lemma AddReuses(s: State, side: Side, otype: OrderType, price: Price, qty: Qty)
    requires StateOk(s) && Takes(otype, price, qty) && s.pool.free != []
    ensures PoolOk(s.pool) && SidesOk(s.book)
    ensures var r := Add(s, side, otype, price, qty);
            !Open(r.state.book, r.id) ==>
              PoolOk(r.state.pool) && r.state.pool.free != [] && Succeeds(NextId(r.state.pool), r.id)
  {
    hide Place, PoolOk, Live, BookOk, Open, UniqueIds, NextId;
    StateSides(s);
    var r := Add(s, side, otype, price, qty);
    TakenIsFresh(s.pool);
    var placed := Place(s.book, r.id, side, otype, price, qty);
    PlaceOpen(s.book, r.id, side, otype, price, qty);
    if !placed.rests {
      FreedAreLive(s, side, otype, price, qty);
      var p, filled := Taken(s.pool), placed.filled;
      assert filled + [r.id] == Freed(s, side, otype, price, qty);
      LastReleased(p, filled, r.id);
      FilledStay(p, filled, r.id);
      ReusedNext(ReleasedAll(p, filled), r.id);
    }
  }

  lemma FilledStay(p: Pool, filled: seq<OrderId>, id: OrderId)
    requires PoolOk(p) && NoDup(filled + [id]) && forall x :: x in filled + [id] ==> Live(p, x)
    ensures PoolOk(ReleasedAll(p, filled)) && Live(ReleasedAll(p, filled), id)
  {
    hide PoolOk, Live, ReleasedAll;
    var all := filled + [id];
    assert forall k :: 0 <= k < |filled| ==> all[k] == filled[k];
    assert all[|filled|] == id;
    ReleasedAllLive(p, filled);
  }
}
