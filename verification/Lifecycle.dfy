/**
 The event protocol of one order: accepted once, then fills that draw its quantity
 down, then at most one terminal event, while the book holds it exactly in between.
 */
module Lifecycle {
  import opened Types
  import opened OrderPools
  import opened BookSpec
  import opened BookFacts
  import opened BookRuns

  datatype Life = Fresh | Working(left: Qty) | Finished | Broken

  // One event about the order. An id may be accepted again once it has finished: ids
  // recur after a slot has gone through all its generations.
  function LifeStep(l: Life, e: Event): Life {
    if e.kind == Accepted && (l == Fresh || l == Finished) && e.qty > 0 && e.remaining == e.qty then
      Working(e.remaining)
    else if e.kind == Traded && l.Working? && 1 <= e.qty <= l.left && e.remaining == l.left - e.qty then
      if e.remaining == 0 then Finished else Working(e.remaining)
    else if e.kind == Canceled && l.Working? && e.qty == l.left && e.remaining == 0 then
      Finished
    else
      Broken
  }

  predicate About(e: Event, id: OrderId) {
    e.id == id && e.kind != Rejected
  }

  function LifeOf(l: Life, events: seq<Event>, id: OrderId): Life
    decreases |events|
  {
    if events == [] then l
    else LifeOf(if About(events[0], id) then LifeStep(l, events[0]) else l, events[1..], id)
  }

  lemma {:induction false} LifeConcat(l: Life, a: seq<Event>, b: seq<Event>, id: OrderId)
    ensures LifeOf(l, a + b, id) == LifeOf(LifeOf(l, a, id), b, id)
    decreases |a|
  {
    if a == [] {
      assert a + b == b;
    } else {
      assert (a + b)[1..] == a[1..] + b;
      LifeConcat(if About(a[0], id) then LifeStep(l, a[0]) else l, a[1..], b, id);
    }
  }

  lemma {:induction false} BrokenStays(events: seq<Event>, id: OrderId)
    ensures LifeOf(Broken, events, id) == Broken
    decreases |events|
  {
    if events != [] {
      BrokenStays(events[1..], id);
    }
  }

  lemma LifeOne(l: Life, e: Event, id: OrderId)
    ensures LifeOf(l, [e], id) == if About(e, id) then LifeStep(l, e) else l
  {
    assert [e][1..] == [];
  }

  // ----- What the book says an order has left

  ghost function LeftOn(l: Levels, id: OrderId): Qty
    requires OpenOn(l, id)
  {
    var p: Price, k: int :| Holds(l, id, p, k);
    l[p][k].remaining
  }

  lemma LeftAt(l: Levels, id: OrderId, p: Price, k: int)
    requires UniqueOn(l) && Holds(l, id, p, k)
    ensures OpenOn(l, id) && LeftOn(l, id) == l[p][k].remaining
  {
  }

  // The book and the protocol agree about an order.
  ghost predicate Agree(b: Book, id: OrderId, life: Life) {
    && life != Broken
    && (Open(b, id) <==> life.Working?)
    && (Open(b, id) ==> LeftOn(SideOf(b, OpenSide(b, id)), id) == life.left)
  }

  // ----- Through a sweep: makers

  lemma FillLeft(opp: Levels, taker: Side, fill: Qty, x: OrderId)
    requires LevelsOk(opp, Opposite(taker)) && UniqueOn(opp) && opp != map[]
    requires fill <= Maker(opp, taker).remaining && OpenOn(opp, x)
    ensures OpenOn(opp, Maker(opp, taker).id)
    ensures LeftOn(opp, Maker(opp, taker).id) == Maker(opp, taker).remaining
    ensures OpenOn(FillBest(opp, taker, fill), x) ==>
      LeftOn(FillBest(opp, taker, fill), x) == LeftOn(opp, x) - (if x == Maker(opp, taker).id then fill else 0)
  {
    var best := Best(Opposite(taker), opp);
    var maker, next := Maker(opp, taker), FillBest(opp, taker, fill);
    FillBestOpen(opp, taker, fill);
    FrontOf(opp, Opposite(taker));
    LeftAt(opp, maker.id, best, 0);
    if OpenOn(next, x) {
      var p: Price, k: int :| Holds(next, x, p, k);
      var d := if p == best && fill == maker.remaining then 1 else 0;
      assert Holds(opp, x, p, k + d) && Holds(opp, maker.id, best, 0);
      LeftAt(next, x, p, k);
      LeftAt(opp, x, p, k + d);
    }
  }

  // After the sweep a maker is finished or works on with what the side says it has left;
  // orders of the other side hear nothing.
  lemma {:induction false} SweepMakers(opp: Levels, taker: Side, limit: Price, rem: Qty, id: OrderId,
                                           x: OrderId, life: Life)
    requires LevelsOk(opp, Opposite(taker)) && UniqueOn(opp) && x != id
    requires OpenOn(opp, x) ==> life == Working(LeftOn(opp, x))
    ensures var s := Sweep(opp, taker, limit, rem, id);
            LifeOf(life, s.events, x) ==
              if !OpenOn(opp, x) then life
              else if OpenOn(s.levels, x) then Working(LeftOn(s.levels, x)) else Finished
    decreases rem
  {
    hide FillBest, OpenOn, UniqueOn, Best, IsBest, LeftOn;
    if CanFill(opp, taker, limit, rem) {
      FrontOf(opp, Opposite(taker));
      var maker := Maker(opp, taker);
      var fill := Min(rem, maker.remaining);
      var next := FillBest(opp, taker, fill);
      FillBestOpen(opp, taker, fill);
      if OpenOn(opp, x) {
        FillLeft(opp, taker, fill, x);
      }
      var pair := FillEvents(maker, taker, id, fill, rem - fill);
      var rest := Sweep(next, taker, limit, rem - fill, id);
      LifeConcat(life, pair, rest.events, x);
      var after := LifeOf(life, pair, x);
      PairLife(maker, taker, id, fill, rem - fill, x, life);
      if OpenOn(opp, x) && !OpenOn(next, x) {
        SweepMakers(next, taker, limit, rem - fill, id, x, Finished);
        SweepOpen(next, taker, limit, rem - fill, id);
      } else {
        SweepMakers(next, taker, limit, rem - fill, id, x, after);
        SweepOpen(next, taker, limit, rem - fill, id);
      }
    }
  }

  lemma PairLife(maker: Resting, taker: Side, id: OrderId, fill: Qty, left: Qty, x: OrderId, life: Life)
    requires 1 <= fill <= maker.remaining && x != id
    requires x == maker.id ==> life == Working(maker.remaining)
    ensures LifeOf(life, FillEvents(maker, taker, id, fill, left), x) ==
      if x != maker.id then life
      else if fill == maker.remaining then Finished else Working(maker.remaining - fill)
  {
    var e := FillEvents(maker, taker, id, fill, left);
    LifeOne(life, e[0], x);
    LifeOne(LifeOf(life, [e[0]], x), e[1], x);
  }

  // ----- Through a sweep: the taker

  function TakerLife(rem: Qty): Life {
    if rem == 0 then Finished else Working(rem)
  }

  lemma {:induction false} SweepTaker(opp: Levels, taker: Side, limit: Price, rem: Qty, id: OrderId)
    requires LevelsOk(opp, Opposite(taker)) && UniqueOn(opp) && !OpenOn(opp, id)
    ensures LifeOf(TakerLife(rem), Sweep(opp, taker, limit, rem, id).events, id)
         == TakerLife(Sweep(opp, taker, limit, rem, id).remaining)
    decreases rem
  {
    hide FillBest, OpenOn, UniqueOn, Best, IsBest;
    if CanFill(opp, taker, limit, rem) {
      FrontOf(opp, Opposite(taker));
      var maker := Maker(opp, taker);
      var fill := Min(rem, maker.remaining);
      FillBestOpen(opp, taker, fill);
      var pair := FillEvents(maker, taker, id, fill, rem - fill);
      var next := FillBest(opp, taker, fill);
      LifeConcat(TakerLife(rem), pair, Sweep(next, taker, limit, rem - fill, id).events, id);
      LifeOne(TakerLife(rem), pair[0], id);
      LifeOne(TakerLife(rem), pair[1], id);
      SweepTaker(next, taker, limit, rem - fill, id);
    }
  }

  // ----- Through an operation

  // Agreement, side by side.
  lemma AgreeFrom(b: Book, id: OrderId, life: Life)
    requires BookOk(b) && life != Broken && (life.Working? ==> Open(b, id))
    requires forall side :: OpenOn(SideOf(b, side), id) ==> life == Working(LeftOn(SideOf(b, side), id))
    ensures Agree(b, id, life)
  {
    assert OpenOn(b.bids, id) <==> OpenOn(SideOf(b, Buy), id);
    assert OpenOn(b.asks, id) <==> OpenOn(SideOf(b, Sell), id);
  }

  lemma AppendLeft(l: Levels, o: Resting, x: OrderId)
    requires UniqueOn(l) && !OpenOn(l, o.id)
    ensures x != o.id ==> (OpenOn(l[o.price := QueueAt(l, o.price) + [o]], x) <==> OpenOn(l, x))
    ensures OpenOn(l, x) ==> LeftOn(l[o.price := QueueAt(l, o.price) + [o]], x) == LeftOn(l, x)
    ensures OpenOn(l[o.price := QueueAt(l, o.price) + [o]], o.id)
    ensures LeftOn(l[o.price := QueueAt(l, o.price) + [o]], o.id) == o.remaining
  {
    var m := l[o.price := QueueAt(l, o.price) + [o]];
    AppendOpen(l, o);
    LeftAt(m, o.id, o.price, |QueueAt(l, o.price)|);
    if OpenOn(l, x) {
      var p: Price, k: int :| Holds(l, x, p, k);
      LeftAt(l, x, p, k);
      LeftAt(m, x, p, k);
    }
  }

  // What placing an order tells the order itself.
  lemma PlaceOwn(b: Book, id: OrderId, side: Side, otype: OrderType, price: Price, qty: Qty, life: Life)
    requires BookOk(b) && id != INVALID_ORDER_ID && qty > 0 && !Open(b, id)
    requires life == Fresh || life == Finished
    ensures var r := Place(b, id, side, otype, price, qty);
            BookOk(r.book) && Agree(r.book, id, LifeOf(life, r.events, id))
  {
    hide Sweep, Rested, LevelsOk, UniqueOn, LifeOf, LeftOn;
    var r := Place(b, id, side, otype, price, qty);
    var opp, own := SideOf(b, Opposite(side)), SideOf(b, side);
    var limit := SweepLimit(side, otype, price);
    var s := Sweep(opp, side, limit, qty, id);
    PlaceOpen(b, id, side, otype, price, qty);
    SweepTaker(opp, side, limit, qty, id);
    SweepOpen(opp, side, limit, qty, id);
    LifeOne(life, r.events[0], id);
    LifeConcat(life, [r.events[0]], s.events, id);
    if r.rests {
      PlaceRests(b, id, side, otype, price, qty);
    } else if s.remaining > 0 {
      var last := r.events[|r.events| - 1];
      assert r.events == [r.events[0]] + s.events + [last];
      LifeConcat(life, [r.events[0]] + s.events, [last], id);
      LifeOne(Working(s.remaining), last, id);
    } else {
      assert r.events == [r.events[0]] + s.events;
    }
  }

  // A remainder rests with what the sweep left it.
  lemma PlaceRests(b: Book, id: OrderId, side: Side, otype: OrderType, price: Price, qty: Qty)
    requires BookOk(b) && id != INVALID_ORDER_ID && qty > 0 && !Open(b, id)
    requires Place(b, id, side, otype, price, qty).rests
    ensures var r := Place(b, id, side, otype, price, qty);
            var s := Sweep(SideOf(b, Opposite(side)), side, SweepLimit(side, otype, price), qty, id);
            && BookOk(r.book) && Open(r.book, id) && OpenSide(r.book, id) == side
            && LeftOn(SideOf(r.book, side), id) == s.remaining
            && [r.events[0]] + s.events == r.events
            && SideOf(r.book, Opposite(side)) == s.levels
            && forall x :: x != id ==>
                 (OpenOn(SideOf(r.book, side), x) <==> OpenOn(SideOf(b, side), x))
                 && (OpenOn(SideOf(b, side), x) ==>
                       LeftOn(SideOf(r.book, side), x) == LeftOn(SideOf(b, side), x))
  {
    hide Sweep, LeftOn, LevelsOk, UniqueOn;
    var s := Sweep(SideOf(b, Opposite(side)), side, SweepLimit(side, otype, price), qty, id);
    var own, o := SideOf(b, side), Resting(id, price, qty, s.remaining, side);
    PlaceOpen(b, id, side, otype, price, qty);
    AppendLeft(own, o, id);
    forall x | x != id
      ensures OpenOn(own[price := QueueAt(own, price) + [o]], x) <==> OpenOn(own, x)
      ensures OpenOn(own, x) ==> LeftOn(own[price := QueueAt(own, price) + [o]], x) == LeftOn(own, x)
    {
      AppendLeft(own, o, x);
    }
    assert !OpenOn(SideOf(Place(b, id, side, otype, price, qty).book, Opposite(side)), id);
  }

  // What it tells every other order.
  lemma PlaceOthers(b: Book, id: OrderId, side: Side, otype: OrderType, price: Price, qty: Qty, x: OrderId, life: Life)
    requires BookOk(b) && id != INVALID_ORDER_ID && qty > 0 && !Open(b, id) && x != id
    requires Agree(b, x, life)
    ensures var r := Place(b, id, side, otype, price, qty);
            BookOk(r.book) && Agree(r.book, x, LifeOf(life, r.events, x))
  {
    hide Sweep, Rested, LevelsOk, UniqueOn, LifeOf, LeftOn;
    var r := Place(b, id, side, otype, price, qty);
    var opp := SideOf(b, Opposite(side));
    var limit := SweepLimit(side, otype, price);
    var s := Sweep(opp, side, limit, qty, id);
    PlaceOpen(b, id, side, otype, price, qty);
    SweepMakers(opp, side, limit, qty, id, x, life);
    SweepOpen(opp, side, limit, qty, id);
    LifeOne(life, r.events[0], x);
    LifeConcat(life, [r.events[0]], s.events, x);
    var after := LifeOf(life, s.events, x);
    if r.rests {
      PlaceRests(b, id, side, otype, price, qty);
    } else if s.remaining > 0 {
      var last := r.events[|r.events| - 1];
      assert r.events == [r.events[0]] + s.events + [last];
      LifeConcat(life, [r.events[0]] + s.events, [last], x);
      LifeOne(after, last, x);
    } else {
      assert r.events == [r.events[0]] + s.events;
    }
    AgreeFrom(r.book, x, after);
  }

  lemma CancelLife(b: Book, id: OrderId, x: OrderId, life: Life)
    requires BookOk(b) && Agree(b, x, life)
    ensures BookOk(Cancelled(b, id))
    ensures Agree(Cancelled(b, id), x, LifeOf(life, [CancelEvent(b, id)], x))
  {
    LifeOne(life, CancelEvent(b, id), x);
    if Open(b, id) {
      WithoutOpen(b, id);
      var side := OpenSide(b, id);
      var l := SideOf(b, side);
      var p: Price, k: int :| Holds(l, id, p, k);
      CancelAt(b, side, id, p, k);
      LeftAt(l, id, p, k);
      if x != id && OpenOn(l, x) {
        var q: Price, j: int :| Holds(l, x, q, j);
        LeftAt(l, x, q, j);
        LeftAt(SideOf(Without(b, id), side), x, q, if q == p && j > k then j - 1 else j);
      }
    }
  }

  lemma ApplyLife(s: State, op: Op, x: OrderId, life: Life)
    requires StateOk(s) && !op.OpAddLimit? && Agree(s.book, x, life)
    ensures Agree(Apply(s, op).book, x, LifeOf(life, EventsOf(s, op), x))
  {
    match op
    case OpAdd(side, otype, price, qty) =>
      if Validate(otype, price, qty) == NoReason && s.pool.free != [] {
        var id := NextId(s.pool);
        TakenIsFresh(s.pool);
        if x == id {
          PlaceOwn(s.book, id, side, otype, price, qty, life);
        } else {
          PlaceOthers(s.book, id, side, otype, price, qty, x, life);
        }
      } else {
        LifeOne(life, EventsOf(s, op)[0], x);
      }
    case OpCancel(id) => CancelLife(s.book, id, x, life);
    case OpAddLimit(_, _, _) =>
  }

  // Over every run of adds and cancels each order follows the protocol, and is in the
  // book, with exactly the quantity left, precisely while it is working.
  lemma {:induction false} RunLife(s: State, ops: seq<Op>, x: OrderId, life: Life)
    requires StateOk(s) && Agree(s.book, x, life)
    requires forall k :: 0 <= k < |ops| ==> !ops[k].OpAddLimit?
    ensures Agree(Run(s, ops).book, x, LifeOf(life, Events(s, ops), x))
    decreases |ops|
  {
    if ops != [] {
      ApplyOk(s, ops[0]);
      ApplyLife(s, ops[0], x, life);
      var now, next := EventsOf(s, ops[0]), Apply(s, ops[0]);
      RunLife(next, ops[1..], x, LifeOf(life, now, x));
      LifeConcat(life, now, Events(next, ops[1..]), x);
    }
  }

  lemma RunFollowsProtocol(capacity: U32, ops: seq<Op>, x: OrderId)
    requires capacity <= MAX_CAPACITY
    requires forall k :: 0 <= k < |ops| ==> !ops[k].OpAddLimit?
    ensures StateOk(InitState(capacity))
    ensures Agree(Run(InitState(capacity), ops).book, x, LifeOf(Fresh, Events(InitState(capacity), ops), x))
  {
    InitOk(capacity);
    RunLife(InitState(capacity), ops, x, Fresh);
  }
}
