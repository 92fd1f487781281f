/**
 What the matching rules guarantee to a market: price-time priority, execution at the
 maker's price within the taker's limit, and a book that matching never leaves crossed.
 */
module Market {
  import opened Types
  import opened Seqs
  import opened OrderPools
  import opened BookSpec
  import opened BookFacts
  import opened BookRuns

  // ----- Where a sweep stops

  // A sweep leaves quantity only if no remaining level crosses, and takes no price
  // that was not there.
  lemma {:induction false} SweepStops(opp: Levels, taker: Side, limit: Price, rem: Qty, id: OrderId)
    requires LevelsOk(opp, Opposite(taker))
    ensures var s := Sweep(opp, taker, limit, rem, id);
            s.remaining > 0 ==> forall p :: p in s.levels ==> !Crosses(taker, limit, p)
    ensures forall p :: p in Sweep(opp, taker, limit, rem, id).levels ==> p in opp
    decreases rem
  {
    if CanFill(opp, taker, limit, rem) {
      FrontOf(opp, Opposite(taker));
      var fill := Min(rem, Maker(opp, taker).remaining);
      SweepStops(FillBest(opp, taker, fill), taker, limit, rem - fill, id);
    } else if opp != map[] {
      assert IsBest(Opposite(taker), opp, Best(Opposite(taker), opp));
    }
  }

  // The int64 sentinel crosses every level: a market order takes all there is.
  lemma MarketSweepsAll(opp: Levels, side: Side, price: Price, qty: Qty, id: OrderId)
    requires LevelsOk(opp, Opposite(side))
    ensures Sweep(opp, side, SweepLimit(side, Market, price), qty, id).remaining > 0 ==>
      Sweep(opp, side, SweepLimit(side, Market, price), qty, id).levels == map[]
  {
    var limit := SweepLimit(side, Market, price);
    SweepStops(opp, side, limit, qty, id);
    assert forall level: Price :: Crosses(side, limit, level);
  }

  // ----- Matching never leaves the book crossed

  ghost predicate Uncrossed(b: Book) {
    forall p, q :: p in b.bids && q in b.asks ==> p < q
  }

  // In terms of the two bests, as the book asserts it.
  lemma UncrossedBests(b: Book)
    ensures Uncrossed(b) <==> b.bids == map[] || b.asks == map[] || Best(Buy, b.bids) < Best(Sell, b.asks)
  {
    if b.bids != map[] && b.asks != map[] {
      assert IsBest(Buy, b.bids, Best(Buy, b.bids));
      assert IsBest(Sell, b.asks, Best(Sell, b.asks));
    }
  }

  lemma PlaceUncrossed(b: Book, id: OrderId, side: Side, otype: OrderType, price: Price, qty: Qty)
    requires SidesOk(b) && Uncrossed(b) && id != INVALID_ORDER_ID && qty > 0
    ensures Uncrossed(Place(b, id, side, otype, price, qty).book)
  {
    SweepStops(SideOf(b, Opposite(side)), side, SweepLimit(side, otype, price), qty, id);
  }

  // Every run of adds and cancels from an empty book, at every point, is uncrossed.
  lemma {:induction false} RunUncrossed(s: State, ops: seq<Op>)
    requires StateOk(s) && Uncrossed(s.book)
    requires forall k :: 0 <= k < |ops| ==> !ops[k].OpAddLimit?
    ensures Uncrossed(Run(s, ops).book)
    decreases |ops|
  {
    if ops != [] {
      ApplyOk(s, ops[0]);
      match ops[0] {
        case OpAdd(side, otype, price, qty) =>
          if Validate(otype, price, qty) == NoReason && s.pool.free != [] {
            PlaceUncrossed(s.book, NextId(s.pool), side, otype, price, qty);
          }
        case OpCancel(_) =>
        case OpAddLimit(_, _, _) =>
      }
      RunUncrossed(Apply(s, ops[0]), ops[1..]);
    }
  }

  // The rest-only primitive is exactly what can cross it.
  lemma AddLimitCrossesIff(b: Book, o: Resting)
    requires SidesOk(b) && Uncrossed(b) && OrderOk(o, o.side, o.price)
    ensures Uncrossed(Rested(b, o)) <==>
      forall q :: q in SideOf(b, Opposite(o.side)) ==> !Crosses(o.side, o.price, q)
  {
    var c := Rested(b, o);
    assert o.price in SideOf(c, o.side);
    assert SideOf(c, Opposite(o.side)) == SideOf(b, Opposite(o.side));
  }

  // ----- Price-time priority

  // Arrival stamps: `stamps` gives each open order the moment it was accepted.
  type Stamps = map<OrderId, nat>

  // Along every queue the stamps increase: time priority within a level.
  ghost predicate InOrder(l: Levels, stamps: Stamps) {
    && (forall p, k :: p in l && 0 <= k < |l[p]| ==> l[p][k].id in stamps)
    && (forall p, j, k :: p in l && 0 <= j < k < |l[p]| ==> stamps[l[p][j].id] < stamps[l[p][k].id])
  }

  ghost predicate AllBefore(stamps: Stamps, clock: nat) {
    forall id :: id in stamps ==> stamps[id] < clock
  }

  // a comes before b: a better price, or the same price and an earlier stamp.
  ghost predicate Ahead(side: Side, stamps: Stamps, a: Resting, b: Resting)
    requires a.id in stamps && b.id in stamps
  {
    Better(side, a.price, b.price) || (a.price == b.price && stamps[a.id] < stamps[b.id])
  }

  // The order with priority over every other order of the side.
  ghost predicate HasPriority(side: Side, l: Levels, stamps: Stamps, o: Resting) {
    && (exists p: Price, k: int :: p in l && 0 <= k < |l[p]| && l[p][k] == o)
    && o.id in stamps
    && forall p, k :: p in l && 0 <= k < |l[p]| && l[p][k] != o ==>
         l[p][k].id in stamps && Ahead(side, stamps, o, l[p][k])
  }

  lemma MakerHasPriority(opp: Levels, taker: Side, stamps: Stamps)
    requires LevelsOk(opp, Opposite(taker)) && InOrder(opp, stamps) && opp != map[]
    ensures HasPriority(Opposite(taker), opp, stamps, Maker(opp, taker))
  {
    var side := Opposite(taker);
    var best := Best(side, opp);
    FrontOf(opp, side);
    assert IsBest(side, opp, best);
    var maker := opp[best][0];
    forall p, k | p in opp && 0 <= k < |opp[p]| && opp[p][k] != maker
      ensures opp[p][k].id in stamps && Ahead(side, stamps, maker, opp[p][k])
    {
      assert QueueOk(opp[p], side, p) && OrderOk(opp[p][k], side, p);
      assert !Better(side, p, best);
    }
  }

  lemma FillKeepsOrder(opp: Levels, taker: Side, stamps: Stamps, fill: Qty)
    requires LevelsOk(opp, Opposite(taker)) && InOrder(opp, stamps) && opp != map[]
    requires fill <= Maker(opp, taker).remaining
    ensures InOrder(FillBest(opp, taker, fill), stamps)
  {
    var best := Best(Opposite(taker), opp);
    var q := FillFront(opp[best], fill);
    var d := if fill == opp[best][0].remaining then 1 else 0;
    assert forall k :: 0 <= k < |q| ==> q[k].id == opp[best][k + d].id;
  }

  // One executed fill: the side before it, the maker and the two events.
  datatype Fill = Fill(before: Levels, maker: Resting, qty: Qty, takerLeft: Qty)

  // The fills of a sweep, first to last.
  ghost function Fills(opp: Levels, taker: Side, limit: Price, rem: Qty): (r: seq<Fill>)
    requires LevelsOk(opp, Opposite(taker))
    ensures forall k :: 0 <= k < |r| ==> r[k].qty <= r[k].maker.remaining
    decreases rem
  {
    if !CanFill(opp, taker, limit, rem) then []
    else
      FrontOf(opp, Opposite(taker));
      var maker := Maker(opp, taker);
      var fill := Min(rem, maker.remaining);
      [Fill(opp, maker, fill, rem - fill)] + Fills(FillBest(opp, taker, fill), taker, limit, rem - fill)
  }

  // One event tells the maker and one the taker, both at the maker's price.
  ghost predicate TellsFill(m: Event, t: Event, f: Fill, taker: Side, id: OrderId) {
    && m.kind == t.kind == Traded && m.reason == t.reason == NoReason
    && m.price == t.price == f.maker.price && m.qty == t.qty == f.qty
    && m.id == f.maker.id && m.side == Opposite(taker) && m.remaining == f.maker.remaining - f.qty
    && t.id == id && t.side == taker && t.remaining == f.takerLeft
  }

  ghost predicate TellsFills(events: seq<Event>, fills: seq<Fill>, taker: Side, id: OrderId) {
    && |events| == 2 * |fills|
    && forall k :: 0 <= k < |fills| ==> TellsFill(events[2 * k], events[2 * k + 1], fills[k], taker, id)
  }

  lemma TellsOneMore(m: Event, t: Event, f: Fill, events: seq<Event>, fills: seq<Fill>, taker: Side, id: OrderId)
    requires TellsFill(m, t, f, taker, id) && TellsFills(events, fills, taker, id)
    ensures TellsFills([m, t] + events, [f] + fills, taker, id)
  {
    hide TellsFill;
    var all, more := [m, t] + events, [f] + fills;
    forall k | 0 <= k < |more|
      ensures TellsFill(all[2 * k], all[2 * k + 1], more[k], taker, id)
    {
      if k > 0 {
        var j := k - 1;
        assert TellsFill(events[2 * j], events[2 * j + 1], fills[j], taker, id);
        assert all[2 * k] == events[2 * j] && all[2 * k + 1] == events[2 * j + 1];
      }
    }
  }

  // What is true of one fill: its maker had priority over the whole side at that
  // moment, it executes at the maker's price, within the taker's limit.
  ghost predicate FairFill(f: Fill, taker: Side, limit: Price, stamps: Stamps) {
    && HasPriority(Opposite(taker), f.before, stamps, f.maker)
    && (if taker == Buy then f.maker.price <= limit else f.maker.price >= limit)
    && 1 <= f.qty <= f.maker.remaining
  }

  lemma {:induction false} FillsAreFair(opp: Levels, taker: Side, limit: Price, rem: Qty, id: OrderId, stamps: Stamps)
    requires LevelsOk(opp, Opposite(taker)) && InOrder(opp, stamps)
    ensures forall k :: 0 <= k < |Fills(opp, taker, limit, rem)| ==>
      FairFill(Fills(opp, taker, limit, rem)[k], taker, limit, stamps)
    ensures InOrder(Sweep(opp, taker, limit, rem, id).levels, stamps)
    decreases rem
  {
    hide InOrder, HasPriority, FillBest, LevelsOk, IsBest, FillEvents;
    if CanFill(opp, taker, limit, rem) {
      FrontOf(opp, Opposite(taker));
      var maker := Maker(opp, taker);
      var fill := Min(rem, maker.remaining);
      MakerHasPriority(opp, taker, stamps);
      FillKeepsOrder(opp, taker, stamps, fill);
      FillsAreFair(FillBest(opp, taker, fill), taker, limit, rem - fill, id, stamps);
    }
  }

  lemma {:induction false} SweepTells(opp: Levels, taker: Side, limit: Price, rem: Qty, id: OrderId)
    requires LevelsOk(opp, Opposite(taker))
    ensures TellsFills(Sweep(opp, taker, limit, rem, id).events, Fills(opp, taker, limit, rem), taker, id)
    decreases rem
  {
    hide TellsFills, FillBest, Best, IsBest, LevelsOk;
    if CanFill(opp, taker, limit, rem) {
      FrontOf(opp, Opposite(taker));
      var maker := Maker(opp, taker);
      var fill := Min(rem, maker.remaining);
      var next := FillBest(opp, taker, fill);
      SweepTells(next, taker, limit, rem - fill, id);
      var pair := FillEvents(maker, taker, id, fill, rem - fill);
      TellsOneMore(pair[0], pair[1], Fill(opp, maker, fill, rem - fill),
                   Sweep(next, taker, limit, rem - fill, id).events, Fills(next, taker, limit, rem - fill), taker, id);
      assert pair == [pair[0], pair[1]];
    } else {
      TellsNothing(taker, id);
    }
  }

  // Every fill of a sweep is fair, and the emitted events tell the fills in turn.
  lemma SweepIsFair(opp: Levels, taker: Side, limit: Price, rem: Qty, id: OrderId, stamps: Stamps)
    requires LevelsOk(opp, Opposite(taker)) && InOrder(opp, stamps)
    ensures forall k :: 0 <= k < |Fills(opp, taker, limit, rem)| ==>
      FairFill(Fills(opp, taker, limit, rem)[k], taker, limit, stamps)
    ensures TellsFills(Sweep(opp, taker, limit, rem, id).events, Fills(opp, taker, limit, rem), taker, id)
    ensures InOrder(Sweep(opp, taker, limit, rem, id).levels, stamps)
  {
    hide TellsFills, FairFill, Fills, Sweep, LevelsOk, InOrder;
    FillsAreFair(opp, taker, limit, rem, id, stamps);
    SweepTells(opp, taker, limit, rem, id);
  }

  lemma TellsNothing(taker: Side, id: OrderId)
    ensures TellsFills([], [], taker, id)
  {
  }

  // Within one sweep prices never improve for the taker.
  lemma {:induction false} SweepPricesWorsen(opp: Levels, taker: Side, limit: Price, rem: Qty)
    requires LevelsOk(opp, Opposite(taker))
    ensures forall j, k :: 0 <= j < k < |Fills(opp, taker, limit, rem)| ==>
      !Better(Opposite(taker), Fills(opp, taker, limit, rem)[k].maker.price,
              Fills(opp, taker, limit, rem)[j].maker.price)
    ensures forall k :: 0 <= k < |Fills(opp, taker, limit, rem)| ==>
      Fills(opp, taker, limit, rem)[k].maker.price in opp
    decreases rem
  {
    if CanFill(opp, taker, limit, rem) {
      FrontOf(opp, Opposite(taker));
      var maker := Maker(opp, taker);
      var fill := Min(rem, maker.remaining);
      var next := FillBest(opp, taker, fill);
      SweepPricesWorsen(next, taker, limit, rem - fill);
      assert forall p :: p in next ==> p in opp;
      assert IsBest(Opposite(taker), opp, maker.price);
    }
  }

  // ----- Stamped runs: priority in every reachable state

  datatype Stamped = Stamped(state: State, stamps: Stamps, clock: nat)

  ghost predicate StampedOk(t: Stamped) {
    && StateOk(t.state) && AllBefore(t.stamps, t.clock)
    && InOrder(t.state.book.bids, t.stamps) && InOrder(t.state.book.asks, t.stamps)
  }

  // An accepted order is stamped with the clock, then the clock advances.
  ghost function StampedApply(t: Stamped, op: Op): Stamped
    requires StateOk(t.state)
  {
    var after := Apply(t.state, op);
    var minted :=
      match op
      case OpAdd(side, otype, price, qty) => Add(t.state, side, otype, price, qty).id
      case OpAddLimit(side, price, qty) => AddLimit(t.state, side, price, qty).id
      case OpCancel(_) => INVALID_ORDER_ID;
    if minted == INVALID_ORDER_ID then t.(state := after)
    else Stamped(after, t.stamps[minted := t.clock], t.clock + 1)
  }

  lemma RestampOther(l: Levels, stamps: Stamps, id: OrderId, clock: nat)
    requires InOrder(l, stamps) && !OpenOn(l, id)
    ensures InOrder(l, stamps[id := clock])
  {
    forall p, k | p in l && 0 <= k < |l[p]|
      ensures l[p][k].id != id
    {
      assert Holds(l, l[p][k].id, p, k);
    }
  }

  lemma RestInOrder(l: Levels, stamps: Stamps, o: Resting, clock: nat)
    requires InOrder(l, stamps) && !OpenOn(l, o.id) && AllBefore(stamps, clock)
    ensures InOrder(l[o.price := QueueAt(l, o.price) + [o]], stamps[o.id := clock])
  {
    RestampOther(l, stamps, o.id, clock);
    var q := QueueAt(l, o.price);
    forall k | 0 <= k < |q|
      ensures q[k].id != o.id && q[k].id in stamps && stamps[q[k].id] < clock
    {
      assert Holds(l, q[k].id, o.price, k);
    }
  }

  lemma CancelInOrder(l: Levels, stamps: Stamps, p: Price, k: int)
    requires InOrder(l, stamps) && p in l && 0 <= k < |l[p]|
    ensures InOrder(SetQueue(l, p, RemoveAt(l[p], k)), stamps)
  {
    var r := RemoveAt(l[p], k);
    assert forall j :: 0 <= j < |r| ==> r[j] == l[p][if j < k then j else j + 1];
  }

  lemma PlaceInOrder(b: Book, id: OrderId, side: Side, otype: OrderType, price: Price, qty: Qty,
                     stamps: Stamps, clock: nat)
    requires BookOk(b) && !Open(b, id) && id != INVALID_ORDER_ID && qty > 0 && AllBefore(stamps, clock)
    requires InOrder(b.bids, stamps) && InOrder(b.asks, stamps)
    ensures InOrder(Place(b, id, side, otype, price, qty).book.bids, stamps[id := clock])
    ensures InOrder(Place(b, id, side, otype, price, qty).book.asks, stamps[id := clock])
  {
    var opp := SideOf(b, Opposite(side));
    var own := SideOf(b, side);
    var s := Sweep(opp, side, SweepLimit(side, otype, price), qty, id);
    SweepIsFair(opp, side, SweepLimit(side, otype, price), qty, id, stamps);
    SweepOpen(opp, side, SweepLimit(side, otype, price), qty, id);
    RestampOther(s.levels, stamps, id, clock);
    RestampOther(own, stamps, id, clock);
    if s.remaining > 0 && otype == Limit {
      RestInOrder(own, stamps, Resting(id, price, qty, s.remaining, side), clock);
    }
  }

  lemma StampedAddOk(t: Stamped, side: Side, otype: OrderType, price: Price, qty: Qty)
    requires StampedOk(t)
    ensures StampedOk(StampedApply(t, OpAdd(side, otype, price, qty)))
  {
    hide StateOk, InOrder, PoolOk, BookOk, Place, Taken, NextId, Open, Live;
    var s := t.state;
    ApplyOk(s, OpAdd(side, otype, price, qty));
    StateSides(s);
    if Validate(otype, price, qty) == NoReason && s.pool.free != [] {
      TakenIsFresh(s.pool);
      NotOpenYet(s);
      PlaceInOrder(s.book, NextId(s.pool), side, otype, price, qty, t.stamps, t.clock);
    }
  }

  lemma NotOpenYet(s: State)
    requires StateOk(s) && s.pool.free != []
    ensures BookOk(s.book) && !Open(s.book, NextId(s.pool))
  {
    TakenIsFresh(s.pool);
  }

  lemma StampedAddLimitOk(t: Stamped, side: Side, price: Price, qty: Qty)
    requires StampedOk(t)
    ensures StampedOk(StampedApply(t, OpAddLimit(side, price, qty)))
  {
    hide StateOk, InOrder, PoolOk, BookOk, Taken, NextId, OpenOn, Live;
    var s := t.state;
    ApplyOk(s, OpAddLimit(side, price, qty));
    StateSides(s);
    if Validate(Limit, price, qty) == NoReason && s.pool.free != [] {
      var id := NextId(s.pool);
      TakenIsFresh(s.pool);
      NotOpenYet(s);
      RestInOrder(SideOf(s.book, side), t.stamps, Resting(id, price, qty, qty, side), t.clock);
      RestampOther(SideOf(s.book, Opposite(side)), t.stamps, id, t.clock);
    }
  }

  lemma StampedCancelOk(t: Stamped, id: OrderId)
    requires StampedOk(t)
    ensures StampedOk(StampedApply(t, OpCancel(id)))
  {
    hide StateOk, InOrder, Released, UniqueOn, OpenOn, Without, OrderOf;
    var s := t.state;
    ApplyOk(s, OpCancel(id));
    if Open(s.book, id) {
      var side, p, k := WhereOpen(s, id);
      CancelInOrder(SideOf(s.book, side), t.stamps, p, k);
    }
  }

  lemma WhereOpen(s: State, id: OrderId) returns (side: Side, p: Price, k: int)
    requires StateOk(s) && Open(s.book, id)
    ensures Holds(SideOf(s.book, side), id, p, k)
    ensures Without(s.book, id)
         == WithSide(s.book, side, SetQueue(SideOf(s.book, side), p, RemoveAt(SideOf(s.book, side)[p], k)))
  {
    side := OpenSide(s.book, id);
    p, k :| Holds(SideOf(s.book, side), id, p, k);
    CancelAt(s.book, side, id, p, k);
  }

  lemma StampedApplyOk(t: Stamped, op: Op)
    requires StampedOk(t)
    ensures StampedOk(StampedApply(t, op))
  {
    hide StampedOk, StampedApply;
    match op
    case OpAdd(side, otype, price, qty) => StampedAddOk(t, side, otype, price, qty);
    case OpAddLimit(side, price, qty) => StampedAddLimitOk(t, side, price, qty);
    case OpCancel(id) => StampedCancelOk(t, id);
  }

  // A new book starts uncrossed and in order, so the theorems about runs apply to every
  // reachable state.
  lemma StartIsFair(capacity: U32)
    requires capacity <= MAX_CAPACITY
    ensures StampedOk(Stamped(InitState(capacity), map[], 0)) && Uncrossed(InitState(capacity).book)
  {
    InitOk(capacity);
  }

  ghost function StampedRun(t: Stamped, ops: seq<Op>): Stamped
    requires StampedOk(t)
    decreases |ops|
  {
    if ops == [] then t
    else
      StampedApplyOk(t, ops[0]);
      StampedRun(StampedApply(t, ops[0]), ops[1..])
  }

  // In every state a run reaches, queues are in arrival order, so the next sweep from
  // there, by any taker, is fair throughout.
  lemma {:induction false} RunIsFair(t: Stamped, ops: seq<Op>, taker: Side, limit: Price, qty: Qty)
    requires StampedOk(t)
    ensures var u := StampedRun(t, ops);
            && StampedOk(u) && u.state == Run(t.state, ops)
            && var fills := Fills(SideOf(u.state.book, Opposite(taker)), taker, limit, qty);
               forall k :: 0 <= k < |fills| ==> FairFill(fills[k], taker, limit, u.stamps)
    decreases |ops|
  {
    if ops == [] {
      SweepIsFair(SideOf(t.state.book, Opposite(taker)), taker, limit, qty, INVALID_ORDER_ID, t.stamps);
    } else {
      StampedApplyOk(t, ops[0]);
      ApplyOk(t.state, ops[0]);
      RunIsFair(StampedApply(t, ops[0]), ops[1..], taker, limit, qty);
    }
  }
}
