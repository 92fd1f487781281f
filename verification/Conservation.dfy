/**
 Quantity is conserved: what was accepted has been traded, cancelled or still rests.
 */
module Conservation {
  import opened Types
  import opened Seqs
  import opened OrderPools
  import opened BookSpec
  import opened BookRuns

  // ----- The open quantity of a side

  ghost function SideQty(l: Levels): nat
    decreases |l|
  {
    if l == map[] then 0
    else
      var p := Best(Buy, l);
      QueueQty(l[p]) + SideQty(l - {p})
  }

  lemma {:induction false} SideQtyAt(l: Levels, p: Price)
    requires p in l
    ensures SideQty(l) == QueueQty(l[p]) + SideQty(l - {p})
    decreases |l|
  {
    var b := Best(Buy, l);
    if b != p {
      SideQtyAt(l - {b}, p);
      SideQtyAt(l - {p}, b);
      assert l - {b} - {p} == l - {p} - {b};
    }
  }

  lemma SetQueueQty(l: Levels, p: Price, q: seq<Resting>)
    ensures SideQty(SetQueue(l, p, q)) + QueueQty(QueueAt(l, p)) == SideQty(l) + QueueQty(q)
  {
    if p in l {
      SideQtyAt(l, p);
    } else {
      assert l - {p} == l;
    }
    if q != [] {
      SideQtyAt(l[p := q], p);
      assert l[p := q] - {p} == l - {p};
    }
  }

  lemma FillBestQty(opp: Levels, taker: Side, fill: Qty)
    requires LevelsOk(opp, Opposite(taker)) && opp != map[] && fill <= Maker(opp, taker).remaining
    ensures SideQty(FillBest(opp, taker, fill)) == SideQty(opp) - fill
    ensures fill <= SideQty(opp)
  {
    var p := Best(Opposite(taker), opp);
    FrontOf(opp, Opposite(taker));
    SetQueueQty(opp, p, FillFront(opp[p], fill));
    SideQtyAt(opp, p);
  }

  // ----- A sweep trades exactly the crossing quantity, as far as the order goes

  ghost function Crossing(l: Levels, taker: Side, limit: Price): Levels {
    map p | p in l && Crosses(taker, limit, p) :: l[p]
  }

  lemma CrossingFill(opp: Levels, taker: Side, limit: Price, fill: Qty)
    requires LevelsOk(opp, Opposite(taker)) && opp != map[] && fill <= Maker(opp, taker).remaining
    requires Crosses(taker, limit, Best(Opposite(taker), opp))
    ensures SideQty(Crossing(FillBest(opp, taker, fill), taker, limit)) == SideQty(Crossing(opp, taker, limit)) - fill
    ensures fill <= SideQty(Crossing(opp, taker, limit))
  {
    var p := Best(Opposite(taker), opp);
    FrontOf(opp, Opposite(taker));
    var c, q := Crossing(opp, taker, limit), FillFront(opp[p], fill);
    assert Crossing(FillBest(opp, taker, fill), taker, limit) == SetQueue(c, p, q);
    SetQueueQty(c, p, q);
    SideQtyAt(c, p);
  }

  lemma NothingCrosses(opp: Levels, taker: Side, limit: Price, rem: Qty)
    requires !CanFill(opp, taker, limit, rem) && rem > 0
    ensures SideQty(Crossing(opp, taker, limit)) == 0
  {
    if opp != map[] {
      assert IsBest(Opposite(taker), opp, Best(Opposite(taker), opp));
    }
    assert Crossing(opp, taker, limit) == map[];
  }

  lemma {:induction false} SweepFillsAvailable(opp: Levels, taker: Side, limit: Price, rem: Qty, id: OrderId)
    requires LevelsOk(opp, Opposite(taker))
    ensures rem - Sweep(opp, taker, limit, rem, id).remaining == Min(rem, SideQty(Crossing(opp, taker, limit)))
    ensures SideQty(Sweep(opp, taker, limit, rem, id).levels)
         == SideQty(opp) - (rem - Sweep(opp, taker, limit, rem, id).remaining)
    decreases rem
  {
    hide SideQty, Crossing, FillBest, FillEvents, Best, IsBest, LevelsOk;
    if CanFill(opp, taker, limit, rem) {
      FrontOf(opp, Opposite(taker));
      var fill := Min(rem, Maker(opp, taker).remaining);
      var next := FillBest(opp, taker, fill);
      SweepFillsAvailable(next, taker, limit, rem - fill, id);
      FillBestQty(opp, taker, fill);
      CrossingFill(opp, taker, limit, fill);
    } else if rem > 0 {
      NothingCrosses(opp, taker, limit, rem);
    }
  }

  // ----- Totals over events

  ghost function Total(events: seq<Event>, kind: EventType): nat {
    if events == [] then 0
    else (if events[0].kind == kind then events[0].qty else 0) + Total(events[1..], kind)
  }

  lemma {:induction false} TotalConcat(a: seq<Event>, b: seq<Event>, kind: EventType)
    ensures Total(a + b, kind) == Total(a, kind) + Total(b, kind)
  {
    if a == [] {
      assert a + b == b;
    } else {
      assert (a + b)[1..] == a[1..] + b;
      TotalConcat(a[1..], b, kind);
    }
  }

  lemma {:induction false} SweepTrades(opp: Levels, taker: Side, limit: Price, rem: Qty, id: OrderId)
    requires LevelsOk(opp, Opposite(taker))
    ensures forall k :: 0 <= k < |Sweep(opp, taker, limit, rem, id).events| ==>
      Sweep(opp, taker, limit, rem, id).events[k].kind == Traded
    decreases rem
  {
    hide FillBest, Best, IsBest, LevelsOk;
    if CanFill(opp, taker, limit, rem) {
      FrontOf(opp, Opposite(taker));
      var maker := Maker(opp, taker);
      var fill := Min(rem, maker.remaining);
      SweepTrades(FillBest(opp, taker, fill), taker, limit, rem - fill, id);
    }
  }

  lemma {:induction false} SweepPairs(opp: Levels, taker: Side, limit: Price, rem: Qty, id: OrderId)
    requires LevelsOk(opp, Opposite(taker))
    ensures |Sweep(opp, taker, limit, rem, id).events| % 2 == 0
    decreases rem
  {
    hide FillBest, Best, IsBest, LevelsOk;
    if CanFill(opp, taker, limit, rem) {
      FrontOf(opp, Opposite(taker));
      var maker := Maker(opp, taker);
      var fill := Min(rem, maker.remaining);
      SweepPairs(FillBest(opp, taker, fill), taker, limit, rem - fill, id);
    }
  }

  // Each fill is reported once for the maker and once for the taker.
  lemma {:induction false} SweepTotal(opp: Levels, taker: Side, limit: Price, rem: Qty, id: OrderId)
    requires LevelsOk(opp, Opposite(taker))
    ensures var s := Sweep(opp, taker, limit, rem, id);
            Total(s.events, Traded) == 2 * (rem - s.remaining)
    decreases rem
  {
    hide FillBest, Best, IsBest, LevelsOk, Total, FillEvents;
    NoTotal(Traded);
    if CanFill(opp, taker, limit, rem) {
      FrontOf(opp, Opposite(taker));
      var maker := Maker(opp, taker);
      var fill := Min(rem, maker.remaining);
      SweepTotal(FillBest(opp, taker, fill), taker, limit, rem - fill, id);
      var rest := Sweep(FillBest(opp, taker, fill), taker, limit, rem - fill, id);
      PairTotal(maker, taker, id, fill, rem - fill);
      TotalConcat(FillEvents(maker, taker, id, fill, rem - fill), rest.events, Traded);
    }
  }

  lemma NoTotal(kind: EventType)
    ensures Total([], kind) == 0
  {
  }

  lemma PairTotal(maker: Resting, taker: Side, id: OrderId, fill: Qty, left: Qty)
    requires fill <= maker.remaining
    ensures Total(FillEvents(maker, taker, id, fill, left), Traded) == 2 * fill
  {
    var e := FillEvents(maker, taker, id, fill, left);
    assert e[1..] == [e[1]] && e[1..][1..] == [];
    OneTotal(e[1], Traded);
  }

  lemma OneTotal(e: Event, kind: EventType)
    ensures Total([e], kind) == if e.kind == kind then e.qty else 0
  {
    assert [e][1..] == [];
  }

  lemma {:induction false} OtherTotal(events: seq<Event>, kind: EventType)
    requires forall k :: 0 <= k < |events| ==> events[k].kind != kind
    ensures Total(events, kind) == 0
  {
    if events != [] {
      OtherTotal(events[1..], kind);
    }
  }

  // ----- Conservation

  ghost function OpenQty(b: Book): nat {
    SideQty(b.bids) + SideQty(b.asks)
  }

  // Accepted = traded (both sides) + cancelled + the change in open quantity.
  ghost predicate Balanced(before: Book, events: seq<Event>, after: Book) {
    Total(events, Accepted) + OpenQty(before)
      == Total(events, Traded) + Total(events, Canceled) + OpenQty(after)
  }

  lemma PlaceBalanced(b: Book, id: OrderId, side: Side, otype: OrderType, price: Price, qty: Qty)
    requires SidesOk(b) && id != INVALID_ORDER_ID && qty > 0
    ensures Balanced(b, Place(b, id, side, otype, price, qty).events, Place(b, id, side, otype, price, qty).book)
  {
    hide Sweep, SideQty, LevelsOk, Rested, Total, Crossing;
    var r := Place(b, id, side, otype, price, qty);
    var opp, limit := SideOf(b, Opposite(side)), SweepLimit(side, otype, price);
    var s := Sweep(opp, side, limit, qty, id);
    SweepFillsAvailable(opp, side, limit, qty, id);
    SweepTrades(opp, side, limit, qty, id);
    SweepTotal(opp, side, limit, qty, id);
    OtherTotal(s.events, Accepted);
    OtherTotal(s.events, Canceled);
    var left := r.events[1 + |s.events|..];
    assert r.events == [r.events[0]] + s.events + left;
    forall kind
      ensures Total(r.events, kind) == Total([r.events[0]], kind) + Total(s.events, kind) + Total(left, kind)
    {
      TotalConcat([r.events[0]] + s.events, left, kind);
      TotalConcat([r.events[0]], s.events, kind);
    }
    OneTotal(r.events[0], Accepted);
    OneTotal(r.events[0], Traded);
    OneTotal(r.events[0], Canceled);
    if left != [] {
      assert left == [left[0]];
      OneTotal(left[0], Accepted);
      OneTotal(left[0], Traded);
      OneTotal(left[0], Canceled);
    } else {
      NoTotal(Accepted);
      NoTotal(Traded);
      NoTotal(Canceled);
    }
    if r.rests {
      RestQty(WithSide(b, Opposite(side), s.levels), Resting(id, price, qty, s.remaining, side));
    }
  }

  lemma RestQty(b: Book, o: Resting)
    requires SidesOk(b) && OrderOk(o, o.side, o.price)
    ensures OpenQty(Rested(b, o)) == OpenQty(b) + o.remaining
  {
    var own := SideOf(b, o.side);
    SetQueueQty(own, o.price, QueueAt(own, o.price) + [o]);
    QueueQtyConcat(QueueAt(own, o.price), [o]);
    assert QueueQty([o]) == o.remaining + QueueQty([]);
  }

  lemma CancelBalanced(b: Book, id: OrderId)
    requires BookOk(b)
    ensures Balanced(b, [CancelEvent(b, id)], Cancelled(b, id))
  {
    var e := CancelEvent(b, id);
    OneTotal(e, Accepted);
    OneTotal(e, Traded);
    OneTotal(e, Canceled);
    if Open(b, id) {
      var side := OpenSide(b, id);
      var l := SideOf(b, side);
      var p: Price, k: int :| Holds(l, id, p, k);
      CancelAt(b, side, id, p, k);
      SetQueueQty(l, p, RemoveAt(l[p], k));
      QueueQtyRemove(l[p], k);
    }
  }

  lemma AddBalanced(s: State, side: Side, otype: OrderType, price: Price, qty: Qty)
    requires StateOk(s)
    ensures var r := Add(s, side, otype, price, qty);
            Balanced(s.book, r.events, r.state.book)
  {
    var r := Add(s, side, otype, price, qty);
    if Validate(otype, price, qty) == NoReason && s.pool.free != [] {
      PlaceBalanced(s.book, NextId(s.pool), side, otype, price, qty);
    } else {
      OneTotal(r.events[0], Accepted);
      OneTotal(r.events[0], Traded);
      OneTotal(r.events[0], Canceled);
    }
  }

  lemma {:induction false} RunBalanced(s: State, ops: seq<Op>)
    requires StateOk(s)
    requires forall k :: 0 <= k < |ops| ==> !ops[k].OpAddLimit?
    ensures Balanced(s.book, Events(s, ops), Run(s, ops).book)
    decreases |ops|
  {
    if ops != [] {
      ApplyOk(s, ops[0]);
      var next := Apply(s, ops[0]);
      var now, later := EventsOf(s, ops[0]), Events(next, ops[1..]);
      assert Balanced(s.book, now, next.book) by {
        match ops[0]
        case OpAdd(side, otype, price, qty) => AddBalanced(s, side, otype, price, qty);
        case OpCancel(id) => CancelBalanced(s.book, id);
        case OpAddLimit(_, _, _) =>
      }
      RunBalanced(next, ops[1..]);
      TotalConcat(now, later, Accepted);
      TotalConcat(now, later, Traded);
      TotalConcat(now, later, Canceled);
    }
  }

  // From an empty book: everything accepted was traded, cancelled or is open.
  lemma RunConserves(capacity: U32, ops: seq<Op>)
    requires capacity <= MAX_CAPACITY
    requires forall k :: 0 <= k < |ops| ==> !ops[k].OpAddLimit?
    ensures StateOk(InitState(capacity))
    ensures var events := Events(InitState(capacity), ops);
            Total(events, Accepted) == Total(events, Traded) + Total(events, Canceled)
                                       + OpenQty(Run(InitState(capacity), ops).book)
  {
    InitOk(capacity);
    RunBalanced(InitState(capacity), ops);
  }
}
