/**
 The engine's 64-bit wrapping counters and the identities that hold between them at
 every command boundary.
 */
module Stats {
  import opened Types
  import opened Bits
  import opened OrderPools
  import opened BookSpec
  import opened Conservation

  datatype Tally = Tally(
    news: U64,
    cancelRequests: U64,
    events: U64,
    accepted: U64,
    rejected: U64,
    unknownOrder: U64,
    invalid: U64,
    poolExhausted: U64,
    traded: U64,
    tradedQty: U64,
    canceled: U64)

  const ZERO := Tally(0, 0, 0, 0, 0, 0, 0, 0, 0, 0, 0)

  // The derived views.
  function Commands(t: Tally): U64 {
    Wrap(t.news + t.cancelRequests)
  }

  function FillCount(t: Tally): U64 {
    t.traded / 2
  }

  function TradedQty(t: Tally): U64 {
    t.tradedQty / 2
  }

  // What an event is counted under.
  datatype Class = AnyEvent | OfKind(kind: EventType) | OfReason(reasons: set<RejectReason>)

  predicate Is(e: Event, c: Class) {
    match c
    case AnyEvent => true
    case OfKind(kind) => e.kind == kind
    case OfReason(reasons) => e.kind == Rejected && e.reason in reasons
  }

  function Count(events: seq<Event>, c: Class): nat {
    if events == [] then 0 else (if Is(events[0], c) then 1 else 0) + Count(events[1..], c)
  }

  const INVALID: Class := OfReason({InvalidQty, InvalidPrice})
  const EXHAUSTED: Class := OfReason({PoolExhausted})
  const UNKNOWN: Class := OfReason({UnknownOrder})

  // The counters after more events, by class.
  ghost function Counted(t: Tally, events: seq<Event>): Tally {
    t.(events := Wrap(t.events + Count(events, AnyEvent)),
       accepted := Wrap(t.accepted + Count(events, OfKind(Accepted))),
       rejected := Wrap(t.rejected + Count(events, OfKind(Rejected))),
       unknownOrder := Wrap(t.unknownOrder + Count(events, UNKNOWN)),
       invalid := Wrap(t.invalid + Count(events, INVALID)),
       poolExhausted := Wrap(t.poolExhausted + Count(events, EXHAUSTED)),
       traded := Wrap(t.traded + Count(events, OfKind(Traded))),
       tradedQty := Wrap(t.tradedQty + Total(events, Traded)),
       canceled := Wrap(t.canceled + Count(events, OfKind(Canceled))))
  }

  lemma {:induction false} CountConcat(a: seq<Event>, b: seq<Event>, c: Class)
    ensures Count(a + b, c) == Count(a, c) + Count(b, c)
  {
    if a == [] {
      assert a + b == b;
    } else {
      assert (a + b)[1..] == a[1..] + b;
      CountConcat(a[1..], b, c);
    }
  }

  lemma CountOne(e: Event, c: Class)
    ensures Count([e], c) == if Is(e, c) then 1 else 0
  {
    assert [e][1..] == [];
  }

  lemma WrapTwice(x: nat, a: nat, b: nat)
    ensures Wrap(Wrap(x + a) + b) == Wrap(x + (a + b))
  {
    WrapDrop(x + a, b);
  }

  lemma CountedNothing(t: Tally)
    ensures Counted(t, []) == t
  {
  }

  lemma CountedOne(t: Tally, e: Event)
    ensures Counted(t, [e]) ==
      t.(events := Wrap(t.events + 1),
         accepted := if e.kind == Accepted then Wrap(t.accepted + 1) else t.accepted,
         rejected := if e.kind == Rejected then Wrap(t.rejected + 1) else t.rejected,
         unknownOrder := if e.kind == Rejected && e.reason == UnknownOrder
                         then Wrap(t.unknownOrder + 1) else t.unknownOrder,
         invalid := if e.kind == Rejected && (e.reason == InvalidQty || e.reason == InvalidPrice)
                    then Wrap(t.invalid + 1) else t.invalid,
         poolExhausted := if e.kind == Rejected && e.reason == PoolExhausted
                          then Wrap(t.poolExhausted + 1) else t.poolExhausted,
         traded := if e.kind == Traded then Wrap(t.traded + 1) else t.traded,
         tradedQty := if e.kind == Traded then Wrap(t.tradedQty + e.qty) else t.tradedQty,
         canceled := if e.kind == Canceled then Wrap(t.canceled + 1) else t.canceled)
  {
    hide Count, Total;
    OneTotal(e, Traded);
    forall c
      ensures Count([e], c) == if Is(e, c) then 1 else 0
    {
      CountOne(e, c);
    }
  }

  lemma CountMore(x: U64, a: seq<Event>, b: seq<Event>, c: Class)
    ensures Wrap(Wrap(x + Count(a, c)) + Count(b, c)) == Wrap(x + Count(a + b, c))
  {
    CountConcat(a, b, c);
    WrapTwice(x, Count(a, c), Count(b, c));
  }

  lemma CountedMore(t: Tally, a: seq<Event>, b: seq<Event>)
    ensures Counted(Counted(t, a), b) == Counted(t, a + b)
  {
    hide Count, Total, Wrap;
    TotalConcat(a, b, Traded);
    WrapTwice(t.tradedQty, Total(a, Traded), Total(b, Traded));
    CountMore(t.events, a, b, AnyEvent);
    CountMore(t.accepted, a, b, OfKind(Accepted));
    CountMore(t.rejected, a, b, OfKind(Rejected));
    CountMore(t.unknownOrder, a, b, UNKNOWN);
    CountMore(t.invalid, a, b, INVALID);
    CountMore(t.poolExhausted, a, b, EXHAUSTED);
    CountMore(t.traded, a, b, OfKind(Traded));
    CountMore(t.canceled, a, b, OfKind(Canceled));
  }

  class EngineStats {
    var news: U64
    var cancelRequests: U64
    var events: U64
    var accepted: U64
    var rejected: U64
    var rejectedUnknownOrder: U64
    var rejectedInvalid: U64
    var rejectedPoolExhausted: U64
    var tradedEvents: U64
    var tradedQtyBothSides: U64
    var canceled: U64

    ghost function V(): Tally
      reads this
    {
      Tally(news, cancelRequests, events, accepted, rejected, rejectedUnknownOrder, rejectedInvalid,
            rejectedPoolExhausted, tradedEvents, tradedQtyBothSides, canceled)
    }

    constructor ()
      ensures V() == ZERO
    {
      news, cancelRequests, events, accepted, rejected := 0, 0, 0, 0, 0;
      rejectedUnknownOrder, rejectedInvalid, rejectedPoolExhausted := 0, 0, 0;
      tradedEvents, tradedQtyBothSides, canceled := 0, 0, 0;
    }

    method OnNew()
      modifies this`news
      ensures V() == old(V()).(news := Wrap(old(news) + 1))
    {
      news := Wrap(news + 1);
    }

    method OnCancelRequest()
      modifies this`cancelRequests
      ensures V() == old(V()).(cancelRequests := Wrap(old(cancelRequests) + 1))
    {
      cancelRequests := Wrap(cancelRequests + 1);
    }

    method OnEvent(e: Event)
      modifies this
      ensures V() == Counted(old(V()), [e])
    {
      hide Counted, Wrap;
      CountedOne(V(), e);
      events := Wrap(events + 1);
      match e.kind
      case Accepted =>
        accepted := Wrap(accepted + 1);
      case Rejected =>
        rejected := Wrap(rejected + 1);
        match e.reason {
          case UnknownOrder => rejectedUnknownOrder := Wrap(rejectedUnknownOrder + 1);
          case InvalidQty => rejectedInvalid := Wrap(rejectedInvalid + 1);
          case InvalidPrice => rejectedInvalid := Wrap(rejectedInvalid + 1);
          case PoolExhausted => rejectedPoolExhausted := Wrap(rejectedPoolExhausted + 1);
          case NoReason =>
        }
      case Traded =>
        tradedEvents := Wrap(tradedEvents + 1);
        tradedQtyBothSides := Wrap(tradedQtyBothSides + e.qty);
      case Canceled =>
        canceled := Wrap(canceled + 1);
    }

    method Reset()
      modifies this
      ensures V() == ZERO
    {
      news, cancelRequests, events, accepted, rejected := 0, 0, 0, 0, 0;
      rejectedUnknownOrder, rejectedInvalid, rejectedPoolExhausted := 0, 0, 0;
      tradedEvents, tradedQtyBothSides, canceled := 0, 0, 0;
    }
  }

  // ----- Identities at command boundaries, modulo the counters' width

  ghost predicate Congruent(a: nat, b: nat) {
    Wrap(a) == Wrap(b)
  }

  ghost predicate TallyOk(t: Tally) {
    && Congruent(t.events, t.accepted + t.rejected + t.traded + t.canceled)
    && Congruent(t.rejected, t.unknownOrder + t.invalid + t.poolExhausted)
    && Congruent(t.news, t.accepted + t.invalid + t.poolExhausted)
    && t.traded % 2 == 0 && t.tradedQty % 2 == 0
  }

  // How one command's events add up.
  ghost predicate CommandCounts(events: seq<Event>, isNew: bool) {
    && Count(events, AnyEvent) == Count(events, OfKind(Accepted)) + Count(events, OfKind(Rejected))
                                  + Count(events, OfKind(Traded)) + Count(events, OfKind(Canceled))
    && Count(events, OfKind(Rejected)) == Count(events, UNKNOWN) + Count(events, INVALID) + Count(events, EXHAUSTED)
    && (if isNew then 1 else 0)
       == Count(events, OfKind(Accepted)) + Count(events, INVALID) + Count(events, EXHAUSTED)
    && Count(events, OfKind(Traded)) % 2 == 0 && Total(events, Traded) % 2 == 0
  }

  lemma {:induction false} WrapEven(x: nat)
    requires x % 2 == 0
    ensures Wrap(x) % 2 == 0
  {
    if x >= TWO64 {
      WrapEven(x - TWO64);
    }
  }

  lemma WrapShift(x: nat, y: nat, d: nat)
    requires Wrap(x) == Wrap(y)
    ensures Wrap(x + d) == Wrap(y + d)
  {
    WrapDrop(x, d);
    WrapDrop(y, d);
  }

  // Wrapping the parts as they grow keeps the sum congruent to the whole.
  lemma SumGrows(whole: nat, a: nat, b: nat, c: nat, d: nat, da: nat, db: nat, dc: nat, dd: nat)
    requires Wrap(whole) == Wrap(a + b + c + d)
    ensures Wrap(Wrap(whole + (da + db + dc + dd)))
         == Wrap(Wrap(a + da) + Wrap(b + db) + Wrap(c + dc) + Wrap(d + dd))
  {
    hide Wrap;
    var a', b', c', d' := a + da, b + db, c + dc, d + dd;
    WrapShift(whole, a + b + c + d, da + db + dc + dd);
    WrapDrop(a', Wrap(b') + Wrap(c') + Wrap(d'));
    WrapDrop(b', a' + Wrap(c') + Wrap(d'));
    WrapDrop(c', a' + b' + Wrap(d'));
    WrapDrop(d', a' + b' + c');
    WrapDrop(whole + (da + db + dc + dd), 0);
  }

  lemma TallyStep(t: Tally, events: seq<Event>, isNew: bool)
    requires TallyOk(t) && CommandCounts(events, isNew)
    ensures TallyOk(Counted(if isNew then t.(news := Wrap(t.news + 1)) else t, events))
  {
    hide Count, Total, Wrap;
    var n := if isNew then 1 else 0;
    WrapEven(t.traded + Count(events, OfKind(Traded)));
    WrapEven(t.tradedQty + Total(events, Traded));
    SumGrows(t.events, t.accepted, t.rejected, t.traded, t.canceled,
             Count(events, OfKind(Accepted)), Count(events, OfKind(Rejected)),
             Count(events, OfKind(Traded)), Count(events, OfKind(Canceled)));
    SumGrows(t.rejected, t.unknownOrder, t.invalid, t.poolExhausted, 0,
             Count(events, UNKNOWN), Count(events, INVALID), Count(events, EXHAUSTED), 0);
    SumGrows(t.news, t.accepted, t.invalid, t.poolExhausted, 0,
             Count(events, OfKind(Accepted)), Count(events, INVALID), Count(events, EXHAUSTED), 0);
    WrapSmall();
    WrapFits(t.news);
  }

  lemma WrapSmall()
    ensures Wrap(0) == 0
  {
  }

  lemma ZeroOk(t: Tally)
    requires t == ZERO
    ensures TallyOk(t)
  {
    hide Wrap;
    assert t.traded % 2 == 0;
  }

  // ----- Every command adds up

  lemma {:induction false} CountAll(events: seq<Event>)
    ensures Count(events, AnyEvent) == Count(events, OfKind(Accepted)) + Count(events, OfKind(Rejected))
                                       + Count(events, OfKind(Traded)) + Count(events, OfKind(Canceled))
  {
    if events != [] {
      CountAll(events[1..]);
    }
  }

  lemma {:induction false} CountUniform(events: seq<Event>, kind: EventType)
    requires kind != Rejected && forall k :: 0 <= k < |events| ==> events[k].kind == kind
    ensures Count(events, OfKind(kind)) == |events|
    ensures forall c :: c != AnyEvent && c != OfKind(kind) ==> Count(events, c) == 0
  {
    if events != [] {
      CountUniform(events[1..], kind);
    }
  }

  lemma PlaceCounts(b: Book, id: OrderId, side: Side, otype: OrderType, price: Price, qty: Qty)
    requires SidesOk(b) && id != INVALID_ORDER_ID && qty > 0
    ensures CommandCounts(Place(b, id, side, otype, price, qty).events, true)
  {
    hide Sweep, Rested, LevelsOk, Count, Total;
    var events := Place(b, id, side, otype, price, qty).events;
    var s := Sweep(SideOf(b, Opposite(side)), side, SweepLimit(side, otype, price), qty, id);
    SweepTrades(SideOf(b, Opposite(side)), side, SweepLimit(side, otype, price), qty, id);
    SweepPairs(SideOf(b, Opposite(side)), side, SweepLimit(side, otype, price), qty, id);
    SweepTotal(SideOf(b, Opposite(side)), side, SweepLimit(side, otype, price), qty, id);
    CountAll(events);
    var first, last := [events[0]], events[1 + |s.events|..];
    assert events == first + s.events + last;
    CountUniform(first, Accepted);
    CountUniform(s.events, Traded);
    CountUniform(last, Canceled);
    OtherTotal(first, Traded);
    OtherTotal(last, Traded);
    TotalConcat(first + s.events, last, Traded);
    TotalConcat(first, s.events, Traded);
    forall c
      ensures Count(events, c) == Count(first, c) + Count(s.events, c) + Count(last, c)
    {
      CountConcat(first + s.events, last, c);
      CountConcat(first, s.events, c);
    }
  }

  lemma AddCounts(s: State, side: Side, otype: OrderType, price: Price, qty: Qty)
    requires StateOk(s)
    ensures CommandCounts(Add(s, side, otype, price, qty).events, true)
  {
    if Validate(otype, price, qty) == NoReason && s.pool.free != [] {
      PlaceCounts(s.book, NextId(s.pool), side, otype, price, qty);
    } else {
    }
  }

  lemma CancelCounts(b: Book, id: OrderId)
    ensures CommandCounts([CancelEvent(b, id)], false)
  {
    hide Count, Total;
    var e := CancelEvent(b, id);
    OneTotal(e, Traded);
    forall c
      ensures Count([e], c) == if Is(e, c) then 1 else 0
    {
      CountOne(e, c);
    }
  }
}
