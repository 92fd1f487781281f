/**
 The differential harness: drives the arena book and the reference book with the same
 script and records what each shows after every operation. For every script the two
 records are the same.
 */
module Differential {
  import opened Types
  import opened OrderPools
  import opened BookSpec
  import opened BookRuns
  import opened Ladders
  import opened BookRep
  import opened OrderBooks
  import opened NaiveBooks

  // The id handed to the reference when the arena book minted none.
  const DUMMY_ID: OrderId := 0x7FFF_FFFF * TWO32 + 0x7FFF_FFFF

  // What a caller sees of a book after an operation: its outcome, both bests, the
  // orders at the probed price on each side, the census and the probed id.
  datatype Seen = Seen(
    accepted: bool,
    events: seq<Event>,
    bid: Option<Price>,
    ask: Option<Price>,
    bidOrders: int,
    askOrders: int,
    open: int,
    held: bool)

  // The quantities a book reports at the probed price.
  datatype Depth = Depth(bid: U64, ask: U64)

  // What both books show after one step of a script.
  datatype Record = Record(fast: Seen, naive: Seen, fastDepth: Depth, naiveDepth: Depth)

  datatype Step = Step(op: Op, price: Price, id: OrderId)

  // An add-reject carries no id in the arena book and the caller's id in the reference.
  function Normalised(e: Event): Event {
    if e.kind == Rejected && e.id == DUMMY_ID then e.(id := INVALID_ORDER_ID) else e
  }

  method ShowFast(fast: OrderBook, accepted: bool, events: seq<Event>, step: Step) returns (seen: Seen)
    requires fast.Valid()
    ensures SeenOf(fast.BookV(), accepted, events, step, seen)
  {
    hide SidesInv, PoolInv, Abs, Open, Best;
    var bid := fast.BestOf(Buy);
    var ask := fast.BestOf(Sell);
    var bidOrders := fast.OrdersAt(Buy, step.price);
    var askOrders := fast.OrdersAt(Sell, step.price);
    var open := fast.OpenOrders();
    var held := fast.Contains(step.id);
    seen := Seen(accepted, events, bid, ask, bidOrders, askOrders, open, held);
  }

  method ShowNaive(naive: NaiveBook, accepted: bool, events: seq<Event>, step: Step) returns (seen: Seen)
    requires naive.Valid()
    ensures SeenOf(naive.BookV(), accepted, events, step, seen)
  {
    hide Open, Best;
    var bid := naive.BestOf(Buy);
    var ask := naive.BestOf(Sell);
    var bidOrders := naive.OrdersAt(Buy, step.price);
    var askOrders := naive.OrdersAt(Sell, step.price);
    var open := naive.OpenOrders();
    var held := naive.Contains(step.id);
    seen := Seen(accepted, events, bid, ask, bidOrders, askOrders, open, held);
  }

  ghost predicate SeenOf(b: Book, accepted: bool, events: seq<Event>, step: Step, seen: Seen) {
    && seen.accepted == accepted && seen.events == events
    && seen.bid == (if b.bids == map[] then None else Some(Best(Buy, b.bids)))
    && seen.ask == (if b.asks == map[] then None else Some(Best(Sell, b.asks)))
    && seen.bidOrders == |QueueAt(b.bids, step.price)|
    && seen.askOrders == |QueueAt(b.asks, step.price)|
    && (forall ids :: IsOpenSet(b, ids) ==> |ids| == seen.open)
    && (seen.held <==> Open(b, step.id))
  }

  // The book and the outcome determine everything seen.
  lemma SeenAlike(s: State, accepted: bool, a: Seen, b: Seen, step: Step)
    requires StateOk(s)
    requires SeenOf(s.book, accepted, a.events, step, a) && SeenOf(s.book, accepted, b.events, step, b)
    ensures b == a.(events := b.events)
  {
    var ids := LiveIds(s.pool);
    assert IsOpenSet(s.book, ids);
  }

  // ----- Quantities: the arena book's are exact, the reference sums a level into 32 bits

  ghost function TotalAt(b: Book, side: Side, price: Price): nat {
    QueueQty(QueueAt(SideOf(b, side), price))
  }

  ghost predicate DepthIs(b: Book, price: Price, depth: Depth) {
    depth.bid == TotalAt(b, Buy, price) && depth.ask == TotalAt(b, Sell, price)
  }

  // Both answers at a price, and exactly when comparing them succeeds.
  method QtyAt(fast: OrderBook, naive: NaiveBook, side: Side, price: Price) returns (arena: U64, reference: U64)
    requires fast.Valid() && naive.Valid() && naive.BookV() == fast.BookV()
    ensures arena == TotalAt(fast.BookV(), side, price)
    ensures reference == arena % TWO32
    ensures reference == arena <==> TotalAt(fast.BookV(), side, price) < TWO32
  {
    hide SidesInv, PoolInv, Abs, BookOk, NaiveBooks.IndexOk, QueueQty;
    arena := fast.QtyAt(side, price);
    reference := naive.QtyAt(side, price);
  }

  method ShowDepths(fast: OrderBook, naive: NaiveBook, price: Price) returns (arena: Depth, reference: Depth)
    requires fast.Valid() && naive.Valid() && naive.BookV() == fast.BookV()
    ensures DepthIs(fast.BookV(), price, arena)
    ensures DepthsAgree(arena, reference)
  {
    hide SidesInv, PoolInv, Abs, BookOk, NaiveBooks.IndexOk, QueueQty, TotalAt;
    var bid, bid' := QtyAt(fast, naive, Buy, price);
    var ask, ask' := QtyAt(fast, naive, Sell, price);
    arena, reference := Depth(bid, ask), Depth(bid', ask');
  }

  predicate DepthsAgree(arena: Depth, reference: Depth) {
    && reference.bid == arena.bid % TWO32 && (reference.bid == arena.bid <==> arena.bid < TWO32)
    && reference.ask == arena.ask % TWO32 && (reference.ask == arena.ask <==> arena.ask < TWO32)
  }

  // ----- Every script

  method RunBoth(anchor: Price, radius: U32, capacity: U32, script: seq<Step>)
    returns (records: seq<Record>)
    requires anchor > 0 && 1 <= radius <= MAX_RADIUS && anchor + radius + 1 <= INT64_MAX
    requires capacity <= MAX_CAPACITY
    ensures |records| == |script|
    ensures forall k :: 0 <= k < |script| ==> RecordOk(capacity, script, k, records[k])
  {
    hide StateOk, BookOk, Apply, EventsOf, Succeeds, SeenOf, RecordOk, DepthsAgree, Best, Run, SidesInv, PoolInv,
      NaiveBooks.IndexOk, StateAt, DepthIs, Exhausts;
    var fast := new OrderBook(anchor, radius, capacity);
    var naive := new NaiveBook();
    records := [];
    InitOk(capacity);
    RunNothing(capacity, script);
    var k := 0;
    while k < |script|
      invariant 0 <= k <= |script| && |records| == k
      invariant fast.Valid() && fresh(fast.Repr()) && naive.Valid() && fresh(naive)
      invariant fast.StateV() == StateAt(capacity, script, k) && naive.BookV() == fast.BookV()
      invariant forall j :: 0 <= j < k ==> RecordOk(capacity, script, j, records[j])
    {
      StateAtNext(capacity, script, k);
      var done, naiveDone, events, naiveEvents := StepBoth(fast, naive, script[k].op);
      var record := ShowBoth(fast, naive, done, naiveDone, events, naiveEvents, script[k]);
      RecordIsOk(capacity, script, k, record);
      records := records + [record];
      k := k + 1;
    }
  }

  method ShowBoth(fast: OrderBook, naive: NaiveBook, done: bool, naiveDone: bool, events: seq<Event>,
                  naiveEvents: seq<Event>, step: Step)
    returns (r: Record)
    requires fast.Valid() && naive.Valid() && naive.BookV() == fast.BookV() && done == naiveDone
    ensures SeenOf(fast.BookV(), done, events, step, r.fast)
    ensures r.fast.accepted == done && r.fast.events == events && r.naive == r.fast.(events := naiveEvents)
    ensures DepthIs(fast.BookV(), step.price, r.fastDepth) && DepthsAgree(r.fastDepth, r.naiveDepth)
  {
    hide StateOk, BookOk, Best, SidesInv, PoolInv, NaiveBooks.IndexOk, DepthIs, DepthsAgree;
    var a := ShowFast(fast, done, events, step);
    var b := ShowNaive(naive, naiveDone, naiveEvents, step);
    var c, d := ShowDepths(fast, naive, step.price);
    fast.HoldingMeansOk(NULL_IDX);
    SeenAlike(fast.StateV(), done, a, b, step);
    r := Record(a, b, c, d);
  }

  // One operation on both books, the reference fed the id the arena book minted.
  method StepBoth(fast: OrderBook, naive: NaiveBook, op: Op)
    returns (fastDone: bool, naiveDone: bool, fastEvents: seq<Event>, naiveEvents: seq<Event>)
    requires fast.Valid() && naive.Valid() && naive.BookV() == fast.BookV()
    requires naive !in fast.Repr()
    modifies fast.Repr(), naive
    ensures fast.Valid() && naive.Valid() && naive.BookV() == fast.BookV()
    ensures StateOk(old(fast.StateV())) && fast.StateV() == Apply(old(fast.StateV()), op)
    ensures fastDone == naiveDone
    ensures naiveEvents == if Exhausts(old(fast.StateV()), op) then [] else fastEvents
    ensures fastDone <==> Succeeds(old(fast.StateV()), op)
    ensures fastEvents == EventsOf(old(fast.StateV()), op)
  {
    hide StateOk, BookOk, Place, Open, SidesInv, PoolInv, NaiveBooks.IndexOk;
    match op
    case OpAdd(side, otype, price, qty) =>
      fastDone, naiveDone, fastEvents, naiveEvents := AddBoth(fast, naive, side, otype, price, qty);
    case OpAddLimit(side, price, qty) =>
      fastDone, naiveDone := AddLimitBoth(fast, naive, side, price, qty);
      fastEvents, naiveEvents := [], [];
    case OpCancel(id) =>
      fast.HoldingMeansOk(NULL_IDX);
      var e, f;
      fastDone, e := fast.Cancel(id);
      naiveDone, f := naive.Cancel(id);
      fastEvents, naiveEvents := [e], [f];
  }

  method AddBoth(fast: OrderBook, naive: NaiveBook, side: Side, otype: OrderType, price: Price, qty: Qty)
    returns (fastDone: bool, naiveDone: bool, fastEvents: seq<Event>, naiveEvents: seq<Event>)
    requires fast.Valid() && naive.Valid() && naive.BookV() == fast.BookV()
    requires naive !in fast.Repr()
    modifies fast.Repr(), naive
    ensures fast.Valid() && naive.Valid() && naive.BookV() == fast.BookV()
    ensures StateOk(old(fast.StateV()))
    ensures fast.StateV() == Add(old(fast.StateV()), side, otype, price, qty).state
    ensures fastDone == naiveDone
    ensures naiveEvents == if Exhausts(old(fast.StateV()), OpAdd(side, otype, price, qty)) then [] else fastEvents
    ensures fastDone <==> Add(old(fast.StateV()), side, otype, price, qty).id != INVALID_ORDER_ID
    ensures fastEvents == Add(old(fast.StateV()), side, otype, price, qty).events
  {
    hide StateOk, BookOk, Place, Open, SidesInv, PoolInv, NaiveBooks.IndexOk;
    fast.HoldingMeansOk(NULL_IDX);
    ghost var s := fast.StateV();
    StateSides(s);
    var id;
    id, fastEvents := fast.Add(side, otype, price, qty);
    fastDone := id != INVALID_ORDER_ID;
    naiveDone := false;
    if fastDone {
      naiveDone, naiveEvents := naive.Add(id, side, otype, price, qty);
    } else if fastEvents[0].reason == PoolExhausted {
      // A full pool rejects before matching, which the reference cannot express: it is
      // not asked.
      naiveEvents := [];
    } else {
      naiveDone, naiveEvents := naive.Add(DUMMY_ID, side, otype, price, qty);
      naiveEvents := [Normalised(naiveEvents[0])];
    }
  }

  method AddLimitBoth(fast: OrderBook, naive: NaiveBook, side: Side, price: Price, qty: Qty)
    returns (fastDone: bool, naiveDone: bool)
    requires fast.Valid() && naive.Valid() && naive.BookV() == fast.BookV()
    requires naive !in fast.Repr()
    modifies fast.Repr(), naive
    ensures fast.Valid() && naive.Valid() && naive.BookV() == fast.BookV()
    ensures StateOk(old(fast.StateV()))
    ensures fast.StateV() == AddLimit(old(fast.StateV()), side, price, qty).state
    ensures fastDone == naiveDone
    ensures fastDone <==> AddLimit(old(fast.StateV()), side, price, qty).id != INVALID_ORDER_ID
  {
    hide StateOk, BookOk, Rested, Open, SidesInv, PoolInv, NaiveBooks.IndexOk;
    fast.HoldingMeansOk(NULL_IDX);
    ghost var s := fast.StateV();
    StateSides(s);
    var id := fast.AddLimit(side, price, qty);
    fastDone := id != INVALID_ORDER_ID;
    naiveDone := false;
    var ignored;
    if fastDone {
      naiveDone, ignored := naive.AddLimit(id, side, price, qty);
    } else if qty == 0 || price <= 0 {
      naiveDone, ignored := naive.AddLimit(DUMMY_ID, side, price, qty);
    }
  }

  // ----- The script as a run of the spec

  function OpsOf(script: seq<Step>): (r: seq<Op>)
    ensures |r| == |script|
  {
    seq(|script|, k requires 0 <= k < |script| => script[k].op)
  }

  ghost function StateAt(capacity: U32, script: seq<Step>, k: int): State
    requires capacity <= MAX_CAPACITY && 0 <= k <= |script|
  {
    InitOk(capacity);
    Run(InitState(capacity), OpsOf(script)[..k])
  }

  ghost predicate Succeeds(s: State, op: Op)
    requires StateOk(s)
  {
    match op
    case OpAdd(side, otype, price, qty) => Add(s, side, otype, price, qty).id != INVALID_ORDER_ID
    case OpAddLimit(side, price, qty) => AddLimit(s, side, price, qty).id != INVALID_ORDER_ID
    case OpCancel(id) => Open(s.book, id)
  }

  // A valid order that finds no free slot.
  predicate Exhausts(s: State, op: Op) {
    s.pool.free == [] &&
    match op
    case OpAdd(_, otype, price, qty) => Validate(otype, price, qty) == NoReason
    case OpAddLimit(_, price, qty) => Validate(Limit, price, qty) == NoReason
    case OpCancel(_) => false
  }

  // The arena book shows the specified run, exact quantities included. The reference
  // shows the same, with the quantities modulo 2^32, except that it is silent where the
  // arena book, its pool full, answers with its one reject and leaves the book alone.
  ghost predicate RecordOk(capacity: U32, script: seq<Step>, k: int, r: Record)
    requires capacity <= MAX_CAPACITY && 0 <= k < |script|
  {
    InitOk(capacity);
    var s, t, op := StateAt(capacity, script, k), StateAt(capacity, script, k + 1), script[k].op;
    && (r.fast.accepted <==> Succeeds(s, op))
    && SeenOf(t.book, r.fast.accepted, EventsOf(s, op), script[k], r.fast)
    && r.naive == (if Exhausts(s, op) then r.fast.(events := []) else r.fast)
    && DepthIs(t.book, script[k].price, r.fastDepth) && DepthsAgree(r.fastDepth, r.naiveDepth)
  }

  lemma RecordIsOk(capacity: U32, script: seq<Step>, k: int, r: Record)
    requires capacity <= MAX_CAPACITY && 0 <= k < |script| && StateOk(StateAt(capacity, script, k))
    requires r.fast.accepted <==> Succeeds(StateAt(capacity, script, k), script[k].op)
    requires SeenOf(StateAt(capacity, script, k + 1).book, r.fast.accepted,
                    EventsOf(StateAt(capacity, script, k), script[k].op), script[k], r.fast)
    requires r.naive ==
      r.fast.(events := if Exhausts(StateAt(capacity, script, k), script[k].op) then [] else r.fast.events)
    requires DepthIs(StateAt(capacity, script, k + 1).book, script[k].price, r.fastDepth)
    requires DepthsAgree(r.fastDepth, r.naiveDepth)
    ensures RecordOk(capacity, script, k, r)
  {
  }

  // An exhausted pool: one reject, nothing changed.
  lemma ExhaustedAddRejects(s: State, side: Side, otype: OrderType, price: Price, qty: Qty)
    requires StateOk(s) && Exhausts(s, OpAdd(side, otype, price, qty))
    ensures Apply(s, OpAdd(side, otype, price, qty)) == s
    ensures EventsOf(s, OpAdd(side, otype, price, qty)) == [Reject(side, PoolExhausted, qty, price, INVALID_ORDER_ID)]
  {
    StateSides(s);
  }

  lemma RunNothing(capacity: U32, script: seq<Step>)
    requires capacity <= MAX_CAPACITY
    ensures StateAt(capacity, script, 0) == InitState(capacity)
  {
  }

  lemma StateAtNext(capacity: U32, script: seq<Step>, k: int)
    requires capacity <= MAX_CAPACITY && 0 <= k < |script|
    ensures StateOk(StateAt(capacity, script, k))
    ensures StateAt(capacity, script, k + 1) == Apply(StateAt(capacity, script, k), script[k].op)
  {
    InitOk(capacity);
    var ops := OpsOf(script);
    assert ops[..k + 1] == ops[..k] + [script[k].op];
    RunSnoc(InitState(capacity), ops[..k], script[k].op);
  }

  // ----- The disagreement happens

  // With nothing on the other side a limit order rests whole.
  lemma RestsWhole(s: State, price: Price, qty: Qty)
    requires StateOk(s) && s.book.asks == map[] && s.pool.free != [] && price > 0 && qty > 0
    ensures SidesOk(s.book) && PoolOk(s.pool)
    ensures Apply(s, OpAdd(Buy, Limit, price, qty)) ==
      State(Taken(s.pool), Rested(s.book, Resting(NextId(s.pool), price, qty, qty, Buy)))
  {
    hide Best, IsBest;
    var id := NextId(s.pool);
    assert Sweep(s.book.asks, Buy, price, qty, id) == Swept(s.book.asks, qty, [], []);
    assert WithSide(s.book, Sell, s.book.asks) == s.book;
  }

  lemma TwoFullBuys(ops: seq<Op>)
    requires ops == [OpAdd(Buy, Limit, 1, UINT32_MAX), OpAdd(Buy, Limit, 1, UINT32_MAX)]
    ensures StateOk(InitState(2)) && TotalAt(Run(InitState(2), ops).book, Buy, 1) == 2 * UINT32_MAX
  {
    hide Add, StateOk, Sweep;
    var op := ops[0];
    InitOk(2);
    var s := InitState(2);
    assert s.pool.free == [0, 1];
    RestsWhole(s, 1, UINT32_MAX);
    var t := Apply(s, op);
    ApplyOk(s, op);
    assert t.book.asks == map[] && |t.pool.free| == 1;
    RestsWhole(t, 1, UINT32_MAX);
    var u := Apply(t, op);
    ApplyOk(t, op);
    assert ops[1..] == [op] && [op][1..] == [];
    assert Run(s, ops) == Run(t, [op]) == Run(u, []) == u;
    var q := u.book.bids[1];
    assert q[0].remaining == UINT32_MAX && q[1].remaining == UINT32_MAX && |q| == 2;
    assert QueueQty(q[1..][1..]) == 0;
    assert QueueQty(q[1..]) == q[1].remaining;
  }

  // After two full-size buys at one price the two books answer differently.
  method QtyCanDisagree() returns (arena: U64, reference: U64)
    ensures arena == 2 * UINT32_MAX && reference == UINT32_MAX - 1
  {
    hide TotalAt, SeenOf, Run, EventsOf, Succeeds;
    var buy := Step(OpAdd(Buy, Limit, 1, UINT32_MAX), 1, INVALID_ORDER_ID);
    var script := [buy, buy];
    var records := RunBoth(1, 1, 2, script);
    arena, reference := records[1].fastDepth.bid, records[1].naiveDepth.bid;
    assert RecordOk(2, script, 1, records[1]);
    assert OpsOf(script)[..2] == [buy.op, buy.op];
    TwoFullBuys(OpsOf(script)[..2]);
  }
}
