/**
 When an id names one order only. A slot's generations run from 1 to 2^32 - 1 and
 start over, so ids recur exactly after a slot has been minted that many times.
 */
module Identity {
  import opened Types
  import opened Seqs
  import opened OrderPools
  import opened BookSpec
  import opened BookRuns
  import opened Conservation
  import opened Lifecycle

  // ----- The ids a run accepted, in order

  ghost function AcceptedIds(events: seq<Event>): seq<OrderId> {
    if events == [] then []
    else (if events[0].kind == Accepted then [events[0].id] else []) + AcceptedIds(events[1..])
  }

  lemma {:induction false} AcceptedConcat(a: seq<Event>, b: seq<Event>)
    ensures AcceptedIds(a + b) == AcceptedIds(a) + AcceptedIds(b)
  {
    if a == [] {
      assert a + b == b;
    } else {
      assert (a + b)[1..] == a[1..] + b && (a + b)[0] == a[0];
      AcceptedConcat(a[1..], b);
      var first := if a[0].kind == Accepted then [a[0].id] else [];
      assert first + (AcceptedIds(a[1..]) + AcceptedIds(b)) == first + AcceptedIds(a[1..]) + AcceptedIds(b);
    }
  }

  lemma {:induction false} NoneAccepted(events: seq<Event>)
    requires forall k :: 0 <= k < |events| ==> events[k].kind != Accepted
    ensures AcceptedIds(events) == []
  {
    if events != [] {
      NoneAccepted(events[1..]);
    }
  }

  // How often slot i appears among the minted ids.
  ghost function SlotCount(log: seq<OrderId>, i: int): nat {
    if log == [] then 0
    else SlotCount(log[..|log| - 1], i) + (if IndexOf(log[|log| - 1]) == i then 1 else 0)
  }

  // The generation after m mints of a slot.
  function GenAfter(m: nat): U32 {
    if m == 0 then 0 else (m - 1) % GENERATIONS + 1
  }

  lemma BumpNext(m: nat)
    ensures Bump(GenAfter(m)) == GenAfter(m + 1)
  {
  }

  ghost predicate LogOk(log: seq<OrderId>) {
    forall k :: 0 <= k < |log| ==>
      log[k] == MakeOrderId(GenAfter(SlotCount(log[..k], IndexOf(log[k])) + 1), IndexOf(log[k]))
  }

  // The pool's generations are those of a slot-by-slot count of the ids handed out.
  ghost predicate MintedBy(p: Pool, log: seq<OrderId>) {
    LogOk(log) && forall i :: 0 <= i < |p.gens| ==> p.gens[i] == GenAfter(SlotCount(log, i))
  }

  lemma LogSnoc(log: seq<OrderId>, id: OrderId)
    requires LogOk(log) && id == MakeOrderId(GenAfter(SlotCount(log, IndexOf(id)) + 1), IndexOf(id))
    ensures LogOk(log + [id])
  {
    hide SlotCount;
    var longer := log + [id];
    assert longer[..|log|] == log;
    forall k | 0 <= k < |longer|
      ensures longer[k] == MakeOrderId(GenAfter(SlotCount(longer[..k], IndexOf(longer[k])) + 1), IndexOf(longer[k]))
    {
      if k < |log| {
        assert longer[..k] == log[..k];
      }
    }
  }

  lemma SlotCountSnoc(log: seq<OrderId>, id: OrderId, i: int)
    ensures SlotCount(log + [id], i) == SlotCount(log, i) + (if IndexOf(id) == i then 1 else 0)
  {
    assert (log + [id])[..|log|] == log;
  }

  lemma MintOne(p: Pool, log: seq<OrderId>)
    requires PoolOk(p) && p.free != [] && MintedBy(p, log)
    ensures MintedBy(Taken(p), log + [NextId(p)])
  {
    hide SlotCount, LogOk, GenAfter, NoDup;
    var id := NextId(p);
    BumpNext(SlotCount(log, IndexOf(id)));
    LogSnoc(log, id);
    forall i | 0 <= i < |p.gens|
      ensures Taken(p).gens[i] == GenAfter(SlotCount(log + [id], i))
    {
      SlotCountSnoc(log, id, i);
    }
  }

  lemma OneAccepted(e: Event)
    ensures AcceptedIds([e]) == if e.kind == Accepted then [e.id] else []
  {
    assert [e][1..] == [];
    assert AcceptedIds([e][1..]) == [];
  }

  // Placing an order accepts that order and no other.
  lemma PlaceAccepts(b: Book, id: OrderId, side: Side, otype: OrderType, price: Price, qty: Qty)
    requires SidesOk(b) && id != INVALID_ORDER_ID && qty > 0
    ensures AcceptedIds(Place(b, id, side, otype, price, qty).events) == [id]
  {
    hide AcceptedIds, Sweep, LevelsOk, Rested;
    var events := Place(b, id, side, otype, price, qty).events;
    SweepTrades(SideOf(b, Opposite(side)), side, SweepLimit(side, otype, price), qty, id);
    assert forall k :: 1 <= k < |events| ==> events[k].kind != Accepted;
    NoneAccepted(events[1..]);
    OneAccepted(events[0]);
    assert events == [events[0]] + events[1..];
    AcceptedConcat([events[0]], events[1..]);
  }

  // ----- Runs of the pool itself

  datatype PoolOp = Alloc | Free(slot: int)

  // free demands a slot that is live; a call that breaks this is not part of a run.
  predicate CanFree(p: Pool, slot: int) {
    0 <= slot < |p.gens| && slot !in p.free
  }

  ghost function PoolStep(p: Pool, op: PoolOp): Pool
    requires PoolOk(p)
  {
    match op
    case Alloc => if p.free == [] then p else Taken(p)
    case Free(slot) => if CanFree(p, slot) then Released(p, slot) else p
  }

  ghost function HandedOut(p: Pool, op: PoolOp): seq<OrderId>
    requires PoolOk(p)
  {
    if op.Alloc? && p.free != [] then [NextId(p)] else []
  }

  lemma PoolStepOk(p: Pool, op: PoolOp)
    requires PoolOk(p)
    ensures PoolOk(PoolStep(p, op))
  {
    match op
    case Alloc =>
      if p.free != [] {
        TakenIsFresh(p);
      }
    case Free(slot) =>
      if CanFree(p, slot) {
        ReleasedDropsOne(p, MakeOrderId(p.gens[slot], slot));
      }
  }

  ghost function PoolRun(p: Pool, ops: seq<PoolOp>): (r: Pool)
    requires PoolOk(p)
    ensures PoolOk(r)
    decreases |ops|
  {
    if ops == [] then p else PoolStepOk(p, ops[0]); PoolRun(PoolStep(p, ops[0]), ops[1..])
  }

  ghost function PoolMints(p: Pool, ops: seq<PoolOp>): seq<OrderId>
    requires PoolOk(p)
    decreases |ops|
  {
    if ops == [] then []
    else PoolStepOk(p, ops[0]); HandedOut(p, ops[0]) + PoolMints(PoolStep(p, ops[0]), ops[1..])
  }

  // Every run of alloc and free keeps the log's form.
  lemma {:induction false} PoolRunMints(p: Pool, ops: seq<PoolOp>, log: seq<OrderId>)
    requires PoolOk(p) && MintedBy(p, log)
    ensures MintedBy(PoolRun(p, ops), log + PoolMints(p, ops))
    decreases |ops|
  {
    hide PoolOk, LogOk, SlotCount, Taken, NextId;
    AppendNothing(log);
    if ops != [] {
      var now := HandedOut(p, ops[0]);
      PoolStepOk(p, ops[0]);
      if ops[0].Alloc? && p.free != [] {
        MintOne(p, log);
      }
      PoolRunMints(PoolStep(p, ops[0]), ops[1..], log + now);
      var later := PoolMints(PoolStep(p, ops[0]), ops[1..]);
      assert log + now + later == log + (now + later);
    }
  }

  // ----- Runs of the book are runs of its pool

  // The id an operation mints, if any; add_limit mints one without an event.
  ghost function MintedIn(s: State, op: Op): seq<OrderId>
    requires StateOk(s)
  {
    var id :=
      match op
      case OpAdd(side, otype, price, qty) => Add(s, side, otype, price, qty).id
      case OpAddLimit(side, price, qty) => AddLimit(s, side, price, qty).id
      case OpCancel(_) => INVALID_ORDER_ID;
    if id == INVALID_ORDER_ID then [] else [id]
  }

  ghost function RunMinted(s: State, ops: seq<Op>): seq<OrderId>
    requires StateOk(s)
    decreases |ops|
  {
    if ops == [] then [] else ApplyOk(s, ops[0]); MintedIn(s, ops[0]) + RunMinted(Apply(s, ops[0]), ops[1..])
  }

  function Frees(ids: seq<OrderId>): seq<PoolOp> {
    seq(|ids|, k requires 0 <= k < |ids| => Free(IndexOf(ids[k])))
  }

  // What an operation asks of the pool: a slot for a new order, and back the slots of
  // the orders it closes.
  ghost function PoolOpsOf(s: State, op: Op): seq<PoolOp>
    requires StateOk(s)
  {
    match op
    case OpAdd(side, otype, price, qty) =>
      if Validate(otype, price, qty) != NoReason then []
      else [Alloc] + (if s.pool.free == [] then [] else Frees(Freed(s, side, otype, price, qty)))
    case OpAddLimit(_, price, qty) => if Validate(Limit, price, qty) != NoReason then [] else [Alloc]
    case OpCancel(id) => if Open(s.book, id) then [Free(IndexOf(id))] else []
  }

  lemma {:induction false} FreesRelease(p: Pool, ids: seq<OrderId>)
    requires PoolOk(p) && NoDup(ids) && forall id :: id in ids ==> Live(p, id)
    ensures PoolRun(p, Frees(ids)) == ReleasedAll(p, ids) && PoolMints(p, Frees(ids)) == []
    decreases |ids|
  {
    hide PoolOk;
    if ids != [] {
      var ops := Frees(ids);
      ReleasedDropsOne(p, ids[0]);
      assert ops[0] == Free(IndexOf(ids[0])) && ops[1..] == Frees(ids[1..]);
      FreesRelease(Released(p, IndexOf(ids[0])), ids[1..]);
    }
  }

  lemma OnePoolOp(p: Pool, op: PoolOp, rest: seq<PoolOp>)
    requires PoolOk(p)
    ensures PoolOk(PoolStep(p, op))
    ensures PoolRun(p, [op] + rest) == PoolRun(PoolStep(p, op), rest)
    ensures PoolMints(p, [op] + rest) == HandedOut(p, op) + PoolMints(PoolStep(p, op), rest)
  {
    PoolStepOk(p, op);
    assert ([op] + rest)[1..] == rest;
  }

  lemma AddIsPoolRun(s: State, side: Side, otype: OrderType, price: Price, qty: Qty)
    requires StateOk(s) && Validate(otype, price, qty) == NoReason && s.pool.free != []
    ensures var op := OpAdd(side, otype, price, qty);
            && PoolRun(s.pool, PoolOpsOf(s, op)) == Apply(s, op).pool
            && PoolMints(s.pool, PoolOpsOf(s, op)) == MintedIn(s, op)
  {
    hide PoolOk, BookOk, Place, Taken, NextId, Open, Live, NoDup, PoolRun, PoolMints;
    var id := NextId(s.pool);
    StateSides(s);
    TakenIsFresh(s.pool);
    FreedAreLive(s, side, otype, price, qty);
    var freed := Freed(s, side, otype, price, qty);
    OnePoolOp(s.pool, Alloc, Frees(freed));
    FreesRelease(Taken(s.pool), freed);
  }

  lemma ApplyIsPoolRun(s: State, op: Op)
    requires StateOk(s)
    ensures PoolRun(s.pool, PoolOpsOf(s, op)) == Apply(s, op).pool
    ensures PoolMints(s.pool, PoolOpsOf(s, op)) == MintedIn(s, op)
  {
    hide PoolOk, BookOk, Place, Taken, NextId, Open, Freed;
    StateSides(s);
    match op
    case OpAdd(side, otype, price, qty) =>
      OnePoolOp(s.pool, Alloc, []);
      if Validate(otype, price, qty) == NoReason && s.pool.free != [] {
        AddIsPoolRun(s, side, otype, price, qty);
      }
    case OpAddLimit(_, _, _) =>
      OnePoolOp(s.pool, Alloc, []);
      if s.pool.free != [] {
        TakenIsFresh(s.pool);
      }
    case OpCancel(id) =>
      OnePoolOp(s.pool, Free(IndexOf(id)), []);
  }

  // So every run of the book, add_limit included, keeps the log's form too.
  lemma {:induction false} RunMints(s: State, ops: seq<Op>, log: seq<OrderId>)
    requires StateOk(s) && MintedBy(s.pool, log)
    ensures MintedBy(Run(s, ops).pool, log + RunMinted(s, ops))
    decreases |ops|
  {
    hide MintedBy, StateOk, Apply, PoolRun, PoolMints, PoolOpsOf, MintedIn;
    AppendNothing(log);
    if ops != [] {
      ApplyOk(s, ops[0]);
      StateSides(s);
      ApplyIsPoolRun(s, ops[0]);
      PoolRunMints(s.pool, PoolOpsOf(s, ops[0]), log);
      var now, next := MintedIn(s, ops[0]), Apply(s, ops[0]);
      RunMints(next, ops[1..], log + now);
      assert log + (now + RunMinted(next, ops[1..])) == log + now + RunMinted(next, ops[1..]);
    }
  }

  // Without add_limit, the ids minted are those the Accepted events carry.
  lemma AcceptedAreMinted(s: State, op: Op)
    requires StateOk(s) && !op.OpAddLimit?
    ensures AcceptedIds(EventsOf(s, op)) == MintedIn(s, op)
  {
    hide AcceptedIds, Place, Taken, NextId, BookOk, Open, Live;
    StateSides(s);
    match op
    case OpAdd(side, otype, price, qty) =>
      if Validate(otype, price, qty) == NoReason && s.pool.free != [] {
        TakenIsFresh(s.pool);
        PlaceAccepts(s.book, NextId(s.pool), side, otype, price, qty);
      } else {
        NoneAccepted(EventsOf(s, op));
      }
    case OpCancel(_) => NoneAccepted(EventsOf(s, op));
  }

  lemma {:induction false} RunAccepted(s: State, ops: seq<Op>)
    requires StateOk(s)
    requires forall k :: 0 <= k < |ops| ==> !ops[k].OpAddLimit?
    ensures AcceptedIds(Events(s, ops)) == RunMinted(s, ops)
    decreases |ops|
  {
    hide AcceptedIds, StateOk, Apply, EventsOf, MintedIn;
    if ops == [] {
      NoneAccepted([]);
    } else {
      ApplyOk(s, ops[0]);
      AcceptedAreMinted(s, ops[0]);
      var next := Apply(s, ops[0]);
      RunAccepted(next, ops[1..]);
      AcceptedConcat(EventsOf(s, ops[0]), Events(next, ops[1..]));
    }
  }

  // ----- Two mints of one slot

  lemma SameGeneration(a: nat, b: nat)
    ensures GenAfter(a + 1) == GenAfter(b + 1) <==> (a - b) % GENERATIONS == 0
  {
    var g := GENERATIONS;
    assert a == g * (a / g) + a % g && b == g * (b / g) + b % g;
    if a % g == b % g {
      assert a - b == g * (a / g - b / g);
    }
    if (a - b) % g == 0 {
      assert a - b == g * ((a - b) / g);
      assert a % g - b % g == g * ((a - b) / g - a / g + b / g);
    }
  }

  // Two mints of a slot give equal ids iff their counts differ by a multiple of 2^32 - 1.
  lemma MintsEqualIff(log: seq<OrderId>, j: nat, k: nat)
    requires LogOk(log) && j < |log| && k < |log| && IndexOf(log[j]) == IndexOf(log[k])
    ensures log[j] == log[k] <==>
      (SlotCount(log[..j], IndexOf(log[k])) - SlotCount(log[..k], IndexOf(log[k]))) % GENERATIONS == 0
  {
    var i := IndexOf(log[k]);
    SameGeneration(SlotCount(log[..j], i), SlotCount(log[..k], i));
    IdRoundTrip(log[j]);
    IdRoundTrip(log[k]);
  }

  lemma {:induction false} SlotCountGrows(log: seq<OrderId>, i: int, k: nat)
    requires k <= |log|
    ensures SlotCount(log[..k], i) <= SlotCount(log, i)
    ensures k < |log| && IndexOf(log[k]) == i ==> SlotCount(log[..k], i) < SlotCount(log, i)
  {
    var n := |log|;
    if k == n {
      assert log[..k] == log;
    } else {
      assert log[..n - 1][..k] == log[..k];
      if k < n - 1 {
        assert log[..n - 1][k] == log[k];
      }
      SlotCountGrows(log[..n - 1], i, k);
    }
  }

  lemma {:induction false} NthMint(log: seq<OrderId>, i: int, n: nat) returns (k: nat)
    requires n < SlotCount(log, i)
    ensures k < |log| && IndexOf(log[k]) == i && SlotCount(log[..k], i) == n
  {
    var m := |log| - 1;
    if n < SlotCount(log[..m], i) {
      k := NthMint(log[..m], i, n);
      assert log[..m][..k] == log[..k];
    } else {
      k := m;
    }
  }

  // No slot went through all its generations and started over.
  ghost predicate GenerationsFresh(log: seq<OrderId>) {
    forall i: int :: SlotCount(log, i) <= GENERATIONS
  }

  lemma DistinctBounds(log: seq<OrderId>)
    requires LogOk(log) && NoDup(log)
    ensures GenerationsFresh(log)
  {
    forall i: int
      ensures SlotCount(log, i) <= GENERATIONS
    {
      if SlotCount(log, i) > GENERATIONS {
        var j := NthMint(log, i, 0);
        var k := NthMint(log, i, GENERATIONS);
        MintsEqualIff(log, j, k);
        assert false;
      }
    }
  }

  lemma FreshApart(log: seq<OrderId>, j: nat, k: nat)
    requires LogOk(log) && j < k < |log| && GenerationsFresh(log)
    ensures log[j] != log[k]
  {
    hide LogOk;
    var i := IndexOf(log[k]);
    if IndexOf(log[j]) == i {
      MintsEqualIff(log, k, j);
      PrefixPrefix(log, j, k);
      SlotCountGrows(log[..k], i, j);
      SlotCountGrows(log, i, k);
      var d := SlotCount(log[..k], i) - SlotCount(log[..j], i);
      assert SlotCount(log, i) <= GENERATIONS;
    }
  }

  lemma PrefixPrefix(log: seq<OrderId>, j: nat, k: nat)
    requires j < k < |log|
    ensures log[..k][..j] == log[..j] && log[..k][j] == log[j]
  {
  }

  // Ids are never reused iff no slot is minted more than 2^32 - 1 times.
  lemma DistinctIff(log: seq<OrderId>)
    requires LogOk(log)
    ensures NoDup(log) <==> GenerationsFresh(log)
  {
    hide LogOk, GenerationsFresh;
    if NoDup(log) {
      DistinctBounds(log);
    }
    if GenerationsFresh(log) {
      forall j, k | 0 <= j < k < |log|
        ensures log[j] != log[k]
      {
        FreshApart(log, j, k);
      }
    }
  }

  // ----- The laws over runs of alloc and free, and over runs of the book

  lemma FreshPool(capacity: nat)
    requires capacity <= MAX_CAPACITY
    ensures PoolOk(EmptyPool(capacity)) && MintedBy(EmptyPool(capacity), [])
  {
    EmptyPoolOk(capacity);
  }

  // Over any alloc/free run: two mints of a slot give equal ids iff their mint counts
  // differ by a multiple of 2^32 - 1, and all ids differ iff no slot was minted more often.
  lemma PoolIdsRecurIff(capacity: nat, ops: seq<PoolOp>)
    requires capacity <= MAX_CAPACITY
    ensures PoolOk(EmptyPool(capacity))
    ensures var log := PoolMints(EmptyPool(capacity), ops);
            && (NoDup(log) <==> GenerationsFresh(log))
            && forall j, k :: 0 <= j < |log| && 0 <= k < |log| && IndexOf(log[j]) == IndexOf(log[k]) ==>
                 (log[j] == log[k] <==> RecursAfter(log, j, k))
  {
    hide PoolOk, PoolRun, PoolMints, LogOk, NoDup, GenerationsFresh, RecursAfter;
    FreshPool(capacity);
    PoolRunMints(EmptyPool(capacity), ops, []);
    LogLaws([] + PoolMints(EmptyPool(capacity), ops));
    assert [] + PoolMints(EmptyPool(capacity), ops) == PoolMints(EmptyPool(capacity), ops);
  }

  // The same over any run of the book.
  lemma BookIdsRecurIff(capacity: U32, ops: seq<Op>)
    requires capacity <= MAX_CAPACITY
    ensures StateOk(InitState(capacity))
    ensures var log := RunMinted(InitState(capacity), ops);
            && (NoDup(log) <==> GenerationsFresh(log))
            && forall j, k :: 0 <= j < |log| && 0 <= k < |log| && IndexOf(log[j]) == IndexOf(log[k]) ==>
                 (log[j] == log[k] <==> RecursAfter(log, j, k))
  {
    hide StateOk, PoolOk, Run, RunMinted, LogOk, NoDup, GenerationsFresh, RecursAfter;
    InitOk(capacity);
    FreshPool(capacity);
    RunMints(InitState(capacity), ops, []);
    LogLaws([] + RunMinted(InitState(capacity), ops));
    assert [] + RunMinted(InitState(capacity), ops) == RunMinted(InitState(capacity), ops);
  }

  // The j-th and the k-th id of the log are a multiple of 2^32 - 1 mints of k's slot apart.
  ghost predicate RecursAfter(log: seq<OrderId>, j: nat, k: nat)
    requires j < |log| && k < |log|
  {
    var i := IndexOf(log[k]);
    (SlotCount(log[..j], i) - SlotCount(log[..k], i)) % GENERATIONS == 0
  }

  lemma LogLaws(log: seq<OrderId>)
    requires LogOk(log)
    ensures NoDup(log) <==> GenerationsFresh(log)
    ensures forall j, k :: 0 <= j < |log| && 0 <= k < |log| && IndexOf(log[j]) == IndexOf(log[k]) ==>
              (log[j] == log[k] <==> RecursAfter(log, j, k))
  {
    hide LogOk, NoDup, GenerationsFresh;
    DistinctIff(log);
    forall j, k | 0 <= j < |log| && 0 <= k < |log| && IndexOf(log[j]) == IndexOf(log[k])
      ensures log[j] == log[k] <==> RecursAfter(log, j, k)
    {
      MintsEqualIff(log, j, k);
    }
  }

  // What a caller can check before an add, by counting mints per slot: the next id is
  // one already handed out iff the slot at the front has used up its generations.
  lemma NextRecursIff(p: Pool, log: seq<OrderId>)
    requires PoolOk(p) && p.free != [] && MintedBy(p, log)
    ensures NextId(p) in log <==> SlotCount(log, p.free[0]) >= GENERATIONS
  {
    hide LogOk, SlotCount, GenAfter, NoDup;
    var id, n, i := NextId(p), |log|, p.free[0];
    var longer := log + [id];
    MintOne(p, log);
    assert longer[..n] == log;
    if id in log {
      var j :| 0 <= j < n && log[j] == id;
      MintsEqualIff(longer, n, j);
      assert longer[..j] == log[..j];
      SlotCountGrows(log, i, j);
      SmallMultiple(SlotCount(log, i) - SlotCount(log[..j], i));
    }
    if SlotCount(log, i) >= GENERATIONS {
      var j := NthMint(log, i, SlotCount(log, i) - GENERATIONS);
      MintsEqualIff(longer, n, j);
      assert longer[..j] == log[..j] && longer[j] == log[j];
    }
  }

  lemma SmallMultiple(d: nat)
    requires d > 0 && d % GENERATIONS == 0
    ensures d >= GENERATIONS
  {
  }

  // ----- The strict protocol: an id is accepted once

  function StrictStep(l: Life, e: Event): Life {
    if e.kind == Accepted && l == Finished then Broken else LifeStep(l, e)
  }

  function StrictLifeOf(l: Life, events: seq<Event>, id: OrderId): Life
    decreases |events|
  {
    if events == [] then l
    else StrictLifeOf(if About(events[0], id) then StrictStep(l, events[0]) else l, events[1..], id)
  }

  ghost function Times(log: seq<OrderId>, id: OrderId): nat {
    if log == [] then 0 else (if log[0] == id then 1 else 0) + Times(log[1..], id)
  }

  lemma {:induction false} TimesConcat(a: seq<OrderId>, b: seq<OrderId>, id: OrderId)
    ensures Times(a + b, id) == Times(a, id) + Times(b, id)
  {
    if a == [] {
      assert a + b == b;
    } else {
      assert (a + b)[1..] == a[1..] + b;
      TimesConcat(a[1..], b, id);
    }
  }

  lemma {:induction false} StrictBrokenStays(events: seq<Event>, id: OrderId)
    ensures StrictLifeOf(Broken, events, id) == Broken
  {
    if events != [] {
      StrictBrokenStays(events[1..], id);
    }
  }

  // A protocol-abiding history is strict iff it accepts the id at most once.
  lemma {:induction false} StrictIff(l: Life, events: seq<Event>, id: OrderId)
    requires l != Broken && LifeOf(l, events, id) != Broken
    ensures StrictLifeOf(l, events, id) != Broken <==>
      Times(AcceptedIds(events), id) + (if l == Fresh then 0 else 1) <= 1
    decreases |events|
  {
    if events != [] {
      var e, rest := events[0], events[1..];
      var next := if About(e, id) then LifeStep(l, e) else l;
      if next == Broken {
        BrokenStays(rest, id);
        StrictBrokenStays(rest, id);
      }
      StrictIff(next, rest, id);
      TimesConcat(if e.kind == Accepted then [e.id] else [], AcceptedIds(rest), id);
      assert Times([e.id], id) == (if e.id == id then 1 else 0) + Times([e.id][1..], id);
      if About(e, id) && e.kind == Accepted && l == Finished {
        StrictBrokenStays(rest, id);
      }
    }
  }

  lemma {:induction false} TimesPositive(log: seq<OrderId>, id: OrderId)
    ensures Times(log, id) > 0 <==> id in log
  {
    if log != [] {
      TimesPositive(log[1..], id);
    }
  }

  ghost predicate AtMostOnce(log: seq<OrderId>) {
    forall id: OrderId :: Times(log, id) <= 1
  }

  lemma {:induction false} DistinctOnce(log: seq<OrderId>)
    requires NoDup(log)
    ensures AtMostOnce(log)
  {
    if log != [] {
      var x, rest := log[0], log[1..];
      DistinctOnce(rest);
      TimesPositive(rest, x);
      assert log == [x] + rest;
      assert x !in rest;
    }
  }

  lemma {:induction false} OnceDistinct(log: seq<OrderId>)
    requires AtMostOnce(log)
    ensures NoDup(log)
  {
    if log != [] {
      var x, rest := log[0], log[1..];
      assert log == [x] + rest;
      forall id: OrderId
        ensures Times(rest, id) <= 1
      {
        assert Times(log, id) <= 1;
      }
      OnceDistinct(rest);
      TimesPositive(rest, x);
      assert Times(log, x) <= 1;
      assert x !in rest;
    }
  }

  ghost predicate AllStrict(events: seq<Event>) {
    forall id: OrderId :: StrictLifeOf(Fresh, events, id) != Broken
  }

  lemma StrictIffDistinct(events: seq<Event>)
    requires forall id: OrderId :: LifeOf(Fresh, events, id) != Broken
    ensures AllStrict(events) <==> NoDup(AcceptedIds(events))
  {
    var log := AcceptedIds(events);
    if AllStrict(events) {
      forall id: OrderId
        ensures Times(log, id) <= 1
      {
        assert StrictLifeOf(Fresh, events, id) != Broken;
        StrictIff(Fresh, events, id);
      }
      OnceDistinct(log);
    }
    if NoDup(log) {
      DistinctOnce(log);
      forall id: OrderId
        ensures StrictLifeOf(Fresh, events, id) != Broken
      {
        assert Times(log, id) <= 1;
        StrictIff(Fresh, events, id);
      }
    }
  }

  // Every order of a run is accepted exactly once and never after it finished, iff no
  // slot was minted more than 2^32 - 1 times.
  lemma RunStrictIff(capacity: U32, ops: seq<Op>)
    requires capacity <= MAX_CAPACITY
    requires forall k :: 0 <= k < |ops| ==> !ops[k].OpAddLimit?
    ensures StateOk(InitState(capacity))
    ensures AllStrict(Events(InitState(capacity), ops)) <==>
            GenerationsFresh(AcceptedIds(Events(InitState(capacity), ops)))
  {
    hide StateOk, Events, AcceptedIds, RunMinted, LifeOf, Agree, Run, NoDup, GenerationsFresh, AllStrict;
    InitOk(capacity);
    var s := InitState(capacity);
    var events := Events(s, ops);
    RunAccepted(s, ops);
    BookIdsRecurIff(capacity, ops);
    forall id: OrderId
      ensures LifeOf(Fresh, events, id) != Broken
    {
      RunFollowsProtocol(capacity, ops, id);
    }
    StrictIffDistinct(events);
  }

  // ----- A run in which ids do recur

  const IOC := OpAdd(Buy, Ioc, 1, 1)

  // One slot, no liquidity: the order is accepted, canceled, and its slot is free again.
  lemma IocReturnsSlot(s: State)
    requires StateOk(s) && s.book == Book(map[], map[]) && s.pool.free == [0] && |s.pool.gens| == 1
    ensures var t := Apply(s, IOC);
            && StateOk(t) && t.book == s.book && t.pool.free == [0] && |t.pool.gens| == 1
            && |MintedIn(s, IOC)| == 1 && IndexOf(MintedIn(s, IOC)[0]) == 0
  {
    hide LevelsOk, UniqueOn, Open, Best, IsBest;
    ApplyOk(s, IOC);
    TakenIsFresh(s.pool);
    var id := NextId(s.pool);
    assert Sweep(s.book.asks, Buy, 1, 1, id) == Swept(s.book.asks, 1, [], []);
    assert Place(s.book, id, Buy, Ioc, 1, 1).filled == [];
    assert ReleasedAll(Taken(s.pool), [] + [id]) == Released(Taken(s.pool), 0);
  }

  lemma {:induction false} IocsMintOneSlot(s: State, ops: seq<Op>)
    requires StateOk(s) && s.book == Book(map[], map[]) && s.pool.free == [0] && |s.pool.gens| == 1
    requires forall k :: 0 <= k < |ops| ==> ops[k] == IOC
    ensures |RunMinted(s, ops)| == |ops|
    ensures forall k :: 0 <= k < |ops| ==> IndexOf(RunMinted(s, ops)[k]) == 0
    decreases |ops|
  {
    hide StateOk, Apply, MintedIn;
    if ops != [] {
      IocReturnsSlot(s);
      IocsMintOneSlot(Apply(s, IOC), ops[1..]);
    }
  }

  lemma {:induction false} AllInSlot(log: seq<OrderId>, i: int)
    requires forall k :: 0 <= k < |log| ==> IndexOf(log[k]) == i
    ensures SlotCount(log, i) == |log|
  {
    if log != [] {
      AllInSlot(log[..|log| - 1], i);
    }
  }

  // With one slot and 2^32 orders that never rest, an id is accepted a second time.
  lemma IdsCanRecur(ops: seq<Op>)
    requires |ops| == GENERATIONS + 1 && forall k :: 0 <= k < |ops| ==> ops[k] == IOC
    ensures StateOk(InitState(1)) && !AllStrict(Events(InitState(1), ops))
  {
    hide StateOk, Apply, Events, AcceptedIds, RunMinted, SlotCount, AllStrict;
    var s := InitState(1);
    InitOk(1);
    assert s.pool.free == [0];
    IocsMintOneSlot(s, ops);
    AllInSlot(RunMinted(s, ops), 0);
    RunAccepted(s, ops);
    RunStrictIff(1, ops);
  }
}
