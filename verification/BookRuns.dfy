/**
 Operations as values, and runs of them: every reachable state of the arena book is
 well formed, its open orders being exactly the pool's live ids.
 */
module BookRuns {
  import opened Types
  import opened Seqs
  import opened OrderPools
  import opened BookSpec
  import opened BookFacts

  datatype Op =
    | OpAdd(side: Side, otype: OrderType, price: Price, qty: Qty)
    | OpAddLimit(side: Side, price: Price, qty: Qty)
    | OpCancel(id: OrderId)

  function InitState(capacity: U32): State {
    State(EmptyPool(capacity), Book(map[], map[]))
  }

  ghost function Apply(s: State, op: Op): State
    requires StateOk(s)
  {
    match op
    case OpAdd(side, otype, price, qty) => Add(s, side, otype, price, qty).state
    case OpAddLimit(side, price, qty) => AddLimit(s, side, price, qty).state
    case OpCancel(id) => CancelState(s, id)
  }

  ghost function EventsOf(s: State, op: Op): seq<Event>
    requires StateOk(s)
  {
    match op
    case OpAdd(side, otype, price, qty) => Add(s, side, otype, price, qty).events
    case OpAddLimit(side, price, qty) => []
    case OpCancel(id) => [CancelEvent(s.book, id)]
  }

  // ----- Well-formed states stay so

  lemma {:induction false} ReleasedAllLive(p: Pool, ids: seq<OrderId>)
    requires PoolOk(p) && NoDup(ids)
    requires forall id :: id in ids ==> Live(p, id)
    ensures PoolOk(ReleasedAll(p, ids))
    ensures forall x: OrderId :: Live(ReleasedAll(p, ids), x) <==> Live(p, x) && x !in ids
    decreases |ids|
  {
    if ids != [] {
      ReleasedDropsOne(p, ids[0]);
      ReleasedAllLive(Released(p, IndexOf(ids[0])), ids[1..]);
    }
  }

  // What placing a minted order does to the open ids.
  ghost function Freed(s: State, side: Side, otype: OrderType, price: Price, qty: Qty): seq<OrderId>
    requires StateOk(s) && s.pool.free != [] && qty > 0
  {
    var r := Place(s.book, NextId(s.pool), side, otype, price, qty);
    r.filled + (if r.rests then [] else [NextId(s.pool)])
  }

  // An add gives back the slots of live orders, each once.
  lemma FreedAreLive(s: State, side: Side, otype: OrderType, price: Price, qty: Qty)
    requires StateOk(s) && Validate(otype, price, qty) == NoReason && s.pool.free != []
    ensures NoDup(Freed(s, side, otype, price, qty))
    ensures forall id :: id in Freed(s, side, otype, price, qty) ==> Live(Taken(s.pool), id)
  {
    var id := NextId(s.pool);
    TakenIsFresh(s.pool);
    PlaceOpen(s.book, id, side, otype, price, qty);
    assert id !in Place(s.book, id, side, otype, price, qty).filled;
  }

  lemma AddOk(s: State, side: Side, otype: OrderType, price: Price, qty: Qty)
    requires StateOk(s)
    ensures StateOk(Add(s, side, otype, price, qty).state)
    ensures Add(s, side, otype, price, qty).id != INVALID_ORDER_ID ==>
      && s.pool.free != [] && qty > 0
      && forall x :: Open(Add(s, side, otype, price, qty).state.book, x) <==>
           (Open(s.book, x) || x == NextId(s.pool)) && x !in Freed(s, side, otype, price, qty)
  {
    if Validate(otype, price, qty) == NoReason && s.pool.free != [] {
      var id := NextId(s.pool);
      TakenIsFresh(s.pool);
      PlaceOpen(s.book, id, side, otype, price, qty);
      var freed := Freed(s, side, otype, price, qty);
      FreedAreLive(s, side, otype, price, qty);
      ReleasedAllLive(Taken(s.pool), freed);
    }
  }

  lemma AddLimitOk(s: State, side: Side, price: Price, qty: Qty)
    requires StateOk(s)
    ensures StateOk(AddLimit(s, side, price, qty).state)
  {
    if Validate(Limit, price, qty) == NoReason && s.pool.free != [] {
      TakenIsFresh(s.pool);
      RestedOpen(s.book, Resting(NextId(s.pool), price, qty, qty, side));
    }
  }

  lemma CancelOk(s: State, id: OrderId)
    requires StateOk(s)
    ensures StateOk(CancelState(s, id))
  {
    if Open(s.book, id) {
      WithoutOpen(s.book, id);
      ReleasedDropsOne(s.pool, id);
    }
  }

  lemma ApplyOk(s: State, op: Op)
    requires StateOk(s)
    ensures StateOk(Apply(s, op))
  {
    match op
    case OpAdd(side, otype, price, qty) => AddOk(s, side, otype, price, qty);
    case OpAddLimit(side, price, qty) => AddLimitOk(s, side, price, qty);
    case OpCancel(id) => CancelOk(s, id);
  }

  lemma InitOk(capacity: U32)
    requires capacity <= MAX_CAPACITY
    ensures StateOk(InitState(capacity))
  {
    var s := InitState(capacity);
    forall i | 0 <= i < capacity
      ensures i in s.pool.free
    {
      assert s.pool.free[i] == i;
    }
  }

  // ----- Runs

  ghost function Run(s: State, ops: seq<Op>): (r: State)
    requires StateOk(s)
    ensures StateOk(r)
    decreases |ops|
  {
    if ops == [] then s
    else
      ApplyOk(s, ops[0]);
      Run(Apply(s, ops[0]), ops[1..])
  }

  ghost function Events(s: State, ops: seq<Op>): seq<Event>
    requires StateOk(s)
    decreases |ops|
  {
    if ops == [] then []
    else
      ApplyOk(s, ops[0]);
      EventsOf(s, ops[0]) + Events(Apply(s, ops[0]), ops[1..])
  }

  lemma {:induction false} RunSnoc(s: State, ops: seq<Op>, op: Op)
    requires StateOk(s)
    ensures Run(s, ops + [op]) == Apply(Run(s, ops), op)
    ensures Events(s, ops + [op]) == Events(s, ops) + EventsOf(Run(s, ops), op)
    decreases |ops|
  {
    if ops == [] {
      ApplyOk(s, op);
      assert [op][1..] == [];
      assert [] + [op] == [op];
    } else {
      ApplyOk(s, ops[0]);
      assert (ops + [op])[1..] == ops[1..] + [op];
      RunSnoc(Apply(s, ops[0]), ops[1..], op);
    }
  }
}
