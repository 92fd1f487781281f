/**
 The limit order book as a value, and what each operation does to it. Both books
 of the repository, the sorted-map reference and the arena-based one, are proved
 to compute these functions; the market properties are then proved about them.
 */
module BookSpec {
  import opened Types
  import opened Seqs
  import opened OrderPools

  // An open order as a market participant sees it.
  datatype Resting = Resting(id: OrderId, price: Price, qty: Qty, remaining: Qty, side: Side)

  // One side: a non-empty first-in-first-out queue per price that has orders.
  type Levels = map<Price, seq<Resting>>

  datatype Book = Book(bids: Levels, asks: Levels)

  function SideOf(b: Book, side: Side): Levels {
    if side == Buy then b.bids else b.asks
  }

  function WithSide(b: Book, side: Side, l: Levels): Book {
    if side == Buy then b.(bids := l) else b.(asks := l)
  }

  // ----- Queues by price

  function QueueAt<T>(m: map<Price, seq<T>>, p: int): seq<T> {
    if p in m then m[p] else []
  }

  function SetQueue<T>(m: map<Price, seq<T>>, p: Price, q: seq<T>): map<Price, seq<T>> {
    if q == [] then m - {p} else m[p := q]
  }

  // ----- The front of a side

  // Resting at p has priority over resting at q.
  predicate Better(side: Side, p: int, q: int) {
    if side == Buy then p > q else p < q
  }

  ghost predicate IsBest<T>(side: Side, m: map<Price, T>, p: int) {
    p in m && forall q :: q in m ==> !Better(side, q, p)
  }

  lemma {:induction false} BestOfSet(side: Side, s: set<Price>) returns (p: Price)
    requires s != {}
    ensures p in s && forall q :: q in s ==> !Better(side, q, p)
  {
    p :| p in s;
    var rest := s - {p};
    if rest != {} {
      var r := BestOfSet(side, rest);
      assert s == rest + {p};
      if Better(side, r, p) {
        p := r;
      }
    } else {
      assert s == {p};
    }
  }

  lemma BestExists<T>(side: Side, m: map<Price, T>)
    requires m != map[]
    ensures exists p :: IsBest(side, m, p)
  {
    var somePrice :| somePrice in m;
    var p := BestOfSet(side, m.Keys);
    assert IsBest(side, m, p);
  }

  function Best<T>(side: Side, m: map<Price, T>): (p: Price)
    requires m != map[]
    ensures IsBest(side, m, p)
  {
    BestExists(side, m);
    assert forall p, q :: IsBest(side, m, p) && IsBest(side, m, q) ==> p == q;
    assert exists p :: p in m && forall q :: q in m ==> !Better(side, q, p) by {
      var p :| IsBest(side, m, p);
    }
    var p :| p in m && forall q :: q in m ==> !Better(side, q, p);
    p
  }

  // ----- Well-formed sides

  ghost predicate OrderOk(o: Resting, side: Side, p: Price) {
    o.id != INVALID_ORDER_ID && o.side == side && o.price == p && 1 <= o.remaining <= o.qty
  }

  ghost predicate QueueOk(q: seq<Resting>, side: Side, p: Price) {
    q != [] && forall k :: 0 <= k < |q| ==> OrderOk(q[k], side, p)
  }

  ghost predicate LevelsOk(l: Levels, side: Side) {
    forall p :: p in l ==> QueueOk(l[p], side, p)
  }

  lemma FrontOf(l: Levels, side: Side)
    requires LevelsOk(l, side) && l != map[]
    ensures Best(side, l) in l && l[Best(side, l)] != []
    ensures OrderOk(l[Best(side, l)][0], side, Best(side, l))
  {
    assert IsBest(side, l, Best(side, l));
  }

  // ----- Matching

  function Crosses(taker: Side, limit: Price, level: Price): bool {
    if taker == Buy then level <= limit else level >= limit
  }

  // The sweep limit: a market order's is the end of the price range.
  function SweepLimit(side: Side, otype: OrderType, price: Price): Price {
    if otype != Market then price else if side == Buy then INT64_MAX else INT64_MIN
  }

  // Takes `fill` from the order at the front of a queue.
  function FillFront(q: seq<Resting>, fill: Qty): seq<Resting>
    requires q != [] && fill <= q[0].remaining
  {
    if fill == q[0].remaining then q[1..]
    else [q[0].(remaining := q[0].remaining - fill)] + q[1..]
  }

  // The two events of one fill, at the maker's price.
  function FillEvents(maker: Resting, taker: Side, takerId: OrderId, fill: Qty, takerLeft: Qty): seq<Event>
    requires fill <= maker.remaining
  {
    [Event(Traded, maker.side, NoReason, fill, maker.remaining - fill, maker.price, maker.id),
     Event(Traded, taker, NoReason, fill, takerLeft, maker.price, takerId)]
  }

  datatype Swept = Swept(levels: Levels, remaining: Qty, events: seq<Event>, filled: seq<OrderId>)

  predicate CanFill(opp: Levels, taker: Side, limit: Price, rem: Qty) {
    rem > 0 && opp != map[] && Crosses(taker, limit, Best(Opposite(taker), opp))
  }

  function Maker(opp: Levels, taker: Side): Resting
    requires LevelsOk(opp, Opposite(taker)) && opp != map[]
  {
    opp[Best(Opposite(taker), opp)][0]
  }

  // One fill against the front of the opposite side.
  function FillBest(opp: Levels, taker: Side, fill: Qty): (r: Levels)
    requires LevelsOk(opp, Opposite(taker)) && opp != map[] && fill <= Maker(opp, taker).remaining
    ensures LevelsOk(r, Opposite(taker))
  {
    var p := Best(Opposite(taker), opp);
    SetQueue(opp, p, FillFront(opp[p], fill))
  }

  // Fills front orders while the taker has quantity and its limit crosses.
  function Sweep(opp: Levels, taker: Side, limit: Price, rem: Qty, id: OrderId): (r: Swept)
    requires LevelsOk(opp, Opposite(taker))
    ensures LevelsOk(r.levels, Opposite(taker)) && r.remaining <= rem
    decreases rem
  {
    if !CanFill(opp, taker, limit, rem) then
      Swept(opp, rem, [], [])
    else
      var maker := Maker(opp, taker);
      var fill := Min(rem, maker.remaining);
      var rest := Sweep(FillBest(opp, taker, fill), taker, limit, rem - fill, id);
      Swept(rest.levels, rest.remaining,
            FillEvents(maker, taker, id, fill, rem - fill) + rest.events,
            (if fill == maker.remaining then [maker.id] else []) + rest.filled)
  }

  // ----- New orders

  function Validate(otype: OrderType, price: Price, qty: Qty): RejectReason {
    if qty == 0 then InvalidQty
    else if otype != Market && price <= 0 then InvalidPrice
    else NoReason
  }

  function Reject(side: Side, reason: RejectReason, qty: Qty, price: Price, id: OrderId): Event {
    Event(Rejected, side, reason, qty, 0, price, id)
  }

  ghost predicate SidesOk(b: Book) {
    LevelsOk(b.bids, Buy) && LevelsOk(b.asks, Sell)
  }

  // Appends an order to the queue at its price.
  function Rested(b: Book, o: Resting): (r: Book)
    requires SidesOk(b) && OrderOk(o, o.side, o.price)
    ensures SidesOk(r)
  {
    var l := SideOf(b, o.side);
    WithSide(b, o.side, l[o.price := QueueAt(l, o.price) + [o]])
  }

  datatype Placed = Placed(book: Book, events: seq<Event>, filled: seq<OrderId>, rests: bool)

  // A valid order with id `id`: accept, sweep, then rest or cancel what is left.
  function Place(b: Book, id: OrderId, side: Side, otype: OrderType, price: Price, qty: Qty): (r: Placed)
    requires SidesOk(b) && id != INVALID_ORDER_ID && qty > 0
    ensures SidesOk(r.book)
  {
    var echo := if otype == Market then 0 else price;
    var accepted := [Event(Accepted, side, NoReason, qty, qty, echo, id)];
    var s := Sweep(SideOf(b, Opposite(side)), side, SweepLimit(side, otype, price), qty, id);
    var swept := WithSide(b, Opposite(side), s.levels);
    if s.remaining > 0 && otype == Limit then
      Placed(Rested(swept, Resting(id, price, qty, s.remaining, side)), accepted + s.events, s.filled, true)
    else
      var left := if s.remaining > 0 then [Event(Canceled, side, NoReason, s.remaining, 0, echo, id)] else [];
      Placed(swept, accepted + s.events + left, s.filled, false)
  }

  // ----- Where an id rests

  ghost predicate Holds(l: Levels, id: OrderId, p: Price, k: int) {
    p in l && 0 <= k < |l[p]| && l[p][k].id == id
  }

  ghost predicate OpenOn(l: Levels, id: OrderId) {
    exists p: Price, k: int :: Holds(l, id, p, k)
  }

  ghost predicate Open(b: Book, id: OrderId) {
    OpenOn(b.bids, id) || OpenOn(b.asks, id)
  }

  // No id rests twice on one side, nor on both.
  ghost predicate UniqueOn(l: Levels) {
    forall id: OrderId, p: Price, k: int, q: Price, j: int ::
      Holds(l, id, p, k) && Holds(l, id, q, j) ==> p == q && k == j
  }

  ghost predicate UniqueIds(b: Book) {
    && UniqueOn(b.bids) && UniqueOn(b.asks)
    && forall id :: !(OpenOn(b.bids, id) && OpenOn(b.asks, id))
  }

  ghost predicate IsOpenSet(b: Book, ids: set<OrderId>) {
    forall id :: id in ids <==> Open(b, id)
  }

  ghost predicate BookOk(b: Book) {
    SidesOk(b) && UniqueIds(b)
  }

  ghost function OpenSide(b: Book, id: OrderId): Side {
    if OpenOn(b.bids, id) then Buy else Sell
  }

  ghost function OrderOf(b: Book, id: OrderId): Resting
    requires Open(b, id)
  {
    var l := SideOf(b, OpenSide(b, id));
    var p, k :| Holds(l, id, p, k);
    l[p][k]
  }

  ghost function WithoutOn(l: Levels, id: OrderId): Levels
    requires OpenOn(l, id)
  {
    var p, k :| Holds(l, id, p, k);
    SetQueue(l, p, RemoveAt(l[p], k))
  }

  ghost function Without(b: Book, id: OrderId): Book
    requires Open(b, id)
  {
    var side := OpenSide(b, id);
    WithSide(b, side, WithoutOn(SideOf(b, side), id))
  }

  ghost function CancelEvent(b: Book, id: OrderId): Event {
    if Open(b, id) then
      var o := OrderOf(b, id);
      Event(Canceled, o.side, NoReason, o.remaining, 0, o.price, id)
    else
      Event(Rejected, Buy, UnknownOrder, 0, 0, 0, id)
  }

  ghost function Cancelled(b: Book, id: OrderId): Book {
    if Open(b, id) then Without(b, id) else b
  }

  // Any position that holds the id is the one the cancel finds.
  lemma CancelAt(b: Book, side: Side, id: OrderId, p: Price, k: int)
    requires BookOk(b) && Holds(SideOf(b, side), id, p, k)
    ensures Open(b, id) && OpenSide(b, id) == side
    ensures OrderOf(b, id) == SideOf(b, side)[p][k]
    ensures Without(b, id)
         == WithSide(b, side, SetQueue(SideOf(b, side), p, RemoveAt(SideOf(b, side)[p], k)))
  {
    assert OpenOn(SideOf(b, side), id);
    assert !OpenOn(SideOf(b, Opposite(side)), id);
  }

  // ----- The reference book: ids come from the caller

  datatype NaiveResult = NaiveResult(book: Book, events: seq<Event>, accepted: bool)

  function NaiveAdd(b: Book, id: OrderId, side: Side, otype: OrderType, price: Price, qty: Qty): NaiveResult
    requires SidesOk(b) && id != INVALID_ORDER_ID
  {
    var reason := Validate(otype, price, qty);
    if reason != NoReason then
      NaiveResult(b, [Reject(side, reason, qty, price, id)], false)
    else
      var r := Place(b, id, side, otype, price, qty);
      NaiveResult(r.book, r.events, true)
  }

  function NaiveAddLimit(b: Book, id: OrderId, side: Side, price: Price, qty: Qty): NaiveResult
    requires SidesOk(b) && id != INVALID_ORDER_ID
  {
    var reason := Validate(Limit, price, qty);
    if reason != NoReason then
      NaiveResult(b, [Reject(side, reason, qty, price, id)], false)
    else
      NaiveResult(Rested(b, Resting(id, price, qty, qty, side)),
                  [Event(Accepted, side, NoReason, qty, qty, price, id)], true)
  }

  // ----- The arena book: ids come from the pool

  datatype State = State(pool: Pool, book: Book)

  ghost predicate StateOk(s: State) {
    && PoolOk(s.pool) && BookOk(s.book)
    && forall id :: Open(s.book, id) <==> Live(s.pool, id)
  }

  lemma StateSides(s: State)
    requires StateOk(s)
    ensures PoolOk(s.pool) && SidesOk(s.book)
  {
    assert BookOk(s.book);
  }

  datatype AddResult = AddResult(state: State, events: seq<Event>, id: OrderId)

  function Add(s: State, side: Side, otype: OrderType, price: Price, qty: Qty): AddResult
    requires PoolOk(s.pool) && SidesOk(s.book)
  {
    var reason := Validate(otype, price, qty);
    if reason != NoReason then
      AddResult(s, [Reject(side, reason, qty, price, INVALID_ORDER_ID)], INVALID_ORDER_ID)
    else if s.pool.free == [] then
      AddResult(s, [Reject(side, PoolExhausted, qty, price, INVALID_ORDER_ID)], INVALID_ORDER_ID)
    else
      var id := NextId(s.pool);
      var r := Place(s.book, id, side, otype, price, qty);
      var freed := r.filled + (if r.rests then [] else [id]);
      AddResult(State(ReleasedAll(Taken(s.pool), freed), r.book), r.events, id)
  }

  function AddLimit(s: State, side: Side, price: Price, qty: Qty): AddResult
    requires PoolOk(s.pool) && SidesOk(s.book)
  {
    if Validate(Limit, price, qty) != NoReason || s.pool.free == [] then
      AddResult(s, [], INVALID_ORDER_ID)
    else
      var id := NextId(s.pool);
      AddResult(State(Taken(s.pool), Rested(s.book, Resting(id, price, qty, qty, side))), [], id)
  }

  ghost function CancelState(s: State, id: OrderId): State {
    if Open(s.book, id) then State(Released(s.pool, IndexOf(id)), Without(s.book, id)) else s
  }

  // ----- Quantity

  function QueueQty(q: seq<Resting>): nat {
    if q == [] then 0 else q[0].remaining + QueueQty(q[1..])
  }

  lemma {:induction false} QueueQtyConcat(a: seq<Resting>, b: seq<Resting>)
    ensures QueueQty(a + b) == QueueQty(a) + QueueQty(b)
  {
    if a == [] {
      assert a + b == b;
    } else {
      assert (a + b)[1..] == a[1..] + b;
      QueueQtyConcat(a[1..], b);
    }
  }

  lemma QueueQtyRemove(q: seq<Resting>, k: nat)
    requires k < |q|
    ensures QueueQty(RemoveAt(q, k)) == QueueQty(q) - q[k].remaining
  {
    QueueQtyConcat(q[..k], q[k + 1..]);
    QueueQtyConcat(q[..k], q[k..]);
    assert q == q[..k] + q[k..] && q[k..][1..] == q[k + 1..];
  }

  lemma {:induction false} QueueQtyBound(q: seq<Resting>)
    ensures QueueQty(q) <= |q| * UINT32_MAX
  {
    if q != [] {
      QueueQtyBound(q[1..]);
    }
  }
}
