/**
 The order slab: an array of slots, an index free list threaded through the free
 slots' `next` links, and ids that encode generation and slot index.
 */
module OrderPools {
  import opened Types
  import opened Seqs

  const NULL_IDX: I32 := -1
  const MAX_CAPACITY := INT32_MAX
  // Generations take the values 1 .. GENERATIONS and then start over.
  const GENERATIONS := UINT32_MAX

  // ----- The id codec

  function MakeOrderId(generation: U32, index: U32): (id: OrderId)
    ensures IndexOf(id) == index && GenerationOf(id) == generation
    ensures generation != 0 ==> id != INVALID_ORDER_ID
  {
    generation * TWO32 + index
  }

  function IndexOf(id: OrderId): U32 {
    id % TWO32
  }

  function GenerationOf(id: OrderId): U32 {
    id / TWO32
  }

  lemma IdRoundTrip(id: OrderId)
    ensures MakeOrderId(GenerationOf(id), IndexOf(id)) == id
  {
  }

  // The generation is the upper half of the word, the index the lower.
  lemma IdBits(generation: U32, index: U32)
    ensures MakeOrderId(generation, index) == 0x1_0000_0000 * generation + index
    ensures IndexOf(MakeOrderId(generation, index)) == index
    ensures GenerationOf(MakeOrderId(generation, index)) == generation
  {
  }

  // ----- One slot

  datatype Order = Order(
    orderId: OrderId,
    price: Price,
    qty: Qty,
    remaining: Qty,
    side: Side,
    otype: OrderType,
    prev: I32,
    next: I32,
    levelIdx: I32,
    generation: U32)

  const BLANK := Order(INVALID_ORDER_ID, 0, 0, 0, Buy, Limit, 0, 0, 0, 0)

  function Bump(generation: U32): U32 {
    if generation == UINT32_MAX then 1 else generation + 1
  }

  // The slot `index` as alloc hands it out.
  function Minted(slot: Order, index: U32): Order {
    slot.(generation := Bump(slot.generation),
          orderId := MakeOrderId(Bump(slot.generation), index),
          prev := NULL_IDX, next := NULL_IDX, levelIdx := NULL_IDX)
  }

  // ----- The pool as a value: last generation per slot, and the free list front to back

  datatype Pool = Pool(gens: seq<U32>, free: seq<int>)

  ghost predicate PoolOk(p: Pool) {
    && |p.gens| <= MAX_CAPACITY
    && NoDup(p.free)
    && (forall k :: 0 <= k < |p.free| ==> 0 <= p.free[k] < |p.gens|)
    && (forall i :: 0 <= i < |p.gens| && i !in p.free ==> p.gens[i] >= 1)
  }

  ghost predicate Live(p: Pool, id: OrderId) {
    var i := IndexOf(id);
    i < |p.gens| && i !in p.free && id == MakeOrderId(p.gens[i], i)
  }

  function NextId(p: Pool): OrderId
    requires PoolOk(p) && p.free != []
  {
    MakeOrderId(Bump(p.gens[p.free[0]]), p.free[0])
  }

  function Taken(p: Pool): Pool
    requires PoolOk(p) && p.free != []
  {
    Pool(p.gens[p.free[0] := Bump(p.gens[p.free[0]])], p.free[1..])
  }

  function Released(p: Pool, index: int): Pool {
    p.(free := [index] + p.free)
  }

  // Releases the slots named by `ids`, first to last.
  function ReleasedAll(p: Pool, ids: seq<OrderId>): Pool
    decreases |ids|
  {
    if ids == [] then p else ReleasedAll(Released(p, IndexOf(ids[0])), ids[1..])
  }

  lemma {:induction false} ReleasedAllConcat(p: Pool, a: seq<OrderId>, b: seq<OrderId>)
    ensures ReleasedAll(p, a + b) == ReleasedAll(ReleasedAll(p, a), b)
    decreases |a|
  {
    if a == [] {
      assert a + b == b;
    } else {
      ReleasedAllConcat(Released(p, IndexOf(a[0])), a[1..], b);
      assert (a + b)[1..] == a[1..] + b;
    }
  }

  // Taking a slot mints a nonzero id nobody holds and keeps every other live id.
  lemma TakenIsFresh(p: Pool)
    requires PoolOk(p) && p.free != []
    ensures PoolOk(Taken(p))
    ensures NextId(p) != INVALID_ORDER_ID && !Live(p, NextId(p)) && Live(Taken(p), NextId(p))
    ensures forall id: OrderId :: Live(Taken(p), id) <==> Live(p, id) || id == NextId(p)
  {
    var q, f := Taken(p), p.free[0];
    assert forall i :: i in p.free <==> i == f || i in q.free;
    forall id: OrderId
      ensures Live(q, id) <==> Live(p, id) || id == NextId(p)
    {
      IdRoundTrip(id);
    }
  }

  lemma ReleasedDropsOne(p: Pool, id: OrderId)
    requires PoolOk(p) && Live(p, id)
    ensures PoolOk(Released(p, IndexOf(id)))
    ensures forall x: OrderId :: Live(Released(p, IndexOf(id)), x) <==> Live(p, x) && x != id
  {
    var q := Released(p, IndexOf(id));
    assert forall i :: i in q.free <==> i == IndexOf(id) || i in p.free;
  }

  // ----- Which ids come next

  lemma EmptyPoolOk(capacity: U32)
    requires capacity <= MAX_CAPACITY
    ensures PoolOk(EmptyPool(capacity))
  {
    var p := EmptyPool(capacity);
    forall i | 0 <= i < capacity
      ensures i in p.free
    {
      assert p.free[i] == i;
    }
  }

  // The pool after n mints from new, none given back.
  function MintedFirst(capacity: U32, n: nat): (p: Pool)
    requires n <= capacity <= MAX_CAPACITY
    ensures PoolOk(p) && |p.gens| == capacity && |p.free| == capacity - n
    ensures forall k :: 0 <= k < |p.free| ==> p.free[k] == n + k
    ensures forall i :: n <= i < capacity ==> p.gens[i] == 0
  {
    if n == 0 then
      EmptyPoolOk(capacity);
      EmptyPool(capacity)
    else
      Taken(MintedFirst(capacity, n - 1))
  }

  // A new pool hands out its slots in order, each in its first generation.
  lemma FirstIds(capacity: U32, n: nat)
    requires n < capacity <= MAX_CAPACITY
    ensures NextId(MintedFirst(capacity, n)) == 0x1_0000_0000 + n
  {
  }

  // A slot given back is the next one used, in the generation after the one it had.
  lemma ReusedNext(p: Pool, id: OrderId)
    requires PoolOk(p) && Live(p, id)
    ensures var q := Released(p, IndexOf(id));
            && PoolOk(q) && q.free != []
            && NextId(q) % 0x1_0000_0000 == id % 0x1_0000_0000
            && NextId(q) / 0x1_0000_0000
               == (if id / 0x1_0000_0000 == 0xFFFF_FFFF then 1 else id / 0x1_0000_0000 + 1)
  {
    ReleasedDropsOne(p, id);
  }

  // ----- The census: as many live ids as slots off the free list

  ghost function LiveSlots(p: Pool): set<int>
    requires PoolOk(p)
  {
    Below(|p.gens|) - (set i | i in p.free)
  }

  ghost function LiveIds(p: Pool): (r: set<OrderId>)
    requires PoolOk(p)
    ensures forall id: OrderId :: id in r <==> Live(p, id)
  {
    var r := set i | i in LiveSlots(p) :: MakeOrderId(p.gens[i], i);
    assert forall id: OrderId | Live(p, id) :: IndexOf(id) in LiveSlots(p);
    r
  }

  lemma {:induction false} ImageSize(p: Pool, slots: set<int>)
    requires PoolOk(p) && forall i :: i in slots ==> 0 <= i < |p.gens|
    ensures |set i | i in slots :: MakeOrderId(p.gens[i], i)| == |slots|
  {
    var image := set i | i in slots :: MakeOrderId(p.gens[i], i);
    if slots == {} {
      assert image == {};
    } else {
      var j := Member(slots);
      var rest := slots - {j};
      var restImage := set i | i in rest :: MakeOrderId(p.gens[i], i);
      ImageSize(p, rest);
      assert slots == rest + {j};
      assert image == restImage + {MakeOrderId(p.gens[j], j)};
      assert MakeOrderId(p.gens[j], j) !in restImage;
    }
  }

  lemma LiveCensus(p: Pool)
    requires PoolOk(p)
    ensures |LiveIds(p)| == |p.gens| - |p.free|
  {
    var free := set i | i in p.free;
    NoDupSize(p.free);
    assert free <= Below(|p.gens|);
    ImageSize(p, LiveSlots(p));
  }

  // ----- The representation invariant, over the slot array's contents

  // The free list runs through the `next` links of its slots.
  ghost predicate Threaded(s: seq<Order>, free: seq<int>) {
    forall k :: 0 <= k < |free| ==> 0 <= free[k] < |s| && s[free[k]].next == At(free, k + 1)
  }

  ghost predicate PoolInv(s: seq<Order>, head: I32, live: int, free: seq<int>) {
    && |s| <= MAX_CAPACITY
    && NoDup(free) && Threaded(s, free)
    && (forall i :: 0 <= i < |s| ==> (s[i].orderId == INVALID_ORDER_ID <==> i in free))
    && head == At(free, 0)
    && (forall i :: 0 <= i < |s| && s[i].orderId != INVALID_ORDER_ID ==>
          s[i].generation >= 1 && s[i].orderId == MakeOrderId(s[i].generation, i))
    && live == |s| - |free|
  }

  function PoolOf(s: seq<Order>, free: seq<int>): (p: Pool) {
    Pool(seq(|s|, i requires 0 <= i < |s| => s[i].generation), free)
  }

  // What a change of slots must leave alone for the pool not to notice it.
  ghost predicate SamePool(s: seq<Order>, t: seq<Order>) {
    && |s| == |t|
    && (forall i :: 0 <= i < |s| ==>
          t[i].orderId == s[i].orderId && t[i].generation == s[i].generation)
    && (forall i :: 0 <= i < |s| && s[i].orderId == INVALID_ORDER_ID ==> t[i].next == s[i].next)
  }

  lemma PoolFrame(s: seq<Order>, t: seq<Order>, head: I32, live: int, free: seq<int>)
    requires PoolInv(s, head, live, free) && SamePool(s, t)
    ensures PoolInv(t, head, live, free)
    ensures PoolOf(t, free) == PoolOf(s, free)
  {
    forall k | 0 <= k < |free|
      ensures 0 <= free[k] < |s| && t[free[k]].next == At(free, k + 1)
    {
      assert s[free[k]].next == At(free, k + 1) && free[k] in free;
    }
    assert forall i :: 0 <= i < |s| ==> PoolOf(t, free).gens[i] == PoolOf(s, free).gens[i];
  }

  // The fast lookup's single compare decides liveness.
  lemma InvMeansPoolOk(s: seq<Order>, head: I32, live: int, free: seq<int>)
    requires PoolInv(s, head, live, free)
    ensures PoolOk(PoolOf(s, free))
    ensures 0 <= live <= |s|
    ensures live == |s| <==> free == []
    ensures forall id: OrderId :: id != INVALID_ORDER_ID ==>
      (Live(PoolOf(s, free), id) <==> IndexOf(id) < |s| && s[IndexOf(id)].orderId == id)
    ensures !Live(PoolOf(s, free), INVALID_ORDER_ID)
  {
    NoDupBound(free, |s|);
  }

  lemma AllocInv(s: seq<Order>, head: I32, live: int, free: seq<int>)
    requires PoolInv(s, head, live, free) && free != []
    ensures PoolInv(s[head := Minted(s[head], head)], s[head].next, live + 1, free[1..])
  {
    assert s[free[0]].next == At(free, 1);
  }

  lemma AllocSpec(s: seq<Order>, head: I32, live: int, free: seq<int>)
    requires PoolInv(s, head, live, free) && free != []
    ensures PoolOk(PoolOf(s, free))
    ensures PoolOf(s[head := Minted(s[head], head)], free[1..]) == Taken(PoolOf(s, free))
  {
    InvMeansPoolOk(s, head, live, free);
    var t := s[head := Minted(s[head], head)];
    assert PoolOf(t, free[1..]).gens == Taken(PoolOf(s, free)).gens;
  }

  lemma FreeInv(s: seq<Order>, head: I32, live: int, free: seq<int>, index: U32)
    requires PoolInv(s, head, live, free)
    requires index < |s| && s[index].orderId != INVALID_ORDER_ID
    ensures PoolInv(s[index := s[index].(orderId := INVALID_ORDER_ID, next := head)],
                    index, live - 1, [index] + free)
  {
    var t := s[index := s[index].(orderId := INVALID_ORDER_ID, next := head)];
    hide Threaded;
    assert forall i :: i in [index as int] + free <==> i == index || i in free;
    forall k | 0 <= k < |free|
      ensures free[k] != index
    {
      assert free[k] in free;
    }
  }

  lemma FreeSpec(s: seq<Order>, head: I32, live: int, free: seq<int>, index: U32)
    requires PoolInv(s, head, live, free)
    requires index < |s| && s[index].orderId != INVALID_ORDER_ID
    ensures live >= 1
    ensures PoolOf(s[index := s[index].(orderId := INVALID_ORDER_ID, next := head)], [index] + free)
         == Released(PoolOf(s, free), index)
  {
    var t := s[index := s[index].(orderId := INVALID_ORDER_ID, next := head)];
    var grown := [index as int] + free;
    assert PoolOf(t, grown).gens == PoolOf(s, free).gens;
    forall k | 0 <= k < |free|
      ensures free[k] != index
    {
      assert free[k] in free;
    }
    NoDupBound(grown, |s|);
  }

  lemma FreshInv(s: seq<Order>)
    requires |s| <= MAX_CAPACITY
    requires forall j :: 0 <= j < |s| ==>
      s[j] == BLANK.(next := if j + 1 < |s| then j + 1 else NULL_IDX)
    ensures PoolInv(s, if |s| > 0 then 0 else NULL_IDX, 0, EmptyPool(|s|).free)
    ensures PoolOf(s, EmptyPool(|s|).free) == EmptyPool(|s|)
  {
    var free := EmptyPool(|s|).free;
    forall i | 0 <= i < |s|
      ensures i in free
    {
      assert free[i] == i;
    }
    assert PoolOf(s, free).gens == EmptyPool(|s|).gens;
  }

  lemma IdNamesSlot(s: seq<Order>, head: I32, live: int, free: seq<int>, i: int)
    requires PoolInv(s, head, live, free) && 0 <= i < |s| && s[i].orderId != INVALID_ORDER_ID
    ensures IndexOf(s[i].orderId) == i
  {
  }

  class OrderPool {
    const slots: array<Order>
    var freeHead: I32
    var liveCount: U32
    ghost var free: seq<int>

    ghost predicate Valid()
      reads this, slots
    {
      PoolInv(slots[..], freeHead, liveCount, free)
    }

    // The abstract value: generations and free list.
    ghost function Spec(): Pool
      reads this, slots
    {
      PoolOf(slots[..], free)
    }

    constructor (capacity: U32)
      requires capacity <= MAX_CAPACITY
      ensures Valid() && fresh(slots) && slots.Length == capacity
      ensures liveCount == 0
      ensures Spec() == EmptyPool(capacity)
      ensures forall i :: 0 <= i < capacity ==> slots[i].orderId == INVALID_ORDER_ID
    {
      slots := new Order[capacity](_ => BLANK);
      liveCount := 0;
      freeHead := if capacity > 0 then 0 else NULL_IDX;
      free := EmptyPool(capacity).free;
      new;
      var i: U32 := 0;
      while i < capacity
        modifies slots
        invariant free == EmptyPool(capacity).free
        invariant 0 <= i <= capacity
        invariant forall j :: 0 <= j < capacity ==>
          slots[j] == if j < i then BLANK.(next := if j + 1 < capacity then j + 1 else NULL_IDX) else BLANK
      {
        slots[i] := slots[i].(next := if i + 1 < capacity then i + 1 else NULL_IDX);
        i := i + 1;
      }
      FreshInv(slots[..]);
    }

    method Alloc() returns (id: OrderId)
      requires Valid()
      modifies this, slots
      ensures Valid()
      ensures id == INVALID_ORDER_ID <==> old(liveCount) == slots.Length
      ensures id == INVALID_ORDER_ID ==>
        slots[..] == old(slots[..]) && Spec() == old(Spec()) && liveCount == old(liveCount)
      ensures id != INVALID_ORDER_ID ==>
        && PoolOk(old(Spec())) && old(free) != []
        && id == NextId(old(Spec())) && Spec() == Taken(old(Spec()))
        && liveCount == old(liveCount) + 1
        && IndexOf(id) == old(free)[0] < slots.Length
        && slots[..] == old(slots[..])[IndexOf(id) := Minted(old(slots[..])[IndexOf(id)], IndexOf(id))]
        && old(slots[..])[IndexOf(id)].orderId == INVALID_ORDER_ID
    {
      InvMeansPoolOk(slots[..], freeHead, liveCount, free);
      if freeHead == NULL_IDX {
        return INVALID_ORDER_ID;
      }
      var index := freeHead;
      ghost var s := slots[..];
      AllocInv(s, freeHead, liveCount, free);
      AllocSpec(s, freeHead, liveCount, free);
      freeHead := slots[index].next;
      slots[index] := slots[index].(generation := Bump(slots[index].generation));
      slots[index] := slots[index].(orderId := MakeOrderId(slots[index].generation, index));
      slots[index] := slots[index].(prev := NULL_IDX, next := NULL_IDX, levelIdx := NULL_IDX);
      liveCount := liveCount + 1;
      id := slots[index].orderId;
      free := free[1..];
      assert slots[..] == s[index := Minted(s[index], index)];
    }

    method Free(index: U32)
      requires Valid() && index < slots.Length && slots[index].orderId != INVALID_ORDER_ID
      modifies this, slots
      ensures Valid()
      ensures Spec() == Released(old(Spec()), index)
      ensures liveCount == old(liveCount) - 1
      ensures slots[..] == old(slots[..])[index := slots[index]]
      ensures slots[index] == old(slots[index]).(orderId := INVALID_ORDER_ID, next := slots[index].next)
    {
      InvMeansPoolOk(slots[..], freeHead, liveCount, free);
      ghost var s := slots[..];
      FreeInv(s, freeHead, liveCount, free, index);
      FreeSpec(s, freeHead, liveCount, free, index);
      slots[index] := slots[index].(orderId := INVALID_ORDER_ID);
      slots[index] := slots[index].(next := freeHead);
      freeHead := index;
      liveCount := liveCount - 1;
      free := [index] + free;
      assert slots[..] == s[index := slots[index]];
    }

    // The slot index of `id` when it names a live order.
    method Find(id: OrderId) returns (index: Option<U32>)
      requires Valid()
      ensures index.Some? <==> Live(Spec(), id)
      ensures index.Some? ==>
        && index.value == IndexOf(id) < slots.Length
        && slots[index.value].orderId == id != INVALID_ORDER_ID
    {
      InvMeansPoolOk(slots[..], freeHead, liveCount, free);
      var i := IndexOf(id);
      if id == INVALID_ORDER_ID || i >= slots.Length {
        return None;
      }
      return if slots[i].orderId == id then Some(i) else None;
    }
  }

  function EmptyPool(capacity: nat): Pool {
    Pool(seq(capacity, _ => 0), seq(capacity, i => i))
  }
}
