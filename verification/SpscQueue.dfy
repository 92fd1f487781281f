/**
 The ring as its two threads call it, one whole operation at a time, with the 64-bit
 indices wrapping: the cached ring and the textbook ring that loads the peer's index on
 every call are both the same bounded first-in-first-out queue.
 */
module SpscQueue {
  import opened Types
  import opened Bits
  import opened RingProtocol

  // ----- Index arithmetic

  // Unsigned subtraction.
  function Sub64(a: U64, b: U64): U64 {
    if b <= a then a - b else a - b + TWO64
  }

  lemma ModMultiple(x: nat, cap: nat, c: nat)
    requires cap > 0 && c > 0
    ensures cap * c > 0 && (x % (cap * c)) % cap == x % cap
  {
    var whole := cap * c;
    MultipleSize(cap, c);
    var q, w := x / whole, x % whole;
    assert x == cap * (c * q) + w;
    assert w == cap * (w / cap) + w % cap;
    assert x == cap * (c * q + w / cap) + w % cap;
    DivUnique(x, cap, c * q + w / cap, w % cap);
  }

  // Wrapping at 2^64 does not move a slot, because the capacity divides 2^64.
  lemma WrapKeepsSlot(x: nat, k: nat)
    requires k <= 64
    ensures BitAnd(Wrap(x), Pow2(k) - 1) == SlotOf(x, Pow2(k))
  {
    hide Pow2, BitAnd, Wrap;
    MaskIsMod(Wrap(x), k);
    WrapIsMod(x);
    Pow2Of64();
    Pow2Splits(k, 64);
    ModMultiple(x, Pow2(k), Pow2(64 - k));
  }

  lemma SubIsDistance(x: nat, y: nat)
    requires y <= x < y + TWO64
    ensures Sub64(Wrap(x), Wrap(y)) == x - y
  {
    hide Wrap;
    WrapIsMod(x);
    WrapIsMod(y);
    var d := Wrap(x) - Wrap(y);
    assert d == (x - y) + TWO64 * (y / TWO64 - x / TWO64);
    DivUnique(d, TWO64, y / TWO64 - x / TWO64, x - y);
  }

  // ----- The queue both rings implement

  // The values in the ring, oldest first, sit in consecutive slots.
  ghost predicate InSlots<T>(slots: seq<T>, first: nat, items: seq<T>)
    requires slots != []
  {
    forall i :: 0 <= i < |items| ==> slots[SlotOf(first + i, |slots|)] == items[i]
  }

  lemma PushInSlots<T>(slots: seq<T>, first: nat, items: seq<T>, v: T)
    requires slots != [] && InSlots(slots, first, items) && |items| < |slots|
    ensures InSlots(slots[SlotOf(first + |items|, |slots|) := v], first, items + [v])
  {
    hide SlotOf;
    var t := slots[SlotOf(first + |items|, |slots|) := v];
    forall i | 0 <= i < |items + [v]|
      ensures t[SlotOf(first + i, |t|)] == (items + [v])[i]
    {
      if i < |items| {
        SlotsApart(first + i, first + |items|, |slots|);
        assert slots[SlotOf(first + i, |slots|)] == items[i];
      }
    }
  }

  lemma PopInSlots<T>(slots: seq<T>, first: nat, items: seq<T>, n: nat)
    requires slots != [] && InSlots(slots, first, items) && n <= |items|
    ensures InSlots(slots, first + n, items[n..])
  {
    forall i | 0 <= i < |items[n..]|
      ensures slots[SlotOf(first + n + i, |slots|)] == items[n..][i]
    {
      assert slots[SlotOf(first + (n + i), |slots|)] == items[n + i];
    }
  }

  lemma ReadSlot<T>(slots: seq<T>, first: nat, items: seq<T>, i: nat)
    requires slots != [] && InSlots(slots, first, items) && i < |items|
    ensures slots[SlotOf(first + i, |slots|)] == items[i]
  {
  }

  class Spsc<T(0)> {
    const slots: array<T>
    const mask: U64
    var tail: U64
    var headCache: U64
    var highWater: U64
    var head: U64
    var tailCache: U64

    ghost const bits: nat
    ghost var items: seq<T>     // what the ring holds, oldest first
    ghost var popped: nat       // how many values ever left it
    ghost var headSeen: nat     // the unwrapped values of the cached peer indices
    ghost var tailSeen: nat

    ghost predicate Valid()
      reads this, slots
    {
      && bits <= 63 && slots.Length == Pow2(bits) && mask == slots.Length - 1
      && tail == Wrap(popped + |items|) && head == Wrap(popped)
      && headCache == Wrap(headSeen) && tailCache == Wrap(tailSeen)
      && headSeen <= popped <= tailSeen <= popped + |items| <= headSeen + slots.Length
      && InSlots(slots[..], popped, items)
      && |items| <= highWater <= slots.Length
    }

    constructor (capacity: U64, ghost bits: nat)
      requires bits <= 63 && capacity == Pow2(bits)
      ensures Valid() && items == [] && fresh(slots) && slots.Length == capacity
      ensures popped == headSeen == tailSeen == highWater == 0
    {
      slots := new T[capacity];
      mask := capacity - 1;
      tail, headCache, highWater, head, tailCache := 0, 0, 0, 0, 0;
      this.bits := bits;
      items, popped, headSeen, tailSeen := [], 0, 0, 0;
    }

    method UpdateHighWater(occupancy: U64)
      modifies this`highWater
      ensures highWater == Max(old(highWater), occupancy)
    {
      if occupancy > highWater {
        highWater := occupancy;
      }
    }

    // Fails iff the ring is full. The mark rises to the occupancy the producer sees, which
    // is out of date by what was popped since it last found the ring full.
    method TryPush(value: T) returns (ok: bool)
      requires Valid()
      modifies this, slots
      ensures Valid() && old(highWater) <= highWater
      ensures ok <==> |old(items)| < slots.Length
      ensures items == if ok then old(items) + [value] else old(items)
      ensures headSeen == if old(popped + |items|) - old(headSeen) == slots.Length then popped else old(headSeen)
      ensures highWater == Max(old(highWater), popped + |items| - headSeen)
      ensures !ok ==> highWater == slots.Length
      ensures popped == old(popped) && tailSeen == old(tailSeen)
    {
      hide SlotOf, Pow2, Wrap, Sub64, BitAnd, InSlots;
      Fits();
      var t: int := tail;
      SubIsDistance(popped + |items|, headSeen);
      if Sub64(t, headCache) == slots.Length {
        headCache := head;
        headSeen := popped;
        SubIsDistance(popped + |items|, popped);
        if Sub64(t, headCache) == slots.Length {
          UpdateHighWater(slots.Length);
          return false;
        }
      }
      WrapKeepsSlot(popped + |items|, bits);
      PushInSlots(slots[..], popped, items, value);
      ghost var s := slots[..];
      slots[BitAnd(t, mask)] := value;
      assert slots[..] == s[SlotOf(popped + |items|, |s|) := value];
      WrapDrop(popped + |items|, 1);
      SubIsDistance(popped + |items| + 1, headSeen);
      var next := Wrap(t + 1);
      UpdateHighWater(Sub64(next, headCache));
      tail := next;
      items := items + [value];
      return true;
    }

    // Fails iff the ring is empty.
    method TryPop() returns (out: Option<T>)
      requires Valid()
      modifies this
      ensures Valid() && highWater == old(highWater)
      ensures out == if old(items) == [] then None else Some(old(items)[0])
      ensures items == if old(items) == [] then [] else old(items)[1..]
      ensures popped == old(popped) + |old(items)| - |items| && headSeen == old(headSeen)
      ensures tailSeen == if old(tailSeen) == old(popped) then old(popped) + |old(items)| else old(tailSeen)
    {
      hide SlotOf, Pow2, Wrap, Sub64, BitAnd, InSlots;
      Fits();
      var h: int := head;
      WrapsApart(tailSeen, popped);
      if h == tailCache {
        tailCache := tail;
        tailSeen := popped + |items|;
        WrapsApart(tailSeen, popped);
        if h == tailCache {
          return None;
        }
      }
      WrapKeepsSlot(popped, bits);
      ReadSlot(slots[..], popped, items, 0);
      out := Some(slots[BitAnd(h, mask)]);
      WrapDrop(popped, 1);
      PopInSlots(slots[..], popped, items, 1);
      head := Wrap(h + 1);
      popped := popped + 1;
      items := items[1..];
    }

    // Copies the n oldest values out of their slots.
    method CopyOut(n: U64) returns (out: seq<T>)
      requires Valid() && n <= |items|
      ensures out == items[..n]
    {
      hide SlotOf, Pow2, Wrap, BitAnd, InSlots;
      out := [];
      var i: U64 := 0;
      while i < n
        invariant 0 <= i <= n && out == items[..i]
      {
        WrapKeepsSlot(popped + i, bits);
        WrapDrop(popped, i);
        ReadSlot(slots[..], popped, items, i);
        out := out + [slots[BitAnd(Wrap(head + i), mask)]];
        i := i + 1;
      }
    }

    // Takes what the consumer knows of, up to maxItems; it looks for more only when it
    // knows of nothing, so the batch is empty only if the ring is.
    method TryPopBatch(maxItems: U64) returns (out: seq<T>)
      requires Valid() && maxItems > 0
      modifies this
      ensures Valid() && highWater == old(highWater)
      ensures |out| <= |old(items)| && out == old(items)[..|out|] && items == old(items)[|out|..]
      ensures |out| <= maxItems && (out == [] <==> old(items) == [])
      ensures var known := old(tailSeen) - old(popped);
              |out| == Min(maxItems, if known == 0 then |old(items)| else known)
      ensures popped == old(popped) + |out| && headSeen == old(headSeen)
      ensures tailSeen == if old(tailSeen) == old(popped) then old(popped) + |old(items)| else old(tailSeen)
    {
      hide SlotOf, Pow2, Wrap, Sub64, BitAnd, InSlots;
      Fits();
      var h: int := head;
      SubIsDistance(tailSeen, popped);
      var available := Sub64(tailCache, h);
      if available == 0 {
        tailCache := tail;
        tailSeen := popped + |items|;
        SubIsDistance(tailSeen, popped);
        available := Sub64(tailCache, h);
        if available == 0 {
          return [];
        }
      }
      var n := if available < maxItems then available else maxItems;
      assert n <= |items|;
      out := CopyOut(n);
      WrapDrop(popped, n);
      PopInSlots(slots[..], popped, items, n);
      head := Wrap(h + n);
      popped := popped + n;
      items := items[n..];
    }

    lemma Fits()
      requires Valid()
      ensures 1 <= slots.Length <= TWO64 / 2
    {
      Pow2Of64();
      Pow2Splits(bits, 63);
      Pow2Splits(63, 64);
      assert Pow2(63) == Pow2(bits) * Pow2(63 - bits) >= Pow2(bits);
    }
  }

  // Equal wrapped indices less than 2^64 apart are equal indices.
  lemma WrapsApart(x: nat, y: nat)
    requires y <= x < y + TWO64
    ensures Wrap(x) == Wrap(y) <==> x == y
  {
    SubIsDistance(x, y);
  }

  // The textbook ring: every call loads the peer's index.
  class UncachedSpsc<T(0)> {
    const slots: array<T>
    const mask: U64
    var tail: U64
    var head: U64

    ghost const bits: nat
    ghost var items: seq<T>
    ghost var popped: nat

    ghost predicate Valid()
      reads this, slots
    {
      && bits <= 63 && slots.Length == Pow2(bits) <= TWO64 / 2 && mask == slots.Length - 1
      && tail == Wrap(popped + |items|) && head == Wrap(popped)
      && |items| <= slots.Length && InSlots(slots[..], popped, items)
    }

    constructor (capacity: U64, ghost bits: nat)
      requires bits <= 63 && capacity == Pow2(bits) <= TWO64 / 2
      ensures Valid() && items == [] && fresh(slots) && slots.Length == capacity
    {
      slots := new T[capacity];
      mask := capacity - 1;
      tail, head := 0, 0;
      this.bits := bits;
      items, popped := [], 0;
    }

    method TryPush(value: T) returns (ok: bool)
      requires Valid()
      modifies this, slots
      ensures Valid()
      ensures ok <==> |old(items)| < slots.Length
      ensures items == if ok then old(items) + [value] else old(items)
    {
      hide SlotOf, Pow2, Wrap, Sub64, BitAnd, InSlots;
      var t: int := tail;
      SubIsDistance(popped + |items|, popped);
      if Sub64(t, head) == slots.Length {
        return false;
      }
      WrapKeepsSlot(popped + |items|, bits);
      PushInSlots(slots[..], popped, items, value);
      ghost var s := slots[..];
      slots[BitAnd(t, mask)] := value;
      assert slots[..] == s[SlotOf(popped + |items|, |s|) := value];
      WrapDrop(popped + |items|, 1);
      tail := Wrap(t + 1);
      items := items + [value];
      return true;
    }

    method TryPop() returns (out: Option<T>)
      requires Valid()
      modifies this
      ensures Valid()
      ensures out == if old(items) == [] then None else Some(old(items)[0])
      ensures items == if old(items) == [] then [] else old(items)[1..]
    {
      hide SlotOf, Pow2, Wrap, Sub64, BitAnd, InSlots;
      var h: int := head;
      WrapsApart(popped + |items|, popped);
      if h == tail {
        return None;
      }
      WrapKeepsSlot(popped, bits);
      ReadSlot(slots[..], popped, items, 0);
      out := Some(slots[BitAnd(h, mask)]);
      WrapDrop(popped, 1);
      PopInSlots(slots[..], popped, items, 1);
      head := Wrap(h + 1);
      popped := popped + 1;
      items := items[1..];
    }
  }

  // ----- Both rings, driven by one script, answer alike

  datatype Call<T> = Push(value: T) | Pop | PopBatch(max: U64)

  datatype Answer<T> = Pushed(ok: bool) | Popped(out: Option<T>) | PoppedBatch(batch: seq<T>)

  // What a bounded queue may answer: how much a batch pop takes is left open, but it is
  // a prefix, and something whenever there is anything.
  ghost predicate Answers<T>(items: seq<T>, capacity: nat, call: Call<T>, answer: Answer<T>) {
    match call
    case Push(_) => answer == Pushed(|items| < capacity)
    case Pop => answer == Popped(if items == [] then None else Some(items[0]))
    case PopBatch(max) =>
      && answer.PoppedBatch? && answer.batch <= items
      && |answer.batch| <= max && (answer.batch == [] <==> items == [])
  }

  // What the call leaves in the queue.
  ghost function After<T>(items: seq<T>, capacity: nat, call: Call<T>, answer: Answer<T>): seq<T> {
    match call
    case Push(v) => if |items| < capacity then items + [v] else items
    case Pop => if items == [] then [] else items[1..]
    case PopBatch(_) => if answer.PoppedBatch? && answer.batch <= items then items[|answer.batch|..] else items
  }

  ghost function Left<T>(capacity: nat, script: seq<Call<T>>, answers: seq<Answer<T>>): seq<T>
    requires |script| == |answers|
    decreases |script|
  {
    if script == [] then []
    else
      var n := |script| - 1;
      After(Left(capacity, script[..n], answers[..n]), capacity, script[n], answers[n])
  }

  // Every answer is one of the bounded queue after the calls before it.
  ghost predicate Serves<T>(capacity: nat, script: seq<Call<T>>, answers: seq<Answer<T>>) {
    && |answers| == |script|
    && forall k :: 0 <= k < |script| ==>
         Answers(Left(capacity, script[..k], answers[..k]), capacity, script[k], answers[k])
  }

  lemma ServesMore<T>(capacity: nat, script: seq<Call<T>>, answers: seq<Answer<T>>, call: Call<T>, answer: Answer<T>)
    requires Serves(capacity, script, answers)
    requires Answers(Left(capacity, script, answers), capacity, call, answer)
    ensures Serves(capacity, script + [call], answers + [answer])
    ensures Left(capacity, script + [call], answers + [answer])
         == After(Left(capacity, script, answers), capacity, call, answer)
  {
    hide Answers, After;
    var n, more, given := |script|, script + [call], answers + [answer];
    assert more[..n] == script && given[..n] == answers;
    forall k | 0 <= k < |more|
      ensures Answers(Left(capacity, more[..k], given[..k]), capacity, more[k], given[k])
    {
      if k < n {
        assert more[..k] == script[..k] && given[..k] == answers[..k];
      }
    }
  }

  // The textbook ring has no batch pop: it pops one by one.
  method PopMany<T(0)>(b: UncachedSpsc<T>, n: nat) returns (out: seq<T>)
    requires b.Valid() && n <= |b.items|
    modifies b
    ensures b.Valid() && out == old(b.items)[..n] && b.items == old(b.items)[n..]
  {
    hide SlotOf, Pow2, Wrap, BitAnd, InSlots;
    out := [];
    while |out| < n
      invariant |out| <= n && b.Valid() && out == old(b.items)[..|out|] && b.items == old(b.items)[|out|..]
    {
      var v := b.TryPop();
      out := out + [v.value];
    }
  }

  method CallBoth<T(0)>(a: Spsc<T>, b: UncachedSpsc<T>, call: Call<T>)
    returns (cached: Answer<T>, uncached: Answer<T>)
    requires a.Valid() && b.Valid() && a.items == b.items && a.slots != b.slots
    requires a.slots.Length == b.slots.Length
    requires call.PopBatch? ==> call.max > 0
    modifies a, b, a.slots, b.slots
    ensures a.Valid() && b.Valid()
    ensures cached == uncached && Answers(old(a.items), a.slots.Length, call, cached)
    ensures a.items == b.items == After(old(a.items), a.slots.Length, call, cached)
  {
    hide SlotOf, Pow2, Wrap, BitAnd, InSlots;
    match call
    case Push(v) =>
      var x := a.TryPush(v);
      var y := b.TryPush(v);
      cached, uncached := Pushed(x), Pushed(y);
    case Pop =>
      var x := a.TryPop();
      var y := b.TryPop();
      cached, uncached := Popped(x), Popped(y);
    case PopBatch(max) =>
      var x := a.TryPopBatch(max);
      var y := PopMany(b, |x|);
      cached, uncached := PoppedBatch(x), PoppedBatch(y);
  }

  method RunRings<T(0)>(capacity: U64, ghost bits: nat, script: seq<Call<T>>)
    returns (cached: seq<Answer<T>>, uncached: seq<Answer<T>>)
    requires bits <= 63 && capacity == Pow2(bits) <= TWO64 / 2
    requires forall k :: 0 <= k < |script| && script[k].PopBatch? ==> script[k].max > 0
    ensures cached == uncached && Serves(capacity, script, cached)
  {
    hide SlotOf, Pow2, Wrap, BitAnd, InSlots, After, Answers;
    var a := new Spsc<T>(capacity, bits);
    var b := new UncachedSpsc<T>(capacity, bits);
    cached, uncached := [], [];
    var k := 0;
    while k < |script|
      invariant 0 <= k <= |script| && cached == uncached
      invariant a.Valid() && b.Valid() && a.items == b.items
      invariant fresh(a) && fresh(b) && fresh(a.slots) && fresh(b.slots) && a.slots != b.slots
      invariant a.slots.Length == b.slots.Length == capacity
      invariant Serves(capacity, script[..k], cached) && a.items == Left(capacity, script[..k], cached)
    {
      var x, y := CallBoth(a, b, script[k]);
      ServesMore(capacity, script[..k], cached, script[k], x);
      assert script[..k + 1] == script[..k] + [script[k]];
      cached, uncached := cached + [x], uncached + [y];
      k := k + 1;
    }
    assert script[..k] == script;
  }
}
