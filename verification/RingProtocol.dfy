/**
 The single-producer single-consumer ring as two threads of small steps over shared
 indices. An acquire load of the peer's index may return any value between what the
 reader last saw and the current one. A run is any sequence of actions of the two
 threads; an action not possible in a state leaves it alone.
 */
module RingProtocol {
  import opened Types
  import opened Bits

  // try_push: load own index, check against the cached head (refreshing it when the
  // ring looks full), copy the value, raise the high-water mark, publish the tail.
  datatype Producer<T> =
    | PIdle
    | PCheck(value: T, t: nat)
    | PWrite(value: T, t: nat)
    | PMark(value: T, t: nat)
    | PPublish(value: T, t: nat)
    | PFull(value: T)

  // try_pop_batch: load own index, check against the cached tail (refreshing it when
  // the ring looks empty), copy n values, release them all at once.
  datatype Consumer<T> =
    | CIdle
    | CCheck(max: nat, h: nat)
    | CCopy(n: nat, h: nat, out: seq<T>)
    | CReturned(out: seq<T>)

  datatype Ring<T> = Ring(
    slots: seq<T>,
    tail: nat,
    headCache: nat,
    highWater: nat,
    head: nat,
    tailCache: nat,
    tailView: nat,        // no later acquire load of the tail returns less
    producer: Producer<T>,
    consumer: Consumer<T>,
    pushed: seq<T>,       // every value published so far
    popped: seq<T>)       // every value released so far

  datatype Action<T> =
    | StartPush(value: T)
    | TrustHead
    | RefreshHead(seen: nat)
    | Copy
    | Mark
    | Publish
    | ReturnFull
    | StartPop(max: nat)
    | TrustTail
    | RefreshTail(seen: nat)
    | CopyOut
    | Release
    | Collect

  function Cap<T>(r: Ring<T>): nat {
    |r.slots|
  }

  // The slot of the i-th value: the index masked by the capacity.
  function SlotOf(i: nat, cap: nat): (k: nat)
    requires cap > 0
    ensures k < cap
  {
    i % cap
  }

  predicate Possible<T>(r: Ring<T>, a: Action<T>) {
    match a
    case StartPush(_) => r.producer.PIdle?
    case TrustHead => r.producer.PCheck? && r.producer.t - r.headCache != Cap(r)
    case RefreshHead(h) => r.producer.PCheck? && r.producer.t - r.headCache == Cap(r) && r.headCache <= h <= r.head
    case Copy => r.producer.PWrite? && Cap(r) > 0
    case Mark => r.producer.PMark?
    case Publish => r.producer.PPublish?
    case ReturnFull => r.producer.PFull?
    case StartPop(max) => r.consumer.CIdle? && max > 0
    case TrustTail => r.consumer.CCheck? && r.tailCache != r.consumer.h
    case RefreshTail(t) => r.consumer.CCheck? && r.tailCache == r.consumer.h && r.tailView <= t <= r.tail
    case CopyOut => r.consumer.CCopy? && |r.consumer.out| < r.consumer.n && Cap(r) > 0
    case Release => r.consumer.CCopy? && |r.consumer.out| == r.consumer.n
    case Collect => r.consumer.CReturned?
  }

  function BatchSize(available: int, max: nat): nat {
    if 0 <= available < max then available else max
  }

  function Do<T>(r: Ring<T>, a: Action<T>): Ring<T>
    requires Possible(r, a)
  {
    match a
    case StartPush(v) => r.(producer := PCheck(v, r.tail))
    case TrustHead => r.(producer := PWrite(r.producer.value, r.producer.t))
    case RefreshHead(h) =>
      if r.producer.t - h == Cap(r)
      then r.(headCache := h, producer := PFull(r.producer.value), highWater := Max(r.highWater, Cap(r)))
      else r.(headCache := h, producer := PWrite(r.producer.value, r.producer.t))
    case Copy =>
      r.(slots := r.slots[SlotOf(r.producer.t, Cap(r)) := r.producer.value],
         producer := PMark(r.producer.value, r.producer.t))
    case Mark =>
      r.(highWater := Max(r.highWater, r.producer.t + 1 - r.headCache),
         producer := PPublish(r.producer.value, r.producer.t))
    case Publish =>
      r.(tail := r.producer.t + 1, pushed := r.pushed + [r.producer.value], producer := PIdle)
    case ReturnFull => r.(producer := PIdle)
    case StartPop(max) => r.(consumer := CCheck(max, r.head))
    case TrustTail => r.(consumer := CCopy(BatchSize(r.tailCache - r.consumer.h, r.consumer.max), r.consumer.h, []))
    case RefreshTail(t) =>
      var seen := r.(tailCache := t, tailView := t);
      if t == r.consumer.h then seen.(consumer := CReturned([]))
      else seen.(consumer := CCopy(BatchSize(t - r.consumer.h, r.consumer.max), r.consumer.h, []))
    case CopyOut =>
      r.(consumer := r.consumer.(out := r.consumer.out + [r.slots[SlotOf(r.consumer.h + |r.consumer.out|, Cap(r))]]))
    case Release =>
      r.(head := r.consumer.h + r.consumer.n, popped := r.popped + r.consumer.out,
         consumer := CReturned(r.consumer.out))
    case Collect => r.(consumer := CIdle)
  }

  function Step<T>(r: Ring<T>, a: Action<T>): Ring<T> {
    if Possible(r, a) then Do(r, a) else r
  }

  function Steps<T>(r: Ring<T>, actions: seq<Action<T>>): Ring<T>
    decreases |actions|
  {
    if actions == [] then r else Steps(Step(r, actions[0]), actions[1..])
  }

  function Start<T>(slots: seq<T>): Ring<T> {
    Ring(slots, 0, 0, 0, 0, 0, 0, PIdle, CIdle, [], [])
  }

  // ----- The invariant

  ghost predicate IndicesOk<T>(r: Ring<T>) {
    && r.headCache <= r.head <= r.tailCache <= r.tailView <= r.tail <= r.headCache + Cap(r)
    && |r.pushed| == r.tail && r.popped == r.pushed[..r.head] && Cap(r) > 0
    && r.tail - r.head <= r.highWater <= Cap(r)
  }

  // Each published and unreleased value is in its slot.
  ghost predicate ContentsOk<T>(r: Ring<T>)
    requires IndicesOk(r)
  {
    forall i :: r.head <= i < r.tail ==> r.slots[SlotOf(i, Cap(r))] == r.pushed[i]
  }

  ghost predicate ProducerOk<T>(r: Ring<T>)
    requires IndicesOk(r)
  {
    match r.producer
    case PIdle => true
    case PFull(_) => true
    case PCheck(_, t) => t == r.tail
    case PWrite(_, t) => t == r.tail && t < r.headCache + Cap(r)
    case PMark(v, t) => t == r.tail && t < r.headCache + Cap(r) && r.slots[SlotOf(t, Cap(r))] == v
    case PPublish(v, t) =>
      t == r.tail && t < r.headCache + Cap(r) && r.slots[SlotOf(t, Cap(r))] == v && t + 1 - r.headCache <= r.highWater
  }

  ghost predicate ConsumerOk<T>(r: Ring<T>)
    requires IndicesOk(r)
  {
    match r.consumer
    case CIdle => true
    case CReturned(out) => |out| <= r.head && out == r.pushed[r.head - |out|..r.head]
    case CCheck(max, h) => h == r.head && max > 0
    case CCopy(n, h, out) =>
      && h == r.head && 0 < n && h + n <= r.tailCache && |out| <= n
      && out == r.pushed[h..h + |out|]
  }

  ghost predicate RingOk<T>(r: Ring<T>) {
    IndicesOk(r) && ContentsOk(r) && ProducerOk(r) && ConsumerOk(r)
  }

  lemma SlotsApart(j: nat, t: nat, cap: nat)
    requires cap > 0 && j < t < j + cap
    ensures SlotOf(j, cap) != SlotOf(t, cap)
  {
    if j % cap == t % cap {
      var q := t / cap - j / cap;
      assert t - j == cap * q;
      MultipleSize(cap, q);
      assert false;
    }
  }

  // The slot being written is never one a pending batch still has to read, nor one that
  // holds an unreleased value.
  lemma NoRace<T>(r: Ring<T>, i: nat)
    requires RingOk(r) && r.producer.PWrite?
    ensures r.head <= i < r.tail ==> SlotOf(i, Cap(r)) != SlotOf(r.producer.t, Cap(r))
    ensures r.consumer.CCopy? && r.consumer.h + |r.consumer.out| <= i < r.consumer.h + r.consumer.n ==>
      SlotOf(i, Cap(r)) != SlotOf(r.producer.t, Cap(r))
  {
    hide SlotOf;
    if r.head <= i < r.tail {
      SlotsApart(i, r.producer.t, Cap(r));
    }
  }

  lemma CopyOk<T>(r: Ring<T>)
    requires RingOk(r) && r.producer.PWrite?
    ensures RingOk(Do(r, Copy))
  {
    var d := Do(r, Copy);
    forall i | r.head <= i < r.tail
      ensures d.slots[SlotOf(i, Cap(d))] == d.pushed[i]
    {
      NoRace(r, i);
    }
  }

  lemma PublishOk<T>(r: Ring<T>)
    requires RingOk(r) && r.producer.PPublish?
    ensures RingOk(Do(r, Publish))
  {
    var d := Do(r, Publish);
    assert d.pushed[..r.tail] == r.pushed;
    assert d.popped == d.pushed[..d.head];
    forall i | d.head <= i < d.tail
      ensures d.slots[SlotOf(i, Cap(d))] == d.pushed[i]
    {
      if i < r.tail {
        assert r.slots[SlotOf(i, Cap(r))] == r.pushed[i];
      }
    }
    match r.consumer
    case CCopy(n, h, out) => assert d.pushed[h..h + |out|] == r.pushed[h..h + |out|];
    case CReturned(out) => assert d.pushed[r.head - |out|..r.head] == r.pushed[r.head - |out|..r.head];
    case _ =>
  }

  lemma CopyOutOk<T>(r: Ring<T>)
    requires RingOk(r) && Possible(r, CopyOut)
    ensures RingOk(Do(r, CopyOut))
  {
    var i := r.consumer.h + |r.consumer.out|;
    assert r.slots[SlotOf(i, Cap(r))] == r.pushed[i];
  }

  lemma ReleaseOk<T>(r: Ring<T>)
    requires RingOk(r) && Possible(r, Release)
    ensures RingOk(Do(r, Release))
  {
    var d := Do(r, Release);
    assert d.popped == d.pushed[..d.head];
  }

  predicate ByProducer<T>(a: Action<T>) {
    a.StartPush? || a.TrustHead? || a.RefreshHead? || a.Copy? || a.Mark? || a.Publish? || a.ReturnFull?
  }

  lemma ProducerStepOk<T>(r: Ring<T>, a: Action<T>)
    requires RingOk(r) && Possible(r, a) && ByProducer(a)
    ensures RingOk(Do(r, a))
    ensures r.highWater <= Do(r, a).highWater && Cap(Do(r, a)) == Cap(r)
    ensures r.pushed <= Do(r, a).pushed && r.popped == Do(r, a).popped
  {
    hide SlotOf;
    match a
    case Copy => CopyOk(r);
    case Publish => PublishOk(r);
    case _ =>
  }

  lemma ConsumerStepOk<T>(r: Ring<T>, a: Action<T>)
    requires RingOk(r) && Possible(r, a) && !ByProducer(a)
    ensures RingOk(Do(r, a))
    ensures r.highWater == Do(r, a).highWater && Cap(Do(r, a)) == Cap(r)
    ensures r.pushed == Do(r, a).pushed && r.popped <= Do(r, a).popped
  {
    hide SlotOf;
    match a
    case CopyOut => CopyOutOk(r);
    case Release => ReleaseOk(r);
    case _ =>
  }

  // Every small step keeps the invariant; the high-water mark never falls.
  lemma StepOk<T>(r: Ring<T>, a: Action<T>)
    requires RingOk(r)
    ensures RingOk(Step(r, a))
    ensures r.highWater <= Step(r, a).highWater && Cap(Step(r, a)) == Cap(r)
    ensures r.pushed <= Step(r, a).pushed && r.popped <= Step(r, a).popped
  {
    hide RingOk;
    if Possible(r, a) {
      if ByProducer(a) {
        ProducerStepOk(r, a);
      } else {
        ConsumerStepOk(r, a);
      }
    }
  }

  // In every interleaving the invariant holds, and what was popped is a prefix of what
  // was pushed: nothing is lost, duplicated or reordered.
  lemma {:induction false} EveryInterleaving<T>(r: Ring<T>, actions: seq<Action<T>>)
    requires RingOk(r)
    ensures RingOk(Steps(r, actions))
    ensures Steps(r, actions).popped <= Steps(r, actions).pushed
    decreases |actions|
  {
    if actions != [] {
      StepOk(r, actions[0]);
      EveryInterleaving(Step(r, actions[0]), actions[1..]);
    }
  }

  lemma FromStart<T>(slots: seq<T>, actions: seq<Action<T>>)
    requires slots != []
    ensures RingOk(Steps(Start(slots), actions))
    ensures Steps(Start(slots), actions).popped <= Steps(Start(slots), actions).pushed
  {
    EveryInterleaving(Start(slots), actions);
  }

  // A push fails only when the head the producer just read left no room, a pop only when
  // the tail the consumer just read left nothing.
  lemma FailuresAreReal<T>(r: Ring<T>, a: Action<T>)
    requires RingOk(r) && Possible(r, a)
    ensures Do(r, a).producer.PFull? && !r.producer.PFull? ==>
      a.RefreshHead? && Do(r, a).tail == a.seen + Cap(r) && Do(r, a).highWater == Cap(r)
    ensures Do(r, a).consumer == CReturned([]) && r.consumer != CReturned([]) ==>
      a.RefreshTail? && a.seen == r.head
  {
  }

  // A pop settles what it takes in one step: everything up to the tail it trusts or has
  // just read, but no more than its limit.
  lemma BatchTakes<T>(r: Ring<T>, a: Action<T>)
    requires RingOk(r) && Possible(r, a) && r.consumer.CCheck? && !ByProducer(a)
    ensures var known := (if a.RefreshTail? then a.seen else r.tailCache) - |r.popped|;
            && known >= 0 && Do(r, a).tailCache == |r.popped| + known
            && Do(r, a).consumer ==
                 if known == 0 then CReturned([]) else CCopy(Min(r.consumer.max, known), |r.popped|, [])
  {
  }

  // The high-water mark rises only to an occupancy the producer sees: with its new value,
  // against the head it last read, or the whole ring when that head leaves no room.
  lemma MarkIsOccupancy<T>(r: Ring<T>, a: Action<T>)
    requires RingOk(r) && Possible(r, a)
    ensures Do(r, a).highWater ==
      if a.Mark? then Max(r.highWater, |r.pushed| + 1 - r.headCache)
      else if a.RefreshHead? && |r.pushed| - a.seen == Cap(r) then Cap(r)
      else r.highWater
  {
  }
}
