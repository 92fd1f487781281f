/**
 The consumer loops built on the ring, the engine's run and the logger's consume: pop a
 batch, handle it, and when a pop comes back empty either return, if stop was already
 seen, or look at the stop flag and pop again. The producer stores stop after its last
 push. In every interleaving the loop returns only once everything pushed is handled.
 */
module DrainProtocol {
  import opened Types
  import opened RingProtocol

  const BATCH: nat := 256

  datatype Pc<T> =
    | Popping
    | Handling(batch: seq<T>, done: nat)
    | Deciding
    | Returned

  datatype Loop<T> = Loop(
    ring: Ring<T>,
    pc: Pc<T>,
    stopping: bool,        // the loop's own record of having read stop == true
    stopStored: bool,
    tailAtStop: nat,
    handled: seq<T>,       // what the loop handled so far, in order
    counted: nat,          // its running count, raised once per batch
    attempts: seq<(T, bool)>)  // completed push attempts and their outcome

  datatype LoopAction<T> =
    | OnRing(a: Action<T>)
    | StoreStop
    | TakeBatch
    | HandleOne
    | FinishBatch
    | LoadStop(seen: bool)

  predicate LoopPossible<T>(l: Loop<T>, a: LoopAction<T>) {
    match a
    case OnRing(b) =>
      && Possible(l.ring, b)
      && (b.StartPush? ==> !l.stopStored)
      && (b.StartPop? ==> l.pc.Popping? && b.max == BATCH)
      && !b.Collect?
    case StoreStop => l.ring.producer.PIdle? && !l.stopStored
    case TakeBatch => l.pc.Popping? && l.ring.consumer.CReturned?
    case HandleOne => l.pc.Handling? && l.pc.done < |l.pc.batch|
    case FinishBatch => l.pc.Handling? && l.pc.done == |l.pc.batch|
    case LoadStop(seen) => l.pc.Deciding? && (seen ==> l.stopStored)
  }

  // A push attempt completes by publishing the value or by finding the ring full.
  function Attempted<T>(l: Loop<T>, b: Action<T>): seq<(T, bool)>
    requires Possible(l.ring, b)
  {
    if b.Publish? then l.attempts + [(l.ring.producer.value, true)]
    else if b.ReturnFull? then l.attempts + [(l.ring.producer.value, false)]
    else l.attempts
  }

  function LoopDo<T>(l: Loop<T>, a: LoopAction<T>): Loop<T>
    requires LoopPossible(l, a)
  {
    match a
    case OnRing(b) => l.(ring := Do(l.ring, b), attempts := Attempted(l, b))
    case StoreStop => l.(stopStored := true, tailAtStop := l.ring.tail)
    case TakeBatch =>
      var out := l.ring.consumer.out;
      l.(ring := Do(l.ring, Collect),
         pc := if out != [] then Handling(out, 0) else if l.stopping then Returned else Deciding)
    case HandleOne =>
      l.(handled := l.handled + [l.pc.batch[l.pc.done]], pc := l.pc.(done := l.pc.done + 1))
    case FinishBatch => l.(counted := l.counted + |l.pc.batch|, pc := Popping)
    case LoadStop(seen) =>
      // Reading true synchronises with the store: later loads see at least that tail.
      l.(stopping := seen, pc := Popping,
         ring := if seen then l.ring.(tailView := Max(l.ring.tailView, l.tailAtStop)) else l.ring)
  }

  function LoopStep<T>(l: Loop<T>, a: LoopAction<T>): Loop<T> {
    if LoopPossible(l, a) then LoopDo(l, a) else l
  }

  function LoopStart<T>(slots: seq<T>): Loop<T> {
    Loop(RingProtocol.Start(slots), Popping, false, false, 0, [], 0, [])
  }

  // ----- The invariant

  function AcceptedOf<T>(attempts: seq<(T, bool)>): seq<T> {
    if attempts == [] then []
    else AcceptedOf(attempts[..|attempts| - 1])
         + (if attempts[|attempts| - 1].1 then [attempts[|attempts| - 1].0] else [])
  }

  function RefusedCount<T>(attempts: seq<(T, bool)>): nat {
    if attempts == [] then 0
    else RefusedCount(attempts[..|attempts| - 1]) + (if attempts[|attempts| - 1].1 then 0 else 1)
  }

  lemma AcceptedSnoc<T>(attempts: seq<(T, bool)>, v: T, ok: bool)
    ensures AcceptedOf(attempts + [(v, ok)]) == AcceptedOf(attempts) + (if ok then [v] else [])
    ensures RefusedCount(attempts + [(v, ok)]) == RefusedCount(attempts) + (if ok then 0 else 1)
  {
    assert (attempts + [(v, ok)])[..|attempts|] == attempts;
  }

  lemma {:induction false} AttemptsAddUp<T>(attempts: seq<(T, bool)>)
    ensures |AcceptedOf(attempts)| + RefusedCount(attempts) == |attempts|
  {
    if attempts != [] {
      AttemptsAddUp(attempts[..|attempts| - 1]);
    }
  }

  // Popped and not yet handled.
  function Pending<T>(l: Loop<T>): seq<T> {
    if l.pc.Handling? && l.pc.done <= |l.pc.batch| then l.pc.batch[l.pc.done..]
    else if l.ring.consumer.CReturned? then l.ring.consumer.out
    else []
  }

  ghost predicate HandledOk<T>(l: Loop<T>) {
    && l.handled + Pending(l) == l.ring.popped
    && (l.pc.Handling? ==> l.pc.done <= |l.pc.batch|)
    && (!l.pc.Popping? ==> l.ring.consumer.CIdle?)
    && l.counted + (if l.pc.Handling? then l.pc.done else 0) == |l.handled|
    && AcceptedOf(l.attempts) == l.ring.pushed
  }

  ghost predicate StopOk<T>(l: Loop<T>) {
    && (l.stopStored ==> l.ring.producer.PIdle? && l.ring.tail == l.tailAtStop)
    && (l.stopping ==> l.stopStored && l.ring.tailView == l.ring.tail)
    && (l.stopping && l.ring.consumer == CReturned([]) ==> l.ring.head == l.ring.tail)
    && (l.pc.Deciding? ==> !l.stopping)
    && (l.pc.Returned? ==> l.stopping && l.ring.head == l.ring.tail)
  }

  ghost predicate LoopOk<T>(l: Loop<T>) {
    RingOk(l.ring) && HandledOk(l) && StopOk(l)
  }

  // ----- Every step keeps it

  lemma ProducerActionOk<T>(l: Loop<T>, b: Action<T>)
    requires LoopOk(l) && LoopPossible(l, OnRing(b)) && ByProducer(b)
    ensures LoopOk(LoopDo(l, OnRing(b)))
  {
    hide RingOk, SlotOf, AcceptedOf;
    ProducerStepOk(l.ring, b);
    if b.Publish? {
      AcceptedSnoc(l.attempts, l.ring.producer.value, true);
    } else if b.ReturnFull? {
      AcceptedSnoc(l.attempts, l.ring.producer.value, false);
      assert l.ring.pushed + [] == l.ring.pushed;
    }
  }

  lemma EmptyMeansDrained<T>(r: Ring<T>, seen: nat)
    requires RingOk(r) && Possible(r, RefreshTail(seen)) && r.tailView == r.tail
    ensures Do(r, RefreshTail(seen)).consumer == CReturned([]) ==> r.head == r.tail
    ensures Do(r, RefreshTail(seen)).tailView == r.tail
  {
  }

  lemma ConsumerActionOk<T>(l: Loop<T>, b: Action<T>)
    requires LoopOk(l) && LoopPossible(l, OnRing(b)) && !ByProducer(b)
    ensures LoopOk(LoopDo(l, OnRing(b)))
  {
    hide RingOk, SlotOf, AcceptedOf;
    ConsumerStepOk(l.ring, b);
    if b.RefreshTail? && l.stopping {
      EmptyMeansDrained(l.ring, b.seen);
    }
    if b.Release? {
      ReleaseNonEmpty(l.ring);
      assert l.handled + [] == l.handled;
    }
  }

  lemma ReleaseNonEmpty<T>(r: Ring<T>)
    requires RingOk(r) && Possible(r, Release)
    ensures r.consumer.out != []
  {
  }

  lemma LoadStopOk<T>(l: Loop<T>, seen: bool)
    requires LoopOk(l) && LoopPossible(l, LoadStop(seen))
    ensures LoopOk(LoopDo(l, LoadStop(seen)))
  {
  }

  lemma LoopStepOk<T>(l: Loop<T>, a: LoopAction<T>)
    requires LoopOk(l)
    ensures LoopOk(LoopStep(l, a))
    ensures LoopStep(l, a).handled ==
      if LoopPossible(l, a) && a.HandleOne? then l.handled + [l.pc.batch[l.pc.done]] else l.handled
  {
    hide SlotOf, AcceptedOf;
    if LoopPossible(l, a) {
      match a
      case OnRing(b) =>
        if ByProducer(b) {
          ProducerActionOk(l, b);
        } else {
          ConsumerActionOk(l, b);
        }
      case LoadStop(seen) => LoadStopOk(l, seen);
      case _ =>
    }
  }

  // Once the loop has returned, the ring is empty and everything accepted was handled,
  // in order, and counted, whatever the batching and the interleaving.
  lemma ReturnedMeansDrained<T>(l: Loop<T>)
    requires LoopOk(l) && l.pc.Returned?
    ensures l.ring.head == l.ring.tail
    ensures l.handled == l.ring.pushed == AcceptedOf(l.attempts)
    ensures l.counted == |l.ring.pushed|
  {
    assert l.handled + [] == l.handled;
    assert l.ring.pushed[..l.ring.head] == l.ring.pushed;
  }

  // Nothing is unaccounted for at any moment.
  lemma AllAccountedFor<T>(l: Loop<T>)
    requires LoopOk(l)
    ensures |l.handled| + |Pending(l)| + (l.ring.tail - l.ring.head) + RefusedCount(l.attempts) == |l.attempts|
  {
    AttemptsAddUp(l.attempts);
  }

  // Sound for any run, from the start.
  function LoopSteps<T>(l: Loop<T>, actions: seq<LoopAction<T>>): Loop<T>
    decreases |actions|
  {
    if actions == [] then l else LoopSteps(LoopStep(l, actions[0]), actions[1..])
  }

  lemma {:induction false} EveryRunDrains<T>(l: Loop<T>, actions: seq<LoopAction<T>>)
    requires LoopOk(l)
    ensures LoopOk(LoopSteps(l, actions))
    ensures LoopSteps(l, actions).pc.Returned? ==>
      && LoopSteps(l, actions).handled == AcceptedOf(LoopSteps(l, actions).attempts)
      && LoopSteps(l, actions).counted == |LoopSteps(l, actions).handled|
    decreases |actions|
  {
    if actions == [] {
      if l.pc.Returned? {
        ReturnedMeansDrained(l);
      }
    } else {
      LoopStepOk(l, actions[0]);
      EveryRunDrains(LoopStep(l, actions[0]), actions[1..]);
    }
  }

  lemma StartOk<T>(slots: seq<T>)
    requires slots != []
    ensures LoopOk(LoopStart(slots))
  {
  }

  // ----- The drain completes

  // What the consumer does next when it reads fresh values.
  function NextAction<T>(l: Loop<T>): LoopAction<T> {
    match l.pc
    case Handling(batch, done) => if done < |batch| then HandleOne else FinishBatch
    case Deciding => LoadStop(true)
    case Returned => TakeBatch
    case Popping =>
      match l.ring.consumer
      case CIdle => OnRing(StartPop(BATCH))
      case CCheck(_, h) => if l.ring.tailCache != h then OnRing(TrustTail) else OnRing(RefreshTail(l.ring.tail))
      case CCopy(n, _, out) => if |out| < n then OnRing(CopyOut) else OnRing(Release)
      case CReturned(_) => TakeBatch
  }

  function Stage<T>(l: Loop<T>): nat {
    match l.pc
    case Handling(_, _) => 5
    case Deciding => 0
    case Returned => 0
    case Popping =>
      match l.ring.consumer
      case CIdle => 4
      case CCheck(_, _) => 3
      case CCopy(_, _, _) => 2
      case CReturned(out) => if out == [] then 1 else 6
  }

  function Togo<T>(l: Loop<T>): int {
    if l.pc.Handling? then |l.pc.batch| - l.pc.done
    else if l.ring.consumer.CCopy? then l.ring.consumer.n - |l.ring.consumer.out|
    else 0
  }

  lemma NextIsPossible<T>(l: Loop<T>)
    requires LoopOk(l) && l.stopStored && !l.pc.Returned?
    ensures LoopPossible(l, NextAction(l)) && NextAction(l) != LoadStop(false)
  {
  }

  // How far m is past l: the ring is drained first, then the stop is seen, then the
  // consumer moves through its stages.
  predicate Nearer<T>(l: Loop<T>, m: Loop<T>) {
    && m.stopStored && m.ring.tail == l.ring.tail && m.ring.head >= l.ring.head
    && (m.ring.head == l.ring.head ==>
          && (l.stopping ==> m.stopping)
          && (m.stopping == l.stopping ==>
                m.pc.Returned? || Stage(m) < Stage(l) || (Stage(m) == Stage(l) && 0 <= Togo(m) < Togo(l))))
  }

  // After the stop every step that can happen at all, with any stale view of the ring,
  // brings the loop nearer to its return; only a stop load that still reads false does not.
  lemma EveryStepAdvances<T>(l: Loop<T>, a: LoopAction<T>)
    requires LoopOk(l) && l.stopStored && !l.pc.Returned?
    requires LoopPossible(l, a) && a != LoadStop(false)
    ensures Nearer(l, LoopStep(l, a))
  {
    hide SlotOf, ContentsOk, ProducerOk, AcceptedOf;
  }

  // A schedule picks any possible step, except that it lets the loop see the stop.
  ghost predicate Schedules<T(!new)>(next: Loop<T> -> LoopAction<T>) {
    forall m: Loop<T> :: LoopOk(m) && m.stopStored && !m.pc.Returned? ==>
      LoopPossible(m, next(m)) && next(m) != LoadStop(false)
  }

  function Scheduled<T>(l: Loop<T>, next: Loop<T> -> LoopAction<T>, n: nat): Loop<T>
    decreases n
  {
    if n == 0 then l else Scheduled(LoopStep(l, next(l)), next, n - 1)
  }

  // So every schedule returns, after finitely many steps.
  lemma {:induction false} EveryScheduleReturns<T(!new)>(l: Loop<T>, next: Loop<T> -> LoopAction<T>) returns (n: nat)
    requires LoopOk(l) && l.stopStored && Schedules(next)
    ensures Scheduled(l, next, n).pc.Returned?
    decreases l.ring.tail - l.ring.head, if l.stopping then 0 else 1, Stage(l), Togo(l)
  {
    hide LoopOk, Stage, Togo, LoopDo;
    if l.pc.Returned? {
      n := 0;
    } else {
      var m := LoopStep(l, next(l));
      EveryStepAdvances(l, next(l));
      LoopStepOk(l, next(l));
      HeadBelowTail(m);
      if m.pc.Returned? {
        n := 1;
        assert Scheduled(m, next, 0) == m;
      } else {
        n := EveryScheduleReturns(m, next);
        n := n + 1;
      }
    }
  }

  // From any state after the stop, the consumer's own steps bring the loop to return.
  lemma {:induction false} DrainCompletes<T>(l: Loop<T>) returns (actions: seq<LoopAction<T>>)
    requires LoopOk(l) && l.stopStored
    ensures LoopSteps(l, actions).pc.Returned?
    decreases l.ring.tail - l.ring.head, if l.stopping then 0 else 1, Stage(l), Togo(l)
  {
    hide RingOk, HandledOk, StopOk, Stage, Togo, NextAction, LoopDo;
    if l.pc.Returned? {
      actions := [];
    } else {
      NextIsPossible(l);
      EveryStepAdvances(l, NextAction(l));
      LoopStepOk(l, NextAction(l));
      var m := LoopStep(l, NextAction(l));
      HeadBelowTail(m);
      if m.pc.Returned? {
        actions := [NextAction(l)];
        assert actions[1..] == [];
      } else {
        var rest := DrainCompletes(m);
        actions := [NextAction(l)] + rest;
        assert actions[1..] == rest;
      }
    }
  }

  lemma HeadBelowTail<T>(l: Loop<T>)
    requires LoopOk(l)
    ensures l.ring.head <= l.ring.tail
  {
  }
}
