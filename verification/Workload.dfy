/**
 The workload generator: a shadow engine decides which orders are live, a swap-removed
 index makes drawing one of them constant time, and together they guarantee that the
 generated commands are accepted when they are replayed.
 */
module Workload {
  import opened Types
  import opened OrderPools
  import opened BookSpec
  import opened BookRuns
  import opened Lifecycle
  import opened Engine

  datatype WorkloadConfig = WorkloadConfig(
    engine: EngineConfig,
    seed: U64,
    limitWeight: U32,
    marketWeight: U32,
    iocWeight: U32,
    cancelWeight: U32,
    minQty: Qty,
    maxQty: Qty,
    maxPriceOffset: U32,
    crossOneIn: U32,
    walkOneIn: U32,
    maxWalkStep: U32,
    walkRadius: U32,
    pad0: U32)

  function TotalWeight(cfg: WorkloadConfig): nat {
    cfg.limitWeight + cfg.marketWeight + cfg.iocWeight + cfg.cancelWeight
  }

  // What the constructor asserts, and room for the walk and the offsets below INT64_MAX.
  predicate WorkloadOk(cfg: WorkloadConfig) {
    && ConfigOk(cfg.engine)
    && 1 <= cfg.minQty <= cfg.maxQty
    && cfg.crossOneIn >= 1 && cfg.walkOneIn >= 1 && cfg.maxWalkStep >= 1
    && TotalWeight(cfg) > 0
    && cfg.engine.anchor + cfg.walkRadius + Max(cfg.maxWalkStep, cfg.maxPriceOffset) <= INT64_MAX
  }

  // ----- The index of live ids

  // `pos` maps each id of the list, and nothing else, to its place.
  ghost predicate IndexOk(ids: seq<OrderId>, pos: map<OrderId, nat>) {
    && (forall i :: 0 <= i < |ids| ==> ids[i] in pos && pos[ids[i]] == i)
    && (forall x :: x in pos ==> pos[x] < |ids| && ids[pos[x]] == x)
  }

  // The last id moves into the gap and the list gets shorter by one.
  function SwapRemove(ids: seq<OrderId>, at: nat): seq<OrderId>
    requires at < |ids|
  {
    ids[at := ids[|ids| - 1]][..|ids| - 1]
  }

  lemma IndexRemove(ids: seq<OrderId>, pos: map<OrderId, nat>, x: OrderId)
    requires IndexOk(ids, pos) && x in pos
    ensures IndexOk(SwapRemove(ids, pos[x]), pos[ids[|ids| - 1] := pos[x]] - {x})
    ensures forall y: OrderId :: y in SwapRemove(ids, pos[x]) <==> y in ids && y != x
    ensures var r := SwapRemove(ids, pos[x]);
            && |r| == |ids| - 1
            && forall i :: 0 <= i < |r| ==> r[i] == if ids[i] == x then ids[|ids| - 1] else ids[i]
  {
    var r := SwapRemove(ids, pos[x]);
    forall y: OrderId
      ensures y in r <==> y in ids && y != x
    {
      if y in ids && y != x {
        assert r[if pos[y] == |ids| - 1 then pos[x] else pos[y]] == y;
      }
    }
  }

  // ----- Events against the index

  predicate Removes(e: Event) {
    e.kind == Canceled || (e.kind == Traded && e.remaining == 0)
  }

  // Whether the index holds x starts as `held`, follows the events without an id being
  // added twice or removed when absent, and ends as `last`.
  ghost predicate Follows(held: bool, events: seq<Event>, x: OrderId, last: bool)
    decreases |events|
  {
    if events == [] then held == last
    else if !About(events[0], x) then Follows(held, events[1..], x, last)
    else if events[0].kind == Accepted then !held && Follows(true, events[1..], x, last)
    else if Removes(events[0]) then held && Follows(false, events[1..], x, last)
    else Follows(held, events[1..], x, last)
  }

  // The order protocol is what keeps the index in step.
  lemma {:induction false} LifeFollows(l: Life, events: seq<Event>, x: OrderId)
    requires LifeOf(l, events, x) != Broken
    ensures Follows(l.Working?, events, x, LifeOf(l, events, x).Working?)
    decreases |events|
  {
    if events != [] {
      var next := if About(events[0], x) then LifeStep(l, events[0]) else l;
      if next == Broken {
        BrokenStays(events[1..], x);
      }
      LifeFollows(next, events[1..], x);
    }
  }

  ghost predicate Tracks(ids: seq<OrderId>, b: Book) {
    forall x: OrderId :: x in ids <==> Open(b, x)
  }

  // With `events` still to be handled, the index will be in step with book `b`.
  ghost predicate Pending(ids: seq<OrderId>, events: seq<Event>, b: Book) {
    forall x: OrderId :: Follows(x in ids, events, x, Open(b, x))
  }

  ghost function LifeAt(b: Book, x: OrderId): (l: Life)
    ensures BookOk(b) ==> Agree(b, x, l)
  {
    if Open(b, x) then Working(LeftOn(SideOf(b, OpenSide(b, x)), x)) else Fresh
  }

  lemma PendingStart(s: State, op: Op, ids: seq<OrderId>)
    requires StateOk(s) && !op.OpAddLimit? && Tracks(ids, s.book)
    ensures Pending(ids, EventsOf(s, op), Apply(s, op).book)
  {
    forall x: OrderId
      ensures Follows(x in ids, EventsOf(s, op), x, Open(Apply(s, op).book, x))
    {
      PendingOne(s, op, x);
    }
  }

  lemma PendingCommand(e: EngineState, cmd: Command, ids: seq<OrderId>)
    requires StateOk(e.state) && Tracks(ids, e.state.book)
    ensures Pending(ids, EventsOf(e.state, OpOf(cmd)), Process(e, cmd).state.book)
  {
    hide StateOk, EventsOf, Apply, Pending, Tracks, Stats.Counted, Bits.Wrap;
    PendingStart(e.state, OpOf(cmd), ids);
  }

  lemma PendingOne(s: State, op: Op, x: OrderId)
    requires StateOk(s) && !op.OpAddLimit?
    ensures Follows(Open(s.book, x), EventsOf(s, op), x, Open(Apply(s, op).book, x))
  {
    hide LifeOf, Follows, EventsOf, Apply, LeftOn;
    var life := LifeAt(s.book, x);
    ApplyLife(s, op, x, life);
    LifeFollows(life, EventsOf(s, op), x);
  }

  // ----- Commands that are not refused

  // Valid price and quantity, or a cancel of an open order.
  ghost predicate Sound(b: Book, cmd: Command) {
    if cmd.kind == New then Validate(cmd.otype, cmd.price, cmd.qty) == NoReason else Open(b, cmd.id)
  }

  // Only a full pool ever refuses.
  ghost predicate Clean(events: seq<Event>) {
    forall k :: 0 <= k < |events| && events[k].kind == Rejected ==> events[k].reason == PoolExhausted
  }

  lemma {:induction false} SweepClean(opp: Levels, taker: Side, limit: Price, rem: Qty, id: OrderId)
    requires LevelsOk(opp, Opposite(taker))
    ensures Clean(Sweep(opp, taker, limit, rem, id).events)
    decreases rem
  {
    hide FillBest, Best, IsBest;
    if CanFill(opp, taker, limit, rem) {
      FrontOf(opp, Opposite(taker));
      var fill := Min(rem, Maker(opp, taker).remaining);
      SweepClean(FillBest(opp, taker, fill), taker, limit, rem - fill, id);
    }
  }

  lemma SoundIsClean(s: State, cmd: Command)
    requires StateOk(s) && Sound(s.book, cmd)
    ensures Clean(EventsOf(s, OpOf(cmd)))
  {
    if cmd.kind == New && s.pool.free != [] {
      hide Sweep, Rested, PoolOk, UniqueIds, LevelsOk;
      SweepClean(SideOf(s.book, Opposite(cmd.side)), cmd.side,
                 SweepLimit(cmd.side, cmd.otype, cmd.price), cmd.qty, NextId(s.pool));
    }
  }

  // The commands, given to a fresh engine of this capacity, lead to `e` with no refusal
  // other than for lack of slots.
  ghost predicate Faithful(capacity: U32, cmds: seq<Command>, e: EngineState) {
    && StateOk(InitEngine(capacity).state)
    && e == ProcessAll(InitEngine(capacity), cmds)
    && Clean(EmittedBy(InitEngine(capacity), cmds))
  }

  lemma FaithfulStart(capacity: U32)
    requires capacity <= MAX_CAPACITY
    ensures Faithful(capacity, [], InitEngine(capacity))
    ensures Tracks([], InitEngine(capacity).state.book)
  {
    InitOk(capacity);
  }

  lemma FaithfulStep(capacity: U32, cmds: seq<Command>, e: EngineState, cmd: Command)
    requires Faithful(capacity, cmds, e) && Sound(e.state.book, cmd)
    ensures StateOk(e.state) && Faithful(capacity, cmds + [cmd], Process(e, cmd))
  {
    hide StateOk, EventsOf, Process, InitEngine, Open, ProcessAll, EmittedBy;
    var start := InitEngine(capacity);
    ProcessSnoc(start, cmds, cmd);
    SoundIsClean(e.state, cmd);
    var a, b := EmittedBy(start, cmds), EventsOf(e.state, OpOf(cmd));
    assert EmittedBy(start, cmds + [cmd]) == a + b;
  }

  // ----- Bounded draws

  // A random word reduced to [0, n).
  function Residue(word: U64, n: nat): (r: U64)
    requires n > 0
    ensures r < n
  {
    word % n
  }

  // ----- The offset distribution

  const ZIPF_SCALE := 0x10_0000

  function Weight(k: nat): (w: nat)
    ensures 1 <= w <= ZIPF_SCALE + 1
  {
    ZIPF_SCALE / (k + 1) + 1
  }

  // The share of a harmonic weight, never nothing.
  lemma WeightIsShare(k: nat)
    ensures (Weight(k) - 1) * (k + 1) <= ZIPF_SCALE < Weight(k) * (k + 1)
  {
    var q, r := ZIPF_SCALE / (k + 1), ZIPF_SCALE % (k + 1);
    assert ZIPF_SCALE == q * (k + 1) + r;
    assert (q + 1) * (k + 1) == q * (k + 1) + (k + 1);
  }

  // Total weight of the offsets below k.
  function WeightBelow(k: nat): (w: nat)
    ensures w <= k * (ZIPF_SCALE + 1)
  {
    if k == 0 then 0 else WeightBelow(k - 1) + Weight(k - 1)
  }

  lemma {:induction false} WeightsGrow(j: nat, k: nat)
    requires j < k
    ensures WeightBelow(j) < WeightBelow(k)
    decreases k
  {
    hide Weight;
    if j < k - 1 {
      WeightsGrow(j, k - 1);
    }
  }

  ghost predicate CdfOk(cdf: seq<U64>) {
    forall k :: 0 <= k < |cdf| ==> cdf[k] == WeightBelow(k + 1)
  }

  // The running weights of the offsets 0 .. maxOffset fit 64 bits for every u32 maximum.
  method BuildCdf(maxOffset: U32) returns (cdf: seq<U64>)
    ensures |cdf| == maxOffset + 1 && CdfOk(cdf)
  {
    cdf := [];
    var acc: U64 := 0;
    var k := 0;
    while k <= maxOffset
      invariant 0 <= k <= maxOffset + 1
      invariant |cdf| == k && CdfOk(cdf)
      invariant acc == WeightBelow(k)
    {
      assert WeightBelow(k + 1) == acc + Weight(k);
      acc := acc + ZIPF_SCALE / (k + 1) + 1;
      cdf := cdf + [acc];
      k := k + 1;
    }
  }

  // std::upper_bound: the first entry above r.
  method UpperBound(cdf: seq<U64>, r: U64) returns (k: nat)
    requires CdfOk(cdf)
    ensures k <= |cdf|
    ensures k > 0 ==> cdf[k - 1] <= r
    ensures k < |cdf| ==> r < cdf[k]
  {
    var lo, hi := 0, |cdf|;
    while lo < hi
      invariant 0 <= lo <= hi <= |cdf|
      invariant lo > 0 ==> cdf[lo - 1] <= r
      invariant hi < |cdf| ==> r < cdf[hi]
    {
      var mid := (lo + hi) / 2;
      if cdf[mid] <= r {
        lo := mid + 1;
      } else {
        hi := mid;
      }
    }
    k := lo;
  }

  // ----- Tallies

  datatype Mix = Limits | Markets | Iocs | Cancels

  function MixOf(cmd: Command): Mix {
    if cmd.kind == CommandType.Cancel then Cancels
    else match cmd.otype case Limit => Limits case Market => Markets case Ioc => Iocs
  }

  ghost function Emitted(cmds: seq<Command>, m: Mix): nat {
    if cmds == [] then 0
    else Emitted(cmds[..|cmds| - 1], m) + (if MixOf(cmds[|cmds| - 1]) == m then 1 else 0)
  }

  lemma {:induction false} EmittedAll(cmds: seq<Command>)
    ensures Emitted(cmds, Limits) + Emitted(cmds, Markets) + Emitted(cmds, Iocs) + Emitted(cmds, Cancels) == |cmds|
  {
    if cmds != [] {
      EmittedAll(cmds[..|cmds| - 1]);
    }
  }

  datatype WorkloadCounts = WorkloadCounts(limits: U64, markets: U64, iocs: U64, cancels: U64, degraded: U64)

  ghost predicate CountsOk(c: WorkloadCounts, cmds: seq<Command>) {
    && c.limits == Emitted(cmds, Limits) && c.markets == Emitted(cmds, Markets)
    && c.iocs == Emitted(cmds, Iocs) && c.cancels == Emitted(cmds, Cancels)
    && c.degraded <= c.limits
  }

  function CountedAs(c: WorkloadCounts, m: Mix, degraded: bool): WorkloadCounts
    requires c.limits < UINT64_MAX && c.markets < UINT64_MAX && c.iocs < UINT64_MAX && c.cancels < UINT64_MAX
    requires c.degraded <= c.limits
  {
    match m
    case Limits => c.(limits := c.limits + 1, degraded := c.degraded + if degraded then 1 else 0)
    case Markets => c.(markets := c.markets + 1)
    case Iocs => c.(iocs := c.iocs + 1)
    case Cancels => c.(cancels := c.cancels + 1)
  }

  lemma CountsStep(c: WorkloadCounts, cmds: seq<Command>, cmd: Command, degraded: bool)
    requires CountsOk(c, cmds) && |cmds| < UINT64_MAX && (degraded ==> MixOf(cmd) == Limits)
    ensures c.limits < UINT64_MAX && c.markets < UINT64_MAX && c.iocs < UINT64_MAX && c.cancels < UINT64_MAX
    ensures c.degraded <= c.limits
    ensures CountsOk(CountedAs(c, MixOf(cmd), degraded), cmds + [cmd])
    ensures CountedAs(c, MixOf(cmd), degraded).degraded == c.degraded + if degraded then 1 else 0
  {
    EmittedAll(cmds);
    assert (cmds + [cmd])[..|cmds + [cmd]| - 1] == cmds;
  }

  // ----- The generator

  // The mix of operations is respected: nothing of weight zero is emitted, save the
  // limit order that stands in for a cancel when nothing is open.
  ghost predicate MixAllows(cfg: WorkloadConfig, nothingLive: bool, cmd: Command) {
    match MixOf(cmd)
    case Limits => cfg.limitWeight > 0 || (cfg.cancelWeight > 0 && nothingLive)
    case Markets => cfg.marketWeight > 0
    case Iocs => cfg.iocWeight > 0
    case Cancels => cfg.cancelWeight > 0 && !nothingLive
  }

  ghost predicate NewOk(cfg: WorkloadConfig, mid: Price, cmd: Command) {
    && cmd.kind == New && cmd.id == INVALID_ORDER_ID
    && cfg.minQty <= cmd.qty <= cfg.maxQty
    && (if cmd.otype == Market then cmd.price == 0
        else Max(1, mid - cfg.maxPriceOffset) <= cmd.price <= mid + cfg.maxPriceOffset)
  }

  lemma DrawnIsSound(cfg: WorkloadConfig, mid: Price, ids: seq<OrderId>, b: Book, cmd: Command)
    requires WorkloadOk(cfg) && Tracks(ids, b)
    requires if cmd.kind == New then NewOk(cfg, mid, cmd) else cmd.id in ids
    ensures Sound(b, cmd)
  {
  }

  // A passive quote sits on its own side of the mid, buys at or below it and sells at or
  // above; an aggressive one is through it.
  predicate QuoteOk(mid: Price, cmd: Command, aggressive: bool) {
    if (cmd.side == Buy) == aggressive then cmd.price >= mid else cmd.price <= mid
  }

  // ----- What the random words say

  // The offset k is the one whose share of the weights the word falls into.
  ghost predicate OffsetOf(cfg: WorkloadConfig, word: U64, k: nat) {
    && k <= cfg.maxPriceOffset
    && var total := WeightBelow(cfg.maxPriceOffset + 1);
       total > 0 && WeightBelow(k) <= Residue(word, total) < WeightBelow(k + 1)
  }

  // Buys that are aggressive and sells that are not go above the mid.
  ghost predicate PricedFrom(cfg: WorkloadConfig, mid: Price, side: Side, offsetWord: U64, crossWord: U64,
                             price: Price)
    requires cfg.crossOneIn >= 1
  {
    exists k: nat :: OffsetOf(cfg, offsetWord, k) && price == QuoteAt(cfg, mid, side, k, crossWord)
  }

  function QuoteAt(cfg: WorkloadConfig, mid: Price, side: Side, offset: nat, crossWord: U64): int
    requires cfg.crossOneIn >= 1
  {
    var aggressive := Residue(crossWord, cfg.crossOneIn) == 0;
    var above := if side == Buy then aggressive else !aggressive;
    Max(1, if above then mid + offset else mid - offset)
  }

  // The order made of the words from `at` on: side, quantity and, unless it is a market
  // order, offset and aggression.
  ghost predicate AddFrom(cfg: WorkloadConfig, mid: Price, draws: nat -> U64, at: nat, otype: OrderType, cmd: Command)
    requires WorkloadOk(cfg)
  {
    && cmd.kind == New && cmd.otype == otype && cmd.id == INVALID_ORDER_ID
    && cmd.side == (if Residue(draws(at), 2) == 0 then Buy else Sell)
    && cmd.qty == cfg.minQty + Residue(draws(at + 1), cfg.maxQty - cfg.minQty + 1)
    && if otype == Market then cmd.price == 0
       else PricedFrom(cfg, mid, cmd.side, draws(at + 2), draws(at + 3), cmd.price)
  }

  // The command made of the words from `at` on: cancels own the first residues, then
  // limits, then markets, and immediate-or-cancels the rest.
  ghost predicate DrawnFrom(cfg: WorkloadConfig, mid: Price, live: seq<OrderId>, draws: nat -> U64, at: nat,
                            cmd: Command)
    requires WorkloadOk(cfg)
  {
    var r, upToLimits := Residue(draws(at), TotalWeight(cfg)), cfg.cancelWeight + cfg.limitWeight;
    if r < cfg.cancelWeight && live != [] then
      cmd == Command(CommandType.Cancel, Buy, Limit, 0, 0, live[Residue(draws(at + 1), |live|)])
    else
      AddFrom(cfg, mid, draws, at + 1,
              if r < upToLimits then Limit else if r < upToLimits + cfg.marketWeight then Market else Ioc, cmd)
  }

  // Where the walk goes: a step when the first word says so, of the second word's size in
  // the third word's direction, then back inside the bounds.
  function WalkFrom(cfg: WorkloadConfig, mid: Price, draws: nat -> U64, at: nat): (r: int)
    requires WorkloadOk(cfg)
    ensures Residue(draws(at), cfg.walkOneIn) != 0 ==> r == mid
  {
    if Residue(draws(at), cfg.walkOneIn) != 0 then mid
    else
      var step := 1 + Residue(draws(at + 1), cfg.maxWalkStep);
      var to := if Residue(draws(at + 2), 2) == 0 then mid + step else mid - step;
      Max(Max(1, cfg.engine.anchor - cfg.walkRadius), Min(cfg.engine.anchor + cfg.walkRadius, to))
  }

  // The first word the command is drawn from: the walk takes one, or three.
  function AfterWalk(cfg: WorkloadConfig, draws: nat -> U64, at: nat): nat
    requires WorkloadOk(cfg)
  {
    at + if Residue(draws(at), cfg.walkOneIn) == 0 then 3 else 1
  }

  // The draw asks for a cancel and there is nothing to cancel.
  predicate Degrades(cfg: WorkloadConfig, live: seq<OrderId>, word: U64)
    requires WorkloadOk(cfg)
  {
    live == [] && Residue(word, TotalWeight(cfg)) < cfg.cancelWeight
  }

  lemma OffsetOnce(cfg: WorkloadConfig, word: U64, j: nat, k: nat)
    requires OffsetOf(cfg, word, j) && OffsetOf(cfg, word, k)
    ensures j == k
  {
    hide Residue, WeightBelow;
    if j < k {
      WeightsUpTo(j + 1, k);
    } else if k < j {
      WeightsUpTo(k + 1, j);
    }
  }

  lemma WeightsUpTo(j: nat, k: nat)
    requires j <= k
    ensures WeightBelow(j) <= WeightBelow(k)
  {
    if j < k {
      WeightsGrow(j, k);
    }
  }

  // The words leave no choice: the same words, mid and live ids give the same command.
  lemma DrawnOnce(cfg: WorkloadConfig, mid: Price, live: seq<OrderId>, draws: nat -> U64, at: nat,
                  c: Command, d: Command)
    requires WorkloadOk(cfg)
    requires DrawnFrom(cfg, mid, live, draws, at, c) && DrawnFrom(cfg, mid, live, draws, at, d)
    ensures c == d
  {
    hide Residue, OffsetOf, WorkloadOk;
    if c.kind == New && c.otype != Market {
      var j: nat :| OffsetOf(cfg, draws(at + 3), j) && c.price == QuoteAt(cfg, mid, c.side, j, draws(at + 4));
      var k: nat :| OffsetOf(cfg, draws(at + 3), k) && d.price == QuoteAt(cfg, mid, d.side, k, draws(at + 4));
      OffsetOnce(cfg, draws(at + 3), j, k);
    }
  }

  class WorkloadGenerator {
    const cfg: WorkloadConfig
    const totalWeight: U64
    const walkLo: Price
    const walkHi: Price
    const zipf: seq<U64>
    const engine: MatchingEngine
    // The random words, and how many are used up.
    const draws: nat -> U64
    var drawn: nat
    var mid: Price
    var liveIds: seq<OrderId>
    var livePos: map<OrderId, nat>
    var counts: WorkloadCounts
    ghost var emitted: seq<Command>

    ghost predicate Fixed() {
      && WorkloadOk(cfg)
      && totalWeight == TotalWeight(cfg)
      && walkLo == Max(1, cfg.engine.anchor - cfg.walkRadius)
      && walkHi == cfg.engine.anchor + cfg.walkRadius
      && |zipf| == cfg.maxPriceOffset + 1 && CdfOk(zipf)
    }

    // The shadow engine has done exactly the emitted commands.
    ghost predicate Shadowing()
      reads this, engine.Repr()
    {
      && this !in engine.Repr() && engine.Valid()
      && Faithful(cfg.engine.capacity, emitted, engine.V())
    }

    ghost predicate Valid()
      reads this, engine.Repr()
    {
      && Fixed() && walkLo <= mid <= walkHi
      && IndexOk(liveIds, livePos)
      && Shadowing()
      && Tracks(liveIds, engine.V().state.book)
      && CountsOk(counts, emitted)
    }

    constructor (cfg: WorkloadConfig, draws: nat -> U64)
      requires WorkloadOk(cfg)
      ensures Valid() && fresh(this.engine.Repr())
      ensures this.cfg == cfg && this.draws == draws
      ensures emitted == [] && liveIds == [] && drawn == 0 && mid == cfg.engine.anchor
    {
      hide StateOk, Open, Process, Faithful, Tracks, Engine.InitEngine, CdfOk,
        BookRep.SidesInv, BookRep.BookOf, PoolInv, PoolOf;
      this.cfg, this.draws, this.drawn := cfg, draws, 0;
      mid := cfg.engine.anchor;
      totalWeight := TotalWeight(cfg);
      var cdf := BuildCdf(cfg.maxPriceOffset);
      zipf := cdf;
      walkLo := Max(1, cfg.engine.anchor - cfg.walkRadius);
      walkHi := cfg.engine.anchor + cfg.walkRadius;
      engine := new MatchingEngine(cfg.engine);
      liveIds, livePos := [], map[];
      counts := WorkloadCounts(0, 0, 0, 0, 0);
      emitted := [];
      FaithfulStart(cfg.engine.capacity);
    }

    method BoundedRand(n: nat) returns (r: U64)
      requires n > 0
      modifies `drawn
      ensures r == Residue(draws(old(drawn)), n) && drawn == old(drawn) + 1
    {
      r := Residue(draws(drawn), n);
      drawn := drawn + 1;
    }

    method OneIn(n: U32) returns (b: bool)
      requires n > 0
      modifies `drawn
      ensures b <==> Residue(draws(old(drawn)), n) == 0
      ensures drawn == old(drawn) + 1
    {
      var r := BoundedRand(n);
      b := r == 0;
    }

    // One draw, and two more when the mid moves; the walk stays inside its bounds.
    method MaybeStepMid()
      requires Fixed() && walkLo <= mid <= walkHi
      modifies `drawn, `mid
      ensures walkLo <= mid <= walkHi
      ensures old(mid) - cfg.maxWalkStep <= mid <= old(mid) + cfg.maxWalkStep
      ensures mid == WalkFrom(cfg, old(mid), draws, old(drawn))
      ensures drawn == AfterWalk(cfg, draws, old(drawn))
    {
      hide Residue;
      var moves := OneIn(cfg.walkOneIn);
      if !moves {
        return;
      }
      var r := BoundedRand(cfg.maxWalkStep);
      var step: Price := 1 + r;
      var up := OneIn(2);
      mid := mid + if up then step else -step;
      mid := if mid < walkLo then walkLo else if walkHi < mid then walkHi else mid;
    }

    // Offset k comes from exactly Weight(k) of the residues: those from WeightBelow(k) on.
    method SampleZipfOffset() returns (k: nat)
      requires Fixed()
      modifies `drawn
      ensures OffsetOf(cfg, draws(old(drawn)), k)
      ensures drawn == old(drawn) + 1
    {
      WeightsGrow(0, cfg.maxPriceOffset + 1);
      var r := BoundedRand(zipf[|zipf| - 1]);
      k := UpperBound(zipf, r);
    }

    method MakeAdd(otype: OrderType) returns (cmd: Command)
      requires Fixed() && walkLo <= mid <= walkHi
      modifies `drawn
      ensures NewOk(cfg, mid, cmd) && cmd.otype == otype
      ensures AddFrom(cfg, mid, draws, old(drawn), otype, cmd)
      ensures otype != Market ==>
        QuoteOk(mid, cmd, Residue(draws(old(drawn) + 3), cfg.crossOneIn) == 0)
      ensures drawn == old(drawn) + if otype == Market then 2 else 4
    {
      hide Residue, WeightBelow, CdfOk;
      var coin := BoundedRand(2);
      var side := if coin == 0 then Buy else Sell;
      var extra := BoundedRand(cfg.maxQty - cfg.minQty + 1);
      var qty: Qty := cfg.minQty + extra;
      var price: Price := 0;
      if otype != Market {
        var offset := SampleZipfOffset();
        var aggressive := OneIn(cfg.crossOneIn);
        var aboveMid := (side == Buy) == aggressive;
        price := Max(1, if aboveMid then mid + offset else mid - offset);
        assert price == QuoteAt(cfg, mid, side, offset, draws(old(drawn) + 3));
      }
      cmd := Command(New, side, otype, qty, price, INVALID_ORDER_ID);
    }

    method MakeCancel() returns (cmd: Command)
      requires liveIds != []
      modifies `drawn
      ensures cmd == Command(CommandType.Cancel, Buy, Limit, 0, 0, liveIds[Residue(draws(old(drawn)), |liveIds|)])
      ensures drawn == old(drawn) + 1
    {
      var r := BoundedRand(|liveIds|);
      cmd := Command(CommandType.Cancel, Buy, Limit, 0, 0, liveIds[r]);
    }

    method AddLive(id: OrderId)
      requires IndexOk(liveIds, livePos) && id !in liveIds
      modifies `liveIds, `livePos
      ensures IndexOk(liveIds, livePos)
      ensures liveIds == old(liveIds) + [id]
    {
      livePos := livePos[id := |liveIds|];
      liveIds := liveIds + [id];
    }

    method RemoveLive(id: OrderId)
      requires IndexOk(liveIds, livePos)
      modifies `liveIds, `livePos
      ensures IndexOk(liveIds, livePos)
      ensures liveIds == if id in old(livePos) then SwapRemove(old(liveIds), old(livePos)[id]) else old(liveIds)
      ensures forall x: OrderId :: x in liveIds <==> x in old(liveIds) && x != id
    {
      if id !in livePos {
        return;
      }
      IndexRemove(liveIds, livePos, id);
      var pos := livePos[id];
      var last := liveIds[|liveIds| - 1];
      liveIds := liveIds[pos := last];
      livePos := livePos[last := pos];
      liveIds := liveIds[..|liveIds| - 1];
      livePos := livePos - {id};
    }

    // Handles the events of one command in order.
    method TrackEvents(events: seq<Event>, ghost b: Book)
      requires IndexOk(liveIds, livePos) && Pending(liveIds, events, b)
      modifies `liveIds, `livePos
      ensures IndexOk(liveIds, livePos) && Tracks(liveIds, b)
    {
      var k := 0;
      assert events[0..] == events;
      while k < |events|
        invariant 0 <= k <= |events|
        invariant IndexOk(liveIds, livePos) && Pending(liveIds, events[k..], b)
      {
        var e := events[k];
        ghost var was, rest := liveIds, events[k..];
        assert rest[0] == e && rest[1..] == events[k + 1..];
        match e.kind {
          case Accepted => AddLive(e.id);
          case Traded =>
            if e.remaining == 0 {
              RemoveLive(e.id);
            }
          case Canceled => RemoveLive(e.id);
          case Rejected =>
        }
        k := k + 1;
      }
    }

    // Every emitted command goes through the shadow engine, and its events drive the index.
    method ApplyCommand(cmd: Command)
      requires Shadowing() && Sound(engine.V().state.book, cmd)
      requires IndexOk(liveIds, livePos) && Tracks(liveIds, engine.V().state.book)
      modifies `liveIds, `livePos, `emitted, engine.Repr()
      ensures Shadowing() && engine.V() == Process(old(engine.V()), cmd)
      ensures emitted == old(emitted) + [cmd]
      ensures IndexOk(liveIds, livePos) && Tracks(liveIds, engine.V().state.book)
    {
      hide StateOk, Open, Process, EventsOf, Faithful, Tracks, Pending, IndexOk,
        BookRep.SidesInv, BookRep.BookOf, PoolInv, PoolOf;
      FaithfulStep(cfg.engine.capacity, emitted, engine.V(), cmd);
      PendingCommand(engine.V(), cmd, liveIds);
      var events := engine.ProcessCommand(cmd);
      emitted := emitted + [cmd];
      TrackEvents(events, engine.V().state.book);
    }

    // Draws the operation by weight; a cancel needs something to cancel.
    method Choose() returns (cmd: Command, degraded: bool)
      requires Fixed() && walkLo <= mid <= walkHi
      modifies `drawn
      ensures MixAllows(cfg, liveIds == [], cmd)
      ensures if cmd.kind == New then NewOk(cfg, mid, cmd) else cmd.id in liveIds
      ensures DrawnFrom(cfg, mid, liveIds, draws, old(drawn), cmd)
      ensures degraded <==> Degrades(cfg, liveIds, draws(old(drawn)))
      ensures degraded ==> MixOf(cmd) == Limits
    {
      hide Residue;
      var r := BoundedRand(totalWeight);
      degraded := false;
      if r < cfg.cancelWeight {
        if liveIds != [] {
          cmd := MakeCancel();
        } else {
          cmd := MakeAdd(Limit);
          degraded := true;
        }
      } else {
        r := r - cfg.cancelWeight;
        if r < cfg.limitWeight {
          cmd := MakeAdd(Limit);
        } else if r < cfg.limitWeight + cfg.marketWeight {
          cmd := MakeAdd(Market);
        } else {
          cmd := MakeAdd(Ioc);
        }
      }
    }

    // Steps the mid, draws the command and counts it.
    method Draw() returns (cmd: Command)
      requires Fixed() && walkLo <= mid <= walkHi
      requires CountsOk(counts, emitted) && |emitted| < UINT64_MAX
      modifies `drawn, `mid, `counts
      ensures walkLo <= mid <= walkHi && CountsOk(counts, emitted + [cmd])
      ensures MixAllows(cfg, liveIds == [], cmd)
      ensures if cmd.kind == New then NewOk(cfg, mid, cmd) else cmd.id in liveIds
      ensures mid == WalkFrom(cfg, old(mid), draws, old(drawn))
      ensures var at := AfterWalk(cfg, draws, old(drawn));
              && DrawnFrom(cfg, mid, liveIds, draws, at, cmd)
              && counts.degraded == old(counts.degraded) + if Degrades(cfg, liveIds, draws(at)) then 1 else 0
    {
      hide Residue, DrawnFrom, WalkFrom, CountsOk, CdfOk, MixAllows, CountedAs, MixOf, NewOk;
      MaybeStepMid();
      var degraded;
      cmd, degraded := Choose();
      CountsStep(counts, emitted, cmd, degraded);
      counts := CountedAs(counts, MixOf(cmd), degraded);
    }

    method Next() returns (cmd: Command)
      requires Valid()
      requires |emitted| < UINT64_MAX
      modifies this, engine.Repr()
      ensures Valid()
      ensures emitted == old(emitted) + [cmd]
      ensures StateOk(old(engine.V()).state) && engine.V() == Process(old(engine.V()), cmd)
      ensures MixAllows(cfg, old(liveIds) == [], cmd)
      ensures if cmd.kind == New then NewOk(cfg, mid, cmd) else cmd.id in old(liveIds)
      ensures mid == WalkFrom(cfg, old(mid), draws, old(drawn))
      ensures var at := AfterWalk(cfg, draws, old(drawn));
              && DrawnFrom(cfg, mid, old(liveIds), draws, at, cmd)
              && counts.degraded == old(counts.degraded) + if Degrades(cfg, old(liveIds), draws(at)) then 1 else 0
    {
      hide Residue, DrawnFrom, WalkFrom, AfterWalk, Degrades, StateOk, Open, Process, Faithful, IndexOk,
        CountsOk, CdfOk, MixAllows, Tracks, NewOk, Sound,
        BookRep.SidesInv, BookRep.BookOf, PoolInv, PoolOf;
      engine.MeansOk();
      cmd := Draw();
      DrawnIsSound(cfg, mid, liveIds, engine.V().state.book, cmd);
      ApplyCommand(cmd);
    }
  }

  // The first n commands of the stream, for any configuration and any random words.
  method GenerateWorkload(cfg: WorkloadConfig, draws: nat -> U64, n: U64)
    returns (cmds: seq<Command>, ghost shadow: EngineState)
    requires WorkloadOk(cfg)
    ensures |cmds| == n
    ensures Faithful(cfg.engine.capacity, cmds, shadow)
  {
    hide Faithful, ProcessAll, EmittedBy, Process, StateOk, WorkloadOk, Tracks, IndexOk, CountsOk,
      BookRep.SidesInv, BookRep.BookOf, PoolInv, PoolOf;
    var gen := new WorkloadGenerator(cfg, draws);
    cmds := [];
    while |cmds| < n
      invariant |cmds| <= n
      invariant gen.Valid() && gen.emitted == cmds && gen.cfg == cfg
      invariant fresh(gen) && fresh(gen.engine.Repr())
    {
      var cmd := gen.Next();
      cmds := cmds + [cmd];
    }
    shadow := gen.engine.V();
  }

  // Replaying such a stream on a fresh engine of the same pool capacity, whatever its
  // price band: the same book and counters as the shadow's, and no order or cancel is
  // refused except for lack of slots.
  method ReplayWorkload(cfg: EngineConfig, cmds: seq<Command>, ghost shadow: EngineState)
    returns (engine: MatchingEngine, events: seq<Event>)
    requires ConfigOk(cfg) && Faithful(cfg.capacity, cmds, shadow)
    ensures engine.Valid() && engine.V() == shadow
    ensures Clean(events) && events == EmittedBy(InitEngine(cfg.capacity), cmds)
  {
    hide ProcessAll, EmittedBy, Process, EventsOf, StateOk, Clean,
      BookRep.SidesInv, BookRep.BookOf, PoolInv, PoolOf, InitEngine;
    engine := new MatchingEngine(cfg);
    ghost var start := InitEngine(cfg.capacity);
    events := [];
    var k := 0;
    NothingProcessed(start);
    while k < |cmds|
      invariant 0 <= k <= |cmds|
      invariant engine.Valid() && fresh(engine.Repr())
      invariant engine.V() == ProcessAll(start, cmds[..k])
      invariant events == EmittedBy(start, cmds[..k])
    {
      ProcessSnoc(start, cmds[..k], cmds[k]);
      assert cmds[..k + 1] == cmds[..k] + [cmds[k]];
      var out := engine.ProcessCommand(cmds[k]);
      events := events + out;
      k := k + 1;
    }
    assert cmds[..k] == cmds;
  }

  lemma NothingProcessed(e: EngineState)
    requires StateOk(e.state)
    ensures ProcessAll(e, []) == e && EmittedBy(e, []) == []
  {
  }
}
