/**
 The engine facade: commands in, events out, with the counters updated on the way.
 */
module Engine {
  import opened Types
  import opened Bits
  import opened OrderPools
  import opened BookSpec
  import opened BookRuns
  import opened Ladders
  import opened BookRep
  import opened OrderBooks
  import opened Stats

  datatype EngineConfig = EngineConfig(anchor: Price, radius: U32, capacity: U32)

  predicate ConfigOk(cfg: EngineConfig) {
    && cfg.anchor > 0 && 1 <= cfg.radius <= MAX_RADIUS && cfg.anchor + cfg.radius + 1 <= INT64_MAX
    && cfg.capacity <= MAX_CAPACITY
  }

  // ----- The engine as a value

  datatype EngineState = EngineState(state: State, tally: Tally)

  function InitEngine(capacity: U32): EngineState {
    EngineState(InitState(capacity), ZERO)
  }

  function OpOf(cmd: Command): Op {
    if cmd.kind == New then OpAdd(cmd.side, cmd.otype, cmd.price, cmd.qty) else OpCancel(cmd.id)
  }

  ghost function Process(e: EngineState, cmd: Command): EngineState
    requires StateOk(e.state)
  {
    var t := if cmd.kind == New then e.tally.(news := Wrap(e.tally.news + 1))
             else e.tally.(cancelRequests := Wrap(e.tally.cancelRequests + 1));
    EngineState(Apply(e.state, OpOf(cmd)), Counted(t, EventsOf(e.state, OpOf(cmd))))
  }

  // Every command keeps the book well formed.
  lemma ProcessOk(e: EngineState, cmd: Command)
    requires StateOk(e.state)
    ensures StateOk(Process(e, cmd).state)
  {
    hide StateOk, Counted, Apply;
    ApplyOk(e.state, OpOf(cmd));
  }

  // Every command keeps the counter identities true.
  lemma ProcessTally(e: EngineState, cmd: Command)
    requires StateOk(e.state) && TallyOk(e.tally)
    ensures TallyOk(Process(e, cmd).tally)
  {
    hide StateOk, Counted, Apply;
    if cmd.kind == New {
      AddCounts(e.state, cmd.side, cmd.otype, cmd.price, cmd.qty);
      TallyStep(e.tally, EventsOf(e.state, OpOf(cmd)), true);
    } else {
      CancelCounts(e.state.book, cmd.id);
      var t := e.tally.(cancelRequests := Wrap(e.tally.cancelRequests + 1));
      TallyStep(t, EventsOf(e.state, OpOf(cmd)), false);
    }
  }

  // The sequential meaning of a command list: the state it leaves and what it emits.
  ghost function ProcessAll(e: EngineState, cmds: seq<Command>): (r: EngineState)
    requires StateOk(e.state)
    ensures StateOk(r.state)
    decreases |cmds|
  {
    if cmds == [] then e
    else
      ProcessOk(e, cmds[0]);
      ProcessAll(Process(e, cmds[0]), cmds[1..])
  }

  ghost function EmittedBy(e: EngineState, cmds: seq<Command>): seq<Event>
    requires StateOk(e.state)
    decreases |cmds|
  {
    if cmds == [] then []
    else
      ProcessOk(e, cmds[0]);
      EventsOf(e.state, OpOf(cmds[0])) + EmittedBy(Process(e, cmds[0]), cmds[1..])
  }

  lemma {:induction false} ProcessSnoc(e: EngineState, cmds: seq<Command>, cmd: Command)
    requires StateOk(e.state)
    ensures ProcessAll(e, cmds + [cmd]) == Process(ProcessAll(e, cmds), cmd)
    ensures EmittedBy(e, cmds + [cmd]) == EmittedBy(e, cmds) + EventsOf(ProcessAll(e, cmds).state, OpOf(cmd))
    decreases |cmds|
  {
    hide StateOk, Apply, Counted, EventsOf;
    if cmds == [] {
      assert [cmd][1..] == [] && [] + [cmd] == [cmd];
      ProcessOk(e, cmd);
    } else {
      ProcessOk(e, cmds[0]);
      assert (cmds + [cmd])[1..] == cmds[1..] + [cmd];
      ProcessSnoc(Process(e, cmds[0]), cmds[1..], cmd);
    }
  }

  // The engine's book is the book run on the commands' operations.
  function OpsOf(cmds: seq<Command>): (r: seq<Op>)
    ensures |r| == |cmds| && forall k :: 0 <= k < |r| ==> !r[k].OpAddLimit?
  {
    seq(|cmds|, k requires 0 <= k < |cmds| => OpOf(cmds[k]))
  }

  lemma {:induction false} ProcessIsRun(e: EngineState, cmds: seq<Command>)
    requires StateOk(e.state)
    ensures ProcessAll(e, cmds).state == Run(e.state, OpsOf(cmds))
    ensures EmittedBy(e, cmds) == Events(e.state, OpsOf(cmds))
    decreases |cmds|
  {
    if cmds != [] {
      ProcessOk(e, cmds[0]);
      ApplyOk(e.state, OpOf(cmds[0]));
      assert OpsOf(cmds)[1..] == OpsOf(cmds[1..]);
      ProcessIsRun(Process(e, cmds[0]), cmds[1..]);
    }
  }

  function NewsIn(cmds: seq<Command>): (n: nat)
    ensures n <= |cmds|
  {
    if cmds == [] then 0 else (if cmds[0].kind == New then 1 else 0) + NewsIn(cmds[1..])
  }

  // The tally of a run: commands by kind, and the events emitted.
  ghost function TallyFor(t: Tally, cmds: seq<Command>, events: seq<Event>): Tally {
    Counted(t.(news := Wrap(t.news + NewsIn(cmds)),
               cancelRequests := Wrap(t.cancelRequests + (|cmds| - NewsIn(cmds)))), events)
  }

  lemma TallyForNothing(t: Tally)
    ensures TallyFor(t, [], []) == t
  {
    hide Count, Conservation.Total, Wrap;
    CountedNothing(t);
    WrapFits(t.news);
    WrapFits(t.cancelRequests);
  }

  lemma TallyForMore(t: Tally, cmds: seq<Command>, now: seq<Event>, later: seq<Event>)
    requires cmds != []
    ensures var one := if cmds[0].kind == New then t.(news := Wrap(t.news + 1))
                       else t.(cancelRequests := Wrap(t.cancelRequests + 1));
            TallyFor(Counted(one, now), cmds[1..], later) == TallyFor(t, cmds, now + later)
  {
    hide Count, Conservation.Total, Wrap;
    var n, m := NewsIn(cmds[1..]), |cmds| - 1 - NewsIn(cmds[1..]);
    WrapTwice(t.news, 1, n);
    WrapTwice(t.cancelRequests, 1, m);
    var whole := t.(news := Wrap(t.news + NewsIn(cmds)),
                    cancelRequests := Wrap(t.cancelRequests + (|cmds| - NewsIn(cmds))));
    CountedMore(whole, now, later);
  }

  // The counters hold what the command list and the emitted events say, modulo their width.
  lemma {:induction false} RunTally(e: EngineState, cmds: seq<Command>)
    requires StateOk(e.state)
    ensures ProcessAll(e, cmds).tally == TallyFor(e.tally, cmds, EmittedBy(e, cmds))
    decreases |cmds|
  {
    hide StateOk, Counted, Apply, EventsOf, TallyFor, Wrap;
    if cmds == [] {
      TallyForNothing(e.tally);
    } else {
      ProcessOk(e, cmds[0]);
      RunTally(Process(e, cmds[0]), cmds[1..]);
      TallyForMore(e.tally, cmds, EventsOf(e.state, OpOf(cmds[0])), EmittedBy(Process(e, cmds[0]), cmds[1..]));
    }
  }

  // The identities hold at every command boundary of a run.
  lemma {:induction false} RunTallyOk(e: EngineState, cmds: seq<Command>)
    requires StateOk(e.state) && TallyOk(e.tally)
    ensures TallyOk(ProcessAll(e, cmds).tally)
    decreases |cmds|
  {
    hide StateOk, TallyOk, Process;
    if cmds != [] {
      ProcessOk(e, cmds[0]);
      ProcessTally(e, cmds[0]);
      RunTallyOk(Process(e, cmds[0]), cmds[1..]);
    }
  }

  // While the true numbers fit the counters, the derived views report them.
  lemma ViewsFit(t: Tally, cmds: seq<Command>, events: seq<Event>)
    requires t == TallyFor(ZERO, cmds, events) && t.traded % 2 == 0 && t.tradedQty % 2 == 0
    ensures |cmds| < TWO64 ==> Commands(t) == |cmds|
    ensures Count(events, OfKind(Traded)) < TWO64 ==> 2 * FillCount(t) == Count(events, OfKind(Traded))
    ensures Conservation.Total(events, Traded) < TWO64 ==> 2 * TradedQty(t) == Conservation.Total(events, Traded)
  {
    hide Count, Conservation.Total, Wrap;
    if |cmds| < TWO64 {
      WrapFits(NewsIn(cmds));
      WrapFits(|cmds| - NewsIn(cmds));
      WrapFits(|cmds|);
    }
    if Count(events, OfKind(Traded)) < TWO64 {
      WrapFits(Count(events, OfKind(Traded)));
    }
    if Conservation.Total(events, Traded) < TWO64 {
      WrapFits(Conservation.Total(events, Traded));
    }
  }

  // From counters at zero, at the start or after a reset: the views report the commands
  // processed, the fills (two events each) and, each unit counted once, the quantity
  // that changed hands, which with what was canceled accounts for the change in what is open.
  lemma RunViews(e: EngineState, cmds: seq<Command>)
    requires StateOk(e.state) && e.tally == ZERO
    ensures var r, events := ProcessAll(e, cmds), EmittedBy(e, cmds);
            && (|cmds| < TWO64 ==> Commands(r.tally) == |cmds|)
            && (Count(events, OfKind(Traded)) < TWO64 ==> 2 * FillCount(r.tally) == Count(events, OfKind(Traded)))
            && (Conservation.Total(events, Traded) < TWO64 ==>
                  Conservation.Total(events, Accepted) + Conservation.OpenQty(e.state.book) ==
                    2 * TradedQty(r.tally) + Conservation.Total(events, Canceled) + Conservation.OpenQty(r.state.book))
  {
    hide StateOk, Count, Conservation.Total, Conservation.OpenQty, Wrap, Congruent, TallyFor,
      ProcessAll, EmittedBy, OpsOf, Commands, FillCount, TradedQty;
    ZeroOk(e.tally);
    RunTallyOk(e, cmds);
    RunTally(e, cmds);
    ViewsFit(ProcessAll(e, cmds).tally, cmds, EmittedBy(e, cmds));
    ProcessIsRun(e, cmds);
    Conservation.RunBalanced(e.state, OpsOf(cmds));
  }

  class MatchingEngine {
    const book: OrderBook
    const stats: EngineStats

    ghost function Repr(): set<object> {
      book.Repr() + {stats}
    }

    ghost predicate Valid()
      reads Repr()
    {
      book.Valid()
    }

    ghost function V(): EngineState
      requires book.Shape()
      reads Repr()
    {
      EngineState(book.StateV(), stats.V())
    }

    constructor (cfg: EngineConfig)
      requires ConfigOk(cfg)
      ensures Valid() && fresh(Repr())
      ensures V() == InitEngine(cfg.capacity)
    {
      book := new OrderBook(cfg.anchor, cfg.radius, cfg.capacity);
      stats := new EngineStats();
    }

    lemma MeansOk()
      requires Valid()
      ensures StateOk(V().state)
    {
      hide StateOk;
      book.HoldingMeansOk(NULL_IDX);
    }

    // Counts and forwards a command's events, as the wrapped sink does one by one.
    method Forward(events: seq<Event>)
      modifies stats
      ensures stats.V() == Counted(old(stats.V()), events)
    {
      hide Counted;
      CountedNothing(stats.V());
      ghost var t := stats.V();
      var k := 0;
      while k < |events|
        invariant 0 <= k <= |events|
        invariant stats.V() == Counted(t, events[..k])
      {
        CountedMore(t, events[..k], [events[k]]);
        assert events[..k + 1] == events[..k] + [events[k]];
        stats.OnEvent(events[k]);
        k := k + 1;
      }
      assert events[..k] == events;
    }

    method Submit(side: Side, otype: OrderType, price: Price, qty: Qty)
      returns (id: OrderId, events: seq<Event>)
      requires Valid()
      modifies Repr()
      ensures Valid() && StateOk(old(V()).state)
      ensures V() == Process(old(V()), Command(New, side, otype, qty, price, 0))
      ensures events == EventsOf(old(V()).state, OpAdd(side, otype, price, qty))
      ensures id == Add(old(V()).state, side, otype, price, qty).id
    {
      hide StateOk, Counted, BookSpec.Add, SidesInv, PoolInv, BookOf, PoolOf;
      stats.OnNew();
      id, events := book.Add(side, otype, price, qty);
      Forward(events);
    }

    method Cancel(id: OrderId) returns (done: bool, events: seq<Event>)
      requires Valid()
      modifies Repr()
      ensures Valid() && StateOk(old(V()).state)
      ensures V() == Process(old(V()), Command(CommandType.Cancel, Buy, Limit, 0, 0, id))
      ensures events == EventsOf(old(V()).state, OpCancel(id))
      ensures done <==> Open(old(V()).state.book, id)
    {
      hide StateOk, Counted, CancelState, CancelEvent, SidesInv, PoolInv, BookOf, PoolOf;
      stats.OnCancelRequest();
      var e;
      done, e := book.Cancel(id);
      events := [e];
      Forward(events);
    }

    method ProcessCommand(cmd: Command) returns (events: seq<Event>)
      requires Valid()
      modifies Repr()
      ensures Valid() && StateOk(old(V()).state)
      ensures V() == Process(old(V()), cmd)
      ensures events == EventsOf(old(V()).state, OpOf(cmd))
    {
      hide StateOk, Apply, EventsOf, Counted, SidesInv, PoolInv, BookOf, PoolOf;
      match cmd.kind
      case New =>
        var id;
        id, events := Submit(cmd.side, cmd.otype, cmd.price, cmd.qty);
      case Cancel =>
        var done;
        done, events := Cancel(cmd.id);
    }
  }
}
