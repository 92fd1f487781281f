/**
 The asynchronous logger: log() pushes a record or counts a drop, and the logger thread
 drains the ring to the stream. Every completed log() call is accounted for at all
 times, and after stop() the stream is the accepted records in call order.
 */
module AsyncLog {
  import opened Types
  import opened DrainProtocol

  datatype LogRecord = LogRecord(
    timestamp: U64,
    id: OrderId,
    price: Price,
    qty: Qty,
    kind: EventType,
    side: Side,
    reason: RejectReason)

  function MakeLogRecord(timestamp: U64, e: Event): LogRecord {
    LogRecord(timestamp, e.id, e.price, e.qty, e.kind, e.side, e.reason)
  }

  // Every field of the event but `remaining` reaches the log, unchanged.
  lemma RecordKeepsEvent(timestamp: U64, e: Event, f: Event)
    ensures var r := MakeLogRecord(timestamp, e);
            && r.timestamp == timestamp
            && e == Event(r.kind, r.side, r.reason, r.qty, e.remaining, r.price, r.id)
    ensures MakeLogRecord(timestamp, e) == MakeLogRecord(timestamp, f) <==>
      e == f.(remaining := e.remaining)
  {
  }

  // The stream is what the logger thread wrote, record by record.
  datatype Logger = Logger(loop: Loop<LogRecord>, stream: seq<LogRecord>, dropped: nat)

  function LogStep(g: Logger, a: LoopAction<LogRecord>): Logger {
    if !LoopPossible(g.loop, a) then g
    else
      var next := LoopDo(g.loop, a);
      match a
      case HandleOne => g.(loop := next, stream := g.stream + [g.loop.pc.batch[g.loop.pc.done]])
      case OnRing(b) => g.(loop := next, dropped := if b.ReturnFull? then g.dropped + 1 else g.dropped)
      case _ => g.(loop := next)
  }

  ghost predicate LoggerOk(g: Logger) {
    && LoopOk(g.loop) && g.stream == g.loop.handled && g.dropped == RefusedCount(g.loop.attempts)
  }

  lemma LogStepOk(g: Logger, a: LoopAction<LogRecord>)
    requires LoggerOk(g)
    ensures LoggerOk(LogStep(g, a))
  {
    hide LoopOk, RefusedCount;
    LoopStepOk(g.loop, a);
    if LoopPossible(g.loop, a) && a.OnRing? && (a.a.Publish? || a.a.ReturnFull?) {
      AcceptedSnoc(g.loop.attempts, g.loop.ring.producer.value, a.a.Publish?);
    }
  }

  function LogSteps(g: Logger, actions: seq<LoopAction<LogRecord>>): Logger
    decreases |actions|
  {
    if actions == [] then g else LogSteps(LogStep(g, actions[0]), actions[1..])
  }

  function BeginLog(slots: seq<LogRecord>): Logger {
    Logger(LoopStart(slots), [], 0)
  }

  // In every interleaving: written + dropped + in the ring + popped but unwritten is the
  // number of completed calls; after stop the stream is the accepted subsequence.
  lemma {:induction false} LogAccounts(g: Logger, actions: seq<LoopAction<LogRecord>>)
    requires LoggerOk(g)
    ensures var h := LogSteps(g, actions);
            && LoggerOk(h)
            && |h.stream| + h.dropped + (h.loop.ring.tail - h.loop.ring.head) + |Pending(h.loop)|
               == |h.loop.attempts|
            && (h.loop.pc.Returned? ==>
                  && h.stream == AcceptedOf(h.loop.attempts)
                  && h.loop.counted + h.dropped == |h.loop.attempts|)
    decreases |actions|
  {
    if actions == [] {
      AllAccountedFor(g.loop);
      if g.loop.pc.Returned? {
        ReturnedMeansDrained(g.loop);
      }
    } else {
      LogStepOk(g, actions[0]);
      LogAccounts(LogStep(g, actions[0]), actions[1..]);
    }
  }

  lemma LogFromStart(slots: seq<LogRecord>, actions: seq<LoopAction<LogRecord>>)
    requires slots != []
    ensures var h := LogSteps(BeginLog(slots), actions);
            h.loop.pc.Returned? ==>
              h.stream == AcceptedOf(h.loop.attempts) && h.loop.counted + h.dropped == |h.loop.attempts|
  {
    StartOk(slots);
    LogAccounts(BeginLog(slots), actions);
  }
}
