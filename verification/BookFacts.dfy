/**
 How the open ids of a book move: what a fill, a rest and a cancel add to or take
 from them, and that no operation ever makes an id rest twice.
 */
module BookFacts {
  import opened Types
  import opened Seqs
  import opened BookSpec

  ghost predicate InQueue(q: seq<Resting>, id: OrderId) {
    exists k :: 0 <= k < |q| && q[k].id == id
  }

  ghost predicate Elsewhere(l: Levels, p: Price, id: OrderId) {
    exists r: Price, k: int :: r != p && Holds(l, id, r, k)
  }

  ghost predicate DistinctIds(q: seq<Resting>) {
    forall i, j :: 0 <= i < j < |q| ==> q[i].id != q[j].id
  }

  lemma OpenSplit(l: Levels, p: Price, id: OrderId)
    ensures OpenOn(l, id) <==> InQueue(QueueAt(l, p), id) || Elsewhere(l, p, id)
  {
    if OpenOn(l, id) {
      var r: Price, k: int :| Holds(l, id, r, k);
      if r == p {
        assert QueueAt(l, p)[k].id == id;
      }
    }
    if InQueue(QueueAt(l, p), id) {
      var k :| 0 <= k < |QueueAt(l, p)| && QueueAt(l, p)[k].id == id;
      assert Holds(l, id, p, k);
    }
  }

  lemma SetQueueOpen(l: Levels, p: Price, q: seq<Resting>, id: OrderId)
    ensures OpenOn(SetQueue(l, p, q), id) <==> InQueue(q, id) || Elsewhere(l, p, id)
  {
    var m := SetQueue(l, p, q);
    assert QueueAt(m, p) == q;
    OpenSplit(m, p, id);
    if Elsewhere(l, p, id) {
      var r: Price, k: int :| r != p && Holds(l, id, r, k);
      assert Holds(m, id, r, k);
    }
    if Elsewhere(m, p, id) {
      var r: Price, k: int :| r != p && Holds(m, id, r, k);
      assert Holds(l, id, r, k);
    }
  }

  lemma UniqueSplit(l: Levels, p: Price)
    requires UniqueOn(l)
    ensures DistinctIds(QueueAt(l, p))
    ensures forall id :: !(InQueue(QueueAt(l, p), id) && Elsewhere(l, p, id))
  {
    var q := QueueAt(l, p);
    forall i, j | 0 <= i < j < |q|
      ensures q[i].id != q[j].id
    {
      assert Holds(l, q[i].id, p, i) && Holds(l, q[j].id, p, j);
    }
    forall id
      ensures !(InQueue(q, id) && Elsewhere(l, p, id))
    {
      if InQueue(q, id) && Elsewhere(l, p, id) {
        var k :| 0 <= k < |q| && q[k].id == id;
        var r: Price, j: int :| r != p && Holds(l, id, r, j);
        assert Holds(l, id, p, k);
        assert false;
      }
    }
  }

  lemma SetQueueUnique(l: Levels, p: Price, q: seq<Resting>)
    requires UniqueOn(l) && DistinctIds(q)
    requires forall id :: InQueue(q, id) ==> !Elsewhere(l, p, id)
    ensures UniqueOn(SetQueue(l, p, q))
  {
    var m := SetQueue(l, p, q);
    forall id: OrderId, r: Price, k: int, t: Price, j: int | Holds(m, id, r, k) && Holds(m, id, t, j)
      ensures r == t && k == j
    {
      if r != p && t != p {
        assert Holds(l, id, r, k) && Holds(l, id, t, j);
      } else if r != p {
        assert Holds(l, id, r, k) && q[j].id == id;
        assert InQueue(q, id);
        assert false;
      } else if t != p {
        assert Holds(l, id, t, j) && q[k].id == id;
        assert InQueue(q, id);
        assert false;
      } else {
        assert q[k].id == q[j].id;
      }
    }
  }

  // ----- Fills

  lemma FillFrontIds(q: seq<Resting>, fill: Qty, id: OrderId)
    requires q != [] && DistinctIds(q) && fill <= q[0].remaining
    ensures DistinctIds(FillFront(q, fill))
    ensures InQueue(FillFront(q, fill), id) <==> InQueue(q, id) && !(fill == q[0].remaining && id == q[0].id)
  {
    var r := FillFront(q, fill);
    var d := if fill == q[0].remaining then 1 else 0;
    if InQueue(r, id) {
      var k :| 0 <= k < |r| && r[k].id == id;
      assert q[k + d].id == id;
    }
    if InQueue(q, id) && !(fill == q[0].remaining && id == q[0].id) {
      var k :| 0 <= k < |q| && q[k].id == id;
      assert r[k - d].id == id;
    }
  }

  lemma FillBestOpen(opp: Levels, taker: Side, fill: Qty)
    requires LevelsOk(opp, Opposite(taker)) && UniqueOn(opp) && opp != map[]
    requires fill <= Maker(opp, taker).remaining
    ensures UniqueOn(FillBest(opp, taker, fill))
    ensures OpenOn(opp, Maker(opp, taker).id)
    ensures forall id :: OpenOn(FillBest(opp, taker, fill), id) <==>
      OpenOn(opp, id) && !(fill == Maker(opp, taker).remaining && id == Maker(opp, taker).id)
  {
    var p := Best(Opposite(taker), opp);
    var q := FillFront(opp[p], fill);
    assert QueueAt(opp, p) == opp[p];
    UniqueSplit(opp, p);
    assert Holds(opp, opp[p][0].id, p, 0);
    forall id
      ensures InQueue(q, id) ==> !Elsewhere(opp, p, id)
      ensures OpenOn(FillBest(opp, taker, fill), id) <==>
        OpenOn(opp, id) && !(fill == opp[p][0].remaining && id == opp[p][0].id)
    {
      FillFrontIds(opp[p], fill, id);
      SetQueueOpen(opp, p, q, id);
      OpenSplit(opp, p, id);
      assert InQueue(QueueAt(opp, p), opp[p][0].id);
    }
    FillFrontIds(opp[p], fill, opp[p][0].id);
    SetQueueUnique(opp, p, q);
  }

  lemma FillBook(b: Book, taker: Side, fill: Qty)
    requires BookOk(b) && SideOf(b, Opposite(taker)) != map[]
    requires fill <= Maker(SideOf(b, Opposite(taker)), taker).remaining
    ensures BookOk(WithSide(b, Opposite(taker), FillBest(SideOf(b, Opposite(taker)), taker, fill)))
    ensures Open(b, Maker(SideOf(b, Opposite(taker)), taker).id)
    ensures forall id ::
      Open(WithSide(b, Opposite(taker), FillBest(SideOf(b, Opposite(taker)), taker, fill)), id) <==>
      Open(b, id) && !(fill == Maker(SideOf(b, Opposite(taker)), taker).remaining
                       && id == Maker(SideOf(b, Opposite(taker)), taker).id)
  {
    var opp := SideOf(b, Opposite(taker));
    FillBestOpen(opp, taker, fill);
    hide FillBest, UniqueOn, OpenOn, LevelsOk;
    assert OpenOn(opp, Maker(opp, taker).id) && !OpenOn(SideOf(b, taker), Maker(opp, taker).id);
  }

  // A sweep closes exactly the makers it filled, each once.
  lemma {:induction false} SweepOpen(opp: Levels, taker: Side, limit: Price, rem: Qty, id: OrderId)
    requires LevelsOk(opp, Opposite(taker)) && UniqueOn(opp)
    ensures UniqueOn(Sweep(opp, taker, limit, rem, id).levels)
    ensures forall x :: OpenOn(Sweep(opp, taker, limit, rem, id).levels, x) <==>
      OpenOn(opp, x) && x !in Sweep(opp, taker, limit, rem, id).filled
    ensures forall x :: x in Sweep(opp, taker, limit, rem, id).filled ==> OpenOn(opp, x)
    decreases rem
  {
    hide FillBest, FillEvents, OpenOn, UniqueOn, LevelsOk, Best, IsBest;
    if CanFill(opp, taker, limit, rem) {
      FrontOf(opp, Opposite(taker));
      var maker := Maker(opp, taker);
      var fill := Min(rem, maker.remaining);
      FillBestOpen(opp, taker, fill);
      var next := FillBest(opp, taker, fill);
      SweepOpen(next, taker, limit, rem - fill, id);
      var rest := Sweep(next, taker, limit, rem - fill, id);
      var filled := if fill == maker.remaining then [maker.id] else [];
      assert Sweep(opp, taker, limit, rem, id).filled == filled + rest.filled;
      assert Sweep(opp, taker, limit, rem, id).levels == rest.levels;
      assert forall x :: x in filled + rest.filled <==> x in filled || x in rest.filled;
    }
  }

  lemma {:induction false} SweepDistinct(opp: Levels, taker: Side, limit: Price, rem: Qty, id: OrderId)
    requires LevelsOk(opp, Opposite(taker)) && UniqueOn(opp)
    ensures NoDup(Sweep(opp, taker, limit, rem, id).filled)
    decreases rem
  {
    hide FillBest, FillEvents, OpenOn, UniqueOn, LevelsOk, NoDup, Best, IsBest;
    NoneDistinct();
    if CanFill(opp, taker, limit, rem) {
      FrontOf(opp, Opposite(taker));
      var maker := Maker(opp, taker);
      var fill := Min(rem, maker.remaining);
      FillBestOpen(opp, taker, fill);
      var next := FillBest(opp, taker, fill);
      var rest := Sweep(next, taker, limit, rem - fill, id).filled;
      SweepOpen(next, taker, limit, rem - fill, id);
      SweepDistinct(next, taker, limit, rem - fill, id);
      ConsDistinct(maker.id, rest);
    }
  }

  lemma NoneDistinct()
    ensures NoDup<OrderId>([])
  {
  }

  lemma ConsDistinct(x: OrderId, q: seq<OrderId>)
    requires NoDup(q)
    ensures x !in q ==> NoDup([x] + q)
    ensures [] + q == q
  {
  }

  // ----- Rests and cancels

  lemma AppendIds(q: seq<Resting>, o: Resting, id: OrderId)
    ensures InQueue(q + [o], id) <==> InQueue(q, id) || id == o.id
  {
    if InQueue(q, id) {
      var k :| 0 <= k < |q| && q[k].id == id;
      assert (q + [o])[k].id == id;
    }
    assert (q + [o])[|q|] == o;
  }

  lemma AppendOpen(l: Levels, o: Resting)
    requires UniqueOn(l) && !OpenOn(l, o.id)
    ensures UniqueOn(l[o.price := QueueAt(l, o.price) + [o]])
    ensures forall id :: OpenOn(l[o.price := QueueAt(l, o.price) + [o]], id) <==> OpenOn(l, id) || id == o.id
  {
    var p, q := o.price, QueueAt(l, o.price);
    UniqueSplit(l, p);
    forall id
      ensures InQueue(q + [o], id) ==> !Elsewhere(l, p, id)
      ensures OpenOn(SetQueue(l, p, q + [o]), id) <==> OpenOn(l, id) || id == o.id
    {
      AppendIds(q, o, id);
      OpenSplit(l, p, id);
      SetQueueOpen(l, p, q + [o], id);
    }
    forall i | 0 <= i < |q|
      ensures q[i].id != o.id
    {
      assert Holds(l, q[i].id, p, i);
    }
    SetQueueUnique(l, p, q + [o]);
  }

  lemma RemoveAtIds(q: seq<Resting>, k: int, id: OrderId)
    requires DistinctIds(q) && 0 <= k < |q|
    ensures DistinctIds(RemoveAt(q, k))
    ensures InQueue(RemoveAt(q, k), id) <==> InQueue(q, id) && id != q[k].id
  {
    var r := RemoveAt(q, k);
    if InQueue(q, id) && id != q[k].id {
      var j :| 0 <= j < |q| && q[j].id == id;
      assert r[if j < k then j else j - 1].id == id;
    }
    if InQueue(r, id) {
      var j :| 0 <= j < |r| && r[j].id == id;
      assert q[if j < k then j else j + 1].id == id;
    }
  }

  lemma RemoveOpen(l: Levels, p: Price, k: int)
    requires UniqueOn(l) && p in l && 0 <= k < |l[p]|
    ensures UniqueOn(SetQueue(l, p, RemoveAt(l[p], k)))
    ensures forall id :: OpenOn(SetQueue(l, p, RemoveAt(l[p], k)), id) <==> OpenOn(l, id) && id != l[p][k].id
  {
    var q := l[p];
    var r := RemoveAt(q, k);
    assert QueueAt(l, p) == q;
    UniqueSplit(l, p);
    assert InQueue(q, q[k].id);
    RemoveAtIds(q, k, q[k].id);
    forall id
      ensures InQueue(r, id) ==> !Elsewhere(l, p, id)
      ensures OpenOn(SetQueue(l, p, r), id) <==> OpenOn(l, id) && id != q[k].id
    {
      RemoveAtIds(q, k, id);
      OpenSplit(l, p, id);
      SetQueueOpen(l, p, r, id);
    }
    SetQueueUnique(l, p, r);
  }

  // ----- Whole operations

  lemma PlaceOpen(b: Book, id: OrderId, side: Side, otype: OrderType, price: Price, qty: Qty)
    requires BookOk(b) && id != INVALID_ORDER_ID && qty > 0 && !Open(b, id)
    ensures BookOk(Place(b, id, side, otype, price, qty).book)
    ensures forall x :: Open(Place(b, id, side, otype, price, qty).book, x) <==>
      (Open(b, x) && x !in Place(b, id, side, otype, price, qty).filled)
      || (x == id && Place(b, id, side, otype, price, qty).rests)
    ensures forall x :: x in Place(b, id, side, otype, price, qty).filled ==> Open(b, x)
    ensures NoDup(Place(b, id, side, otype, price, qty).filled)
  {
    var opp := SideOf(b, Opposite(side));
    var s := Sweep(opp, side, SweepLimit(side, otype, price), qty, id);
    SweepOpen(opp, side, SweepLimit(side, otype, price), qty, id);
    SweepDistinct(opp, side, SweepLimit(side, otype, price), qty, id);
    if s.remaining > 0 && otype == Limit {
      AppendOpen(SideOf(b, side), Resting(id, price, qty, s.remaining, side));
    }
  }

  lemma RestedOpen(b: Book, o: Resting)
    requires BookOk(b) && OrderOk(o, o.side, o.price) && !Open(b, o.id)
    ensures BookOk(Rested(b, o))
    ensures forall x :: Open(Rested(b, o), x) <==> Open(b, x) || x == o.id
  {
    AppendOpen(SideOf(b, o.side), o);
  }

  lemma WithoutOpen(b: Book, id: OrderId)
    requires BookOk(b) && Open(b, id)
    ensures BookOk(Without(b, id))
    ensures forall x :: Open(Without(b, id), x) <==> Open(b, x) && x != id
  {
    var side := OpenSide(b, id);
    var l := SideOf(b, side);
    var p: Price, k: int :| Holds(l, id, p, k);
    CancelAt(b, side, id, p, k);
    RemoveOpen(l, p, k);
    assert !OpenOn(SideOf(b, Opposite(side)), id);
  }

  // ----- A sweep in progress

  // A sweep continued after the fills that gave `events` and `filled`.
  function Resume(rest: Swept, events: seq<Event>, filled: seq<OrderId>): Swept {
    Swept(rest.levels, rest.remaining, events + rest.events, filled + rest.filled)
  }

  lemma ResumeOne(opp: Levels, taker: Side, limit: Price, rem: Qty, id: OrderId, left: Qty,
                  events: seq<Event>, filled: seq<OrderId>)
    requires LevelsOk(opp, Opposite(taker)) && CanFill(opp, taker, limit, rem)
    requires left == rem - Min(rem, Maker(opp, taker).remaining)
    ensures LevelsOk(FillBest(opp, taker, rem - left), Opposite(taker))
    ensures var maker := Maker(opp, taker);
            Resume(Sweep(opp, taker, limit, rem, id), events, filled) ==
            Resume(Sweep(FillBest(opp, taker, rem - left), taker, limit, left, id),
                   events + FillEvents(maker, taker, id, rem - left, left),
                   filled + (if rem - left == maker.remaining then [maker.id] else []))
  {
    hide FillBest, FillEvents, LevelsOk, Best, IsBest;
    var maker := Maker(opp, taker);
    var rest := Sweep(FillBest(opp, taker, rem - left), taker, limit, left, id);
    var one := FillEvents(maker, taker, id, rem - left, left);
    var done := if rem - left == maker.remaining then [maker.id] else [];
    assert events + (one + rest.events) == (events + one) + rest.events;
    assert filled + (done + rest.filled) == (filled + done) + rest.filled;
  }

  lemma ResumeNothing(whole: Swept)
    ensures Resume(whole, [], []) == whole
  {
  }

  lemma ResumeNone(opp: Levels, taker: Side, limit: Price, rem: Qty, id: OrderId,
                   events: seq<Event>, filled: seq<OrderId>)
    requires LevelsOk(opp, Opposite(taker)) && !CanFill(opp, taker, limit, rem)
    ensures Resume(Sweep(opp, taker, limit, rem, id), events, filled) == Swept(opp, rem, events, filled)
  {
  }
}
