/** Turning records into lines: what one flush writes. */
module Codecs {
  import opened Records
  import opened EmitterModel
  import opened Sequences
  import F = TraceFiles
  import P = Pipeline

  /** A serialiser and a parser for single lines; both may fail. */
  datatype Codec = Codec(enc: Record -> Option<string>, dec: string -> Option<Record>)

  /** The record serialises to a clean line that parses back to it. */
  ghost predicate Serialises(codec: Codec, r: Record) {
    codec.enc(r).Some? && F.IsClean(codec.enc(r).value) && codec.dec(codec.enc(r).value) == Some(r)
  }

  /** The lines one flush writes: records that do not serialise are left out. */
  function LinesOf(codec: Codec, items: seq<P.Item>): seq<string> {
    if items == [] then []
    else
      var line := codec.enc(items[|items| - 1].rec);
      LinesOf(codec, items[..|items| - 1]) + (if line.Some? then [line.value] else [])
  }

  lemma {:induction false} LinesOfSplits(codec: Codec, a: seq<P.Item>, b: seq<P.Item>)
    ensures LinesOf(codec, a + b) == LinesOf(codec, a) + LinesOf(codec, b)
    decreases |b|
  {
    if b == [] {
      assert a + b == a;
    } else {
      assert (a + b)[..|a + b| - 1] == a + b[..|b| - 1];
      LinesOfSplits(codec, a, b[..|b| - 1]);
    }
  }

  // ----------------------------------------- a flush that nothing interleaves

  /** Everything the listed rings hold, ring by ring. */
  function Gathered(em: EmitterState, order: seq<Thread>): seq<P.Item> {
    if order == [] then []
    else Gathered(em, order[..|order| - 1]) +
         P.Tagged(order[|order| - 1], RingOf(em, order[|order| - 1]).items)
  }

  function Emptied(em: EmitterState, order: seq<Thread>): EmitterState {
    if order == [] then em else EmptyRing(Emptied(em, order[..|order| - 1]), order[|order| - 1])
  }

  lemma {:induction false} EmptiedRings(em: EmitterState, order: seq<Thread>, th: Thread)
    ensures var em' := Emptied(em, order);
      && em'.rings.Keys == em.rings.Keys && em'.(rings := em.rings) == em
      && RingOf(em', th) == if th in order then RingOf(em, th).(items := []) else RingOf(em, th)
    decreases |order|
  {
    if order == [] {
    } else {
      EmptiedRings(em, order[..|order| - 1], th);
      assert order == order[..|order| - 1] + [order[|order| - 1]];
    }
  }

  /** Draining one more ring of the list. */
  lemma GatheredNext(codec: Codec, em: EmitterState, order: seq<Thread>, i: nat)
    requires i < |order| && P.Distinct(order)
    ensures var th := order[i];
      && RingOf(Emptied(em, order[..i]), th) == RingOf(em, th)
      && Emptied(em, order[..i + 1]) == EmptyRing(Emptied(em, order[..i]), th)
      && LinesOf(codec, Gathered(em, order[..i + 1])) ==
         LinesOf(codec, Gathered(em, order[..i])) + LinesOf(codec, P.Tagged(th, RingOf(em, th).items))
  {
    assert order[..i + 1][..i] == order[..i];
    EmptiedRings(em, order[..i], order[i]);
    LinesOfSplits(codec, Gathered(em, order[..i]), P.Tagged(order[i], RingOf(em, order[i]).items));
  }

  lemma {:induction false} GatheredCons(em: EmitterState, order: seq<Thread>)
    requires order != [] && P.Distinct(order)
    ensures Gathered(em, order) ==
            P.Tagged(order[0], RingOf(em, order[0]).items) + Gathered(EmptyRing(em, order[0]), order[1..])
    ensures Emptied(em, order) == Emptied(EmptyRing(em, order[0]), order[1..])
    decreases |order|
  {
    var front, last := order[..|order| - 1], order[|order| - 1];
    if |order| == 1 {
      assert order[1..] == [] && front == [];
    } else {
      GatheredCons(em, front);
      assert front[1..] == order[1..][..|order| - 2];
      assert RingOf(EmptyRing(em, order[0]), last) == RingOf(em, last);
    }
  }

  lemma {:induction false} GatheredIgnoresCounters(a: EmitterState, b: EmitterState, order: seq<Thread>)
    requires a.rings == b.rings
    ensures Gathered(a, order) == Gathered(b, order) && Emptied(a, order).rings == Emptied(b, order).rings
    decreases |order|
  {
    if order == [] {
    } else {
      GatheredIgnoresCounters(a, b, order[..|order| - 1]);
    }
  }

  /** A flush that lists every ring empties them all. */
  lemma AllEmptied(em: EmitterState, order: seq<Thread>)
    requires forall th :: th in em.rings ==> th in order
    ensures forall th :: RingOf(Emptied(em, order), th) == RingOf(em, th).(items := [])
    ensures Emptied(em, order).rings.Keys == em.rings.Keys
  {
    forall th: Thread
      ensures RingOf(Emptied(em, order), th) == RingOf(em, th).(items := [])
      ensures Emptied(em, order).rings.Keys == em.rings.Keys
    {
      EmptiedRings(em, order, th);
    }
    assert RingOf(Emptied(em, order), 0) == RingOf(em, 0).(items := []);
  }

  lemma {:induction false} NothingToGather(em: EmitterState, order: seq<Thread>)
    requires forall th: Thread :: RingOf(em, th).items == []
    ensures Gathered(em, order) == [] && Emptied(em, order).rings == em.rings
    decreases |order|
  {
    if order == [] {
    } else {
      NothingToGather(em, order[..|order| - 1]);
    }
  }

  /** What has become of the rings and of the batches on file since `was`, with nothing put in between. */
  ghost predicate Flushed(codec: Codec, was: EmitterState, before: seq<F.Batch>,
                          em: EmitterState, after: seq<F.Batch>, flushed: bool) {
    && em.order == was.order
    && em.rings == (if flushed then Emptied(was, was.order).rings else was.rings)
    && after == if flushed then OneMore(before, LinesOf(codec, Gathered(was, was.order))) else before
  }

  function OneMore(batches: seq<F.Batch>, lines: F.Batch): seq<F.Batch> {
    if lines == [] then batches else batches + [lines]
  }

  /** The first flush writes everything; any later one finds nothing. */
  lemma FlushAgain(codec: Codec, was: EmitterState, before: seq<F.Batch>, em: EmitterState, after: seq<F.Batch>,
                   flushed: bool)
    requires forall th :: th in was.rings ==> th in was.order
    requires Flushed(codec, was, before, em, after, flushed)
    ensures var lines := LinesOf(codec, Gathered(em, em.order));
      Flushed(codec, was, before, Emptied(em, em.order), OneMore(after, lines), true)
  {
    EmptiedRings(em, em.order, 0);
    if flushed {
      AllEmptied(was, was.order);
      assert forall th: Thread :: RingOf(em, th) == RingOf(Emptied(was, was.order), th);
      NothingToGather(em, em.order);
    } else {
      GatheredIgnoresCounters(was, em, em.order);
    }
  }

  /** After the flush every ring is empty and keeps its drop count, and all that the rings held is one batch. */
  lemma FlushedIsComplete(codec: Codec, was: EmitterState, before: seq<F.Batch>, em: EmitterState, after: seq<F.Batch>)
    requires forall th :: th in was.rings ==> th in was.order
    requires Flushed(codec, was, before, em, after, true)
    ensures forall th :: RingOf(em, th) == RingOf(was, th).(items := [])
    ensures Concat(after) == Concat(before) + LinesOf(codec, Gathered(was, was.order))
  {
    AllEmptied(was, was.order);
    assert forall th: Thread :: RingOf(em, th) == RingOf(Emptied(was, was.order), th);
    ConcatAppend(before, LinesOf(codec, Gathered(was, was.order)));
    assert Concat(before) + [] == Concat(before);
  }

  /** Steps of the flusher alone, from the first drain to the write. */
  function DrainRun(n: nat): seq<P.Step> {
    if n == 0 then [P.WriteBatch] else [P.Drain] + DrainRun(n - 1)
  }

  lemma DrainFirst(cfg: Config, s: P.State)
    requires s.fl.Draining? && s.fl.todo != []
    ensures var s', first := P.Next(cfg, s, P.Drain), s.fl.todo[0];
      s' == s.(fl := P.Draining(s.fl.todo[1..], s.fl.batch + P.Tagged(first, RingOf(s.em, first).items), s.fl.last),
               em := EmptyRing(s.em, first))
  {
  }

  /** Drained without interruption, the listed rings are written as one batch and left empty. */
  lemma {:induction false} UninterruptedFlush(cfg: Config, s: P.State)
    requires s.fl.Draining? && P.Distinct(s.fl.todo)
    ensures var run := DrainRun(|s.fl.todo|);
      && P.IsRun(cfg, s, run)
      && P.Final(cfg, s, run) == s.(fl := if s.fl.last then P.Closed else P.Top,
                                    em := Emptied(s.em, s.fl.todo),
                                    written := s.written + [s.fl.batch + Gathered(s.em, s.fl.todo)])
    decreases |s.fl.todo|
  {
    var run := DrainRun(|s.fl.todo|);
    if s.fl.todo == [] {
      assert run[1..] == [];
      assert s.fl.batch + [] == s.fl.batch;
    } else {
      var s' := P.Next(cfg, s, P.Drain);
      assert run[0] == P.Drain && run[1..] == DrainRun(|s.fl.todo| - 1);
      DrainFirst(cfg, s);
      GatheredCons(s.em, s.fl.todo);
      UninterruptedFlush(cfg, s');
      Regroup(s.fl.batch, P.Tagged(s.fl.todo[0], RingOf(s.em, s.fl.todo[0]).items), Gathered(s'.em, s'.fl.todo));
    }
  }
}
