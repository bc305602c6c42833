/** The premises of the end-to-end results can be met, by runs that record a transfer or any requests. */
module CompleteRuns {
  import opened Records
  import opened EmitterModel
  import opened Codecs
  import opened Streams
  import P = Pipeline
  import T = Transfers
  import C = ConnectorProtocol
  import R = ConnectorRuns
  import E = EndToEnd
  import O = RequestsOnFile

  /** A load or a save, and the wait that ends it. */
  function MetaOf(use: C.Use): Meta {
    Meta(if use.ForSave? then Save else Load, "kv")
  }

  function StartOf(use: C.Use): C.Step {
    C.Start(0, 0, use, MetaOf(use), None, true, 1)
  }

  function WaitOf(use: C.Use): C.Step {
    if use.ForLoad? then C.WaitLayer(0, use.layer, false) else C.WaitSaves(0, false)
  }

  /** Thread 0 alone has done anything: where it stands, what is parked, and what its ring holds. */
  ghost predicate At(s: C.State, use: C.Use, parked: bool, stack: seq<C.Frame>, call: T.Call, live: bool, n: nat) {
    && s.loads == (if parked && use.ForLoad? then map[use.layer := [0]] else map[])
    && s.saves == (if parked && use.ForSave? then [0] else [])
    && C.StackOf(s, 0) == stack && T.CallOf(s.t, 0) == call
    && (forall th: Thread :: th != 0 ==> C.StackOf(s, th) == [] && T.CallOf(s.t, th).Idle?)
    && s.t.pipe.em.live == (if live then map[0 := MetaOf(use)] else map[])
    && |RingOf(s.t.pipe.em, 0).items| == n && s.t.pipe.em.order == (if n > 0 then [0] else [])
    && (0 in s.t.pipe.em.rings <==> n > 0)
    && (if n == 0 then s.t.issued == map[]
        else 0 in s.t.issued && s.t.issued[0].startRecorded && s.t.issued[0].startTs == 1)
    && (n == 2 ==> s.t.issued[0].phase.Ended? && s.t.issued[0].phase.recorded)
    && s.t.pipe.em.refused == 0 && !s.t.pipe.stopping && s.t.pipe.fl.Top?
  }

  /** A step of thread 0 leaves the other threads where they are. */
  lemma OthersStand(cfg: Config, s: C.State, step: C.Step)
    requires C.Enabled(s, step) && !step.Event? && !step.Flush? && step.th == 0
    ensures forall th: Thread :: th != 0 ==>
      && C.StackOf(C.Next(cfg, s, step), th) == C.StackOf(s, th)
      && T.CallOf(C.Next(cfg, s, step).t, th) == T.CallOf(s.t, th)
  {
  }

  lemma Opened(cfg: Config, s: C.State, use: C.Use)
    requires At(s, use, false, [], T.Idle, false, 0) && cfg.capacity >= 2
    ensures C.Enabled(s, StartOf(use))
    ensures At(C.Next(cfg, s, StartOf(use)), use, false, [C.Inside(0, use)], T.Registering(0, MetaOf(use)), false, 1)
  {
    OthersStand(cfg, s, StartOf(use));
  }

  lemma Registered(cfg: Config, s: C.State, use: C.Use)
    requires At(s, use, false, [C.Inside(0, use)], T.Registering(0, MetaOf(use)), false, 1)
    ensures C.Enabled(s, C.Register(0))
    ensures At(C.Next(cfg, s, C.Register(0)), use, false, [C.Inside(0, use)], T.Idle, true, 1)
  {
    OthersStand(cfg, s, C.Register(0));
  }

  lemma Parked(cfg: Config, s: C.State, use: C.Use)
    requires At(s, use, false, [C.Inside(0, use)], T.Idle, true, 1) && !use.Bracket?
    ensures C.Enabled(s, C.InnerReturns(0))
    ensures At(C.Next(cfg, s, C.InnerReturns(0)), use, true, [], T.Idle, true, 1)
  {
    OthersStand(cfg, s, C.InnerReturns(0));
    assert [] + [0] == [0];
  }

  lemma Waited(cfg: Config, s: C.State, use: C.Use)
    requires At(s, use, true, [], T.Idle, true, 1) && !use.Bracket?
    ensures C.Enabled(s, WaitOf(use))
    ensures At(C.Next(cfg, s, WaitOf(use)), use, false, [C.Closing([0], 0, false)], T.Idle, true, 1)
  {
    OthersStand(cfg, s, WaitOf(use));
  }

  lemma EndBegun(cfg: Config, s: C.State, use: C.Use)
    requires At(s, use, false, [C.Closing([0], 0, false)], T.Idle, true, 1)
    ensures C.Enabled(s, C.EndOne(0))
    ensures At(C.Next(cfg, s, C.EndOne(0)), use, false, [C.Closing([0], 1, false)],
               T.Terminating(0, MetaOf(use), false), false, 1)
  {
    OthersStand(cfg, s, C.EndOne(0));
  }

  lemma EndDone(cfg: Config, s: C.State, use: C.Use)
    requires At(s, use, false, [C.Closing([0], 1, false)], T.Terminating(0, MetaOf(use), false), false, 1)
    requires cfg.capacity >= 2
    ensures C.Enabled(s, C.FinishOne(0, None, 2))
    ensures At(C.Next(cfg, s, C.FinishOne(0, None, 2)), use, false, [C.Closing([0], 1, false)], T.Idle, false, 2)
  {
    OthersStand(cfg, s, C.FinishOne(0, None, 2));
  }

  lemma Left(cfg: Config, s: C.State, use: C.Use)
    requires At(s, use, false, [C.Closing([0], 1, false)], T.Idle, false, 2)
    ensures C.Enabled(s, C.Return(0)) && At(C.Next(cfg, s, C.Return(0)), use, false, [], T.Idle, false, 2)
  {
    OthersStand(cfg, s, C.Return(0));
  }

  lemma Then(cfg: Config, run: seq<C.Step>, step: C.Step) returns (longer: seq<C.Step>)
    requires C.IsRun(cfg, C.Init(), run) && C.AtomicDrains(run)
    requires C.Enabled(C.Final(cfg, C.Init(), run), step) && step != C.Flush(P.CopyRing)
    ensures longer == run + [step]
    ensures C.IsRun(cfg, C.Init(), longer) && C.AtomicDrains(longer)
    ensures C.Final(cfg, C.Init(), longer) == C.Next(cfg, C.Final(cfg, C.Init(), run), step)
  {
    longer := run + [step];
    R.RunOfOne(cfg, C.Final(cfg, C.Init(), run), step);
    R.RunsCompose(cfg, C.Init(), run, [step]);
  }

  /** A traced call whose transfer is parked when it returns. */
  lemma ParkedCall(cfg: Config, use: C.Use) returns (run: seq<C.Step>)
    requires cfg.capacity >= 2 && !use.Bracket?
    ensures C.IsRun(cfg, C.Init(), run) && C.AtomicDrains(run)
    ensures At(C.Final(cfg, C.Init(), run), use, true, [], T.Idle, true, 1)
  {
    run := [];
    Opened(cfg, C.Final(cfg, C.Init(), run), use);
    run := Then(cfg, run, StartOf(use));
    Registered(cfg, C.Final(cfg, C.Init(), run), use);
    run := Then(cfg, run, C.Register(0));
    Parked(cfg, C.Final(cfg, C.Init(), run), use);
    run := Then(cfg, run, C.InnerReturns(0));
  }

  /** ... and the wait that pops it and ends it. */
  lemma WaitedCall(cfg: Config, use: C.Use, call: seq<C.Step>) returns (run: seq<C.Step>)
    requires cfg.capacity >= 2 && !use.Bracket?
    requires C.IsRun(cfg, C.Init(), call) && C.AtomicDrains(call)
    requires At(C.Final(cfg, C.Init(), call), use, true, [], T.Idle, true, 1)
    ensures call <= run && C.IsRun(cfg, C.Init(), run) && C.AtomicDrains(run)
    ensures At(C.Final(cfg, C.Init(), run), use, false, [], T.Idle, false, 2)
  {
    Waited(cfg, C.Final(cfg, C.Init(), call), use);
    run := Then(cfg, call, WaitOf(use));
    EndBegun(cfg, C.Final(cfg, C.Init(), run), use);
    run := Then(cfg, run, C.EndOne(0));
    EndDone(cfg, C.Final(cfg, C.Init(), run), use);
    run := Then(cfg, run, C.FinishOne(0, None, 2));
    Left(cfg, C.Final(cfg, C.Init(), run), use);
    run := Then(cfg, run, C.Return(0));
  }

  /** Shutdown: the final drain of a single ring. */
  function Shutdown(): seq<P.Step> {
    [P.Stop, P.Loop, P.ListRings, P.Drain, P.WriteBatch]
  }

  /** Flusher steps move the pipe and nothing else. */
  lemma FlushStep(cfg: Config, s: C.State, p: P.Step)
    requires P.Enabled(s.t.pipe, p) && !p.Put? && !p.Register? && !p.Unregister?
    ensures C.Enabled(s, C.Flush(p))
    ensures C.Next(cfg, s, C.Flush(p)) == s.(t := s.t.(pipe := P.Next(cfg, s.t.pipe, p)))
  {
  }

  /** The pipe after so many steps of the shutdown. */
  predicate ShutBy(pipe: P.State, i: int) {
    && pipe.em.order == [0] && (i > 0 ==> pipe.stopping)
    && match pipe.fl
       case Top => i <= 1
       case Ready(last) => i == 2 && last
       case Draining(todo, _, last) => last && ((i == 3 && todo == [0]) || (i == 4 && todo == []))
       case Closed => i == 5
       case _ => false
  }

  lemma ShutStep(cfg: Config, pipe: P.State, i: nat)
    requires ShutBy(pipe, i) && i < 5
    ensures var p := Shutdown()[i];
      && !p.Put? && !p.Register? && !p.Unregister? && !p.CopyRing? && P.Enabled(pipe, p)
      && ShutBy(P.Next(cfg, pipe, p), i + 1) && P.Next(cfg, pipe, p).em.refused == pipe.em.refused
  {
  }

  lemma ShutsDown(cfg: Config, run: seq<C.Step>) returns (whole: seq<C.Step>)
    requires C.IsRun(cfg, C.Init(), run) && C.AtomicDrains(run)
    requires var pipe := C.Final(cfg, C.Init(), run).t.pipe; pipe.fl.Top? && pipe.em.order == [0]
    ensures run <= whole && C.IsRun(cfg, C.Init(), whole) && C.AtomicDrains(whole)
    ensures forall i :: |run| <= i < |whole| ==> whole[i].Flush?
    ensures var s, s' := C.Final(cfg, C.Init(), run), C.Final(cfg, C.Init(), whole);
      s'.t.pipe.fl.Closed? && s'.t.pipe.em.refused == s.t.pipe.em.refused && s' == s.(t := s.t.(pipe := s'.t.pipe))
  {
    whole := run;
    var i := 0;
    while i < 5
      invariant 0 <= i <= 5 && run <= whole && C.IsRun(cfg, C.Init(), whole) && C.AtomicDrains(whole)
      invariant var s, s' := C.Final(cfg, C.Init(), run), C.Final(cfg, C.Init(), whole);
        && s'.t.pipe.em.refused == s.t.pipe.em.refused && s' == s.(t := s.t.(pipe := s'.t.pipe))
        && ShutBy(s'.t.pipe, i)
      invariant forall j :: |run| <= j < |whole| ==> whole[j].Flush?
    {
      ShutStep(cfg, C.Final(cfg, C.Init(), whole).t.pipe, i);
      FlushStep(cfg, C.Final(cfg, C.Init(), whole), Shutdown()[i]);
      whole := Then(cfg, whole, C.Flush(Shutdown()[i]));
      i := i + 1;
    }
  }

  /**
   The premises of the end-to-end results hold of runs in which a load, on any layer
   or none, or a save is parked when its call returns and popped and ended by a
   wait, for any serialiser of the two records.
   */
  lemma CompleteRunExists(cfg: Config, codec: Codec, use: C.Use) returns (parked: seq<C.Step>, run: seq<C.Step>)
    requires cfg.capacity >= 2 && !use.Bracket?
    ensures C.IsRun(cfg, C.Init(), parked) && parked <= run && C.IsRun(cfg, C.Init(), run)
    ensures C.Holds(C.Final(cfg, C.Init(), parked), if use.ForLoad? then C.InBucket(use.layer, 0) else C.InSaves(0), 0)
    ensures var s := C.Final(cfg, C.Init(), run);
      && C.Quiescent(s) && CountOpens(T.Enqueued(s.t), 0) == 1 == CountCloses(T.Enqueued(s.t), 0)
      && ((forall r :: r in T.Enqueued(s.t) ==> Serialises(codec, r)) ==> E.Complete(cfg, codec, run))
  {
    parked := ParkedCall(cfg, use);
    var call := WaitedCall(cfg, use, parked);
    run := ShutsDown(cfg, call);
    CompleteAt(cfg, codec, use, call, run);
  }

  lemma CompleteAt(cfg: Config, codec: Codec, use: C.Use, call: seq<C.Step>, run: seq<C.Step>)
    requires C.IsRun(cfg, C.Init(), call) && At(C.Final(cfg, C.Init(), call), use, false, [], T.Idle, false, 2)
    requires C.IsRun(cfg, C.Init(), run) && C.AtomicDrains(run)
    requires var s, s' := C.Final(cfg, C.Init(), call), C.Final(cfg, C.Init(), run);
      s'.t.pipe.fl.Closed? && s'.t.pipe.em.refused == s.t.pipe.em.refused && s' == s.(t := s.t.(pipe := s'.t.pipe))
    ensures var s := C.Final(cfg, C.Init(), run);
      && C.Quiescent(s) && CountOpens(T.Enqueued(s.t), 0) == 1 == CountCloses(T.Enqueued(s.t), 0)
      && ((forall r :: r in T.Enqueued(s.t) ==> Serialises(codec, r)) ==> E.Complete(cfg, codec, run))
  {
    var s, s' := C.Final(cfg, C.Init(), call), C.Final(cfg, C.Init(), run);
    assert forall th: Thread :: C.StackOf(s', th) == C.StackOf(s, th) && T.CallOf(s'.t, th) == T.CallOf(s.t, th);
    C.InitInv();
    C.RunKeepsInv(cfg, C.Init(), run);
    assert T.StreamAgrees(s'.t, 0);
  }

  // ------------------------------------------------------------ request records

  /** Thread 0 has put so many records, and nothing else has happened. */
  ghost predicate Put(s: C.State, n: nat) {
    && s.t.calls == map[] && s.t.pipe.em.order == (if n > 0 then [0] else [])
    && (0 in s.t.pipe.em.rings <==> n > 0) && |RingOf(s.t.pipe.em, 0).items| == n
    && s.t.pipe.em.refused == 0 && !s.t.pipe.stopping && s.t.pipe.fl.Top?
  }

  lemma PutsOne(cfg: Config, s: C.State, n: nat, rec: Record)
    requires Put(s, n) && n < cfg.capacity && !IsTransfer(rec)
    ensures C.Enabled(s, C.Event(0, rec)) && Put(C.Next(cfg, s, C.Event(0, rec)), n + 1)
  {
  }

  lemma {:induction false} OffersSplit(a: seq<C.Step>, b: seq<C.Step>)
    ensures O.Offers(a + b) == O.Offers(a) + O.Offers(b)
    decreases |a|
  {
    if a == [] {
      assert a + b == b;
    } else {
      assert (a + b)[1..] == a[1..] + b;
      OffersSplit(a[1..], b);
    }
  }

  lemma {:induction false} FlushesOfferNothing(run: seq<C.Step>)
    requires forall i :: 0 <= i < |run| ==> run[i].Flush?
    ensures O.Offers(run) == []
    decreases |run|
  {
    if run == [] {
    } else {
      FlushesOfferNothing(run[1..]);
    }
  }

  lemma FeedsOneMore(run: seq<C.Step>, log: seq<Record>, rec: Record)
    requires O.Feeds(run, log)
    ensures O.Feeds(run + [C.Event(0, rec)], log + [rec])
  {
    var step := C.Event(0, rec);
    OffersSplit(run, [step]);
    assert O.Offers([step]) == O.Offer(step);
    forall r
      ensures r in O.Offers(run) + O.Offer(step) <==> r in log + [rec] && O.Probed(r)
    {
    }
  }

  /** One thread offers the records of a log. */
  lemma PutsLog(cfg: Config, log: seq<Record>) returns (run: seq<C.Step>)
    requires |log| <= cfg.capacity && forall r :: r in log ==> !IsTransfer(r)
    ensures C.IsRun(cfg, C.Init(), run) && C.AtomicDrains(run) && Put(C.Final(cfg, C.Init(), run), |log|)
    ensures O.Feeds(run, log)
  {
    run := [];
    var i := 0;
    while i < |log|
      invariant 0 <= i <= |log| && C.IsRun(cfg, C.Init(), run) && C.AtomicDrains(run)
      invariant Put(C.Final(cfg, C.Init(), run), i) && O.Feeds(run, log[..i])
    {
      PutsOne(cfg, C.Final(cfg, C.Init(), run), i, log[i]);
      FeedsOneMore(run, log[..i], log[i]);
      assert log[..i + 1] == log[..i] + [log[i]];
      run := Then(cfg, run, C.Event(0, log[i]));
      i := i + 1;
    }
    assert log[..i] == log;
  }

  /** Any log of the request probes that fits into a ring is carried to the file by some complete run. */
  lemma CarryingRunExists(cfg: Config, codec: Codec, log: seq<Record>) returns (run: seq<C.Step>)
    requires 0 < |log| <= cfg.capacity && forall r :: r in log ==> !IsTransfer(r)
    ensures C.IsRun(cfg, C.Init(), run) && O.Feeds(run, log)
    ensures (forall r :: r in T.Enqueued(C.Final(cfg, C.Init(), run).t) ==> Serialises(codec, r)) ==>
              E.Complete(cfg, codec, run)
  {
    var puts := PutsLog(cfg, log);
    run := ShutsDown(cfg, puts);
    var flushes := run[|puts|..];
    assert run == puts + flushes;
    OffersSplit(puts, flushes);
    FlushesOfferNothing(flushes);
  }
}
