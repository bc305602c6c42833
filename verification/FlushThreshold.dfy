/**
 The size trigger: how far the records in the rings can outrun the pending-byte
 estimate, and for which configurations a refusal implies that a flush is
 already signalled or running.
 */
module FlushThreshold {
  import opened Records
  import opened EmitterModel
  import opened Pipeline

  /** A ring's records, unless the current flush has yet to drain it. */
  function Weight(em: EmitterState, todo: seq<Thread>, th: Thread): nat {
    if th in todo then 0 else |RingOf(em, th).items|
  }

  function Unflushed(em: EmitterState, todo: seq<Thread>, order: seq<Thread>): nat {
    if order == [] then 0
    else Unflushed(em, todo, order[..|order| - 1]) + Weight(em, todo, order[|order| - 1])
  }

  lemma {:induction false} OneWeightChanges(
      em: EmitterState, todo: seq<Thread>, em': EmitterState, todo': seq<Thread>, order: seq<Thread>, th: Thread)
    requires Distinct(order)
    requires forall t :: t in order && t != th ==> Weight(em', todo', t) == Weight(em, todo, t)
    ensures Unflushed(em', todo', order) - Unflushed(em, todo, order)
            == if th in order then Weight(em', todo', th) - Weight(em, todo, th) else 0
    decreases |order|
  {
    if order == [] {
    } else {
      var front, last := order[..|order| - 1], order[|order| - 1];
      assert order == front + [last];
      assert last !in front;
      OneWeightChanges(em, todo, em', todo', front, th);
    }
  }

  lemma {:induction false} OneRingIsPart(em: EmitterState, order: seq<Thread>, th: Thread)
    requires th in order
    ensures |RingOf(em, th).items| <= Unflushed(em, [], order)
    decreases |order|
  {
    var front, last := order[..|order| - 1], order[|order| - 1];
    assert order == front + [last];
    if th == last {
    } else {
      OneRingIsPart(em, front, th);
    }
  }

  ghost predicate Idle(s: State) {
    s.fl.Top? || s.fl.Waiting?
  }

  /** Records the next flush has not been promised. */
  function Remaining(s: State): seq<Thread> {
    if s.fl.Draining? || s.fl.Swapping? then s.fl.todo else []
  }

  ghost predicate Bounded(cfg: Config, s: State) {
    && 0 <= s.em.pending
    && (s.em.pending == 0 || s.em.pending < cfg.flushBytes)
    && ((Idle(s) || s.fl.Draining? || s.fl.Swapping?) && !s.em.trigger ==>
          RECORD_ESTIMATE * Unflushed(s.em, Remaining(s), s.em.order) <= s.em.pending)
  }

  lemma WeightAfterPut(cfg: Config, em: EmitterState, todo: seq<Thread>, th: Thread, rec: Record, t: Thread)
    ensures Weight(Enqueue(cfg, em, th, rec), todo, t) <=
            Weight(em, todo, t) + (if t == th && HasRoom(cfg, em, th) then 1 else 0)
    ensures t != th ==> Weight(Enqueue(cfg, em, th, rec), todo, t) == Weight(em, todo, t)
  {
  }

  lemma UnflushedAppend(em: EmitterState, todo: seq<Thread>, order: seq<Thread>, th: Thread)
    ensures Unflushed(em, todo, order + [th]) == Unflushed(em, todo, order) + Weight(em, todo, th)
  {
  }

  /** A put adds at most one record to what the next flush has not been promised. */
  lemma PutAddsOne(cfg: Config, em: EmitterState, todo: seq<Thread>, th: Thread, rec: Record)
    requires Distinct(em.order) && (th in em.order <==> th in em.rings)
    ensures var em' := Enqueue(cfg, em, th, rec);
      Unflushed(em', todo, em'.order) <= Unflushed(em, todo, em.order) + (if HasRoom(cfg, em, th) then 1 else 0)
  {
    var em' := Enqueue(cfg, em, th, rec);
    assert em'.order == if th in em.rings then em.order else em.order + [th];
    assert th !in em.rings ==> Weight(em, todo, th) == 0;
    forall t: Thread
      ensures t != th ==> Weight(em', todo, t) == Weight(em, todo, t)
    {
      WeightAfterPut(cfg, em, todo, th, rec, t);
    }
    WeightAfterPut(cfg, em, todo, th, rec, th);
    hide Enqueue, Weight;
    OneWeightChanges(em, todo, em', todo, em.order, th);
    if th !in em.rings {
      UnflushedAppend(em', todo, em.order, th);
    }
  }

  /** Put one record after another, each by some thread. */
  function AfterPuts(cfg: Config, em: EmitterState, puts: seq<(Thread, Record)>): EmitterState {
    if puts == [] then em
    else
      var last := puts[|puts| - 1];
      Enqueue(cfg, AfterPuts(cfg, em, puts[..|puts| - 1]), last.0, last.1)
  }

  /**
   The trigger's period: of accepted puts with no flush between them, from a fresh
   estimate, the trigger is set if and only if they reach the threshold, and the
   estimate then starts over, so that every so many puts signal again.
   */
  lemma {:induction false} TriggerPeriod(cfg: Config, em: EmitterState, puts: seq<(Thread, Record)>, period: nat)
    returns (times: nat, rest: nat)
    requires em.pending == 0 && !em.trigger && period > 0
    requires 256 * (period - 1) < cfg.flushBytes <= 256 * period
    requires forall i :: 0 <= i < |puts| ==> HasRoom(cfg, AfterPuts(cfg, em, puts[..i]), puts[i].0)
    ensures |puts| == times * period + rest && rest < period
    ensures var em' := AfterPuts(cfg, em, puts); (em'.trigger <==> times > 0) && em'.pending == 256 * rest
    decreases |puts|
  {
    if puts == [] {
      times, rest := 0, 0;
    } else {
      var n := |puts| - 1;
      var front := puts[..n];
      forall i | 0 <= i < n
        ensures HasRoom(cfg, AfterPuts(cfg, em, front[..i]), front[i].0)
      {
        assert front[..i] == puts[..i];
      }
      times, rest := TriggerPeriod(cfg, em, front, period);
      PutSignals(cfg, AfterPuts(cfg, em, front), puts[n].0, puts[n].1);
      if rest + 1 == period {
        assert (times + 1) * period == times * period + period;
        times, rest := times + 1, 0;
      } else {
        rest := rest + 1;
      }
    }
  }

  /** An accepted put sets the trigger, and starts the estimate over, exactly if it reaches the threshold. */
  lemma PutSignals(cfg: Config, em: EmitterState, th: Thread, rec: Record)
    requires HasRoom(cfg, em, th)
    ensures var em', reached := Enqueue(cfg, em, th, rec), em.pending + 256 >= cfg.flushBytes;
      && (em'.trigger <==> em.trigger || reached)
      && em'.pending == if reached then 0 else em.pending + 256
  {
  }

  lemma PutKeepsBounded(cfg: Config, s: State, step: Step)
    requires Bounded(cfg, s) && Registered(s) && step.Put? && Enabled(s, step)
    ensures Bounded(cfg, Next(cfg, s, step))
  {
    PutAddsOne(cfg, s.em, Remaining(s), step.th, step.rec);
    assert Remaining(Next(cfg, s, step)) == Remaining(s);
  }

  lemma DrainKeepsBounded(cfg: Config, s: State, step: Step)
    requires Bounded(cfg, s) && Registered(s) && (step.Drain? || step.SwapRing?) && Enabled(s, step)
    ensures Bounded(cfg, Next(cfg, s, step))
  {
    var s', first := Next(cfg, s, step), s.fl.todo[0];
    forall t | t != first
      ensures Weight(s'.em, s'.fl.todo, t) == Weight(s.em, s.fl.todo, t)
    {
      assert t in s.fl.todo <==> t in s'.fl.todo;
    }
    OneWeightChanges(s.em, s.fl.todo, s'.em, s'.fl.todo, s.em.order, first);
  }

  lemma {:induction false} AllPromised(em: EmitterState, todo: seq<Thread>, order: seq<Thread>)
    requires forall t :: t in order ==> t in todo
    ensures Unflushed(em, todo, order) == 0
    decreases |order|
  {
    if order == [] {
    } else {
      AllPromised(em, todo, order[..|order| - 1]);
    }
  }

  lemma {:induction false} SameRings(em: EmitterState, em': EmitterState, todo: seq<Thread>, order: seq<Thread>)
    requires em.rings == em'.rings
    ensures Unflushed(em, todo, order) == Unflushed(em', todo, order)
    decreases |order|
  {
    if order == [] {
    } else {
      SameRings(em, em', todo, order[..|order| - 1]);
    }
  }

  lemma StepKeepsBounded(cfg: Config, s: State, step: Step)
    requires Bounded(cfg, s) && Registered(s) && Enabled(s, step)
    ensures Bounded(cfg, Next(cfg, s, step))
  {
    var s' := Next(cfg, s, step);
    match step
    case Put(_, _) => PutKeepsBounded(cfg, s, step);
    case Drain => DrainKeepsBounded(cfg, s, step);
    case SwapRing => DrainKeepsBounded(cfg, s, step);
    case ListRings => AllPromised(s.em, s.em.order, s.em.order);
    case _ => SameRings(s.em, s'.em, Remaining(s), s.em.order);
  }

  lemma {:induction false} RunKeepsBounded(cfg: Config, s: State, run: seq<Step>)
    requires Bounded(cfg, s) && Inv(s) && IsRun(cfg, s, run)
    ensures Bounded(cfg, Final(cfg, s, run)) && Inv(Final(cfg, s, run))
    decreases |run|
  {
    if run == [] {
    } else {
      StepKeepsBounded(cfg, s, run[0]);
      StepKeepsInv(cfg, s, run[0]);
      RunKeepsBounded(cfg, Next(cfg, s, run[0]), run[1..]);
    }
  }

  /** While the flusher is idle and unsignalled, the rings are within the estimate. */
  lemma IdleRingsAreWithinEstimate(cfg: Config, run: seq<Step>)
    requires IsRun(cfg, Init(), run)
    ensures var s := Final(cfg, Init(), run);
      Idle(s) && !s.em.trigger ==>
        && RECORD_ESTIMATE * Unflushed(s.em, [], s.em.order) <= s.em.pending
        && (s.em.pending == 0 || s.em.pending < cfg.flushBytes)
  {
    InitInv();
    RunKeepsBounded(cfg, Init(), run);
  }

  /** In this state a refused record means that a flush is signalled or running. */
  ghost predicate RefusalIsAnswered(cfg: Config, s: State) {
    Idle(s) && !s.em.trigger ==> forall th: Thread :: HasRoom(cfg, s.em, th)
  }

  lemma SmallThresholdAnswers(cfg: Config, run: seq<Step>)
    requires cfg.capacity > 0 && cfg.flushBytes <= RECORD_ESTIMATE * cfg.capacity
    requires IsRun(cfg, Init(), run)
    ensures RefusalIsAnswered(cfg, Final(cfg, Init(), run))
  {
    var s := Final(cfg, Init(), run);
    InitInv();
    RunKeepsBounded(cfg, Init(), run);
    forall th: Thread | Idle(s) && !s.em.trigger
      ensures HasRoom(cfg, s.em, th)
    {
      if th in s.em.rings {
        OneRingIsPart(s.em, s.em.order, th);
      }
    }
  }

  /** One thread fills its ring while the flusher waits for its interval to pass. */
  lemma {:induction false} FillQuietly(cfg: Config, k: nat) returns (run: seq<Step>)
    requires k <= cfg.capacity && RECORD_ESTIMATE * cfg.capacity < cfg.flushBytes
    ensures IsRun(cfg, Init(), run)
    ensures var s := Final(cfg, Init(), run);
      && s.fl.Waiting? && !s.em.trigger && !s.stopping
      && |RingOf(s.em, 0).items| == k && s.em.pending == RECORD_ESTIMATE * k
    decreases k
  {
    if k == 0 {
      run := [];
      RunExtends(cfg, Init(), [], Loop);
      run := run + [Loop];
    } else {
      var step := Put(0, Bare(Metadata, SchedulerDecision, 1));
      run := FillQuietly(cfg, k - 1);
      RunExtends(cfg, Init(), run, step);
      run := run + [step];
    }
  }

  /**
   A refusal always finds a flush signalled or running if and only if the
   threshold is at most the estimate of one full ring.
   */
  lemma RefusalsAreAnsweredExactly(cfg: Config)
    requires cfg.capacity > 0
    ensures (forall run :: IsRun(cfg, Init(), run) ==> RefusalIsAnswered(cfg, Final(cfg, Init(), run)))
            <==> cfg.flushBytes <= 256 * cfg.capacity
  {
    if cfg.flushBytes <= RECORD_ESTIMATE * cfg.capacity {
      forall run | IsRun(cfg, Init(), run)
        ensures RefusalIsAnswered(cfg, Final(cfg, Init(), run))
      {
        SmallThresholdAnswers(cfg, run);
      }
    } else {
      var run := FillQuietly(cfg, cfg.capacity);
      assert !HasRoom(cfg, Final(cfg, Init(), run).em, 0);
    }
  }

  /** The shipped default is outside that range: some run refuses a record in silence. */
  lemma DefaultThresholdRefusesInSilence(cfg: Config)
    requires cfg.capacity == RING_CAPACITY && cfg.flushBytes == DEFAULT_FLUSH_BYTES
    ensures cfg.capacity == 4096 && cfg.flushBytes == 4 * 1024 * 1024
    ensures exists run :: IsRun(cfg, Init(), run) && !RefusalIsAnswered(cfg, Final(cfg, Init(), run))
  {
    RefusalsAreAnsweredExactly(cfg);
  }
}
