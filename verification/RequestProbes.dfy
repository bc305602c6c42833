/** The tracker and the wrappers that keep it, proved to perform RequestModel's actions. */
module RequestProbes {
  import opened Records
  import opened RequestModel

  class RequestStateTracker {
    var states: Tracker

    constructor ()
      ensures states == map[]
    {
      states := map[];
    }

    function Entry(rid: RequestId): ReqState
      reads this
    {
      if rid in states then states[rid] else BLANK
    }

    method SetArrival(rid: RequestId, ts: int)
      modifies this
      ensures states == old(states)[rid := old(Entry(rid)).(arrival := Some(ts))]
    {
      states := states[rid := Entry(rid).(arrival := Some(ts))];
    }

    method SetCount(rid: RequestId, n: nat)
      modifies this
      ensures states == old(states)[rid := old(Entry(rid)).(outputs := Some(n))]
    {
      states := states[rid := Entry(rid).(outputs := Some(n))];
    }

    /** Set only if absent; says whether it was set.  The entry exists afterwards either way. */
    method SetFirstSchedule(rid: RequestId, ts: int) returns (done: bool)
      modifies this
      ensures done <==> old(Entry(rid)).firstSchedule.None?
      ensures states ==
        old(states)[rid := if done then old(Entry(rid)).(firstSchedule := Some(ts)) else old(Entry(rid))]
    {
      var q := Entry(rid);
      done := q.firstSchedule.None?;
      if done { q := q.(firstSchedule := Some(ts)); }
      states := states[rid := q];
    }

    method SetFirstToken(rid: RequestId, ts: int) returns (done: bool)
      modifies this
      ensures done <==> old(Entry(rid)).firstToken.None?
      ensures states == old(states)[rid := if done then old(Entry(rid)).(firstToken := Some(ts)) else old(Entry(rid))]
    {
      var q := Entry(rid);
      done := q.firstToken.None?;
      if done { q := q.(firstToken := Some(ts)); }
      states := states[rid := q];
    }

    method Get(rid: RequestId) returns (q: ReqState)
      ensures q == Entry(rid)
    {
      q := Entry(rid);
    }

    method Pop(rid: RequestId) returns (q: ReqState)
      modifies this
      ensures q == old(Entry(rid)) && states == old(states) - {rid}
    {
      q := Entry(rid);
      states := states - {rid};
    }
  }

  /** The scheduler, runner and output-processor wrappers around one tracker. */
  class Probes {
    const tracker: RequestStateTracker
    var log: seq<Record>
    ghost var read: map<Thread, nat>

    constructor ()
      ensures fresh(tracker) && View() == Init()
    {
      tracker := new RequestStateTracker();
      log, read := [], map[];
    }

    ghost function View(): State
      reads this, tracker
    {
      State(tracker.states, read, log)
    }

    method Emit(r: Record)
      modifies `log
      ensures log == old(log) + [r]
    {
      log := log + [r];
    }

    method ProcessInputs(rid: RequestId, ts: int)
      modifies this, tracker
      ensures View() == Next(old(View()), Arrive(rid, ts))
    {
      tracker.SetArrival(rid, ts);
      Emit(RequestRecord(Arrival, rid, ts, Stamps(Some(ts), None, None, None, None, None, 0)));
    }

    /**
     One scheduler step.  `before` and `after` are the running sets around it; `found`
     lists, in whatever order the set yields them, those that run now and did not.
     */
    method Schedule(newly: seq<RequestId>, cached: seq<RequestId>, before: set<RequestId>, after: set<RequestId>,
                    preempted: seq<RequestId>, resumedList: seq<RequestId>, ts: int) returns (found: seq<RequestId>)
      modifies this, tracker
      ensures var admitted := AdmittedIds(newly, cached, before);
        && (forall rid :: rid in found <==> rid in after && rid !in before && rid !in admitted)
        && View() == AfterSchedule(old(View()), admitted, preempted, ResumedIds(resumedList, found), ts)
    {
      var admitted := ListAdmitted(newly, cached, before);
      EmitAdmits(admitted, ts);
      EmitMoves(preempted, ts, false);
      var resumed;
      resumed, found := ListResumed(resumedList, after - before - (set rid | rid in admitted));
      EmitMoves(resumed, ts, true);
      Emit(Bare(Metadata, SchedulerDecision, ts));
    }

    /** The ids to admit: the new requests, then cached ones that were not running. */
    static method ListAdmitted(newly: seq<RequestId>, cached: seq<RequestId>, before: set<RequestId>)
      returns (admitted: seq<RequestId>)
      ensures admitted == AdmittedIds(newly, cached, before)
    {
      admitted := newly;
      var i := 0;
      while i < |cached|
        invariant 0 <= i <= |cached| && admitted == AdmittedIds(newly, cached[..i], before)
      {
        assert cached[..i + 1][..i] == cached[..i];
        if cached[i] !in before && cached[i] !in admitted {
          admitted := admitted + [cached[i]];
        }
        i := i + 1;
      }
      assert cached[..i] == cached;
    }

    /** The ids to report as resumed: those listed, then any found that are not listed. */
    static method ListResumed(listed: seq<RequestId>, ids: set<RequestId>)
      returns (resumed: seq<RequestId>, found: seq<RequestId>)
      ensures resumed == ResumedIds(listed, found) && forall rid :: rid in found <==> rid in ids
    {
      resumed, found := listed, [];
      var rest := ids;
      while rest != {}
        invariant rest <= ids && resumed == ResumedIds(listed, found)
        invariant forall rid :: rid in found <==> rid in ids && rid !in rest
        decreases rest
      {
        var rid :| rid in rest;
        assert (found + [rid])[..|found|] == found;
        if rid !in resumed {
          resumed := resumed + [rid];
        }
        found, rest := found + [rid], rest - {rid};
      }
    }

    method EmitAdmits(rids: seq<RequestId>, ts: int)
      modifies this, tracker
      ensures View() == AfterAdmits(old(View()), rids, ts)
    {
      var i := 0;
      while i < |rids|
        invariant 0 <= i <= |rids| && View() == AfterAdmits(old(View()), rids[..i], ts)
      {
        assert rids[..i + 1][..i] == rids[..i];
        var _ := tracker.SetFirstSchedule(rids[i], ts);
        var q := tracker.Get(rids[i]);
        Emit(RequestRecord(Admit, rids[i], ts, Stamps(q.arrival, Some(ts), None, None, None, None, 0)));
        i := i + 1;
      }
      assert rids[..i] == rids;
    }

    method EmitMoves(rids: seq<RequestId>, ts: int, resumed: bool)
      modifies this
      ensures View() == AfterMoves(old(View()), rids, ts, resumed)
    {
      var i := 0;
      while i < |rids|
        invariant 0 <= i <= |rids| && View() == AfterMoves(old(View()), rids[..i], ts, resumed)
      {
        assert rids[..i + 1][..i] == rids[..i];
        Emit(RequestRecord(if resumed then Resume else Preempt, rids[i], ts, Plain));
        i := i + 1;
      }
      assert rids[..i] == rids;
    }

    /** The runner's loop: count the tokens, then a first_token record or a sampled token record. */
    method ExecuteModel(th: Thread, outs: seq<Output>, ts: int)
      modifies this, tracker
      ensures View() == AfterOutputs(old(View()), th, outs, ts)
    {
      var i := 0;
      while i < |outs|
        invariant 0 <= i <= |outs| && View() == AfterOutputs(old(View()), th, outs[..i], ts)
      {
        OutputsNext(old(View()), th, outs, ts, i);
        ProduceOutput(th, outs[i], ts);
        i := i + 1;
      }
      assert outs[..i] == outs;
    }

    method ProduceOutput(th: Thread, out: Output, ts: int)
      modifies this, tracker
      ensures View() == AfterOutput(old(View()), th, out, ts)
    {
      var q := tracker.Get(out.rid);
      var prev := Count(q);
      read := read[th := prev];
      tracker.SetCount(out.rid, prev + out.produced);
      var first := tracker.SetFirstToken(out.rid, ts);
      if first {
        Emit(TokenRecord(FirstToken, out.rid, ts));
      } else if out.sampled {
        Emit(TokenRecord(if out.prefill then PrefillChunk else Decode, out.rid, ts));
      }
    }

    /** The output processor's hook: a first_token record for each request the runner missed. */
    method OutputHook(rids: seq<RequestId>, ts: int)
      modifies this, tracker
      ensures View() == AfterHooks(old(View()), rids, ts)
    {
      var i := 0;
      while i < |rids|
        invariant 0 <= i <= |rids| && View() == AfterHooks(old(View()), rids[..i], ts)
      {
        assert rids[..i + 1][..i] == rids[..i];
        var first := tracker.SetFirstToken(rids[i], ts);
        if first {
          Emit(TokenRecord(FirstToken, rids[i], ts));
        }
        i := i + 1;
      }
      assert rids[..i] == rids;
    }

    method FinishRequest(rid: RequestId, aborted: bool, told: Option<int>, ts: int)
      modifies this, tracker
      ensures View() == Next(old(View()), Finished(rid, ts, aborted, told))
    {
      var q := tracker.Pop(rid);
      var n := if told.Some? then told.value else Count(q);
      var ttft: Option<int>, tpot: Option<int> := None, None;
      if IsTrue(q.arrival) && IsTrue(q.firstToken) && q.firstToken.value >= q.arrival.value {
        ttft := Some(q.firstToken.value - q.arrival.value);
      }
      if IsTrue(q.firstToken) && n > 1 && ts > q.firstToken.value {
        tpot := Some((ts - q.firstToken.value) / (if n - 1 > 1 then n - 1 else 1));
      }
      Emit(RequestRecord(if aborted then Abort else Finish, rid, ts,
             Stamps(q.arrival, q.firstSchedule, q.firstToken, Some(ts), ttft, tpot, n)));
    }

    method AbortRequest(rid: RequestId, ts: int)
      modifies this, tracker
      ensures View() == Next(old(View()), Aborted(rid, ts))
    {
      var q := tracker.Pop(rid);
      Emit(RequestRecord(Abort, rid, ts, Stamps(q.arrival, None, None, Some(ts), None, None, 0)));
    }
  }
}
