/** Admissions and preemptions found by comparing the running set before and after each batch. */
module SglangScheduler {
  import opened Records
  import opened RequestModel
  import opened RequestProbes

  type Ids = set<RequestId>

  /** One scheduler call: the running set around it and the lists its result carries, if any. */
  datatype Batch = Batch(
    before: Ids, after: Ids, admitted: seq<RequestId>, preempted: seq<RequestId>, resumed: seq<RequestId>, ts: int)

  // ------------------------------------------------------------ sorted listings

  predicate Ascending(ids: seq<RequestId>) {
    forall i, j :: 0 <= i < j < |ids| ==> ids[i] < ids[j]
  }

  function Elements(ids: seq<RequestId>): Ids {
    set id | id in ids
  }

  /** The ids of a set in ascending order. */
  method SortIds(ids: Ids) returns (listed: seq<RequestId>)
    ensures Ascending(listed) && Elements(listed) == ids
  {
    listed := [];
    var rest := ids;
    while rest != {}
      invariant rest <= ids && Ascending(listed)
      invariant forall x :: x in listed <==> x in ids && x !in rest
      invariant forall x, i :: x in rest && 0 <= i < |listed| ==> x < listed[i]
      decreases rest
    {
      var top := Largest(rest);
      ghost var before := listed;
      assert forall i :: 0 <= i < |before| ==> before[i] in before;
      listed := [top] + listed;
      rest := rest - {top};
      assert forall i :: 1 <= i < |listed| ==> listed[i] == before[i - 1];
      assert forall x :: x in listed <==> x == top || x in before;
    }
  }

  method Largest(ids: Ids) returns (top: RequestId)
    requires ids != {}
    ensures top in ids && forall x :: x in ids ==> x <= top
  {
    top :| top in ids;
    var rest := ids - {top};
    while rest != {}
      invariant top in ids && rest <= ids && forall x :: x in ids && x !in rest ==> x <= top
      decreases rest
    {
      var x :| x in rest;
      if x > top { top := x; }
      rest := rest - {x};
    }
  }

  // ---------------------------------------------------------------- the wrapper

  /** The admitted ids: those listed or, if none are, the newly running ones. */
  ghost predicate IsAdmitted(b: Batch, ids: seq<RequestId>) {
    if b.admitted != [] then ids == b.admitted
    else Ascending(ids) && Elements(ids) == b.after - b.before
  }

  /** The preempted ids: those listed or, if none are, the ones no longer running. */
  ghost predicate IsPreempted(b: Batch, admitted: seq<RequestId>, ids: seq<RequestId>) {
    if b.preempted != [] then ids == b.preempted
    else Ascending(ids) && Elements(ids) == b.before - b.after - Elements(admitted)
  }

  /** The probes after a call that admitted and preempted these ids. */
  function AfterBatch(s: State, b: Batch, admitted: seq<RequestId>, preempted: seq<RequestId>): State
  {
    AfterSchedule(s, admitted, preempted, b.resumed, b.ts)
  }

  method RunBatch(probes: Probes, b: Batch) returns (admitted: seq<RequestId>, preempted: seq<RequestId>)
    modifies probes, probes.tracker
    ensures IsAdmitted(b, admitted) && IsPreempted(b, admitted, preempted)
    ensures probes.View() == AfterBatch(old(probes.View()), b, admitted, preempted)
  {
    admitted := b.admitted;
    if admitted == [] {
      admitted := SortIds(b.after - b.before);
    }
    preempted := b.preempted;
    if preempted == [] {
      preempted := SortIds(b.before - b.after - (set id | id in admitted));
    }
    probes.EmitAdmits(admitted, b.ts);
    probes.EmitMoves(preempted, b.ts, false);
    probes.EmitMoves(b.resumed, b.ts, true);
    probes.Emit(Bare(Metadata, SchedulerDecision, b.ts));
  }

  // ------------------------------------------------------------------- finishes

  /** A finished request as the engine hands it over. */
  datatype Candidate = Candidate(rid: Option<RequestId>, aborted: bool, told: Option<int>)

  /** The first candidate of each id; candidates without one are skipped. */
  function FirstOfEach(cands: seq<Candidate>): seq<Candidate> {
    if cands == [] then []
    else
      var before, c := FirstOfEach(cands[..|cands| - 1]), cands[|cands| - 1];
      if c.rid.None? || Names(before, c.rid.value) then before else before + [c]
  }

  predicate Names(cands: seq<Candidate>, rid: RequestId) {
    exists i :: 0 <= i < |cands| && cands[i].rid == Some(rid)
  }

  function AfterFinishes(s: State, cands: seq<Candidate>, ts: int): State
  {
    if cands == [] then s
    else
      var before, c := AfterFinishes(s, cands[..|cands| - 1], ts), cands[|cands| - 1];
      if c.rid.None? then before else Next(before, Finished(c.rid.value, ts, c.aborted, c.told))
  }

  method FinishRequests(probes: Probes, cands: seq<Candidate>, ts: int)
    modifies probes, probes.tracker
    ensures probes.View() == AfterFinishes(old(probes.View()), FirstOfEach(cands), ts)
  {
    var seen: Ids := {};
    var i := 0;
    while i < |cands|
      invariant 0 <= i <= |cands|
      invariant forall rid: RequestId :: rid in seen <==> Names(FirstOfEach(cands[..i]), rid)
      invariant probes.View() == AfterFinishes(old(probes.View()), FirstOfEach(cands[..i]), ts)
    {
      var c := cands[i];
      ghost var before := FirstOfEach(cands[..i]);
      assert cands[..i + 1][..i] == cands[..i];
      if c.rid.Some? && c.rid.value !in seen {
        seen := seen + {c.rid.value};
        NamesAppend(before, c);
        assert (before + [c])[..|before|] == before;
        probes.FinishRequest(c.rid.value, c.aborted, c.told, ts);
      }
      i := i + 1;
    }
    assert cands[..i] == cands;
  }

  lemma NamesAppend(cands: seq<Candidate>, c: Candidate)
    ensures forall rid: RequestId :: Names(cands + [c], rid) <==> Names(cands, rid) || c.rid == Some(rid)
  {
    forall rid: RequestId | Names(cands, rid)
      ensures Names(cands + [c], rid)
    {
      var i :| 0 <= i < |cands| && cands[i].rid == Some(rid);
      assert (cands + [c])[i].rid == Some(rid);
    }
    assert (cands + [c])[|cands|] == c;
  }

  predicate IsTerminal(subtype: Option<Subtype>) {
    subtype == Some(Finish) || subtype == Some(Abort)
  }

  /** Terminal records of a request. */
  function Terminals(log: seq<Record>, rid: RequestId): nat {
    if log == [] then 0
    else
      var last := log[|log| - 1];
      Terminals(log[..|log| - 1], rid) +
      (if last.kind == Some(Request) && last.request == Some(rid) && IsTerminal(last.subtype) then 1 else 0)
  }

  lemma FinishAddsOne(s: State, c: Candidate, ts: int, rid: RequestId)
    requires c.rid.Some?
    ensures var s' := Next(s, Finished(c.rid.value, ts, c.aborted, c.told));
      && Terminals(s'.log, rid) == Terminals(s.log, rid) + (if c.rid.value == rid then 1 else 0)
      && (rid in s'.tracker <==> rid in s.tracker && c.rid.value != rid)
  {
    var s' := Next(s, Finished(c.rid.value, ts, c.aborted, c.told));
    assert s'.log[..|s.log|] == s.log;
  }

  /**
   One call gives each id among its candidates exactly one terminal record,
   however often it is repeated, and forgets it; other ids are left alone.
   */
  lemma {:induction false} EachFinishesOnce(s: State, cands: seq<Candidate>, ts: int, rid: RequestId)
    ensures var s' := AfterFinishes(s, FirstOfEach(cands), ts);
      && Terminals(s'.log, rid) == Terminals(s.log, rid) + (if Names(cands, rid) then 1 else 0)
      && (rid in s'.tracker <==> rid in s.tracker && !Names(cands, rid))
      && (Names(FirstOfEach(cands), rid) <==> Names(cands, rid))
    decreases |cands|
  {
    if cands == [] {
    } else {
      var front, c := cands[..|cands| - 1], cands[|cands| - 1];
      var before := FirstOfEach(front);
      EachFinishesOnce(s, front, ts, rid);
      NamesAppend(front, c);
      assert cands == front + [c];
      if c.rid.Some? && !Names(before, c.rid.value) {
        NamesAppend(before, c);
        assert (before + [c])[..|before|] == before;
        FinishAddsOne(AfterFinishes(s, before, ts), c, ts, rid);
      } else if c.rid == Some(rid) {
        assert Names(before, rid);
      }
    }
  }

  /** The first candidate of its id. */
  ghost predicate IsFirst(cands: seq<Candidate>, i: int) {
    && 0 <= i < |cands| && cands[i].rid.Some?
    && forall j :: 0 <= j < i ==> cands[j].rid != cands[i].rid
  }

  lemma IsFirstOfFront(cands: seq<Candidate>, c: Candidate, i: int)
    ensures IsFirst(cands + [c], i) <==>
            IsFirst(cands, i) || (i == |cands| && c.rid.Some? && !Names(cands, c.rid.value))
  {
    assert forall j :: 0 <= j < |cands| ==> (cands + [c])[j] == cands[j];
    if i == |cands| && c.rid.Some? && Names(cands, c.rid.value) {
      var j :| 0 <= j < |cands| && cands[j].rid == Some(c.rid.value);
      assert (cands + [c])[j].rid == (cands + [c])[i].rid;
    }
  }

  /** What the terminal record of a candidate says, of a request with this entry. */
  predicate TellsEnd(r: Record, q: ReqState, c: Candidate, ts: int) {
    && r.kind == Some(Request) && r.request == c.rid && r.ts == Some(ts)
    && r.subtype == Some(if c.aborted then Abort else Finish)
    && r.detail.Stamps? && r.detail.finish == Some(ts)
    && r.detail.arrival == q.arrival && r.detail.firstSchedule == q.firstSchedule
    && r.detail.firstToken == q.firstToken
    && r.detail.outputLen == (if c.told.Some? then c.told.value else Count(q))
  }

  lemma FinishTells(s: State, c: Candidate, ts: int)
    requires c.rid.Some?
    ensures var log := Next(s, Finished(c.rid.value, ts, c.aborted, c.told)).log;
      s.log <= log && |log| == |s.log| + 1 && TellsEnd(log[|s.log|], Of(s, c.rid.value), c, ts)
  {
  }

  /**
   The terminal record of an id is that of its first candidate: that one's outcome
   and count, and the stamps that the tracker had before the call.
   */
  lemma {:induction false} FirstCandidateCounts(s: State, cands: seq<Candidate>, ts: int, i: nat)
    requires IsFirst(cands, i)
    ensures var log := AfterFinishes(s, FirstOfEach(cands), ts).log;
      s.log <= log && exists k :: |s.log| <= k < |log| && TellsEnd(log[k], Of(s, cands[i].rid.value), cands[i], ts)
    decreases |cands|
  {
    var front, c := cands[..|cands| - 1], cands[|cands| - 1];
    assert cands == front + [c];
    var before := FirstOfEach(front);
    var s1, s' := AfterFinishes(s, before, ts), AfterFinishes(s, FirstOfEach(cands), ts);
    FinishesExtend(s, front, ts);
    IsFirstOfFront(front, c, i);
    EachFinishesOnce(s, front, ts, cands[i].rid.value);
    if c.rid.Some? && !Names(before, c.rid.value) {
      assert (before + [c])[..|before|] == before;
      FinishTells(s1, c, ts);
    }
    if i < |front| {
      FirstCandidateCounts(s, front, ts, i);
      var k :| |s.log| <= k < |s1.log| && TellsEnd(s1.log[k], Of(s, cands[i].rid.value), cands[i], ts);
      assert s1.log <= s'.log && s'.log[k] == s1.log[k];
    } else {
      EntryStays(s, front, ts, c.rid.value);
      assert TellsEnd(s'.log[|s1.log|], Of(s, c.rid.value), c, ts);
    }
  }

  lemma {:induction false} FinishesExtend(s: State, cands: seq<Candidate>, ts: int)
    ensures s.log <= AfterFinishes(s, FirstOfEach(cands), ts).log
    decreases |cands|
  {
    if cands == [] {
    } else {
      var front, c := cands[..|cands| - 1], cands[|cands| - 1];
      assert cands == front + [c];
      FinishesExtend(s, front, ts);
      FinishesGrow(s, front, c, ts);
      if c.rid.Some? {
        FinishTells(AfterFinishes(s, FirstOfEach(front), ts), c, ts);
      }
    }
  }

  /** Finishing others leaves an id's entry alone. */
  lemma {:induction false} EntryStays(s: State, cands: seq<Candidate>, ts: int, rid: RequestId)
    requires !Names(cands, rid)
    ensures Of(AfterFinishes(s, FirstOfEach(cands), ts), rid) == Of(s, rid)
    decreases |cands|
  {
    if cands == [] {
    } else {
      var front, c := cands[..|cands| - 1], cands[|cands| - 1];
      assert cands == front + [c];
      NamesAppend(front, c);
      EntryStays(s, front, ts, rid);
      FinishesGrow(s, front, c, ts);
      hide AfterFinishes, FirstOfEach, Names;
    }
  }

  /** One more candidate: finished, unless it has no id or one that is named already. */
  lemma FinishesGrow(s: State, cands: seq<Candidate>, c: Candidate, ts: int)
    ensures var before, s1 := FirstOfEach(cands), AfterFinishes(s, FirstOfEach(cands), ts);
      AfterFinishes(s, FirstOfEach(cands + [c]), ts) ==
        if c.rid.None? || Names(before, c.rid.value) then s1
        else Next(s1, Finished(c.rid.value, ts, c.aborted, c.told))
  {
    var before := FirstOfEach(cands);
    assert (cands + [c])[..|cands|] == cands && (before + [c])[..|before|] == before;
  }

  // --------------------------------------------------------------------- replay

  /**
   The running set after replaying admit and preempt records; with `ends`, terminal
   records as well.
   */
  function Replay(running: Ids, ends: bool, log: seq<Record>): Ids {
    if log == [] then running
    else Replayed(Replay(running, ends, log[..|log| - 1]), ends, log[|log| - 1])
  }

  /** ... after one more record. */
  function Replayed(before: Ids, ends: bool, r: Record): Ids {
    if r.kind != Some(Request) || r.request.None? then before
    else if r.subtype == Some(Admit) then before + {r.request.value}
    else if r.subtype == Some(Preempt) || (ends && IsTerminal(r.subtype)) then before - {r.request.value}
    else before
  }

  lemma ReplayAppend(running: Ids, ends: bool, log: seq<Record>, r: Record)
    ensures Replay(running, ends, log + [r]) == Replayed(Replay(running, ends, log), ends, r)
  {
  }

  lemma ElementsAppend(ids: seq<RequestId>)
    requires ids != []
    ensures Elements(ids) == Elements(ids[..|ids| - 1]) + {ids[|ids| - 1]}
  {
    assert ids == ids[..|ids| - 1] + [ids[|ids| - 1]];
  }

  lemma {:induction false} AdmitsReplay(running: Ids, ends: bool, s: State, ids: seq<RequestId>, ts: int)
    ensures Replay(running, ends, AfterAdmits(s, ids, ts).log) == Replay(running, ends, s.log) + Elements(ids)
    decreases |ids|
  {
    if ids == [] {
      assert Elements(ids) == {};
    } else {
      var front, last := ids[..|ids| - 1], ids[|ids| - 1];
      var s' := AfterAdmits(s, front, ts);
      AdmitsReplay(running, ends, s, front, ts);
      var log := Next(s', Admitted(last, ts)).log;
      ReplayAppend(running, ends, s'.log, log[|s'.log|]);
      hide Replay;
      ElementsAppend(ids);
    }
  }

  lemma MoveReplays(running: Ids, ends: bool, s: State, rid: RequestId, ts: int, resumed: bool)
    ensures Replay(running, ends, Next(s, Moved(rid, ts, resumed)).log) ==
            if resumed then Replay(running, ends, s.log) else Replay(running, ends, s.log) - {rid}
  {
    hide Replay;
    var r := RequestRecord(if resumed then Resume else Preempt, rid, ts, Plain);
    assert Next(s, Moved(rid, ts, resumed)).log == s.log + [r];
    ReplayAppend(running, ends, s.log, r);
  }

  lemma {:induction false} MovesReplay(running: Ids, ends: bool, s: State, ids: seq<RequestId>, ts: int, resumed: bool)
    ensures Replay(running, ends, AfterMoves(s, ids, ts, resumed).log) ==
            if resumed then Replay(running, ends, s.log) else Replay(running, ends, s.log) - Elements(ids)
    decreases |ids|
  {
    if ids == [] {
      assert Elements(ids) == {};
    } else {
      var front, last := ids[..|ids| - 1], ids[|ids| - 1];
      var s' := AfterMoves(s, front, ts, resumed);
      MovesReplay(running, ends, s, front, ts, resumed);
      MoveReplays(running, ends, s', last, ts, resumed);
      hide Replay;
      ElementsAppend(ids);
    }
  }

  lemma DecidedReplays(running: Ids, ends: bool, s: State, ts: int)
    ensures Replay(running, ends, Next(s, Decided(ts)).log) == Replay(running, ends, s.log)
  {
    ReplayAppend(running, ends, s.log, Bare(Metadata, SchedulerDecision, ts));
  }

  /** One call's records replay to the running set with its admits added and its preempts removed. */
  lemma BatchReplays(running: Ids, ends: bool, s: State, b: Batch,
                     admitted: seq<RequestId>, preempted: seq<RequestId>)
    ensures Replay(running, ends, AfterBatch(s, b, admitted, preempted).log) ==
            Replay(running, ends, s.log) + Elements(admitted) - Elements(preempted)
  {
    var s1 := AfterAdmits(s, admitted, b.ts);
    var s2 := AfterMoves(s1, preempted, b.ts, false);
    var s3 := AfterMoves(s2, b.resumed, b.ts, true);
    AdmitsReplay(running, ends, s, admitted, b.ts);
    MovesReplay(running, ends, s1, preempted, b.ts, false);
    MovesReplay(running, ends, s2, b.resumed, b.ts, true);
    DecidedReplays(running, ends, s3, b.ts);
  }

  /**
   The ids used are right: everything running after the call ran before or is
   admitted, nothing preempted runs, and everything that stopped is preempted.
   */
  predicate Accurate(b: Batch, admitted: seq<RequestId>, preempted: seq<RequestId>) {
    && b.after <= b.before + Elements(admitted)
    && Elements(preempted) !! b.after
    && b.before + Elements(admitted) - b.after <= Elements(preempted)
  }

  lemma SetFacts(all: Ids, gone: Ids, left: Ids)
    ensures all - gone == left <==> left <= all && gone !! left && all - left <= gone
  {
  }

  /** A call's records replay to the running set after it exactly when the ids it used are right. */
  lemma BatchReplaysExactly(running: Ids, ends: bool, s: State, b: Batch,
                            admitted: seq<RequestId>, preempted: seq<RequestId>)
    requires Replay(running, ends, s.log) == b.before
    ensures Replay(running, ends, AfterBatch(s, b, admitted, preempted).log) == b.after <==>
            Accurate(b, admitted, preempted)
  {
    BatchReplays(running, ends, s, b, admitted, preempted);
    var a, p := Elements(admitted), Elements(preempted);
    SetFacts(b.before + a, p, b.after);
  }

  /**
   Preemptions found by comparison are right exactly when the admitted ids all run
   afterwards and include every newly running one; admissions found by comparison
   always do.
   */
  lemma ComparedIdsAreRight(b: Batch, admitted: seq<RequestId>, preempted: seq<RequestId>)
    requires b.preempted == [] && IsAdmitted(b, admitted) && IsPreempted(b, admitted, preempted)
    ensures Accurate(b, admitted, preempted) <==>
            Elements(admitted) <= b.after && b.after - b.before <= Elements(admitted)
    ensures b.admitted == [] ==> Accurate(b, admitted, preempted)
  {
    var a := Elements(admitted);
    assert Elements(preempted) == b.before - b.after - a;
    if Accurate(b, admitted, preempted) {
      forall id | id in a
        ensures id in b.after
      {
        assert id !in Elements(preempted);
      }
    }
  }

  // ------------------------------------------------------------- whole logs

  /** A scheduler call, and what the other probes did before it. */
  datatype Leg = Leg(quiet: seq<Action>, batch: Batch)

  /** The other probes' actions, arrivals, tokens, finishes and aborts, in any number and order. */
  predicate Quiet(run: seq<Action>) {
    forall i :: 0 <= i < |run| ==> !run[i].Admitted? && !(run[i].Moved? && !run[i].resumed)
  }

  /** The running set after a quiet run: the same or, with `ends`, without what has ended. */
  function Left(running: Ids, ends: bool, run: seq<Action>): Ids
    decreases |run|
  {
    if run == [] then running else Left(LeftBy(running, ends, run[0]), ends, run[1..])
  }

  function LeftBy(running: Ids, ends: bool, a: Action): Ids {
    if ends && (a.Finished? || a.Aborted?) then running - {a.rid} else running
  }

  /** A request is left if it ran and the run does not finish or abort it. */
  lemma {:induction false} LeftAreExactly(running: Ids, ends: bool, run: seq<Action>, rid: RequestId)
    ensures rid in Left(running, ends, run) <==> rid in running && (ends ==> NeverPops(run, rid))
    decreases |run|
  {
    if run == [] {
    } else {
      LeftAreExactly(LeftBy(running, ends, run[0]), ends, run[1..], rid);
    }
  }

  lemma QuietStep(running: Ids, ends: bool, s: State, a: Action)
    requires Enabled(s, a) && !a.Admitted? && !(a.Moved? && !a.resumed)
    ensures Replay(running, ends, Next(s, a).log) == LeftBy(Replay(running, ends, s.log), ends, a)
  {
    var before, log := Replay(running, ends, s.log), Next(s, a).log;
    LogGrows(s, a);
    QuietRecord(before, ends, s, a);
    if |log| > |s.log| {
      ReplayAppend(running, ends, s.log, log[|s.log|]);
    }
  }

  /** A quiet action's record takes out the request that it ends and no other. */
  lemma QuietRecord(before: Ids, ends: bool, s: State, a: Action)
    requires Enabled(s, a) && !a.Admitted? && !(a.Moved? && !a.resumed)
    ensures var s' := Next(s, a);
      if |s'.log| > |s.log| then Replayed(before, ends, s'.log[|s.log|]) == LeftBy(before, ends, a)
      else !a.Finished? && !a.Aborted?
  {
  }

  lemma {:induction false} QuietReplays(running: Ids, ends: bool, s: State, run: seq<Action>)
    requires IsRun(s, run) && Quiet(run)
    ensures Replay(running, ends, Final(s, run).log) == Left(Replay(running, ends, s.log), ends, run)
    decreases |run|
  {
    if run == [] {
    } else {
      var s' := Next(s, run[0]);
      assert Final(s, run) == Final(s', run[1..]);
      hide Replay;
      hide Next;
      QuietStep(running, ends, s, run[0]);
      QuietReplays(running, ends, s', run[1..]);
    }
  }

  /** The state after a call: quiet actions, then the records of the ids it used, which were right. */
  ghost predicate LegReaches(s: State, leg: Leg, s': State) {
    && IsRun(s, leg.quiet) && Quiet(leg.quiet)
    && exists admitted, preempted ::
         && IsAdmitted(leg.batch, admitted) && IsPreempted(leg.batch, admitted, preempted)
         && Accurate(leg.batch, admitted, preempted)
         && s' == AfterBatch(Final(s, leg.quiet), leg.batch, admitted, preempted)
  }

  /** The running set when the last of the calls has returned. */
  function RunningAfter(running: Ids, legs: seq<Leg>): Ids {
    if legs == [] then running else legs[|legs| - 1].batch.after
  }

  /** Between calls the running set stays, or, with `ends`, loses exactly what finishes or is aborted. */
  ghost predicate Reaches(running: Ids, ends: bool, s: State, legs: seq<Leg>, s': State)
    decreases |legs|
  {
    if legs == [] then s' == s
    else
      var front, last := legs[..|legs| - 1], legs[|legs| - 1];
      && last.batch.before == Left(RunningAfter(running, front), ends, last.quiet)
      && exists mid :: Reaches(running, ends, s, front, mid) && LegReaches(mid, last, s')
  }

  /**
   Scheduler log replay: replaying the whole log from the initial set, whatever the
   other probes record before, between and after the calls, rebuilds the running set
   after every call.  Without `ends` the set changes only inside the calls; with it,
   requests also leave it by ending, and the replay takes them out.
   */
  lemma {:induction false} LogRebuildsRunningSet(running: Ids, ends: bool, s: State, legs: seq<Leg>, s': State,
                                                 after: seq<Action>)
    requires Replay(running, ends, s.log) == running && Reaches(running, ends, s, legs, s')
    requires IsRun(s', after) && Quiet(after)
    ensures Replay(running, ends, Final(s', after).log) == Left(RunningAfter(running, legs), ends, after)
    decreases |legs|
  {
    QuietReplays(running, ends, s', after);
    if legs == [] {
    } else {
      var front, last := legs[..|legs| - 1], legs[|legs| - 1];
      var mid :| Reaches(running, ends, s, front, mid) && LegReaches(mid, last, s');
      LogRebuildsRunningSet(running, ends, s, front, mid, last.quiet);
      var admitted, preempted :|
        && IsAdmitted(last.batch, admitted) && IsPreempted(last.batch, admitted, preempted)
        && Accurate(last.batch, admitted, preempted)
        && s' == AfterBatch(Final(mid, last.quiet), last.batch, admitted, preempted);
      BatchReplaysExactly(running, ends, Final(mid, last.quiet), last.batch, admitted, preempted);
    }
  }

  /** On the comparison path every call is of that kind, whatever ids the wrapper found. */
  lemma ComparisonReaches(s: State, leg: Leg, admitted: seq<RequestId>, preempted: seq<RequestId>)
    requires leg.batch.admitted == [] && leg.batch.preempted == []
    requires IsRun(s, leg.quiet) && Quiet(leg.quiet)
    requires IsAdmitted(leg.batch, admitted) && IsPreempted(leg.batch, admitted, preempted)
    ensures LegReaches(s, leg, AfterBatch(Final(s, leg.quiet), leg.batch, admitted, preempted))
  {
    ComparedIdsAreRight(leg.batch, admitted, preempted);
  }
}
