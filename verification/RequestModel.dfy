/**
 Request state kept online by the scheduler and runner probes: a tracker shared
 by all threads, and the records the probes emit.

 An action is one access to the tracker together with the record it leads to,
 except that an admit's two accesses are one action: between them only the
 arrival stamp on the admit record could change.  A probe reads its stamp before
 it reaches the tracker, so the stamps of a run come in any order.  The log lists
 records in the order of the accesses; how they reach the files, where only the
 records of one thread keep their order, is Pipeline's business.
 */
module RequestModel {
  import opened Records
  import opened Sequences

  /** One request's entry; a key that is not set is None. */
  datatype ReqState = ReqState(
    arrival: Option<int>, firstSchedule: Option<int>, firstToken: Option<int>, outputs: Option<nat>)

  const BLANK := ReqState(None, None, None, None)

  type Tracker = map<RequestId, ReqState>

  datatype State = State(tracker: Tracker, read: map<Thread, nat>, log: seq<Record>)

  datatype Action =
    | Arrive(rid: RequestId, ts: int)
    | Admitted(rid: RequestId, ts: int)
    | Moved(rid: RequestId, ts: int, resumed: bool)                 // preempted or resumed
    | ReadCount(th: Thread, rid: RequestId)                         // the runner reads the output count
    | WriteCount(th: Thread, rid: RequestId, produced: nat)         // ... and stores the sum
    | SawToken(rid: RequestId, ts: int)                             // either first-token hook
    | TokenStep(rid: RequestId, ts: int, prefill: bool)             // a sampled later token
    | Finished(rid: RequestId, ts: int, aborted: bool, told: Option<int>)  // a finish wrapper, told the engine's count
    | Aborted(rid: RequestId, ts: int)                              // the explicit abort wrapper
    | Decided(ts: int)                                              // a scheduler decision

  function Init(): State {
    State(map[], map[], [])
  }

  function Of(s: State, rid: RequestId): ReqState {
    if rid in s.tracker then s.tracker[rid] else BLANK
  }

  function Count(q: ReqState): nat {
    if q.outputs.Some? then q.outputs.value else 0
  }

  predicate IsTrue(x: Option<int>) {
    x.Some? && x.value != 0
  }

  function Ttft(arrival: Option<int>, firstToken: Option<int>): Option<int> {
    if IsTrue(arrival) && IsTrue(firstToken) && firstToken.value >= arrival.value
    then Some(firstToken.value - arrival.value) else None
  }

  function Tpot(firstToken: Option<int>, outputs: int, finish: int): Option<int> {
    if IsTrue(firstToken) && outputs > 1 && finish > firstToken.value
    then Some((finish - firstToken.value) / (outputs - 1)) else None
  }

  function RequestRecord(subtype: Subtype, rid: RequestId, ts: int, detail: Detail): Record {
    Bare(Request, subtype, ts).(request := Some(rid), detail := detail)
  }

  function TokenRecord(subtype: Subtype, rid: RequestId, ts: int): Record {
    Bare(Token, subtype, ts).(request := Some(rid))
  }

  /** The output count of a terminal record: the engine's if it gives one, else the tracker's. */
  function OutputLen(q: ReqState, told: Option<int>): int {
    if told.Some? then told.value else Count(q)
  }

  function TerminalStamps(q: ReqState, told: Option<int>, ts: int): Detail {
    Stamps(q.arrival, q.firstSchedule, q.firstToken, Some(ts),
           Ttft(q.arrival, q.firstToken), Tpot(q.firstToken, OutputLen(q, told), ts), OutputLen(q, told))
  }

  predicate Enabled(s: State, a: Action) {
    a.WriteCount? ==> a.th in s.read
  }

  function Log(s: State, r: Record): State {
    s.(log := s.log + [r])
  }

  function Next(s: State, a: Action): State
    requires Enabled(s, a)
  {
    match a
    case Arrive(rid, ts) =>
      Log(s.(tracker := s.tracker[rid := Of(s, rid).(arrival := Some(ts))]),
          RequestRecord(Arrival, rid, ts, Stamps(Some(ts), None, None, None, None, None, 0)))
    case Admitted(rid, ts) =>
      var q := Of(s, rid);
      var q' := if q.firstSchedule.None? then q.(firstSchedule := Some(ts)) else q;
      Log(s.(tracker := s.tracker[rid := q']),
          RequestRecord(Admit, rid, ts, Stamps(q.arrival, Some(ts), None, None, None, None, 0)))
    case Moved(rid, ts, resumed) => Log(s, RequestRecord(if resumed then Resume else Preempt, rid, ts, Plain))
    case ReadCount(th, rid) => s.(read := s.read[th := Count(Of(s, rid))])
    case WriteCount(th, rid, produced) =>
      s.(tracker := s.tracker[rid := Of(s, rid).(outputs := Some(s.read[th] + produced))])
    case SawToken(rid, ts) =>
      var q := Of(s, rid);
      if q.firstToken.Some? then s.(tracker := s.tracker[rid := q])
      else Log(s.(tracker := s.tracker[rid := q.(firstToken := Some(ts))]), TokenRecord(FirstToken, rid, ts))
    case TokenStep(rid, ts, prefill) => Log(s, TokenRecord(if prefill then PrefillChunk else Decode, rid, ts))
    case Finished(rid, ts, aborted, told) =>
      Log(s.(tracker := s.tracker - {rid}),
          RequestRecord(if aborted then Abort else Finish, rid, ts, TerminalStamps(Of(s, rid), told, ts)))
    case Aborted(rid, ts) =>
      Log(s.(tracker := s.tracker - {rid}),
          RequestRecord(Abort, rid, ts, Stamps(Of(s, rid).arrival, None, None, Some(ts), None, None, 0)))
    case Decided(ts) => Log(s, Bare(Metadata, SchedulerDecision, ts))
  }

  ghost predicate IsRun(s: State, run: seq<Action>)
    decreases |run|
  {
    run == [] || (Enabled(s, run[0]) && IsRun(Next(s, run[0]), run[1..]))
  }

  ghost function Final(s: State, run: seq<Action>): State
    requires IsRun(s, run)
    decreases |run|
  {
    if run == [] then s else Final(Next(s, run[0]), run[1..])
  }

  lemma {:induction false} RunsCompose(s: State, a: seq<Action>, b: seq<Action>)
    requires IsRun(s, a) && IsRun(Final(s, a), b)
    ensures IsRun(s, a + b) && Final(s, a + b) == Final(Final(s, a), b)
    decreases |a|
  {
    if a == [] {
      assert a + b == b;
    } else {
      assert (a + b)[1..] == a[1..] + b;
      RunsCompose(Next(s, a[0]), a[1..], b);
    }
  }

  lemma RunOfOne(s: State, a: Action)
    requires Enabled(s, a)
    ensures IsRun(s, [a]) && Final(s, [a]) == Next(s, a)
  {
  }

  // ------------------------------------------------------ first-token uniqueness

  predicate Pops(a: Action, rid: RequestId) {
    (a.Finished? || a.Aborted?) && a.rid == rid
  }

  function FirstTokens(log: seq<Record>, rid: RequestId): nat {
    if log == [] then 0
    else FirstTokens(log[..|log| - 1], rid) +
         (if log[|log| - 1].subtype == Some(FirstToken) && log[|log| - 1].request == Some(rid) then 1 else 0)
  }

  lemma FirstTokensAppend(log: seq<Record>, r: Record, rid: RequestId)
    ensures FirstTokens(log + [r], rid) ==
            FirstTokens(log, rid) + (if r.subtype == Some(FirstToken) && r.request == Some(rid) then 1 else 0)
  {
  }

  function Flagged(s: State, rid: RequestId): nat {
    if Of(s, rid).firstToken.Some? then 1 else 0
  }

  predicate NeverPops(run: seq<Action>, rid: RequestId)
    decreases |run|
  {
    run == [] || (!Pops(run[0], rid) && NeverPops(run[1..], rid))
  }

  lemma LogGrows(s: State, a: Action)
    requires Enabled(s, a)
    ensures var s' := Next(s, a);
      && (s'.log == s.log || (|s'.log| == |s.log| + 1 && s'.log == s.log + [s'.log[|s.log|]]))
      && forall r :: r in s'.log <==> r in s.log || (|s'.log| > |s.log| && r == s'.log[|s.log|])
  {
  }

  /** The flag is gained exactly by the hook that finds it unset, and that is who emits a record. */
  lemma FlagMoves(s: State, a: Action, rid: RequestId)
    requires Enabled(s, a) && !Pops(a, rid)
    ensures var s', gains := Next(s, a), a.SawToken? && a.rid == rid && Of(s, rid).firstToken.None?;
      && Flagged(s', rid) == Flagged(s, rid) + (if gains then 1 else 0)
      && (gains ==> |s'.log| > |s.log|)
      && (|s'.log| > |s.log| ==>
            var r := s'.log[|s.log|];
            (r.subtype == Some(FirstToken) && r.request == Some(rid) <==> gains))
  {
  }

  lemma StepFlags(s: State, a: Action, rid: RequestId)
    requires Enabled(s, a) && !Pops(a, rid)
    ensures FirstTokens(Next(s, a).log, rid) - FirstTokens(s.log, rid) == Flagged(Next(s, a), rid) - Flagged(s, rid)
  {
    LogGrows(s, a);
    FlagMoves(s, a, rid);
    if |Next(s, a).log| > |s.log| {
      FirstTokensAppend(s.log, Next(s, a).log[|s.log|], rid);
    }
  }

  /**
   However the hooks interleave, while a request is not popped the first_token
   records emitted for it are exactly what its tracker flag gained: at most one.
   */
  lemma {:induction false} FirstTokenOnce(s: State, run: seq<Action>, rid: RequestId)
    requires IsRun(s, run)
    requires NeverPops(run, rid)
    ensures FirstTokens(Final(s, run).log, rid) - FirstTokens(s.log, rid) ==
        Flagged(Final(s, run), rid) - Flagged(s, rid)
    decreases |run|
  {
    if run == [] {
    } else {
      var s' := Next(s, run[0]);
      StepFlags(s, run[0], rid);
      FirstTokenOnce(s', run[1..], rid);
      assert Final(s, run) == Final(s', run[1..]);
    }
  }

  // ---------------------------------------------------------------- token count

  function Produced(run: seq<Action>, rid: RequestId): nat
    decreases |run|
  {
    if run == [] then 0
    else (if run[0].WriteCount? && run[0].rid == rid then run[0].produced else 0) + Produced(run[1..], rid)
  }

  /**
   Each write of the request follows its own thread's latest read, and that read
   was of the request; `readers` are the threads whose latest read was.
   */
  predicate Paired(run: seq<Action>, rid: RequestId, readers: set<Thread>)
    decreases |run|
  {
    if run == [] then true
    else
      match run[0]
      case ReadCount(th, r) => Paired(run[1..], rid, if r == rid then readers + {th} else readers - {th})
      case WriteCount(th, r, _) => (r == rid ==> th in readers) && Paired(run[1..], rid, readers)
      case _ => !Pops(run[0], rid) && Paired(run[1..], rid, readers)
  }

  /**
   No write of the request falls between a write of it and the read that one is
   based on; `standing` are the threads whose latest read still stands.
   */
  predicate Undisturbed(run: seq<Action>, rid: RequestId, standing: set<Thread>)
    decreases |run|
  {
    if run == [] then true
    else
      match run[0]
      case ReadCount(th, r) => Undisturbed(run[1..], rid, if r == rid then standing + {th} else standing - {th})
      case WriteCount(th, r, _) =>
        if r == rid then th in standing && Undisturbed(run[1..], rid, {}) else Undisturbed(run[1..], rid, standing)
      case _ => Undisturbed(run[1..], rid, standing)
  }

  /** A read of the request misses what the count misses; a read of another one ends the thread's claim. */
  function Reading(missing: map<Thread, nat>, th: Thread, mine: bool, now: nat): (r: map<Thread, nat>)
    ensures r.Keys == if mine then missing.Keys + {th} else missing.Keys - {th}
  {
    if mine then missing[th := now] else missing - {th}
  }

  function Later(missing: map<Thread, nat>, produced: nat): (r: map<Thread, nat>)
    ensures r.Keys == missing.Keys
  {
    map th | th in missing :: missing[th] + produced
  }

  /**
   The tokens missing from the count after the run: a write misses what its read
   missed and what was written since.  `now` are those missing from the count at
   the start, `missing` those that a write by each reader would miss.
   */
  function Lost(run: seq<Action>, rid: RequestId, now: nat, missing: map<Thread, nat>): nat
    requires Paired(run, rid, missing.Keys)
    decreases |run|
  {
    if run == [] then now
    else
      match run[0]
      case ReadCount(th, r) => Lost(run[1..], rid, now, Reading(missing, th, r == rid, now))
      case WriteCount(th, r, produced) =>
        if r == rid then Lost(run[1..], rid, missing[th], Later(missing, produced))
        else Lost(run[1..], rid, now, missing)
      case _ => Lost(run[1..], rid, now, missing)
  }

  lemma StepCounts(s: State, a: Action, rid: RequestId)
    requires Enabled(s, a) && !Pops(a, rid)
    ensures Count(Of(Next(s, a), rid)) ==
            if a.WriteCount? && a.rid == rid then s.read[a.th] + a.produced else Count(Of(s, rid))
    ensures a.ReadCount? ==> Next(s, a).read == s.read[a.th := Count(Of(s, a.rid))]
    ensures !a.ReadCount? ==> Next(s, a).read == s.read
  {
  }

  /** However the steps interleave, the count falls short of the tokens produced by exactly those lost. */
  lemma {:induction false} CountFallsShort(s: State, run: seq<Action>, rid: RequestId,
                                           now: nat, missing: map<Thread, nat>)
    requires IsRun(s, run) && Paired(run, rid, missing.Keys)
    requires forall th :: th in missing ==> th in s.read && s.read[th] + missing[th] == Count(Of(s, rid)) + now
    ensures Count(Of(Final(s, run), rid)) + Lost(run, rid, now, missing) == Count(Of(s, rid)) + now + Produced(run, rid)
    decreases |run|
  {
    if run == [] {
    } else {
      var s' := Next(s, run[0]);
      assert !Pops(run[0], rid);
      StepCounts(s, run[0], rid);
      match run[0]
      case ReadCount(th, r) => CountFallsShort(s', run[1..], rid, now, Reading(missing, th, r == rid, now));
      case WriteCount(th, r, produced) =>
        if r == rid {
          CountFallsShort(s', run[1..], rid, missing[th], Later(missing, produced));
        } else {
          CountFallsShort(s', run[1..], rid, now, missing);
        }
      case _ => CountFallsShort(s', run[1..], rid, now, missing);
    }
  }

  /** What a thread's next write would miss, if its latest read still stands: nothing. */
  predicate StandsFor(standing: set<Thread>, missing: map<Thread, nat>) {
    forall th :: th in standing ==> th in missing && missing[th] == 0
  }

  lemma {:induction false} UndisturbedLosesNothing(run: seq<Action>, rid: RequestId, missing: map<Thread, nat>,
                                                   standing: set<Thread>)
    requires Paired(run, rid, missing.Keys) && Undisturbed(run, rid, standing) && StandsFor(standing, missing)
    ensures Lost(run, rid, 0, missing) == 0
    decreases |run|
  {
    if run == [] {
    } else {
      match run[0]
      case ReadCount(th, r) =>
        UndisturbedLosesNothing(run[1..], rid, Reading(missing, th, r == rid, 0),
                                if r == rid then standing + {th} else standing - {th});
      case WriteCount(th, r, produced) =>
        if r == rid {
          UndisturbedLosesNothing(run[1..], rid, Later(missing, produced), {});
        } else {
          UndisturbedLosesNothing(run[1..], rid, missing, standing);
        }
      case _ => UndisturbedLosesNothing(run[1..], rid, missing, standing);
    }
  }

  /** Each step that counts tokens for the request produced at least one. */
  predicate Productive(run: seq<Action>, rid: RequestId)
    decreases |run|
  {
    run == [] || ((run[0].WriteCount? && run[0].rid == rid ==> run[0].produced > 0) && Productive(run[1..], rid))
  }

  /** Once behind, always behind: a disturbed write loses tokens for good. */
  lemma {:induction false} DisturbedLoses(run: seq<Action>, rid: RequestId, now: nat, missing: map<Thread, nat>,
                                          standing: set<Thread>)
    requires Paired(run, rid, missing.Keys) && Productive(run, rid)
    requires forall th :: th in missing && th !in standing ==> missing[th] > 0
    requires if now > 0 then standing == {} else !Undisturbed(run, rid, standing)
    ensures Lost(run, rid, now, missing) > 0
    decreases |run|
  {
    if run == [] {
    } else {
      var standing' := if now > 0 then {} else standing;
      match run[0]
      case ReadCount(th, r) =>
        DisturbedLoses(run[1..], rid, now, Reading(missing, th, r == rid, now),
                       if now > 0 then {} else if r == rid then standing + {th} else standing - {th});
      case WriteCount(th, r, produced) =>
        if r == rid {
          DisturbedLoses(run[1..], rid, missing[th], Later(missing, produced), {});
        } else {
          DisturbedLoses(run[1..], rid, now, missing, standing');
        }
      case _ => DisturbedLoses(run[1..], rid, now, missing, standing');
    }
  }

  /** The count is the sum of the tokens produced if no write falls between a write and its read. */
  lemma CountIsSum(s: State, run: seq<Action>, rid: RequestId)
    requires IsRun(s, run) && Paired(run, rid, {}) && Undisturbed(run, rid, {})
    ensures Count(Of(Final(s, run), rid)) == Count(Of(s, rid)) + Produced(run, rid)
  {
    var none: map<Thread, nat> := map[];
    assert none.Keys == {};
    CountFallsShort(s, run, rid, 0, none);
    UndisturbedLosesNothing(run, rid, none, {});
  }

  /** ... and, where every counted step produced a token, only then. */
  lemma CountIsSumExactly(s: State, run: seq<Action>, rid: RequestId)
    requires IsRun(s, run) && Paired(run, rid, {}) && Productive(run, rid)
    ensures Count(Of(Final(s, run), rid)) == Count(Of(s, rid)) + Produced(run, rid) <==> Undisturbed(run, rid, {})
  {
    var none: map<Thread, nat> := map[];
    assert none.Keys == {};
    CountFallsShort(s, run, rid, 0, none);
    if Undisturbed(run, rid, {}) {
      UndisturbedLosesNothing(run, rid, none, {});
    } else {
      DisturbedLoses(run, rid, 0, none, {});
    }
  }

  /** With two steps of the same request at once, one thread's tokens are lost. */
  lemma ConcurrentStepsLoseTokens(s: State, rid: RequestId, first: nat, second: nat)
    requires first > 0
    ensures var run := [ReadCount(0, rid), ReadCount(1, rid), WriteCount(0, rid, first), WriteCount(1, rid, second)];
      IsRun(s, run) && Count(Of(Final(s, run), rid)) + first == Count(Of(s, rid)) + Produced(run, rid)
  {
    var a, b, c, d := ReadCount(0, rid), ReadCount(1, rid), WriteCount(0, rid, first), WriteCount(1, rid, second);
    var run, more, writes := [a, b, c, d], [b, c, d], [c, d];
    assert run[1..] == more && more[1..] == writes && writes[1..] == [d] && [d][1..] == [];
    var s2 := Next(Next(s, a), b);
    var s4 := Next(Next(s2, c), d);
    RunOfOne(Next(s2, c), d);
    assert Produced([d], rid) == second;
    assert IsRun(s2, writes) && Final(s2, writes) == s4 && Produced(writes, rid) == first + second;
    assert IsRun(Next(s, a), more) && Final(Next(s, a), more) == s4 && Produced(more, rid) == first + second;
  }

  // ------------------------------------------------------------------- latency

  /**
   A record has a time to the first token exactly if both stamps are set and in order,
   and it is their difference; it has a per-token time exactly if a first token is set
   and more than one token came before a later finish, and it brackets the decode time.
   */
  ghost predicate LatencyFits(r: Record) {
    r.detail.Stamps? ==>
      var d, n := r.detail, r.detail.outputLen - 1;
      && (d.ttft.Some? <==> IsTrue(d.arrival) && IsTrue(d.firstToken) && d.arrival.value <= d.firstToken.value)
      && (d.ttft.Some? ==> d.arrival.value + d.ttft.value == d.firstToken.value)
      && (d.tpot.Some? <==> IsTrue(d.firstToken) && d.finish.Some? && n >= 1 && d.firstToken.value < d.finish.value)
      && (d.tpot.Some? ==>
            d.tpot.value * n <= d.finish.value - d.firstToken.value < (d.tpot.value + 1) * n)
      && (d.tpot.Some? && d.ttft.Some? ==> d.arrival.value + d.ttft.value + d.tpot.value * n <= d.finish.value)
  }

  lemma TerminalLatencyFits(q: ReqState, told: Option<int>, rid: RequestId, ts: int, subtype: Subtype)
    ensures LatencyFits(RequestRecord(subtype, rid, ts, TerminalStamps(q, told, ts)))
  {
  }

  /** Every record of every run. */
  lemma {:induction false} LatencyFitsThroughout(s: State, run: seq<Action>)
    requires IsRun(s, run) && forall r :: r in s.log ==> LatencyFits(r)
    ensures forall r :: r in Final(s, run).log ==> LatencyFits(r)
    decreases |run|
  {
    if run == [] {
    } else {
      var s' := Next(s, run[0]);
      if run[0].Finished? {
        TerminalLatencyFits(Of(s, run[0].rid), run[0].told, run[0].rid, run[0].ts,
            if run[0].aborted then Abort else Finish);
      }
      assert forall r :: r in s'.log ==> r in s.log || r == s'.log[|s'.log| - 1];
      LatencyFitsThroughout(s', run[1..]);
    }
  }

  /** The explicit abort's record: when the request arrived, if that is known, and when it was aborted. */
  lemma AbortTells(s: State, rid: RequestId, ts: int)
    ensures var log := Next(s, Aborted(rid, ts)).log;
      && s.log <= log && |log| == |s.log| + 1
      && var r := log[|s.log|];
      && r.kind == Some(Request) && r.subtype == Some(Abort) && r.request == Some(rid) && r.ts == Some(ts)
      && r.detail.Stamps? && r.detail.arrival == Of(s, rid).arrival && r.detail.finish == Some(ts)
      && r.detail.firstToken == None
  {
  }

  // ------------------------------------------------------- the wrappers' loops

  /** One token batch of the runner: the request, its tokens, and whether a later token is sampled. */
  datatype Output = Output(rid: RequestId, produced: nat, prefill: bool, sampled: bool)

  function AfterAdmits(s: State, rids: seq<RequestId>, ts: int): State {
    if rids == [] then s
    else Next(AfterAdmits(s, rids[..|rids| - 1], ts), Admitted(rids[|rids| - 1], ts))
  }

  function AfterMoves(s: State, rids: seq<RequestId>, ts: int, resumed: bool): State {
    if rids == [] then s
    else Next(AfterMoves(s, rids[..|rids| - 1], ts, resumed), Moved(rids[|rids| - 1], ts, resumed))
  }

  /** A scheduler call: admits, preempts, resumes and the decision, in that order. */
  function AfterSchedule(s: State, admitted: seq<RequestId>, preempted: seq<RequestId>, resumed: seq<RequestId>,
                         ts: int): State {
    var moved := AfterMoves(AfterAdmits(s, admitted, ts), preempted, ts, false);
    Next(AfterMoves(moved, resumed, ts, true), Decided(ts))
  }

  /** One pass of the runner's loop over its outputs. */
  function AfterOutput(s: State, th: Thread, out: Output, ts: int): State {
    var counted := Next(Next(s, ReadCount(th, out.rid)), WriteCount(th, out.rid, out.produced));
    var seen := Next(counted, SawToken(out.rid, ts));
    if Of(counted, out.rid).firstToken.None? || !out.sampled then seen
    else Next(seen, TokenStep(out.rid, ts, out.prefill))
  }

  function AfterOutputs(s: State, th: Thread, outs: seq<Output>, ts: int): State {
    if outs == [] then s
    else AfterOutput(AfterOutputs(s, th, outs[..|outs| - 1], ts), th, outs[|outs| - 1], ts)
  }

  lemma OutputsNext(s: State, th: Thread, outs: seq<Output>, ts: int, i: nat)
    requires i < |outs|
    ensures AfterOutputs(s, th, outs[..i + 1], ts) == AfterOutput(AfterOutputs(s, th, outs[..i], ts), th, outs[i], ts)
  {
    assert outs[..i + 1][..i] == outs[..i];
  }

  function AfterHooks(s: State, rids: seq<RequestId>, ts: int): State {
    if rids == [] then s
    else Next(AfterHooks(s, rids[..|rids| - 1], ts), SawToken(rids[|rids| - 1], ts))
  }

  /** New requests, and cached ones that were neither running nor listed already. */
  function AdmittedIds(newly: seq<RequestId>, cached: seq<RequestId>, running: set<RequestId>): seq<RequestId> {
    if cached == [] then newly
    else
      var before, rid := AdmittedIds(newly, cached[..|cached| - 1], running), cached[|cached| - 1];
      if rid in running || rid in before then before else before + [rid]
  }

  /** Listed resumes, and those found by comparing the running sets. */
  function ResumedIds(listed: seq<RequestId>, found: seq<RequestId>): seq<RequestId> {
    if found == [] then listed
    else
      var before, rid := ResumedIds(listed, found[..|found| - 1]), found[|found| - 1];
      if rid in before then before else before + [rid]
  }

  ghost predicate NoRepeats(rids: seq<RequestId>) {
    forall i, j :: 0 <= i < j < |rids| ==> rids[i] != rids[j]
  }

  /** Each new request and each cached one that was not running is admitted, and none of them twice. */
  lemma {:induction false} AdmittedAreExactly(newly: seq<RequestId>, cached: seq<RequestId>, running: set<RequestId>)
    ensures var ids := AdmittedIds(newly, cached, running);
      && (forall rid :: rid in ids <==> rid in newly || (rid in cached && rid !in running))
      && (NoRepeats(newly) ==> NoRepeats(ids))
      && newly <= ids
    decreases |cached|
  {
    if cached == [] {
    } else {
      var front, last := cached[..|cached| - 1], cached[|cached| - 1];
      AdmittedAreExactly(newly, front, running);
      assert cached == front + [last];
    }
  }

  /** Some of the other's ids, in the other's order. */
  predicate IsWithin(ids: seq<RequestId>, all: seq<RequestId>) {
    if ids == [] then true
    else if all == [] then false
    else if ids[|ids| - 1] == all[|all| - 1] then IsWithin(ids[..|ids| - 1], all[..|all| - 1])
    else IsWithin(ids, all[..|all| - 1])
  }

  /** Admitted cached ids keep the order in which they are listed, after the new ones. */
  lemma {:induction false} AdmittedInOrder(newly: seq<RequestId>, cached: seq<RequestId>, running: set<RequestId>)
    returns (added: seq<RequestId>)
    ensures AdmittedIds(newly, cached, running) == newly + added && IsWithin(added, cached)
    decreases |cached|
  {
    added := [];
    if cached == [] {
    } else {
      var front, last := cached[..|cached| - 1], cached[|cached| - 1];
      added := AdmittedInOrder(newly, front, running);
      if last in running || last in AdmittedIds(newly, front, running) {
        WithinLonger(added, front, last);
      } else {
        assert (added + [last])[..|added|] == added;
        added := added + [last];
      }
      assert cached == front + [last];
    }
  }

  lemma {:induction false} WithinLonger(ids: seq<RequestId>, all: seq<RequestId>, more: RequestId)
    requires IsWithin(ids, all)
    ensures IsWithin(ids, all + [more])
    decreases |all|, 2
  {
    assert (all + [more])[..|all|] == all;
    if ids != [] && ids[|ids| - 1] == more {
      WithinShorter(ids, all);
    }
  }

  lemma {:induction false} WithinShorter(ids: seq<RequestId>, all: seq<RequestId>)
    requires ids != [] && IsWithin(ids, all)
    ensures IsWithin(ids[..|ids| - 1], all)
    decreases |all|, 1
  {
    var front := ids[..|ids| - 1];
    if ids[|ids| - 1] == all[|all| - 1] {
      WithinLonger(front, all[..|all| - 1], all[|all| - 1]);
      assert all == all[..|all| - 1] + [all[|all| - 1]];
    } else {
      WithinShorter(ids, all[..|all| - 1]);
      WithinLonger(front, all[..|all| - 1], all[|all| - 1]);
      assert all == all[..|all| - 1] + [all[|all| - 1]];
    }
  }

  /** Each listed and each found id is resumed, and none of them twice. */
  lemma {:induction false} ResumedAreExactly(listed: seq<RequestId>, found: seq<RequestId>)
    ensures var ids := ResumedIds(listed, found);
      && (forall rid :: rid in ids <==> rid in listed || rid in found)
      && (NoRepeats(listed) ==> NoRepeats(ids))
      && listed <= ids
    decreases |found|
  {
    if found == [] {
    } else {
      var front, last := found[..|found| - 1], found[|found| - 1];
      ResumedAreExactly(listed, front);
      assert found == front + [last];
    }
  }

  // --------------------------------------------------- what the loops record

  /** One request record for each id, in order. */
  predicate Lists(records: seq<Record>, rids: seq<RequestId>, subtype: Subtype, ts: int) {
    |records| == |rids| && forall i :: 0 <= i < |records| ==> IsListed(records[i], rids[i], subtype, ts)
  }

  predicate IsListed(r: Record, rid: RequestId, subtype: Subtype, ts: int) {
    r.kind == Some(Request) && r.subtype == Some(subtype) && r.request == Some(rid) && r.ts == Some(ts)
  }

  /** An admit record has the tracker's arrival and the time of the admission. */
  predicate TellsAdmit(r: Record, q: ReqState, ts: int) {
    r.detail.Stamps? && r.detail.arrival == q.arrival && r.detail.firstSchedule == Some(ts)
  }

  lemma {:induction false} AdmitsList(s: State, rids: seq<RequestId>, ts: int) returns (records: seq<Record>)
    ensures AfterAdmits(s, rids, ts).log == s.log + records && Lists(records, rids, Admit, ts)
    ensures forall i :: 0 <= i < |records| ==> TellsAdmit(records[i], Of(s, rids[i]), ts)
    ensures forall rid: RequestId :: Of(AfterAdmits(s, rids, ts), rid).arrival == Of(s, rid).arrival
    decreases |rids|
  {
    records := [];
    if rids == [] {
      Regroup(s.log, [], []);
    } else {
      var front, last := rids[..|rids| - 1], rids[|rids| - 1];
      var before := AfterAdmits(s, front, ts);
      records := AdmitsList(s, front, ts);
      var r := Next(before, Admitted(last, ts)).log[|before.log|];
      Regroup(s.log, records, [r]);
      records := records + [r];
    }
  }

  lemma {:induction false} MovesList(s: State, rids: seq<RequestId>, ts: int, resumed: bool)
    returns (records: seq<Record>)
    ensures AfterMoves(s, rids, ts, resumed).log == s.log + records
    ensures Lists(records, rids, if resumed then Resume else Preempt, ts)
    decreases |rids|
  {
    records := [];
    if rids == [] {
      Regroup(s.log, [], []);
    } else {
      var front, last := rids[..|rids| - 1], rids[|rids| - 1];
      var before := AfterMoves(s, front, ts, resumed);
      records := MovesList(s, front, ts, resumed);
      var r := Next(before, Moved(last, ts, resumed)).log[|before.log|];
      Regroup(s.log, records, [r]);
      records := records + [r];
    }
  }

  /** After the loop each listed request has a first schedule, its own if it had one; others stay as they were. */
  lemma {:induction false} AdmitsFlag(s: State, rids: seq<RequestId>, ts: int, rid: RequestId)
    ensures var q, q' := Of(s, rid), Of(AfterAdmits(s, rids, ts), rid);
      q' == if rid in rids && q.firstSchedule.None? then q.(firstSchedule := Some(ts)) else q
    decreases |rids|
  {
    if rids == [] {
    } else {
      AdmitsFlag(s, rids[..|rids| - 1], ts, rid);
      assert rids == rids[..|rids| - 1] + [rids[|rids| - 1]];
    }
  }

  /** ... and each request that the output processor hears of has a first token. */
  lemma {:induction false} HooksFlag(s: State, rids: seq<RequestId>, ts: int, rid: RequestId)
    ensures var q, q' := Of(s, rid), Of(AfterHooks(s, rids, ts), rid);
      q' == if rid in rids && q.firstToken.None? then q.(firstToken := Some(ts)) else q
    decreases |rids|
  {
    if rids == [] {
    } else {
      HooksFlag(s, rids[..|rids| - 1], ts, rid);
      assert rids == rids[..|rids| - 1] + [rids[|rids| - 1]];
    }
  }

  /** A scheduler call's records: each admit, each preempt and each resume in its order, then the decision. */
  lemma ScheduleRecords(s: State, admitted: seq<RequestId>, preempted: seq<RequestId>, resumed: seq<RequestId>, ts: int)
    returns (admits: seq<Record>, outs: seq<Record>, ins: seq<Record>, decision: Record)
    ensures AfterSchedule(s, admitted, preempted, resumed, ts).log == s.log + admits + outs + ins + [decision]
    ensures Lists(admits, admitted, Admit, ts) && Lists(outs, preempted, Preempt, ts) && Lists(ins, resumed, Resume, ts)
    ensures forall i :: 0 <= i < |admits| ==> TellsAdmit(admits[i], Of(s, admitted[i]), ts)
    ensures decision.kind == Some(Metadata) && decision.subtype == Some(SchedulerDecision) && decision.ts == Some(ts)
  {
    admits := AdmitsList(s, admitted, ts);
    var s1 := AfterAdmits(s, admitted, ts);
    outs := MovesList(s1, preempted, ts, false);
    var s2 := AfterMoves(s1, preempted, ts, false);
    ins := MovesList(s2, resumed, ts, true);
    decision := Bare(Metadata, SchedulerDecision, ts);
  }

  /**
   One output of the runner is on record as the request's first token, if it has none
   yet, or else, if sampled, as a chunk of its prefill or a decoded token; or not at all.
   */
  lemma OutputRecords(s: State, th: Thread, out: Output, ts: int)
    ensures var log := AfterOutput(s, th, out, ts).log;
      if Of(s, out.rid).firstToken.Some? && !out.sampled then log == s.log
      else
        && s.log <= log && |log| == |s.log| + 1
        && var r := log[|s.log|];
        && r.kind == Some(Token) && r.request == Some(out.rid) && r.ts == Some(ts)
        && r.subtype == Some(if Of(s, out.rid).firstToken.None? then FirstToken
                             else if out.prefill then PrefillChunk else Decode)
  {
  }

  // ------------------------------------------------ the loops as runs of actions

  lemma RunThen(s: State, run: seq<Action>, a: Action)
    requires IsRun(s, run) && Enabled(Final(s, run), a)
    ensures IsRun(s, run + [a]) && Final(s, run + [a]) == Next(Final(s, run), a)
  {
    RunOfOne(Final(s, run), a);
    RunsCompose(s, run, [a]);
  }

  /** The admit loop is a run of admits. */
  lemma {:induction false} AdmitsAreRun(s: State, rids: seq<RequestId>, ts: int) returns (run: seq<Action>)
    ensures IsRun(s, run) && Final(s, run) == AfterAdmits(s, rids, ts)
    ensures forall a :: a in run ==> a.Admitted?
    decreases |rids|
  {
    run := [];
    if rids == [] {
    } else {
      run := AdmitsAreRun(s, rids[..|rids| - 1], ts);
      RunThen(s, run, Admitted(rids[|rids| - 1], ts));
      run := run + [Admitted(rids[|rids| - 1], ts)];
    }
  }

  lemma {:induction false} MovesAreRun(s: State, rids: seq<RequestId>, ts: int, resumed: bool)
    returns (run: seq<Action>)
    ensures IsRun(s, run) && Final(s, run) == AfterMoves(s, rids, ts, resumed)
    ensures forall a :: a in run ==> a.Moved?
    decreases |rids|
  {
    run := [];
    if rids == [] {
    } else {
      run := MovesAreRun(s, rids[..|rids| - 1], ts, resumed);
      RunThen(s, run, Moved(rids[|rids| - 1], ts, resumed));
      run := run + [Moved(rids[|rids| - 1], ts, resumed)];
    }
  }

  /** A whole scheduler call is a run of admits and moves and a decision. */
  lemma ScheduleIsRun(s: State, admitted: seq<RequestId>, preempted: seq<RequestId>, resumed: seq<RequestId>, ts: int)
    returns (run: seq<Action>)
    ensures IsRun(s, run) && Final(s, run) == AfterSchedule(s, admitted, preempted, resumed, ts)
    ensures forall a :: a in run ==> a.Admitted? || a.Moved? || a.Decided?
  {
    var admits := AdmitsAreRun(s, admitted, ts);
    var outs := MovesAreRun(Final(s, admits), preempted, ts, false);
    RunsCompose(s, admits, outs);
    var ins := MovesAreRun(Final(s, admits + outs), resumed, ts, true);
    RunsCompose(s, admits + outs, ins);
    RunThen(s, admits + outs + ins, Decided(ts));
    run := admits + outs + ins + [Decided(ts)];
  }

  lemma {:induction false} HooksAreRun(s: State, rids: seq<RequestId>, ts: int) returns (run: seq<Action>)
    ensures IsRun(s, run) && Final(s, run) == AfterHooks(s, rids, ts)
    ensures forall a :: a in run ==> a.SawToken?
    decreases |rids|
  {
    run := [];
    if rids == [] {
    } else {
      run := HooksAreRun(s, rids[..|rids| - 1], ts);
      RunThen(s, run, SawToken(rids[|rids| - 1], ts));
      run := run + [SawToken(rids[|rids| - 1], ts)];
    }
  }

  function TokensIn(out: Output, rid: RequestId): nat {
    if out.rid == rid then out.produced else 0
  }

  /** The tokens that a step's outputs produce for a request. */
  function TokensFor(outs: seq<Output>, rid: RequestId): nat {
    if outs == [] then 0
    else TokensFor(outs[..|outs| - 1], rid) + TokensIn(outs[|outs| - 1], rid)
  }

  lemma SetsMayGrow(run: seq<Action>, rid: RequestId, readers: set<Thread>, standing: set<Thread>)
    ensures Paired(run, rid, {}) ==> Paired(run, rid, readers)
    ensures Undisturbed(run, rid, {}) ==> Undisturbed(run, rid, standing)
  {
    SetsGrow(run, rid, {}, readers);
    FreshGrows(run, rid, {}, standing);
  }

  lemma {:induction false} SetsGrow(run: seq<Action>, rid: RequestId, a: set<Thread>, b: set<Thread>)
    requires a <= b
    ensures Paired(run, rid, a) ==> Paired(run, rid, b)
    decreases |run|
  {
    if run == [] {
    } else if run[0].ReadCount? && run[0].rid == rid {
      SetsGrow(run[1..], rid, a + {run[0].th}, b + {run[0].th});
    } else if run[0].ReadCount? {
      SetsGrow(run[1..], rid, a - {run[0].th}, b - {run[0].th});
    } else {
      SetsGrow(run[1..], rid, a, b);
    }
  }

  lemma {:induction false} FreshGrows(run: seq<Action>, rid: RequestId, a: set<Thread>, b: set<Thread>)
    requires a <= b
    ensures Undisturbed(run, rid, a) ==> Undisturbed(run, rid, b)
    decreases |run|
  {
    if run == [] {
    } else if run[0].ReadCount? && run[0].rid == rid {
      FreshGrows(run[1..], rid, a + {run[0].th}, b + {run[0].th});
    } else if run[0].ReadCount? {
      FreshGrows(run[1..], rid, a - {run[0].th}, b - {run[0].th});
    } else {
      FreshGrows(run[1..], rid, a, b);
    }
  }

  /** Two runs that each pair and keep their reads do so one after the other. */
  lemma {:induction false} CountsCompose(a: seq<Action>, b: seq<Action>, rid: RequestId, readers: set<Thread>,
                                         standing: set<Thread>)
    requires Paired(a, rid, readers) && Paired(b, rid, {}) && Undisturbed(a, rid, standing) && Undisturbed(b, rid, {})
    ensures Paired(a + b, rid, readers) && Undisturbed(a + b, rid, standing)
    ensures Produced(a + b, rid) == Produced(a, rid) + Produced(b, rid)
    decreases |a|
  {
    if a == [] {
      assert a + b == b;
      SetsMayGrow(b, rid, readers, standing);
    } else {
      assert (a + b)[1..] == a[1..] + b && (a + b)[0] == a[0];
      if a[0].ReadCount? && a[0].rid == rid {
        CountsCompose(a[1..], b, rid, readers + {a[0].th}, standing + {a[0].th});
      } else if a[0].ReadCount? {
        CountsCompose(a[1..], b, rid, readers - {a[0].th}, standing - {a[0].th});
      } else if a[0].WriteCount? && a[0].rid == rid {
        CountsCompose(a[1..], b, rid, readers, {});
      } else {
        CountsCompose(a[1..], b, rid, readers, standing);
      }
    }
  }

  /** The run counts so many tokens for the request, each write based on a read that still stands. */
  ghost predicate CountsTokens(run: seq<Action>, rid: RequestId, tokens: nat) {
    Paired(run, rid, {}) && Undisturbed(run, rid, {}) && Produced(run, rid) == tokens
  }

  predicate CountGrows(s: State, s': State, rid: RequestId, tokens: nat) {
    Count(Of(s', rid)) == Count(Of(s, rid)) + tokens
  }

  /** An action of the runner's loop. */
  predicate OfRunner(a: Action) {
    a.ReadCount? || a.WriteCount? || a.SawToken? || a.TokenStep?
  }

  lemma OutputIsRun(s: State, th: Thread, out: Output, ts: int) returns (run: seq<Action>)
    ensures IsRun(s, run) && Final(s, run) == AfterOutput(s, th, out, ts)
    ensures forall a :: a in run ==> OfRunner(a)
    ensures forall rid: RequestId :: CountsTokens(run, rid, TokensIn(out, rid))
  {
    var read, write, see := ReadCount(th, out.rid), WriteCount(th, out.rid, out.produced), SawToken(out.rid, ts);
    var count, rest := [read] + [write], [see];
    RunOfOne(s, read);
    RunThen(s, [read], write);
    RunThen(s, count, see);
    run := count + rest;
    if Of(Final(s, count), out.rid).firstToken.Some? && out.sampled {
      var more := TokenStep(out.rid, ts, out.prefill);
      RunThen(s, run, more);
      Regroup(count, rest, [more]);
      run, rest := run + [more], rest + [more];
      assert rest[1..] == [more] && rest[1..][1..] == [];
    }
    assert count[1..] == [write] && count[1..][1..] == [];
    forall rid: RequestId
      ensures CountsTokens(run, rid, TokensIn(out, rid))
    {
      CountsCompose(count, rest, rid, {}, {});
    }
  }

  /** A step's outputs add to each request's count exactly the tokens they produce for it. */
  lemma {:induction false} OutputsAreRun(s: State, th: Thread, outs: seq<Output>, ts: int) returns (run: seq<Action>)
    ensures IsRun(s, run) && Final(s, run) == AfterOutputs(s, th, outs, ts)
    ensures forall a :: a in run ==> OfRunner(a)
    ensures forall rid: RequestId :: CountsTokens(run, rid, TokensFor(outs, rid))
    ensures forall rid: RequestId :: CountGrows(s, AfterOutputs(s, th, outs, ts), rid, TokensFor(outs, rid))
    decreases |outs|
  {
    run := [];
    if outs == [] {
    } else {
      var front, last := outs[..|outs| - 1], outs[|outs| - 1];
      var before := OutputsAreRun(s, th, front, ts);
      var more := OutputIsRun(AfterOutputs(s, th, front, ts), th, last, ts);
      RunsCompose(s, before, more);
      run := before + more;
      forall rid: RequestId
        ensures CountsTokens(run, rid, TokensFor(outs, rid))
      {
        assert CountsTokens(before, rid, TokensFor(front, rid));
        assert CountsTokens(more, rid, TokensIn(last, rid));
        CountsCompose(before, more, rid, {}, {});
      }
    }
    forall rid: RequestId
      ensures CountGrows(s, AfterOutputs(s, th, outs, ts), rid, TokensFor(outs, rid))
    {
      assert CountsTokens(run, rid, TokensFor(outs, rid));
      CountIsSum(s, run, rid);
    }
  }

  // --------------------------------------------------- whole calls of the wrappers

  /** One call of a wrapper, with the ids that it found or was given. */
  datatype Call =
    | Inputs(rid: RequestId, ts: int)
    | Scheduled(admitted: seq<RequestId>, preempted: seq<RequestId>, resumed: seq<RequestId>, ts: int)
    | Executed(th: Thread, outs: seq<Output>, ts: int)
    | Hooked(rids: seq<RequestId>, ts: int)
    | Terminal(last: Action)                            // of either finish or abort wrapper

  function AfterCall(s: State, c: Call): State {
    match c
    case Inputs(rid, ts) => Next(s, Arrive(rid, ts))
    case Scheduled(admitted, preempted, resumed, ts) => AfterSchedule(s, admitted, preempted, resumed, ts)
    case Executed(th, outs, ts) => AfterOutputs(s, th, outs, ts)
    case Hooked(rids, ts) => AfterHooks(s, rids, ts)
    case Terminal(last) => if last.Finished? || last.Aborted? then Next(s, last) else s
  }

  function AfterCalls(s: State, calls: seq<Call>): State {
    if calls == [] then s else AfterCall(AfterCalls(s, calls[..|calls| - 1]), calls[|calls| - 1])
  }

  predicate CallEnds(c: Call, rid: RequestId) {
    c.Terminal? && Pops(c.last, rid)
  }

  /** None of the calls ends the request. */
  predicate Endless(calls: seq<Call>, rid: RequestId) {
    forall i :: 0 <= i < |calls| ==> !CallEnds(calls[i], rid)
  }

  function TokensOfCall(c: Call, rid: RequestId): nat {
    if c.Executed? then TokensFor(c.outs, rid) else 0
  }

  /** The tokens that the calls produce for a request. */
  function TokensOfCalls(calls: seq<Call>, rid: RequestId): nat {
    if calls == [] then 0 else TokensOfCalls(calls[..|calls| - 1], rid) + TokensOfCall(calls[|calls| - 1], rid)
  }

  /** Each action is one that the call can take. */
  predicate Suits(c: Call, a: Action) {
    match c
    case Inputs(rid, _) => a.Arrive? && a.rid == rid
    case Scheduled(_, _, _, _) => a.Admitted? || a.Moved? || a.Decided?
    case Executed(_, _, _) => OfRunner(a)
    case Hooked(_, _) => a.SawToken?
    case Terminal(last) => a == last && (a.Finished? || a.Aborted?)
  }

  lemma {:induction false} NothingCounted(run: seq<Action>, rid: RequestId)
    requires forall a :: a in run ==> !a.ReadCount? && !a.WriteCount? && !Pops(a, rid)
    ensures CountsTokens(run, rid, 0)
    decreases |run|
  {
    if run == [] {
    } else {
      assert run[0] in run && forall a :: a in run[1..] ==> a in run;
      NothingCounted(run[1..], rid);
    }
  }

  lemma CallIsRun(s: State, c: Call) returns (run: seq<Action>)
    ensures IsRun(s, run) && Final(s, run) == AfterCall(s, c)
    ensures forall a :: a in run ==> Suits(c, a)
    ensures forall rid: RequestId :: !CallEnds(c, rid) ==> CountsTokens(run, rid, TokensOfCall(c, rid))
  {
    match c {
      case Inputs(rid, ts) =>
        run := [Arrive(rid, ts)];
        RunOfOne(s, run[0]);
      case Scheduled(admitted, preempted, resumed, ts) => run := ScheduleIsRun(s, admitted, preempted, resumed, ts);
      case Executed(th, outs, ts) => run := OutputsAreRun(s, th, outs, ts);
      case Hooked(rids, ts) => run := HooksAreRun(s, rids, ts);
      case Terminal(last) =>
        run := if last.Finished? || last.Aborted? then [last] else [];
        if run != [] { RunOfOne(s, last); }
    }
    forall rid: RequestId | !CallEnds(c, rid)
      ensures CountsTokens(run, rid, TokensOfCall(c, rid))
    {
      if c.Executed? {
        assert CountsTokens(run, rid, TokensFor(c.outs, rid));
      } else {
        NothingCounted(run, rid);
      }
    }
  }

  /** Calls that nothing interleaves are a run of actions, each of them one of its call's. */
  lemma {:induction false} CallsAreRun(s: State, calls: seq<Call>) returns (run: seq<Action>)
    ensures IsRun(s, run) && Final(s, run) == AfterCalls(s, calls)
    ensures forall a :: a in run ==> exists i :: 0 <= i < |calls| && Suits(calls[i], a)
    ensures forall rid: RequestId :: Endless(calls, rid) ==> CountsTokens(run, rid, TokensOfCalls(calls, rid))
    decreases |calls|
  {
    run := [];
    if calls == [] {
    } else {
      var front, last := calls[..|calls| - 1], calls[|calls| - 1];
      var before := CallsAreRun(s, front);
      var more := CallIsRun(AfterCalls(s, front), last);
      RunsCompose(s, before, more);
      run := before + more;
      forall a | a in run
        ensures exists i :: 0 <= i < |calls| && Suits(calls[i], a)
      {
        if a in before {
          var i :| 0 <= i < |front| && Suits(front[i], a);
          assert Suits(calls[i], a);
        } else {
          assert Suits(calls[|calls| - 1], a);
        }
      }
      forall rid: RequestId | Endless(calls, rid)
        ensures CountsTokens(run, rid, TokensOfCalls(calls, rid))
      {
        assert Endless(front, rid) && !CallEnds(calls[|calls| - 1], rid);
        assert CountsTokens(before, rid, TokensOfCalls(front, rid));
        assert CountsTokens(more, rid, TokensOfCall(last, rid));
        CountsCompose(before, more, rid, {}, {});
      }
    }
  }

  lemma {:induction false} NoPopsIn(run: seq<Action>, rid: RequestId)
    requires forall a :: a in run ==> !Pops(a, rid)
    ensures NeverPops(run, rid)
    decreases |run|
  {
    if run == [] {
    } else {
      assert run[0] in run && forall a :: a in run[1..] ==> a in run;
      NoPopsIn(run[1..], rid);
    }
  }

  /**
   Over whole calls that do not end a request, its first_token records are what its
   flag gained, and its count grows by exactly the tokens that the runner's calls
   produced for it.
   */
  lemma CallsKeepAccount(s: State, calls: seq<Call>, rid: RequestId)
    requires Endless(calls, rid)
    ensures var s' := AfterCalls(s, calls);
      && FirstTokens(s'.log, rid) - FirstTokens(s.log, rid) == Flagged(s', rid) - Flagged(s, rid)
      && CountGrows(s, s', rid, TokensOfCalls(calls, rid))
  {
    var run := CallsAreRun(s, calls);
    assert CountsTokens(run, rid, TokensOfCalls(calls, rid));
    forall a | a in run
      ensures !Pops(a, rid)
    {
      var i :| 0 <= i < |calls| && Suits(calls[i], a);
      assert !CallEnds(calls[i], rid);
    }
    NoPopsIn(run, rid);
    FirstTokenOnce(s, run, rid);
    CountIsSum(s, run, rid);
  }
}
