/**
 The tracker's view of a request, online, against the lifecycle row rebuilt from
 its records, offline: what the row holds for any life of a request, and exactly
 when that is what the tracker held.
 */
module LifecycleAgreement {
  import opened Records
  import opened RequestModel
  import opened Sequences
  import opened CriticalPath

  // ------------------------------------------------------------------- a life

  /**
   One arrival, one terminal action, and any other steps of the request between them
   and after: the probes also accept steps of a request that has been popped already.
   Before its arrival the request is unheard of; other requests do anything, always.
   */
  datatype Life = Life(
    rid: RequestId, before: State, arrival: int, mid: seq<Action>, last: Action, after: seq<Action>)

  predicate Unheard(s: State, rid: RequestId) {
    rid !in s.tracker && forall r :: r in s.log ==> r.request != Some(rid)
  }

  /** The request neither arrives nor ends; it may do anything else. */
  predicate Goes(run: seq<Action>, rid: RequestId)
    decreases |run|
  {
    run == [] || (!Pops(run[0], rid) && !(run[0].Arrive? && run[0].rid == rid) && Goes(run[1..], rid))
  }

  ghost predicate Lived(l: Life) {
    && Unheard(l.before, l.rid) && Goes(l.mid, l.rid) && Goes(l.after, l.rid) && Pops(l.last, l.rid)
    && IsRun(Arrived(l), l.mid) && IsRun(Ended(l), l.after)
  }

  function Arrived(l: Life): State {
    Next(l.before, Arrive(l.rid, l.arrival))
  }

  ghost function Ended(l: Life): State
    requires Pops(l.last, l.rid) && IsRun(Arrived(l), l.mid)
  {
    Next(Final(Arrived(l), l.mid), l.last)
  }

  /** The tracker's entry when the request is popped. */
  ghost function AtPop(l: Life): ReqState
    requires Lived(l)
  {
    Of(Final(Arrived(l), l.mid), l.rid)
  }

  /** The log once everything has happened. */
  ghost function WholeLog(l: Life): seq<Record>
    requires Lived(l)
  {
    Final(Ended(l), l.after).log
  }

  /** The terminal record is a finish, not an abort. */
  predicate Completed(l: Life) {
    l.last.Finished? && !l.last.aborted
  }

  function TerminalRecord(q: ReqState, last: Action): Record
    requires last.Finished? || last.Aborted?
  {
    if last.Finished?
    then RequestRecord(if last.aborted then Abort else Finish, last.rid, last.ts, TerminalStamps(q, last.told, last.ts))
    else RequestRecord(Abort, last.rid, last.ts, Stamps(q.arrival, None, None, Some(last.ts), None, None, 0))
  }

  // ------------------------------------------------------- lives made of calls

  /** The calls neither bring the request in nor end it; they may do anything else. */
  predicate Serve(calls: seq<Call>, rid: RequestId) {
    Endless(calls, rid) && forall i :: 0 <= i < |calls| ==> !(calls[i].Inputs? && calls[i].rid == rid)
  }

  lemma {:induction false} GoesThrough(run: seq<Action>, rid: RequestId)
    requires forall a :: a in run ==> !Pops(a, rid) && !(a.Arrive? && a.rid == rid)
    ensures Goes(run, rid)
    decreases |run|
  {
    if run == [] {
    } else {
      assert run[0] in run && forall a :: a in run[1..] ==> a in run;
      GoesThrough(run[1..], rid);
    }
  }

  lemma ServingIsRun(s: State, calls: seq<Call>, rid: RequestId) returns (run: seq<Action>)
    requires Serve(calls, rid)
    ensures IsRun(s, run) && Final(s, run) == AfterCalls(s, calls) && Goes(run, rid)
  {
    run := CallsAreRun(s, calls);
    forall a | a in run
      ensures !Pops(a, rid) && !(a.Arrive? && a.rid == rid)
    {
      var i :| 0 <= i < |calls| && Suits(calls[i], a);
      assert !CallEnds(calls[i], rid);
    }
    GoesThrough(run, rid);
  }

  /** A request that whole calls of the wrappers bring in, serve and end lives such a life. */
  lemma ServedIsLife(before: State, rid: RequestId, arrival: int, mid: seq<Call>, last: Action, after: seq<Call>)
    returns (l: Life)
    requires Unheard(before, rid) && Pops(last, rid) && Serve(mid, rid) && Serve(after, rid)
    ensures Lived(l) && l.rid == rid && l.before == before && l.arrival == arrival && l.last == last
    ensures var served := AfterCalls(AfterCall(before, Inputs(rid, arrival)), mid);
      && AtPop(l) == Of(served, rid)
      && WholeLog(l) == AfterCalls(AfterCall(served, Terminal(last)), after).log
  {
    var run := ServingIsRun(Next(before, Arrive(rid, arrival)), mid, rid);
    var late := ServingIsRun(Next(Final(Next(before, Arrive(rid, arrival)), run), last), after, rid);
    l := Life(rid, before, arrival, run, last, late);
  }

  /**
   The count on the terminal record of a served request: the engine's own if it gives
   one, or else all the tokens that the runner's calls produced for it.
   */
  lemma ServedCount(before: State, rid: RequestId, arrival: int, mid: seq<Call>, told: Option<int>, aborted: bool,
                    ts: int)
    requires Unheard(before, rid) && Serve(mid, rid)
    ensures var served := AfterCalls(AfterCall(before, Inputs(rid, arrival)), mid);
      var log := AfterCall(served, Terminal(Finished(rid, ts, aborted, told))).log;
      && |log| == |served.log| + 1 && log[|served.log|].detail.Stamps?
      && log[|served.log|].detail.outputLen == if told.Some? then told.value else TokensOfCalls(mid, rid)
  {
    var arrived := AfterCall(before, Inputs(rid, arrival));
    CallsKeepAccount(arrived, mid, rid);
    assert CountGrows(arrived, AfterCalls(arrived, mid), rid, TokensOfCalls(mid, rid));
  }

  // ---------------------------------------------------------- stamps of a run

  /** The stamps of the request's admits, in the order of the run. */
  function AdmitStamps(run: seq<Action>, rid: RequestId): seq<int>
    decreases |run|
  {
    if run == [] then []
    else AdmitStamp(run[0], rid) + AdmitStamps(run[1..], rid)
  }

  function AdmitStamp(a: Action, rid: RequestId): seq<int> {
    if a.Admitted? && a.rid == rid then [a.ts] else []
  }

  /** The stamps that first-token hooks offered, whether or not the flag was set already. */
  function TokenStamps(run: seq<Action>, rid: RequestId): seq<int>
    decreases |run|
  {
    if run == [] then []
    else TokenStamp(run[0], rid) + TokenStamps(run[1..], rid)
  }

  function TokenStamp(a: Action, rid: RequestId): seq<int> {
    if a.SawToken? && a.rid == rid then [a.ts] else []
  }

  function First(stamps: seq<int>): Option<int> {
    if stamps == [] then None else Some(stamps[0])
  }

  function Least(stamps: seq<int>): Option<int> {
    if stamps == [] then None
    else
      var rest := Least(stamps[1..]);
      if rest.None? || stamps[0] <= rest.value then Some(stamps[0]) else rest
  }

  lemma {:induction false} LeastIsLeast(stamps: seq<int>)
    ensures Least(stamps).None? <==> stamps == []
    ensures Least(stamps).Some? ==> Least(stamps).value in stamps
    ensures Least(stamps).Some? ==> forall x :: x in stamps ==> Least(stamps).value <= x
    decreases |stamps|
  {
    if stamps == [] {
    } else {
      LeastIsLeast(stamps[1..]);
      assert stamps == [stamps[0]] + stamps[1..];
    }
  }

  /** The least of some stamps is the one that is among them and not above any. */
  lemma LeastIs(stamps: seq<int>, v: Option<int>)
    ensures Least(stamps) == v <==>
            if v.None? then stamps == [] else v.value in stamps && forall x :: x in stamps ==> v.value <= x
  {
    LeastIsLeast(stamps);
  }

  /** What a hook records: the first stamp offered, if the flag was not set. */
  function Emitted(flag: Option<int>, stamps: seq<int>): seq<int> {
    if flag.None? && stamps != [] then [stamps[0]] else []
  }

  /** All the admits on record. */
  function Admits(l: Life): seq<int> {
    AdmitStamps(l.mid, l.rid) + AdmitStamps(l.after, l.rid)
  }

  /** All the first_token records: one before the pop and one after it, at most. */
  function FirstTokensOf(l: Life): seq<int> {
    Emitted(None, TokenStamps(l.mid, l.rid)) + Emitted(None, TokenStamps(l.after, l.rid))
  }

  // ------------------------------------------------------------- the tracker

  lemma FlagStep(s: State, a: Action, rid: RequestId)
    requires Enabled(s, a) && !Pops(a, rid) && !(a.Arrive? && a.rid == rid)
    ensures var q, q' := Of(s, rid), Of(Next(s, a), rid);
      && q'.arrival == q.arrival
      && q'.firstSchedule == Coalesce(q.firstSchedule, First(AdmitStamp(a, rid)))
      && q'.firstToken == Coalesce(q.firstToken, First(TokenStamp(a, rid)))
  {
  }

  /** While the request goes on, its flags keep the first stamps offered. */
  lemma {:induction false} FlagsFollow(s: State, run: seq<Action>, rid: RequestId)
    requires IsRun(s, run) && Goes(run, rid)
    ensures var q, q' := Of(s, rid), Of(Final(s, run), rid);
      && q'.arrival == q.arrival
      && q'.firstSchedule == Coalesce(q.firstSchedule, First(AdmitStamps(run, rid)))
      && q'.firstToken == Coalesce(q.firstToken, First(TokenStamps(run, rid)))
    decreases |run|
  {
    if run == [] {
    } else {
      FlagStep(s, run[0], rid);
      FlagsFollow(Next(s, run[0]), run[1..], rid);
    }
  }

  lemma PopFacts(l: Life)
    requires Lived(l)
    ensures var q := AtPop(l);
      && q.arrival == Some(l.arrival)
      && q.firstSchedule == First(AdmitStamps(l.mid, l.rid))
      && q.firstToken == First(TokenStamps(l.mid, l.rid))
  {
    FlagsFollow(Arrived(l), l.mid, l.rid);
  }

  // -------------------------------------------------------------- the records

  /** A request's own rows in the request table. */
  predicate IsRow(r: Record, rid: RequestId) {
    r.kind == Some(Request) && r.request == Some(rid)
  }

  predicate IsFirstToken(r: Record, rid: RequestId) {
    r.kind == Some(Token) && r.request == Some(rid) && r.subtype == Some(FirstToken)
  }

  /** What a row of the request says. */
  predicate RowFits(r: Record, arrival: int, admits: seq<int>, end: Option<Record>) {
    match r.subtype
    case Some(Arrival) => r.ts == Some(arrival) && Cell(r, ArrivalCol) == Some(arrival)
    case Some(Admit) => r.ts.Some? && r.ts.value in admits && Cell(r, FirstScheduleCol) == r.ts
    case Some(Preempt) => true
    case Some(Resume) => true
    case _ => end == Some(r)
  }

  ghost predicate HasAdmit(log: seq<Record>, rid: RequestId, ts: int) {
    exists r :: r in log && IsRow(r, rid) && r.subtype == Some(Admit) && r.ts == Some(ts)
  }

  ghost predicate HasFirstToken(log: seq<Record>, rid: RequestId, ts: int) {
    exists r :: r in log && IsFirstToken(r, rid) && r.ts == Some(ts)
  }

  /** All that the log says about the request. */
  ghost predicate Written(log: seq<Record>, rid: RequestId, arrival: int, admits: seq<int>, tokens: seq<int>,
                          end: Option<Record>) {
    && (forall r :: r in log && IsRow(r, rid) ==> RowFits(r, arrival, admits, end))
    && (exists r :: r in log && IsRow(r, rid) && r.subtype == Some(Arrival))
    && (forall ts :: ts in admits ==> HasAdmit(log, rid, ts))
    && (forall r :: r in log && IsFirstToken(r, rid) ==> r.ts.Some? && r.ts.value in tokens)
    && (forall ts :: ts in tokens ==> HasFirstToken(log, rid, ts))
    && (end.Some? ==> end.value in log)
  }

  lemma ArrivalWrites(l: Life)
    requires Unheard(l.before, l.rid)
    ensures Written(Arrived(l).log, l.rid, l.arrival, [], [], None)
    ensures Of(Arrived(l), l.rid) == ReqState(Some(l.arrival), None, None, None)
  {
    assert Arrived(l).log[|l.before.log|] in Arrived(l).log;
  }

  lemma HasStays(log: seq<Record>, r: Record, rid: RequestId)
    ensures forall ts :: HasAdmit(log, rid, ts) ==> HasAdmit(log + [r], rid, ts)
    ensures forall ts :: HasFirstToken(log, rid, ts) ==> HasFirstToken(log + [r], rid, ts)
    ensures forall x :: x in log + [r] <==> x in log || x == r
  {
  }

  /** A record that is no row and no first token of the request, or a move of it, says nothing new. */
  lemma OtherWrites(log: seq<Record>, r: Record, rid: RequestId, arrival: int, admits: seq<int>, tokens: seq<int>,
                    end: Option<Record>)
    requires Written(log, rid, arrival, admits, tokens, end)
    requires !IsFirstToken(r, rid) && (IsRow(r, rid) ==> r.subtype == Some(Preempt) || r.subtype == Some(Resume))
    ensures Written(log + [r], rid, arrival, admits, tokens, end)
  {
    HasStays(log, r, rid);
  }

  lemma AdmitWrites(log: seq<Record>, r: Record, rid: RequestId, arrival: int, admits: seq<int>, tokens: seq<int>,
                    end: Option<Record>, ts: int)
    requires Written(log, rid, arrival, admits, tokens, end)
    requires IsRow(r, rid) && r.subtype == Some(Admit) && r.ts == Some(ts) == Cell(r, FirstScheduleCol)
    ensures Written(log + [r], rid, arrival, admits + [ts], tokens, end)
  {
    HasStays(log, r, rid);
    assert r in log + [r];
    assert HasAdmit(log + [r], rid, ts);
  }

  lemma TokenWrites(log: seq<Record>, r: Record, rid: RequestId, arrival: int, admits: seq<int>, tokens: seq<int>,
                    end: Option<Record>, ts: int)
    requires Written(log, rid, arrival, admits, tokens, end)
    requires IsFirstToken(r, rid) && r.ts == Some(ts)
    ensures Written(log + [r], rid, arrival, admits, tokens + [ts], end)
  {
    HasStays(log, r, rid);
    assert r in log + [r];
    assert HasFirstToken(log + [r], rid, ts);
  }

  lemma EndWrites(log: seq<Record>, r: Record, rid: RequestId, arrival: int, admits: seq<int>, tokens: seq<int>)
    requires Written(log, rid, arrival, admits, tokens, None)
    requires IsRow(r, rid) && (r.subtype == Some(Finish) || r.subtype == Some(Abort))
    ensures Written(log + [r], rid, arrival, admits, tokens, Some(r))
  {
    HasStays(log, r, rid);
  }

  lemma StepWrites(s: State, a: Action, rid: RequestId, arrival: int, admits: seq<int>, tokens: seq<int>,
                   end: Option<Record>)
    requires Enabled(s, a) && !Pops(a, rid) && !(a.Arrive? && a.rid == rid)
    requires Written(s.log, rid, arrival, admits, tokens, end)
    ensures Written(Next(s, a).log, rid, arrival, admits + AdmitStamp(a, rid),
                    tokens + Emitted(Of(s, rid).firstToken, TokenStamp(a, rid)), end)
  {
    var s' := Next(s, a);
    LogGrows(s, a);
    Regroup(admits, [], []);
    Regroup(tokens, [], []);
    if |s'.log| > |s.log| {
      var r := s'.log[|s.log|];
      if a.Admitted? && a.rid == rid {
        AdmitWrites(s.log, r, rid, arrival, admits, tokens, end, a.ts);
      } else if a.SawToken? && a.rid == rid {
        TokenWrites(s.log, r, rid, arrival, admits, tokens, end, a.ts);
      } else {
        OtherWrites(s.log, r, rid, arrival, admits, tokens, end);
      }
    }
  }

  lemma EmittedSplits(flag: Option<int>, a: seq<int>, b: seq<int>)
    requires |a| <= 1
    ensures Emitted(flag, a + b) == Emitted(flag, a) + Emitted(Coalesce(flag, First(a)), b)
  {
  }

  /** A run of the request writes a row for each admit and at most one first token. */
  lemma {:induction false} RunWrites(
      s: State, run: seq<Action>, rid: RequestId, arrival: int, admits: seq<int>, tokens: seq<int>, end: Option<Record>,
      allAdmits: seq<int>, allTokens: seq<int>)
    requires IsRun(s, run) && Goes(run, rid) && Written(s.log, rid, arrival, admits, tokens, end)
    requires allAdmits == admits + AdmitStamps(run, rid)
    requires allTokens == tokens + Emitted(Of(s, rid).firstToken, TokenStamps(run, rid))
    ensures Written(Final(s, run).log, rid, arrival, allAdmits, allTokens, end)
    decreases |run|
  {
    if run == [] {
      Regroup(admits, [], []);
      Regroup(tokens, [], []);
    } else {
      var a, more, flag := run[0], run[1..], Of(s, rid).firstToken;
      var admitted, emitted := AdmitStamp(a, rid), Emitted(flag, TokenStamp(a, rid));
      StepWrites(s, a, rid, arrival, admits, tokens, end);
      FlagStep(s, a, rid);
      Regroup(admits, admitted, AdmitStamps(more, rid));
      EmittedSplits(flag, TokenStamp(a, rid), TokenStamps(more, rid));
      Regroup(tokens, emitted, Emitted(Of(Next(s, a), rid).firstToken, TokenStamps(more, rid)));
      RunWrites(Next(s, a), more, rid, arrival, admits + admitted, tokens + emitted, end, allAdmits, allTokens);
    }
  }

  /** The log up to the terminal record. */
  lemma LifeWritesToPop(l: Life)
    requires Lived(l)
    ensures Written(Final(Arrived(l), l.mid).log, l.rid, l.arrival, AdmitStamps(l.mid, l.rid),
                    Emitted(None, TokenStamps(l.mid, l.rid)), None)
  {
    var admits, tokens := AdmitStamps(l.mid, l.rid), Emitted(None, TokenStamps(l.mid, l.rid));
    ArrivalWrites(l);
    assert [] + admits == admits && [] + tokens == tokens;
    RunWrites(Arrived(l), l.mid, l.rid, l.arrival, [], [], None, admits, tokens);
  }

  lemma PopWrites(s: State, last: Action, rid: RequestId)
    requires Pops(last, rid)
    ensures Next(s, last).log == s.log + [TerminalRecord(Of(s, rid), last)] && Of(Next(s, last), rid) == BLANK
  {
  }

  /** The whole log of a life. */
  lemma LifeWrites(l: Life)
    requires Lived(l)
    ensures Written(WholeLog(l), l.rid, l.arrival, Admits(l), FirstTokensOf(l), Some(TerminalRecord(AtPop(l), l.last)))
  {
    var s2, end := Final(Arrived(l), l.mid), TerminalRecord(AtPop(l), l.last);
    var admits, tokens := AdmitStamps(l.mid, l.rid), Emitted(None, TokenStamps(l.mid, l.rid));
    LifeWritesToPop(l);
    PopWrites(s2, l.last, l.rid);
    EndWrites(s2.log, end, l.rid, l.arrival, admits, tokens);
    RunWrites(Ended(l), l.after, l.rid, l.arrival, admits, tokens, Some(end), Admits(l), FirstTokensOf(l));
  }

  // ----------------------------------------------------- reading the rows back

  /** The tables as loaded: any sorted listing of the request's rows, any listing of the tokens. */
  ghost predicate Loaded(log: seq<Record>, rid: RequestId, group: seq<Record>, tokens: seq<Record>) {
    && Sorted(group)
    && (forall r :: r in group <==> r in log && IsRow(r, rid))
    && (forall r :: r in tokens <==> r in log && r.kind == Some(Token))
  }

  lemma OnlyValue(rows: seq<Record>, col: Column, subtype: Subtype, v: int)
    requires exists r :: r in rows && r.subtype == Some(subtype)
    requires forall r :: r in rows && r.subtype == Some(subtype) ==> Cell(r, col) == Some(v)
    ensures FirstValue(rows, col, subtype) == Some(v)
  {
    var k := FirstValueIsFirst(rows, col, subtype);
    var r :| r in rows && r.subtype == Some(subtype);
    var i :| 0 <= i < |rows| && rows[i] == r;
  }

  lemma NoValue(rows: seq<Record>, col: Column, subtype: Subtype)
    requires forall r :: r in rows && r.subtype == Some(subtype) ==> Cell(r, col).None?
    ensures FirstValue(rows, col, subtype) == None
  {
    var k := FirstValueIsFirst(rows, col, subtype);
  }

  lemma FirstAdmitIs(rows: seq<Record>, v: int)
    requires Sorted(rows)
    requires forall r :: r in rows && r.subtype == Some(Admit) ==>
      r.ts.Some? && v <= r.ts.value && Cell(r, FirstScheduleCol) == r.ts
    requires exists r :: r in rows && r.subtype == Some(Admit) && r.ts == Some(v)
    ensures FirstValue(rows, FirstScheduleCol, Admit) == Some(v)
  {
    var r :| r in rows && r.subtype == Some(Admit) && r.ts == Some(v);
    var i :| 0 <= i < |rows| && rows[i] == r;
    var k := FirstValueIsFirst(rows, FirstScheduleCol, Admit);
    assert k <= i;
    if k < i { assert Ordered(rows[k], rows[i]); }
  }

  /** The first of the sorted admits carries the earliest schedule time. */
  lemma EarliestAdmit(rows: seq<Record>, stamps: seq<int>)
    requires Sorted(rows)
    requires forall r :: r in rows && r.subtype == Some(Admit) ==>
      r.ts.Some? && r.ts.value in stamps && Cell(r, FirstScheduleCol) == r.ts
    requires forall ts :: ts in stamps ==> exists r :: r in rows && r.subtype == Some(Admit) && r.ts == Some(ts)
    ensures Coalesce(FirstValue(rows, FirstScheduleCol, Admit), FirstTs(rows, Admit)) == Least(stamps)
  {
    LeastIsLeast(stamps);
    if stamps == [] {
      NoValue(rows, FirstScheduleCol, Admit);
      FirstTsIsEarliest(rows, Admit);
    } else {
      assert Least(stamps).value in stamps;
      FirstAdmitIs(rows, Least(stamps).value);
    }
  }

  /** The earliest of a listing of records that carry exactly these stamps. */
  lemma EarliestStamp(rows: seq<Record>, subtype: Subtype, stamps: seq<int>)
    requires forall r :: r in rows && r.subtype == Some(subtype) ==> r.ts.Some? && r.ts.value in stamps
    requires forall ts :: ts in stamps ==> exists r :: r in rows && r.subtype == Some(subtype) && r.ts == Some(ts)
    ensures FirstTs(rows, subtype) == Least(stamps)
  {
    FirstTsIsEarliest(rows, subtype);
    LeastIsLeast(stamps);
    if stamps != [] {
      var v := Least(stamps).value;
      assert v in stamps;
      var r :| r in rows && r.subtype == Some(subtype) && r.ts == Some(v);
    }
  }

  /** The token table's earliest first token. */
  lemma TokenTable(log: seq<Record>, rid: RequestId, tokens: seq<Record>, stamps: seq<int>)
    requires forall r :: r in tokens <==> r in log && r.kind == Some(Token)
    requires forall r :: r in log && IsFirstToken(r, rid) ==> r.ts.Some? && r.ts.value in stamps
    requires forall ts :: ts in stamps ==> HasFirstToken(log, rid, ts)
    ensures FirstTs(TokensOf(tokens, Some(rid)), FirstToken) == Least(stamps)
  {
    var own := TokensOf(tokens, Some(rid));
    TokensOfHolds(tokens, Some(rid));
    assert forall r :: r in own && r.subtype == Some(FirstToken) <==> r in log && IsFirstToken(r, rid);
    forall ts | ts in stamps
      ensures exists r :: r in own && r.subtype == Some(FirstToken) && r.ts == Some(ts)
    {
      assert HasFirstToken(log, rid, ts);
    }
    EarliestStamp(own, FirstToken, stamps);
  }

  lemma EarlyColumns(log: seq<Record>, rid: RequestId, arrival: int, admits: seq<int>, tokens: seq<int>, end: Record,
                     group: seq<Record>, table: seq<Record>)
    requires Written(log, rid, arrival, admits, tokens, Some(end)) && Loaded(log, rid, group, table)
    requires end.subtype == Some(Finish) || end.subtype == Some(Abort)
    ensures Coalesce(FirstValue(group, ArrivalCol, Arrival), FirstTs(group, Arrival)) == Some(arrival)
    ensures Coalesce(FirstValue(group, FirstScheduleCol, Admit), FirstTs(group, Admit)) == Least(admits)
    ensures FirstTs(TokensOf(table, Some(rid)), FirstToken) == Least(tokens)
  {
    OnlyValue(group, ArrivalCol, Arrival, arrival);
    forall ts | ts in admits
      ensures exists r :: r in group && r.subtype == Some(Admit) && r.ts == Some(ts)
    {
      assert HasAdmit(log, rid, ts);
    }
    EarliestAdmit(group, admits);
    TokenTable(log, rid, table, tokens);
  }

  lemma MaybeValue(rows: seq<Record>, col: Column, end: Record)
    requires end in rows && end.subtype == Some(Finish)
    requires forall r :: r in rows && r.subtype == Some(Finish) ==> r == end
    ensures FirstValue(rows, col, Finish) == Cell(end, col)
  {
    if Cell(end, col).Some? {
      OnlyValue(rows, col, Finish, Cell(end, col).value);
    } else {
      NoValue(rows, col, Finish);
    }
  }

  /** The terminal row is the only one of its subtype, and there is none of the other. */
  ghost predicate EndsWith(rows: seq<Record>, end: Record) {
    && end in rows && (end.subtype == Some(Finish) || end.subtype == Some(Abort))
    && forall r :: r in rows && r != end ==>
         r.subtype != Some(Finish) && r.subtype != Some(Abort) && r.subtype != Some(FirstToken)
  }

  lemma GroupEnds(log: seq<Record>, rid: RequestId, arrival: int, admits: seq<int>, tokens: seq<int>, end: Record,
                  group: seq<Record>, table: seq<Record>)
    requires Written(log, rid, arrival, admits, tokens, Some(end)) && Loaded(log, rid, group, table)
    requires IsRow(end, rid) && (end.subtype == Some(Finish) || end.subtype == Some(Abort))
    ensures EndsWith(group, end)
  {
  }

  lemma FinishColumns(rows: seq<Record>, end: Record)
    requires EndsWith(rows, end) && end.subtype == Some(Finish)
    ensures forall col :: FirstValue(rows, col, Finish) == Cell(end, col)
    ensures FirstTs(rows, FirstToken) == None == FirstTs(rows, Abort)
  {
    forall col
      ensures FirstValue(rows, col, Finish) == Cell(end, col)
    {
      MaybeValue(rows, col, end);
    }
    FirstTsIsEarliest(rows, FirstToken);
    FirstTsIsEarliest(rows, Abort);
  }

  lemma AbortColumns(rows: seq<Record>, end: Record)
    requires EndsWith(rows, end) && end.subtype == Some(Abort) && end.ts.Some?
    ensures forall col :: FirstValue(rows, col, Finish) == None
    ensures FirstTs(rows, FirstToken) == None == FirstTs(rows, Finish) && FirstTs(rows, Abort) == end.ts
  {
    forall col
      ensures FirstValue(rows, col, Finish) == None
    {
      NoValue(rows, col, Finish);
    }
    FirstTsIsEarliest(rows, FirstToken);
    FirstTsIsEarliest(rows, Finish);
    FirstTsIsEarliest(rows, Abort);
  }

  // ---------------------------------------------------------- the rebuilt row

  /** The first token in the row: recorded by a finish, or else the earliest in the token table. */
  function TokenColumn(q: ReqState, late: Option<int>, last: Action): Option<int> {
    if last.Finished? && !last.aborted then Coalesce(q.firstToken, late) else late
  }

  /** The tpot on the terminal record. */
  function RecordedTpot(q: ReqState, last: Action): Option<int> {
    if last.Finished? then Tpot(q.firstToken, OutputLen(q, last.told), last.ts) else None
  }

  /** The ttft in the row: recorded by a finish, or else the difference of the row's own stamps. */
  function TtftColumn(q: ReqState, arrival: int, late: Option<int>, last: Action): Option<int> {
    var recorded, token := Ttft(q.arrival, q.firstToken), TokenColumn(q, late, last);
    if last.Finished? && !last.aborted && recorded.Some? then recorded
    else if token.Some? then Some(token.value - arrival) else None
  }

  /** The row of a request, from its entry at the pop and the earliest stamps on record. */
  function RowFrom(rid: RequestId, arrival: int, schedule: Option<int>, late: Option<int>, q: ReqState,
                   last: Action): Row
    requires last.Finished? || last.Aborted?
  {
    var token, ttft := TokenColumn(q, late, last), TtftColumn(q, arrival, late, last);
    if last.Finished? && !last.aborted
    then Row(Some(rid), Some(arrival), schedule, token, Some(last.ts), None, ttft, RecordedTpot(q, last),
             if last.ts != 0 then Some(last.ts - arrival) else None, FinishedOk)
    else Row(Some(rid), Some(arrival), schedule, token, None, Some(last.ts), ttft, None,
             Some(last.ts - arrival), WasAborted)
  }

  lemma CompletedRow(rid: RequestId, arrival: int, schedule: Option<int>, late: Option<int>, q: ReqState, last: Action,
                     group: seq<Record>, tokens: seq<Record>)
    requires last.Finished? && !last.aborted && q.arrival == Some(arrival) && EndsWith(group, TerminalRecord(q, last))
    requires Coalesce(FirstValue(group, ArrivalCol, Arrival), FirstTs(group, Arrival)) == Some(arrival)
    requires Coalesce(FirstValue(group, FirstScheduleCol, Admit), FirstTs(group, Admit)) == schedule
    requires FirstTs(TokensOf(tokens, Some(rid)), FirstToken) == late
    ensures Lifecycle(Some(rid), group, tokens) == RowFrom(rid, arrival, schedule, late, q, last)
  {
    FinishColumns(group, TerminalRecord(q, last));
    hide FirstValue, FirstTs, TokensOf;
  }

  /** An abort has to fall back for the first token and the ttft. */
  lemma AbortedRow(rid: RequestId, arrival: int, schedule: Option<int>, late: Option<int>, q: ReqState, last: Action,
                   group: seq<Record>, tokens: seq<Record>)
    requires (last.Aborted? || (last.Finished? && last.aborted)) && EndsWith(group, TerminalRecord(q, last))
    requires Coalesce(FirstValue(group, ArrivalCol, Arrival), FirstTs(group, Arrival)) == Some(arrival)
    requires Coalesce(FirstValue(group, FirstScheduleCol, Admit), FirstTs(group, Admit)) == schedule
    requires FirstTs(TokensOf(tokens, Some(rid)), FirstToken) == late
    ensures Lifecycle(Some(rid), group, tokens) == RowFrom(rid, arrival, schedule, late, q, last)
  {
    AbortColumns(group, TerminalRecord(q, last));
    AbortColumnsAssembled(rid, arrival, schedule, late, last.ts, group, tokens);
    hide Lifecycle, FirstValue, FirstTs, TokensOf, EndsWith;
  }

  lemma AbortColumnsAssembled(rid: RequestId, arrival: int, schedule: Option<int>, late: Option<int>, ts: int,
                              group: seq<Record>, tokens: seq<Record>)
    requires Coalesce(FirstValue(group, ArrivalCol, Arrival), FirstTs(group, Arrival)) == Some(arrival)
    requires Coalesce(FirstValue(group, FirstScheduleCol, Admit), FirstTs(group, Admit)) == schedule
    requires FirstTs(TokensOf(tokens, Some(rid)), FirstToken) == late
    requires forall col :: FirstValue(group, col, Finish) == None
    requires FirstTs(group, FirstToken) == None == FirstTs(group, Finish) && FirstTs(group, Abort) == Some(ts)
    ensures Lifecycle(Some(rid), group, tokens) ==
            Assembled(Some(rid), Some(arrival), schedule, late, None, Some(ts), None, None)
  {
    hide FirstValue, FirstTs, TokensOf, Assembled;
  }

  /** The columns and rows that any life leaves in the tables. */
  lemma LifeColumns(l: Life, group: seq<Record>, tokens: seq<Record>)
    requires Lived(l) && Loaded(WholeLog(l), l.rid, group, tokens)
    ensures EndsWith(group, TerminalRecord(AtPop(l), l.last))
    ensures Coalesce(FirstValue(group, ArrivalCol, Arrival), FirstTs(group, Arrival)) == Some(l.arrival)
    ensures Coalesce(FirstValue(group, FirstScheduleCol, Admit), FirstTs(group, Admit)) == Least(Admits(l))
    ensures FirstTs(TokensOf(tokens, Some(l.rid)), FirstToken) == Least(FirstTokensOf(l))
  {
    var log, end := WholeLog(l), TerminalRecord(AtPop(l), l.last);
    LifeWrites(l);
    EarlyColumns(log, l.rid, l.arrival, Admits(l), FirstTokensOf(l), end, group, tokens);
    GroupEnds(log, l.rid, l.arrival, Admits(l), FirstTokensOf(l), end, group, tokens);
  }

  /** The row rebuilt from the records of any life, whatever the order of its stamps and of the loaded rows. */
  lemma RebuiltRow(l: Life, group: seq<Record>, tokens: seq<Record>)
    requires Lived(l) && Loaded(WholeLog(l), l.rid, group, tokens)
    ensures Lifecycle(Some(l.rid), group, tokens) ==
            RowFrom(l.rid, l.arrival, Least(Admits(l)), Least(FirstTokensOf(l)), AtPop(l), l.last)
  {
    PopFacts(l);
    LifeColumns(l, group, tokens);
    if Completed(l) {
      CompletedRow(l.rid, l.arrival, Least(Admits(l)), Least(FirstTokensOf(l)), AtPop(l), l.last, group, tokens);
    } else {
      AbortedRow(l.rid, l.arrival, Least(Admits(l)), Least(FirstTokensOf(l)), AtPop(l), l.last, group, tokens);
    }
  }

  // ------------------------------------------------------ when the views agree

  /** The row's first schedule is the tracker's. */
  predicate ScheduleKept(l: Life) {
    var before := AdmitStamps(l.mid, l.rid);
    if before == [] then AdmitStamps(l.after, l.rid) == []
    else forall ts :: ts in Admits(l) ==> before[0] <= ts
  }

  /** The row's first token is the tracker's. */
  predicate TokenKept(l: Life) {
    var before, after := TokenStamps(l.mid, l.rid), TokenStamps(l.after, l.rid);
    if after == [] then true else before != [] && (Completed(l) || before[0] <= after[0])
  }

  /** The probe would record a ttft, or has no first token to take one from. */
  predicate StampsUsable(l: Life) {
    var before := TokenStamps(l.mid, l.rid);
    before != [] ==> l.arrival != 0 && before[0] != 0 && l.arrival <= before[0]
  }

  /**
   For any life and any order of the loaded rows, column by column, exactly when
   the rebuilt row holds what the tracker held at the pop, or the terminal record.
   */
  lemma AgreementExactly(l: Life, group: seq<Record>, tokens: seq<Record>)
    requires Lived(l) && Loaded(WholeLog(l), l.rid, group, tokens)
    ensures var q, row := AtPop(l), Lifecycle(Some(l.rid), group, tokens);
      && row.arrival == q.arrival
      && (row.firstSchedule == q.firstSchedule <==> ScheduleKept(l))
      && (row.firstToken == q.firstToken <==> TokenKept(l))
      && (row.ttft == Ttft(q.arrival, q.firstToken) <==> TokenKept(l) && StampsUsable(l))
      && (row.tpot == RecordedTpot(q, l.last) <==> Completed(l) || RecordedTpot(q, l.last).None?)
  {
    RebuiltRow(l, group, tokens);
    PopFacts(l);
    LeastIs(Admits(l), AtPop(l).firstSchedule);
    var before := AdmitStamps(l.mid, l.rid);
    if before != [] { assert before[0] in Admits(l); }
    TokenAgrees(l, AtPop(l));
  }

  /** The earliest first token on record, of at most one from before the pop and one from after it. */
  function Earlier(a: Option<int>, b: Option<int>): Option<int> {
    if a.None? then b else if b.None? || a.value <= b.value then a else b
  }

  lemma EarliestTokenIs(l: Life)
    ensures Least(FirstTokensOf(l)) ==
            Earlier(First(TokenStamps(l.mid, l.rid)), First(TokenStamps(l.after, l.rid)))
  {
    LeastOfTwo(First(TokenStamps(l.mid, l.rid)), First(TokenStamps(l.after, l.rid)));
  }

  function Listed(x: Option<int>): seq<int> {
    if x.None? then [] else [x.value]
  }

  lemma LeastOfTwo(a: Option<int>, b: Option<int>)
    ensures Least(Listed(a) + Listed(b)) == Earlier(a, b)
  {
    LeastIs(Listed(a) + Listed(b), Earlier(a, b));
  }

  lemma TokenAgrees(l: Life, q: ReqState)
    requires q.firstToken == First(TokenStamps(l.mid, l.rid)) && q.arrival == Some(l.arrival)
    ensures var late := Least(FirstTokensOf(l));
      && (TokenColumn(q, late, l.last) == q.firstToken <==> TokenKept(l))
      && (TtftColumn(q, l.arrival, late, l.last) == Ttft(q.arrival, q.firstToken) <==> TokenKept(l) && StampsUsable(l))
  {
    EarliestTokenIs(l);
  }

  predicate NonDecreasing(stamps: seq<int>) {
    forall i, j :: 0 <= i < j < |stamps| ==> stamps[i] <= stamps[j]
  }

  /** A clock that does not run backwards, as far as this request's actions go. */
  ghost predicate InOrder(l: Life)
    requires l.last.Finished? || l.last.Aborted?
  {
    && 1 <= l.arrival <= l.last.ts
    && NonDecreasing(AdmitStamps(l.mid, l.rid))
    && (forall ts :: ts in AdmitStamps(l.mid, l.rid) ==> l.arrival <= ts <= l.last.ts)
    && (forall ts :: ts in TokenStamps(l.mid, l.rid) ==> l.arrival <= ts <= l.last.ts)
    && (forall ts :: ts in AdmitStamps(l.after, l.rid) || ts in TokenStamps(l.after, l.rid) ==> l.last.ts <= ts)
  }

  /** Nothing that the tracker did not know at the pop is recorded after it. */
  ghost predicate NothingLate(l: Life)
    requires Lived(l)
  {
    && (AtPop(l).firstToken.Some? || TokenStamps(l.after, l.rid) == [])
    && (AtPop(l).firstSchedule.Some? || AdmitStamps(l.after, l.rid) == [])
  }

  /**
   Online and offline agree: for a request with one arrival and one terminal
   action, stamps in order, any steps of any requests between and after, and any
   order of the loaded rows, the rebuilt stamps are the tracker's at its pop if and
   only if no first token and no first admit of the request came after it.
   */
  lemma OfflineRowIsTrackerEntry(l: Life, group: seq<Record>, tokens: seq<Record>)
    requires Lived(l) && InOrder(l) && Loaded(WholeLog(l), l.rid, group, tokens)
    ensures var q, row := AtPop(l), Lifecycle(Some(l.rid), group, tokens);
      && (row.firstSchedule == q.firstSchedule && row.firstToken == q.firstToken <==> NothingLate(l))
      && (NothingLate(l) ==>
            row == Row(Some(l.rid), q.arrival, q.firstSchedule, q.firstToken,
                       if Completed(l) then Some(l.last.ts) else None, if Completed(l) then None else Some(l.last.ts),
                       Ttft(q.arrival, q.firstToken), if Completed(l) then RecordedTpot(q, l.last) else None,
                       Some(l.last.ts - l.arrival), if Completed(l) then FinishedOk else WasAborted))
  {
    RebuiltRow(l, group, tokens);
    AgreementExactly(l, group, tokens);
    PopFacts(l);
    OrderedAgreement(l);
  }

  lemma OrderedAgreement(l: Life)
    requires Lived(l) && InOrder(l)
    requires AtPop(l).firstSchedule == First(AdmitStamps(l.mid, l.rid))
    requires AtPop(l).firstToken == First(TokenStamps(l.mid, l.rid))
    ensures ScheduleKept(l) && TokenKept(l) <==> NothingLate(l)
    ensures StampsUsable(l)
  {
    var admits, late := AdmitStamps(l.mid, l.rid), AdmitStamps(l.after, l.rid);
    var tokens, lateTokens := TokenStamps(l.mid, l.rid), TokenStamps(l.after, l.rid);
    if admits != [] {
      assert admits[0] in admits;
      forall ts | ts in Admits(l)
        ensures admits[0] <= ts
      {
        assert ts in admits || ts in late;
      }
    }
    if tokens != [] { assert tokens[0] in tokens; }
    if lateTokens != [] { assert lateTokens[0] in lateTokens; }
  }

  /** With all its stamps, a finished life's stages add up to its time exactly if scheduled by its first token. */
  lemma StagesCoverLife(l: Life, group: seq<Record>, tokens: seq<Record>)
    requires Lived(l) && InOrder(l) && Loaded(WholeLog(l), l.rid, group, tokens)
    requires Completed(l) && AtPop(l).firstSchedule.Some? && AtPop(l).firstToken.Some?
    ensures var q, st := AtPop(l), StagesOf(Lifecycle(Some(l.rid), group, tokens));
      && st.queue.Some? && st.prefill.Some? && st.decode.Some?
      && (st.queue.value + st.prefill.value + st.decode.value == l.last.ts - l.arrival <==>
            q.firstSchedule.value <= q.firstToken.value)
  {
    OfflineRowIsTrackerEntry(l, group, tokens);
    PopFacts(l);
    assert AtPop(l).firstToken.value in TokenStamps(l.mid, l.rid);
    assert AtPop(l).firstSchedule.value in AdmitStamps(l.mid, l.rid);
    StagesCoverRequest(Lifecycle(Some(l.rid), group, tokens));
  }

  /**
   Each stage of a finished life in order, with nothing late: from the arrival to the
   tracker's first schedule, from there to its first token if that came later, and
   from there to the finish.
   */
  lemma StagesOfLife(l: Life, group: seq<Record>, tokens: seq<Record>)
    requires Lived(l) && InOrder(l) && Loaded(WholeLog(l), l.rid, group, tokens)
    requires Completed(l) && NothingLate(l)
    ensures var q, st := AtPop(l), StagesOf(Lifecycle(Some(l.rid), group, tokens));
      && (if q.firstSchedule.Some? then st.queue == Some(q.firstSchedule.value - l.arrival) else st.queue == None)
      && (if q.firstSchedule.Some? && q.firstToken.Some?
          then st.prefill.Some? && IsSpan(st.prefill.value, q.firstSchedule.value, q.firstToken.value)
          else st.prefill == None)
      && (if q.firstToken.Some? then st.decode == Some(l.last.ts - q.firstToken.value) else st.decode == None)
  {
    OfflineRowIsTrackerEntry(l, group, tokens);
    StampsInOrder(l);
    hide Lifecycle, StagesOf, Lived, Loaded, InOrder, NothingLate;
    StagesAreBetweenStamps(Lifecycle(Some(l.rid), group, tokens));
  }

  /** With the request's stamps in order, the tracker's entry at the pop is in order. */
  lemma StampsInOrder(l: Life)
    requires Lived(l) && InOrder(l)
    ensures var q := AtPop(l);
      && q.arrival == Some(l.arrival)
      && (q.firstSchedule.Some? ==> l.arrival <= q.firstSchedule.value <= l.last.ts)
      && (q.firstToken.Some? ==> l.arrival <= q.firstToken.value <= l.last.ts)
  {
    PopFacts(l);
    if AtPop(l).firstToken.Some? {
      assert AtPop(l).firstToken.value in TokenStamps(l.mid, l.rid);
    }
    if AtPop(l).firstSchedule.Some? {
      assert AtPop(l).firstSchedule.value in AdmitStamps(l.mid, l.rid);
    }
  }

  // ---------------------------------------------------- inputs where they differ

  /** A step still in flight when its request is aborted: the row has a first token that the tracker had not. */
  lemma LateTokenDisagrees() returns (l: Life, group: seq<Record>, tokens: seq<Record>)
    ensures Lived(l) && InOrder(l) && Loaded(WholeLog(l), l.rid, group, tokens)
    ensures AtPop(l).firstToken == None
    ensures Lifecycle(Some(l.rid), group, tokens).firstToken == Some(30)
    ensures Lifecycle(Some(l.rid), group, tokens).ttft == Some(20)
  {
    l := Life(7, Init(), 10, [], Aborted(7, 20), [SawToken(7, 30)]);
    var s1 := Arrived(l);
    assert Ended(l) == Next(s1, l.last);
    RunOfOne(Ended(l), SawToken(7, 30));
    var arrived, aborted, token := s1.log[0], Ended(l).log[1], TokenRecord(FirstToken, 7, 30);
    group, tokens := [arrived, aborted], [token];
    assert l.after[1..] == [];
    assert WholeLog(l) == [arrived, aborted, token];
    RebuiltRow(l, group, tokens);
    assert TokenStamps(l.after, 7) == [30] && FirstTokensOf(l) == [30] && Least([30]) == Some(30);
  }

  /** An abort through the finish wrapper: its record has a per-token time, the row has none. */
  lemma AbortedTpotDiffers() returns (l: Life, group: seq<Record>, tokens: seq<Record>)
    ensures Lived(l) && InOrder(l) && Loaded(WholeLog(l), l.rid, group, tokens)
    ensures RecordedTpot(AtPop(l), l.last) == Some(4) && Lifecycle(Some(l.rid), group, tokens).tpot == None
  {
    l := Life(7, Init(), 10, [SawToken(7, 12)], Finished(7, 20, true, Some(3)), []);
    RunOfOne(Arrived(l), SawToken(7, 12));
    assert l.mid[1..] == [];
    var arrived, token, aborted := Arrived(l).log[0], TokenRecord(FirstToken, 7, 12), Ended(l).log[2];
    group, tokens := [arrived, aborted], [token];
    assert WholeLog(l) == [arrived, token, aborted];
    RebuiltRow(l, group, tokens);
    PopFacts(l);
    assert TokenStamps(l.mid, 7) == [12];
  }
}
