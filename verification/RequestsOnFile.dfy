/**
 Requests from the probes to the reports: what the validator and the lifecycle
 table say about the files of a run that carried the request probes' records.
 */
module RequestsOnFile {
  import opened Records
  import opened EmitterModel
  import opened Codecs
  import T = Transfers
  import C = ConnectorProtocol
  import E = EndToEnd
  import V = Validator
  import J = Pairing
  import M = RequestModel
  import L = LifecycleAgreement
  import Q = CriticalPath

  /** The records of the request and token tables. */
  predicate Probed(r: Record) {
    r.kind == Some(Request) || r.kind == Some(Token)
  }

  // ------------------------------------------------------- from a run to the file

  function Offer(step: C.Step): seq<Record> {
    if step.Event? && Probed(step.rec) then [step.rec] else []
  }

  /** The request and token records that a run's threads offer to their rings. */
  function Offers(run: seq<C.Step>): seq<Record>
    decreases |run|
  {
    if run == [] then [] else Offer(run[0]) + Offers(run[1..])
  }

  ghost predicate IsStamped(cfg: Config, offers: seq<Record>, r: Record) {
    exists o :: o in offers && r == Stamp(cfg, o)
  }

  /** The request and token records among `rs` are those offered, stamped. */
  ghost predicate Carries(cfg: Config, rs: seq<Record>, offers: seq<Record>) {
    forall r :: Probed(r) ==> (r in rs <==> IsStamped(cfg, offers, r))
  }

  lemma StepCarries(cfg: Config, s: C.State, step: C.Step, offers: seq<Record>)
    requires C.Enabled(s, step) && Carries(cfg, T.Enqueued(s.t), offers)
    requires C.Next(cfg, s, step).t.pipe.em.refused == s.t.pipe.em.refused
    ensures Carries(cfg, T.Enqueued(C.Next(cfg, s, step).t), offers + Offer(step))
  {
    var lower := C.Lower(s, step);
    C.LowerSteps(cfg, s, step);
    if lower.Some? {
      T.OfferedIsEnqueued(cfg, s.t, lower.value);
    }
    forall r | Probed(r)
      ensures r in T.Enqueued(C.Next(cfg, s, step).t) <==> IsStamped(cfg, offers + Offer(step), r)
    {
      StampedAppend(cfg, offers, Offer(step), r);
    }
  }

  lemma StampedAppend(cfg: Config, a: seq<Record>, b: seq<Record>, r: Record)
    ensures IsStamped(cfg, a + b, r) <==> IsStamped(cfg, a, r) || IsStamped(cfg, b, r)
  {
    if IsStamped(cfg, a, r) {
      var o :| o in a && r == Stamp(cfg, o);
      assert o in a + b;
    }
    if IsStamped(cfg, b, r) {
      var o :| o in b && r == Stamp(cfg, o);
      assert o in a + b;
    }
  }

  /** With no refusals the rings take exactly what is offered. */
  lemma {:induction false} RunCarries(cfg: Config, s: C.State, run: seq<C.Step>, before: seq<Record>, all: seq<Record>)
    requires C.IsRun(cfg, s, run) && C.Final(cfg, s, run).t.pipe.em.refused == s.t.pipe.em.refused
    requires Carries(cfg, T.Enqueued(s.t), before) && all == before + Offers(run)
    ensures Carries(cfg, T.Enqueued(C.Final(cfg, s, run).t), all)
    decreases |run|
  {
    if run == [] {
      assert all == before;
    } else {
      var s' := C.Next(cfg, s, run[0]);
      E.StepRefuses(cfg, s, run[0]);
      E.RefusalsStay(cfg, s', run[1..]);
      StepCarries(cfg, s, run[0], before);
      assert all == before + Offer(run[0]) + Offers(run[1..]);
      RunCarries(cfg, s', run[1..], before + Offer(run[0]), all);
    }
  }

  /** The run's threads offer the request and token records of this log, in any order. */
  ghost predicate Feeds(run: seq<C.Step>, log: seq<Record>) {
    forall r :: r in Offers(run) <==> r in log && Probed(r)
  }

  lemma FileCarries(cfg: Config, codec: Codec, run: seq<C.Step>, rotateBytes: int, log: seq<Record>)
    requires C.IsRun(cfg, C.Init(), run) && E.Complete(cfg, codec, run) && Feeds(run, log)
    ensures Carries(cfg, E.OnFile(cfg, codec, run, rotateBytes), log)
  {
    var rs, enqueued := E.OnFile(cfg, codec, run, rotateBytes), T.Enqueued(C.Final(cfg, C.Init(), run).t);
    RunCarries(cfg, C.Init(), run, [], Offers(run));
    E.OnFileIsEnqueued(cfg, codec, run, rotateBytes);
    forall r | Probed(r)
      ensures r in rs <==> IsStamped(cfg, log, r)
    {
      assert r in multiset(rs) <==> r in multiset(enqueued);
      assert r in enqueued <==> IsStamped(cfg, Offers(run), r);
    }
  }

  // --------------------------------------------------------------- orphan requests

  /** The probes leave the envelope to the emitter. */
  predicate IsBare(r: Record) {
    r.v.None? && r.trace.None? && r.node.None? && r.worker.None?
  }

  ghost predicate AllBare(log: seq<Record>) {
    forall r :: r in log ==> IsBare(r)
  }

  /** Some record of the log opens or closes the request. */
  ghost predicate Marks(log: seq<Record>, rid: RequestId, mark: V.Mark) {
    exists r :: r in log && V.Marked(V.OfRequests, r) == Some((rid, mark))
  }

  lemma MarksAppend(log: seq<Record>, r: Record, rid: RequestId, mark: V.Mark)
    ensures Marks(log + [r], rid, mark) <==> Marks(log, rid, mark) || V.Marked(V.OfRequests, r) == Some((rid, mark))
  {
    if Marks(log, rid, mark) {
      var o :| o in log && V.Marked(V.OfRequests, o) == Some((rid, mark));
      assert o in log + [r];
    }
    assert r in log + [r];
  }

  predicate Opens(a: M.Action, rid: RequestId) {
    a.Arrive? && a.rid == rid
  }

  /** What the record of an action says of a request. */
  lemma RecordMarks(s: M.State, a: M.Action, rid: RequestId)
    requires M.Enabled(s, a)
    ensures var log' := M.Next(s, a).log;
      if |log'| > |s.log|
      then
        var r := log'[|s.log|];
        && IsBare(r)
        && (V.Marked(V.OfRequests, r) == Some((rid, V.Opening)) <==> Opens(a, rid))
        && (V.Marked(V.OfRequests, r) == Some((rid, V.Closing)) <==> M.Pops(a, rid))
      else !Opens(a, rid) && !M.Pops(a, rid)
  {
  }

  lemma StepMarks(s: M.State, a: M.Action, rid: RequestId)
    requires M.Enabled(s, a)
    ensures var log' := M.Next(s, a).log;
      && (AllBare(s.log) ==> AllBare(log'))
      && (Marks(log', rid, V.Opening) <==> Marks(s.log, rid, V.Opening) || Opens(a, rid))
      && (Marks(log', rid, V.Closing) <==> Marks(s.log, rid, V.Closing) || M.Pops(a, rid))
  {
    var log' := M.Next(s, a).log;
    M.LogGrows(s, a);
    RecordMarks(s, a, rid);
    if |log'| > |s.log| {
      MarksAppend(s.log, log'[|s.log|], rid, V.Opening);
      MarksAppend(s.log, log'[|s.log|], rid, V.Closing);
    }
  }

  predicate Arrives(run: seq<M.Action>, rid: RequestId)
    decreases |run|
  {
    run != [] && (Opens(run[0], rid) || Arrives(run[1..], rid))
  }

  lemma {:induction false} RunMarks(s: M.State, run: seq<M.Action>, rid: RequestId)
    requires M.IsRun(s, run)
    ensures var log' := M.Final(s, run).log;
      && (AllBare(s.log) ==> AllBare(log'))
      && (Marks(log', rid, V.Opening) <==> Marks(s.log, rid, V.Opening) || Arrives(run, rid))
      && (Marks(log', rid, V.Closing) <==> Marks(s.log, rid, V.Closing) || !M.NeverPops(run, rid))
    decreases |run|
  {
    if run == [] {
    } else {
      StepMarks(s, run[0], rid);
      RunMarks(M.Next(s, run[0]), run[1..], rid);
    }
  }

  /** The requests that arrive in a run and are never popped. */
  function Unfinished(run: seq<M.Action>): set<RequestId> {
    set i | 0 <= i < |run| && run[i].Arrive? && M.NeverPops(run, run[i].rid) :: run[i].rid
  }

  lemma {:induction false} ArrivesAt(run: seq<M.Action>, rid: RequestId)
    ensures Arrives(run, rid) <==> exists i :: 0 <= i < |run| && Opens(run[i], rid)
    decreases |run|
  {
    if run == [] {
    } else {
      ArrivesAt(run[1..], rid);
      if Arrives(run[1..], rid) {
        var i :| 0 <= i < |run[1..]| && Opens(run[1..][i], rid);
        assert Opens(run[i + 1], rid);
      }
      if i :| 1 <= i < |run| && Opens(run[i], rid) {
        assert Opens(run[1..][i - 1], rid);
      }
    }
  }

  lemma UnfinishedAre(run: seq<M.Action>, rid: RequestId)
    ensures rid in Unfinished(run) <==> Arrives(run, rid) && M.NeverPops(run, rid)
  {
    ArrivesAt(run, rid);
  }

  lemma CarriedMarks(cfg: Config, rs: seq<Record>, log: seq<Record>, key: (V.TraceKey, nat), mark: V.Mark)
    requires Carries(cfg, rs, log) && AllBare(log)
    ensures V.HasMark(V.OfRequests, rs, key, mark) <==> key.0 == Some(cfg.trace) && Marks(log, key.1, mark)
  {
    if V.HasMark(V.OfRequests, rs, key, mark) {
      var r :| r in rs && r.trace == key.0 && V.Marked(V.OfRequests, r) == Some((key.1, mark));
      assert IsStamped(cfg, log, r);
      var o :| o in log && r == Stamp(cfg, o);
      assert V.Marked(V.OfRequests, o) == Some((key.1, mark));
    }
    if key.0 == Some(cfg.trace) && Marks(log, key.1, mark) {
      var o :| o in log && V.Marked(V.OfRequests, o) == Some((key.1, mark));
      assert IsStamped(cfg, log, Stamp(cfg, o));
      assert Stamp(cfg, o) in rs;
    }
  }

  /**
   Requests end to end: under the premises of a complete trace, the orphan requests
   that the validator finds on file are exactly those that arrived and that no probe
   finished or aborted.
   */
  lemma OrphanRequestsOnFile(cfg: Config, codec: Codec, run: seq<C.Step>, rotateBytes: int, actions: seq<M.Action>)
    requires C.IsRun(cfg, C.Init(), run) && E.Complete(cfg, codec, run)
    requires M.IsRun(M.Init(), actions) && Feeds(run, M.Final(M.Init(), actions).log)
    ensures V.Orphans(V.OfRequests, E.OnFile(cfg, codec, run, rotateBytes)) == J.Keyed(cfg.trace, Unfinished(actions))
  {
    var rs, log := E.OnFile(cfg, codec, run, rotateBytes), M.Final(M.Init(), actions).log;
    FileCarries(cfg, codec, run, rotateBytes, log);
    forall key: (V.TraceKey, nat)
      ensures key in V.Orphans(V.OfRequests, rs) <==> key in J.Keyed(cfg.trace, Unfinished(actions))
    {
      V.OrphansAreExactly(V.OfRequests, rs, key);
      RunMarks(M.Init(), actions, key.1);
      CarriedMarks(cfg, rs, log, key, V.Opening);
      CarriedMarks(cfg, rs, log, key, V.Closing);
      UnfinishedAre(actions, key.1);
      assert key == (key.0, key.1);
    }
  }

  lemma KeyedNone(trace: nat, ids: set<nat>)
    ensures J.Keyed(trace, ids) == {} <==> ids == {}
  {
    if id :| id in ids {
      assert (Some(trace), id) in J.Keyed(trace, ids);
    }
  }

  /**
   The strict verdict: the validator lets the files of a complete run pass, strict or
   with schemas, if and only if no transfer is live and every request that arrived was
   finished or aborted.
   */
  lemma StrictPassesExactly(cfg: Config, codec: Codec, run: seq<C.Step>, rotateBytes: int, actions: seq<M.Action>,
                            useSchema: bool)
    requires C.IsRun(cfg, C.Init(), run) && E.Complete(cfg, codec, run) && E.OffersProper(run)
    requires M.IsRun(M.Init(), actions) && Feeds(run, M.Final(M.Init(), actions).log)
    ensures V.Passes(E.FilesOf(cfg, codec, run, rotateBytes), useSchema, true) <==>
            C.Final(cfg, C.Init(), run).t.pipe.em.live == map[] && Unfinished(actions) == {}
  {
    var live := C.Final(cfg, C.Init(), run).t.pipe.em.live;
    E.FilesAreSound(cfg, codec, run, rotateBytes, useSchema);
    E.OrphansOnFileAreLive(cfg, codec, run, rotateBytes);
    OrphanRequestsOnFile(cfg, codec, run, rotateBytes, actions);
    KeyedNone(cfg.trace, live.Keys);
    KeyedNone(cfg.trace, Unfinished(actions));
    assert live == map[] <==> live.Keys == {};
  }

  /** The request and token records on file carry the envelope of this process. */
  lemma RequestEnvelopeOnFile(cfg: Config, codec: Codec, run: seq<C.Step>, rotateBytes: int, actions: seq<M.Action>)
    requires C.IsRun(cfg, C.Init(), run) && E.Complete(cfg, codec, run)
    requires M.IsRun(M.Init(), actions) && Feeds(run, M.Final(M.Init(), actions).log)
    ensures forall r :: r in E.OnFile(cfg, codec, run, rotateBytes) && Probed(r) ==> E.IsAddressed(cfg, r)
  {
    var rs, log := E.OnFile(cfg, codec, run, rotateBytes), M.Final(M.Init(), actions).log;
    FileCarries(cfg, codec, run, rotateBytes, log);
    RunMarks(M.Init(), actions, 0);
    forall r | r in rs && Probed(r)
      ensures E.IsAddressed(cfg, r)
    {
      assert IsStamped(cfg, log, r);
      var o :| o in log && r == Stamp(cfg, o);
      assert IsBare(o);
    }
  }

  // --------------------------------------------------------------- lifecycle rows

  /** A record without its envelope. */
  function Body(r: Record): Record {
    r.(v := None, trace := None, node := None, worker := None)
  }

  function Bodies(rs: seq<Record>): (r: seq<Record>)
    ensures |r| == |rs| && forall i :: 0 <= i < |r| ==> r[i] == Body(rs[i])
  {
    seq(|rs|, i requires 0 <= i < |rs| => Body(rs[i]))
  }

  lemma {:induction false} FirstTsOfBodies(rs: seq<Record>, subtype: Subtype)
    ensures Q.FirstTs(Bodies(rs), subtype) == Q.FirstTs(rs, subtype)
    decreases |rs|
  {
    if rs == [] {
    } else {
      FirstTsOfBodies(rs[..|rs| - 1], subtype);
      assert Bodies(rs)[..|rs| - 1] == Bodies(rs[..|rs| - 1]);
    }
  }

  lemma {:induction false} FirstValueOfBodies(rs: seq<Record>, col: Q.Column, subtype: Subtype)
    ensures Q.FirstValue(Bodies(rs), col, subtype) == Q.FirstValue(rs, col, subtype)
    decreases |rs|
  {
    if rs == [] {
    } else {
      FirstValueOfBodies(rs[1..], col, subtype);
      assert Bodies(rs)[1..] == Bodies(rs[1..]);
    }
  }

  lemma {:induction false} TokensOfBodies(rs: seq<Record>, request: Option<RequestId>)
    ensures Q.TokensOf(Bodies(rs), request) == Bodies(Q.TokensOf(rs, request))
    decreases |rs|
  {
    if rs == [] {
    } else {
      TokensOfBodies(rs[..|rs| - 1], request);
      assert Bodies(rs)[..|rs| - 1] == Bodies(rs[..|rs| - 1]);
    }
  }

  /** The row does not depend on the envelopes. */
  lemma LifecycleOfBodies(request: Option<RequestId>, group: seq<Record>, tokens: seq<Record>)
    ensures Q.Lifecycle(request, Bodies(group), Bodies(tokens)) == Q.Lifecycle(request, group, tokens)
  {
    hide Q.FirstTs;
    hide Q.FirstValue;
    hide Q.TokensOf;
    forall subtype
      ensures Q.FirstTs(Bodies(group), subtype) == Q.FirstTs(group, subtype)
    {
      FirstTsOfBodies(group, subtype);
    }
    forall col, subtype
      ensures Q.FirstValue(Bodies(group), col, subtype) == Q.FirstValue(group, col, subtype)
    {
      FirstValueOfBodies(group, col, subtype);
    }
    TokensOfBodies(tokens, request);
    FirstTsOfBodies(Q.TokensOf(tokens, request), FirstToken);
  }

  /** One of the tables that the records are sorted into. */
  function Table(rs: seq<Record>, kind: Kind): seq<Record> {
    if rs == [] then []
    else Table(rs[..|rs| - 1], kind) + (if rs[|rs| - 1].kind == Some(kind) then [rs[|rs| - 1]] else [])
  }

  lemma {:induction false} TableHolds(rs: seq<Record>, kind: Kind)
    ensures forall r :: r in Table(rs, kind) <==> r in rs && r.kind == Some(kind)
    decreases |rs|
  {
    if rs == [] {
    } else {
      TableHolds(rs[..|rs| - 1], kind);
      assert rs == rs[..|rs| - 1] + [rs[|rs| - 1]];
    }
  }

  lemma {:induction false} GroupHolds(rs: seq<Record>, request: Option<RequestId>)
    ensures forall r :: r in Q.Group(rs, request) <==> r in rs && r.request == request
    decreases |rs|
  {
    if rs == [] {
    } else {
      GroupHolds(rs[..|rs| - 1], request);
      assert rs == rs[..|rs| - 1] + [rs[|rs| - 1]];
    }
  }

  /** The bodies of the carried records of some kind are the log's records of that kind. */
  lemma CarriedBodies(cfg: Config, rs: seq<Record>, log: seq<Record>, rows: seq<Record>, own: Record -> bool)
    requires Carries(cfg, rs, log) && AllBare(log)
    requires forall r :: own(r) ==> Probed(r)
    requires forall r :: own(Body(r)) <==> own(r)
    requires forall r :: r in rows <==> r in rs && own(r)
    ensures forall r :: r in Bodies(rows) <==> r in log && own(r)
  {
    forall r
      ensures r in Bodies(rows) <==> r in log && own(r)
    {
      if r in Bodies(rows) {
        var i :| 0 <= i < |rows| && Bodies(rows)[i] == r;
        assert rows[i] in rows;
        assert IsStamped(cfg, log, rows[i]);
        var o :| o in log && rows[i] == Stamp(cfg, o);
        assert Body(rows[i]) == o;
      }
      if r in log && own(r) {
        var f := Stamp(cfg, r);
        assert Body(f) == r && own(f);
        assert IsStamped(cfg, log, f);
        assert f in rows;
        var i :| 0 <= i < |rows| && rows[i] == f;
        assert Bodies(rows)[i] == r;
      }
    }
  }

  lemma SortedBodies(rs: seq<Record>)
    requires Q.Sorted(rs)
    ensures Q.Sorted(Bodies(rs))
  {
    forall i, j | 0 <= i < j < |rs|
      ensures Q.Ordered(Bodies(rs)[i], Bodies(rs)[j])
    {
      assert Q.Ordered(rs[i], rs[j]);
    }
  }

  /** The tables of the file, without the envelopes, are a loading of the log. */
  lemma FileIsLoaded(cfg: Config, rs: seq<Record>, log: seq<Record>, rid: RequestId)
    requires Carries(cfg, rs, log) && AllBare(log)
    ensures L.Loaded(log, rid, Bodies(Q.SortByTs(Q.Group(Table(rs, Request), Some(rid)))), Bodies(Table(rs, Token)))
  {
    var own := Q.Group(Table(rs, Request), Some(rid));
    var group := Q.SortByTs(own);
    TableHolds(rs, Request);
    TableHolds(rs, Token);
    GroupHolds(Table(rs, Request), Some(rid));
    Q.SortByTsSorts(own);
    SortedBodies(group);
    forall r
      ensures r in group <==> r in rs && L.IsRow(r, rid)
    {
      assert r in multiset(group) <==> r in multiset(own);
    }
    CarriedBodies(cfg, rs, log, group, (r: Record) => L.IsRow(r, rid));
    CarriedBodies(cfg, rs, log, Table(rs, Token), (r: Record) => r.kind == Some(Token));
  }

  /** A life after some run of the probes: everything that has happened by its end. */
  ghost predicate Follows(l: L.Life, earlier: seq<M.Action>) {
    M.IsRun(M.Init(), earlier) && l.before == M.Final(M.Init(), earlier) && L.Lived(l)
  }

  lemma LifeIsBare(l: L.Life, earlier: seq<M.Action>)
    requires Follows(l, earlier)
    ensures AllBare(L.WholeLog(l))
  {
    RunMarks(M.Init(), earlier, l.rid);
    StepMarks(l.before, M.Arrive(l.rid, l.arrival), l.rid);
    RunMarks(L.Arrived(l), l.mid, l.rid);
    StepMarks(M.Final(L.Arrived(l), l.mid), l.last, l.rid);
    RunMarks(L.Ended(l), l.after, l.rid);
  }

  /** The row that the lifecycle table has for the request. */
  ghost function RowOnFile(rs: seq<Record>, rid: RequestId): Q.Row {
    Q.SortedRow(Table(rs, Request), Table(rs, Token), Some(rid))
  }

  /**
   From probes to rows: under the premises of a complete trace, the row that the
   lifecycle table rebuilds from the files for a request agrees, column by column,
   with what the tracker held when the request was popped exactly when it does in
   memory; with the stamps in order, if and only if nothing unknown came later.
   */
  lemma RowOnFileAgrees(cfg: Config, codec: Codec, run: seq<C.Step>, rotateBytes: int,
                        earlier: seq<M.Action>, l: L.Life)
    requires C.IsRun(cfg, C.Init(), run) && E.Complete(cfg, codec, run)
    requires Follows(l, earlier) && Feeds(run, L.WholeLog(l))
    ensures var q, row := L.AtPop(l), RowOnFile(E.OnFile(cfg, codec, run, rotateBytes), l.rid);
      && row.request == Some(l.rid) && row.arrival == q.arrival
      && (row.firstSchedule == q.firstSchedule <==> L.ScheduleKept(l))
      && (row.firstToken == q.firstToken <==> L.TokenKept(l))
      && (row.ttft == M.Ttft(q.arrival, q.firstToken) <==> L.TokenKept(l) && L.StampsUsable(l))
      && (row.tpot == L.RecordedTpot(q, l.last) <==> L.Completed(l) || L.RecordedTpot(q, l.last).None?)
      && row.status == (if L.Completed(l) then Q.FinishedOk else Q.WasAborted)
      && (L.InOrder(l) ==>
            (row.firstSchedule == q.firstSchedule && row.firstToken == q.firstToken <==> L.NothingLate(l)))
  {
    var rs := E.OnFile(cfg, codec, run, rotateBytes);
    var group, tokens := Q.SortByTs(Q.Group(Table(rs, Request), Some(l.rid))), Table(rs, Token);
    FileCarries(cfg, codec, run, rotateBytes, L.WholeLog(l));
    LifeIsBare(l, earlier);
    FileIsLoaded(cfg, rs, L.WholeLog(l), l.rid);
    LifecycleOfBodies(Some(l.rid), group, tokens);
    L.RebuiltRow(l, Bodies(group), Bodies(tokens));
    L.AgreementExactly(l, Bodies(group), Bodies(tokens));
    if L.InOrder(l) {
      L.OfflineRowIsTrackerEntry(l, Bodies(group), Bodies(tokens));
    }
  }
}
