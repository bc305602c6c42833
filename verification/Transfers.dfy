/**
 Any number of threads calling `transfer_start` and `transfer_end`, interleaved
 with each other and with the flusher.  A start is two atomic steps (enqueue, then
 register the id as live); an end is two as well (take the id off the live map,
 then enqueue).  Ids may be ended by any thread, any number of times.  A thread
 reads its stamp before it reaches its ring, so the records of different ids are
 enqueued in any order of their stamps.
 */
module Transfers {
  import opened Records
  import opened EmitterModel
  import opened Streams
  import P = Pipeline

  /** Where one transfer id stands. */
  datatype Phase =
    | SampledAway
    | Starting(th: Thread)
    | Live
    | Ending(th: Thread, cancelled: bool)
    | Ended(recorded: bool, cancelled: bool, request: Option<RequestId>, ts: int)   // recorded: a ring accepted it

  datatype Ticket = Ticket(
    phase: Phase, meta: Meta, request: Option<RequestId>, startTs: int, startRecorded: bool)

  /** What a thread is in the middle of. */
  datatype Call =
    | Idle
    | Registering(tid: TransferId, meta: Meta)
    | Terminating(tid: TransferId, meta: Meta, cancelled: bool)

  datatype State = State(
    pipe: P.State, calls: map<Thread, Call>, issued: map<TransferId, Ticket>)

  datatype Step =
    | Begin(th: Thread, tid: TransferId, meta: Meta, request: Option<RequestId>, sampled: bool, ts: int)
    | FinishBegin(th: Thread)
    | BeginEnd(th: Thread, tid: TransferId, cancelled: bool)
    | FinishEnd(th: Thread, request: Option<RequestId>, ts: int)
    | Event(th: Thread, rec: Record)        // any record that is not a transfer
    | Flush(step: P.Step)

  function Init(): State {
    State(P.Init(), map[], map[])
  }

  function CallOf(s: State, th: Thread): Call {
    if th in s.calls then s.calls[th] else Idle
  }

  /** The clock does not run backwards, so the end of an id is stamped no earlier than its start. */
  predicate StartedBy(s: State, tid: TransferId, ts: int) {
    tid in s.issued ==> s.issued[tid].startTs <= ts
  }

  predicate Enabled(s: State, step: Step) {
    match step
    case Begin(th, tid, _, _, _, _) =>
      CallOf(s, th).Idle? && tid !in s.issued && !s.pipe.stopping
    case FinishBegin(th) => CallOf(s, th).Registering?
    case BeginEnd(th, _, _) => CallOf(s, th).Idle?
    case FinishEnd(th, _, ts) =>
      CallOf(s, th).Terminating? && StartedBy(s, CallOf(s, th).tid, ts) && !s.pipe.stopping
    case Event(_, rec) => !IsTransfer(rec) && !s.pipe.stopping
    case Flush(p) => !p.Put? && !p.Register? && !p.Unregister? && P.Enabled(s.pipe, p)
  }

  function SetPhase(s: State, tid: TransferId, phase: Phase): State {
    if tid in s.issued then s.(issued := s.issued[tid := s.issued[tid].(phase := phase)]) else s
  }

  function SetCall(s: State, th: Thread, call: Call): State {
    s.(calls := s.calls[th := call])
  }

  predicate ThreadAgrees(s: State, th: Thread) {
    match CallOf(s, th)
    case Idle => true
    case Registering(tid, meta) =>
      tid in s.issued && s.issued[tid].phase == Starting(th) && s.issued[tid].meta == meta
    case Terminating(tid, meta, cancelled) =>
      tid in s.issued && s.issued[tid].phase == Ending(th, cancelled) && s.issued[tid].meta == meta
  }

  predicate TicketAgrees(s: State, tid: TransferId) {
    tid in s.issued ==>
      match s.issued[tid].phase
      case Starting(th) => CallOf(s, th).Registering? && CallOf(s, th).tid == tid
      case Ending(th, _) => CallOf(s, th).Terminating? && CallOf(s, th).tid == tid
      case _ => true
  }

  ghost predicate CallsAreIssued(s: State) {
    && (forall th: Thread :: ThreadAgrees(s, th))
    && (forall tid: TransferId :: TicketAgrees(s, tid))
  }

  ghost predicate LiveIsIssued(s: State) {
    && (forall tid :: tid in s.pipe.em.live <==> tid in s.issued && s.issued[tid].phase.Live?)
    && (forall tid :: tid in s.pipe.em.live ==> s.pipe.em.live[tid] == s.issued[tid].meta)
  }

  function Next(cfg: Config, s: State, step: Step): State
    requires Enabled(s, step)
  {
    match step
    case Begin(th, tid, meta, request, sampled, ts) =>
      if !sampled then s.(issued := s.issued[tid := Ticket(SampledAway, meta, request, ts, false)])
      else
        SetCall(s, th, Registering(tid, meta))
          .(issued := s.issued[tid := Ticket(Starting(th), meta, request, ts, HasRoom(cfg, s.pipe.em, th))],
            pipe := P.Next(cfg, s.pipe, P.Put(th, Stamp(cfg, StartRecord(tid, meta, request, ts)))))
    case FinishBegin(th) =>
      var c := CallOf(s, th);
      SetCall(SetPhase(s, c.tid, Live), th, Idle)
        .(pipe := P.Next(cfg, s.pipe, P.Register(c.tid, c.meta)))
    case BeginEnd(th, tid, cancelled) =>
      if tid !in s.pipe.em.live then s
      else
        SetCall(SetPhase(s, tid, Ending(th, cancelled)), th, Terminating(tid, s.pipe.em.live[tid], cancelled))
          .(pipe := P.Next(cfg, s.pipe, P.Unregister(tid)))
    case FinishEnd(th, request, ts) =>
      var c := CallOf(s, th);
      SetCall(SetPhase(s, c.tid, Ended(HasRoom(cfg, s.pipe.em, th), c.cancelled, request, ts)), th, Idle)
        .(pipe := P.Next(cfg, s.pipe, P.Put(th, Stamp(cfg, EndRecord(c.tid, c.meta, request, ts, c.cancelled)))))
    case Event(th, rec) => s.(pipe := P.Next(cfg, s.pipe, P.Put(th, Stamp(cfg, rec))))
    case Flush(p) => s.(pipe := P.Next(cfg, s.pipe, p))
  }

  // ---------------------------------------------------------------- invariant

  function Recs(items: seq<P.Item>): (rs: seq<Record>)
    ensures |rs| == |items| && forall i :: 0 <= i < |rs| ==> rs[i] == items[i].rec
  {
    seq(|items|, i requires 0 <= i < |items| => items[i].rec)
  }

  /** Every record some ring accepted, in the order of acceptance. */
  function Enqueued(s: State): seq<Record> {
    Recs(P.Items(s.pipe.accepted))
  }

  /** A start record says what the call was given. */
  predicate SaysStart(r: Record, t: Ticket) {
    r.ts == Some(t.startTs) && r.detail == Move(t.meta) && r.request == t.request
  }

  /** A terminal record says whether the end was a cancel, and carries the start's classification. */
  predicate SaysEnd(r: Record, t: Ticket) {
    && t.phase.Ended? && r.ts == Some(t.phase.ts) && t.startTs <= t.phase.ts
    && r.detail == Move(t.meta) && r.request == t.phase.request
    && r.subtype == Some(if t.phase.cancelled then Cancel else End)
  }

  /** What the stream holds about an id is what its ticket says. */
  ghost predicate Shows(rs: seq<Record>, tid: TransferId, t: Ticket) {
    && (t.phase.SampledAway? ==> !t.startRecorded)
    && CountOpens(rs, tid) == (if t.startRecorded then 1 else 0)
    && CountCloses(rs, tid) == (if t.phase.Ended? && t.phase.recorded then 1 else 0)
    && (forall r :: r in rs && Opens(r, tid) ==> SaysStart(r, t))
    && (forall r :: r in rs && Closes(r, tid) ==> SaysEnd(r, t))
  }

  /** What the enqueued stream holds about one id. */
  ghost predicate StreamAgrees(s: State, tid: TransferId) {
    var rs := Enqueued(s);
    if tid in s.issued then Shows(rs, tid, s.issued[tid]) else CountOpens(rs, tid) == 0 && CountCloses(rs, tid) == 0
  }

  /** Ids whose terminal record was refused. */
  function LostEnds(s: State): set<TransferId> {
    set tid | tid in s.issued && s.issued[tid].phase.Ended? && !s.issued[tid].phase.recorded
  }

  function LostStarts(s: State): set<TransferId> {
    set tid | tid in s.issued && !s.issued[tid].phase.SampledAway? && !s.issued[tid].startRecorded
  }

  ghost predicate Inv(s: State) {
    && P.Inv(s.pipe) && CallsAreIssued(s) && LiveIsIssued(s)
    && (forall tid: TransferId :: StreamAgrees(s, tid))
    && |LostEnds(s)| + |LostStarts(s)| <= s.pipe.em.refused
  }

  lemma InitInv()
    ensures Inv(Init())
  {
  }

  lemma EnqueuedGrows(cfg: Config, s: P.State, th: Thread, rec: Record)
    requires P.Enabled(s, P.Put(th, rec))
    ensures var s' := P.Next(cfg, s, P.Put(th, rec));
      Recs(P.Items(s'.accepted)) == Recs(P.Items(s.accepted)) + (if HasRoom(cfg, s.em, th) then [rec] else [])
  {
  }

  /** The record a step offers to a ring, if it offers one. */
  function Offered(s: State, step: Step): Option<(Thread, Record)>
    requires Enabled(s, step)
  {
    match step
    case Begin(th, tid, meta, request, sampled, ts) =>
      if sampled then Some((th, StartRecord(tid, meta, request, ts))) else None
    case FinishEnd(th, request, ts) =>
      var c := CallOf(s, th);
      Some((th, EndRecord(c.tid, c.meta, request, ts, c.cancelled)))
    case Event(th, rec) => Some((th, rec))
    case _ => None
  }

  lemma OfferedIsEnqueued(cfg: Config, s: State, step: Step)
    requires Enabled(s, step)
    ensures var o := Offered(s, step);
      Enqueued(Next(cfg, s, step)) ==
        if o.Some? && HasRoom(cfg, s.pipe.em, o.value.0) then Enqueued(s) + [Stamp(cfg, o.value.1)] else Enqueued(s)
  {
    if Offered(s, step).Some? {
      EnqueuedGrows(cfg, s.pipe, Offered(s, step).value.0, Stamp(cfg, Offered(s, step).value.1));
    }
  }

  lemma NoneSeen(rs: seq<Record>, tid: TransferId)
    requires CountOpens(rs, tid) == 0 && CountCloses(rs, tid) == 0
    ensures forall r :: r in rs ==> !Opens(r, tid) && !Closes(r, tid)
  {
  }

  /** A step that no ring accepts a record from leaves the stream's account as it was. */
  lemma StreamKeepsQuietly(cfg: Config, s: State, step: Step, tid: TransferId)
    requires Enabled(s, step) && LiveIsIssued(s) && CallsAreIssued(s) && StreamAgrees(s, tid)
    requires Offered(s, step).Some? ==> !HasRoom(cfg, s.pipe.em, Offered(s, step).value.0)
    ensures StreamAgrees(Next(cfg, s, step), tid)
  {
    OnlyTheMoverMoves(cfg, s, step);
    OfferedIsEnqueued(cfg, s, step);
    if Mover(s, step).Some? {
      assert ThreadAgrees(s, Mover(s, step).value.0);
    }
    if tid !in s.issued {
      NoneSeen(Enqueued(s), tid);
    }
  }

  lemma MembersAppend(rs: seq<Record>, rec: Record)
    ensures forall r :: r in rs + [rec] <==> r in rs || r == rec
  {
  }

  lemma StampKeeps(cfg: Config, rec: Record)
    ensures var r := Stamp(cfg, rec);
      && r.kind == rec.kind && r.subtype == rec.subtype && r.transfer == rec.transfer && r.ts == rec.ts
      && r.detail == rec.detail && r.request == rec.request
  {
  }

  /** A record about another id leaves an id's part of the stream alone. */
  lemma OtherRecord(rs: seq<Record>, rec: Record, tid: TransferId)
    requires !Opens(rec, tid) && !Closes(rec, tid)
    ensures CountOpens(rs + [rec], tid) == CountOpens(rs, tid) && CountCloses(rs + [rec], tid) == CountCloses(rs, tid)
    ensures forall r :: Opens(r, tid) ==> (r in rs + [rec] <==> r in rs)
    ensures forall r :: Closes(r, tid) ==> (r in rs + [rec] <==> r in rs)
  {
  }

  /** The first record about an id is its start. */
  lemma FirstRecord(cfg: Config, rs: seq<Record>, tid: TransferId, meta: Meta, request: Option<RequestId>, ts: int)
    requires CountOpens(rs, tid) == 0 && CountCloses(rs, tid) == 0
    ensures var rec := Stamp(cfg, StartRecord(tid, meta, request, ts));
      && CountOpens(rs + [rec], tid) == 1 && CountCloses(rs + [rec], tid) == 0
      && (forall r :: r in rs + [rec] ==> !Closes(r, tid))
      && (forall r :: r in rs + [rec] && Opens(r, tid) ==>
            r.ts == Some(ts) && r.detail == Move(meta) && r.request == request)
  {
    var rec := Stamp(cfg, StartRecord(tid, meta, request, ts));
    NoneSeen(rs, tid);
    CountsAppend(rs, rec, tid);
    MembersAppend(rs, rec);
  }

  /** The terminal record of an id is a cancel exactly if the end was one. */
  lemma LastRecord(cfg: Config, rs: seq<Record>, tid: TransferId, t: Ticket, request: Option<RequestId>, ts: int)
    requires Shows(rs, tid, t) && t.phase.Ending? && t.startTs <= ts
    ensures var rec := Stamp(cfg, EndRecord(tid, t.meta, request, ts, t.phase.cancelled));
      Shows(rs + [rec], tid, t.(phase := Ended(true, t.phase.cancelled, request, ts)))
  {
    var end := EndRecord(tid, t.meta, request, ts, t.phase.cancelled);
    CountsArePositive(rs, tid);
    CountsAppend(rs, Stamp(cfg, end), tid);
    MembersAppend(rs, Stamp(cfg, end));
    StampKeeps(cfg, end);
  }

  lemma BeginGrowsStream(cfg: Config, s: State, step: Step, tid: TransferId)
    requires Enabled(s, step) && StreamAgrees(s, tid)
    requires step.Begin? && step.sampled && HasRoom(cfg, s.pipe.em, step.th)
    ensures StreamAgrees(Next(cfg, s, step), tid)
  {
    OfferedIsEnqueued(cfg, s, step);
    if tid == step.tid {
      FirstRecord(cfg, Enqueued(s), tid, step.meta, step.request, step.ts);
    } else {
      OtherRecord(Enqueued(s), Stamp(cfg, StartRecord(step.tid, step.meta, step.request, step.ts)), tid);
    }
  }

  lemma EndGrowsStream(cfg: Config, s: State, step: Step, tid: TransferId)
    requires Enabled(s, step) && CallsAreIssued(s) && StreamAgrees(s, tid)
    requires step.FinishEnd? && HasRoom(cfg, s.pipe.em, step.th)
    ensures StreamAgrees(Next(cfg, s, step), tid)
  {
    var c := CallOf(s, step.th);
    assert ThreadAgrees(s, step.th);
    OfferedIsEnqueued(cfg, s, step);
    if tid == c.tid {
      LastRecord(cfg, Enqueued(s), tid, s.issued[tid], step.request, step.ts);
    } else {
      assert tid in s.issued ==> Next(cfg, s, step).issued[tid] == s.issued[tid];
      OtherRecord(Enqueued(s), Stamp(cfg, EndRecord(c.tid, c.meta, step.request, step.ts, c.cancelled)), tid);
    }
  }

  lemma EventGrowsStream(cfg: Config, s: State, step: Step, tid: TransferId)
    requires Enabled(s, step) && StreamAgrees(s, tid)
    requires step.Event? && HasRoom(cfg, s.pipe.em, step.th)
    ensures StreamAgrees(Next(cfg, s, step), tid)
  {
    var rs, rec := Enqueued(s), Stamp(cfg, step.rec);
    OfferedIsEnqueued(cfg, s, step);
    StampKeeps(cfg, step.rec);
    OtherRecord(rs, rec, tid);
  }

  lemma StreamKeeps(cfg: Config, s: State, step: Step, tid: TransferId)
    requires Enabled(s, step) && LiveIsIssued(s) && CallsAreIssued(s) && StreamAgrees(s, tid)
    ensures StreamAgrees(Next(cfg, s, step), tid)
  {
    var o := Offered(s, step);
    if o.Some? && HasRoom(cfg, s.pipe.em, o.value.0) {
      if step.Begin? {
        BeginGrowsStream(cfg, s, step, tid);
      } else if step.FinishEnd? {
        EndGrowsStream(cfg, s, step, tid);
      } else {
        EventGrowsStream(cfg, s, step, tid);
      }
    } else {
      StreamKeepsQuietly(cfg, s, step, tid);
    }
  }

  /** The thread that takes a step, and the id that the step moves. */
  function Mover(s: State, step: Step): Option<(Thread, TransferId)>
    requires Enabled(s, step)
  {
    match step
    case Begin(th, tid, _, _, _, _) => Some((th, tid))
    case FinishBegin(th) => Some((th, CallOf(s, th).tid))
    case BeginEnd(th, tid, _) => if tid in s.pipe.em.live then Some((th, tid)) else None
    case FinishEnd(th, _, _) => Some((th, CallOf(s, th).tid))
    case _ => None
  }

  lemma OnlyTheMoverMoves(cfg: Config, s: State, step: Step)
    requires Enabled(s, step) && LiveIsIssued(s) && CallsAreIssued(s)
    ensures var s', m := Next(cfg, s, step), Mover(s, step);
      && (forall th: Thread :: m.None? || th != m.value.0 ==> CallOf(s', th) == CallOf(s, th))
      && (forall tid: TransferId :: m.None? || tid != m.value.1 ==>
            (tid in s'.issued <==> tid in s.issued) && (tid in s.issued ==> s'.issued[tid] == s.issued[tid]))
      && (m.Some? ==> ThreadAgrees(s', m.value.0) && TicketAgrees(s', m.value.1))
  {
    if Mover(s, step).Some? {
      assert ThreadAgrees(s, Mover(s, step).value.0);
    }
  }

  lemma CallsKeep(cfg: Config, s: State, step: Step)
    requires Enabled(s, step) && LiveIsIssued(s) && CallsAreIssued(s)
    ensures CallsAreIssued(Next(cfg, s, step))
  {
    var s', m := Next(cfg, s, step), Mover(s, step);
    OnlyTheMoverMoves(cfg, s, step);
    forall th: Thread
      ensures ThreadAgrees(s', th)
    {
      assert ThreadAgrees(s, th);
      if m.Some? {
        assert ThreadAgrees(s, m.value.0) && TicketAgrees(s, m.value.1);
      }
    }
    forall tid: TransferId
      ensures TicketAgrees(s', tid)
    {
      assert TicketAgrees(s, tid);
      if m.Some? {
        assert ThreadAgrees(s, m.value.0) && TicketAgrees(s, m.value.1);
      }
    }
  }

  /** The live map gains an id when a start finishes and loses one when an end begins. */
  lemma LiveMoves(cfg: Config, s: State, step: Step)
    requires Enabled(s, step)
    ensures Next(cfg, s, step).pipe.em.live ==
      match step
      case FinishBegin(th) => s.pipe.em.live[CallOf(s, th).tid := CallOf(s, th).meta]
      case BeginEnd(_, tid, _) => s.pipe.em.live - {tid}
      case _ => s.pipe.em.live
  {
  }

  lemma LiveKeeps(cfg: Config, s: State, step: Step)
    requires Enabled(s, step) && LiveIsIssued(s) && CallsAreIssued(s)
    ensures LiveIsIssued(Next(cfg, s, step))
  {
    var s', m := Next(cfg, s, step), Mover(s, step);
    OnlyTheMoverMoves(cfg, s, step);
    LiveMoves(cfg, s, step);
    if m.Some? {
      assert ThreadAgrees(s, m.value.0);
    }
    forall tid: TransferId
      ensures tid in s'.pipe.em.live <==> tid in s'.issued && s'.issued[tid].phase.Live?
      ensures tid in s'.pipe.em.live ==> s'.pipe.em.live[tid] == s'.issued[tid].meta
    {
    }
  }

  lemma RefusedGrows(cfg: Config, s: State, step: Step)
    requires Enabled(s, step)
    ensures Next(cfg, s, step).pipe.em.refused >=
            s.pipe.em.refused + (if LosesEnd(cfg, s, step) || LosesStart(cfg, s, step) then 1 else 0)
  {
  }

  lemma LossesMove(cfg: Config, s: State, step: Step)
    requires Enabled(s, step) && LiveIsIssued(s) && CallsAreIssued(s)
    ensures var s', m := Next(cfg, s, step), Mover(s, step);
      && LostEnds(s') <= LostEnds(s) + (if LosesEnd(cfg, s, step) then {m.value.1} else {})
      && LostStarts(s') <= LostStarts(s) + (if LosesStart(cfg, s, step) then {m.value.1} else {})
  {
    var s', m := Next(cfg, s, step), Mover(s, step);
    OnlyTheMoverMoves(cfg, s, step);
    if m.Some? {
      assert ThreadAgrees(s, m.value.0);
      MovedTicket(cfg, s, step);
    }
  }

  /** What happens to the ticket that a step moves. */
  lemma MovedTicket(cfg: Config, s: State, step: Step)
    requires Enabled(s, step) && LiveIsIssued(s) && CallsAreIssued(s) && Mover(s, step).Some?
    ensures var s', tid := Next(cfg, s, step), Mover(s, step).value.1;
      && tid in s'.issued
      && (s'.issued[tid].phase.Ended? && !s'.issued[tid].phase.recorded ==> LosesEnd(cfg, s, step))
      && (step.Begin? || (tid in s.issued && s'.issued[tid] == s.issued[tid].(phase := s'.issued[tid].phase)
                          && !s.issued[tid].phase.SampledAway?))
      && (step.Begin? && step.sampled && !s'.issued[tid].startRecorded ==> LosesStart(cfg, s, step))
      && (step.Begin? && !step.sampled ==> s'.issued[tid].phase.SampledAway?)
  {
    assert ThreadAgrees(s, Mover(s, step).value.0);
  }

  predicate LosesEnd(cfg: Config, s: State, step: Step) {
    step.FinishEnd? && Enabled(s, step) && !HasRoom(cfg, s.pipe.em, step.th)
  }

  predicate LosesStart(cfg: Config, s: State, step: Step) {
    step.Begin? && Enabled(s, step) && step.sampled && !HasRoom(cfg, s.pipe.em, step.th)
  }

  lemma SizeBound<T>(a: set<T>, b: set<T>)
    requires a <= b
    ensures |a| <= |b|
  {
    if a != {} {
      var x :| x in a;
      SizeBound(a - {x}, b - {x});
    }
  }

  lemma LossesKeep(cfg: Config, s: State, step: Step)
    requires Enabled(s, step) && LiveIsIssued(s) && CallsAreIssued(s)
    requires |LostEnds(s)| + |LostStarts(s)| <= s.pipe.em.refused
    ensures var s' := Next(cfg, s, step); |LostEnds(s')| + |LostStarts(s')| <= s'.pipe.em.refused
  {
    var s', m := Next(cfg, s, step), Mover(s, step);
    LossesMove(cfg, s, step);
    RefusedGrows(cfg, s, step);
    SizeBound(LostEnds(s'), LostEnds(s) + (if LosesEnd(cfg, s, step) then {m.value.1} else {}));
    SizeBound(LostStarts(s'), LostStarts(s) + (if LosesStart(cfg, s, step) then {m.value.1} else {}));
  }

  lemma PipeKeeps(cfg: Config, s: State, step: Step)
    requires Enabled(s, step) && P.Inv(s.pipe)
    ensures P.Inv(Next(cfg, s, step).pipe)
  {
    match step
    case Begin(th, tid, meta, request, sampled, ts) =>
      if sampled { P.StepKeepsInv(cfg, s.pipe, P.Put(th, Stamp(cfg, StartRecord(tid, meta, request, ts)))); }
    case FinishBegin(th) =>
      P.StepKeepsInv(cfg, s.pipe, P.Register(CallOf(s, th).tid, CallOf(s, th).meta));
    case BeginEnd(_, tid, _) => P.StepKeepsInv(cfg, s.pipe, P.Unregister(tid));
    case FinishEnd(th, request, ts) =>
      var c := CallOf(s, th);
      P.StepKeepsInv(cfg, s.pipe, P.Put(th, Stamp(cfg, EndRecord(c.tid, c.meta, request, ts, c.cancelled))));
    case Event(th, rec) => P.StepKeepsInv(cfg, s.pipe, P.Put(th, Stamp(cfg, rec)));
    case Flush(p) => P.StepKeepsInv(cfg, s.pipe, p);
  }

  lemma StepKeepsInv(cfg: Config, s: State, step: Step)
    requires Inv(s) && Enabled(s, step)
    ensures Inv(Next(cfg, s, step))
  {
    PipeKeeps(cfg, s, step);
    CallsKeep(cfg, s, step);
    LiveKeeps(cfg, s, step);
    LossesKeep(cfg, s, step);
    forall tid: TransferId
      ensures StreamAgrees(Next(cfg, s, step), tid)
    {
      StreamKeeps(cfg, s, step, tid);
    }
  }

  // ---------------------------------------------------------------- whole runs

  ghost predicate IsRun(cfg: Config, s: State, run: seq<Step>)
    decreases |run|
  {
    run == [] || (Enabled(s, run[0]) && IsRun(cfg, Next(cfg, s, run[0]), run[1..]))
  }

  ghost function Final(cfg: Config, s: State, run: seq<Step>): State
    requires IsRun(cfg, s, run)
    decreases |run|
  {
    if run == [] then s else Final(cfg, Next(cfg, s, run[0]), run[1..])
  }

  lemma {:induction false} RunKeepsInv(cfg: Config, s: State, run: seq<Step>)
    requires Inv(s) && IsRun(cfg, s, run)
    ensures Inv(Final(cfg, s, run))
    decreases |run|
  {
    if run == [] {
    } else {
      StepKeepsInv(cfg, s, run[0]);
      RunKeepsInv(cfg, Next(cfg, s, run[0]), run[1..]);
    }
  }

  /** Ids some thread is in the middle of starting or ending. */
  function InCalls(s: State): set<TransferId> {
    set tid | tid in s.issued && (s.issued[tid].phase.Starting? || s.issued[tid].phase.Ending?)
  }

  ghost function OpenIds(s: State): set<TransferId> {
    set tid | tid in s.issued && IsOpen(Enqueued(s), tid)
  }

  lemma OpenIsAccountedFor(s: State, tid: TransferId)
    requires Inv(s)
    ensures IsOpen(Enqueued(s), tid) ==> tid in s.issued
    ensures IsOpen(Enqueued(s), tid) ==> tid in s.pipe.em.live || tid in InCalls(s) || tid in LostEnds(s)
    ensures tid in s.pipe.em.live && tid !in LostStarts(s) ==> IsOpen(Enqueued(s), tid)
  {
    assert StreamAgrees(s, tid);
  }

  /** No two records share an opening or a closing, and durations are not negative. */
  lemma EnqueuedIsWellPaired(s: State)
    requires Inv(s)
    ensures WellPaired(Enqueued(s))
  {
    forall tid: TransferId
      ensures CountOpens(Enqueued(s), tid) <= 1 && CountCloses(Enqueued(s), tid) <= 1
    {
      assert StreamAgrees(s, tid);
    }
    forall a, b, tid: TransferId | a in Enqueued(s) && b in Enqueued(s) && Opens(a, tid) && Closes(b, tid)
      ensures a.ts.Some? && b.ts.Some? && a.ts.value <= b.ts.value && a.detail == b.detail
    {
      assert StreamAgrees(s, tid);
      if tid !in s.issued {
        NoneSeen(Enqueued(s), tid);
      }
    }
  }

  /**
   Orphan bound: whatever is sampled, refused or interleaved, the ids with a
   start and no terminal record number at most the live transfers, plus those
   in the middle of a call, plus all refused puts.
   */
  lemma OrphansAreBounded(cfg: Config, run: seq<Step>)
    requires IsRun(cfg, Init(), run)
    ensures var s := Final(cfg, Init(), run);
      && (forall tid :: IsOpen(Enqueued(s), tid) <==> tid in OpenIds(s))
      && |OpenIds(s)| <= |s.pipe.em.live.Keys| + |InCalls(s)| + s.pipe.em.refused
  {
    var s := Final(cfg, Init(), run);
    InitInv();
    RunKeepsInv(cfg, Init(), run);
    forall tid
      ensures IsOpen(Enqueued(s), tid) ==> tid in s.issued
      ensures tid in OpenIds(s) ==> tid in s.pipe.em.live.Keys + InCalls(s) + LostEnds(s)
    {
      OpenIsAccountedFor(s, tid);
    }
    SizeBound(OpenIds(s), s.pipe.em.live.Keys + InCalls(s) + LostEnds(s));
  }

  /** Between calls and with no refusals, the open ids are exactly the live ones. */
  lemma OrphansAreTheLiveTransfers(s: State, tid: TransferId)
    requires Inv(s) && s.pipe.em.refused == 0
    requires forall th: Thread :: CallOf(s, th).Idle?
    ensures IsOpen(Enqueued(s), tid) <==> tid in s.pipe.em.live
  {
    OpenIsAccountedFor(s, tid);
    assert TicketAgrees(s, tid);
  }

  // ------------------------------------------------- ends without their starts

  /** In the run, a sampled start of the id comes when the ring of the starting thread is full. */
  ghost predicate StartRefused(cfg: Config, s: State, run: seq<Step>, tid: TransferId)
    requires IsRun(cfg, s, run)
    decreases |run|
  {
    run != [] && (StartsFull(cfg, s, run[0], tid) || StartRefused(cfg, Next(cfg, s, run[0]), run[1..], tid))
  }

  predicate StartsFull(cfg: Config, s: State, step: Step, tid: TransferId) {
    step.Begin? && step.tid == tid && step.sampled && !HasRoom(cfg, s.pipe.em, step.th)
  }

  /** In the run, an end of the id that is under way comes when the ring of the ending thread has room. */
  ghost predicate EndTaken(cfg: Config, s: State, run: seq<Step>, tid: TransferId)
    requires IsRun(cfg, s, run)
    decreases |run|
  {
    run != [] && (EndsWithRoom(cfg, s, run[0], tid) || EndTaken(cfg, Next(cfg, s, run[0]), run[1..], tid))
  }

  predicate EndsWithRoom(cfg: Config, s: State, step: Step, tid: TransferId) {
    && step.FinishEnd? && CallOf(s, step.th).Terminating? && CallOf(s, step.th).tid == tid
    && HasRoom(cfg, s.pipe.em, step.th)
  }

  predicate HasLostStart(s: State, tid: TransferId) {
    tid in s.issued && !s.issued[tid].phase.SampledAway? && !s.issued[tid].startRecorded
  }

  predicate HasEnded(s: State, tid: TransferId) {
    tid in s.issued && s.issued[tid].phase.Ended? && s.issued[tid].phase.recorded
  }

  lemma TicketSteps(cfg: Config, s: State, step: Step, tid: TransferId)
    requires Enabled(s, step) && LiveIsIssued(s) && CallsAreIssued(s)
    ensures HasLostStart(Next(cfg, s, step), tid) <==> HasLostStart(s, tid) || StartsFull(cfg, s, step, tid)
    ensures HasEnded(Next(cfg, s, step), tid) <==> HasEnded(s, tid) || EndsWithRoom(cfg, s, step, tid)
  {
    OnlyTheMoverMoves(cfg, s, step);
    if Mover(s, step).Some? {
      assert ThreadAgrees(s, Mover(s, step).value.0);
    }
  }

  lemma {:induction false} TicketsFollow(cfg: Config, s: State, run: seq<Step>, tid: TransferId)
    requires Inv(s) && IsRun(cfg, s, run)
    ensures HasLostStart(Final(cfg, s, run), tid) <==> HasLostStart(s, tid) || StartRefused(cfg, s, run, tid)
    ensures HasEnded(Final(cfg, s, run), tid) <==> HasEnded(s, tid) || EndTaken(cfg, s, run, tid)
    decreases |run|
  {
    if run == [] {
    } else {
      TicketSteps(cfg, s, run[0], tid);
      StepKeepsInv(cfg, s, run[0]);
      TicketsFollow(cfg, Next(cfg, s, run[0]), run[1..], tid);
    }
  }

  lemma CountsOfTicket(s: State, tid: TransferId)
    requires Inv(s)
    ensures CountCloses(Enqueued(s), tid) > CountOpens(Enqueued(s), tid) <==> HasLostStart(s, tid) && HasEnded(s, tid)
  {
    assert StreamAgrees(s, tid);
  }

  /**
   In every run an end stands on record without its start if and only if the start
   came when its thread's ring was full and the end when its thread's ring was not:
   the id is registered as live either way.
   */
  lemma EndWithoutStartExactly(cfg: Config, run: seq<Step>, tid: TransferId)
    requires IsRun(cfg, Init(), run)
    ensures var rs := Enqueued(Final(cfg, Init(), run));
      CountCloses(rs, tid) > CountOpens(rs, tid) <==>
        StartRefused(cfg, Init(), run, tid) && EndTaken(cfg, Init(), run, tid)
  {
    InitInv();
    TicketsFollow(cfg, Init(), run, tid);
    RunKeepsInv(cfg, Init(), run);
    CountsOfTicket(Final(cfg, Init(), run), tid);
  }

  lemma {:induction false} RunExtends(cfg: Config, s: State, run: seq<Step>, step: Step)
    requires IsRun(cfg, s, run) && Enabled(Final(cfg, s, run), step)
    ensures IsRun(cfg, s, run + [step]) && Final(cfg, s, run + [step]) == Next(cfg, Final(cfg, s, run), step)
    decreases |run|
  {
    if run == [] {
      assert ([step])[1..] == [];
    } else {
      assert (run + [step])[1..] == run[1..] + [step];
      RunExtends(cfg, Next(cfg, s, run[0]), run[1..], step);
    }
  }

  /** Thread 0 has put this many records and nothing else has happened. */
  ghost predicate Filled(s: State, n: nat) {
    && s.issued == map[] && s.calls == map[] && s.pipe.em.live == map[] && !s.pipe.stopping
    && |RingOf(s.pipe.em, 0).items| == n && forall th: Thread :: th != 0 ==> RingOf(s.pipe.em, th).items == []
  }

  lemma {:induction false} FillRing(cfg: Config, n: nat) returns (run: seq<Step>)
    requires n <= cfg.capacity
    ensures IsRun(cfg, Init(), run) && Filled(Final(cfg, Init(), run), n)
    decreases n
  {
    if n == 0 {
      run := [];
    } else {
      var step := Event(0, Bare(Metadata, SchedulerDecision, 1));
      run := FillRing(cfg, n - 1);
      var s := Final(cfg, Init(), run);
      assert forall t: Thread :: t != 0 ==> RingOf(Next(cfg, s, step).pipe.em, t) == RingOf(s.pipe.em, t);
      RunExtends(cfg, Init(), run, step);
      run := run + [step];
    }
  }

  /** Such a run exists: a full ring refuses the start, another thread's ring takes the end. */
  lemma EndWithoutStartHappens(cfg: Config, meta: Meta) returns (run: seq<Step>)
    requires cfg.capacity > 0
    ensures IsRun(cfg, Init(), run)
    ensures CountCloses(Enqueued(Final(cfg, Init(), run)), 0) > CountOpens(Enqueued(Final(cfg, Init(), run)), 0)
  {
    run := FillRing(cfg, cfg.capacity);
    var begin, register := Begin(0, 0, meta, None, true, 1), FinishBegin(0);
    var take, end := BeginEnd(1, 0, false), FinishEnd(1, None, 2);
    RefusedBegin(cfg, Final(cfg, Init(), run), begin);
    RunExtends(cfg, Init(), run, begin);
    RunExtends(cfg, Init(), run + [begin], register);
    TakenEnd(cfg, Final(cfg, Init(), run + [begin] + [register]), take, end);
    RunExtends(cfg, Init(), run + [begin] + [register], take);
    RunExtends(cfg, Init(), run + [begin] + [register] + [take], end);
    run := run + [begin] + [register] + [take] + [end];
    InitInv();
    RunKeepsInv(cfg, Init(), run);
    CountsOfTicket(Final(cfg, Init(), run), 0);
  }

  /** A start whose record the full ring of thread 0 refuses is registered all the same. */
  lemma RefusedBegin(cfg: Config, s: State, begin: Step)
    requires Filled(s, cfg.capacity) && cfg.capacity > 0
    requires begin.Begin? && begin.th == 0 && begin.tid == 0 && begin.sampled && begin.ts == 1
    ensures Enabled(s, begin) && Enabled(Next(cfg, s, begin), FinishBegin(0))
    ensures RefusedButLive(cfg, Next(cfg, Next(cfg, s, begin), FinishBegin(0)))
  {
    assert RingOf(s.pipe.em, 1).items == [];
    assert RingOf(Next(cfg, s, begin).pipe.em, 1) == RingOf(s.pipe.em, 1);
  }

  ghost predicate RefusedButLive(cfg: Config, s: State) {
    && 0 in s.issued && s.issued[0].phase.Live? && !s.issued[0].startRecorded && s.issued[0].startTs == 1
    && 0 in s.pipe.em.live
    && CallOf(s, 1).Idle? && HasRoom(cfg, s.pipe.em, 1) && !s.pipe.stopping
  }

  lemma TakenEnd(cfg: Config, s: State, take: Step, end: Step)
    requires RefusedButLive(cfg, s) && take == BeginEnd(1, 0, false) && end == FinishEnd(1, None, 2)
    ensures Enabled(s, take) && Enabled(Next(cfg, s, take), end)
    ensures var s' := Next(cfg, Next(cfg, s, take), end);
      HasLostStart(s', 0) && HasEnded(s', 0)
  {
  }
}
