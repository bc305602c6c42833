/**
 Which transfers are on record as cancelled: exactly those whose own call raised,
 or that were popped by a wait whose wrapped call raised.
 */
module Cancellations {
  import opened Records
  import opened EmitterModel
  import opened Streams
  import opened Buckets
  import T = Transfers
  import C = ConnectorProtocol

  /** The step is the raising of the id's own call, or of the wait that pops it. */
  predicate RaisesFor(s: C.State, step: C.Step, tid: TransferId) {
    match step
    case InnerRaises(th) => C.TopIs(s, th, true) && C.Top(s, th).tid == tid
    case WaitLayer(_, layer, raised) => raised && tid in Popped(s.loads, layer)
    case WaitSaves(_, raised) => raised && tid in s.saves
    case _ => false
  }

  ghost predicate RaisedFor(cfg: Config, s: C.State, run: seq<C.Step>, tid: TransferId)
    requires C.IsRun(cfg, s, run)
    decreases |run|
  {
    run != [] && (RaisesFor(s, run[0], tid) || RaisedFor(cfg, C.Next(cfg, s, run[0]), run[1..], tid))
  }

  /** A frame's ids are being cancelled exactly if a call has raised for them. */
  predicate FrameFits(f: C.Frame, raised: bool) {
    if f.Inside? then !raised else f.cancelled == raised
  }

  predicate PlaceFits(s: C.State, p: C.Place, raised: bool) {
    match p
    case InFrame(th, depth, _) => depth < |C.StackOf(s, th)| && FrameFits(C.StackOf(s, th)[depth], raised)
    case _ => !raised
  }

  /** Where an id stands, given whether a call has raised for it so far. */
  predicate Fits(s: C.State, tid: TransferId, raised: bool) {
    Placed(s, tid, raised) && TicketFits(s.t, tid, raised)
  }

  predicate Placed(s: C.State, tid: TransferId, raised: bool) {
    tid in s.owner ==> PlaceFits(s, s.owner[tid], raised)
  }

  predicate TicketFits(s: T.State, tid: TransferId, raised: bool) {
    if tid !in s.issued then !raised
    else
      var phase := s.issued[tid].phase;
      (phase.Ending? ==> phase.cancelled == raised) && (phase.Ended? ==> phase.cancelled == raised)
  }

  lemma HeldByItsOwner(s: C.State, p: C.Place, tid: TransferId)
    requires C.Inv(s)
    ensures C.Holds(s, p, tid) <==> tid in s.owner && s.owner[tid] == p
  {
    assert C.OwnedAt(s, p, tid);
  }

  /** A call raises only for ids that it, or a bucket or list that it pops, holds. */
  lemma RaisesForHeld(s: C.State, step: C.Step, tid: TransferId) returns (p: C.Place)
    requires C.Inv(s) && C.Enabled(s, step) && RaisesFor(s, step, tid)
    ensures tid in s.owner && s.owner[tid] == p && C.Holds(s, p, tid)
    ensures step.InnerRaises? ==> p == C.InFrame(step.th, |C.StackOf(s, step.th)| - 1, 0)
    ensures step.WaitLayer? ==> p.InBucket? && Taken(s.loads, step.layer) == Some(p.layer)
    ensures step.WaitSaves? ==> p.InSaves?
  {
    match step {
      case InnerRaises(th) => p := C.InFrame(th, |C.StackOf(s, th)| - 1, 0);
      case WaitLayer(_, layer, _) =>
        var key := Taken(s.loads, layer).value;
        var i :| 0 <= i < |s.loads[key]| && s.loads[key][i] == tid;
        p := C.InBucket(key, i);
      case WaitSaves(_, _) =>
        var i :| 0 <= i < |s.saves| && s.saves[i] == tid;
        p := C.InSaves(i);
    }
    HeldByItsOwner(s, p, tid);
  }

  /** A held id that a wait pops is one of the entries it found. */
  lemma PoppedHere(s: C.State, step: C.Step, tid: TransferId)
    requires C.Inv(s) && C.Enabled(s, step) && (step.WaitLayer? || step.WaitSaves?) && tid in s.owner
    ensures step.WaitLayer? ==>
      (tid in Popped(s.loads, step.layer) <==>
         s.owner[tid].InBucket? && Taken(s.loads, step.layer) == Some(s.owner[tid].layer))
    ensures step.WaitSaves? ==> (tid in s.saves <==> s.owner[tid].InSaves?)
  {
    HeldByItsOwner(s, s.owner[tid], tid);
    if step.WaitLayer? && tid in Popped(s.loads, step.layer) {
      var _ := RaisesForHeld(s, C.WaitLayer(step.th, step.layer, true), tid);
    }
    if step.WaitSaves? && tid in s.saves {
      var _ := RaisesForHeld(s, C.WaitSaves(step.th, true), tid);
    }
  }

  /** An id that a call raises for has not begun to end. */
  lemma RaisingTicket(s: C.State, step: C.Step, tid: TransferId, raised: bool)
    requires C.Inv(s) && C.Enabled(s, step) && TicketFits(s.t, tid, raised)
    ensures TicketFits(s.t, tid, raised || RaisesFor(s, step, tid))
  {
    if RaisesFor(s, step, tid) {
      var _ := RaisesForHeld(s, step, tid);
      assert C.PhaseFits(s, tid);
    }
  }

  lemma WaitPlaces(cfg: Config, s: C.State, step: C.Step, tid: TransferId, raised: bool)
    requires C.Inv(s) && C.Enabled(s, step) && Placed(s, tid, raised) && (step.WaitLayer? || step.WaitSaves?)
    ensures Placed(C.Next(cfg, s, step), tid, raised || RaisesFor(s, step, tid))
  {
    var s', k := C.Next(cfg, s, step), C.StackOf(s, step.th);
    assert C.StackOf(s', step.th)[..|k|] == k;
    if tid in s.owner {
      PoppedHere(s, step, tid);
    }
  }

  /** The id that a step takes out of its thread's top frame was held there, by that frame alone. */
  lemma HandledIsHeld(s: C.State, step: C.Step)
    requires C.Inv(s) && C.Enabled(s, step) && (step.InnerReturns? || step.InnerRaises? || step.EndOne?)
    ensures var h := C.Handled(s, step); h.1 in s.owner && s.owner[h.1] == h.0
  {
    var h := C.Handled(s, step);
    assert C.Holds(s, h.0, h.1);
    HeldByItsOwner(s, h.0, h.1);
  }

  lemma LeavePlaces(cfg: Config, s: C.State, step: C.Step, tid: TransferId, raised: bool)
    requires C.Inv(s) && C.Enabled(s, step) && Placed(s, tid, raised) && (step.InnerReturns? || step.InnerRaises?)
    ensures Placed(C.Next(cfg, s, step), tid, raised || RaisesFor(s, step, tid))
  {
    if step.InnerRaises? {
      RaisePlaces(cfg, s, step, tid, raised);
    } else {
      ReturnPlaces(cfg, s, step, tid, raised);
    }
  }

  lemma RaisePlaces(cfg: Config, s: C.State, step: C.Step, tid: TransferId, raised: bool)
    requires C.Inv(s) && C.Enabled(s, step) && Placed(s, tid, raised) && step.InnerRaises?
    ensures Placed(C.Next(cfg, s, step), tid, raised || RaisesFor(s, step, tid))
  {
    HandledIsHeld(s, step);
    if tid in s.owner {
      HeldByItsOwner(s, s.owner[tid], tid);
    }
  }

  lemma ReturnPlaces(cfg: Config, s: C.State, step: C.Step, tid: TransferId, raised: bool)
    requires C.Inv(s) && C.Enabled(s, step) && Placed(s, tid, raised) && step.InnerReturns?
    ensures Placed(C.Next(cfg, s, step), tid, raised)
  {
    HandledIsHeld(s, step);
    if tid in s.owner {
      HeldByItsOwner(s, s.owner[tid], tid);
    }
  }

  lemma EndFits(cfg: Config, s: C.State, step: C.Step, tid: TransferId, raised: bool)
    requires C.Inv(s) && C.Enabled(s, step) && Fits(s, tid, raised) && step.EndOne?
    ensures Fits(C.Next(cfg, s, step), tid, raised)
  {
    HandledIsHeld(s, step);
    assert C.PhaseFits(s, C.Handled(s, step).1);
    if tid != C.Handled(s, step).1 {
      C.TicketsMove(cfg, s, step, tid);
    }
  }

  lemma FinishFits(cfg: Config, s: C.State, step: C.Step, tid: TransferId, raised: bool)
    requires C.Inv(s) && C.Enabled(s, step) && Fits(s, tid, raised) && step.FinishOne?
    ensures Fits(C.Next(cfg, s, step), tid, raised)
  {
    C.FinishMoves(cfg, s, step);
    assert T.ThreadAgrees(s.t, step.th);
    if tid != T.CallOf(s.t, step.th).tid {
      C.TicketsMove(cfg, s, step, tid);
    }
  }

  lemma StartFits(cfg: Config, s: C.State, step: C.Step, tid: TransferId, raised: bool)
    requires C.Inv(s) && C.Enabled(s, step) && Fits(s, tid, raised) && step.Start?
    ensures Fits(C.Next(cfg, s, step), tid, raised)
  {
    var s', k := C.Next(cfg, s, step), C.StackOf(s, step.th);
    assert C.StackOf(s', step.th)[..|k|] == k && C.StackOf(s', step.th)[|k|].Inside?;
    assert C.PhaseFits(s, tid);
    if tid != step.tid {
      C.TicketsMove(cfg, s, step, tid);
    }
  }

  lemma RegisterFits(cfg: Config, s: C.State, step: C.Step, tid: TransferId, raised: bool)
    requires C.Inv(s) && C.Enabled(s, step) && Fits(s, tid, raised) && step.Register?
    ensures Fits(C.Next(cfg, s, step), tid, raised)
  {
    assert T.ThreadAgrees(s.t, step.th);
    if tid != T.CallOf(s.t, step.th).tid {
      C.TicketsMove(cfg, s, step, tid);
    }
  }

  /** Returning, events and the flusher. */
  lemma OtherFits(cfg: Config, s: C.State, step: C.Step, tid: TransferId, raised: bool)
    requires C.Inv(s) && C.Enabled(s, step) && Fits(s, tid, raised)
    requires step.Return? || step.Event? || step.Flush?
    ensures Fits(C.Next(cfg, s, step), tid, raised)
  {
    C.TicketsMove(cfg, s, step, tid);
    if step.Return? && tid in s.owner {
      HeldByItsOwner(s, s.owner[tid], tid);
    }
  }

  lemma StepFits(cfg: Config, s: C.State, step: C.Step, tid: TransferId, raised: bool)
    requires C.Inv(s) && C.Enabled(s, step) && Fits(s, tid, raised)
    ensures Fits(C.Next(cfg, s, step), tid, raised || RaisesFor(s, step, tid))
  {
    RaisingTicket(s, step, tid, raised);
    match step
    case WaitLayer(_, _, _) => WaitPlaces(cfg, s, step, tid, raised);
    case WaitSaves(_, _) => WaitPlaces(cfg, s, step, tid, raised);
    case InnerReturns(_) => LeavePlaces(cfg, s, step, tid, raised);
    case InnerRaises(_) => LeavePlaces(cfg, s, step, tid, raised);
    case Start(_, _, _, _, _, _, _) => StartFits(cfg, s, step, tid, raised);
    case Register(_) => RegisterFits(cfg, s, step, tid, raised);
    case EndOne(_) => EndFits(cfg, s, step, tid, raised);
    case FinishOne(_, _, _) => FinishFits(cfg, s, step, tid, raised);
    case _ => OtherFits(cfg, s, step, tid, raised);
  }

  lemma {:induction false} RunFits(cfg: Config, s: C.State, run: seq<C.Step>, tid: TransferId, raised: bool)
    requires C.Inv(s) && C.IsRun(cfg, s, run) && Fits(s, tid, raised)
    ensures Fits(C.Final(cfg, s, run), tid, raised || RaisedFor(cfg, s, run, tid))
    decreases |run|
  {
    if run == [] {
    } else {
      StepFits(cfg, s, run[0], tid, raised);
      C.StepKeepsInv(cfg, s, run[0]);
      RunFits(cfg, C.Next(cfg, s, run[0]), run[1..], tid, raised || RaisesFor(s, run[0], tid));
    }
  }

  /**
   In every run a terminal record is a cancel if and only if the id's own call, or
   the wait that popped it, raised; otherwise it is an end.
   */
  lemma CancelsAreRaises(cfg: Config, run: seq<C.Step>, tid: TransferId)
    requires C.IsRun(cfg, C.Init(), run)
    ensures forall r :: r in T.Enqueued(C.Final(cfg, C.Init(), run).t) && Closes(r, tid) ==>
      r.subtype == Some(if RaisedFor(cfg, C.Init(), run, tid) then Cancel else End)
  {
    var s := C.Final(cfg, C.Init(), run);
    C.InitInv();
    C.RunKeepsInv(cfg, C.Init(), run);
    RunFits(cfg, C.Init(), run, tid, false);
    assert T.StreamAgrees(s.t, tid);
    if tid !in s.t.issued {
      T.NoneSeen(T.Enqueued(s.t), tid);
    }
  }
}
