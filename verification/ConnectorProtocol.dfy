/**
 Instrumented threads over the emitter: connector starts, saves and waits, and
 bracketing wrappers, nested to any depth inside each other's wrapped calls, any
 of which may raise.  `owner` records where each transfer id is held.
 */
module ConnectorProtocol {
  import opened Records
  import opened EmitterModel
  import opened Streams
  import opened Buckets
  import P = Pipeline
  import T = Transfers

  /** What becomes of an id when the wrapped call returns. */
  datatype Use =
    | ForLoad(layer: Layer)     // parked in its layer's bucket
    | ForSave                   // parked in the save list
    | Bracket                   // ended at once

  datatype Frame =
    | Inside(tid: TransferId, use: Use)                                     // the wrapped call is running
    | Closing(entries: seq<TransferId>, next: nat, cancelled: bool)         // ending popped entries one by one

  datatype Place =
    | InBucket(layer: Layer, i: nat)
    | InSaves(i: nat)
    | InFrame(th: Thread, depth: nat, i: nat)

  datatype State = State(
    t: T.State,
    loads: map<Layer, seq<TransferId>>, saves: seq<TransferId>,
    stacks: map<Thread, seq<Frame>>,
    owner: map<TransferId, Place>, released: set<TransferId>)

  datatype Step =
    | Start(th: Thread, tid: TransferId, use: Use, meta: Meta, request: Option<RequestId>, sampled: bool, ts: int)
    | Register(th: Thread)
    | InnerReturns(th: Thread)
    | InnerRaises(th: Thread)
    | WaitLayer(th: Thread, layer: Layer, raised: bool)
    | WaitSaves(th: Thread, raised: bool)
    | EndOne(th: Thread)
    | FinishOne(th: Thread, request: Option<RequestId>, ts: int)
    | Return(th: Thread)
    | Event(th: Thread, rec: Record)
    | Flush(step: P.Step)

  function Init(): State {
    State(T.Init(), map[], [], map[], map[], {})
  }

  function StackOf(s: State, th: Thread): seq<Frame> {
    if th in s.stacks then s.stacks[th] else []
  }

  predicate TopIs(s: State, th: Thread, inside: bool) {
    var k := StackOf(s, th);
    k != [] && k[|k| - 1].Inside? == inside
  }

  function Top(s: State, th: Thread): Frame
    requires StackOf(s, th) != []
  {
    StackOf(s, th)[|StackOf(s, th)| - 1]
  }

  predicate Enabled(s: State, step: Step) {
    match step
    case Start(th, tid, _, meta, request, sampled, ts) =>
      !TopIs(s, th, false) && T.Enabled(s.t, T.Begin(th, tid, meta, request, sampled, ts))
    case Register(th) => T.Enabled(s.t, T.FinishBegin(th))
    case InnerReturns(th) => TopIs(s, th, true) && T.CallOf(s.t, th).Idle?
    case InnerRaises(th) => TopIs(s, th, true) && T.CallOf(s.t, th).Idle?
    case WaitLayer(th, _, _) => !TopIs(s, th, false) && T.CallOf(s.t, th).Idle?
    case WaitSaves(th, _) => !TopIs(s, th, false) && T.CallOf(s.t, th).Idle?
    case EndOne(th) => TopIs(s, th, false) && Top(s, th).next < |Top(s, th).entries| && T.CallOf(s.t, th).Idle?
    case FinishOne(th, request, ts) => T.Enabled(s.t, T.FinishEnd(th, request, ts))
    case Return(th) => TopIs(s, th, false) && Top(s, th).next >= |Top(s, th).entries| && T.CallOf(s.t, th).Idle?
    case Event(th, rec) => T.Enabled(s.t, T.Event(th, rec))
    case Flush(p) => T.Enabled(s.t, T.Flush(p))
  }

  function SetStack(s: State, th: Thread, stack: seq<Frame>): State {
    s.(stacks := s.stacks[th := stack])
  }

  function Move(owner: map<TransferId, Place>, tid: TransferId, p: Place): map<TransferId, Place> {
    owner[tid := p]
  }

  /** The ids of a popped bucket keep their positions in the frame that ends them. */
  function MoveBucket(owner: map<TransferId, Place>, key: Layer, th: Thread, depth: nat): map<TransferId, Place> {
    map tid | tid in owner ::
      if owner[tid].InBucket? && owner[tid].layer == key then InFrame(th, depth, owner[tid].i) else owner[tid]
  }

  function MoveSaves(owner: map<TransferId, Place>, th: Thread, depth: nat): map<TransferId, Place> {
    map tid | tid in owner :: if owner[tid].InSaves? then InFrame(th, depth, owner[tid].i) else owner[tid]
  }

  function Next(cfg: Config, s: State, step: Step): State
    requires Enabled(s, step)
  {
    match step
    case Start(th, tid, use, meta, request, sampled, ts) =>
      var k := StackOf(s, th);
      SetStack(s, th, k + [Inside(tid, use)])
        .(t := T.Next(cfg, s.t, T.Begin(th, tid, meta, request, sampled, ts)),
          owner := Move(s.owner, tid, InFrame(th, |k|, 0)))
    case Register(th) => s.(t := T.Next(cfg, s.t, T.FinishBegin(th)))
    case InnerReturns(th) =>
      var k, f := StackOf(s, th), Top(s, th);
      (match f.use
       case ForLoad(layer) =>
         SetStack(s, th, k[..|k| - 1])
           .(loads := AddLoad(s.loads, layer, f.tid),
             owner := Move(s.owner, f.tid, InBucket(layer, if layer in s.loads then |s.loads[layer]| else 0)))
       case ForSave =>
         SetStack(s, th, k[..|k| - 1])
           .(saves := s.saves + [f.tid], owner := Move(s.owner, f.tid, InSaves(|s.saves|)))
       case Bracket => SetStack(s, th, k[..|k| - 1] + [Closing([f.tid], 0, false)]))
    case InnerRaises(th) =>
      var k := StackOf(s, th);
      SetStack(s, th, k[..|k| - 1] + [Closing([Top(s, th).tid], 0, true)])
    case WaitLayer(th, layer, raised) =>
      var k, key := StackOf(s, th), Taken(s.loads, layer);
      SetStack(s, th, k + [Closing(Popped(s.loads, layer), 0, raised)])
        .(loads := Rest(s.loads, layer),
          owner := if key.Some? then MoveBucket(s.owner, key.value, th, |k|) else s.owner)
    case WaitSaves(th, raised) =>
      var k := StackOf(s, th);
      SetStack(s, th, k + [Closing(s.saves, 0, raised)])
        .(saves := [], owner := MoveSaves(s.owner, th, |k|))
    case EndOne(th) =>
      var k, f := StackOf(s, th), Top(s, th);
      var tid := f.entries[f.next];
      SetStack(s, th, k[..|k| - 1] + [f.(next := f.next + 1)])
        .(t := T.Next(cfg, s.t, T.BeginEnd(th, tid, f.cancelled)),
          owner := s.owner - {tid}, released := s.released + {tid})
    case FinishOne(th, request, ts) => s.(t := T.Next(cfg, s.t, T.FinishEnd(th, request, ts)))
    case Return(th) =>
      var k := StackOf(s, th);
      SetStack(s, th, k[..|k| - 1])
    case Event(th, rec) => s.(t := T.Next(cfg, s.t, T.Event(th, rec)))
    case Flush(p) => s.(t := T.Next(cfg, s.t, T.Flush(p)))
  }

  // ---------------------------------------------------------------- ownership

  predicate FrameHolds(f: Frame, i: nat, tid: TransferId) {
    match f
    case Inside(id, _) => i == 0 && id == tid
    case Closing(entries, next, _) => next <= i < |entries| && entries[i] == tid
  }

  /** The data structures really hold `tid` at `p`. */
  predicate Holds(s: State, p: Place, tid: TransferId) {
    match p
    case InBucket(layer, i) => layer in s.loads && i < |s.loads[layer]| && s.loads[layer][i] == tid
    case InSaves(i) => i < |s.saves| && s.saves[i] == tid
    case InFrame(th, depth, i) => depth < |StackOf(s, th)| && FrameHolds(StackOf(s, th)[depth], i, tid)
  }

  predicate OwnedAt(s: State, p: Place, tid: TransferId) {
    Holds(s, p, tid) <==> tid in s.owner && s.owner[tid] == p
  }

  ghost predicate OwnerIsRight(s: State) {
    forall p: Place, tid: TransferId :: OwnedAt(s, p, tid)
  }

  predicate PhaseFits(s: State, tid: TransferId) {
    && (tid in s.t.issued <==> tid in s.owner || tid in s.released)
    && !(tid in s.owner && tid in s.released)
    && (tid in s.owner ==>
          match s.t.issued[tid].phase
          case SampledAway => true
          case Live => true
          case Starting(th) =>
            TopIs(s, th, true) && s.owner[tid] == InFrame(th, |StackOf(s, th)| - 1, 0)
          case _ => false)
    && (tid in s.released ==>
          var phase := s.t.issued[tid].phase;
          phase.SampledAway? || phase.Ending? || phase.Ended?)
  }

  ghost predicate Inv(s: State) {
    && T.Inv(s.t)
    && OwnerIsRight(s)
    && (forall tid: TransferId :: PhaseFits(s, tid))
  }

  lemma InitInv()
    ensures Inv(Init())
  {
    T.InitInv();
  }

  /** The place of `p`'s ids before the step. */
  function Before(s: State, step: Step, p: Place): Place
    requires Enabled(s, step)
  {
    match step
    case WaitLayer(th, layer, _) =>
      if p.InFrame? && p.th == th && p.depth == |StackOf(s, th)| && Taken(s.loads, layer).Some?
      then InBucket(Taken(s.loads, layer).value, p.i) else p
    case WaitSaves(th, _) =>
      if p.InFrame? && p.th == th && p.depth == |StackOf(s, th)| then InSaves(p.i) else p
    case _ => p
  }

  /** The place and id that a step takes out of its thread's top frame. */
  function Handled(s: State, step: Step): (Place, TransferId)
    requires Enabled(s, step) && (step.InnerReturns? || step.InnerRaises? || step.EndOne?)
  {
    var f, top := Top(s, step.th), |StackOf(s, step.th)| - 1;
    if step.EndOne? then (InFrame(step.th, top, f.next), f.entries[f.next]) else (InFrame(step.th, top, 0), f.tid)
  }

  lemma WaitKeepsOwner(cfg: Config, s: State, step: Step, p: Place, tid: TransferId)
    requires Enabled(s, step) && (step.WaitLayer? || step.WaitSaves?)
    requires OwnedAt(s, p, tid) && OwnedAt(s, Before(s, step, p), tid)
    ensures OwnedAt(Next(cfg, s, step), p, tid)
  {
    if step.WaitLayer? {
      LayerKeepsOwner(cfg, s, step, p, tid);
    } else {
      SavesKeepOwner(cfg, s, step, p, tid);
    }
  }

  lemma LayerKeepsOwner(cfg: Config, s: State, step: Step, p: Place, tid: TransferId)
    requires Enabled(s, step) && step.WaitLayer?
    requires OwnedAt(s, p, tid) && OwnedAt(s, Before(s, step, p), tid)
    ensures OwnedAt(Next(cfg, s, step), p, tid)
  {
    var s', k := Next(cfg, s, step), StackOf(s, step.th);
    assert StackOf(s', step.th)[..|k|] == k;
  }

  lemma SavesKeepOwner(cfg: Config, s: State, step: Step, p: Place, tid: TransferId)
    requires Enabled(s, step) && step.WaitSaves?
    requires OwnedAt(s, p, tid) && OwnedAt(s, Before(s, step, p), tid)
    ensures OwnedAt(Next(cfg, s, step), p, tid)
  {
    var s', k := Next(cfg, s, step), StackOf(s, step.th);
    assert StackOf(s', step.th)[..|k|] == k;
  }

  lemma StartKeepsOwner(cfg: Config, s: State, step: Step, p: Place, tid: TransferId)
    requires Enabled(s, step) && step.Start? && step.tid !in s.owner
    requires OwnedAt(s, p, tid)
    ensures OwnedAt(Next(cfg, s, step), p, tid)
  {
    var s', k := Next(cfg, s, step), StackOf(s, step.th);
    assert StackOf(s', step.th)[..|k|] == k;
  }

  lemma ParkingKeepsOwner(cfg: Config, s: State, step: Step, p: Place, tid: TransferId)
    requires Enabled(s, step) && step.InnerReturns? && !Top(s, step.th).use.Bracket?
    requires OwnedAt(s, p, tid) && OwnedAt(s, Handled(s, step).0, Handled(s, step).1)
    ensures OwnedAt(Next(cfg, s, step), p, tid)
  {
    assert Holds(s, Handled(s, step).0, Handled(s, step).1);
  }

  lemma ClosingKeepsOwner(cfg: Config, s: State, step: Step, p: Place, tid: TransferId)
    requires Enabled(s, step)
    requires step.InnerRaises? || step.EndOne? || (step.InnerReturns? && Top(s, step.th).use.Bracket?)
    requires OwnedAt(s, p, tid) && OwnedAt(s, Handled(s, step).0, Handled(s, step).1)
    requires OwnedAt(s, Handled(s, step).0, tid)
    ensures OwnedAt(Next(cfg, s, step), p, tid)
  {
    assert Holds(s, Handled(s, step).0, Handled(s, step).1);
  }

  lemma OwnerKeeps(cfg: Config, s: State, step: Step)
    requires Enabled(s, step) && OwnerIsRight(s)
    requires step.Start? ==> step.tid !in s.owner
    ensures OwnerIsRight(Next(cfg, s, step))
  {
    forall p: Place, tid: TransferId
      ensures OwnedAt(Next(cfg, s, step), p, tid)
    {
      assert OwnedAt(s, p, tid);
      assert OwnedAt(s, Before(s, step, p), tid);
      if step.Start? {
        StartKeepsOwner(cfg, s, step, p, tid);
      } else if step.WaitLayer? || step.WaitSaves? {
        WaitKeepsOwner(cfg, s, step, p, tid);
      } else if step.InnerReturns? || step.InnerRaises? || step.EndOne? {
        assert OwnedAt(s, Handled(s, step).0, Handled(s, step).1);
        assert OwnedAt(s, Handled(s, step).0, tid);
        if step.InnerReturns? && !Top(s, step.th).use.Bracket? {
          ParkingKeepsOwner(cfg, s, step, p, tid);
        } else {
          ClosingKeepsOwner(cfg, s, step, p, tid);
        }
      }
    }
  }

  /** The step of the transfer layer that a step performs, if any. */
  function Lower(s: State, step: Step): Option<T.Step>
    requires Enabled(s, step)
  {
    match step
    case Start(th, tid, _, meta, request, sampled, ts) => Some(T.Begin(th, tid, meta, request, sampled, ts))
    case Register(th) => Some(T.FinishBegin(th))
    case EndOne(th) => Some(T.BeginEnd(th, Top(s, th).entries[Top(s, th).next], Top(s, th).cancelled))
    case FinishOne(th, request, ts) => Some(T.FinishEnd(th, request, ts))
    case Event(th, rec) => Some(T.Event(th, rec))
    case Flush(p) => Some(T.Flush(p))
    case _ => None
  }

  lemma LowerSteps(cfg: Config, s: State, step: Step)
    requires Enabled(s, step)
    ensures var lower := Lower(s, step);
      && (lower.Some? ==> T.Enabled(s.t, lower.value))
      && Next(cfg, s, step).t == (if lower.Some? then T.Next(cfg, s.t, lower.value) else s.t)
  {
  }

  lemma LowerKeepsInv(cfg: Config, s: State, step: Step)
    requires Enabled(s, step) && T.Inv(s.t)
    ensures T.Inv(Next(cfg, s, step).t)
  {
    LowerSteps(cfg, s, step);
    if Lower(s, step).Some? {
      T.StepKeepsInv(cfg, s.t, Lower(s, step).value);
    }
  }

  /** Steps of other kinds leave every ticket alone. */
  lemma TicketsMove(cfg: Config, s: State, step: Step, tid: TransferId)
    requires Enabled(s, step) && T.Inv(s.t)
    ensures var s', lower := Next(cfg, s, step), Lower(s, step);
      (lower.None? || T.Mover(s.t, lower.value).None? || T.Mover(s.t, lower.value).value.1 != tid) ==>
        && (tid in s'.t.issued <==> tid in s.t.issued)
        && (tid in s.t.issued ==> s'.t.issued[tid] == s.t.issued[tid])
  {
    LowerSteps(cfg, s, step);
    if Lower(s, step).Some? {
      T.OnlyTheMoverMoves(cfg, s.t, Lower(s, step).value);
    }
  }

  /** A started id that is not registered yet stays where it is: its thread is busy registering it. */
  lemma StartingStays(cfg: Config, s: State, step: Step, tid: TransferId)
    requires Enabled(s, step) && Inv(s) && !step.Register?
    requires tid in s.owner && tid in s.t.issued && s.t.issued[tid].phase.Starting?
    ensures var s', th := Next(cfg, s, step), s.t.issued[tid].phase.th;
      tid in s'.owner && s'.owner[tid] == s.owner[tid] && StackOf(s', th) == StackOf(s, th)
  {
    assert PhaseFits(s, tid);
    assert T.TicketAgrees(s.t, tid);
    assert OwnedAt(s, s.owner[tid], tid);
    if step.InnerReturns? || step.InnerRaises? || step.EndOne? {
      assert OwnedAt(s, Handled(s, step).0, Handled(s, step).1);
      assert Holds(s, Handled(s, step).0, Handled(s, step).1);
    } else if step.Start? {
      assert PhaseFits(s, step.tid);
    }
  }

  lemma PhaseKeeps(cfg: Config, s: State, step: Step, tid: TransferId)
    requires Enabled(s, step) && Inv(s)
    ensures PhaseFits(Next(cfg, s, step), tid)
  {
    match step
    case Start(_, _, _, _, _, _, _) => StartKeepsPhase(cfg, s, step, tid);
    case Register(_) => RegisterKeepsPhase(cfg, s, step, tid);
    case EndOne(_) => EndKeepsPhase(cfg, s, step, tid);
    case FinishOne(_, _, _) => FinishKeepsPhase(cfg, s, step, tid);
    case _ => OtherKeepsPhase(cfg, s, step, tid);
  }

  lemma StartKeepsPhase(cfg: Config, s: State, step: Step, tid: TransferId)
    requires Enabled(s, step) && Inv(s) && step.Start?
    ensures PhaseFits(Next(cfg, s, step), tid)
  {
    StartMoves(cfg, s, step);
    assert PhaseFits(s, tid);
    if tid != step.tid {
      TicketsMove(cfg, s, step, tid);
      hide Next, Inv;
      if tid in s.owner && s.t.issued[tid].phase.Starting? {
        StartingStays(cfg, s, step, tid);
      }
    } else {
      hide Next, Inv;
    }
  }

  /** A start issues its id and holds it in a new frame of its thread. */
  lemma StartMoves(cfg: Config, s: State, step: Step)
    requires Enabled(s, step) && step.Start?
    ensures var s', k := Next(cfg, s, step), StackOf(s, step.th);
      && s'.owner == s.owner[step.tid := InFrame(step.th, |k|, 0)] && s'.released == s.released
      && StackOf(s', step.th) == k + [Inside(step.tid, step.use)]
      && step.tid !in s.t.issued && step.tid in s'.t.issued
      && (s'.t.issued[step.tid].phase.SampledAway? || s'.t.issued[step.tid].phase == T.Starting(step.th))
  {
  }

  lemma SameHeldIds(cfg: Config, s: State, step: Step)
    requires Enabled(s, step) && !step.Start? && !step.EndOne? && OwnerIsRight(s)
    ensures Next(cfg, s, step).owner.Keys == s.owner.Keys && Next(cfg, s, step).released == s.released
  {
    if step.InnerReturns? {
      assert OwnedAt(s, Handled(s, step).0, Handled(s, step).1);
      assert Holds(s, Handled(s, step).0, Handled(s, step).1);
    }
  }

  lemma OtherKeepsPhase(cfg: Config, s: State, step: Step, tid: TransferId)
    requires Enabled(s, step) && Inv(s)
    requires !step.Start? && !step.Register? && !step.EndOne? && !step.FinishOne?
    ensures PhaseFits(Next(cfg, s, step), tid)
  {
    var s' := Next(cfg, s, step);
    assert PhaseFits(s, tid);
    TicketsMove(cfg, s, step, tid);
    SameHeldIds(cfg, s, step);
    assert tid in s'.owner <==> tid in s.owner;
    if tid in s.owner && s.t.issued[tid].phase.Starting? {
      StartingStays(cfg, s, step, tid);
    }
  }

  lemma RegisterKeepsPhase(cfg: Config, s: State, step: Step, tid: TransferId)
    requires Enabled(s, step) && Inv(s) && step.Register?
    ensures PhaseFits(Next(cfg, s, step), tid)
  {
    assert PhaseFits(s, tid);
    TicketsMove(cfg, s, step, tid);
    assert T.ThreadAgrees(s.t, step.th);
  }

  /** Finishing an end moves one ticket, that of an id that nothing holds. */
  lemma FinishMoves(cfg: Config, s: State, step: Step)
    requires Enabled(s, step) && Inv(s) && step.FinishOne?
    ensures var s', tid := Next(cfg, s, step), T.CallOf(s.t, step.th).tid;
      && s'.owner == s.owner && s'.released == s.released && s'.stacks == s.stacks
      && T.Mover(s.t, Lower(s, step).value) == Some((step.th, tid))
      && tid in s.released && tid in s'.t.issued && s'.t.issued[tid].phase.Ended?
  {
    assert T.ThreadAgrees(s.t, step.th);
    assert PhaseFits(s, T.CallOf(s.t, step.th).tid);
  }

  lemma FinishKeepsPhase(cfg: Config, s: State, step: Step, tid: TransferId)
    requires Enabled(s, step) && Inv(s) && step.FinishOne?
    ensures PhaseFits(Next(cfg, s, step), tid)
  {
    assert PhaseFits(s, tid);
    FinishMoves(cfg, s, step);
    if tid != T.CallOf(s.t, step.th).tid {
      TicketsMove(cfg, s, step, tid);
    }
  }

  lemma EndKeepsPhase(cfg: Config, s: State, step: Step, tid: TransferId)
    requires Enabled(s, step) && Inv(s) && step.EndOne?
    ensures PhaseFits(Next(cfg, s, step), tid)
  {
    var ended := Handled(s, step).1;
    assert PhaseFits(s, tid) && PhaseFits(s, ended);
    assert OwnedAt(s, Handled(s, step).0, ended);
    TicketsMove(cfg, s, step, tid);
    if tid != ended && tid in s.owner && s.t.issued[tid].phase.Starting? {
      StartingStays(cfg, s, step, tid);
    }
  }

  lemma StepKeepsInv(cfg: Config, s: State, step: Step)
    requires Inv(s) && Enabled(s, step)
    ensures Inv(Next(cfg, s, step))
  {
    LowerKeepsInv(cfg, s, step);
    if step.Start? { assert PhaseFits(s, step.tid); }
    OwnerKeeps(cfg, s, step);
    forall tid: TransferId
      ensures PhaseFits(Next(cfg, s, step), tid)
    {
      PhaseKeeps(cfg, s, step, tid);
    }
  }

  // ---------------------------------------------------------------- whole runs

  ghost predicate IsRun(cfg: Config, s: State, run: seq<Step>)
    decreases |run|
  {
    run == [] || (Enabled(s, run[0]) && IsRun(cfg, Next(cfg, s, run[0]), run[1..]))
  }

  ghost function Final(cfg: Config, s: State, run: seq<Step>): State
    requires IsRun(cfg, s, run)
    decreases |run|
  {
    if run == [] then s else Final(cfg, Next(cfg, s, run[0]), run[1..])
  }

  lemma {:induction false} RunKeepsInv(cfg: Config, s: State, run: seq<Step>)
    requires Inv(s) && IsRun(cfg, s, run)
    ensures Inv(Final(cfg, s, run))
    decreases |run|
  {
    if run == [] {
    } else {
      StepKeepsInv(cfg, s, run[0]);
      RunKeepsInv(cfg, Next(cfg, s, run[0]), run[1..]);
    }
  }

  /**
   Ownership: at every state of every run an issued id is held in exactly one
   place until a `transfer_end` names it; live ids are held; and, but for an id
   being registered, a held id that is not live is one that was sampled away.
   */
  lemma OwnershipHolds(cfg: Config, run: seq<Step>, tid: TransferId)
    requires IsRun(cfg, Init(), run)
    ensures var s := Final(cfg, Init(), run);
      && (forall p, q :: Holds(s, p, tid) && Holds(s, q, tid) ==> p == q)
      && (tid in s.t.issued <==> tid in s.released || exists p :: Holds(s, p, tid))
      && (tid in s.released ==> forall p :: !Holds(s, p, tid))
      && (tid in s.t.pipe.em.live ==> exists p :: Holds(s, p, tid))
      && ((exists p :: Holds(s, p, tid)) && !s.t.issued[tid].phase.Starting? ==>
            (tid !in s.t.pipe.em.live <==> s.t.issued[tid].phase.SampledAway?))
  {
    var s := Final(cfg, Init(), run);
    InitInv();
    RunKeepsInv(cfg, Init(), run);
    forall p: Place
      ensures Holds(s, p, tid) <==> tid in s.owner && s.owner[tid] == p
    {
      assert OwnedAt(s, p, tid);
    }
    if tid in s.owner { assert Holds(s, s.owner[tid], tid); }
    assert PhaseFits(s, tid);
  }

  /** Every stack, bucket and list is empty: nothing is waiting to be ended. */
  ghost predicate Quiescent(s: State) {
    && (forall th: Thread :: StackOf(s, th) == [] && T.CallOf(s.t, th).Idle?)
    && (forall layer :: layer in s.loads ==> s.loads[layer] == [])
    && s.saves == []
  }

  /** When nothing is waiting to be ended, nothing is live. */
  lemma QuiescentMeansNoLive(s: State)
    requires Inv(s) && Quiescent(s)
    ensures s.t.pipe.em.live == map[]
  {
    forall tid: TransferId
      ensures tid !in s.t.pipe.em.live
    {
      assert PhaseFits(s, tid);
      var p := if tid in s.owner then s.owner[tid] else InSaves(0);
      assert OwnedAt(s, p, tid) && !Holds(s, p, tid);
    }
  }

  // ------------------------------------------------------------ atomic drains

  ghost predicate AtomicDrains(run: seq<Step>) {
    forall i :: 0 <= i < |run| ==> run[i] != Flush(P.CopyRing)
  }

  lemma StepKeepsUndivided(cfg: Config, s: State, step: Step)
    requires P.Undivided(s.t.pipe) && Enabled(s, step) && step != Flush(P.CopyRing)
    ensures P.Undivided(Next(cfg, s, step).t.pipe)
  {
    var pipe := s.t.pipe;
    match step
    case Start(th, tid, _, meta, request, sampled, ts) =>
      if sampled { P.StepKeepsUndivided(cfg, pipe, P.Put(th, Stamp(cfg, StartRecord(tid, meta, request, ts)))); }
    case FinishOne(th, request, ts) =>
      var c := T.CallOf(s.t, th);
      P.StepKeepsUndivided(cfg, pipe, P.Put(th, Stamp(cfg, EndRecord(c.tid, c.meta, request, ts, c.cancelled))));
    case Event(th, rec) => P.StepKeepsUndivided(cfg, pipe, P.Put(th, Stamp(cfg, rec)));
    case Flush(p) => P.StepKeepsUndivided(cfg, pipe, p);
    case _ =>
  }

  lemma {:induction false} AtomicRunIsUndivided(cfg: Config, s: State, run: seq<Step>)
    requires P.Undivided(s.t.pipe) && IsRun(cfg, s, run) && AtomicDrains(run)
    ensures P.Undivided(Final(cfg, s, run).t.pipe)
    decreases |run|
  {
    if run == [] {
    } else {
      StepKeepsUndivided(cfg, s, run[0]);
      AtomicRunIsUndivided(cfg, Next(cfg, s, run[0]), run[1..]);
    }
  }
}
