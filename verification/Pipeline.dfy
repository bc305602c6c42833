/**
 Any number of producer threads and one flusher thread over one emitter.
 Histories (what was accepted, refused and written) are carried in the state so
 that the invariants can speak about whole runs.
 */
module Pipeline {
  import opened Records
  import opened Sequences
  import opened EmitterModel

  /** A record together with the thread whose ring it went through. */
  datatype Item = Item(thread: Thread, rec: Record)

  /** `late`: it was appended between the copy and the swap of its ring's drain. */
  datatype Arrived = Arrived(item: Item, late: bool)

  datatype Flusher =
    | Top                                              // about to test the stop flag
    | Waiting
    | Woken                                            // about to clear the trigger
    | Cleared                                          // about to zero the pending count
    | Ready(last: bool)                                // about to list the rings
    | Draining(todo: seq<Thread>, batch: seq<Item>, last: bool)
    | Swapping(todo: seq<Thread>, batch: seq<Item>, copied: seq<Record>, last: bool)
    | Closed

  datatype State = State(
    em: EmitterState, fl: Flusher, stopping: bool,
    accepted: seq<Arrived>, refusals: seq<Item>, written: seq<seq<Item>>)

  datatype Step =
    | Put(th: Thread, rec: Record)      // a stamped record offered to its thread's ring
    | Register(tid: TransferId, meta: Meta)
    | Unregister(tid: TransferId)
    | Stop
    | Loop | Wake | ClearTrigger | ZeroPending | ListRings
    | Drain | CopyRing | SwapRing       // a drain is one atomic step, or a copy and a swap
    | WriteBatch

  function Init(): State {
    State(InitialState(), Top, false, [], [], [])
  }

  predicate InWindow(s: State, th: Thread) {
    s.fl.Swapping? && |s.fl.todo| > 0 && s.fl.todo[0] == th
  }

  function Tagged(th: Thread, rs: seq<Record>): (items: seq<Item>)
    ensures |items| == |rs| && forall i :: 0 <= i < |rs| ==> items[i] == Item(th, rs[i])
  {
    seq(|rs|, i requires 0 <= i < |rs| => Item(th, rs[i]))
  }

  predicate Enabled(s: State, step: Step) {
    match step
    case Put(_, _) => !s.stopping
    case Register(_, _) => true
    case Unregister(_) => true
    case Stop => true
    case Loop => s.fl.Top?
    case Wake => s.fl.Waiting?
    case ClearTrigger => s.fl.Woken?
    case ZeroPending => s.fl.Cleared?
    case ListRings => s.fl.Ready?
    case Drain => s.fl.Draining? && s.fl.todo != []
    case CopyRing => s.fl.Draining? && s.fl.todo != []
    case SwapRing => s.fl.Swapping? && s.fl.todo != []
    case WriteBatch => s.fl.Draining? && s.fl.todo == []
  }

  function Next(cfg: Config, s: State, step: Step): State
    requires Enabled(s, step)
  {
    match step
    case Put(th, rec) =>
      var item := Item(th, rec);
      var s' := s.(em := Enqueue(cfg, s.em, th, rec));
      if HasRoom(cfg, s.em, th) then s'.(accepted := s.accepted + [Arrived(item, InWindow(s, th))])
      else s'.(refusals := s.refusals + [item])
    case Register(tid, meta) => s.(em := SetLive(s.em, tid, meta))
    case Unregister(tid) => s.(em := ClearLive(s.em, tid))
    case Stop => s.(stopping := true)
    case Loop => s.(fl := if s.stopping then Ready(true) else Waiting)
    case Wake => s.(fl := Woken)
    case ClearTrigger => s.(fl := Cleared, em := s.em.(trigger := false))
    case ZeroPending => s.(fl := Ready(false), em := s.em.(pending := 0))
    case ListRings => s.(fl := Draining(s.em.order, [], s.fl.last))
    case Drain =>
      var th := s.fl.todo[0];
      s.(fl := Draining(s.fl.todo[1..], s.fl.batch + Tagged(th, RingOf(s.em, th).items), s.fl.last),
         em := EmptyRing(s.em, th))
    case CopyRing => s.(fl := Swapping(s.fl.todo, s.fl.batch, RingOf(s.em, s.fl.todo[0]).items, s.fl.last))
    case SwapRing =>
      var th := s.fl.todo[0];
      s.(fl := Draining(s.fl.todo[1..], s.fl.batch + Tagged(th, s.fl.copied), s.fl.last),
         em := EmptyRing(s.em, th))
    case WriteBatch =>
      s.(fl := if s.fl.last then Closed else Top, written := s.written + [s.fl.batch])
  }

  ghost predicate IsRun(cfg: Config, s: State, run: seq<Step>)
    decreases |run|
  {
    run == [] || (Enabled(s, run[0]) && IsRun(cfg, Next(cfg, s, run[0]), run[1..]))
  }

  ghost function Final(cfg: Config, s: State, run: seq<Step>): State
    requires IsRun(cfg, s, run)
    decreases |run|
  {
    if run == [] then s else Final(cfg, Next(cfg, s, run[0]), run[1..])
  }

  // ---------------------------------------------------------------- histories

  /** The records that went through one thread's ring, in order. */
  function Of(items: seq<Item>, th: Thread): seq<Record> {
    if items == [] then []
    else Of(items[..|items| - 1], th) + (if items[|items| - 1].thread == th then [items[|items| - 1].rec] else [])
  }

  /** Everything the rings accepted. */
  function Items(accepted: seq<Arrived>): (items: seq<Item>)
    ensures |items| == |accepted| && forall i :: 0 <= i < |items| ==> items[i] == accepted[i].item
  {
    seq(|accepted|, i requires 0 <= i < |accepted| => accepted[i].item)
  }

  /** Everything the rings accepted, less what arrived inside a drain's window. */
  function OnTime(accepted: seq<Arrived>): seq<Item> {
    if accepted == [] then []
    else OnTime(accepted[..|accepted| - 1]) +
         (if accepted[|accepted| - 1].late then [] else [accepted[|accepted| - 1].item])
  }

  lemma {:induction false} OfConcat(a: seq<Item>, b: seq<Item>, th: Thread)
    ensures Of(a + b, th) == Of(a, th) + Of(b, th)
    decreases |b|
  {
    if b == [] {
      assert a + b == a;
    } else {
      OfConcat(a, b[..|b| - 1], th);
      assert (a + b)[..|a + b| - 1] == a + b[..|b| - 1];
    }
  }

  lemma {:induction false} OfTagged(th: Thread, rs: seq<Record>, t: Thread)
    ensures Of(Tagged(th, rs), t) == if t == th then rs else []
    decreases |rs|
  {
    if rs == [] {
    } else {
      OfTagged(th, rs[..|rs| - 1], t);
      assert Tagged(th, rs)[..|rs| - 1] == Tagged(th, rs[..|rs| - 1]);
      assert rs == rs[..|rs| - 1] + [rs[|rs| - 1]];
    }
  }

  lemma OnTimeAppend(accepted: seq<Arrived>, x: Arrived)
    ensures OnTime(accepted + [x]) == OnTime(accepted) + (if x.late then [] else [x.item])
  {
  }

  // ------------------------------------------------------------- conservation

  function InFlush(fl: Flusher): seq<Item> {
    if fl.Draining? || fl.Swapping? then fl.batch else []
  }

  /** The part of a ring that the next flush will take. */
  function InRing(s: State, th: Thread): seq<Record> {
    if InWindow(s, th) then s.fl.copied else RingOf(s.em, th).items
  }

  /** Accepted on time = written, then in the current flush, then in the ring. */
  ghost predicate ConservedFor(s: State, th: Thread) {
    Of(OnTime(s.accepted), th) == Of(Concat(s.written), th) + Of(InFlush(s.fl), th) + InRing(s, th)
  }

  ghost predicate Conserved(s: State) {
    forall th: Thread :: ConservedFor(s, th)
  }

  ghost predicate RefusalsCounted(s: State) {
    && s.em.refused == |s.refusals|
    && forall th: Thread :: RingOf(s.em, th).dropped == |Of(s.refusals, th)|
  }

  predicate Distinct(ths: seq<Thread>) {
    forall i, j :: 0 <= i < j < |ths| ==> ths[i] != ths[j]
  }

  /** Rings are listed once, and a flush's remaining rings are listed rings. */
  ghost predicate Registered(s: State) {
    && (forall th :: th in s.em.order <==> th in s.em.rings)
    && Distinct(s.em.order)
    && (s.fl.Draining? || s.fl.Swapping? ==>
          && (forall th :: th in s.fl.todo ==> th in s.em.rings)
          && Distinct(s.fl.todo))
    && (s.fl.Swapping? ==> s.fl.todo != [])
  }

  /** During the last flush only the rings still to be drained hold records. */
  ghost predicate LastFlushEmpties(s: State) {
    match s.fl
    case Ready(last) => last ==> s.stopping
    case Draining(todo, _, last) =>
      last ==> s.stopping && forall th: Thread :: th !in todo ==> RingOf(s.em, th).items == []
    case Swapping(todo, _, _, last) =>
      last ==> s.stopping && forall th: Thread :: th !in todo ==> RingOf(s.em, th).items == []
    case Closed => s.stopping && forall th: Thread :: RingOf(s.em, th).items == []
    case _ => true
  }

  ghost predicate Inv(s: State) {
    Conserved(s) && RefusalsCounted(s) && Registered(s) && LastFlushEmpties(s)
  }

  lemma InitInv()
    ensures Inv(Init())
  {
  }

  lemma OfOne(item: Item, th: Thread)
    ensures Of([item], th) == if item.thread == th then [item.rec] else []
  {
  }

  /** What a put adds to the part of a thread's records that a flush will see. */
  function Grown(s: State, step: Step, th: Thread): seq<Record>
    requires step.Put?
  {
    if InWindow(s, step.th) || th != step.th then [] else [step.rec]
  }

  lemma PutGrowsAccepted(accepted: seq<Arrived>, item: Item, late: bool, th: Thread)
    ensures Of(OnTime(accepted + [Arrived(item, late)]), th)
            == Of(OnTime(accepted), th) + (if late || th != item.thread then [] else [item.rec])
  {
    OnTimeAppend(accepted, Arrived(item, late));
    if late {
      assert OnTime(accepted) + [] == OnTime(accepted);
    } else {
      OfConcat(OnTime(accepted), [item], th);
      OfOne(item, th);
    }
  }

  lemma PutGrowsRing(cfg: Config, s: State, step: Step, th: Thread)
    requires step.Put? && Enabled(s, step) && HasRoom(cfg, s.em, step.th)
    ensures InRing(Next(cfg, s, step), th) == InRing(s, th) + Grown(s, step, th)
  {
  }

  lemma AcceptedPutConserves(cfg: Config, s: State, step: Step, th: Thread)
    requires ConservedFor(s, th) && step.Put? && Enabled(s, step) && HasRoom(cfg, s.em, step.th)
    ensures ConservedFor(Next(cfg, s, step), th)
  {
    var s' := Next(cfg, s, step);
    PutGrowsAccepted(s.accepted, Item(step.th, step.rec), InWindow(s, step.th), th);
    PutGrowsRing(cfg, s, step, th);
    assert s'.written == s.written && s'.fl == s.fl;
    assert Of(OnTime(s'.accepted), th) == Of(OnTime(s.accepted), th) + Grown(s, step, th);
    Regroup(Of(Concat(s.written), th) + Of(InFlush(s.fl), th), InRing(s, th), Grown(s, step, th));
  }

  lemma RefusedPutCounts(cfg: Config, s: State, step: Step)
    requires RefusalsCounted(s) && step.Put? && Enabled(s, step)
    ensures RefusalsCounted(Next(cfg, s, step))
  {
    if !HasRoom(cfg, s.em, step.th) {
      var item := Item(step.th, step.rec);
      forall th: Thread
        ensures RingOf(Next(cfg, s, step).em, th).dropped == |Of(Next(cfg, s, step).refusals, th)|
      {
        OfConcat(s.refusals, [item], th);
        OfOne(item, th);
      }
    }
  }

  lemma OfDrained(batch: seq<Item>, first: Thread, taken: seq<Record>, th: Thread)
    ensures Of(batch + Tagged(first, taken), th) == Of(batch, th) + (if th == first then taken else [])
  {
    OfConcat(batch, Tagged(first, taken), th);
    OfTagged(first, taken, th);
  }

  /** What a drain takes out of the ring at the head of its list. */
  function TakenBy(s: State, step: Step): seq<Record>
    requires (step.Drain? || step.SwapRing?) && Enabled(s, step)
  {
    if step.Drain? then RingOf(s.em, s.fl.todo[0]).items else s.fl.copied
  }

  lemma DrainMoves(cfg: Config, s: State, step: Step, th: Thread)
    requires (step.Drain? || step.SwapRing?) && Enabled(s, step) && Distinct(s.fl.todo) && s.fl.todo[0] in s.em.rings
    ensures var s', first := Next(cfg, s, step), s.fl.todo[0];
      && InFlush(s'.fl) == s.fl.batch + Tagged(first, TakenBy(s, step))
      && InRing(s', th) == (if th == first then [] else InRing(s, th))
      && (th == first ==> InRing(s, th) == TakenBy(s, step))
      && s'.written == s.written && s'.accepted == s.accepted
  {
  }

  lemma DrainConserves(cfg: Config, s: State, step: Step, th: Thread)
    requires ConservedFor(s, th) && (step.Drain? || step.SwapRing?) && Enabled(s, step)
    requires Distinct(s.fl.todo) && s.fl.todo[0] in s.em.rings
    ensures ConservedFor(Next(cfg, s, step), th)
  {
    DrainMoves(cfg, s, step, th);
    OfDrained(s.fl.batch, s.fl.todo[0], TakenBy(s, step), th);
    Shifted(Of(Concat(s.written), th), Of(s.fl.batch, th), if th == s.fl.todo[0] then TakenBy(s, step) else [],
            if th == s.fl.todo[0] then [] else InRing(s, th));
  }

  /** Moving a stretch from the ring to the flush keeps the whole. */
  lemma Shifted<T>(written: seq<T>, batch: seq<T>, moved: seq<T>, left: seq<T>)
    requires moved == [] || left == []
    ensures written + (batch + moved) + left == written + batch + (if moved == [] then left else moved)
  {
  }

  lemma WriteConserves(cfg: Config, s: State, th: Thread)
    requires ConservedFor(s, th) && Enabled(s, WriteBatch)
    ensures ConservedFor(Next(cfg, s, WriteBatch), th)
  {
    var s' := Next(cfg, s, WriteBatch);
    WriteMoves(cfg, s, th);
    NothingBetween(Of(Concat(s'.written), th), Of(InFlush(s'.fl), th), InRing(s', th));
  }

  lemma WriteMoves(cfg: Config, s: State, th: Thread)
    requires Enabled(s, WriteBatch)
    ensures var s' := Next(cfg, s, WriteBatch);
      && Of(Concat(s'.written), th) == Of(Concat(s.written), th) + Of(InFlush(s.fl), th)
      && Of(InFlush(s'.fl), th) == [] && InRing(s', th) == InRing(s, th) && s'.accepted == s.accepted
  {
    ConcatAppend(s.written, s.fl.batch);
    OfConcat(Concat(s.written), s.fl.batch, th);
  }

  lemma NothingBetween<T>(a: seq<T>, gap: seq<T>, b: seq<T>)
    requires gap == []
    ensures a + gap + b == a + b
  {
  }

  lemma PutKeepsRegistered(cfg: Config, s: State, step: Step)
    requires Registered(s) && step.Put? && Enabled(s, step)
    ensures Registered(Next(cfg, s, step))
  {
    var order' := Next(cfg, s, step).em.order;
    assert forall th :: th in order' <==> th in s.em.order || th == step.th;
    assert Distinct(order') by {
      if step.th !in s.em.order {
        assert forall i :: 0 <= i < |s.em.order| ==> s.em.order[i] != step.th;
      }
    }
  }

  lemma DrainKeepsRegistered(cfg: Config, s: State, step: Step)
    requires Registered(s) && (step.Drain? || step.SwapRing?) && Enabled(s, step)
    ensures Registered(Next(cfg, s, step))
  {
  }

  lemma StepKeepsRegistered(cfg: Config, s: State, step: Step)
    requires Registered(s) && Enabled(s, step)
    ensures Registered(Next(cfg, s, step))
  {
    match step
    case Put(_, _) => PutKeepsRegistered(cfg, s, step);
    case Drain => DrainKeepsRegistered(cfg, s, step);
    case SwapRing => DrainKeepsRegistered(cfg, s, step);
    case _ =>
  }

  lemma StepEmptiesRings(cfg: Config, s: State, step: Step)
    requires LastFlushEmpties(s) && Registered(s) && Enabled(s, step)
    ensures LastFlushEmpties(Next(cfg, s, step))
  {
    var s' := Next(cfg, s, step);
    if step.Drain? || step.SwapRing? {
      assert forall th :: th in s.fl.todo ==> th == s.fl.todo[0] || th in s'.fl.todo;
    } else if !step.Put? {
      assert forall th: Thread :: RingOf(s'.em, th) == RingOf(s.em, th);
      if step.WriteBatch? {
        assert forall th: Thread :: th !in s.fl.todo;
      }
    }
  }

  /** Any other step moves no record into or out of a ring, a flush or the file. */
  lemma OtherConserves(cfg: Config, s: State, step: Step, th: Thread)
    requires ConservedFor(s, th) && Enabled(s, step)
    requires step.Put? ==> !HasRoom(cfg, s.em, step.th)
    requires !step.Drain? && !step.SwapRing? && !step.WriteBatch?
    ensures ConservedFor(Next(cfg, s, step), th)
  {
    var s' := Next(cfg, s, step);
    assert s'.accepted == s.accepted && s'.written == s.written;
    assert InFlush(s'.fl) == InFlush(s.fl) && InRing(s', th) == InRing(s, th);
  }

  lemma StepKeepsConserved(cfg: Config, s: State, step: Step)
    requires Conserved(s) && Registered(s) && Enabled(s, step)
    ensures Conserved(Next(cfg, s, step))
  {
    forall th: Thread
      ensures ConservedFor(Next(cfg, s, step), th)
    {
      assert ConservedFor(s, th);
      if step.Put? && HasRoom(cfg, s.em, step.th) {
        AcceptedPutConserves(cfg, s, step, th);
      } else if step.Drain? || step.SwapRing? {
        DrainConserves(cfg, s, step, th);
      } else if step.WriteBatch? {
        WriteConserves(cfg, s, th);
      } else {
        OtherConserves(cfg, s, step, th);
      }
    }
  }

  lemma StepKeepsInv(cfg: Config, s: State, step: Step)
    requires Inv(s) && Enabled(s, step)
    ensures Inv(Next(cfg, s, step))
  {
    StepKeepsConserved(cfg, s, step);
    StepKeepsRegistered(cfg, s, step);
    StepEmptiesRings(cfg, s, step);
    if step.Put? {
      RefusedPutCounts(cfg, s, step);
    }
  }

  // ---------------------------------------------------------------- whole runs

  lemma {:induction false} RunKeepsInv(cfg: Config, s: State, run: seq<Step>)
    requires Inv(s) && IsRun(cfg, s, run)
    ensures Inv(Final(cfg, s, run))
    decreases |run|
  {
    if run == [] {
    } else {
      StepKeepsInv(cfg, s, run[0]);
      RunKeepsInv(cfg, Next(cfg, s, run[0]), run[1..]);
    }
  }

  lemma {:induction false} RunExtends(cfg: Config, s: State, run: seq<Step>, step: Step)
    requires IsRun(cfg, s, run) && Enabled(Final(cfg, s, run), step)
    ensures IsRun(cfg, s, run + [step])
    ensures Final(cfg, s, run + [step]) == Next(cfg, Final(cfg, s, run), step)
    decreases |run|
  {
    if run == [] {
      assert (run + [step])[1..] == [];
    } else {
      assert (run + [step])[1..] == run[1..] + [step];
      RunExtends(cfg, Next(cfg, s, run[0]), run[1..], step);
    }
  }

  /**
   Ring conservation: at every state of every run, for every thread, what its
   ring accepted outside drain windows is what is written, then what the current
   flush holds, then what the ring holds, in that order; refusals are what the
   two drop counters say.
   */
  lemma RingConservation(cfg: Config, run: seq<Step>, th: Thread)
    requires IsRun(cfg, Init(), run)
    ensures var s := Final(cfg, Init(), run);
      && Of(OnTime(s.accepted), th) == Of(Concat(s.written), th) + Of(InFlush(s.fl), th) + InRing(s, th)
      && RingOf(s.em, th).dropped == |Of(s.refusals, th)|
      && s.em.refused == |s.refusals|
  {
    InitInv();
    RunKeepsInv(cfg, Init(), run);
    assert ConservedFor(Final(cfg, Init(), run), th);
  }

  lemma {:induction false} OfCounts(items: seq<Item>, x: Item)
    ensures multiset(items)[x] == multiset(Of(items, x.thread))[x.rec]
    decreases |items|
  {
    if items == [] {
    } else {
      var front, last := items[..|items| - 1], items[|items| - 1];
      OfCounts(front, x);
      assert items == front + [last];
    }
  }

  lemma SameByThread(a: seq<Item>, b: seq<Item>)
    requires forall th: Thread :: Of(a, th) == Of(b, th)
    ensures multiset(a) == multiset(b)
  {
    forall x: Item
      ensures multiset(a)[x] == multiset(b)[x]
    {
      OfCounts(a, x);
      OfCounts(b, x);
      assert Of(a, x.thread) == Of(b, x.thread);
    }
  }

  /** What arrived inside a drain's window. */
  function Late(accepted: seq<Arrived>): seq<Item> {
    if accepted == [] then []
    else Late(accepted[..|accepted| - 1]) +
         (if accepted[|accepted| - 1].late then [accepted[|accepted| - 1].item] else [])
  }

  lemma CountAppend<T>(s: seq<T>, x: T)
    ensures multiset(s + [x]) == multiset(s) + multiset{x}
  {
  }

  lemma LateAppend(accepted: seq<Arrived>, x: Arrived)
    ensures Late(accepted + [x]) == Late(accepted) + (if x.late then [x.item] else [])
    ensures Items(accepted + [x]) == Items(accepted) + [x.item]
  {
  }

  lemma {:induction false} OnTimeOrLate(accepted: seq<Arrived>)
    ensures multiset(Items(accepted)) == multiset(OnTime(accepted)) + multiset(Late(accepted))
    decreases |accepted|
  {
    if accepted == [] {
    } else {
      var front, last := accepted[..|accepted| - 1], accepted[|accepted| - 1];
      assert accepted == front + [last];
      OnTimeOrLate(front);
      OnTimeAppend(front, last);
      LateAppend(front, last);
      CountAppend(Items(front), last.item);
      if last.late {
        CountAppend(Late(front), last.item);
        assert OnTime(accepted) == OnTime(front);
      } else {
        CountAppend(OnTime(front), last.item);
        assert Late(accepted) == Late(front);
      }
    }
  }

  /**
   After the final drain the file holds every accepted record, each thread's in
   its order, except exactly those that arrived between a drain's copy and swap.
   */
  lemma FinalDrainIsComplete(cfg: Config, run: seq<Step>)
    requires IsRun(cfg, Init(), run) && Final(cfg, Init(), run).fl.Closed?
    ensures var s := Final(cfg, Init(), run);
      && (forall th: Thread :: Of(Concat(s.written), th) == Of(OnTime(s.accepted), th))
      && multiset(Concat(s.written)) == multiset(OnTime(s.accepted))
      && multiset(Items(s.accepted)) == multiset(Concat(s.written)) + multiset(Late(s.accepted))
  {
    var s := Final(cfg, Init(), run);
    InitInv();
    RunKeepsInv(cfg, Init(), run);
    ClosedIsComplete(s);
    OnTimeOrLate(s.accepted);
  }

  lemma ClosedIsComplete(s: State)
    requires Inv(s) && s.fl.Closed?
    ensures forall th: Thread :: Of(Concat(s.written), th) == Of(OnTime(s.accepted), th)
    ensures multiset(Concat(s.written)) == multiset(OnTime(s.accepted))
  {
    forall th: Thread
      ensures Of(Concat(s.written), th) == Of(OnTime(s.accepted), th)
    {
      assert ConservedFor(s, th);
      assert RingOf(s.em, th).items == [];
    }
    SameByThread(Concat(s.written), OnTime(s.accepted));
  }

  // --------------------------------------------------------- when records are lost

  /** In the run, a put finds room in a ring that a drain has copied and not yet swapped. */
  ghost predicate PutInWindow(cfg: Config, s: State, run: seq<Step>)
    requires IsRun(cfg, s, run)
    decreases |run|
  {
    run != [] && (PutsLate(cfg, s, run[0]) || PutInWindow(cfg, Next(cfg, s, run[0]), run[1..]))
  }

  predicate PutsLate(cfg: Config, s: State, step: Step) {
    step.Put? && HasRoom(cfg, s.em, step.th) && InWindow(s, step.th)
  }

  lemma StepIsLate(cfg: Config, s: State, step: Step)
    requires Enabled(s, step)
    ensures Late(Next(cfg, s, step).accepted) == [] <==> Late(s.accepted) == [] && !PutsLate(cfg, s, step)
  {
    if step.Put? && HasRoom(cfg, s.em, step.th) {
      LateAppend(s.accepted, Arrived(Item(step.th, step.rec), InWindow(s, step.th)));
    }
  }

  lemma {:induction false} LateFollows(cfg: Config, s: State, run: seq<Step>)
    requires IsRun(cfg, s, run)
    ensures Late(Final(cfg, s, run).accepted) == [] <==> Late(s.accepted) == [] && !PutInWindow(cfg, s, run)
    decreases |run|
  {
    if run == [] {
    } else {
      StepIsLate(cfg, s, run[0]);
      LateFollows(cfg, Next(cfg, s, run[0]), run[1..]);
    }
  }

  /** A run that is flushed to the end loses nothing if and only if no such put is in it. */
  lemma ClosedRunLosesNothingExactly(cfg: Config, run: seq<Step>)
    requires IsRun(cfg, Init(), run) && Final(cfg, Init(), run).fl.Closed?
    ensures var s := Final(cfg, Init(), run);
      multiset(Concat(s.written)) == multiset(Items(s.accepted)) <==> !PutInWindow(cfg, Init(), run)
  {
    var s := Final(cfg, Init(), run);
    FinalDrainIsComplete(cfg, run);
    LateFollows(cfg, Init(), run);
    var written, late := multiset(Concat(s.written)), multiset(Late(s.accepted));
    assert multiset(Items(s.accepted)) == written + late;
    if late != multiset{} {
      assert |written + late| == |written| + |late|;
    }
    assert |late| == |Late(s.accepted)|;
  }

  // ------------------------------------------------------------ atomic drains

  ghost predicate AtomicDrains(run: seq<Step>) {
    forall i :: 0 <= i < |run| ==> !run[i].CopyRing?
  }

  /** No drain is between its copy and its swap, and nothing ever arrived there. */
  ghost predicate Undivided(s: State) {
    !s.fl.Swapping? && OnTime(s.accepted) == Items(s.accepted)
  }

  lemma StepKeepsUndivided(cfg: Config, s: State, step: Step)
    requires Undivided(s) && Enabled(s, step) && !step.CopyRing?
    ensures Undivided(Next(cfg, s, step))
  {
  }

  /** With atomic drains nothing is lost. */
  lemma {:induction false} AtomicDrainsLoseNothing(cfg: Config, s: State, run: seq<Step>)
    requires Undivided(s) && IsRun(cfg, s, run) && AtomicDrains(run)
    ensures Undivided(Final(cfg, s, run))
    decreases |run|
  {
    if run == [] {
    } else {
      StepKeepsUndivided(cfg, s, run[0]);
      AtomicDrainsLoseNothing(cfg, Next(cfg, s, run[0]), run[1..]);
    }
  }

  // ------------------------------------------------------ late records do occur

  /** A record put between the copy and the swap of its ring's drain, and a shutdown after it. */
  function LateScript(rec: Record): seq<Step> {
    [Put(0, rec), Loop, Wake, ClearTrigger, ZeroPending, ListRings, CopyRing, Put(0, rec), SwapRing, WriteBatch,
     Stop, Loop, ListRings, Drain, WriteBatch]
  }

  /** Where the flusher is after so many steps of the script. */
  predicate FlusherBy(fl: Flusher, i: int) {
    match fl
    case Top => i <= 1 || i == 10 || i == 11
    case Waiting => i == 2
    case Woken => i == 3
    case Cleared => i == 4
    case Ready(last) => if last then i == 12 else i == 5
    case Draining(todo, _, last) =>
      if last then (i == 13 && todo == [0]) || (i == 14 && todo == [])
      else (i == 6 && todo == [0]) || (i == 9 && todo == [])
    case Swapping(todo, _, _, last) => (i == 7 || i == 8) && todo == [0] && !last
    case Closed => i == 15
  }

  ghost predicate LateBy(s: State, i: int) {
    && FlusherBy(s.fl, i) && s.stopping == (i > 10)
    && s.em.order == (if i > 0 then [0] else []) && (0 in s.em.rings <==> i > 0)
    && |RingOf(s.em, 0).items| <= (if i == 8 then 2 else 1)
    && (i >= 8 ==> Late(s.accepted) != [])
  }

  lemma LateStep(cfg: Config, s: State, rec: Record, i: nat)
    requires cfg.capacity >= 2 && i < 15 && LateBy(s, i)
    ensures Enabled(s, LateScript(rec)[i]) && LateBy(Next(cfg, s, LateScript(rec)[i]), i + 1)
  {
    if i == 7 {
      LateAppend(s.accepted, Arrived(Item(0, rec), true));
    }
  }

  /** Some run, flushed to the end, loses an accepted record to a drain. */
  lemma LateHappens(cfg: Config, rec: Record) returns (run: seq<Step>)
    requires cfg.capacity >= 2
    ensures IsRun(cfg, Init(), run)
    ensures Final(cfg, Init(), run).fl.Closed? && Late(Final(cfg, Init(), run).accepted) != []
  {
    run := [];
    var i := 0;
    while i < 15
      invariant 0 <= i <= 15 && IsRun(cfg, Init(), run) && LateBy(Final(cfg, Init(), run), i)
    {
      LateStep(cfg, Final(cfg, Init(), run), rec, i);
      RunExtends(cfg, Init(), run, LateScript(rec)[i]);
      run := run + [LateScript(rec)[i]];
      i := i + 1;
    }
  }
}
