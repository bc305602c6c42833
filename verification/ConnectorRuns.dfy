/**
 The connector's methods against the protocol: a method that nothing interleaves
 does what a run of the protocol's steps does.
 */
module ConnectorRuns {
  import opened Records
  import opened EmitterModel
  import opened Buckets
  import opened ConnectorClasses
  import P = Pipeline
  import T = Transfers
  import C = ConnectorProtocol

  function Ids(entries: seq<Entry>): (ids: seq<TransferId>)
    ensures |ids| == |entries| && forall i :: 0 <= i < |ids| ==> ids[i] == entries[i].tid
  {
    seq(|entries|, i requires 0 <= i < |entries| => entries[i].tid)
  }

  /** The protocol's buckets hold the ids of the wrapper's entries. */
  ghost predicate Mirrors(ids: map<Layer, seq<TransferId>>, loads: map<Layer, seq<Entry>>) {
    ids.Keys == loads.Keys && forall layer :: layer in loads ==> ids[layer] == Ids(loads[layer])
  }

  /** The thread is ending these entries, none of them begun. */
  ghost predicate Closing(s: C.State, th: Thread, entries: seq<Entry>, cancelled: bool) {
    && C.TopIs(s, th, false) && T.CallOf(s.t, th).Idle? && !s.t.pipe.stopping
    && var f := C.Top(s, th);
    f.cancelled == cancelled && f.next <= |f.entries| && f.entries[f.next..] == Ids(entries)
  }

  /** Everything that the protocol keeps outside the emitter, but for one thread's top frame. */
  ghost predicate OnlyPops(s: C.State, s': C.State, th: Thread) {
    && s'.loads == s.loads && s'.saves == s.saves
    && T.CallOf(s'.t, th).Idle? && !s'.t.pipe.stopping
    && C.StackOf(s, th) != [] && C.StackOf(s', th) == C.StackOf(s, th)[..|C.StackOf(s, th)| - 1]
    && forall other :: other != th ==> C.StackOf(s', other) == C.StackOf(s, other)
  }

  /** The next entry is passed, and its id taken off the live map if it is there. */
  lemma BeginsEnd(cfg: Config, s: C.State, th: Thread, entries: seq<Entry>, cancelled: bool)
    requires Closing(s, th, entries, cancelled) && entries != []
    ensures C.Enabled(s, C.EndOne(th))
    ensures var s', tid, live := C.Next(cfg, s, C.EndOne(th)), entries[0].tid, s.t.pipe.em.live;
      && s'.t.pipe.em == (if tid in live then ClearLive(s.t.pipe.em, tid) else s.t.pipe.em)
      && T.CallOf(s'.t, th) == (if tid in live then T.Terminating(tid, live[tid], cancelled) else T.Idle)
      && SameStarts(s, s') && s'.t.pipe.stopping == s.t.pipe.stopping
      && C.TopIs(s', th, false) && C.Top(s', th) == C.Top(s, th).(next := C.Top(s, th).next + 1)
      && SameBelow(s, s', th)
  {
    var f := C.Top(s, th);
    assert f.entries[f.next] == f.entries[f.next..][0] == entries[0].tid;
  }

  /** The terminal record is enqueued. */
  lemma FinishesEnd(cfg: Config, s: C.State, th: Thread, request: Option<RequestId>, ts: int)
    requires T.CallOf(s.t, th).Terminating? && T.StartedBy(s.t, T.CallOf(s.t, th).tid, ts)
    requires !s.t.pipe.stopping && C.TopIs(s, th, false)
    ensures C.Enabled(s, C.FinishOne(th, request, ts))
    ensures var s', c := C.Next(cfg, s, C.FinishOne(th, request, ts)), T.CallOf(s.t, th);
      && s'.t.pipe.em == Enqueue(cfg, s.t.pipe.em, th, Stamp(cfg, EndRecord(c.tid, c.meta, request, ts, c.cancelled)))
      && T.CallOf(s'.t, th).Idle? && SameStarts(s, s') && s'.t.pipe.stopping == s.t.pipe.stopping
      && C.TopIs(s', th, false) && C.Top(s', th) == C.Top(s, th) && SameBelow(s, s', th)
  {
  }

  ghost predicate SameBelow(s: C.State, s': C.State, th: Thread) {
    && s'.loads == s.loads && s'.saves == s.saves
    && C.StackOf(s, th) != [] && |C.StackOf(s', th)| == |C.StackOf(s, th)|
    && C.StackOf(s', th)[..|C.StackOf(s, th)| - 1] == C.StackOf(s, th)[..|C.StackOf(s, th)| - 1]
    && forall other :: other != th ==> C.StackOf(s', other) == C.StackOf(s, other)
  }

  /** Each entry that was issued started by the time that the clock shows for its end. */
  ghost predicate Timely(s: C.State, entries: seq<Entry>, clock: nat -> int) {
    forall i :: 0 <= i < |entries| ==> T.StartedBy(s.t, entries[i].tid, clock(i))
  }

  /** No ticket's start has changed. */
  ghost predicate SameStarts(s: C.State, s': C.State) {
    forall tid: TransferId, ts: int :: T.StartedBy(s'.t, tid, ts) <==> T.StartedBy(s.t, tid, ts)
  }

  /** Ending the next entry: one step if its id is not live, two if it is. */
  lemma EndsOne(cfg: Config, s: C.State, th: Thread, entries: seq<Entry>, cancelled: bool, ts: int)
    returns (run: seq<C.Step>, s': C.State)
    requires Closing(s, th, entries, cancelled) && entries != [] && T.StartedBy(s.t, entries[0].tid, ts)
    ensures C.IsRun(cfg, s, run) && C.Final(cfg, s, run) == s'
    ensures Closing(s', th, entries[1..], cancelled) && SameStarts(s, s') && SameBelow(s, s', th)
    ensures s'.t.pipe.em == EndOne(cfg, s.t.pipe.em, th, entries[0], cancelled, ts)
  {
    var f, e, first := C.Top(s, th), entries[0], C.EndOne(th);
    BeginsEnd(cfg, s, th, entries, cancelled);
    assert f.entries[f.next + 1..] == f.entries[f.next..][1..] == Ids(entries)[1..] == Ids(entries[1..]);
    s' := C.Next(cfg, s, first);
    run := [first];
    RunOfOne(cfg, s, first);
    if e.tid in s.t.pipe.em.live {
      var s1, last := s', C.FinishOne(th, if cancelled then None else e.request, ts);
      FinishesEnd(cfg, s1, th, last.request, ts);
      RunOfOne(cfg, s1, last);
      RunsCompose(cfg, s, [first], [last]);
      run, s' := [first] + [last], C.Next(cfg, s1, last);
    }
  }

  lemma RunOfOne(cfg: Config, s: C.State, step: C.Step)
    requires C.Enabled(s, step)
    ensures C.IsRun(cfg, s, [step]) && C.Final(cfg, s, [step]) == C.Next(cfg, s, step)
  {
  }

  lemma {:induction false} RunsCompose(cfg: Config, s: C.State, a: seq<C.Step>, b: seq<C.Step>)
    requires C.IsRun(cfg, s, a) && C.IsRun(cfg, C.Final(cfg, s, a), b)
    ensures C.IsRun(cfg, s, a + b) && C.Final(cfg, s, a + b) == C.Final(cfg, C.Final(cfg, s, a), b)
    decreases |a|
  {
    if a == [] {
      assert a + b == b;
    } else {
      assert (a + b)[1..] == a[1..] + b;
      RunsCompose(cfg, C.Next(cfg, s, a[0]), a[1..], b);
    }
  }

  /** Ending the first so many entries. */
  lemma {:induction false} EndsFirst(cfg: Config, s: C.State, th: Thread, entries: seq<Entry>, cancelled: bool,
                                     clock: nat -> int, n: nat)
    returns (run: seq<C.Step>, s': C.State)
    requires Closing(s, th, entries, cancelled) && Timely(s, entries, clock) && n <= |entries|
    ensures C.IsRun(cfg, s, run) && C.Final(cfg, s, run) == s'
    ensures Closing(s', th, entries[n..], cancelled) && SameStarts(s, s') && SameBelow(s, s', th)
    ensures s'.t.pipe.em == EndAll(cfg, s.t.pipe.em, th, entries[..n], cancelled, clock)
    decreases n
  {
    if n == 0 {
      run, s' := [], s;
      assert entries[0..] == entries;
    } else {
      var before, s1 := EndsFirst(cfg, s, th, entries, cancelled, clock, n - 1);
      assert T.StartedBy(s.t, entries[n - 1].tid, clock(n - 1));
      var more, s2 := EndsOne(cfg, s1, th, entries[n - 1..], cancelled, clock(n - 1));
      assert entries[n - 1..][1..] == entries[n..] && entries[..n][..n - 1] == entries[..n - 1];
      RunsCompose(cfg, s, before, more);
      run, s' := before + more, s2;
    }
  }

  /** Ending popped entries, uninterrupted, is a run that changes the emitter as `EndAll` says. */
  lemma UninterruptedEnds(cfg: Config, s: C.State, th: Thread, entries: seq<Entry>, cancelled: bool,
                          clock: nat -> int)
    returns (run: seq<C.Step>)
    requires Closing(s, th, entries, cancelled) && Timely(s, entries, clock)
    ensures C.IsRun(cfg, s, run)
    ensures C.Final(cfg, s, run).t.pipe.em == EndAll(cfg, s.t.pipe.em, th, entries, cancelled, clock)
    ensures OnlyPops(s, C.Final(cfg, s, run), th)
  {
    var ends, s' := EndsFirst(cfg, s, th, entries, cancelled, clock, |entries|);
    assert entries[..|entries|] == entries && entries[|entries|..] == [];
    assert C.Top(s', th).entries[C.Top(s', th).next..] == [];
    RunOfOne(cfg, s', C.Return(th));
    RunsCompose(cfg, s, ends, [C.Return(th)]);
    run := ends + [C.Return(th)];
  }

  // -------------------------------------------------------------------- waits

  /** A wait, on a layer or on the saves, the entries that it will find, and the stamp of its metadata record. */
  datatype Wait = Wait(pop: C.Step, entries: seq<Entry>, subtype: Subtype, ts: int)

  function PoppedIds(s: C.State, pop: C.Step): seq<TransferId> {
    if pop.WaitLayer? then Popped(s.loads, pop.layer) else s.saves
  }

  function LoadsLeft(s: C.State, pop: C.Step): map<Layer, seq<TransferId>> {
    if pop.WaitLayer? then Rest(s.loads, pop.layer) else s.loads
  }

  function SavesLeft(s: C.State, pop: C.Step): seq<TransferId> {
    if pop.WaitLayer? then s.saves else []
  }

  /** The thread can wait, and would pop these entries. */
  ghost predicate CanWait(s: C.State, th: Thread, w: Wait) {
    && (w.pop.WaitLayer? || w.pop.WaitSaves?) && w.pop.th == th
    && !C.TopIs(s, th, false) && T.CallOf(s.t, th).Idle? && !s.t.pipe.stopping
    && PoppedIds(s, w.pop) == Ids(w.entries)
  }

  /** The entries have been popped into a closing frame. */
  ghost predicate Popping(s: C.State, s': C.State, th: Thread, w: Wait)
    requires w.pop.WaitLayer? || w.pop.WaitSaves?
  {
    && Closing(s', th, w.entries, w.pop.raised)
    && s'.loads == LoadsLeft(s, w.pop) && s'.saves == SavesLeft(s, w.pop)
    && C.StackOf(s', th)[..|C.StackOf(s', th)| - 1] == C.StackOf(s, th)
    && forall other :: other != th ==> C.StackOf(s', other) == C.StackOf(s, other)
  }

  lemma PushesFrame(cfg: Config, s: C.State, th: Thread, pop: C.Step)
    requires (pop.WaitLayer? || pop.WaitSaves?) && pop.th == th && C.Enabled(s, pop)
    ensures var s' := C.Next(cfg, s, pop);
      && C.StackOf(s', th) == C.StackOf(s, th) + [C.Closing(PoppedIds(s, pop), 0, pop.raised)]
      && (forall other :: other != th ==> C.StackOf(s', other) == C.StackOf(s, other))
      && s'.t == s.t && s'.loads == LoadsLeft(s, pop) && s'.saves == SavesLeft(s, pop)
  {
  }

  lemma PopsEntries(cfg: Config, s: C.State, th: Thread, w: Wait)
    requires CanWait(s, th, w)
    ensures C.Enabled(s, w.pop) && Popping(s, C.Next(cfg, s, w.pop), th, w) && C.Next(cfg, s, w.pop).t == s.t
  {
    PushesFrame(cfg, s, th, w.pop);
    ClosesAll(s, C.Next(cfg, s, w.pop), th, w);
  }

  lemma ClosesAll(s: C.State, s': C.State, th: Thread, w: Wait)
    requires CanWait(s, th, w) && s'.t == s.t
    requires C.StackOf(s', th) == C.StackOf(s, th) + [C.Closing(Ids(w.entries), 0, w.pop.raised)]
    ensures Closing(s', th, w.entries, w.pop.raised)
    ensures C.StackOf(s', th)[..|C.StackOf(s', th)| - 1] == C.StackOf(s, th)
  {
    assert Ids(w.entries)[0..] == Ids(w.entries);
  }

  ghost predicate SameConnector(s: C.State, s': C.State) {
    && s'.stacks == s.stacks && s'.loads == s.loads && s'.saves == s.saves
    && s'.t.calls == s.t.calls && s'.t.issued == s.t.issued && s'.t.pipe.stopping == s.t.pipe.stopping
  }

  lemma PoppingStays(s: C.State, s1: C.State, s2: C.State, th: Thread, w: Wait)
    requires (w.pop.WaitLayer? || w.pop.WaitSaves?) && Popping(s, s1, th, w) && SameConnector(s1, s2)
    ensures Popping(s, s2, th, w)
  {
  }

  function Note(th: Thread, w: Wait): C.Step {
    C.Event(th, Bare(Kind.Metadata, w.subtype, w.ts))
  }

  /** A metadata record touches nothing but the rings. */
  lemma NotesWait(cfg: Config, s: C.State, th: Thread, w: Wait)
    requires !s.t.pipe.stopping
    ensures C.Enabled(s, Note(th, w)) && SameConnector(s, C.Next(cfg, s, Note(th, w)))
    ensures C.Next(cfg, s, Note(th, w)).t.pipe.em == Noted(cfg, s.t.pipe.em, th, w.subtype, true, w.ts)
  {
  }

  /** The metadata record comes after the pop if the wrapped call returned and before it if it raised. */
  lemma PopsAndNotes(cfg: Config, s: C.State, th: Thread, w: Wait) returns (head: seq<C.Step>, s': C.State)
    requires CanWait(s, th, w)
    ensures C.IsRun(cfg, s, head) && C.Final(cfg, s, head) == s'
    ensures Popping(s, s', th, w) && s'.t.issued == s.t.issued
    ensures s'.t.pipe.em == Noted(cfg, s.t.pipe.em, th, w.subtype, true, w.ts)
  {
    var first, second := if w.pop.raised then Note(th, w) else w.pop, if w.pop.raised then w.pop else Note(th, w);
    var s1;
    if w.pop.raised {
      s1, s' := NoteThenPop(cfg, s, th, w);
    } else {
      s1, s' := PopThenNote(cfg, s, th, w);
    }
    RunOfOne(cfg, s, first);
    RunOfOne(cfg, s1, second);
    RunsCompose(cfg, s, [first], [second]);
    head := [first] + [second];
  }

  lemma NoteThenPop(cfg: Config, s: C.State, th: Thread, w: Wait) returns (s1: C.State, s2: C.State)
    requires CanWait(s, th, w)
    ensures C.Enabled(s, Note(th, w)) && s1 == C.Next(cfg, s, Note(th, w))
    ensures C.Enabled(s1, w.pop) && s2 == C.Next(cfg, s1, w.pop)
    ensures Popping(s, s2, th, w) && s2.t.issued == s.t.issued
    ensures s2.t.pipe.em == Noted(cfg, s.t.pipe.em, th, w.subtype, true, w.ts)
  {
    NotesWait(cfg, s, th, w);
    s1 := C.Next(cfg, s, Note(th, w));
    PopsEntries(cfg, s1, th, w);
    s2 := C.Next(cfg, s1, w.pop);
  }

  lemma PopThenNote(cfg: Config, s: C.State, th: Thread, w: Wait) returns (s1: C.State, s2: C.State)
    requires CanWait(s, th, w)
    ensures C.Enabled(s, w.pop) && s1 == C.Next(cfg, s, w.pop)
    ensures C.Enabled(s1, Note(th, w)) && s2 == C.Next(cfg, s1, Note(th, w))
    ensures Popping(s, s2, th, w) && s2.t.issued == s.t.issued
    ensures s2.t.pipe.em == Noted(cfg, s.t.pipe.em, th, w.subtype, true, w.ts)
  {
    PopsEntries(cfg, s, th, w);
    s1 := C.Next(cfg, s, w.pop);
    NotesWait(cfg, s1, th, w);
    s2 := C.Next(cfg, s1, Note(th, w));
    PoppingStays(s, s1, s2, th, w);
  }

  lemma WaitBegins(cfg: Config, s: C.State, th: Thread, w: Wait, sampled: bool) returns (head: seq<C.Step>, s': C.State)
    requires CanWait(s, th, w)
    ensures C.IsRun(cfg, s, head) && C.Final(cfg, s, head) == s'
    ensures Popping(s, s', th, w) && s'.t.issued == s.t.issued
    ensures s'.t.pipe.em == Noted(cfg, s.t.pipe.em, th, w.subtype, sampled, w.ts)
  {
    if sampled {
      head, s' := PopsAndNotes(cfg, s, th, w);
    } else {
      PopsEntries(cfg, s, th, w);
      RunOfOne(cfg, s, w.pop);
      head, s' := [w.pop], C.Next(cfg, s, w.pop);
    }
  }

  /** A wait that nothing interleaves. */
  lemma WaitIsRun(cfg: Config, s: C.State, th: Thread, w: Wait, sampled: bool, clock: nat -> int)
    returns (run: seq<C.Step>)
    requires CanWait(s, th, w) && Timely(s, w.entries, clock)
    ensures C.IsRun(cfg, s, run)
    ensures var s' := C.Final(cfg, s, run);
      && s'.t.pipe.em == EndAll(cfg, Noted(cfg, s.t.pipe.em, th, w.subtype, sampled, w.ts), th,
                                w.entries, w.pop.raised, clock)
      && s'.loads == LoadsLeft(s, w.pop) && s'.saves == SavesLeft(s, w.pop)
      && forall other :: C.StackOf(s', other) == C.StackOf(s, other)
  {
    var head, s1 := WaitBegins(cfg, s, th, w, sampled);
    var rest := UninterruptedEnds(cfg, s1, th, w.entries, w.pop.raised, clock);
    RunsCompose(cfg, s, head, rest);
    run := head + rest;
  }

  lemma PoppedMirrors(ids: map<Layer, seq<TransferId>>, loads: map<Layer, seq<Entry>>, layer: Layer)
    requires Mirrors(ids, loads)
    ensures Popped(ids, layer) == Ids(Popped(loads, layer)) && Mirrors(Rest(ids, layer), Rest(loads, layer))
  {
  }

  /** `WaitForLayerLoad` of an enabled wrapper. */
  lemma UninterruptedWait(cfg: Config, s: C.State, loads: map<Layer, seq<Entry>>, th: Thread, layer: Layer,
                          sampled: bool, raised: bool, ts: int, clock: nat -> int) returns (run: seq<C.Step>)
    requires Mirrors(s.loads, loads) && !C.TopIs(s, th, false) && T.CallOf(s.t, th).Idle?
    requires Timely(s, Popped(loads, layer), clock) && !s.t.pipe.stopping
    ensures C.IsRun(cfg, s, run)
    ensures var s' := C.Final(cfg, s, run);
      && s'.t.pipe.em == EndAll(cfg, Noted(cfg, s.t.pipe.em, th, WAIT_FOR_LAYER_LOAD, sampled, ts), th,
                                Popped(loads, layer), raised, clock)
      && Mirrors(s'.loads, Rest(loads, layer)) && s'.saves == s.saves
      && forall other :: C.StackOf(s', other) == C.StackOf(s, other)
  {
    PoppedMirrors(s.loads, loads, layer);
    var w := Wait(C.WaitLayer(th, layer, raised), Popped(loads, layer), WAIT_FOR_LAYER_LOAD, ts);
    run := WaitIsRun(cfg, s, th, w, sampled, clock);
  }

  /** `WaitForSave` of an enabled wrapper. */
  lemma UninterruptedWaitForSave(cfg: Config, s: C.State, saves: seq<Entry>, th: Thread,
                                 sampled: bool, raised: bool, ts: int, clock: nat -> int) returns (run: seq<C.Step>)
    requires s.saves == Ids(saves) && !C.TopIs(s, th, false) && T.CallOf(s.t, th).Idle?
    requires Timely(s, saves, clock) && !s.t.pipe.stopping
    ensures C.IsRun(cfg, s, run)
    ensures var s' := C.Final(cfg, s, run);
      && s'.t.pipe.em == EndAll(cfg, Noted(cfg, s.t.pipe.em, th, WAIT_FOR_SAVE, sampled, ts), th, saves, raised, clock)
      && s'.loads == s.loads && s'.saves == []
      && forall other :: C.StackOf(s', other) == C.StackOf(s, other)
  {
    run := WaitIsRun(cfg, s, th, Wait(C.WaitSaves(th, raised), saves, WAIT_FOR_SAVE, ts), sampled, clock);
  }

  // ------------------------------------------------------------------- starts

  /** The start is issued and the wrapped call entered. */
  ghost predicate Entered(s: C.State, s': C.State, th: Thread, tid: TransferId, use: C.Use, ts: int) {
    && C.StackOf(s', th) == C.StackOf(s, th) + [C.Inside(tid, use)]
    && s'.loads == s.loads && s'.saves == s.saves
    && tid in s'.t.issued && s'.t.issued[tid].startTs == ts && !s'.t.pipe.stopping
    && forall other :: other != th ==> C.StackOf(s', other) == C.StackOf(s, other)
  }

  lemma Starts(cfg: Config, s: C.State, th: Thread, tid: TransferId, use: C.Use, meta: Meta,
               request: Option<RequestId>, sampled: bool, ts: int)
    requires !C.TopIs(s, th, false) && T.CallOf(s.t, th).Idle? && tid !in s.t.issued
    requires !s.t.pipe.stopping
    ensures var step := C.Start(th, tid, use, meta, request, sampled, ts);
      && C.Enabled(s, step)
      && var s' := C.Next(cfg, s, step);
      && Entered(s, s', th, tid, use, ts)
      && T.CallOf(s'.t, th) == (if sampled then T.Registering(tid, meta) else T.Idle)
      && s'.t.pipe.em == if sampled then Enqueue(cfg, s.t.pipe.em, th, Stamp(cfg, StartRecord(tid, meta, request, ts)))
                         else s.t.pipe.em
  {
  }

  lemma Registers(cfg: Config, s: C.State, th: Thread)
    requires T.CallOf(s.t, th).Registering?
    ensures C.Enabled(s, C.Register(th))
    ensures var s', c := C.Next(cfg, s, C.Register(th)), T.CallOf(s.t, th);
      && s'.(t := s.t) == s && SameStarts(s, s') && s'.t.issued.Keys == s.t.issued.Keys
      && s'.t.pipe.stopping == s.t.pipe.stopping
      && T.CallOf(s'.t, th).Idle? && s'.t.pipe.em == SetLive(s.t.pipe.em, c.tid, c.meta)
  {
  }

  lemma UninterruptedStart(cfg: Config, s: C.State, th: Thread, tid: TransferId, use: C.Use, meta: Meta,
                           request: Option<RequestId>, sampled: bool, ts: int) returns (run: seq<C.Step>, s': C.State)
    requires !C.TopIs(s, th, false) && T.CallOf(s.t, th).Idle? && tid !in s.t.issued
    requires !s.t.pipe.stopping
    ensures C.IsRun(cfg, s, run) && C.Final(cfg, s, run) == s'
    ensures Entered(s, s', th, tid, use, ts) && T.CallOf(s'.t, th).Idle?
    ensures s'.t.pipe.em == StartIfSampled(cfg, true, s.t.pipe.em, th, tid, meta, request, sampled, ts)
  {
    var first := C.Start(th, tid, use, meta, request, sampled, ts);
    Starts(cfg, s, th, tid, use, meta, request, sampled, ts);
    RunOfOne(cfg, s, first);
    run, s' := [first], C.Next(cfg, s, first);
    if sampled {
      var s1 := s';
      Registers(cfg, s1, th);
      RunOfOne(cfg, s1, C.Register(th));
      RunsCompose(cfg, s, [first], [C.Register(th)]);
      run, s' := [first] + [C.Register(th)], C.Next(cfg, s1, C.Register(th));
    }
  }

  function LoadsWith(s: C.State, use: C.Use, tid: TransferId): map<Layer, seq<TransferId>> {
    if use.ForLoad? then AddLoad(s.loads, use.layer, tid) else s.loads
  }

  function SavesWith(s: C.State, use: C.Use, tid: TransferId): seq<TransferId> {
    if use.ForSave? then s.saves + [tid] else s.saves
  }

  lemma Leaves(cfg: Config, s: C.State, th: Thread, entry: Entry, use: C.Use, raised: bool)
    requires C.TopIs(s, th, true) && C.Top(s, th) == C.Inside(entry.tid, use) && !use.Bracket?
    requires T.CallOf(s.t, th).Idle? && !s.t.pipe.stopping
    ensures var step := if raised then C.InnerRaises(th) else C.InnerReturns(th);
      && C.Enabled(s, step)
      && var s', k := C.Next(cfg, s, step), C.StackOf(s, th);
      && s'.t == s.t
      && s'.loads == (if raised then s.loads else LoadsWith(s, use, entry.tid))
      && s'.saves == (if raised then s.saves else SavesWith(s, use, entry.tid))
      && (raised ==> Closing(s', th, [entry], true) && C.StackOf(s', th)[..|C.StackOf(s', th)| - 1] == k[..|k| - 1])
      && (!raised ==> C.StackOf(s', th) == k[..|k| - 1])
      && forall other :: other != th ==> C.StackOf(s', other) == C.StackOf(s, other)
  {
    var s', k := C.Next(cfg, s, if raised then C.InnerRaises(th) else C.InnerReturns(th)), C.StackOf(s, th);
    if raised {
      assert C.Top(s', th) == C.Closing([entry.tid], 0, true);
      assert [entry.tid][0..] == Ids([entry]);
    }
  }

  /** The wrapped call ends: its transfer is parked, or cancelled at once. */
  lemma UninterruptedLeave(cfg: Config, s: C.State, th: Thread, entry: Entry, use: C.Use, raised: bool, endTs: int)
    returns (run: seq<C.Step>)
    requires C.TopIs(s, th, true) && C.Top(s, th) == C.Inside(entry.tid, use) && !use.Bracket?
    requires T.CallOf(s.t, th).Idle? && !s.t.pipe.stopping && T.StartedBy(s.t, entry.tid, endTs)
    ensures C.IsRun(cfg, s, run)
    ensures var s', k := C.Final(cfg, s, run), C.StackOf(s, th);
      && s'.t.pipe.em == (if raised then EndIfLive(cfg, true, s.t.pipe.em, th, entry.tid, None, true, endTs)
                            else s.t.pipe.em)
      && s'.loads == (if raised then s.loads else LoadsWith(s, use, entry.tid))
      && s'.saves == (if raised then s.saves else SavesWith(s, use, entry.tid))
      && C.StackOf(s', th) == k[..|k| - 1]
      && forall other :: other != th ==> C.StackOf(s', other) == C.StackOf(s, other)
  {
    var step := if raised then C.InnerRaises(th) else C.InnerReturns(th);
    Leaves(cfg, s, th, entry, use, raised);
    var s1 := C.Next(cfg, s, step);
    RunOfOne(cfg, s, step);
    run := [step];
    if raised {
      var rest := UninterruptedEnds(cfg, s1, th, [entry], true, _ => endTs);
      assert [entry][..0] == [];
      RunsCompose(cfg, s, [step], rest);
      run := [step] + rest;
    }
  }

  /** A start around a call that does nothing else. */
  lemma CallIsRun(cfg: Config, s: C.State, th: Thread, entry: Entry, use: C.Use, meta: Meta,
                  sampled: bool, raised: bool, ts: int, endTs: int) returns (run: seq<C.Step>)
    requires !C.TopIs(s, th, false) && T.CallOf(s.t, th).Idle? && entry.tid !in s.t.issued && !use.Bracket?
    requires ts <= endTs && !s.t.pipe.stopping
    ensures C.IsRun(cfg, s, run)
    ensures var s' := C.Final(cfg, s, run);
      var started := StartIfSampled(cfg, true, s.t.pipe.em, th, entry.tid, meta, entry.request, sampled, ts);
      && s'.t.pipe.em == (if raised then EndIfLive(cfg, true, started, th, entry.tid, None, true, endTs) else started)
      && s'.loads == (if raised then s.loads else LoadsWith(s, use, entry.tid))
      && s'.saves == (if raised then s.saves else SavesWith(s, use, entry.tid))
      && forall other :: C.StackOf(s', other) == C.StackOf(s, other)
  {
    var k := C.StackOf(s, th);
    var head, s1 := UninterruptedStart(cfg, s, th, entry.tid, use, meta, entry.request, sampled, ts);
    assert C.StackOf(s1, th)[..|k|] == k;
    var rest := UninterruptedLeave(cfg, s1, th, entry, use, raised, endTs);
    RunsCompose(cfg, s, head, rest);
    run := head + rest;
  }

  lemma AddsMirror(ids: map<Layer, seq<TransferId>>, loads: map<Layer, seq<Entry>>, entry: Entry)
    requires Mirrors(ids, loads)
    ensures Mirrors(AddLoad(ids, entry.layer, entry.tid), AddLoad(loads, entry.layer, entry))
  {
  }

  /** `StartLoadKv` of an enabled wrapper around a call that does nothing else. */
  lemma UninterruptedLoad(cfg: Config, s: C.State, loads: map<Layer, seq<Entry>>, th: Thread, entry: Entry,
                          sampled: bool, raised: bool, ts: int, endTs: int) returns (run: seq<C.Step>)
    requires Mirrors(s.loads, loads) && !C.TopIs(s, th, false) && T.CallOf(s.t, th).Idle? && entry.tid !in s.t.issued
    requires ts <= endTs && !s.t.pipe.stopping
    ensures C.IsRun(cfg, s, run)
    ensures var s', meta := C.Final(cfg, s, run), Meta(Load, "kv");
      var started := StartIfSampled(cfg, true, s.t.pipe.em, th, entry.tid, meta, entry.request, sampled, ts);
      && s'.t.pipe.em == (if raised then EndIfLive(cfg, true, started, th, entry.tid, None, true, endTs) else started)
      && Mirrors(s'.loads, if raised then loads else AddLoad(loads, entry.layer, entry)) && s'.saves == s.saves
      && forall other :: C.StackOf(s', other) == C.StackOf(s, other)
  {
    AddsMirror(s.loads, loads, entry);
    run := CallIsRun(cfg, s, th, entry, C.ForLoad(entry.layer), Meta(Load, "kv"), sampled, raised, ts, endTs);
  }

  /** `SaveKvLayer` of an enabled wrapper around a call that does nothing else. */
  lemma UninterruptedSave(cfg: Config, s: C.State, saves: seq<Entry>, th: Thread, entry: Entry,
                          sampled: bool, raised: bool, ts: int, endTs: int) returns (run: seq<C.Step>)
    requires s.saves == Ids(saves) && !C.TopIs(s, th, false) && T.CallOf(s.t, th).Idle? && entry.tid !in s.t.issued
    requires ts <= endTs && !s.t.pipe.stopping
    ensures C.IsRun(cfg, s, run)
    ensures var s', meta := C.Final(cfg, s, run), Meta(Save, "kv");
      var started := StartIfSampled(cfg, true, s.t.pipe.em, th, entry.tid, meta, entry.request, sampled, ts);
      && s'.t.pipe.em == (if raised then EndIfLive(cfg, true, started, th, entry.tid, None, true, endTs) else started)
      && s'.loads == s.loads && s'.saves == Ids(if raised then saves else saves + [entry])
      && forall other :: C.StackOf(s', other) == C.StackOf(s, other)
  {
    assert Ids(saves + [entry]) == Ids(saves) + [entry.tid];
    run := CallIsRun(cfg, s, th, entry, C.ForSave, Meta(Save, "kv"), sampled, raised, ts, endTs);
  }
}
