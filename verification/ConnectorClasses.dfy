/**
 The connector wrapper's objects.  The wrapped call is given as its outcome; what
 other threads do meanwhile is ConnectorProtocol's business.
 */
module ConnectorClasses {
  import opened Records
  import opened EmitterModel
  import opened EmitterClasses
  import opened Sequences
  import opened Buckets

  /** One issued transfer waiting for its end, and the time read before it was started. */
  datatype Entry = Entry(tid: TransferId, started: int, request: Option<RequestId>, layer: Layer)

  /** The effect of ending one popped entry; a cancel does not carry the request. */
  function EndOne(cfg: Config, em: EmitterState, th: Thread, e: Entry, cancelled: bool, ts: int): EmitterState {
    EndIfLive(cfg, true, em, th, e.tid, if cancelled then None else e.request, cancelled, ts)
  }

  /** ... and of ending several, one after the other; each end reads the clock anew. */
  function EndAll(cfg: Config, em: EmitterState, th: Thread, entries: seq<Entry>, cancelled: bool,
                  clock: nat -> int): EmitterState {
    if entries == [] then em
    else
      var last := |entries| - 1;
      EndOne(cfg, EndAll(cfg, em, th, entries[..last], cancelled, clock), th, entries[last], cancelled, clock(last))
  }

  lemma EndOneEnds(cfg: Config, em: EmitterState, th: Thread, e: Entry, cancelled: bool, ts: int)
    ensures EndOne(cfg, em, th, e, cancelled, ts).live == em.live - {e.tid}
  {
  }

  /** Ending a bucket takes each of its ids off the live map and no other. */
  lemma {:induction false} EndAllEndsEach(cfg: Config, em: EmitterState, th: Thread, entries: seq<Entry>,
                                          cancelled: bool, clock: nat -> int)
    ensures var em' := EndAll(cfg, em, th, entries, cancelled, clock);
      && (forall tid :: tid in em'.live <==> tid in em.live && forall e :: e in entries ==> e.tid != tid)
      && (forall tid :: tid in em'.live ==> em'.live[tid] == em.live[tid])
    decreases |entries|
  {
    if entries == [] {
    } else {
      var front, last := entries[..|entries| - 1], entries[|entries| - 1];
      EndAllEndsEach(cfg, em, th, front, cancelled, clock);
      EndOneEnds(cfg, EndAll(cfg, em, th, front, cancelled, clock), th, last, cancelled, clock(|front|));
      assert forall e :: e in entries <==> e in front || e == last;
    }
  }

  /** What the terminal record of a popped entry says. */
  predicate TellsOf(r: Record, e: Entry, meta: Meta, cancelled: bool, ts: int) {
    && Closes(r, e.tid) && (r.subtype == Some(Cancel) <==> cancelled)
    && r.ts == Some(ts) && r.detail == Move(meta)
    && r.request == (if cancelled then None else e.request)
  }

  /** The entries' ids are live and different, and there is room for a record of each. */
  ghost predicate CanEnd(cfg: Config, em: EmitterState, th: Thread, entries: seq<Entry>) {
    && (forall i :: 0 <= i < |entries| ==> entries[i].tid in em.live)
    && (forall i, j :: 0 <= i < j < |entries| ==> entries[i].tid != entries[j].tid)
    && |RingOf(em, th).items| + |entries| <= cfg.capacity
  }

  /** Each popped entry that is live gets its own terminal record, in order, each with its own stamp. */
  lemma {:induction false} EndAllRecords(cfg: Config, em: EmitterState, th: Thread, entries: seq<Entry>,
                                         cancelled: bool, clock: nat -> int) returns (records: seq<Record>)
    requires CanEnd(cfg, em, th, entries)
    ensures RingOf(EndAll(cfg, em, th, entries, cancelled, clock), th).items == RingOf(em, th).items + records
    ensures |records| == |entries|
    ensures forall i :: 0 <= i < |records| ==>
      TellsOf(records[i], entries[i], em.live[entries[i].tid], cancelled, clock(i))
    decreases |entries|
  {
    records := [];
    if entries == [] {
      Regroup(RingOf(em, th).items, [], []);
    } else {
      var n := |entries| - 1;
      var front, last := entries[..n], entries[n];
      var em1 := EndAll(cfg, em, th, front, cancelled, clock);
      assert EndAll(cfg, em, th, entries, cancelled, clock) == EndOne(cfg, em1, th, last, cancelled, clock(n));
      EndAllEndsEach(cfg, em, th, front, cancelled, clock);
      records := EndAllRecords(cfg, em, th, front, cancelled, clock);
      hide EndAll, EndOne, TellsOf;
      var r := EndOneRecords(cfg, em1, th, last, cancelled, clock(n));
      Regroup(RingOf(em, th).items, records, [r]);
      records := records + [r];
    }
  }

  lemma EndOneRecords(cfg: Config, em: EmitterState, th: Thread, e: Entry, cancelled: bool, ts: int)
    returns (r: Record)
    requires e.tid in em.live && HasRoom(cfg, em, th)
    ensures RingOf(EndOne(cfg, em, th, e, cancelled, ts), th).items == RingOf(em, th).items + [r]
    ensures TellsOf(r, e, em.live[e.tid], cancelled, ts)
  {
    r := RingOf(EndOne(cfg, em, th, e, cancelled, ts), th).items[|RingOf(em, th).items|];
  }

  class ConnectorTransferState {
    var loads: map<Layer, seq<Entry>>
    var saves: seq<Entry>
    var earliest: map<RequestId, int>

    constructor ()
      ensures loads == map[] && saves == [] && earliest == map[]
    {
      loads, saves, earliest := map[], [], map[];
    }

    /** The first time a request is heard of is the one that is kept. */
    method RememberEarliest(request: Option<RequestId>, ts: int)
      modifies `earliest
      ensures earliest == if request.None? || request.value in old(earliest) then old(earliest)
                          else old(earliest)[request.value := ts]
    {
      if request.None? {
        return;
      }
      if request.value !in earliest {
        earliest := earliest[request.value := ts];
      }
    }

    method EarliestFor(request: Option<RequestId>) returns (ts: Option<int>)
      ensures ts.Some? <==> request.Some? && request.value in earliest
      ensures ts.Some? ==> ts.value == earliest[request.value]
    {
      if request.None? || request.value !in earliest {
        return None;
      }
      return Some(earliest[request.value]);
    }

    method AddLoad(layer: Layer, entry: Entry)
      modifies `loads
      ensures loads == Buckets.AddLoad(old(loads), layer, entry)
    {
      if layer !in loads {
        loads := loads[layer := []];
      }
      loads := loads[layer := loads[layer] + [entry]];
    }

    method PopLoads(layer: Layer) returns (entries: seq<Entry>)
      modifies `loads
      ensures entries == Popped(old(loads), layer) && loads == Rest(old(loads), layer)
    {
      if layer in loads {
        entries := loads[layer];
        loads := loads - {layer};
      } else if layer.Some? && None in loads {
        entries := loads[None];
        loads := loads - {None};
      } else {
        entries := [];
      }
    }

    method AddSave(entry: Entry)
      modifies `saves
      ensures saves == old(saves) + [entry]
    {
      saves := saves + [entry];
    }

    method PopSaves() returns (entries: seq<Entry>)
      modifies `saves
      ensures entries == old(saves) && saves == []
    {
      entries, saves := saves, [];
    }
  }

  class TracingConnectorWrapper {
    const em: Emitter
    const state: ConnectorTransferState

    constructor (em: Emitter)
      ensures this.em == em && fresh(state)
      ensures state.loads == map[] && state.saves == [] && state.earliest == map[]
    {
      this.em := em;
      state := new ConnectorTransferState();
    }

    /** End each popped entry in turn. */
    method EndEntries(th: Thread, entries: seq<Entry>, cancelled: bool, clock: nat -> int)
      requires em.Valid() && em.enabled
      modifies em, em.repr
      ensures em.Valid() && fresh(em.repr - old(em.repr))
      ensures em.View() == EndAll(em.cfg, old(em.View()), th, entries, cancelled, clock)
    {
      var i := 0;
      while i < |entries|
        invariant 0 <= i <= |entries| && em.Valid() && fresh(em.repr - old(em.repr))
        invariant em.View() == EndAll(em.cfg, old(em.View()), th, entries[..i], cancelled, clock)
      {
        assert entries[..i + 1][..i] == entries[..i];
        em.TransferEnd(th, entries[i].tid, if cancelled then None else entries[i].request, cancelled, clock(i));
        i := i + 1;
      }
      assert entries[..i] == entries;
    }

    /**
     Start a load: parked in its layer's bucket if the wrapped call returns, cancelled
     if it raises.  `started` is read before the start record's own stamp `ts`.  `known` is
     the earliest time the start record claims: that of the request if it was heard of
     before, at a time that is not zero, or else `started`.
     */
    method StartLoadKv(th: Thread, tid: TransferId, layer: Layer, request: Option<RequestId>, sampled: bool,
                       started: int, ts: int, inner: Outcome, endTs: int) returns (out: Outcome, known: int)
      requires em.Valid()
      modifies em, em.repr, state`loads
      ensures em.Valid() && fresh(em.repr - old(em.repr)) && out == inner
      ensures known == if request.Some? && request.value in state.earliest && state.earliest[request.value] != 0
                       then state.earliest[request.value] else started
      ensures state.loads == if em.enabled && inner.Returned?
                             then Buckets.AddLoad(old(state.loads), layer, Entry(tid, started, request, layer))
                             else old(state.loads)
      ensures em.View() ==
        var meta := Meta(Load, "kv");
        var issued := StartIfSampled(em.cfg, em.enabled, old(em.View()), th, tid, meta, request, sampled, ts);
        if inner.Raised? then EndIfLive(em.cfg, em.enabled, issued, th, tid, None, true, endTs) else issued
    {
      out := inner;
      var heard := state.EarliestFor(request);
      known := if heard.Some? && heard.value != 0 then heard.value else started;
      em.TransferStart(th, tid, Meta(Load, "kv"), request, sampled, ts);
      match inner
      case Raised(_) => em.TransferEnd(th, tid, None, true, endTs);
      case Returned(_) =>
        if em.enabled { state.AddLoad(layer, Entry(tid, started, request, layer)); }
    }

    /**
     Wait for a layer: whatever the wrapped call does, its bucket is popped and every entry
     ended or cancelled.  The metadata record's stamp is read before the wrapped call, those
     of the ends after it, one by one.
     */
    method WaitForLayerLoad(th: Thread, layer: Layer, metaSampled: bool, ts: int, inner: Outcome, clock: nat -> int)
      returns (out: Outcome)
      requires em.Valid()
      modifies em, em.repr, state`loads
      ensures em.Valid() && fresh(em.repr - old(em.repr)) && out == inner
      ensures state.loads == if em.enabled then Rest(old(state.loads), layer) else old(state.loads)
      ensures em.View() == if !em.enabled then old(em.View()) else
        EndAll(em.cfg, Noted(em.cfg, old(em.View()), th, WAIT_FOR_LAYER_LOAD, metaSampled, ts), th,
               Popped(old(state.loads), layer), inner.Raised?, clock)
    {
      out := inner;
      if !em.enabled {
        return;
      }
      var loads: seq<Entry>;
      match inner
      case Returned(_) =>
        loads := state.PopLoads(layer);
        em.Metadata(th, WAIT_FOR_LAYER_LOAD, metaSampled, ts);
        EndEntries(th, loads, false, clock);
      case Raised(_) =>
        em.Metadata(th, WAIT_FOR_LAYER_LOAD, metaSampled, ts);
        loads := state.PopLoads(layer);
        EndEntries(th, loads, true, clock);
    }

    method SaveKvLayer(th: Thread, tid: TransferId, layer: Layer, request: Option<RequestId>, sampled: bool,
                       started: int, ts: int, inner: Outcome, endTs: int) returns (out: Outcome)
      requires em.Valid()
      modifies em, em.repr, state`saves
      ensures em.Valid() && fresh(em.repr - old(em.repr)) && out == inner
      ensures state.saves == if em.enabled && inner.Returned?
                             then old(state.saves) + [Entry(tid, started, request, layer)] else old(state.saves)
      ensures em.View() ==
        var meta := Meta(Save, "kv");
        var issued := StartIfSampled(em.cfg, em.enabled, old(em.View()), th, tid, meta, request, sampled, ts);
        if inner.Raised? then EndIfLive(em.cfg, em.enabled, issued, th, tid, None, true, endTs) else issued
    {
      out := inner;
      em.TransferStart(th, tid, Meta(Save, "kv"), request, sampled, ts);
      match inner
      case Raised(_) => em.TransferEnd(th, tid, None, true, endTs);
      case Returned(_) =>
        if em.enabled { state.AddSave(Entry(tid, started, request, layer)); }
    }

    method WaitForSave(th: Thread, metaSampled: bool, ts: int, inner: Outcome, clock: nat -> int)
      returns (out: Outcome)
      requires em.Valid()
      modifies em, em.repr, state`saves
      ensures em.Valid() && fresh(em.repr - old(em.repr)) && out == inner
      ensures state.saves == if em.enabled then [] else old(state.saves)
      ensures em.View() == if !em.enabled then old(em.View()) else
        EndAll(em.cfg, Noted(em.cfg, old(em.View()), th, WAIT_FOR_SAVE, metaSampled, ts), th,
               old(state.saves), inner.Raised?, clock)
    {
      out := inner;
      if !em.enabled {
        return;
      }
      var saves: seq<Entry>;
      match inner
      case Returned(_) =>
        saves := state.PopSaves();
        em.Metadata(th, WAIT_FOR_SAVE, metaSampled, ts);
        EndEntries(th, saves, false, clock);
      case Raised(_) =>
        em.Metadata(th, WAIT_FOR_SAVE, metaSampled, ts);
        saves := state.PopSaves();
        EndEntries(th, saves, true, clock);
    }
  }

  const WAIT_FOR_LAYER_LOAD: Subtype := Named(0)
  const WAIT_FOR_SAVE: Subtype := Named(1)
}
