/**
 From probes to reports: what the validator and the pairing join say about the
 files that an interleaved, instrumented run leaves behind.
 */
module EndToEnd {
  import opened Records
  import opened Sequences
  import opened EmitterModel
  import opened Streams
  import opened Codecs
  import F = TraceFiles
  import P = Pipeline
  import T = Transfers
  import C = ConnectorProtocol
  import X = Cancellations
  import V = Validator
  import J = Pairing

  // --------------------------------------------------------------- the envelope

  /** A record of this process: schema version 1, its trace, its node and its worker. */
  predicate IsAddressed(cfg: Config, r: Record) {
    r.v == Some(1) && r.trace == Some(cfg.trace) && r.node == Some(cfg.node) && r.worker == Some(cfg.worker)
  }

  /** A record that a probe may offer: a stamp, a type, and no other schema version. */
  predicate IsProper(r: Record) {
    r.ts.Some? && r.kind.Some? && (r.v.Some? ==> r.v.value == 1)
  }

  ghost predicate OffersProper(run: seq<C.Step>) {
    forall i :: 0 <= i < |run| && run[i].Event? ==> IsProper(run[i].rec)
  }

  ghost predicate Addressed(cfg: Config, rs: seq<Record>) {
    forall r :: r in rs && IsTransfer(r) ==> IsAddressed(cfg, r)
  }

  ghost predicate AllSound(rs: seq<Record>) {
    forall r :: r in rs ==> V.IsSound(V.Parsed(r, 0), true)
  }

  lemma StepAddresses(cfg: Config, s: C.State, step: C.Step)
    requires C.Enabled(s, step)
    ensures var rs, rs' := T.Enqueued(s.t), T.Enqueued(C.Next(cfg, s, step).t);
      && (Addressed(cfg, rs) ==> Addressed(cfg, rs'))
      && (AllSound(rs) && (step.Event? ==> IsProper(step.rec)) ==> AllSound(rs'))
  {
    C.LowerSteps(cfg, s, step);
    if C.Lower(s, step).Some? {
      T.OfferedIsEnqueued(cfg, s.t, C.Lower(s, step).value);
    }
  }

  lemma {:induction false} RunAddresses(cfg: Config, s: C.State, run: seq<C.Step>)
    requires C.IsRun(cfg, s, run)
    ensures var rs, rs' := T.Enqueued(s.t), T.Enqueued(C.Final(cfg, s, run).t);
      && (Addressed(cfg, rs) ==> Addressed(cfg, rs'))
      && (AllSound(rs) && OffersProper(run) ==> AllSound(rs'))
    decreases |run|
  {
    if run == [] {
    } else {
      StepAddresses(cfg, s, run[0]);
      RunAddresses(cfg, C.Next(cfg, s, run[0]), run[1..]);
    }
  }

  // ---------------------------------------------------------- lines and records

  function Batches(codec: Codec, written: seq<seq<P.Item>>): (r: seq<F.Batch>)
    ensures |r| == |written| && forall i :: 0 <= i < |r| ==> r[i] == LinesOf(codec, written[i])
  {
    seq(|written|, i requires 0 <= i < |written| => LinesOf(codec, written[i]))
  }

  function ParseLine(codec: Codec, line: string): V.Line {
    if codec.dec(line).Some? then V.Parsed(codec.dec(line).value, 0) else V.Malformed
  }

  function ParseLines(codec: Codec, lines: seq<string>): (r: seq<V.Line>)
    ensures |r| == |lines| && forall i :: 0 <= i < |r| ==> r[i] == ParseLine(codec, lines[i])
  {
    seq(|lines|, i requires 0 <= i < |lines| => ParseLine(codec, lines[i]))
  }

  /** What the validator is given: each file's lines. */
  function ParseFiles(codec: Codec, contents: seq<string>): (r: seq<seq<V.Line>>)
    ensures |r| == |contents|
    ensures forall i :: 0 <= i < |r| ==> r[i] == ParseLines(codec, F.Stripped(F.Lines(contents[i])))
  {
    seq(|contents|, i requires 0 <= i < |contents| => ParseLines(codec, F.Stripped(F.Lines(contents[i]))))
  }

  lemma {:induction false} BatchesConcat(codec: Codec, written: seq<seq<P.Item>>)
    ensures Concat(Batches(codec, written)) == LinesOf(codec, Concat(written))
    decreases |written|
  {
    if written == [] {
    } else {
      var front, last := written[..|written| - 1], written[|written| - 1];
      BatchesConcat(codec, front);
      assert Batches(codec, written)[..|front|] == Batches(codec, front);
      LinesOfSplits(codec, Concat(front), last);
    }
  }

  /** A record that the flusher writes, or leaves out because it does not serialise. */
  ghost predicate Encodes(codec: Codec, r: Record) {
    codec.enc(r).None? || Serialises(codec, r)
  }

  /** The records that serialise. */
  function Serialisable(codec: Codec, items: seq<P.Item>): seq<P.Item> {
    if items == [] then []
    else
      var last := items[|items| - 1];
      Serialisable(codec, items[..|items| - 1]) + (if codec.enc(last.rec).Some? then [last] else [])
  }

  lemma {:induction false} LinesAreClean(codec: Codec, items: seq<P.Item>)
    requires forall i :: 0 <= i < |items| ==> Encodes(codec, items[i].rec)
    ensures var lines, kept := LinesOf(codec, items), Serialisable(codec, items);
      && F.CleanLines(lines) && |lines| == |kept|
      && forall i :: 0 <= i < |kept| ==> codec.dec(lines[i]) == Some(kept[i].rec)
    decreases |items|
  {
    if items == [] {
    } else {
      LinesAreClean(codec, items[..|items| - 1]);
    }
  }

  lemma {:induction false} AllAreSerialisable(codec: Codec, items: seq<P.Item>)
    requires forall i :: 0 <= i < |items| ==> Serialises(codec, items[i].rec)
    ensures Serialisable(codec, items) == items
    decreases |items|
  {
    if items == [] {
    } else {
      AllAreSerialisable(codec, items[..|items| - 1]);
    }
  }

  lemma ParseLinesSplits(codec: Codec, a: seq<string>, b: seq<string>)
    ensures ParseLines(codec, a + b) == ParseLines(codec, a) + ParseLines(codec, b)
  {
  }

  lemma {:induction false} FilesParse(codec: Codec, contents: seq<string>)
    ensures Concat(ParseFiles(codec, contents)) == ParseLines(codec, F.ReadBack(contents))
    decreases |contents|
  {
    if contents == [] {
    } else {
      var front, last := contents[..|contents| - 1], contents[|contents| - 1];
      FilesParse(codec, front);
      assert ParseFiles(codec, contents)[..|front|] == ParseFiles(codec, front);
      ParseLinesSplits(codec, F.ReadBack(front), F.Stripped(F.Lines(last)));
    }
  }

  lemma {:induction false} DecodesBack(lines: seq<V.Line>, rs: seq<Record>)
    requires |lines| == |rs| && forall i :: 0 <= i < |rs| ==> lines[i] == V.Parsed(rs[i], 0)
    ensures V.Decoded(lines) == rs
    decreases |rs|
  {
    if rs == [] {
    } else {
      DecodesBack(lines[..|lines| - 1], rs[..|rs| - 1]);
      assert rs == rs[..|rs| - 1] + [rs[|rs| - 1]];
    }
  }

  /** The lines on file are those of the written records that serialise, in order; the others are left out. */
  lemma FilesHoldSerialised(codec: Codec, written: seq<seq<P.Item>>, rotateBytes: int)
    requires forall i :: 0 <= i < |Concat(written)| ==> Encodes(codec, Concat(written)[i].rec)
    ensures var lines := Concat(ParseFiles(codec, F.Contents(F.Layout(Batches(codec, written), rotateBytes))));
      var kept := Serialisable(codec, Concat(written));
      |lines| == |kept| && forall i :: 0 <= i < |lines| ==> lines[i] == V.Parsed(kept[i].rec, 0)
  {
    var items, batches := Concat(written), Batches(codec, written);
    var contents := F.Contents(F.Layout(batches, rotateBytes));
    forall i | 0 <= i < |batches|
      ensures F.CleanLines(batches[i])
    {
      forall j | 0 <= j < |written[i]|
        ensures Encodes(codec, written[i][j].rec)
      {
        PartsAreInConcat(written, written[i], written[i][j]);
      }
      LinesAreClean(codec, written[i]);
    }
    F.ReadBackIsExact(batches, rotateBytes);
    BatchesConcat(codec, written);
    LinesAreClean(codec, items);
    FilesParse(codec, contents);
  }

  /** The records on file are the written ones, in order, if all of them serialise. */
  lemma FilesHoldWritten(codec: Codec, written: seq<seq<P.Item>>, rotateBytes: int)
    requires forall i :: 0 <= i < |Concat(written)| ==> Serialises(codec, Concat(written)[i].rec)
    ensures var lines := Concat(ParseFiles(codec, F.Contents(F.Layout(Batches(codec, written), rotateBytes))));
      |lines| == |Concat(written)| && forall i :: 0 <= i < |lines| ==> lines[i] == V.Parsed(Concat(written)[i].rec, 0)
    ensures V.Decoded(Concat(ParseFiles(codec, F.Contents(F.Layout(Batches(codec, written), rotateBytes)))))
            == T.Recs(Concat(written))
  {
    FilesHoldSerialised(codec, written, rotateBytes);
    AllAreSerialisable(codec, Concat(written));
    DecodesBack(Concat(ParseFiles(codec, F.Contents(F.Layout(Batches(codec, written), rotateBytes)))),
                T.Recs(Concat(written)));
  }

  // -------------------------------------------------------- enqueued and on file

  function Without<X>(items: seq<X>, k: nat): seq<X>
    requires k < |items|
  {
    items[..k] + items[k + 1..]
  }

  lemma WithoutOne<X>(items: seq<X>, k: nat)
    requires k < |items|
    ensures multiset(Without(items, k)) == multiset(items) - multiset{items[k]}
    ensures items[k] in multiset(items)
  {
    assert items == items[..k] + ([items[k]] + items[k + 1..]);
  }

  lemma AddBack<X>(a: multiset<X>, b: multiset<X>, x: X)
    requires x in a && x in b && a - multiset{x} == b - multiset{x}
    ensures a == b
  {
    assert a == a - multiset{x} + multiset{x} && b == b - multiset{x} + multiset{x};
  }

  lemma RecsWithoutOne(items: seq<P.Item>, k: nat)
    requires k < |items|
    ensures multiset(T.Recs(Without(items, k))) == multiset(T.Recs(items)) - multiset{items[k].rec}
    ensures items[k].rec in multiset(T.Recs(items))
  {
    WithoutOne(T.Recs(items), k);
    assert T.Recs(Without(items, k)) == Without(T.Recs(items), k);
  }

  lemma {:induction false} RecsPermute(a: seq<P.Item>, b: seq<P.Item>)
    requires multiset(a) == multiset(b)
    ensures multiset(T.Recs(a)) == multiset(T.Recs(b))
    decreases |a|
  {
    if a == [] {
      assert |multiset(b)| == |b|;
    } else {
      assert a[0] in multiset(b);
      var k :| 0 <= k < |b| && b[k] == a[0];
      WithoutOne(a, 0);
      WithoutOne(b, k);
      RecsPermute(Without(a, 0), Without(b, k));
      RecsWithoutOne(a, 0);
      RecsWithoutOne(b, k);
      AddBack(multiset(T.Recs(a)), multiset(T.Recs(b)), a[0].rec);
    }
  }

  /** The premises of a complete trace. */
  ghost predicate Complete(cfg: Config, codec: Codec, run: seq<C.Step>)
    requires C.IsRun(cfg, C.Init(), run)
  {
    var s := C.Final(cfg, C.Init(), run);
    && C.AtomicDrains(run)
    && s.t.pipe.fl.Closed?                                     // the final drain is done
    && s.t.pipe.em.refused == 0
    && (forall r :: r in T.Enqueued(s.t) ==> Serialises(codec, r))
    && (forall th: Thread :: T.CallOf(s.t, th).Idle?)
  }

  /** The run's files, line by line. */
  ghost function FilesOf(cfg: Config, codec: Codec, run: seq<C.Step>, rotateBytes: int): seq<seq<V.Line>>
    requires C.IsRun(cfg, C.Init(), run)
  {
    ParseFiles(codec, F.Contents(F.Layout(Batches(codec, C.Final(cfg, C.Init(), run).t.pipe.written), rotateBytes)))
  }

  /** The records that reading the run's files back yields. */
  ghost function OnFile(cfg: Config, codec: Codec, run: seq<C.Step>, rotateBytes: int): seq<Record>
    requires C.IsRun(cfg, C.Init(), run)
  {
    V.Decoded(Concat(FilesOf(cfg, codec, run, rotateBytes)))
  }

  /** What the flusher wrote is what the rings accepted. */
  lemma WrittenIsEnqueued(cfg: Config, codec: Codec, run: seq<C.Step>)
    requires C.IsRun(cfg, C.Init(), run) && Complete(cfg, codec, run)
    ensures var s := C.Final(cfg, C.Init(), run);
      && multiset(T.Recs(Concat(s.t.pipe.written))) == multiset(T.Enqueued(s.t))
      && forall i :: 0 <= i < |Concat(s.t.pipe.written)| ==>
           Concat(s.t.pipe.written)[i].rec in T.Enqueued(s.t) && Serialises(codec, Concat(s.t.pipe.written)[i].rec)
  {
    var s := C.Final(cfg, C.Init(), run);
    var pipe := s.t.pipe;
    C.InitInv();
    C.RunKeepsInv(cfg, C.Init(), run);
    C.AtomicRunIsUndivided(cfg, C.Init(), run);
    P.ClosedIsComplete(pipe);
    RecsPermute(Concat(pipe.written), P.Items(pipe.accepted));
    forall i | 0 <= i < |Concat(pipe.written)|
      ensures Concat(pipe.written)[i].rec in T.Enqueued(s.t)
    {
      var r := T.Recs(Concat(pipe.written))[i];
      assert r in multiset(T.Recs(Concat(pipe.written)));
      assert r in multiset(T.Enqueued(s.t));
    }
  }

  lemma OnFileIsEnqueued(cfg: Config, codec: Codec, run: seq<C.Step>, rotateBytes: int)
    requires C.IsRun(cfg, C.Init(), run) && Complete(cfg, codec, run)
    ensures multiset(OnFile(cfg, codec, run, rotateBytes)) == multiset(T.Enqueued(C.Final(cfg, C.Init(), run).t))
  {
    WrittenIsEnqueued(cfg, codec, run);
    FilesHoldWritten(codec, C.Final(cfg, C.Init(), run).t.pipe.written, rotateBytes);
  }

  /** Each line parses to one of the records, without a violation. */
  ghost predicate AreLinesOf(lines: seq<V.Line>, rs: seq<Record>) {
    forall i :: 0 <= i < |lines| ==> lines[i].Parsed? && lines[i].schemaErrors == 0 && lines[i].rec in rs
  }

  /** Every line on file parses to an enqueued record. */
  lemma LinesAreEnqueued(cfg: Config, codec: Codec, run: seq<C.Step>, rotateBytes: int)
    requires C.IsRun(cfg, C.Init(), run) && Complete(cfg, codec, run)
    ensures AreLinesOf(Concat(FilesOf(cfg, codec, run, rotateBytes)), T.Enqueued(C.Final(cfg, C.Init(), run).t))
  {
    WrittenIsEnqueued(cfg, codec, run);
    FilesHoldWritten(codec, C.Final(cfg, C.Init(), run).t.pipe.written, rotateBytes);
  }

  /** Every transfer record on file carries the envelope of this process, whatever else is on file. */
  lemma EnvelopeOnFile(cfg: Config, codec: Codec, run: seq<C.Step>, rotateBytes: int)
    requires C.IsRun(cfg, C.Init(), run) && Complete(cfg, codec, run)
    ensures Addressed(cfg, OnFile(cfg, codec, run, rotateBytes))
  {
    RunAddresses(cfg, C.Init(), run);
    OnFileIsEnqueued(cfg, codec, run, rotateBytes);
    forall r | r in OnFile(cfg, codec, run, rotateBytes)
      ensures r in T.Enqueued(C.Final(cfg, C.Init(), run).t)
    {
      assert r in multiset(OnFile(cfg, codec, run, rotateBytes));
    }
  }

  /**
   If the probes offer only records with a stamp and a type, the validator finds no
   error in the files, and lets them pass where it is not strict.
   */
  lemma FilesAreSound(cfg: Config, codec: Codec, run: seq<C.Step>, rotateBytes: int, useSchema: bool)
    requires C.IsRun(cfg, C.Init(), run) && Complete(cfg, codec, run) && OffersProper(run)
    ensures V.Errors(Concat(FilesOf(cfg, codec, run, rotateBytes)), useSchema) == 0
    ensures V.Passes(FilesOf(cfg, codec, run, rotateBytes), useSchema, false)
  {
    var lines := Concat(FilesOf(cfg, codec, run, rotateBytes));
    RunAddresses(cfg, C.Init(), run);
    LinesAreEnqueued(cfg, codec, run, rotateBytes);
    SoundLines(lines, T.Enqueued(C.Final(cfg, C.Init(), run).t), useSchema);
    V.NoErrorsExactly(lines, useSchema);
  }

  lemma SoundLines(lines: seq<V.Line>, rs: seq<Record>, useSchema: bool)
    requires AreLinesOf(lines, rs) && AllSound(rs)
    ensures forall i :: 0 <= i < |lines| ==> V.IsSound(lines[i], useSchema)
  {
    forall i | 0 <= i < |lines|
      ensures V.IsSound(lines[i], useSchema)
    {
      assert V.IsSound(V.Parsed(lines[i].rec, 0), true);
    }
  }

  /** A record on file is the offered one: its own fields stay, and the envelope is filled in where it was missing. */
  predicate IsFilledIn(cfg: Config, o: Record, r: Record) {
    && r.ts == o.ts && r.kind == o.kind && r.subtype == o.subtype
    && r.transfer == o.transfer && r.request == o.request && r.detail == o.detail
    && (if o.v.Some? then r.v == o.v else r.v == Some(1))
    && (if o.trace.Some? then r.trace == o.trace else r.trace == Some(cfg.trace))
    && (if o.node.Some? then r.node == o.node else r.node == Some(cfg.node))
    && (if o.worker.Some? then r.worker == o.worker else r.worker == Some(cfg.worker))
  }

  lemma StepRefuses(cfg: Config, s: C.State, step: C.Step)
    requires C.Enabled(s, step)
    ensures C.Next(cfg, s, step).t.pipe.em.refused >= s.t.pipe.em.refused
    ensures T.Enqueued(s.t) <= T.Enqueued(C.Next(cfg, s, step).t)
  {
    C.LowerSteps(cfg, s, step);
    if C.Lower(s, step).Some? {
      T.RefusedGrows(cfg, s.t, C.Lower(s, step).value);
      T.OfferedIsEnqueued(cfg, s.t, C.Lower(s, step).value);
    }
  }

  lemma {:induction false} RefusalsStay(cfg: Config, s: C.State, run: seq<C.Step>)
    requires C.IsRun(cfg, s, run)
    ensures C.Final(cfg, s, run).t.pipe.em.refused >= s.t.pipe.em.refused
    ensures T.Enqueued(s.t) <= T.Enqueued(C.Final(cfg, s, run).t)
    decreases |run|
  {
    if run == [] {
    } else {
      StepRefuses(cfg, s, run[0]);
      RefusalsStay(cfg, C.Next(cfg, s, run[0]), run[1..]);
    }
  }

  lemma EventEnqueues(cfg: Config, s: C.State, step: C.Step)
    requires C.Enabled(s, step) && step.Event?
    requires C.Next(cfg, s, step).t.pipe.em.refused == s.t.pipe.em.refused
    ensures Stamp(cfg, step.rec) in T.Enqueued(C.Next(cfg, s, step).t)
  {
    T.OfferedIsEnqueued(cfg, s.t, T.Event(step.th, step.rec));
  }

  lemma {:induction false} EventIsEnqueued(cfg: Config, s: C.State, run: seq<C.Step>, i: nat)
    requires C.IsRun(cfg, s, run) && C.Final(cfg, s, run).t.pipe.em.refused == s.t.pipe.em.refused
    requires i < |run| && run[i].Event?
    ensures Stamp(cfg, run[i].rec) in T.Enqueued(C.Final(cfg, s, run).t)
    decreases |run|
  {
    var s' := C.Next(cfg, s, run[0]);
    StepRefuses(cfg, s, run[0]);
    RefusalsStay(cfg, s', run[1..]);
    if i == 0 {
      EventEnqueues(cfg, s, run[0]);
    } else {
      EventIsEnqueued(cfg, s', run[1..], i - 1);
    }
  }

  /** Every record that a probe offers is on file, with its own fields as they were. */
  lemma EventIsOnFile(cfg: Config, codec: Codec, run: seq<C.Step>, rotateBytes: int, i: nat) returns (r: Record)
    requires C.IsRun(cfg, C.Init(), run) && Complete(cfg, codec, run)
    requires i < |run| && run[i].Event?
    ensures r in OnFile(cfg, codec, run, rotateBytes) && IsFilledIn(cfg, run[i].rec, r)
  {
    r := Stamp(cfg, run[i].rec);
    EventIsEnqueued(cfg, C.Init(), run, i);
    OnFileIsEnqueued(cfg, codec, run, rotateBytes);
    assert r in multiset(OnFile(cfg, codec, run, rotateBytes));
  }

  /**
   End to end: after any run of starts, saves, waits and bracketing wrappers,
   under any interleaving, sampling and exceptions, if no put was refused, drains
   were atomic, every record serialised and the final drain is done, the orphans
   that the validator finds on file are exactly the live transfers.
   */
  lemma OrphansOnFileAreLive(cfg: Config, codec: Codec, run: seq<C.Step>, rotateBytes: int)
    requires C.IsRun(cfg, C.Init(), run) && Complete(cfg, codec, run)
    ensures V.Orphans(V.OfTransfers, OnFile(cfg, codec, run, rotateBytes))
            == J.Keyed(cfg.trace, C.Final(cfg, C.Init(), run).t.pipe.em.live.Keys)
  {
    var s := C.Final(cfg, C.Init(), run);
    var rs := T.Enqueued(s.t);
    C.InitInv();
    C.RunKeepsInv(cfg, C.Init(), run);
    RunAddresses(cfg, C.Init(), run);
    OnFileIsEnqueued(cfg, codec, run, rotateBytes);
    V.OrphansPermute(V.OfTransfers, OnFile(cfg, codec, run, rotateBytes), rs);
    J.OrphansAreOpen(rs, cfg.trace);
    forall tid: TransferId
      ensures tid in J.OpenIn(rs, rs) <==> tid in s.t.pipe.em.live
    {
      T.OrphansAreTheLiveTransfers(s.t, tid);
      CountsArePositive(rs, tid);
      if r :| r in rs && Opens(r, tid) { assert J.IsStart(r) && r.transfer.value == tid; }
    }
    assert J.OpenIn(rs, rs) == s.t.pipe.em.live.Keys;
  }

  /** ... and none at all once every bucket, save list and call is empty. */
  lemma QuiescentRunHasNoOrphans(cfg: Config, codec: Codec, run: seq<C.Step>, rotateBytes: int)
    requires C.IsRun(cfg, C.Init(), run) && Complete(cfg, codec, run)
    requires C.Quiescent(C.Final(cfg, C.Init(), run))
    ensures V.Orphans(V.OfTransfers, OnFile(cfg, codec, run, rotateBytes)) == {}
  {
    C.InitInv();
    C.RunKeepsInv(cfg, C.Init(), run);
    C.QuiescentMeansNoLive(C.Final(cfg, C.Init(), run));
    OrphansOnFileAreLive(cfg, codec, run, rotateBytes);
  }

  lemma WellPairedPermutes(a: seq<Record>, b: seq<Record>)
    requires multiset(a) == multiset(b) && WellPaired(a)
    ensures WellPaired(b)
  {
    forall tid: TransferId
      ensures CountOpens(b, tid) <= 1 && CountCloses(b, tid) <= 1
    {
      CountsPermute(a, b, tid);
    }
    forall r | r in b
      ensures r in a
    {
      assert r in multiset(a);
    }
  }

  /**
   On the same files the pairs table has exactly one row per start, no negative
   duration, and exactly as many unmatched rows as the validator has orphans; each
   row is that of a transfer which the run issued and did not sample away.
   */
  lemma PairsOnFile(cfg: Config, codec: Codec, run: seq<C.Step>, rotateBytes: int)
    requires C.IsRun(cfg, C.Init(), run) && Complete(cfg, codec, run)
    ensures var rs, issued := OnFile(cfg, codec, run, rotateBytes), C.Final(cfg, C.Init(), run).t.issued;
      && |J.TransferPairs(rs)| == J.StartsIn(rs)
      && (forall row :: row in J.TransferPairs(rs) && row.end.Some? ==>
            row.start.ts.Some? && row.end.value.ts.Some? && row.end.value.ts.value - row.start.ts.value >= 0)
      && J.Unmatched(J.TransferPairs(rs)) == |V.Orphans(V.OfTransfers, rs)|
      && (forall row :: row in J.TransferPairs(rs) ==>
            && row.start.transfer.Some? && row.start.transfer.value in issued
            && !issued[row.start.transfer.value].phase.SampledAway?)
  {
    var s, rs := C.Final(cfg, C.Init(), run), OnFile(cfg, codec, run, rotateBytes);
    C.InitInv();
    C.RunKeepsInv(cfg, C.Init(), run);
    EnvelopeOnFile(cfg, codec, run, rotateBytes);
    OnFileIsEnqueued(cfg, codec, run, rotateBytes);
    T.EnqueuedIsWellPaired(s.t);
    WellPairedPermutes(T.Enqueued(s.t), rs);
    J.PairsOfWellPaired(rs);
    J.UnmatchedRowsAgainstOrphans(rs, cfg.trace);
    forall row | row in J.TransferPairs(rs)
      ensures row.start.transfer.Some? && row.start.transfer.value in s.t.issued
      ensures !s.t.issued[row.start.transfer.value].phase.SampledAway?
    {
      assert J.GoodRow(row, rs);
      var tid := row.start.transfer.value;
      assert Opens(row.start, tid);
      CountsArePositive(rs, tid);
      CountsPermute(rs, T.Enqueued(s.t), tid);
      assert T.StreamAgrees(s.t, tid);
    }
  }

  /** What the row of a transfer says: its start, and its end unless it is live, a cancel exactly if a call raised. */
  ghost predicate TellsOf(row: J.Row, tid: TransferId, t: T.Ticket, raised: bool) {
    && Opens(row.start, tid) && T.SaysStart(row.start, t)
    && (row.end.None? <==> t.phase.Live?)
    && (row.end.Some? ==>
          && Closes(row.end.value, tid) && T.SaysEnd(row.end.value, t)
          && row.end.value.subtype == Some(if raised then Cancel else End))
  }

  /** Each transfer that is not sampled away has its own row in the table, once, and no other. */
  lemma PairOfTransfer(cfg: Config, codec: Codec, run: seq<C.Step>, rotateBytes: int, tid: TransferId)
    returns (row: J.Row)
    requires C.IsRun(cfg, C.Init(), run) && Complete(cfg, codec, run)
    requires var issued := C.Final(cfg, C.Init(), run).t.issued; tid in issued && !issued[tid].phase.SampledAway?
    ensures var table := J.TransferPairs(OnFile(cfg, codec, run, rotateBytes));
      && multiset(table)[row] == 1
      && forall other :: other in table && other.start.transfer == Some(tid) ==> other == row
    ensures TellsOf(row, tid, C.Final(cfg, C.Init(), run).t.issued[tid], X.RaisedFor(cfg, C.Init(), run, tid))
  {
    var s, rs := C.Final(cfg, C.Init(), run), OnFile(cfg, codec, run, rotateBytes);
    C.InitInv();
    C.RunKeepsInv(cfg, C.Init(), run);
    OnFileIsEnqueued(cfg, codec, run, rotateBytes);
    OnFileShows(s.t, rs, tid);
    row := OnlyRow(rs, tid);
    X.CancelsAreRaises(cfg, run, tid);
    forall r | r in rs
      ensures r in T.Enqueued(s.t)
    {
      assert r in multiset(rs);
    }
  }

  /** With nothing refused and nobody in a call, a transfer's start is on file, and its end unless it is live. */
  lemma OnFileShows(s: T.State, rs: seq<Record>, tid: TransferId)
    requires T.Inv(s) && s.pipe.em.refused == 0 && multiset(rs) == multiset(T.Enqueued(s))
    requires forall th: Thread :: T.CallOf(s, th).Idle?
    requires tid in s.issued && !s.issued[tid].phase.SampledAway?
    ensures T.Shows(rs, tid, s.issued[tid])
    ensures CountOpens(rs, tid) == 1 && CountCloses(rs, tid) == if s.issued[tid].phase.Live? then 0 else 1
  {
    assert T.StreamAgrees(s, tid) && T.TicketAgrees(s, tid);
    CountsPermute(rs, T.Enqueued(s), tid);
    NothingLost(s, tid);
    forall r | r in rs
      ensures r in T.Enqueued(s)
    {
      assert r in multiset(rs);
    }
  }

  lemma NothingLost(s: T.State, tid: TransferId)
    requires T.Inv(s) && s.pipe.em.refused == 0
    ensures tid !in T.LostStarts(s) && tid !in T.LostEnds(s)
  {
    assert |T.LostStarts(s)| == 0 && |T.LostEnds(s)| == 0;
  }

  /** The one row of an id that opens once and closes at most once. */
  lemma OnlyRow(rs: seq<Record>, tid: TransferId) returns (row: J.Row)
    requires CountOpens(rs, tid) == 1 && CountCloses(rs, tid) <= 1
    ensures multiset(J.TransferPairs(rs))[row] == 1
    ensures forall other :: other in J.TransferPairs(rs) && other.start.transfer == Some(tid) ==> other == row
    ensures row.start in rs && Opens(row.start, tid) && (row.end.None? <==> CountCloses(rs, tid) == 0)
    ensures row.end.Some? ==> row.end.value in rs && Closes(row.end.value, tid)
  {
    var start := OneOpen(rs, tid);
    row := J.Row(start, None);
    if CountCloses(rs, tid) == 1 {
      var end := OneClose(rs, tid);
      row := J.Row(start, Some(end));
    }
    J.PairsAreExactly(rs, row);
    forall other | other in J.TransferPairs(rs) && other.start.transfer == Some(tid)
      ensures other == row
    {
      OccursInBoth(rs, other);
      assert Opens(other.start, tid);
      CountsArePositive(rs, tid);
    }
  }

  /** What a row joins is in the stream. */
  lemma OccursInBoth(rs: seq<Record>, row: J.Row)
    requires row in J.TransferPairs(rs)
    ensures J.IsStart(row.start) && row.start in rs
    ensures if row.end.None? then CountCloses(rs, row.start.transfer.value) == 0
            else row.end.value in rs && Closes(row.end.value, row.start.transfer.value)
  {
    J.RowsAreGood(rs, rs);
    assert J.GoodRow(row, rs);
  }
}
