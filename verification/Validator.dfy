/** Orphan detection over trace files, and what its counts mean. */
module Validator {
  import opened Records
  import opened Sequences

  /** One non-blank line: malformed JSON, or an object with its schema violations. */
  datatype Line = Malformed | Parsed(rec: Record, schemaErrors: nat)

  datatype Report = Report(
    files: nat, records: nat, errors: nat, orphanTransfers: nat, orphanRequests: nat, exitCode: int)

  datatype Flags = Flags(hasOpen: bool, hasClose: bool)

  type TraceKey = Option<nat>
  type Tracking = map<TraceKey, map<nat, Flags>>

  datatype Family = OfTransfers | OfRequests

  datatype Mark = Opening | Closing | Other

  /** Which id a record speaks about, and what it says of it. */
  function Marked(family: Family, r: Record): Option<(nat, Mark)> {
    match family
    case OfTransfers =>
      if r.kind != Some(Transfer) || r.transfer.None? then None
      else Some((r.transfer.value,
                 if r.subtype == Some(Start) then Opening
                 else if r.subtype == Some(End) || r.subtype == Some(Cancel) then Closing else Other))
    case OfRequests =>
      if r.kind != Some(Request) || r.request.None? then None
      else Some((r.request.value,
                 if r.subtype == Some(Arrival) then Opening
                 else if r.subtype == Some(Finish) || r.subtype == Some(Abort) then Closing else Other))
  }

  // ------------------------------------------------------------ specification

  /** `key` is a (trace, id) pair that some record gives `mark`. */
  ghost predicate HasMark(family: Family, rs: seq<Record>, key: (TraceKey, nat), mark: Mark) {
    exists r :: r in rs && r.trace == key.0 && Marked(family, r) == Some((key.1, mark))
  }

  /** Opened somewhere and closed nowhere, in whatever order. */
  ghost predicate IsOrphan(family: Family, rs: seq<Record>, key: (TraceKey, nat)) {
    HasMark(family, rs, key, Opening) && !HasMark(family, rs, key, Closing)
  }

  ghost function Keys(family: Family, rs: seq<Record>): set<(TraceKey, nat)> {
    set r | r in rs && Marked(family, r).Some? :: (r.trace, Marked(family, r).value.0)
  }

  ghost function Orphans(family: Family, rs: seq<Record>): set<(TraceKey, nat)> {
    set key | key in Keys(family, rs) && IsOrphan(family, rs, key)
  }

  lemma OrphansAreExactly(family: Family, rs: seq<Record>, key: (TraceKey, nat))
    ensures key in Orphans(family, rs) <==> IsOrphan(family, rs, key)
  {
  }

  /** Orphans depend neither on the order of the records nor on how they are split into files. */
  lemma OrphansPermute(family: Family, a: seq<Record>, b: seq<Record>)
    requires multiset(a) == multiset(b)
    ensures Orphans(family, a) == Orphans(family, b)
  {
    forall r: Record
      ensures r in a <==> r in b
    {
      assert r in multiset(a) <==> r in multiset(b);
    }
    forall key: (TraceKey, nat)
      ensures key in Orphans(family, a) <==> key in Orphans(family, b)
    {
      OrphansAreExactly(family, a, key);
      OrphansAreExactly(family, b, key);
      assert forall mark :: HasMark(family, a, key, mark) <==> HasMark(family, b, key, mark);
    }
  }

  // ----------------------------------------------------------------- tracking

  function IdsOf(state: Tracking, trace: TraceKey): map<nat, Flags> {
    if trace in state then state[trace] else map[]
  }

  function NoteId(ids: map<nat, Flags>, id: nat, mark: Mark): map<nat, Flags> {
    var was := if id in ids then ids[id] else Flags(false, false);
    ids[id := Flags(was.hasOpen || mark.Opening?, was.hasClose || mark.Closing?)]
  }

  /** The tracking dictionaries after one more record. */
  function Note(family: Family, state: Tracking, r: Record): Tracking {
    var m := Marked(family, r);
    if m.None? then state
    else
      state[r.trace := NoteId(IdsOf(state, r.trace), m.value.0, m.value.1)]
  }

  function Track(family: Family, rs: seq<Record>): Tracking {
    if rs == [] then map[] else Note(family, Track(family, rs[..|rs| - 1]), rs[|rs| - 1])
  }

  predicate Tracks(state: Tracking, key: (TraceKey, nat)) {
    key.0 in state && key.1 in state[key.0]
  }

  function OrphanKeys(state: Tracking): set<(TraceKey, nat)> {
    set trace, id | trace in state && id in state[trace] && state[trace][id] == Flags(true, false) :: (trace, id)
  }

  lemma HasMarkAppend(family: Family, rs: seq<Record>, r: Record, key: (TraceKey, nat), mark: Mark)
    ensures HasMark(family, rs + [r], key, mark) <==>
            HasMark(family, rs, key, mark) || (r.trace == key.0 && Marked(family, r) == Some((key.1, mark)))
  {
  }

  /** The flags of a tracked pair say which kinds of record it has. */
  lemma {:induction false} TrackMeans(family: Family, rs: seq<Record>, key: (TraceKey, nat))
    ensures var state := Track(family, rs);
      && (Tracks(state, key) ==>
            state[key.0][key.1] == Flags(HasMark(family, rs, key, Opening), HasMark(family, rs, key, Closing)))
      && (!Tracks(state, key) ==> forall mark :: !HasMark(family, rs, key, mark))
    decreases |rs|
  {
    if rs == [] {
    } else {
      var front, last := rs[..|rs| - 1], rs[|rs| - 1];
      assert rs == front + [last];
      TrackMeans(family, front, key);
      forall mark: Mark
        ensures HasMark(family, rs, key, mark) <==>
                HasMark(family, front, key, mark) ||
                (last.trace == key.0 && Marked(family, last) == Some((key.1, mark)))
      {
        HasMarkAppend(family, front, last, key, mark);
      }
    }
  }

  /** Scanning the dictionaries finds exactly the orphans of the specification. */
  lemma TrackFindsOrphans(family: Family, rs: seq<Record>)
    ensures OrphanKeys(Track(family, rs)) == Orphans(family, rs)
  {
    forall key: (TraceKey, nat)
      ensures key in OrphanKeys(Track(family, rs)) <==> key in Orphans(family, rs)
    {
      TrackMeans(family, rs, key);
      OrphansAreExactly(family, rs, key);
      if key in OrphanKeys(Track(family, rs)) { assert Tracks(Track(family, rs), key); }
      if Tracks(Track(family, rs), key) {
        assert (key.0, key.1) == key;
      }
    }
  }

  // --------------------------------------------------------- joining two scans

  function JoinIds(a: map<nat, Flags>, b: map<nat, Flags>): map<nat, Flags> {
    map id | id in a.Keys + b.Keys ::
      Flags((id in a && a[id].hasOpen) || (id in b && b[id].hasOpen),
            (id in a && a[id].hasClose) || (id in b && b[id].hasClose))
  }

  function Join(a: Tracking, b: Tracking): Tracking {
    map trace | trace in a.Keys + b.Keys :: JoinIds(IdsOf(a, trace), IdsOf(b, trace))
  }

  lemma JoinIdsNote(a: map<nat, Flags>, b: map<nat, Flags>, id: nat, mark: Mark)
    ensures JoinIds(a, NoteId(b, id, mark)) == NoteId(JoinIds(a, b), id, mark)
  {
  }

  lemma JoinedIds(a: Tracking, b: Tracking, trace: TraceKey)
    ensures IdsOf(Join(a, b), trace) == JoinIds(IdsOf(a, trace), IdsOf(b, trace))
  {
  }

  lemma JoinNote(family: Family, a: Tracking, b: Tracking, r: Record)
    ensures Join(a, Note(family, b, r)) == Note(family, Join(a, b), r)
  {
    if Marked(family, r).Some? {
      var id, mark := Marked(family, r).value.0, Marked(family, r).value.1;
      var left, right := Join(a, Note(family, b, r)), Note(family, Join(a, b), r);
      JoinIdsNote(IdsOf(a, r.trace), IdsOf(b, r.trace), id, mark);
      JoinedIds(a, b, r.trace);
      assert left.Keys == right.Keys;
      forall trace | trace in left
        ensures left[trace] == right[trace]
      {
        JoinedIds(a, Note(family, b, r), trace);
        JoinedIds(a, b, trace);
      }
    }
  }

  /** Scanning two streams one after the other gives the pointwise join of their states. */
  lemma {:induction false} TrackJoins(family: Family, a: seq<Record>, b: seq<Record>)
    ensures Track(family, a + b) == Join(Track(family, a), Track(family, b))
    decreases |b|
  {
    if b == [] {
      assert a + b == a;
      var state := Track(family, a);
      assert forall trace :: trace in state ==> JoinIds(state[trace], map[]) == state[trace];
    } else {
      assert (a + b)[..|a + b| - 1] == a + b[..|b| - 1];
      TrackJoins(family, a, b[..|b| - 1]);
      JoinNote(family, Track(family, a), Track(family, b[..|b| - 1]), b[|b| - 1]);
    }
  }

  // ------------------------------------------------------------ the validator

  function Missing(r: Record): nat {
    (if r.ts.None? then 1 else 0) + (if r.kind.None? then 1 else 0) + (if r.node.None? then 1 else 0) +
    (if r.worker.None? then 1 else 0) + (if r.trace.None? then 1 else 0)
  }

  function LineErrors(line: Line, useSchema: bool): nat {
    match line
    case Malformed => 1
    case Parsed(r, schemaErrors) =>
      (if r.v != Some(1) then 1 else 0) + (if useSchema then schemaErrors else 0) + Missing(r)
  }

  function Errors(lines: seq<Line>, useSchema: bool): nat {
    if lines == [] then 0
    else Errors(lines[..|lines| - 1], useSchema) + LineErrors(lines[|lines| - 1], useSchema)
  }

  /** An object of schema version 1 with all five envelope fields and, if schemas are used, no violation. */
  predicate IsSound(line: Line, useSchema: bool) {
    && line.Parsed? && line.rec.v == Some(1)
    && line.rec.ts.Some? && line.rec.kind.Some? && line.rec.node.Some? && line.rec.worker.Some? && line.rec.trace.Some?
    && (useSchema ==> line.schemaErrors == 0)
  }

  /** There are no errors if and only if every line is sound. */
  lemma {:induction false} NoErrorsExactly(lines: seq<Line>, useSchema: bool)
    ensures Errors(lines, useSchema) == 0 <==> forall i :: 0 <= i < |lines| ==> IsSound(lines[i], useSchema)
    decreases |lines|
  {
    if lines == [] {
    } else {
      NoErrorsExactly(lines[..|lines| - 1], useSchema);
      assert LineErrors(lines[|lines| - 1], useSchema) == 0 <==> IsSound(lines[|lines| - 1], useSchema);
    }
  }

  /** The envelope fields that a record must have. */
  datatype Field = TsField | KindField | NodeField | WorkerField | TraceField

  predicate Has(r: Record, field: Field) {
    match field
    case TsField => r.ts.Some?
    case KindField => r.kind.Some?
    case NodeField => r.node.Some?
    case WorkerField => r.worker.Some?
    case TraceField => r.trace.Some?
  }

  function Without(r: Record, field: Field): Record {
    match field
    case TsField => r.(ts := None)
    case KindField => r.(kind := None)
    case NodeField => r.(node := None)
    case WorkerField => r.(worker := None)
    case TraceField => r.(trace := None)
  }

  /** Taking a field away from a record that has it adds exactly one error. */
  lemma MissingFieldCounts(r: Record, field: Field, n: nat, useSchema: bool)
    requires Has(r, field)
    ensures LineErrors(Parsed(Without(r, field), n), useSchema) == LineErrors(Parsed(r, n), useSchema) + 1
  {
  }

  /** So does another version, and one more violation where schemas are used; a malformed line is one error. */
  lemma OtherFaultsCount(r: Record, v: Option<int>, n: nat, useSchema: bool)
    requires r.v == Some(1) != v
    ensures LineErrors(Parsed(r.(v := v), n), useSchema) == LineErrors(Parsed(r, n), useSchema) + 1
    ensures LineErrors(Parsed(r, n + 1), useSchema) ==
            LineErrors(Parsed(r, n), useSchema) + (if useSchema then 1 else 0)
    ensures LineErrors(Malformed, useSchema) == 1
  {
  }

  /** Errors add up over lines, in whatever order they are read. */
  lemma {:induction false} ErrorsSplit(a: seq<Line>, b: seq<Line>, useSchema: bool)
    ensures Errors(a + b, useSchema) == Errors(a, useSchema) + Errors(b, useSchema)
    decreases |b|
  {
    if b == [] {
      assert a + b == a;
    } else {
      assert (a + b)[..|a + b| - 1] == a + b[..|b| - 1];
      ErrorsSplit(a, b[..|b| - 1], useSchema);
    }
  }

  /** What the validator lets pass. */
  ghost predicate Passes(files: seq<seq<Line>>, useSchema: bool, strict: bool) {
    var rs := Decoded(Concat(files));
    && (forall i :: 0 <= i < |Concat(files)| ==> IsSound(Concat(files)[i], useSchema))
    && (strict ==> Orphans(OfTransfers, rs) == {} && Orphans(OfRequests, rs) == {})
  }

  /** ... is files without errors and, if it is strict, without orphans. */
  lemma PassesExactly(files: seq<seq<Line>>, useSchema: bool, strict: bool)
    ensures var rs := Decoded(Concat(files));
      Passes(files, useSchema, strict) <==>
        && Errors(Concat(files), useSchema) == 0
        && (strict ==> |Orphans(OfTransfers, rs)| == 0 && |Orphans(OfRequests, rs)| == 0)
  {
    NoErrorsExactly(Concat(files), useSchema);
  }

  function Decoded(lines: seq<Line>): seq<Record> {
    if lines == [] then []
    else Decoded(lines[..|lines| - 1]) +
         (if lines[|lines| - 1].Parsed? then [lines[|lines| - 1].rec] else [])
  }

  ghost predicate ParsesTo(lines: seq<Line>, r: Record) {
    exists i :: 0 <= i < |lines| && lines[i].Parsed? && lines[i].rec == r
  }

  /** The records are those of the lines that parse, and no others. */
  lemma {:induction false} DecodedHolds(lines: seq<Line>, r: Record)
    ensures r in Decoded(lines) <==> ParsesTo(lines, r)
    decreases |lines|
  {
    if lines == [] {
    } else {
      var front, last := lines[..|lines| - 1], lines[|lines| - 1];
      DecodedHolds(front, r);
      if i :| 0 <= i < |front| && front[i].Parsed? && front[i].rec == r {
        assert lines[i].rec == r;
      }
      if last.Parsed? && last.rec == r { assert lines[|front|].rec == r; }
    }
  }

  /** One pass of the scan over `line`, on records, errors and both dictionaries. */
  method ScanLine(line: Line, useSchema: bool, transfers: Tracking, requests: Tracking)
    returns (errors: nat, transfers': Tracking, requests': Tracking)
    ensures errors == LineErrors(line, useSchema)
    ensures transfers' == if line.Parsed? then Note(OfTransfers, transfers, line.rec) else transfers
    ensures requests' == if line.Parsed? then Note(OfRequests, requests, line.rec) else requests
  {
    transfers', requests' := transfers, requests;
    if line.Malformed? {
      return 1, transfers, requests;
    }
    var r := line.rec;
    errors := 0;
    if r.v != Some(1) { errors := errors + 1; }
    if useSchema { errors := errors + line.schemaErrors; }
    errors := errors + Missing(r);
    if r.kind == Some(Transfer) && r.transfer.Some? {
      var ids := if r.trace in transfers then transfers[r.trace] else map[];
      var entry := if r.transfer.value in ids then ids[r.transfer.value] else Flags(false, false);
      if r.subtype == Some(Start) {
        entry := entry.(hasOpen := true);
      } else if r.subtype == Some(End) || r.subtype == Some(Cancel) {
        entry := entry.(hasClose := true);
      }
      transfers' := transfers[r.trace := ids[r.transfer.value := entry]];
    }
    if r.kind == Some(Request) && r.request.Some? {
      var ids := if r.trace in requests then requests[r.trace] else map[];
      var entry := if r.request.value in ids then ids[r.request.value] else Flags(false, false);
      if r.subtype == Some(Arrival) {
        entry := entry.(hasOpen := true);
      } else if r.subtype == Some(Finish) || r.subtype == Some(Abort) {
        entry := entry.(hasClose := true);
      }
      requests' := requests[r.trace := ids[r.request.value := entry]];
    }
  }

  function Paired(trace: TraceKey, ids: set<nat>): set<(TraceKey, nat)> {
    set id | id in ids :: (trace, id)
  }

  lemma {:induction false} PairedSize(trace: TraceKey, ids: set<nat>)
    ensures |Paired(trace, ids)| == |ids|
    decreases ids
  {
    if ids == {} {
      assert Paired(trace, ids) == {};
    } else {
      var id :| id in ids;
      PairedSize(trace, ids - {id});
      assert Paired(trace, ids) == Paired(trace, ids - {id}) + {(trace, id)};
    }
  }

  function OrphanIds(ids: map<nat, Flags>): set<nat> {
    set id | id in ids && ids[id] == Flags(true, false)
  }

  method CountInTrace(ids: map<nat, Flags>) returns (n: nat)
    ensures n == |OrphanIds(ids)|
  {
    n := 0;
    var todo := ids.Keys;
    ghost var seen: set<nat> := {};
    while todo != {}
      invariant todo <= ids.Keys
      invariant seen == OrphanIds(ids) - todo && n == |seen|
      decreases todo
    {
      var id :| id in todo;
      if ids[id].hasOpen && !ids[id].hasClose {
        n, seen := n + 1, seen + {id};
      }
      todo := todo - {id};
    }
    assert seen == OrphanIds(ids);
  }

  method CountOrphans(state: Tracking) returns (n: nat)
    ensures n == |OrphanKeys(state)|
  {
    n := 0;
    var traces := state.Keys;
    ghost var seen: set<(TraceKey, nat)> := {};
    while traces != {}
      invariant traces <= state.Keys
      invariant forall trace, id :: (trace, id) in seen <==> (trace, id) in OrphanKeys(state) && trace !in traces
      invariant n == |seen|
      decreases traces
    {
      var trace :| trace in traces;
      var found := CountInTrace(state[trace]);
      PairedSize(trace, OrphanIds(state[trace]));
      ghost var here := Paired(trace, OrphanIds(state[trace]));
      assert seen !! here;
      traces, n, seen := traces - {trace}, n + found, seen + here;
    }
    forall key: (TraceKey, nat)
      ensures key in seen <==> key in OrphanKeys(state)
    {
      assert key == (key.0, key.1);
    }
    assert seen == OrphanKeys(state);
  }

  /** The validator's report, in terms of the lines it was given. */
  method ValidateFiles(files: seq<seq<Line>>, useSchema: bool, strict: bool) returns (report: Report)
    ensures report.files == |files| && report.records == |Concat(files)|
    ensures report.errors == Errors(Concat(files), useSchema)
    ensures report.orphanTransfers == |Orphans(OfTransfers, Decoded(Concat(files)))|
    ensures report.orphanRequests == |Orphans(OfRequests, Decoded(Concat(files)))|
    ensures report.exitCode == 0 <==>
            report.errors == 0 && (strict ==> report.orphanTransfers == 0 && report.orphanRequests == 0)
    ensures report.exitCode == 0 <==> Passes(files, useSchema, strict)
    ensures report.exitCode == 0 || report.exitCode == 1
  {
    var records, errors := 0, 0;
    var transfers: Tracking, requests: Tracking := map[], map[];
    var i := 0;
    ghost var read: seq<Line> := [];
    while i < |files|
      invariant 0 <= i <= |files| && read == Concat(files[..i])
      invariant records == |read| && errors == Errors(read, useSchema)
      invariant transfers == Track(OfTransfers, Decoded(read))
      invariant requests == Track(OfRequests, Decoded(read))
    {
      var j := 0;
      ghost var before := read;
      while j < |files[i]|
        invariant 0 <= j <= |files[i]| && read == before + files[i][..j]
        invariant records == |read| && errors == Errors(read, useSchema)
        invariant transfers == Track(OfTransfers, Decoded(read))
        invariant requests == Track(OfRequests, Decoded(read))
      {
        var found;
        found, transfers, requests := ScanLine(files[i][j], useSchema, transfers, requests);
        ghost var next := read + [files[i][j]];
        assert next[..|read|] == read;
        ghost var rs := Decoded(read);
        assert Decoded(next) == rs + (if files[i][j].Parsed? then [files[i][j].rec] else []);
        assert files[i][j].Parsed? ==> Decoded(next)[..|rs|] == rs;
        assert files[i][j].Malformed? ==> Decoded(next) == rs;
        assert next == before + files[i][..j + 1];
        records, errors, read, j := records + 1, errors + found, next, j + 1;
      }
      assert files[i][..j] == files[i];
      assert files[..i + 1][..i] == files[..i];
      i := i + 1;
    }
    assert files[..i] == files;
    var orphanTransfers := CountOrphans(transfers);
    var orphanRequests := CountOrphans(requests);
    TrackFindsOrphans(OfTransfers, Decoded(read));
    TrackFindsOrphans(OfRequests, Decoded(read));
    PassesExactly(files, useSchema, strict);
    var exitCode := 0;
    if errors > 0 {
      exitCode := 1;
    } else if strict && (orphanTransfers > 0 || orphanRequests > 0) {
      exitCode := 1;
    }
    report := Report(|files|, records, errors, orphanTransfers, orphanRequests, exitCode);
  }
}
