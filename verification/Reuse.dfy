/** Tier residency and reuse distance of blocks, against a replay of their events. */
module Reuse {
  import opened Records

  /** One row of the block table; `tier` is the tier it leaves the block in, if recorded. */
  datatype Event = Event(block: nat, ts: int, tier: Option<string>, prefixHit: bool)

  datatype Interval = Interval(block: nat, tier: string, since: int, until: int)

  predicate InOrder(a: Event, b: Event) {
    a.block < b.block || (a.block == b.block && a.ts <= b.ts)
  }

  /** As the table is after sorting by block and timestamp. */
  ghost predicate Sorted(events: seq<Event>) {
    forall i, j :: 0 <= i < j < |events| ==> InOrder(events[i], events[j])
  }

  lemma SortedAt(events: seq<Event>, p: int, q: int)
    requires Sorted(events) && 0 <= p < |events| && 0 <= q < |events|
    ensures p < q ==> InOrder(events[p], events[q])
  {
  }

  /** The interval from an event to the next one of its block, if there is one and the tier is known. */
  function IntervalAt(a: Event, b: Event): seq<Interval> {
    if a.block == b.block && a.tier.Some? && b.ts - a.ts >= 0 then [Interval(a.block, a.tier.value, a.ts, b.ts)] else []
  }

  function TierResidency(events: seq<Event>): seq<Interval> {
    if |events| < 2 then []
    else
      var n := |events|;
      TierResidency(events[..n - 1]) + IntervalAt(events[n - 2], events[n - 1])
  }

  // ---------------------------------------------------------- replay of a block

  /** `i` is the last event of the block at or before `t`. */
  ghost predicate IsLatest(events: seq<Event>, block: nat, t: int, i: int) {
    && 0 <= i < |events| && events[i].block == block && events[i].ts <= t
    && forall j :: 0 <= j < |events| && events[j].block == block && events[j].ts <= t ==> j <= i
  }

  ghost predicate HasLater(events: seq<Event>, block: nat, t: int) {
    exists j :: 0 <= j < |events| && events[j].block == block && t < events[j].ts
  }

  /** The replay has the block in `tier` at `t`, and the block's events are not over. */
  ghost predicate ReplaySays(events: seq<Event>, block: nat, t: int, tier: string) {
    HasLater(events, block, t) && exists i :: IsLatest(events, block, t, i) && events[i].tier == Some(tier)
  }

  ghost predicate TableSays(table: seq<Interval>, block: nat, t: int, tier: string) {
    exists row :: row in table && row.block == block && row.tier == tier && row.since <= t < row.until
  }

  /** The row is the interval of two neighbouring events, the first of them before `n`. */
  ghost predicate IsInterval(events: seq<Event>, row: Interval, n: int) {
    exists i :: 0 <= i < n && i + 1 < |events| && row in IntervalAt(events[i], events[i + 1])
  }

  lemma IntervalsGrow(events: seq<Event>, row: Interval)
    requires |events| >= 2
    ensures var n := |events| - 1;
      IsInterval(events, row, n) <==>
      IsInterval(events[..n], row, n - 1) || row in IntervalAt(events[n - 1], events[n])
  {
    var n := |events| - 1;
    var front := events[..n];
    if i :| 0 <= i < n - 1 && i + 1 < |front| && row in IntervalAt(front[i], front[i + 1]) {
      assert row in IntervalAt(events[i], events[i + 1]);
    }
    if i :| 0 <= i < n && i + 1 < |events| && row in IntervalAt(events[i], events[i + 1]) {
      if i < n - 1 { assert row in IntervalAt(front[i], front[i + 1]); }
    }
    if row in IntervalAt(events[n - 1], events[n]) {
      assert row in IntervalAt(events[n - 1], events[n - 1 + 1]);
    }
  }

  lemma {:induction false} RowsAreIntervals(events: seq<Event>, row: Interval)
    ensures row in TierResidency(events) <==> IsInterval(events, row, |events| - 1)
    decreases |events|
  {
    if |events| < 2 {
    } else {
      RowsAreIntervals(events[..|events| - 1], row);
      IntervalsGrow(events, row);
    }
  }

  /** Between two neighbouring events of a block the first one is the latest. */
  lemma NeighbourIsLatest(events: seq<Event>, block: nat, t: int, i: nat)
    requires Sorted(events) && i + 1 < |events| && events[i].block == block == events[i + 1].block
    requires events[i].ts <= t < events[i + 1].ts
    ensures IsLatest(events, block, t, i) && HasLater(events, block, t)
  {
    forall j | 0 <= j < |events| && events[j].block == block && events[j].ts <= t
      ensures j <= i
    {
      SortedAt(events, i + 1, j);
    }
  }

  lemma TableImpliesReplay(events: seq<Event>, block: nat, t: int, tier: string)
    requires Sorted(events) && TableSays(TierResidency(events), block, t, tier)
    ensures ReplaySays(events, block, t, tier)
  {
    var row :| row in TierResidency(events) && row.block == block && row.tier == tier && row.since <= t < row.until;
    RowsAreIntervals(events, row);
    var i :| 0 <= i < |events| - 1 && i + 1 < |events| && row in IntervalAt(events[i], events[i + 1]);
    NeighbourIsLatest(events, block, t, i);
  }

  lemma ReplayImpliesTable(events: seq<Event>, block: nat, t: int, tier: string)
    requires Sorted(events) && ReplaySays(events, block, t, tier)
    ensures TableSays(TierResidency(events), block, t, tier)
  {
    var i :| IsLatest(events, block, t, i) && events[i].tier == Some(tier);
    var j :| 0 <= j < |events| && events[j].block == block && t < events[j].ts;
    SortedAt(events, j, i);
    assert InOrder(events[i], events[i + 1]);
    if i + 1 < j { assert InOrder(events[i + 1], events[j]); }
    assert events[i + 1].block == block && t < events[i + 1].ts;
    var row := Interval(block, tier, events[i].ts, events[i + 1].ts);
    assert row in IntervalAt(events[i], events[i + 1]);
    RowsAreIntervals(events, row);
  }

  /** The table reports a tier at an instant exactly when the replay is in it there. */
  lemma ResidencyRefinesReplay(events: seq<Event>, block: nat, t: int, tier: string)
    requires Sorted(events)
    ensures TableSays(TierResidency(events), block, t, tier) <==> ReplaySays(events, block, t, tier)
  {
    if TableSays(TierResidency(events), block, t, tier) { TableImpliesReplay(events, block, t, tier); }
    if ReplaySays(events, block, t, tier) { ReplayImpliesTable(events, block, t, tier); }
  }

  /** `e` is a latest event of the block at or before `t`, among events in any order; several may tie. */
  ghost predicate IsLatestOf(loaded: seq<Event>, block: nat, t: int, e: Event) {
    && e in loaded && e.block == block && e.ts <= t
    && forall g :: g in loaded && g.block == block && g.ts <= t ==> g.ts <= e.ts
  }

  ghost predicate LoadedSays(loaded: seq<Event>, block: nat, t: int, tier: string) {
    && (exists f :: f in loaded && f.block == block && t < f.ts)
    && exists e :: IsLatestOf(loaded, block, t, e) && e.tier == Some(tier)
  }

  lemma LatestIsLatest(events: seq<Event>, block: nat, t: int, i: int)
    requires Sorted(events) && IsLatest(events, block, t, i)
    ensures IsLatestOf(events, block, t, events[i])
  {
    forall g | g in events && g.block == block && g.ts <= t
      ensures g.ts <= events[i].ts
    {
      var k :| 0 <= k < |events| && events[k] == g;
      SortedAt(events, k, i);
    }
  }

  /** The latest event is the last one of its block that is not after `t`. */
  lemma {:induction false} LatestExists(events: seq<Event>, block: nat, t: int, n: nat) returns (i: int)
    requires n <= |events| && exists k :: 0 <= k < n && events[k].block == block && events[k].ts <= t
    requires forall k :: n <= k < |events| && events[k].block == block ==> events[k].ts > t
    ensures IsLatest(events, block, t, i)
  {
    if events[n - 1].block == block && events[n - 1].ts <= t {
      i := n - 1;
    } else {
      i := LatestExists(events, block, t, n - 1);
    }
  }

  /** The replay says what the last of the tied events says. */
  lemma ReplaySaysLast(events: seq<Event>, block: nat, t: int, i: int, tier: string)
    requires IsLatest(events, block, t, i) && HasLater(events, block, t)
    ensures ReplaySays(events, block, t, tier) <==> events[i].tier == Some(tier)
  {
  }

  /** No event that ties for the latest has another known tier than the last of them in the table's order. */
  ghost predicate TiesAgree(events: seq<Event>, block: nat, t: int) {
    forall i, e :: IsLatest(events, block, t, i) && IsLatestOf(events, block, t, e) && e.tier.Some? ==>
        e.tier == events[i].tier
  }

  lemma LoadedAsReplayed(events: seq<Event>, block: nat, t: int, tier: string)
    requires Sorted(events) && ReplaySays(events, block, t, tier)
    ensures LoadedSays(events, block, t, tier)
  {
    var i :| IsLatest(events, block, t, i) && events[i].tier == Some(tier);
    LatestIsLatest(events, block, t, i);
    var j :| 0 <= j < |events| && events[j].block == block && t < events[j].ts;
    assert events[j] in events;
  }

  lemma ReplayedAsLoaded(events: seq<Event>, block: nat, t: int, tier: string)
    requires LoadedSays(events, block, t, tier) && TiesAgree(events, block, t)
    ensures ReplaySays(events, block, t, tier)
  {
    var e :| IsLatestOf(events, block, t, e) && e.tier == Some(tier);
    var k :| 0 <= k < |events| && events[k] == e;
    var i := LatestExists(events, block, t, |events|);
    var f :| f in events && f.block == block && t < f.ts;
    var j :| 0 <= j < |events| && events[j] == f;
    assert HasLater(events, block, t);
  }

  lemma LaterIsLater(events: seq<Event>, block: nat, t: int, tier: string)
    requires LoadedSays(events, block, t, tier)
    ensures HasLater(events, block, t)
  {
    var f :| f in events && f.block == block && t < f.ts;
    var j :| 0 <= j < |events| && events[j] == f;
  }

  lemma DisagreeingTie(events: seq<Event>, block: nat, t: int) returns (tier: string)
    requires HasLater(events, block, t) && !TiesAgree(events, block, t)
    ensures LoadedSays(events, block, t, tier) && !ReplaySays(events, block, t, tier)
  {
    var i, e :|
      IsLatest(events, block, t, i) && IsLatestOf(events, block, t, e) && e.tier.Some? && e.tier != events[i].tier;
    tier := e.tier.value;
    ReplaySaysLast(events, block, t, i, tier);
    var j :| 0 <= j < |events| && events[j].block == block && t < events[j].ts;
    assert events[j] in events;
  }

  lemma SameEvents(loaded: seq<Event>, events: seq<Event>, block: nat, t: int)
    requires multiset(loaded) == multiset(events)
    ensures forall tier :: LoadedSays(loaded, block, t, tier) <==> LoadedSays(events, block, t, tier)
  {
    forall e: Event
      ensures e in loaded <==> e in events
    {
      assert e in multiset(loaded) <==> e in multiset(events);
    }
    assert forall e :: IsLatestOf(loaded, block, t, e) <==> IsLatestOf(events, block, t, e);
  }

  /**
   In terms of the events in whatever order they were loaded: what the table
   reports at an instant is always the tier of a latest event, and it reports
   exactly those if and only if the events that tie for the latest agree with the
   one that sorting put last, or the block's events are over.
   */
  lemma ResidencyOfUnsorted(loaded: seq<Event>, events: seq<Event>, block: nat, t: int)
    requires Sorted(events) && multiset(loaded) == multiset(events)
    ensures forall tier ::
      TableSays(TierResidency(events), block, t, tier) ==> LoadedSays(loaded, block, t, tier)
    ensures (forall tier :: TableSays(TierResidency(events), block, t, tier) <==> LoadedSays(loaded, block, t, tier))
            <==> (HasLater(events, block, t) ==> TiesAgree(events, block, t))
  {
    SameEvents(loaded, events, block, t);
    forall tier
      ensures TableSays(TierResidency(events), block, t, tier) <==> ReplaySays(events, block, t, tier)
      ensures ReplaySays(events, block, t, tier) ==> LoadedSays(events, block, t, tier)
      ensures LoadedSays(events, block, t, tier) ==> HasLater(events, block, t)
      ensures TiesAgree(events, block, t) && LoadedSays(events, block, t, tier) ==> ReplaySays(events, block, t, tier)
    {
      ResidencyRefinesReplay(events, block, t, tier);
      if LoadedSays(events, block, t, tier) { LaterIsLater(events, block, t, tier); }
      if ReplaySays(events, block, t, tier) { LoadedAsReplayed(events, block, t, tier); }
      if TiesAgree(events, block, t) && LoadedSays(events, block, t, tier) { ReplayedAsLoaded(events, block, t, tier); }
    }
    if HasLater(events, block, t) && !TiesAgree(events, block, t) {
      var tier := DisagreeingTie(events, block, t);
    }
  }

  // ----------------------------------------------------- disjointness and sums

  lemma {:induction false} RowsEndByLast(events: seq<Event>)
    requires Sorted(events) && events != []
    ensures forall row :: row in TierResidency(events) && row.block == events[|events| - 1].block ==>
      row.until <= events[|events| - 1].ts
    decreases |events|
  {
    if |events| < 2 {
    } else {
      var n := |events|;
      RowsEndByLast(events[..n - 1]);
      assert InOrder(events[n - 2], events[n - 1]);
      forall row | row in TierResidency(events[..n - 1])
        ensures row.block <= events[n - 2].block
      {
        RowsAreIntervals(events[..n - 1], row);
        var i :| 0 <= i < n - 2 && row in IntervalAt(events[i], events[i + 1]);
        assert InOrder(events[i], events[n - 2]);
      }
    }
  }

  ghost predicate Disjoint(table: seq<Interval>) {
    forall p, q :: 0 <= p < q < |table| && table[p].block == table[q].block ==> table[p].until <= table[q].since
  }

  /** Intervals of one block never overlap. */
  lemma {:induction false} IntervalsAreDisjoint(events: seq<Event>)
    requires Sorted(events)
    ensures Disjoint(TierResidency(events))
    decreases |events|
  {
    if |events| < 2 {
    } else {
      var front := TierResidency(events[..|events| - 1]);
      IntervalsAreDisjoint(events[..|events| - 1]);
      RowsEndByLast(events[..|events| - 1]);
      var table := TierResidency(events);
      forall p, q | 0 <= p < q < |table| && table[p].block == table[q].block
        ensures table[p].until <= table[q].since
      {
        assert p < |front| && table[p] == front[p] && front[p] in front;
        if q < |front| {
          assert table[q] == front[q] && front[p].until <= front[q].since;
        } else {
          assert table[q] == IntervalAt(events[|events| - 2], events[|events| - 1])[0];
          assert front[p].until <= events[|events| - 2].ts;
        }
      }
    }
  }

  function Resident(table: seq<Interval>, block: nat): int {
    if table == [] then 0
    else
      var last := table[|table| - 1];
      Resident(table[..|table| - 1], block) + (if last.block == block then last.until - last.since else 0)
  }

  /** Time after events that do not record a tier. */
  function Unknown(events: seq<Event>, block: nat): int {
    if |events| < 2 then 0
    else
      var a, b := events[|events| - 2], events[|events| - 1];
      Unknown(events[..|events| - 1], block) + (if a.block == block == b.block && a.tier.None? then b.ts - a.ts else 0)
  }

  /** From the block's first event to its last. */
  function Span(events: seq<Event>, block: nat): int {
    if |events| < 2 then 0
    else
      var a, b := events[|events| - 2], events[|events| - 1];
      Span(events[..|events| - 1], block) + (if a.block == block == b.block then b.ts - a.ts else 0)
  }

  lemma {:induction false} SpanIsLastMinusFirst(events: seq<Event>, block: nat, i: nat, j: nat)
    requires Sorted(events) && i <= j < |events| && events[i].block == block == events[j].block
    requires forall k :: 0 <= k < |events| && events[k].block == block ==> i <= k <= j
    ensures Span(events, block) == events[j].ts - events[i].ts
    decreases |events|
  {
    if |events| < 2 {
    } else {
      var n := |events|;
      var front := events[..n - 1];
      assert InOrder(events[n - 2], events[n - 1]);
      if j < n - 1 {
        SpanIsLastMinusFirst(front, block, i, j);
      } else if i < n - 1 {
        if i < n - 2 { assert InOrder(events[i], events[n - 2]); }
        assert events[n - 2].block == block;
        SpanIsLastMinusFirst(front, block, i, n - 2);
      } else {
        NoSpan(front, block);
      }
    }
  }

  lemma {:induction false} NoSpan(events: seq<Event>, block: nat)
    requires forall k :: 0 <= k < |events| ==> events[k].block != block
    ensures Span(events, block) == 0
    decreases |events|
  {
    if |events| < 2 {
    } else {
      NoSpan(events[..|events| - 1], block);
    }
  }

  lemma ResidentAppend(table: seq<Interval>, row: Interval, block: nat)
    ensures Resident(table + [row], block) ==
            Resident(table, block) + (if row.block == block then row.until - row.since else 0)
  {
  }

  lemma ResidentGrows(table: seq<Interval>, a: Event, b: Event, block: nat)
    requires InOrder(a, b)
    ensures Resident(table + IntervalAt(a, b), block) == Resident(table, block)
            + (if a.block == block == b.block && a.tier.Some? then b.ts - a.ts else 0)
  {
    var more := IntervalAt(a, b);
    if more == [] {
      assert table + more == table;
    } else {
      ResidentAppend(table, more[0], block);
    }
  }

  lemma {:induction false} ResidentPlusUnknown(events: seq<Event>, block: nat)
    requires Sorted(events)
    ensures Resident(TierResidency(events), block) + Unknown(events, block) == Span(events, block)
    decreases |events|
  {
    if |events| < 2 {
    } else {
      var n := |events|;
      ResidentPlusUnknown(events[..n - 1], block);
      ResidentGrows(TierResidency(events[..n - 1]), events[n - 2], events[n - 1], block);
    }
  }

  /** A block's intervals add up to its whole span, less the stretches of unknown tier. */
  lemma ResidencyAddsUp(events: seq<Event>, block: nat, i: nat, j: nat)
    requires Sorted(events) && i <= j < |events| && events[i].block == block == events[j].block
    requires forall k :: 0 <= k < |events| && events[k].block == block ==> i <= k <= j
    ensures Resident(TierResidency(events), block) == events[j].ts - events[i].ts - Unknown(events, block)
  {
    ResidentPlusUnknown(events, block);
    SpanIsLastMinusFirst(events, block, i, j);
  }

  // ------------------------------------------------------------ reuse distance

  datatype Reused = Reused(hit: Event, previous: int, distance: int)

  function Hits(events: seq<Event>): seq<Event> {
    if events == [] then []
    else Hits(events[..|events| - 1]) + (if events[|events| - 1].prefixHit then [events[|events| - 1]] else [])
  }

  /** Each hit with the one before it on the same block; a block's first hit has no row. */
  function Distances(hits: seq<Event>): seq<Reused> {
    if |hits| < 2 then []
    else
      var a, b := hits[|hits| - 2], hits[|hits| - 1];
      Distances(hits[..|hits| - 1]) + (if a.block == b.block then [Reused(b, a.ts, b.ts - a.ts)] else [])
  }

  function ReuseDistance(events: seq<Event>): seq<Reused> {
    Distances(Hits(events))
  }

  function TotalDistance(rows: seq<Reused>, block: nat): int {
    if rows == [] then 0
    else
      var last := rows[|rows| - 1];
      TotalDistance(rows[..|rows| - 1], block) + (if last.hit.block == block then last.distance else 0)
  }

  lemma {:induction false} HitsAreSorted(events: seq<Event>)
    requires Sorted(events)
    ensures Sorted(Hits(events)) && forall e :: e in Hits(events) <==> e in events && e.prefixHit
    decreases |events|
  {
    if events == [] {
    } else {
      var front, last := events[..|events| - 1], events[|events| - 1];
      HitsAreSorted(front);
      assert events == front + [last];
      forall i | 0 <= i < |Hits(front)|
        ensures InOrder(Hits(front)[i], last)
      {
        assert Hits(front)[i] in front;
      }
    }
  }

  lemma {:induction false} DistancesAddUpToSpan(hits: seq<Event>, block: nat)
    ensures TotalDistance(Distances(hits), block) == Span(hits, block)
    decreases |hits|
  {
    if |hits| < 2 {
    } else {
      var rows := Distances(hits[..|hits| - 1]);
      var a, b := hits[|hits| - 2], hits[|hits| - 1];
      DistancesAddUpToSpan(hits[..|hits| - 1], block);
      if a.block == b.block {
        assert (rows + [Reused(b, a.ts, b.ts - a.ts)])[..|rows|] == rows;
      } else {
        assert Distances(hits) == rows;
      }
    }
  }

  /** `i` is the last hit of the block before `j`. */
  ghost predicate IsPrevious(hits: seq<Event>, i: int, j: int) {
    && 0 <= i < j < |hits| && hits[i].block == hits[j].block
    && forall k :: i < k < j ==> hits[k].block != hits[j].block
  }

  ghost predicate HasPrevious(hits: seq<Event>, j: int) {
    exists i :: IsPrevious(hits, i, j)
  }

  /** The hits that are not the first of their block. */
  ghost function Repeats(hits: seq<Event>): seq<nat> {
    if hits == [] then []
    else
      var n := |hits| - 1;
      Repeats(hits[..n]) + (if HasPrevious(hits, n) then [n] else [])
  }

  /** What a row says of a hit. */
  ghost predicate TellsOf(row: Reused, hits: seq<Event>, j: int) {
    && 0 <= j < |hits| && row.hit == hits[j]
    && exists i :: IsPrevious(hits, i, j) && row.previous == hits[i].ts && row.distance == hits[j].ts - hits[i].ts
  }

  lemma PreviousIsNext(hits: seq<Event>, j: nat)
    requires Sorted(hits) && j < |hits|
    ensures HasPrevious(hits, j) <==> j > 0 && hits[j - 1].block == hits[j].block
    ensures HasPrevious(hits, j) ==> IsPrevious(hits, j - 1, j)
  {
    if i :| IsPrevious(hits, i, j) {
      SortedAt(hits, i, j - 1);
      SortedAt(hits, j - 1, j);
    }
    if j > 0 && hits[j - 1].block == hits[j].block {
      assert IsPrevious(hits, j - 1, j);
    }
  }

  lemma TellsOnward(row: Reused, hits: seq<Event>, n: nat, j: int)
    requires n <= |hits| && TellsOf(row, hits[..n], j)
    ensures TellsOf(row, hits, j)
  {
    var front := hits[..n];
    var i :| IsPrevious(front, i, j) && row.previous == front[i].ts && row.distance == front[j].ts - front[i].ts;
    assert IsPrevious(hits, i, j);
  }

  /** Each hit that repeats has one row, in order: the hit, the one before it on its block, and the time between. */
  lemma {:induction false} RowsAreRepeats(hits: seq<Event>)
    requires Sorted(hits)
    ensures var rows, js := Distances(hits), Repeats(hits);
      |rows| == |js| && forall k :: 0 <= k < |rows| ==> TellsOf(rows[k], hits, js[k])
    decreases |hits|
  {
    if hits == [] {
    } else {
      var n := |hits| - 1;
      var front, rows, js := hits[..n], Distances(hits[..n]), Repeats(hits[..n]);
      RowsAreRepeats(front);
      PreviousIsNext(hits, n);
      assert Distances(hits) == rows + (if HasPrevious(hits, n)
                                        then [Reused(hits[n], hits[n - 1].ts, hits[n].ts - hits[n - 1].ts)] else []);
      forall k | 0 <= k < |Distances(hits)|
        ensures TellsOf(Distances(hits)[k], hits, Repeats(hits)[k])
      {
        if k < |rows| {
          TellsOnward(rows[k], hits, n, js[k]);
        } else {
          assert IsPrevious(hits, n - 1, n);
        }
      }
    }
  }

  /** A block's reuse distances telescope to the time between its first and last hit. */
  lemma ReuseTelescopes(events: seq<Event>, block: nat, i: nat, j: nat)
    requires Sorted(events)
    requires var hits := Hits(events);
      && i <= j < |hits| && hits[i].block == block == hits[j].block
      && forall k :: 0 <= k < |hits| && hits[k].block == block ==> i <= k <= j
    ensures TotalDistance(ReuseDistance(events), block) == Hits(events)[j].ts - Hits(events)[i].ts
  {
    HitsAreSorted(events);
    DistancesAddUpToSpan(Hits(events), block);
    SpanIsLastMinusFirst(Hits(events), block, i, j);
  }

  // -------------------------------------------------- the residency table's rows

  /** The event before `j` on its block left it in a known tier. */
  ghost predicate EndsInterval(events: seq<Event>, j: int) {
    exists i :: IsPrevious(events, i, j) && events[i].tier.Some?
  }

  /** The events that end an interval. */
  ghost function IntervalEnds(events: seq<Event>): seq<nat> {
    if events == [] then []
    else
      var n := |events| - 1;
      IntervalEnds(events[..n]) + (if EndsInterval(events, n) then [n] else [])
  }

  /** What a row says of the event that ends it. */
  ghost predicate TellsInterval(row: Interval, events: seq<Event>, j: int) {
    exists i ::
      && IsPrevious(events, i, j) && events[i].tier == Some(row.tier) && row.block == events[j].block
      && row.since == events[i].ts && row.until == events[j].ts
  }

  lemma EndsWithNeighbour(events: seq<Event>, j: nat)
    requires Sorted(events) && j < |events|
    ensures EndsInterval(events, j) <==> j > 0 && events[j - 1].block == events[j].block && events[j - 1].tier.Some?
    ensures EndsInterval(events, j) ==> IsPrevious(events, j - 1, j)
  {
    PreviousIsNext(events, j);
    if i :| IsPrevious(events, i, j) && events[i].tier.Some? {
      assert i == j - 1;
    }
  }

  lemma TellsIntervalOnward(row: Interval, events: seq<Event>, n: nat, j: int)
    requires n <= |events| && TellsInterval(row, events[..n], j)
    ensures TellsInterval(row, events, j)
  {
    var front := events[..n];
    var i :| && IsPrevious(front, i, j) && front[i].tier == Some(row.tier) && row.block == front[j].block
             && row.since == front[i].ts && row.until == front[j].ts;
    assert IsPrevious(events, i, j);
  }

  ghost predicate AllTell(table: seq<Interval>, events: seq<Event>, js: seq<nat>) {
    |table| == |js| && forall k :: 0 <= k < |table| ==> TellsInterval(table[k], events, js[k])
  }

  lemma AllTellOnward(table: seq<Interval>, events: seq<Event>, n: nat, js: seq<nat>)
    requires n <= |events| && AllTell(table, events[..n], js)
    ensures AllTell(table, events, js)
  {
    forall k | 0 <= k < |table|
      ensures TellsInterval(table[k], events, js[k])
    {
      TellsIntervalOnward(table[k], events, n, js[k]);
    }
  }

  /** What the last event adds to the table. */
  lemma TableGrows(events: seq<Event>)
    requires Sorted(events) && events != []
    ensures var n := |events| - 1;
      var table, table' := TierResidency(events[..n]), TierResidency(events);
      if EndsInterval(events, n)
      then |table'| == |table| + 1 && table' == table + [table'[|table|]] && TellsInterval(table'[|table|], events, n)
      else table' == table
  {
    var n := |events| - 1;
    EndsWithNeighbour(events, n);
    if n > 0 { SortedAt(events, n - 1, n); }
    assert n == 0 ==> TierResidency(events[..n]) == TierResidency(events) == [];
    if EndsInterval(events, n) { assert IsPrevious(events, n - 1, n); }
  }

  /**
   The residency table has one row for each event that follows another of its block
   out of a known tier, in order: that tier, from the one event to the other, even
   where no time passes between them.
   */
  lemma {:induction false} IntervalsAreExactly(events: seq<Event>)
    requires Sorted(events)
    ensures AllTell(TierResidency(events), events, IntervalEnds(events))
    decreases |events|
  {
    if events == [] {
    } else {
      var n := |events| - 1;
      var table, js := TierResidency(events[..n]), IntervalEnds(events[..n]);
      IntervalsAreExactly(events[..n]);
      AllTellOnward(table, events, n, js);
      TableGrows(events);
      assert IntervalEnds(events) == js + (if EndsInterval(events, n) then [n] else []);
      hide TierResidency, IntervalEnds, TellsInterval, EndsInterval;
    }
  }
}
