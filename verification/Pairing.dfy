/** The left join of transfer starts with their terminal records. */
module Pairing {
  import opened Records
  import opened Streams
  import V = Validator

  datatype Row = Row(start: Record, end: Option<Record>)

  predicate IsStart(r: Record) {
    IsTransfer(r) && r.subtype == Some(Start) && r.transfer.Some?
  }

  /** Terminal records with one id, in stream order. */
  function Terminals(rs: seq<Record>, tid: TransferId): seq<Record> {
    if rs == [] then []
    else Terminals(rs[..|rs| - 1], tid) + (if Closes(rs[|rs| - 1], tid) then [rs[|rs| - 1]] else [])
  }

  function Matched(start: Record, ends: seq<Record>): (rows: seq<Row>)
    ensures |rows| == |ends| && forall i :: 0 <= i < |rows| ==> rows[i] == Row(start, Some(ends[i]))
  {
    seq(|ends|, i requires 0 <= i < |ends| => Row(start, Some(ends[i])))
  }

  /** A start joins every terminal record with its id, or stands alone. */
  function RowsOf(start: Record, all: seq<Record>): seq<Row>
    requires start.transfer.Some?
  {
    var ends := Terminals(all, start.transfer.value);
    if ends == [] then [Row(start, None)] else Matched(start, ends)
  }

  function Join(rs: seq<Record>, all: seq<Record>): seq<Row> {
    if rs == [] then []
    else
      var last := rs[|rs| - 1];
      Join(rs[..|rs| - 1], all) + (if IsStart(last) then RowsOf(last, all) else [])
  }

  /** The pairs table of a stream. */
  function TransferPairs(rs: seq<Record>): seq<Row> {
    Join(rs, rs)
  }

  lemma {:induction false} TerminalsCount(rs: seq<Record>, tid: TransferId)
    ensures |Terminals(rs, tid)| == CountCloses(rs, tid)
    ensures forall r :: r in Terminals(rs, tid) ==> r in rs && Closes(r, tid)
    decreases |rs|
  {
    if rs == [] {
    } else {
      TerminalsCount(rs[..|rs| - 1], tid);
    }
  }

  // --------------------------------------------------------------- row counts

  function StartsIn(rs: seq<Record>): nat {
    if rs == [] then 0 else StartsIn(rs[..|rs| - 1]) + (if IsStart(rs[|rs| - 1]) then 1 else 0)
  }

  /** Over the starts, the number of terminal records with the id, or one if there are none. */
  function ExpectedRows(rs: seq<Record>, all: seq<Record>): nat {
    if rs == [] then 0
    else
      var last := rs[|rs| - 1];
      ExpectedRows(rs[..|rs| - 1], all) +
      (if !IsStart(last) then 0
       else if CountCloses(all, last.transfer.value) == 0 then 1 else CountCloses(all, last.transfer.value))
  }

  lemma {:induction false} JoinHasExpectedRows(rs: seq<Record>, all: seq<Record>)
    ensures |Join(rs, all)| == ExpectedRows(rs, all)
    decreases |rs|
  {
    if rs == [] {
    } else {
      JoinHasExpectedRows(rs[..|rs| - 1], all);
      if IsStart(rs[|rs| - 1]) { TerminalsCount(all, rs[|rs| - 1].transfer.value); }
    }
  }

  lemma {:induction false} OneRowPerStart(rs: seq<Record>, all: seq<Record>)
    requires forall tid: TransferId :: CountCloses(all, tid) <= 1
    ensures |Join(rs, all)| == StartsIn(rs)
    decreases |rs|
  {
    if rs == [] {
    } else {
      OneRowPerStart(rs[..|rs| - 1], all);
      if IsStart(rs[|rs| - 1]) { TerminalsCount(all, rs[|rs| - 1].transfer.value); }
    }
  }

  // ---------------------------------------------------------- how often each row

  lemma OneMore<X>(s: seq<X>, x: X, y: X)
    ensures multiset(s + [x])[y] == multiset(s)[y] + (if x == y then 1 else 0)
  {
  }

  /** The terminal records of an id are all there, each as often as in the stream. */
  lemma {:induction false} TerminalsOccur(rs: seq<Record>, tid: TransferId, e: Record)
    ensures multiset(Terminals(rs, tid))[e] == if Closes(e, tid) then multiset(rs)[e] else 0
    decreases |rs|
  {
    if rs == [] {
    } else {
      var front, last := rs[..|rs| - 1], rs[|rs| - 1];
      TerminalsOccur(front, tid, e);
      assert rs == front + [last];
      OneMore(front, last, e);
      OneMore(Terminals(front, tid), last, e);
    }
  }

  lemma {:induction false} MatchedOccur(start: Record, ends: seq<Record>, row: Row)
    ensures multiset(Matched(start, ends))[row] ==
            if row.start == start && row.end.Some? then multiset(ends)[row.end.value] else 0
    decreases |ends|
  {
    if ends == [] {
    } else {
      var front, last := ends[..|ends| - 1], ends[|ends| - 1];
      var rows, more := Matched(start, front), Row(start, Some(last));
      MatchedOccur(start, front, row);
      assert ends == front + [last];
      assert Matched(start, ends) == rows + [more];
      OneMore(rows, more, row);
      if row.end.Some? { OneMore(front, last, row.end.value); }
    }
  }

  /** How often a row belongs into a start's part of the table. */
  function Expected(start: Record, all: seq<Record>, row: Row): nat {
    if !IsStart(start) || row.start != start then 0
    else if row.end.None? then (if CountCloses(all, start.transfer.value) == 0 then 1 else 0)
    else if Closes(row.end.value, start.transfer.value) then multiset(all)[row.end.value] else 0
  }

  lemma RowsOccur(start: Record, all: seq<Record>, row: Row)
    requires IsStart(start)
    ensures multiset(RowsOf(start, all))[row] == Expected(start, all, row)
  {
    var tid := start.transfer.value;
    var ends := Terminals(all, tid);
    TerminalsCount(all, tid);
    MatchedOccur(start, ends, row);
    if row.end.Some? { TerminalsOccur(all, tid, row.end.value); }
    if ends == [] {
      assert multiset(ends) == multiset{};
      assert multiset([Row(start, None)])[row] == if row == Row(start, None) then 1 else 0;
    }
  }

  lemma PlusOccur<X>(a: seq<X>, b: seq<X>, x: X)
    ensures multiset(a + b)[x] == multiset(a)[x] + multiset(b)[x]
  {
  }

  /** A start joined with a terminal record of its id occurs as often as the two do, multiplied. */
  lemma {:induction false} JoinOccurs(rs: seq<Record>, all: seq<Record>, row: Row)
    ensures multiset(Join(rs, all))[row] == multiset(rs)[row.start] * Expected(row.start, all, row)
    decreases |rs|
  {
    if rs == [] {
    } else {
      var front, last := rs[..|rs| - 1], rs[|rs| - 1];
      assert rs == front + [last];
      JoinOccurs(front, all, row);
      OneMore(front, last, row.start);
      StartOccurs(front, last, all, row);
      hide Expected, Join;
      var n, d, e := multiset(front)[row.start], if last == row.start then 1 else 0, Expected(row.start, all, row);
      Distributes(n, d, e);
      assert multiset(rs)[row.start] == n + d;
      assert multiset(Join(rs, all))[row] == n * e + (if d == 1 then e else 0);
    }
  }

  /** What one more record adds to the table. */
  lemma StartOccurs(rs: seq<Record>, last: Record, all: seq<Record>, row: Row)
    ensures multiset(Join(rs + [last], all))[row] ==
            multiset(Join(rs, all))[row] + (if last == row.start then Expected(row.start, all, row) else 0)
  {
    assert (rs + [last])[..|rs|] == rs;
    if IsStart(last) {
      RowsOccur(last, all, row);
      PlusOccur(Join(rs, all), RowsOf(last, all), row);
    } else {
      assert Join(rs + [last], all) == Join(rs, all);
    }
  }

  lemma Distributes(n: nat, d: nat, e: nat)
    requires d <= 1
    ensures (n + d) * e == n * e + (if d == 1 then e else 0)
  {
  }

  /**
   The whole table: each start with each terminal record of its id, as often as both
   occur; a start that nothing closes alone, as often as it occurs; and nothing else.
   */
  lemma PairsAreExactly(rs: seq<Record>, row: Row)
    ensures multiset(TransferPairs(rs))[row] ==
            if !IsStart(row.start) then 0
            else if row.end.None?
            then (if CountCloses(rs, row.start.transfer.value) == 0 then multiset(rs)[row.start] else 0)
            else if Closes(row.end.value, row.start.transfer.value)
            then multiset(rs)[row.start] * multiset(rs)[row.end.value]
            else 0
  {
    JoinOccurs(rs, rs, row);
    TimesOne(multiset(rs)[row.start]);
  }

  lemma TimesOne(n: nat)
    ensures n * 1 == n && n * 0 == 0
  {
  }

  // -------------------------------------------------------------- row contents

  ghost predicate GoodRow(row: Row, all: seq<Record>) {
    && row.start in all && IsStart(row.start)
    && match row.end
       case None => CountCloses(all, row.start.transfer.value) == 0
       case Some(e) => e in all && Closes(e, row.start.transfer.value)
  }

  lemma {:induction false} RowsAreGood(rs: seq<Record>, all: seq<Record>)
    requires forall r :: r in rs ==> r in all
    ensures forall row :: row in Join(rs, all) ==> GoodRow(row, all)
    decreases |rs|
  {
    if rs == [] {
    } else {
      var last := rs[|rs| - 1];
      RowsAreGood(rs[..|rs| - 1], all);
      if IsStart(last) {
        TerminalsCount(all, last.transfer.value);
        forall row | row in RowsOf(last, all)
          ensures GoodRow(row, all)
        {
          if row.end.Some? { assert row.end.value in Terminals(all, last.transfer.value); }
        }
      }
    }
  }

  /** On a well-paired stream every start has one row, and no duration is negative. */
  lemma PairsOfWellPaired(rs: seq<Record>)
    requires WellPaired(rs)
    ensures |TransferPairs(rs)| == StartsIn(rs)
    ensures forall row :: row in TransferPairs(rs) ==>
      && GoodRow(row, rs)
      && (row.end.Some? ==>
            row.start.ts.Some? && row.end.value.ts.Some? && row.end.value.ts.value - row.start.ts.value >= 0)
  {
    OneRowPerStart(rs, rs);
    RowsAreGood(rs, rs);
    forall row | row in TransferPairs(rs) && row.end.Some?
      ensures row.start.ts.Some? && row.end.value.ts.Some? && row.end.value.ts.value - row.start.ts.value >= 0
    {
      assert GoodRow(row, rs);
      assert Opens(row.start, row.start.transfer.value);
    }
  }

  // ------------------------------------------- unmatched rows against orphans

  function Unmatched(rows: seq<Row>): nat {
    if rows == [] then 0 else Unmatched(rows[..|rows| - 1]) + (if rows[|rows| - 1].end.None? then 1 else 0)
  }

  lemma {:induction false} UnmatchedSplits(a: seq<Row>, b: seq<Row>)
    ensures Unmatched(a + b) == Unmatched(a) + Unmatched(b)
    decreases |b|
  {
    if b == [] {
      assert a + b == a;
    } else {
      assert (a + b)[..|a + b| - 1] == a + b[..|b| - 1];
      UnmatchedSplits(a, b[..|b| - 1]);
    }
  }

  lemma {:induction false} AllMatched(rows: seq<Row>)
    requires forall i :: 0 <= i < |rows| ==> rows[i].end.Some?
    ensures Unmatched(rows) == 0
    decreases |rows|
  {
    if rows == [] {
    } else {
      AllMatched(rows[..|rows| - 1]);
    }
  }

  ghost function OpenIn(rs: seq<Record>, all: seq<Record>): set<TransferId> {
    set r | r in rs && IsStart(r) && CountCloses(all, r.transfer.value) == 0 :: r.transfer.value
  }

  /** No id that stays open has two start records. */
  ghost predicate OpenOnce(rs: seq<Record>, all: seq<Record>) {
    forall tid: TransferId :: CountCloses(all, tid) == 0 ==> CountOpens(rs, tid) <= 1
  }

  lemma OpenOnceAppend(rs: seq<Record>, r: Record, all: seq<Record>)
    ensures OpenOnce(rs + [r], all) <==>
            OpenOnce(rs, all) && (IsStart(r) && CountCloses(all, r.transfer.value) == 0
                                  ==> CountOpens(rs, r.transfer.value) == 0)
  {
  }

  lemma OpenInAppend(rs: seq<Record>, r: Record, all: seq<Record>)
    ensures OpenIn(rs + [r], all) == OpenIn(rs, all) +
            (if IsStart(r) && CountCloses(all, r.transfer.value) == 0 then {r.transfer.value} else {})
    ensures IsStart(r) && CountCloses(all, r.transfer.value) == 0 ==>
            (r.transfer.value in OpenIn(rs, all) <==> CountOpens(rs, r.transfer.value) > 0)
  {
  }

  lemma UnmatchedAppend(rs: seq<Record>, r: Record, all: seq<Record>)
    ensures Unmatched(Join(rs + [r], all)) == Unmatched(Join(rs, all)) +
            (if IsStart(r) && CountCloses(all, r.transfer.value) == 0 then 1 else 0)
  {
    assert (rs + [r])[..|rs|] == rs;
    if IsStart(r) {
      TerminalsCount(all, r.transfer.value);
      UnmatchedSplits(Join(rs, all), RowsOf(r, all));
      if CountCloses(all, r.transfer.value) == 0 {
        assert [Row(r, None)][..0] == [];
      } else {
        AllMatched(RowsOf(r, all));
      }
    } else {
      assert Join(rs + [r], all) == Join(rs, all);
    }
  }

  lemma {:induction false} UnmatchedAgainstOpen(rs: seq<Record>, all: seq<Record>)
    ensures Unmatched(Join(rs, all)) >= |OpenIn(rs, all)|
    ensures Unmatched(Join(rs, all)) == |OpenIn(rs, all)| <==> OpenOnce(rs, all)
    decreases |rs|
  {
    if rs == [] {
      assert OpenIn(rs, all) == {};
    } else {
      var front, last := rs[..|rs| - 1], rs[|rs| - 1];
      assert rs == front + [last];
      UnmatchedAgainstOpen(front, all);
      OpenOnceAppend(front, last, all);
      OpenInAppend(front, last, all);
      UnmatchedAppend(front, last, all);
    }
  }

  ghost predicate OneTrace(rs: seq<Record>, trace: nat) {
    forall r :: r in rs && IsTransfer(r) ==> r.trace == Some(trace)
  }

  ghost function Keyed(trace: nat, ids: set<TransferId>): set<(V.TraceKey, nat)> {
    set id | id in ids :: (Some(trace), id)
  }

  lemma {:induction false} KeyedSize(trace: nat, ids: set<TransferId>)
    ensures |Keyed(trace, ids)| == |ids|
    decreases ids
  {
    if ids == {} {
      assert Keyed(trace, ids) == {};
    } else {
      var id :| id in ids;
      KeyedSize(trace, ids - {id});
      assert Keyed(trace, ids) == Keyed(trace, ids - {id}) + {(Some(trace), id)};
    }
  }

  lemma MarksAreCounts(rs: seq<Record>, trace: nat, key: (V.TraceKey, nat))
    requires OneTrace(rs, trace)
    ensures V.HasMark(V.OfTransfers, rs, key, V.Opening) <==> key.0 == Some(trace) && CountOpens(rs, key.1) > 0
    ensures V.HasMark(V.OfTransfers, rs, key, V.Closing) <==> key.0 == Some(trace) && CountCloses(rs, key.1) > 0
  {
  }

  lemma OrphansAreOpen(rs: seq<Record>, trace: nat)
    requires OneTrace(rs, trace)
    ensures V.Orphans(V.OfTransfers, rs) == Keyed(trace, OpenIn(rs, rs))
  {
    forall key: (V.TraceKey, nat)
      ensures key in V.Orphans(V.OfTransfers, rs) <==> key in Keyed(trace, OpenIn(rs, rs))
    {
      V.OrphansAreExactly(V.OfTransfers, rs, key);
      MarksAreCounts(rs, trace, key);
      CountsArePositive(rs, key.1);
      if r :| r in rs && Opens(r, key.1) { assert IsStart(r); }
    }
  }

  /**
   The join and the validator agree: within one trace there are at least as many
   unmatched rows as orphans, and exactly as many if and only if no open id was
   started twice.
   */
  lemma UnmatchedRowsAgainstOrphans(rs: seq<Record>, trace: nat)
    requires OneTrace(rs, trace)
    ensures Unmatched(TransferPairs(rs)) >= |V.Orphans(V.OfTransfers, rs)|
    ensures Unmatched(TransferPairs(rs)) == |V.Orphans(V.OfTransfers, rs)| <==> OpenOnce(rs, rs)
  {
    UnmatchedAgainstOpen(rs, rs);
    OrphansAreOpen(rs, trace);
    KeyedSize(trace, OpenIn(rs, rs));
  }
}
