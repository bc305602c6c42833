/** Lifecycle rows and stage durations rebuilt offline from records. */
module CriticalPath {
  import opened Records

  datatype Column = ArrivalCol | FirstScheduleCol | FirstTokenCol | FinishCol | TtftCol | TpotCol

  datatype Status = Open | FinishedOk | WasAborted

  datatype Row = Row(
    request: Option<RequestId>, arrival: Option<int>, firstSchedule: Option<int>, firstToken: Option<int>,
    finish: Option<int>, abort: Option<int>, ttft: Option<int>, tpot: Option<int>, endToEnd: Option<int>,
    status: Status)

  function Cell(r: Record, col: Column): Option<int> {
    if !r.detail.Stamps? then None
    else
      match col
      case ArrivalCol => r.detail.arrival
      case FirstScheduleCol => r.detail.firstSchedule
      case FirstTokenCol => r.detail.firstToken
      case FinishCol => r.detail.finish
      case TtftCol => r.detail.ttft
      case TpotCol => r.detail.tpot
  }

  function Coalesce(a: Option<int>, b: Option<int>): Option<int> {
    if a.Some? then a else b
  }

  /** The earliest timestamp of a subtype. */
  function FirstTs(rows: seq<Record>, subtype: Subtype): Option<int> {
    if rows == [] then None
    else
      var before, last := FirstTs(rows[..|rows| - 1], subtype), rows[|rows| - 1];
      if last.subtype != Some(subtype) || last.ts.None? then before
      else if before.None? || last.ts.value < before.value then last.ts else before
  }

  /** The first value of a column among the rows of a subtype. */
  function FirstValue(rows: seq<Record>, col: Column, subtype: Subtype): Option<int> {
    if rows == [] then None
    else if rows[0].subtype == Some(subtype) && Cell(rows[0], col).Some? then Cell(rows[0], col)
    else FirstValue(rows[1..], col, subtype)
  }

  /** The first_token records of one request in the token table. */
  function TokensOf(tokens: seq<Record>, request: Option<RequestId>): seq<Record> {
    if tokens == [] then []
    else TokensOf(tokens[..|tokens| - 1], request) +
         (if request.Some? && tokens[|tokens| - 1].request == request then [tokens[|tokens| - 1]] else [])
  }

  /** One request's row, from its records sorted by timestamp. */
  function Lifecycle(request: Option<RequestId>, group: seq<Record>, tokens: seq<Record>): Row {
    var arrival := Coalesce(FirstValue(group, ArrivalCol, Arrival), FirstTs(group, Arrival));
    var firstSchedule := Coalesce(FirstValue(group, FirstScheduleCol, Admit), FirstTs(group, Admit));
    var recorded := Coalesce(FirstValue(group, FirstTokenCol, Finish), FirstTs(group, FirstToken));
    var firstToken := Coalesce(recorded, FirstTs(TokensOf(tokens, request), FirstToken));
    var finish := Coalesce(FirstValue(group, FinishCol, Finish), FirstTs(group, Finish));
    Assembled(request, arrival, firstSchedule, firstToken, finish, FirstTs(group, Abort),
              FirstValue(group, TtftCol, Finish), FirstValue(group, TpotCol, Finish))
  }

  /** The row made of the columns found. */
  function Assembled(request: Option<RequestId>, arrival: Option<int>, firstSchedule: Option<int>,
                     firstToken: Option<int>, finish: Option<int>, abort: Option<int>,
                     ttft: Option<int>, tpot: Option<int>): Row {
    var terminal := if finish.Some? && finish.value != 0 then finish else abort;
    Row(request, arrival, firstSchedule, firstToken, finish, abort,
        if ttft.None? && arrival.Some? && firstToken.Some? then Some(firstToken.value - arrival.value) else ttft,
        tpot,
        if terminal.Some? && arrival.Some? then Some(terminal.value - arrival.value) else None,
        if abort.Some? then WasAborted else if finish.Some? then FinishedOk else Open)
  }

  // ------------------------------------------------------------------ sorting

  /** By timestamp, rows without one last. */
  predicate Ordered(a: Record, b: Record) {
    b.ts.None? || (a.ts.Some? && a.ts.value <= b.ts.value)
  }

  ghost predicate Sorted(rows: seq<Record>) {
    forall i, j :: 0 <= i < j < |rows| ==> Ordered(rows[i], rows[j])
  }

  function Insert(r: Record, rows: seq<Record>): seq<Record> {
    if rows == [] then [r]
    else if Ordered(rows[|rows| - 1], r) then rows + [r]
    else Insert(r, rows[..|rows| - 1]) + [rows[|rows| - 1]]
  }

  function SortByTs(rows: seq<Record>): seq<Record> {
    if rows == [] then [] else Insert(rows[|rows| - 1], SortByTs(rows[..|rows| - 1]))
  }

  lemma {:induction false} InsertAdds(r: Record, rows: seq<Record>)
    ensures multiset(Insert(r, rows)) == multiset(rows) + multiset{r}
    decreases |rows|
  {
    if rows == [] || Ordered(rows[|rows| - 1], r) {
    } else {
      InsertAdds(r, rows[..|rows| - 1]);
      assert rows == rows[..|rows| - 1] + [rows[|rows| - 1]];
    }
  }

  lemma {:induction false} InsertSorts(r: Record, rows: seq<Record>)
    requires Sorted(rows)
    ensures Sorted(Insert(r, rows))
    decreases |rows|
  {
    if rows == [] || Ordered(rows[|rows| - 1], r) {
    } else {
      var front, last := rows[..|rows| - 1], rows[|rows| - 1];
      InsertSorts(r, front);
      InsertAdds(r, front);
      var out := Insert(r, front);
      forall i | 0 <= i < |out|
        ensures Ordered(out[i], last)
      {
        assert out[i] in multiset(front) + multiset{r};
      }
    }
  }

  lemma {:induction false} SortByTsSorts(rows: seq<Record>)
    ensures Sorted(SortByTs(rows)) && multiset(SortByTs(rows)) == multiset(rows)
    decreases |rows|
  {
    if rows == [] {
    } else {
      SortByTsSorts(rows[..|rows| - 1]);
      InsertSorts(rows[|rows| - 1], SortByTs(rows[..|rows| - 1]));
      InsertAdds(rows[|rows| - 1], SortByTs(rows[..|rows| - 1]));
      assert rows == rows[..|rows| - 1] + [rows[|rows| - 1]];
    }
  }

  /** Rows with a stamp come first, by their stamps; those without come last. */
  lemma StampedRowsFirst(rows: seq<Record>, i: nat, j: nat)
    requires i < j < |SortByTs(rows)| && SortByTs(rows)[j].ts.Some?
    ensures SortByTs(rows)[i].ts.Some? && SortByTs(rows)[i].ts.value <= SortByTs(rows)[j].ts.value
  {
    SortByTsSorts(rows);
    assert Ordered(SortByTs(rows)[i], SortByTs(rows)[j]);
  }

  function Group(rows: seq<Record>, request: Option<RequestId>): seq<Record> {
    if rows == [] then []
    else Group(rows[..|rows| - 1], request) +
         (if rows[|rows| - 1].request == request then [rows[|rows| - 1]] else [])
  }

  function SortedRow(requests: seq<Record>, tokens: seq<Record>, request: Option<RequestId>): Row {
    Lifecycle(request, SortByTs(Group(requests, request)), tokens)
  }

  ghost predicate Occurs(requests: seq<Record>, id: Option<RequestId>) {
    exists r :: r in requests && r.request == id
  }

  /** The request ids that occur, each once. */
  method GroupKeys(requests: seq<Record>) returns (ids: seq<Option<RequestId>>)
    ensures forall i, j :: 0 <= i < j < |ids| ==> ids[i] != ids[j]
    ensures forall id :: id in ids <==> Occurs(requests, id)
  {
    ids := [];
    for k := 0 to |requests|
      invariant forall i, j :: 0 <= i < j < |ids| ==> ids[i] != ids[j]
      invariant forall id :: id in ids <==> exists i :: 0 <= i < k && requests[i].request == id
    {
      if requests[k].request !in ids {
        ids := ids + [requests[k].request];
      }
    }
  }

  /** One row per request id that occurs, rebuilt from that request's records. */
  method RequestLifecycle(requests: seq<Record>, tokens: seq<Record>) returns (rows: seq<Row>)
    ensures forall i :: 0 <= i < |rows| ==> rows[i] == SortedRow(requests, tokens, rows[i].request)
    ensures forall i, j :: 0 <= i < j < |rows| ==> rows[i].request != rows[j].request
    ensures forall r :: r in requests ==> exists i :: 0 <= i < |rows| && rows[i].request == r.request
    ensures forall i :: 0 <= i < |rows| ==> Occurs(requests, rows[i].request)
  {
    var ids := GroupKeys(requests);
    rows := [];
    for k := 0 to |ids|
      invariant |rows| == k
      invariant forall i :: 0 <= i < k ==> rows[i].request == ids[i] && rows[i] == SortedRow(requests, tokens, ids[i])
    {
      rows := rows + [SortedRow(requests, tokens, ids[k])];
    }
    forall r | r in requests
      ensures exists i :: 0 <= i < |rows| && rows[i].request == r.request
    {
      assert r.request in ids;
      var i :| 0 <= i < |ids| && ids[i] == r.request;
      assert rows[i].request == r.request;
    }
  }

  // -------------------------------------------------------------- stage timing

  function NonNegativeDiff(end: Option<int>, start: Option<int>): Option<int> {
    if end.None? || start.None? then None
    else Some(if end.value - start.value > 0 then end.value - start.value else 0)
  }

  datatype Stages = Stages(queue: Option<int>, prefill: Option<int>, decode: Option<int>)

  function StagesOf(row: Row): Stages {
    Stages(NonNegativeDiff(row.firstSchedule, row.arrival),
           NonNegativeDiff(row.firstToken, row.firstSchedule),
           NonNegativeDiff(row.finish, row.firstToken))
  }

  /** The three timestamp stages of the attribution, one triple per lifecycle row. */
  method Attribute(rows: seq<Row>) returns (out: seq<Stages>)
    ensures |out| == |rows| && forall i :: 0 <= i < |out| ==> out[i] == StagesOf(rows[i])
  {
    out := [];
    for i := 0 to |rows|
      invariant |out| == i && forall j :: 0 <= j < i ==> out[j] == StagesOf(rows[j])
    {
      out := out + [StagesOf(rows[i])];
    }
  }

  /** A stage is there exactly if both of its stamps are, and is their difference, or zero if they are not in order. */
  lemma StagesAreBetweenStamps(row: Row)
    ensures var st := StagesOf(row);
      && (st.queue.Some? <==> row.arrival.Some? && row.firstSchedule.Some?)
      && (st.prefill.Some? <==> row.firstSchedule.Some? && row.firstToken.Some?)
      && (st.decode.Some? <==> row.firstToken.Some? && row.finish.Some?)
      && (st.queue.Some? ==> IsSpan(st.queue.value, row.arrival.value, row.firstSchedule.value))
      && (st.prefill.Some? ==> IsSpan(st.prefill.value, row.firstSchedule.value, row.firstToken.value))
      && (st.decode.Some? ==> IsSpan(st.decode.value, row.firstToken.value, row.finish.value))
  {
  }

  /** The time from one stamp to another, if it comes later. */
  predicate IsSpan(span: int, start: int, end: int) {
    span >= 0 && if start <= end then start + span == end else span == 0
  }

  /** The stages add up to at least the request's time, and exactly to it when its stamps are in order. */
  lemma StagesCoverRequest(row: Row)
    requires row.arrival.Some? && row.firstSchedule.Some? && row.firstToken.Some? && row.finish.Some?
    ensures var st := StagesOf(row);
      && st.queue.Some? && st.prefill.Some? && st.decode.Some?
      && st.queue.value + st.prefill.value + st.decode.value >= row.finish.value - row.arrival.value
      && (st.queue.value + st.prefill.value + st.decode.value == row.finish.value - row.arrival.value <==>
            row.arrival.value <= row.firstSchedule.value <= row.firstToken.value <= row.finish.value)
  {
  }

  // ------------------------------------------------------- facts about the rows

  /** The tokens of a request are those that name it; rows without a request have none. */
  lemma {:induction false} TokensOfHolds(tokens: seq<Record>, request: Option<RequestId>)
    ensures forall r :: r in TokensOf(tokens, request) <==> r in tokens && request.Some? && r.request == request
    decreases |tokens|
  {
    if tokens == [] {
    } else {
      TokensOfHolds(tokens[..|tokens| - 1], request);
      assert tokens == tokens[..|tokens| - 1] + [tokens[|tokens| - 1]];
    }
  }

  lemma {:induction false} FirstTsIsEarliest(rows: seq<Record>, subtype: Subtype)
    ensures var t := FirstTs(rows, subtype);
      && (t.None? <==> forall r :: r in rows && r.subtype == Some(subtype) ==> r.ts.None?)
      && (t.Some? ==> (exists r :: r in rows && r.subtype == Some(subtype) && r.ts == t) &&
                      forall r :: r in rows && r.subtype == Some(subtype) && r.ts.Some? ==> t.value <= r.ts.value)
    decreases |rows|
  {
    if rows == [] {
    } else {
      var front, last := rows[..|rows| - 1], rows[|rows| - 1];
      FirstTsIsEarliest(front, subtype);
      assert rows == front + [last];
      assert forall r :: r in rows <==> r in front || r == last;
    }
  }

  lemma {:induction false} FirstValueIsFirst(rows: seq<Record>, col: Column, subtype: Subtype) returns (k: nat)
    ensures var v := FirstValue(rows, col, subtype);
      if v.None?
      then k == |rows| && forall i :: 0 <= i < |rows| && rows[i].subtype == Some(subtype) ==> Cell(rows[i], col).None?
      else k < |rows| && rows[k].subtype == Some(subtype) && Cell(rows[k], col) == v &&
           forall i :: 0 <= i < k && rows[i].subtype == Some(subtype) ==> Cell(rows[i], col).None?
    decreases |rows|
  {
    if rows == [] {
      k := 0;
    } else if rows[0].subtype == Some(subtype) && Cell(rows[0], col).Some? {
      k := 0;
    } else {
      k := FirstValueIsFirst(rows[1..], col, subtype);
      k := k + 1;
    }
  }

  // ------------------------------------------------------- what any row holds

  /** The value is the first that the rows of a subtype have in a column. */
  ghost predicate IsFirstCell(v: int, rows: seq<Record>, col: Column, subtype: Subtype) {
    exists k :: 0 <= k < |rows| && rows[k].subtype == Some(subtype) && Cell(rows[k], col) == Some(v)
                && forall i :: 0 <= i < k && rows[i].subtype == Some(subtype) ==> Cell(rows[i], col).None?
  }

  ghost predicate NoCell(rows: seq<Record>, col: Column, subtype: Subtype) {
    forall r :: r in rows && r.subtype == Some(subtype) ==> Cell(r, col).None?
  }

  /** The earliest stamp of the rows of a subtype, if there is one. */
  ghost predicate IsEarliest(t: Option<int>, rows: seq<Record>, subtype: Subtype) {
    if t.None? then NoStamp(rows, subtype)
    else
      && (exists r :: r in rows && r.subtype == Some(subtype) && r.ts == t)
      && forall r :: r in rows && r.subtype == Some(subtype) && r.ts.Some? ==> t.value <= r.ts.value
  }

  ghost predicate NoStamp(rows: seq<Record>, subtype: Subtype) {
    forall r :: r in rows && r.subtype == Some(subtype) ==> r.ts.None?
  }

  /** A column is recovered from the records that carry it or else from the earliest of them. */
  ghost predicate Recovered(v: Option<int>, rows: seq<Record>, col: Column, subtype: Subtype) {
    if NoCell(rows, col, subtype) then IsEarliest(v, rows, subtype)
    else v.Some? && IsFirstCell(v.value, rows, col, subtype)
  }

  lemma FirstCell(rows: seq<Record>, col: Column, subtype: Subtype)
    ensures FirstValue(rows, col, subtype).None? <==> NoCell(rows, col, subtype)
    ensures FirstValue(rows, col, subtype).Some? ==>
      IsFirstCell(FirstValue(rows, col, subtype).value, rows, col, subtype)
  {
    var k := FirstValueIsFirst(rows, col, subtype);
    if FirstValue(rows, col, subtype).Some? {
      assert rows[k] in rows;
    }
  }

  lemma Recovers(rows: seq<Record>, col: Column, subtype: Subtype)
    ensures Recovered(Coalesce(FirstValue(rows, col, subtype), FirstTs(rows, subtype)), rows, col, subtype)
  {
    FirstCell(rows, col, subtype);
    FirstTsIsEarliest(rows, subtype);
  }

  /** The stamps of any request's row, whatever records it has and lacks. */
  lemma StampsAreRecovered(request: Option<RequestId>, group: seq<Record>, tokens: seq<Record>)
    ensures var row := Lifecycle(request, group, tokens);
      && row.request == request
      && Recovered(row.arrival, group, ArrivalCol, Arrival)
      && Recovered(row.firstSchedule, group, FirstScheduleCol, Admit)
      && Recovered(row.finish, group, FinishCol, Finish)
      && IsEarliest(row.abort, group, Abort)
  {
    Recovers(group, ArrivalCol, Arrival);
    Recovers(group, FirstScheduleCol, Admit);
    Recovers(group, FinishCol, Finish);
    FirstTsIsEarliest(group, Abort);
  }

  /** Its first token: recorded by a finish, or else the request table's earliest, or else the token table's. */
  lemma FirstTokenIsRecovered(request: Option<RequestId>, group: seq<Record>, tokens: seq<Record>)
    ensures var t := Lifecycle(request, group, tokens).firstToken;
      if !NoCell(group, FirstTokenCol, Finish) then t.Some? && IsFirstCell(t.value, group, FirstTokenCol, Finish)
      else if !NoStamp(group, FirstToken) then IsEarliest(t, group, FirstToken)
      else IsEarliest(t, TokensOf(tokens, request), FirstToken)
  {
    FirstCell(group, FirstTokenCol, Finish);
    FirstTsIsEarliest(group, FirstToken);
    FirstTsIsEarliest(TokensOf(tokens, request), FirstToken);
  }

  /** Its times: recorded by a finish, or else, for the first token, the difference of the row's own stamps. */
  lemma TimesAreRecovered(request: Option<RequestId>, group: seq<Record>, tokens: seq<Record>)
    ensures var row := Lifecycle(request, group, tokens);
      && (if NoCell(group, TpotCol, Finish) then row.tpot == None
          else row.tpot.Some? && IsFirstCell(row.tpot.value, group, TpotCol, Finish))
      && (if !NoCell(group, TtftCol, Finish) then row.ttft.Some? && IsFirstCell(row.ttft.value, group, TtftCol, Finish)
          else if row.arrival.Some? && row.firstToken.Some?
          then row.ttft.Some? && row.arrival.value + row.ttft.value == row.firstToken.value
          else row.ttft == None)
  {
    FirstCell(group, TpotCol, Finish);
    FirstCell(group, TtftCol, Finish);
  }

  /** Its outcome: an abort outweighs a finish, but its whole time runs to the finish if that has a time. */
  lemma OutcomeIsRecovered(request: Option<RequestId>, group: seq<Record>, tokens: seq<Record>)
    ensures var row := Lifecycle(request, group, tokens);
      && (row.status == WasAborted <==> !NoStamp(group, Abort))
      && (row.status == FinishedOk <==> NoStamp(group, Abort) && row.finish.Some?)
      && (row.endToEnd.Some? <==> row.arrival.Some? && ((row.finish.Some? && row.finish.value != 0) || row.abort.Some?))
      && (row.endToEnd.Some? && row.finish.Some? && row.finish.value != 0 ==>
            row.arrival.value + row.endToEnd.value == row.finish.value)
      && (row.endToEnd.Some? && (row.finish == None || row.finish.value == 0) ==>
            row.arrival.value + row.endToEnd.value == row.abort.value)
  {
    FirstTsIsEarliest(group, Abort);
  }
}
