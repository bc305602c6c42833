/** Opening and closing records of transfer ids in a stream of records. */
module Streams {
  import opened Records

  function CountOpens(rs: seq<Record>, tid: TransferId): nat {
    if rs == [] then 0
    else CountOpens(rs[..|rs| - 1], tid) + (if Opens(rs[|rs| - 1], tid) then 1 else 0)
  }

  function CountCloses(rs: seq<Record>, tid: TransferId): nat {
    if rs == [] then 0
    else CountCloses(rs[..|rs| - 1], tid) + (if Closes(rs[|rs| - 1], tid) then 1 else 0)
  }

  lemma CountsAppend(rs: seq<Record>, r: Record, tid: TransferId)
    ensures CountOpens(rs + [r], tid) == CountOpens(rs, tid) + (if Opens(r, tid) then 1 else 0)
    ensures CountCloses(rs + [r], tid) == CountCloses(rs, tid) + (if Closes(r, tid) then 1 else 0)
  {
  }

  lemma {:induction false} CountsSplit(a: seq<Record>, b: seq<Record>, tid: TransferId)
    ensures CountOpens(a + b, tid) == CountOpens(a, tid) + CountOpens(b, tid)
    ensures CountCloses(a + b, tid) == CountCloses(a, tid) + CountCloses(b, tid)
    decreases |b|
  {
    if b == [] {
      assert a + b == a;
    } else {
      assert (a + b)[..|a + b| - 1] == a + b[..|b| - 1];
      CountsSplit(a, b[..|b| - 1], tid);
    }
  }

  lemma {:induction false} CountsArePositive(rs: seq<Record>, tid: TransferId)
    ensures CountOpens(rs, tid) > 0 <==> exists r :: r in rs && Opens(r, tid)
    ensures CountCloses(rs, tid) > 0 <==> exists r :: r in rs && Closes(r, tid)
    decreases |rs|
  {
    if rs == [] {
    } else {
      var front, last := rs[..|rs| - 1], rs[|rs| - 1];
      CountsArePositive(front, tid);
      assert rs == front + [last];
      assert forall r :: r in rs <==> r in front || r == last;
    }
  }

  /** An id that opens once has one opening record, and that once. */
  lemma {:induction false} OneOpen(rs: seq<Record>, tid: TransferId) returns (r: Record)
    requires CountOpens(rs, tid) == 1
    ensures Opens(r, tid) && multiset(rs)[r] == 1 && forall q :: q in rs && Opens(q, tid) ==> q == r
    decreases |rs|
  {
    var front, last := rs[..|rs| - 1], rs[|rs| - 1];
    assert rs == front + [last];
    if Opens(last, tid) {
      r := last;
      CountsArePositive(front, tid);
      assert r !in front;
    } else {
      r := OneOpen(front, tid);
    }
  }

  lemma {:induction false} OneClose(rs: seq<Record>, tid: TransferId) returns (r: Record)
    requires CountCloses(rs, tid) == 1
    ensures Closes(r, tid) && multiset(rs)[r] == 1 && forall q :: q in rs && Closes(q, tid) ==> q == r
    decreases |rs|
  {
    var front, last := rs[..|rs| - 1], rs[|rs| - 1];
    assert rs == front + [last];
    if Closes(last, tid) {
      r := last;
      CountsArePositive(front, tid);
      assert r !in front;
    } else {
      r := OneClose(front, tid);
    }
  }

  lemma CountsWithout(rs: seq<Record>, k: nat, tid: TransferId)
    requires k < |rs|
    ensures var rest := rs[..k] + rs[k + 1..];
      && multiset(rest) == multiset(rs) - multiset{rs[k]}
      && CountOpens(rs, tid) == CountOpens(rest, tid) + (if Opens(rs[k], tid) then 1 else 0)
      && CountCloses(rs, tid) == CountCloses(rest, tid) + (if Closes(rs[k], tid) then 1 else 0)
  {
    assert rs == rs[..k] + [rs[k]] + rs[k + 1..];
    CountsSplit(rs[..k], rs[k + 1..], tid);
    CountsAppend(rs[..k], rs[k], tid);
    CountsSplit(rs[..k] + [rs[k]], rs[k + 1..], tid);
  }

  /** The counts do not depend on the order of the records. */
  lemma {:induction false} CountsPermute(a: seq<Record>, b: seq<Record>, tid: TransferId)
    requires multiset(a) == multiset(b)
    ensures CountOpens(a, tid) == CountOpens(b, tid) && CountCloses(a, tid) == CountCloses(b, tid)
    decreases |a|
  {
    if a == [] {
      assert |multiset(b)| == |b|;
    } else {
      assert a[0] in multiset(b);
      var k :| 0 <= k < |b| && b[k] == a[0];
      CountsWithout(a, 0, tid);
      CountsWithout(b, k, tid);
      CountsPermute(a[..0] + a[1..], b[..k] + b[k + 1..], tid);
    }
  }

  /** Ids that a stream opens and never closes. */
  ghost predicate IsOpen(rs: seq<Record>, tid: TransferId) {
    CountOpens(rs, tid) > 0 && CountCloses(rs, tid) == 0
  }

  /** Each id opens and closes at most once, and closes no earlier than it opens. */
  ghost predicate WellPaired(rs: seq<Record>) {
    && (forall tid: TransferId :: CountOpens(rs, tid) <= 1 && CountCloses(rs, tid) <= 1)
    && (forall a, b, tid: TransferId :: a in rs && b in rs && Opens(a, tid) && Closes(b, tid) ==>
          a.ts.Some? && b.ts.Some? && a.ts.value <= b.ts.value && a.detail == b.detail)
  }
}
