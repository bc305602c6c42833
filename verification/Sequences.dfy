/** Concatenation. */
module Sequences {

  lemma Regroup<T>(a: seq<T>, b: seq<T>, c: seq<T>)
    ensures a + b + c == a + (b + c) && a + [] == a
  {
  }

  function Concat<T>(parts: seq<seq<T>>): seq<T> {
    if parts == [] then [] else Concat(parts[..|parts| - 1]) + parts[|parts| - 1]
  }

  lemma ConcatAppend<T>(parts: seq<seq<T>>, part: seq<T>)
    ensures Concat(parts + [part]) == Concat(parts) + part
  {
  }

  lemma {:induction false} ConcatSplits<T>(a: seq<seq<T>>, b: seq<seq<T>>)
    ensures Concat(a + b) == Concat(a) + Concat(b)
    decreases |b|
  {
    if b == [] {
      assert a + b == a;
    } else {
      var front, last := b[..|b| - 1], b[|b| - 1];
      assert (a + b)[..|a + b| - 1] == a + front;
      ConcatSplits(a, front);
      Regroup(Concat(a), Concat(front), last);
    }
  }

  lemma {:induction false} PartsAreInConcat<T>(parts: seq<seq<T>>, part: seq<T>, x: T)
    requires part in parts && x in part
    ensures x in Concat(parts)
    decreases |parts|
  {
    var front, last := parts[..|parts| - 1], parts[|parts| - 1];
    assert parts == front + [last];
    if part == last {
    } else {
      PartsAreInConcat(front, part, x);
    }
  }
}
