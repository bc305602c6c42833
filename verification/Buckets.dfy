/** The per-layer buckets of pending loads, with the un-layered bucket as a fallback. */
module Buckets {
  import opened Records

  type Layer = Option<int>

  function AddLoad<E>(loads: map<Layer, seq<E>>, layer: Layer, entry: E): map<Layer, seq<E>> {
    loads[layer := (if layer in loads then loads[layer] else []) + [entry]]
  }

  /** The bucket a wait on `layer` takes, if any. */
  function Taken<E>(loads: map<Layer, seq<E>>, layer: Layer): Option<Layer> {
    if layer in loads then Some(layer)
    else if layer.Some? && None in loads then Some(None)
    else None
  }

  function Popped<E>(loads: map<Layer, seq<E>>, layer: Layer): seq<E> {
    var key := Taken(loads, layer);
    if key.Some? && key.value in loads then loads[key.value] else []
  }

  function Rest<E>(loads: map<Layer, seq<E>>, layer: Layer): map<Layer, seq<E>> {
    var key := Taken(loads, layer);
    if key.Some? then loads - {key.value} else loads
  }

  /** What is left after waiting on each of `waits` in turn. */
  function RestAfter<E>(loads: map<Layer, seq<E>>, waits: seq<Layer>): map<Layer, seq<E>>
    decreases |waits|
  {
    if waits == [] then loads else RestAfter(Rest(loads, waits[0]), waits[1..])
  }

  /** The buckets taken by each of `waits` in turn. */
  function TakenBy<E>(loads: map<Layer, seq<E>>, waits: seq<Layer>): seq<Layer>
    decreases |waits|
  {
    if waits == [] then []
    else
      var key := Taken(loads, waits[0]);
      (if key.Some? then [key.value] else []) + TakenBy(Rest(loads, waits[0]), waits[1..])
  }

  /** A wait that finds no bucket of its own: the layer never had one, or it is waited on again. */
  ghost predicate Surplus<E>(loads: map<Layer, seq<E>>, waits: seq<Layer>, i: int) {
    && 0 <= i < |waits| && waits[i].Some?
    && (waits[i] in loads ==> exists j :: 0 <= j < i && waits[j] == waits[i])
  }

  ghost predicate Covers<E>(loads: map<Layer, seq<E>>, waits: seq<Layer>) {
    && (forall k :: k in loads && k.Some? ==> k in waits)
    && (None in loads ==> None in waits || exists i :: Surplus(loads, waits, i))
  }

  lemma SurplusShifts<E>(loads: map<Layer, seq<E>>, waits: seq<Layer>, i: nat)
    requires waits != [] && waits[0] in loads
    ensures Surplus(loads, waits, i + 1) <==> Surplus(loads - {waits[0]}, waits[1..], i)
  {
  }

  lemma CoversSteps<E>(loads: map<Layer, seq<E>>, waits: seq<Layer>)
    requires waits != []
    ensures Covers(loads, waits) <==> Covers(Rest(loads, waits[0]), waits[1..])
  {
    var w, more, rest := waits[0], waits[1..], Rest(loads, waits[0]);
    assert forall k :: k in waits <==> k == w || k in more;
    if w in loads {
      forall i: nat
        ensures Surplus(loads, waits, i + 1) <==> Surplus(rest, more, i)
      {
        SurplusShifts(loads, waits, i);
      }
      if i: int :| Surplus(loads, waits, i) {
        assert i > 0;
        assert Surplus(rest, more, i - 1);
      }
      if i: int :| Surplus(rest, more, i) {
        assert Surplus(loads, waits, i + 1);
      }
    } else if w.Some? && None in loads {
      assert Surplus(loads, waits, 0);
    }
  }

  /**
   A sequence of waits empties the loads exactly when it names every layer that
   has a bucket and, if there is an un-layered bucket, names it or contains one
   wait that has no bucket of its own.
   */
  lemma {:induction false} WaitsEmptyExactly<E>(loads: map<Layer, seq<E>>, waits: seq<Layer>)
    ensures RestAfter(loads, waits) == map[] <==> Covers(loads, waits)
    decreases |waits|
  {
    if waits == [] {
      if loads != map[] {
        assert exists k :: k in loads;
      }
    } else {
      CoversSteps(loads, waits);
      WaitsEmptyExactly(Rest(loads, waits[0]), waits[1..]);
    }
  }

  /** Each bucket is taken at most once and whole; what was not taken is untouched. */
  lemma {:induction false} WaitsTakeEachBucketOnce<E>(loads: map<Layer, seq<E>>, waits: seq<Layer>)
    ensures var taken, rest := TakenBy(loads, waits), RestAfter(loads, waits);
      && (forall i, j :: 0 <= i < j < |taken| ==> taken[i] != taken[j])
      && (forall k :: k in loads <==> k in taken || k in rest)
      && (forall k :: k in rest ==> k !in taken && rest[k] == loads[k])
    decreases |waits|
  {
    if waits == [] {
    } else {
      var key := Taken(loads, waits[0]);
      var rest := Rest(loads, waits[0]);
      WaitsTakeEachBucketOnce(rest, waits[1..]);
      var more := TakenBy(rest, waits[1..]);
      if key.Some? {
        assert TakenBy(loads, waits) == [key.value] + more;
        assert forall k :: k in TakenBy(loads, waits) <==> k == key.value || k in more;
      } else {
        assert TakenBy(loads, waits) == more;
      }
    }
  }
}
