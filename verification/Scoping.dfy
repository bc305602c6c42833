/**
 What the records of a call tree mean: they nest, sampling removes only whole
 pairs, and a collective carries the context that lexically encloses it.
 */
module Scoping {
  import opened Records
  import opened Sequences
  import opened CallTrees

  // ------------------------------------------------------------------ nesting

  /** The transfers left open after the log, if every close matches the latest open one. */
  function Nest(log: seq<Emit>, open: seq<nat>): Option<seq<nat>> {
    if log == [] then Some(open)
    else
      match log[0]
      case Note => Nest(log[1..], open)
      case Open(id, _) => Nest(log[1..], open + [id])
      case Close(id, _) =>
        if open == [] || open[|open| - 1] != id then None else Nest(log[1..], open[..|open| - 1])
  }

  lemma {:induction false} NestSplits(a: seq<Emit>, b: seq<Emit>, open: seq<nat>)
    ensures Nest(a + b, open) == if Nest(a, open).Some? then Nest(b, Nest(a, open).value) else None
    decreases |a|
  {
    if a == [] {
      assert a + b == b;
    } else {
      assert (a + b)[1..] == a[1..] + b;
      match a[0]
      case Note => NestSplits(a[1..], b, open);
      case Open(id, _) => NestSplits(a[1..], b, open + [id]);
      case Close(_, _) => if open != [] { NestSplits(a[1..], b, open[..|open| - 1]); }
    }
  }

  lemma PairNests(keep: nat -> bool, id: nat, tag: Tag, inner: seq<Emit>, cancelled: bool, open: seq<nat>)
    requires forall o :: Nest(inner, o) == Some(o)
    ensures Nest(Pair(keep, id, tag, inner, cancelled), open) == Some(open)
  {
    if keep(id) {
      var start, end := [Open(id, tag)], [Close(id, cancelled)];
      NestSplits(start + inner, end, open);
      NestSplits(start, inner, open);
      assert start[1..] == [] && end[1..] == [];
      assert (open + [id])[..|open|] == open;
    }
  }

  lemma {:induction false} NotesNest(n: nat, open: seq<nat>)
    ensures Nest(Notes(n), open) == Some(open)
    decreases n
  {
    if n == 0 {
    } else {
      assert Notes(n)[1..] == Notes(n - 1);
      NotesNest(n - 1, open);
    }
  }

  lemma MoveNests(move: Meta, id: nat, keep: nat -> bool, open: seq<nat>)
    ensures Nest(MoveEmits(move, id, keep), open) == Some(open)
  {
    var pair := Pair(keep, id, OfMove(move), [], false);
    assert MoveEmits(move, id, keep)[1..] == pair;
    PairNests(keep, id, OfMove(move), [], false, open);
  }

  lemma {:induction false} MovesNest(moves: seq<Meta>, id: nat, keep: nat -> bool, open: seq<nat>)
    ensures Nest(MoveTrace(moves, id, keep), open) == Some(open)
    decreases |moves|
  {
    if moves == [] {
    } else {
      var n := |moves| - 1;
      MovesNest(moves[..n], id, keep, open);
      NestSplits(MoveTrace(moves[..n], id, keep), MoveEmits(moves[n], id + n, keep), open);
      MoveNests(moves[n], id + n, keep, open);
    }
  }

  lemma NestTogether(log: seq<Emit>, a: seq<Emit>, b: seq<Emit>, open: seq<nat>)
    requires log == a + b && Nest(a, open) == Some(open) == Nest(b, open)
    ensures Nest(log, open) == Some(open)
  {
    NestSplits(a, b, open);
  }

  lemma {:induction false} ChainNests(c: Call, env: Option<Payload>, id: nat, keep: nat -> bool, open: seq<nat>)
    requires c.Chain?
    ensures Nest(Trace(c, env, id, keep), open) == Some(open)
    decreases c, 0
  {
    var first, id' := Trace(c.first, env, id, keep), id + Issued(c.first, env);
    TraceNests(c.first, env, id, keep, open);
    if Meaning(c.first).Raised? == c.onRaise {
      TraceNests(c.second, env, id', keep, open);
      NestTogether(Trace(c, env, id, keep), first, Trace(c.second, env, id', keep), open);
    }
  }

  lemma {:induction false} OpenerNests(c: Call, env: Option<Payload>, id: nat, keep: nat -> bool, open: seq<nat>)
    requires c.Opener?
    ensures Nest(Trace(c, env, id, keep), open) == Some(open)
    decreases c, 0
  {
    var inner, id' := Trace(c.body, Some(c.ctx), id, keep), id + Issued(c.body, Some(c.ctx));
    TraceNests(c.body, Some(c.ctx), id, keep, open);
    if Meaning(c.body).Returned? {
      MovesNest(c.moves, id', keep, open);
      NestTogether(Trace(c, env, id, keep), inner, MoveTrace(c.moves, id', keep), open);
    }
  }

  lemma {:induction false} BracketedNests(
      body: Call, env: Option<Payload>, id: nat, keep: nat -> bool, tag: Tag, notes: nat, open: seq<nat>)
    ensures var pair := Pair(keep, id, tag, Trace(body, env, id + 1, keep), Meaning(body).Raised?);
      Nest(pair, open) == Some(open) == Nest(pair + Notes(notes), open)
    decreases body, 2
  {
    var inner := Trace(body, env, id + 1, keep);
    forall o ensures Nest(inner, o) == Some(o) { TraceNests(body, env, id + 1, keep, o); }
    PairNests(keep, id, tag, inner, Meaning(body).Raised?, open);
    NotesNest(notes, open);
    NestSplits(Pair(keep, id, tag, inner, Meaning(body).Raised?), Notes(notes), open);
  }

  /** A thread's transfer records are a properly nested bracket sequence, sampled or not. */
  lemma {:induction false} TraceNests(c: Call, env: Option<Payload>, id: nat, keep: nat -> bool, open: seq<nat>)
    ensures Nest(Trace(c, env, id, keep), open) == Some(open)
    decreases c, 1
  {
    match c
    case Leaf(_, _) =>
    case Chain(_, _, _) => ChainNests(c, env, id, keep, open);
    case Context(ctx, body) => TraceNests(body, Some(ctx), id, keep, open);
    case Collective(_, default, body) =>
      if TagOf(default, env).None? {
        TraceNests(body, env, id, keep, open);
      } else {
        BracketedNests(body, env, id, keep, TagOf(default, env).value, 0, open);
      }
    case Opener(_, _, _) => OpenerNests(c, env, id, keep, open);
    case Bracket(meta, notes, body) => BracketedNests(body, env, id, keep, OfMove(meta), notes, open);
  }

  // ----------------------------------------------------------------- sampling

  /** Every transfer is kept. */
  predicate Always(id: nat) {
    true
  }

  /** The log without the records of transfers that are sampled away. */
  function Kept(log: seq<Emit>, keep: nat -> bool): seq<Emit> {
    if log == [] then []
    else KeptOne(log[0], keep) + Kept(log[1..], keep)
  }

  function KeptOne(e: Emit, keep: nat -> bool): seq<Emit> {
    if e.Note? || keep(e.id) then [e] else []
  }

  lemma {:induction false} KeptSplits(a: seq<Emit>, b: seq<Emit>, keep: nat -> bool)
    ensures Kept(a + b, keep) == Kept(a, keep) + Kept(b, keep)
    decreases |a|
  {
    if a == [] {
      assert a + b == b;
    } else {
      assert (a + b)[1..] == a[1..] + b && (a + b)[0] == a[0];
      KeptSplits(a[1..], b, keep);
      Regroup(KeptOne(a[0], keep), Kept(a[1..], keep), Kept(b, keep));
    }
  }

  lemma KeptTogether(sampled: seq<Emit>, all: seq<Emit>, ka: seq<Emit>, kb: seq<Emit>, a: seq<Emit>, b: seq<Emit>,
                     keep: nat -> bool)
    requires all == a + b && sampled == ka + kb && Kept(a, keep) == ka && Kept(b, keep) == kb
    ensures sampled == Kept(all, keep)
  {
    KeptSplits(a, b, keep);
  }

  lemma PairKept(keep: nat -> bool, id: nat, tag: Tag, inner: seq<Emit>, cancelled: bool)
    ensures Kept(Pair(Always, id, tag, inner, cancelled), keep) == Pair(keep, id, tag, Kept(inner, keep), cancelled)
  {
    var start, end := [Open(id, tag)], [Close(id, cancelled)];
    OneKept(start[0], keep);
    OneKept(end[0], keep);
    hide Kept;
    KeptSplits(start + inner, end, keep);
    KeptSplits(start, inner, keep);
    NoneBefore(Kept(inner, keep), []);
  }

  lemma OneKept(e: Emit, keep: nat -> bool)
    ensures Kept([e], keep) == KeptOne(e, keep)
  {
    assert [e][1..] == [];
  }

  lemma {:induction false} NotesKept(n: nat, keep: nat -> bool)
    ensures Kept(Notes(n), keep) == Notes(n)
    decreases n
  {
    if n == 0 {
    } else {
      assert Notes(n)[1..] == Notes(n - 1);
      NotesKept(n - 1, keep);
    }
  }

  lemma MoveKept(move: Meta, id: nat, keep: nat -> bool)
    ensures Kept(MoveEmits(move, id, Always), keep) == MoveEmits(move, id, keep)
  {
    var pair := Pair(Always, id, OfMove(move), [], false);
    assert MoveEmits(move, id, Always)[1..] == pair;
    PairKept(keep, id, OfMove(move), [], false);
  }

  lemma MovesKeptStep(front: seq<Meta>, last: Meta, id: nat, keep: nat -> bool)
    requires Kept(MoveTrace(front, id, Always), keep) == MoveTrace(front, id, keep)
    ensures Kept(MoveTrace(front + [last], id, Always), keep) == MoveTrace(front + [last], id, keep)
  {
    var moves, id' := front + [last], id + |front|;
    assert moves[..|moves| - 1] == front;
    MoveKept(last, id', keep);
    KeptTogether(MoveTrace(moves, id, keep), MoveTrace(moves, id, Always),
                 MoveTrace(front, id, keep), MoveEmits(last, id', keep),
                 MoveTrace(front, id, Always), MoveEmits(last, id', Always), keep);
  }

  lemma {:induction false} MovesKept(moves: seq<Meta>, id: nat, keep: nat -> bool)
    ensures Kept(MoveTrace(moves, id, Always), keep) == MoveTrace(moves, id, keep)
    decreases |moves|
  {
    if moves == [] {
    } else {
      var front, last := moves[..|moves| - 1], moves[|moves| - 1];
      assert moves == front + [last];
      MovesKept(front, id, keep);
      MovesKeptStep(front, last, id, keep);
    }
  }

  lemma {:induction false} ChainKept(c: Call, env: Option<Payload>, id: nat, keep: nat -> bool)
    requires c.Chain?
    ensures Trace(c, env, id, keep) == Kept(Trace(c, env, id, Always), keep)
    decreases c, 0
  {
    var id' := id + Issued(c.first, env);
    SamplingRemovesPairs(c.first, env, id, keep);
    if Meaning(c.first).Raised? == c.onRaise {
      SamplingRemovesPairs(c.second, env, id', keep);
      KeptTogether(Trace(c, env, id, keep), Trace(c, env, id, Always),
                   Trace(c.first, env, id, keep), Trace(c.second, env, id', keep),
                   Trace(c.first, env, id, Always), Trace(c.second, env, id', Always), keep);
    }
  }

  lemma {:induction false} OpenerKept(c: Call, env: Option<Payload>, id: nat, keep: nat -> bool)
    requires c.Opener?
    ensures Trace(c, env, id, keep) == Kept(Trace(c, env, id, Always), keep)
    decreases c, 0
  {
    var id' := id + Issued(c.body, Some(c.ctx));
    SamplingRemovesPairs(c.body, Some(c.ctx), id, keep);
    if Meaning(c.body).Returned? {
      MovesKept(c.moves, id', keep);
      KeptTogether(Trace(c, env, id, keep), Trace(c, env, id, Always),
                   Trace(c.body, Some(c.ctx), id, keep), MoveTrace(c.moves, id', keep),
                   Trace(c.body, Some(c.ctx), id, Always), MoveTrace(c.moves, id', Always), keep);
    }
  }

  lemma {:induction false} BracketKept(c: Call, env: Option<Payload>, id: nat, keep: nat -> bool)
    requires c.Bracket?
    ensures Trace(c, env, id, keep) == Kept(Trace(c, env, id, Always), keep)
    decreases c, 0
  {
    var tag, raised := OfMove(c.meta), Meaning(c.body).Raised?;
    SamplingRemovesPairs(c.body, env, id + 1, keep);
    PairKept(keep, id, tag, Trace(c.body, env, id + 1, Always), raised);
    NotesKept(c.notes, keep);
    KeptTogether(Trace(c, env, id, keep), Trace(c, env, id, Always),
                 Pair(keep, id, tag, Trace(c.body, env, id + 1, keep), raised), Notes(c.notes),
                 Pair(Always, id, tag, Trace(c.body, env, id + 1, Always), raised), Notes(c.notes), keep);
  }

  /** Sampling removes whole start-and-end pairs and nothing else. */
  lemma {:induction false} SamplingRemovesPairs(c: Call, env: Option<Payload>, id: nat, keep: nat -> bool)
    ensures Trace(c, env, id, keep) == Kept(Trace(c, env, id, Always), keep)
    decreases c, 1
  {
    match c
    case Leaf(_, _) =>
    case Chain(_, _, _) => ChainKept(c, env, id, keep);
    case Context(ctx, body) => SamplingRemovesPairs(body, Some(ctx), id, keep);
    case Collective(_, default, body) =>
      if TagOf(default, env).None? {
        SamplingRemovesPairs(body, env, id, keep);
      } else {
        SamplingRemovesPairs(body, env, id + 1, keep);
        PairKept(keep, id, TagOf(default, env).value, Trace(body, env, id + 1, Always), Meaning(body).Raised?);
      }
    case Opener(_, _, _) => OpenerKept(c, env, id, keep);
    case Bracket(_, _, _) => BracketKept(c, env, id, keep);
  }

  // ------------------------------------------------------------ lexical context

  /** A place in a call tree: at each node, 0 for the body or first part, 1 for the other. */
  type Path = seq<nat>

  function Child(c: Call, k: nat): Option<Call> {
    match c
    case Leaf(_, _) => None
    case Chain(onRaise, a, b) =>
      if k == 0 then Some(a) else if k == 1 && Meaning(a).Raised? == onRaise then Some(b) else None
    case Context(_, body) => if k == 0 then Some(body) else None
    case Collective(_, _, body) => if k == 0 then Some(body) else None
    case Opener(_, _, body) => if k == 0 then Some(body) else None
    case Bracket(_, _, body) => if k == 0 then Some(body) else None
  }

  /** The call at a path, if the run reaches it. */
  function At(c: Call, path: Path): Option<Call>
    decreases |path|
  {
    if path == [] then Some(c)
    else if Child(c, path[0]).None? then None else At(Child(c, path[0]).value, path[1..])
  }

  /** The contexts opened on the way to a path, outermost first. */
  function Enclosing(c: Call, path: Path): seq<Payload>
    decreases |path|
  {
    if path == [] || Child(c, path[0]).None? then []
    else
      (match c
       case Context(ctx, _) => [ctx]
       case Opener(ctx, _, _) => [ctx]
       case _ => []) + Enclosing(Child(c, path[0]).value, path[1..])
  }

  /** The innermost enclosing context, or the one around the whole tree. */
  function Innermost(env: Option<Payload>, contexts: seq<Payload>): Option<Payload> {
    if contexts == [] then env else Some(contexts[|contexts| - 1])
  }

  /** The context that the body of a node runs in. */
  function Inner(c: Call, env: Option<Payload>): Option<Payload> {
    match c
    case Context(ctx, _) => Some(ctx)
    case Opener(ctx, _, _) => Some(ctx)
    case _ => env
  }

  lemma InnermostSteps(c: Call, env: Option<Payload>, path: Path)
    requires path != [] && Child(c, path[0]).Some?
    ensures Innermost(env, Enclosing(c, path))
            == Innermost(Inner(c, env), Enclosing(Child(c, path[0]).value, path[1..]))
  {
  }

  function Under(k: nat, paths: seq<Path>): (r: seq<Path>)
    ensures |r| == |paths| && forall i :: 0 <= i < |r| ==> r[i] == [k] + paths[i]
  {
    seq(|paths|, i requires 0 <= i < |paths| => [k] + paths[i])
  }

  /** The collectives that the run reaches, in the order they start. */
  function Collectives(c: Call): seq<Path> {
    match c
    case Leaf(_, _) => []
    case Chain(onRaise, a, b) =>
      if Meaning(a).Raised? == onRaise then Under(0, Collectives(a)) + Under(1, Collectives(b))
      else Under(0, Collectives(a))
    case Context(_, body) => Under(0, Collectives(body))
    case Collective(_, _, body) => [[]] + Under(0, Collectives(body))
    case Opener(_, _, body) => Under(0, Collectives(body))
    case Bracket(_, _, body) => Under(0, Collectives(body))
  }

  ghost predicate ReachesCollective(c: Call, path: Path) {
    At(c, path).Some? && At(c, path).value.Collective?
  }

  lemma UnderHolds(k: nat, paths: seq<Path>, path: Path)
    ensures path in Under(k, paths) <==> path != [] && path[0] == k && path[1..] in paths
  {
    if path != [] && path[0] == k && path[1..] in paths {
      var i :| 0 <= i < |paths| && paths[i] == path[1..];
      assert Under(k, paths)[i] == path;
    }
    forall i | 0 <= i < |paths| && Under(k, paths)[i] == path
      ensures path != [] && path[0] == k && path[1..] in paths
    {
      assert path[1..] == paths[i];
    }
  }

  lemma {:induction false} CollectivesAreReached(c: Call, path: Path)
    ensures path in Collectives(c) <==> ReachesCollective(c, path)
    decreases c
  {
    if path == [] || Child(c, path[0]).None? {
    } else {
      CollectivesAreReached(Child(c, path[0]).value, path[1..]);
    }
    match c
    case Leaf(_, _) =>
    case Chain(_, a, b) =>
      UnderHolds(0, Collectives(a), path);
      UnderHolds(1, Collectives(b), path);
    case Context(_, body) => UnderHolds(0, Collectives(body), path);
    case Collective(_, _, body) => UnderHolds(0, Collectives(body), path);
    case Opener(_, _, body) => UnderHolds(0, Collectives(body), path);
    case Bracket(_, _, body) => UnderHolds(0, Collectives(body), path);
  }

  /** The tag that lexical scoping gives the collective at a path. */
  function LexicalTag(c: Call, env: Option<Payload>, path: Path): Option<Tag> {
    if At(c, path).Some? && At(c, path).value.Collective?
    then TagOf(At(c, path).value.default, Innermost(env, Enclosing(c, path)))
    else None
  }

  function LexicalTags(c: Call, env: Option<Payload>, paths: seq<Path>): seq<Tag> {
    if paths == [] then []
    else Listed(LexicalTag(c, env, paths[0])) + LexicalTags(c, env, paths[1..])
  }

  function Listed(tag: Option<Tag>): seq<Tag> {
    if tag.Some? then [tag.value] else []
  }

  /** The tags of the collectives' start records, in log order. */
  function TagsIn(log: seq<Emit>): seq<Tag> {
    if log == [] then []
    else TagIn(log[0]) + TagsIn(log[1..])
  }

  function TagIn(e: Emit): seq<Tag> {
    if e.Open? && e.tag.OfCollective? then [e.tag] else []
  }

  lemma {:induction false} TagsSplit(a: seq<Emit>, b: seq<Emit>)
    ensures TagsIn(a + b) == TagsIn(a) + TagsIn(b)
    ensures TagsIn(b) == [] ==> TagsIn(a + b) == TagsIn(a)
    decreases |a|
  {
    if a == [] {
      assert a + b == b;
    } else {
      assert (a + b)[1..] == a[1..] + b && (a + b)[0] == a[0];
      TagsSplit(a[1..], b);
      Regroup(TagIn(a[0]), TagsIn(a[1..]), TagsIn(b));
    }
  }

  lemma {:induction false} LexicalSplits(c: Call, env: Option<Payload>, a: seq<Path>, b: seq<Path>)
    ensures LexicalTags(c, env, a + b) == LexicalTags(c, env, a) + LexicalTags(c, env, b)
    decreases |a|
  {
    if a == [] {
      assert a + b == b;
    } else {
      assert (a + b)[1..] == a[1..] + b && (a + b)[0] == a[0];
      LexicalSplits(c, env, a[1..], b);
      Regroup(Listed(LexicalTag(c, env, a[0])), LexicalTags(c, env, a[1..]), LexicalTags(c, env, b));
    }
  }

  lemma {:induction false} LexicalUnder(c: Call, env: Option<Payload>, k: nat, paths: seq<Path>)
    requires Child(c, k).Some?
    ensures LexicalTags(c, env, Under(k, paths)) == LexicalTags(Child(c, k).value, Inner(c, env), paths)
    decreases |paths|
  {
    if paths == [] {
    } else {
      var path := Under(k, paths)[0];
      assert path[1..] == paths[0];
      InnermostSteps(c, env, path);
      assert Under(k, paths)[1..] == Under(k, paths[1..]);
      LexicalUnder(c, env, k, paths[1..]);
    }
  }

  lemma PairTags(id: nat, tag: Tag, inner: seq<Emit>, cancelled: bool)
    ensures TagsIn(Pair(Always, id, tag, inner, cancelled)) == (if tag.OfCollective? then [tag] else []) + TagsIn(inner)
  {
    var start, end := [Open(id, tag)], [Close(id, cancelled)];
    TagsSplit(start + inner, end);
    TagsSplit(start, inner);
    assert start[1..] == [] && end[1..] == [];
  }

  lemma {:induction false} NotesHaveNoTags(n: nat)
    ensures TagsIn(Notes(n)) == []
    decreases n
  {
    if n == 0 {
    } else {
      assert Notes(n)[1..] == Notes(n - 1);
      NotesHaveNoTags(n - 1);
    }
  }

  lemma MoveHasNoTags(move: Meta, id: nat)
    ensures TagsIn(MoveEmits(move, id, Always)) == []
  {
    var pair := Pair(Always, id, OfMove(move), [], false);
    assert MoveEmits(move, id, Always)[1..] == pair;
    PairTags(id, OfMove(move), [], false);
  }

  lemma MovesHaveNoTagsStep(front: seq<Meta>, last: Meta, id: nat)
    requires TagsIn(MoveTrace(front, id, Always)) == []
    ensures TagsIn(MoveTrace(front + [last], id, Always)) == []
  {
    var moves := front + [last];
    assert moves[..|moves| - 1] == front;
    TagsSplit(MoveTrace(front, id, Always), MoveEmits(last, id + |front|, Always));
    MoveHasNoTags(last, id + |front|);
  }

  lemma {:induction false} MovesHaveNoTags(moves: seq<Meta>, id: nat)
    ensures TagsIn(MoveTrace(moves, id, Always)) == []
    decreases |moves|
  {
    if moves == [] {
    } else {
      var front, last := moves[..|moves| - 1], moves[|moves| - 1];
      assert moves == front + [last];
      MovesHaveNoTags(front, id);
      MovesHaveNoTagsStep(front, last, id);
    }
  }

  lemma AddsNoTags(log: seq<Emit>, inner: seq<Emit>, rest: seq<Emit>)
    requires log == inner + rest && TagsIn(rest) == []
    ensures TagsIn(log) == TagsIn(inner)
  {
    TagsSplit(inner, rest);
  }

  /**
   Dynamic scoping equals lexical scoping: the tags on record are, in order,
   those of the collectives reached, each tagged from its innermost enclosing
   context alone, or from its default if none encloses it, or not traced.
   */
  lemma {:induction false} TagsAreLexical(c: Call, env: Option<Payload>, id: nat)
    ensures TagsIn(Trace(c, env, id, Always)) == LexicalTags(c, env, Collectives(c))
    decreases c, 1
  {
    match c
    case Leaf(_, _) =>
    case Chain(_, _, _) => ChainTags(c, env, id);
    case Context(ctx, body) =>
      TagsAreLexical(body, Some(ctx), id);
      LexicalUnder(c, env, 0, Collectives(body));
    case Collective(_, default, body) => CollectiveTags(c, env, id);
    case Opener(ctx, moves, body) => OpenerTags(c, env, id);
    case Bracket(meta, notes, body) => BracketTags(c, env, id);
  }

  lemma {:induction false} CollectiveTags(c: Call, env: Option<Payload>, id: nat)
    requires c.Collective?
    ensures TagsIn(Trace(c, env, id, Always)) == LexicalTags(c, env, Collectives(c))
    decreases c, 0
  {
    var tag, here := TagOf(c.default, env), [[]];
    ChildTags(c, env, 0, if tag.Some? then id + 1 else id);
    LexicalSplits(c, env, here, Under(0, Collectives(c.body)));
    assert here[1..] == [];
    if tag.Some? {
      PairTags(id, tag.value, Trace(c.body, env, id + 1, Always), Meaning(c.body).Raised?);
    }
  }

  lemma {:induction false} OpenerTags(c: Call, env: Option<Payload>, id: nat)
    requires c.Opener?
    ensures TagsIn(Trace(c, env, id, Always)) == LexicalTags(c, env, Collectives(c))
    decreases c, 0
  {
    hide LexicalTags, TagsIn;
    var id', inner := id + Issued(c.body, Some(c.ctx)), Trace(c.body, Some(c.ctx), id, Always);
    ChildTags(c, env, 0, id);
    if Meaning(c.body).Returned? {
      MovesHaveNoTags(c.moves, id');
      AddsNoTags(Trace(c, env, id, Always), inner, MoveTrace(c.moves, id', Always));
    }
  }

  lemma {:induction false} BracketTags(c: Call, env: Option<Payload>, id: nat)
    requires c.Bracket?
    ensures TagsIn(Trace(c, env, id, Always)) == LexicalTags(c, env, Collectives(c))
    decreases c, 0
  {
    hide LexicalTags, TagsIn;
    var inner := Trace(c.body, env, id + 1, Always);
    ChildTags(c, env, 0, id + 1);
    PairTags(id, OfMove(c.meta), inner, Meaning(c.body).Raised?);
    NotesHaveNoTags(c.notes);
    AddsNoTags(Trace(c, env, id, Always), Pair(Always, id, OfMove(c.meta), inner, Meaning(c.body).Raised?),
               Notes(c.notes));
  }

  lemma {:induction false} ChainTags(c: Call, env: Option<Payload>, id: nat)
    requires c.Chain?
    ensures TagsIn(Trace(c, env, id, Always)) == LexicalTags(c, env, Collectives(c))
    decreases c, 0
  {
    hide LexicalTags, TagsIn;
    ChildTags(c, env, 0, id);
    if Meaning(c.first).Raised? == c.onRaise {
      ChildTags(c, env, 1, id + Issued(c.first, env));
      BothTags(c, env, id);
    }
  }

  lemma {:induction false} ChildTags(c: Call, env: Option<Payload>, k: nat, id: nat)
    requires Child(c, k).Some?
    ensures var child := Child(c, k).value;
      TagsIn(Trace(child, Inner(c, env), id, Always)) == LexicalTags(c, env, Under(k, Collectives(child)))
    decreases Child(c, k).value, 2
  {
    TagsAreLexical(Child(c, k).value, Inner(c, env), id);
    LexicalUnder(c, env, k, Collectives(Child(c, k).value));
  }

  lemma BothTags(c: Call, env: Option<Payload>, id: nat)
    requires c.Chain? && Meaning(c.first).Raised? == c.onRaise
    requires TagsIn(Trace(c.first, env, id, Always)) == LexicalTags(c, env, Under(0, Collectives(c.first)))
    requires TagsIn(Trace(c.second, env, id + Issued(c.first, env), Always)) ==
        LexicalTags(c, env, Under(1, Collectives(c.second)))
    ensures TagsIn(Trace(c, env, id, Always)) == LexicalTags(c, env, Collectives(c))
  {
    hide LexicalTags, TagsIn;
    TagsTogether(c, env, Trace(c, env, id, Always), Collectives(c),
                 Trace(c.first, env, id, Always), Trace(c.second, env, id + Issued(c.first, env), Always),
                 Under(0, Collectives(c.first)), Under(1, Collectives(c.second)));
  }

  lemma TagsTogether(c: Call, env: Option<Payload>, log: seq<Emit>, paths: seq<Path>,
                     a: seq<Emit>, b: seq<Emit>, ps: seq<Path>, qs: seq<Path>)
    requires log == a + b && paths == ps + qs
    requires TagsIn(a) == LexicalTags(c, env, ps) && TagsIn(b) == LexicalTags(c, env, qs)
    ensures TagsIn(log) == LexicalTags(c, env, paths)
  {
    TagsSplit(a, b);
    LexicalSplits(c, env, ps, qs);
  }

  // ------------------------------------------------------- cancel means raise

  /** The tag of a traced call, if the call at this node is traced. */
  function TracedTag(c: Call, env: Option<Payload>): Option<Tag> {
    match c
    case Collective(_, default, _) => TagOf(default, env)
    case Bracket(meta, _, _) => Some(OfMove(meta))
    case _ => None
  }

  /** A reached part's records are a stretch of the whole's. */
  lemma ChildIsStretch(c: Call, env: Option<Payload>, id: nat, k: nat)
    returns (left: seq<Emit>, id': nat, right: seq<Emit>)
    requires Child(c, k).Some?
    ensures Trace(c, env, id, Always) == left + Trace(Child(c, k).value, Inner(c, env), id', Always) + right
  {
    hide Issued;
    if c.Chain? {
      left, id', right := ChainStretch(c, env, id, k);
    } else if TracedTag(c, env).Some? {
      left, id', right := BracketStretch(c, env, id);
    } else if c.Opener? {
      left, id' := [], id;
      right := if Meaning(c.body).Raised? then [] else MoveTrace(c.moves, id + Issued(c.body, Some(c.ctx)), Always);
      NoneBefore(Trace(c.body, Some(c.ctx), id, Always), right);
    } else {
      left, id', right := [], id, [];
      NoneBefore(Trace(c.body, Inner(c, env), id, Always), []);
    }
  }

  lemma NoneBefore<T>(part: seq<T>, right: seq<T>)
    ensures [] + part + right == part + right && [] + part + [] == part + [] == part
  {
  }

  lemma BracketStretch(c: Call, env: Option<Payload>, id: nat)
    returns (left: seq<Emit>, id': nat, right: seq<Emit>)
    requires TracedTag(c, env).Some?
    ensures Trace(c, env, id, Always) == left + Trace(c.body, env, id', Always) + right
  {
    var start, end := [Open(id, TracedTag(c, env).value)], [Close(id, Meaning(c.body).Raised?)];
    var notes := if c.Bracket? then Notes(c.notes) else [];
    left, id', right := start, id + 1, end + notes;
    Regroup(start + Trace(c.body, env, id', Always), end, notes);
  }

  lemma ChainStretch(c: Call, env: Option<Payload>, id: nat, k: nat)
    returns (left: seq<Emit>, id': nat, right: seq<Emit>)
    requires c.Chain? && Child(c, k).Some?
    ensures Trace(c, env, id, Always) == left + Trace(Child(c, k).value, env, id', Always) + right
  {
    var id1 := id + Issued(c.first, env);
    if k == 1 {
      left, id', right := Trace(c.first, env, id, Always), id1, [];
      Regroup(left, Trace(c.second, env, id1, Always), right);
    } else {
      left, id' := [], id;
      right := if Meaning(c.first).Raised? == c.onRaise then Trace(c.second, env, id1, Always) else [];
      NoneBefore(Trace(c.first, env, id, Always), right);
    }
  }

  /** The records of a traced call: its start, what its body recorded, and its end. */
  function BracketOf(call: Call, env: Option<Payload>, own: nat, inner: seq<Emit>): seq<Emit>
    requires TracedTag(call, env).Some?
  {
    [Open(own, TracedTag(call, env).value)] + inner + [Close(own, Meaning(call).Raised?)]
  }

  /** The records of a reached call are a stretch of the whole's. */
  lemma {:induction false} ReachedIsStretch(c: Call, env: Option<Payload>, id: nat, path: Path)
    returns (pre: seq<Emit>, own: nat, post: seq<Emit>)
    requires At(c, path).Some?
    ensures Trace(c, env, id, Always) ==
            pre + Trace(At(c, path).value, Innermost(env, Enclosing(c, path)), own, Always) + post
    decreases |path|
  {
    if path == [] {
      pre, own, post := [], id, [];
      NoneBefore(Trace(c, env, id, Always), []);
    } else {
      InnermostSteps(c, env, path);
      var left, id', right := ChildIsStretch(c, env, id, path[0]);
      pre, own, post := ReachedIsStretch(Child(c, path[0]).value, Inner(c, env), id', path[1..]);
      Surround(left, pre, Trace(At(c, path).value, Innermost(env, Enclosing(c, path)), own, Always), post, right);
      pre, post := left + pre, post + right;
    }
  }

  /**
   Every traced call that the run reaches is on record as a bracket around a
   properly nested stretch, closed by a cancel exactly if that call raised and
   followed by the call's further records.
   */
  lemma ReachedCallIsBracketed(c: Call, env: Option<Payload>, id: nat, path: Path)
    returns (pre: seq<Emit>, own: nat, inner: seq<Emit>, post: seq<Emit>)
    requires At(c, path).Some? && TracedTag(At(c, path).value, Innermost(env, Enclosing(c, path))).Some?
    ensures var call := At(c, path).value;
      Trace(c, env, id, Always) ==
        pre + BracketOf(call, Innermost(env, Enclosing(c, path)), own, inner) + post
    ensures Nest(inner, []) == Some([])
    ensures At(c, path).value.Bracket? ==>
      |post| >= At(c, path).value.notes && forall i :: 0 <= i < At(c, path).value.notes ==> post[i] == Note
  {
    var call, around := At(c, path).value, Innermost(env, Enclosing(c, path));
    pre, own, post := ReachedIsStretch(c, env, id, path);
    inner := Trace(call.body, around, own + 1, Always);
    TraceNests(call.body, around, own + 1, Always, []);
    var notes := if call.Bracket? then Notes(call.notes) else [];
    var bracket := BracketOf(call, around, own, inner);
    BracketThenNotes(call, around, own);
    Surround(pre, [], bracket, notes, post);
    NoneBefore(bracket, notes);
    post := notes + post;
    assert pre + [] == pre;
    if call.Bracket? { NotesAreNotes(call.notes); }
  }

  lemma {:induction false} NotesAreNotes(n: nat)
    ensures |Notes(n)| == n && forall i :: 0 <= i < n ==> Notes(n)[i] == Note
    decreases n
  {
    if n == 0 {
    } else {
      NotesAreNotes(n - 1);
    }
  }

  lemma BracketThenNotes(call: Call, env: Option<Payload>, own: nat)
    requires TracedTag(call, env).Some?
    ensures Trace(call, env, own, Always) ==
            BracketOf(call, env, own, Trace(call.body, env, own + 1, Always))
            + (if call.Bracket? then Notes(call.notes) else [])
  {
  }

  lemma Surround<T>(left: seq<T>, pre: seq<T>, mid: seq<T>, post: seq<T>, right: seq<T>)
    ensures left + (pre + mid + post) + right == (left + pre) + mid + (post + right)
  {
  }

  // ------------------------------------------------------- what a tag says

  /** A start record's tag says what a context of some kind says, and nothing else. */
  predicate Says(tag: Tag, p: Payload) {
    && tag.OfCollective? && tag.kind == p.kind && tag.param == p.param && tag.expert == p.expert
    && tag.adapter == p.adapter && tag.version == p.version
    && (tag.byUpdate <==> p.reason == Some("rlhf_update"))
  }

  /** What a collective falls back to: its own default, or a kind that every collective has. */
  function Fallback(default: Option<string>): (kind: string)
    ensures kind != ""
  {
    match default
    case Some(kind) => if kind == "" then "activation" else kind
    case None => "activation"
  }

  /**
   A collective right inside a context is on record with what the context says, under
   any other context and with any default; the default counts only where the context
   gives no kind.
   */
  lemma InnermostContextTags(p: Payload, outer: Option<Payload>, name: string, default: Option<string>, body: Call,
                             id: nat)
    ensures var log := Trace(Context(p, Collective(name, default, body)), outer, id, Always);
      && log != [] && log[0].Open? && log[0].id == id
      && Says(log[0].tag, if p.kind != "" then p else p.(kind := Fallback(default)))
  {
  }

  /** Outside every context it is traced only if it has a default, whose kind is all that it says. */
  lemma DefaultTags(name: string, default: Option<string>, body: Call, id: nat)
    ensures var log := Trace(Collective(name, default, body), None, id, Always);
      if default.None? then log == Trace(body, None, id, Always)
      else
        && log != [] && log[0].Open? && log[0].id == id
        && Says(log[0].tag, Payload(Fallback(default), None, None, None, None, None))
  {
  }

  /** What the record of a reached collective has to say; None if there is no context and no default. */
  function Saying(env: Option<Payload>, contexts: seq<Payload>, default: Option<string>): Option<Payload> {
    var inner := if contexts == [] then env else Some(contexts[|contexts| - 1]);
    if inner.Some? then Some(if inner.value.kind != "" then inner.value else inner.value.(kind := Fallback(default)))
    else if default.Some? then Some(Payload(Fallback(default), None, None, None, None, None))
    else None
  }

  /**
   Wherever the run reaches a collective that has a context around it or a default of
   its own, its start record says what the innermost context says, no matter what the
   outer ones do, and it is closed by a cancel exactly if the collective raised.
   */
  lemma ReachedCollectiveSays(c: Call, env: Option<Payload>, id: nat, path: Path)
    returns (pre: seq<Emit>, own: nat, tag: Tag, inner: seq<Emit>, post: seq<Emit>)
    requires ReachesCollective(c, path)
    requires Saying(env, Enclosing(c, path), At(c, path).value.default).Some?
    ensures Trace(c, env, id, Always) ==
            pre + ([Open(own, tag)] + inner + [Close(own, Meaning(At(c, path).value).Raised?)]) + post
    ensures Says(tag, Saying(env, Enclosing(c, path), At(c, path).value.default).value)
    ensures Nest(inner, []) == Some([])
  {
    pre, own, inner, post := ReachedCallIsBracketed(c, env, id, path);
    tag := TracedTag(At(c, path).value, Innermost(env, Enclosing(c, path))).value;
  }

  /** What a wrapper records of each move: a block record, then a transfer that starts and ends at once. */
  function OneMove(move: Meta, id: nat): seq<Emit> {
    [Note, Open(id, OfMove(move)), Close(id, false)]
  }

  /** The moves are on record, each once and in order. */
  ghost predicate ListsMoves(log: seq<Emit>, moves: seq<Meta>, id: nat) {
    |log| == 3 * |moves| && forall i :: 0 <= i < |moves| ==> log[3 * i..3 * i + 3] == OneMove(moves[i], id + i)
  }

  lemma Pieces<T>(front: seq<T>, last: seq<T>)
    ensures (front + last)[|front|..|front| + |last|] == last
    ensures forall i, j :: 0 <= i <= j <= |front| ==> (front + last)[i..j] == front[i..j]
  {
  }

  lemma OneMoreMove(log: seq<Emit>, moves: seq<Meta>, id: nat, move: Meta)
    requires ListsMoves(log, moves, id)
    ensures ListsMoves(log + OneMove(move, id + |moves|), moves + [move], id)
  {
    var last := OneMove(move, id + |moves|);
    Pieces(log, last);
    forall i | 0 <= i < |moves + [move]|
      ensures (log + last)[3 * i..3 * i + 3] == OneMove((moves + [move])[i], id + i)
    {
      if i < |moves| {
        assert (log + last)[3 * i..3 * i + 3] == log[3 * i..3 * i + 3];
      }
    }
  }

  lemma {:induction false} MovesInOrder(moves: seq<Meta>, id: nat)
    ensures ListsMoves(MoveTrace(moves, id, Always), moves, id)
    decreases |moves|
  {
    if moves == [] {
    } else {
      var front, last := moves[..|moves| - 1], moves[|moves| - 1];
      assert moves == front + [last];
      MovesInOrder(front, id);
      MoveTraceAppend(front, last, id);
      hide MoveTrace, ListsMoves;
      OneMoreMove(MoveTrace(front, id, Always), front, id, last);
    }
  }

  lemma MoveTraceAppend(front: seq<Meta>, last: Meta, id: nat)
    ensures MoveTrace(front + [last], id, Always) == MoveTrace(front, id, Always) + OneMove(last, id + |front|)
  {
    assert (front + [last])[..|front|] == front;
    assert MoveEmits(last, id + |front|, Always) == OneMove(last, id + |front|);
  }

  /**
   A reached load, dispatch, swap or update is on record as what its body recorded
   in its context, then its moves if it returned, and nothing more if it raised.
   */
  lemma ReachedOpenerMoves(c: Call, env: Option<Payload>, id: nat, path: Path)
    returns (pre: seq<Emit>, own: nat, moved: seq<Emit>, first: nat, post: seq<Emit>)
    requires At(c, path).Some? && At(c, path).value.Opener?
    ensures var call := At(c, path).value;
      && Trace(c, env, id, Always) == pre + (Trace(call.body, Some(call.ctx), own, Always) + moved) + post
      && (if Meaning(call).Raised? then moved == [] else ListsMoves(moved, call.moves, first))
  {
    hide Trace, ListsMoves;
    pre, own, post := ReachedIsStretch(c, env, id, path);
    moved, first := OpenerThenMoves(At(c, path).value, Innermost(env, Enclosing(c, path)), own);
  }

  lemma TraceOfOpener(call: Call, env: Option<Payload>, own: nat)
    requires call.Opener?
    ensures var inner := Trace(call.body, Some(call.ctx), own, Always);
      Trace(call, env, own, Always) ==
        if Meaning(call).Raised? then inner
        else inner + MoveTrace(call.moves, own + Issued(call.body, Some(call.ctx)), Always)
  {
    hide MoveTrace, Issued;
    assert Meaning(call) == Meaning(call.body);
    hide Meaning;
  }

  lemma OpenerThenMoves(call: Call, env: Option<Payload>, own: nat) returns (moved: seq<Emit>, first: nat)
    requires call.Opener?
    ensures Trace(call, env, own, Always) == Trace(call.body, Some(call.ctx), own, Always) + moved
    ensures if Meaning(call).Raised? then moved == [] else ListsMoves(moved, call.moves, first)
  {
    hide Trace, ListsMoves, MoveTrace, Issued, Meaning;
    first := own + Issued(call.body, Some(call.ctx));
    TraceOfOpener(call, env, own);
    if Meaning(call).Raised? {
      moved := [];
      NoneBefore(Trace(call.body, Some(call.ctx), own, Always), moved);
    } else {
      moved := MoveTrace(call.moves, first, Always);
      MovesInOrder(call.moves, first);
    }
  }
}
