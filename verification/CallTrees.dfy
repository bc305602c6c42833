/**
 Wrappers around engine calls: a payload context that is saved and restored
 around a call, collectives tagged from it, and transfers bracketing a call.
 Programs are call trees; any leaf may raise and any node may catch.
 */
module CallTrees {
  import opened Records
  import opened Sequences

  /** What `payload_context` stores; fields that are not given are None. */
  datatype Payload = Payload(
    kind: string, param: Option<string>, expert: Option<int>,
    adapter: Option<string>, version: Option<string>, reason: Option<string>)

  datatype Call =
    | Leaf(effect: int, out: Outcome)
    | Chain(onRaise: bool, first: Call, second: Call)                  // `second` if `first` returns, or if it raises
    | Context(ctx: Payload, body: Call)                                // a payload context
    | Collective(name: string, default: Option<string>, body: Call)    // a tagged collective
    | Opener(ctx: Payload, moves: seq<Meta>, body: Call)               // load, MoE, LoRA and update wrappers
    | Bracket(meta: Meta, notes: nat, body: Call)                      // disaggregation and HiCache wrappers

  /** What a start record says of the payload. */
  datatype Tag =
    | OfCollective(kind: string, param: Option<string>, expert: Option<int>,
                   adapter: Option<string>, version: Option<string>, byUpdate: bool)
    | OfMove(meta: Meta)

  datatype Emit = Open(id: nat, tag: Tag) | Close(id: nat, cancelled: bool) | Note

  // ----------------------------------------------------- the program by itself

  /** The outcome of the program without any wrapper. */
  function Meaning(c: Call): Outcome {
    match c
    case Leaf(_, out) => out
    case Chain(onRaise, a, b) => if Meaning(a).Raised? == onRaise then Meaning(b) else Meaning(a)
    case Context(_, body) => Meaning(body)
    case Collective(_, _, body) => Meaning(body)
    case Opener(_, _, body) => Meaning(body)
    case Bracket(_, _, body) => Meaning(body)
  }

  /** The engine's own effects, in order, without any wrapper. */
  function Effects(c: Call): seq<int> {
    match c
    case Leaf(effect, _) => [effect]
    case Chain(onRaise, a, b) => if Meaning(a).Raised? == onRaise then Effects(a) + Effects(b) else Effects(a)
    case Context(_, body) => Effects(body)
    case Collective(_, _, body) => Effects(body)
    case Opener(_, _, body) => Effects(body)
    case Bracket(_, _, body) => Effects(body)
  }

  // ---------------------------------------------------------- what is recorded

  /** The tag of a collective, if it is traced at all. */
  function TagOf(default: Option<string>, env: Option<Payload>): Option<Tag> {
    match env
    case None =>
      if default.None? then None
      else
        var kind := if default.value != "" then default.value else "activation";
        Some(OfCollective(kind, None, None, None, None, false))
    case Some(p) =>
      var kind := if p.kind != "" then p.kind
                  else if default.Some? && default.value != "" then default.value else "activation";
      Some(OfCollective(kind, p.param, p.expert, p.adapter, p.version, p.reason == Some("rlhf_update")))
  }

  /** The transfers issued by a call under a given context. */
  function Issued(c: Call, env: Option<Payload>): nat {
    match c
    case Leaf(_, _) => 0
    case Chain(onRaise, a, b) => Issued(a, env) + (if Meaning(a).Raised? == onRaise then Issued(b, env) else 0)
    case Context(ctx, body) => Issued(body, Some(ctx))
    case Collective(_, default, body) => (if TagOf(default, env).Some? then 1 else 0) + Issued(body, env)
    case Opener(ctx, moves, body) => Issued(body, Some(ctx)) + (if Meaning(body).Raised? then 0 else |moves|)
    case Bracket(_, _, body) => 1 + Issued(body, env)
  }

  function Pair(keep: nat -> bool, id: nat, tag: Tag, inner: seq<Emit>, cancelled: bool): seq<Emit> {
    if keep(id) then [Open(id, tag)] + inner + [Close(id, cancelled)] else inner
  }

  function Notes(n: nat): seq<Emit> {
    if n == 0 then [] else [Note] + Notes(n - 1)
  }

  /** A block record, and a transfer that starts and ends at once. */
  function MoveEmits(move: Meta, id: nat, keep: nat -> bool): seq<Emit> {
    [Note] + Pair(keep, id, OfMove(move), [], false)
  }

  /** After a wrapped load, dispatch, swap or update. */
  function MoveTrace(moves: seq<Meta>, id: nat, keep: nat -> bool): seq<Emit> {
    if moves == [] then []
    else
      var n := |moves| - 1;
      MoveTrace(moves[..n], id, keep) + MoveEmits(moves[n], id + n, keep)
  }

  /** The records of a call, given its lexical context, the next id and the sampler. */
  function Trace(c: Call, env: Option<Payload>, id: nat, keep: nat -> bool): seq<Emit> {
    match c
    case Leaf(_, _) => []
    case Chain(onRaise, a, b) =>
      var first := Trace(a, env, id, keep);
      if Meaning(a).Raised? == onRaise then first + Trace(b, env, id + Issued(a, env), keep) else first
    case Context(ctx, body) => Trace(body, Some(ctx), id, keep)
    case Collective(_, default, body) =>
      var tag := TagOf(default, env);
      if tag.None? then Trace(body, env, id, keep)
      else Pair(keep, id, tag.value, Trace(body, env, id + 1, keep), Meaning(body).Raised?)
    case Opener(ctx, moves, body) =>
      var inner := Trace(body, Some(ctx), id, keep);
      if Meaning(body).Raised? then inner else inner + MoveTrace(moves, id + Issued(body, Some(ctx)), keep)
    case Bracket(meta, notes, body) =>
      Pair(keep, id, OfMove(meta), Trace(body, env, id + 1, keep), Meaning(body).Raised?) + Notes(notes)
  }

  // ------------------------------------------------------ the instrumented run

  /** One thread running an instrumented program, with its thread-local context. */
  class ProbedThread {
    const enabled: bool
    const keep: nat -> bool            // the sampler's choice for each transfer
    var payload: Option<Payload>
    var log: seq<Emit>
    var next: nat
    var live: set<nat>
    var effects: seq<int>

    constructor (enabled: bool, keep: nat -> bool)
      ensures this.enabled == enabled && this.keep == keep
      ensures payload == None && log == [] && next == 0 && live == {} && effects == [] && Fresh()
    {
      this.enabled, this.keep := enabled, keep;
      payload, log, next, live, effects := None, [], 0, {}, [];
    }

    predicate Fresh()
      reads `next, `live
    {
      forall id :: id in live ==> id < next
    }

    method TransferStart(tag: Tag) returns (id: nat)
      requires Fresh()
      modifies `log, `next, `live
      ensures Fresh() && id == old(next) && next == id + 1
      ensures live == if keep(id) then old(live) + {id} else old(live)
      ensures log == if keep(id) then old(log) + [Open(id, tag)] else old(log)
    {
      id := next;
      next := next + 1;
      if keep(id) {
        log := log + [Open(id, tag)];
        live := live + {id};
      }
    }

    method TransferEnd(id: nat, cancelled: bool)
      modifies `log, `live
      ensures live == old(live) - {id}
      ensures log == if id in old(live) then old(log) + [Close(id, cancelled)] else old(log)
    {
      if id in live {
        live := live - {id};
        log := log + [Close(id, cancelled)];
      }
    }

    method EmitNotes(n: nat)
      modifies `log
      ensures log == old(log) + Notes(n)
    {
      var i := 0;
      while i < n
        invariant 0 <= i <= n && log + Notes(n - i) == old(log) + Notes(n)
      {
        assert Notes(n - i) == [Note] + Notes(n - (i + 1));
        log := log + [Note];
        i := i + 1;
      }
    }

    /** One block record and one transfer that starts and ends at once. */
    method EmitMove(move: Meta)
      requires Fresh()
      modifies `log, `next, `live
      ensures Fresh() && next == old(next) + 1 && live == old(live)
      ensures log == old(log) + MoveEmits(move, old(next), keep)
    {
      log := log + [Note];
      var id := TransferStart(OfMove(move));
      TransferEnd(id, false);
    }

    method EmitMoves(moves: seq<Meta>)
      requires Fresh()
      modifies `log, `next, `live
      ensures Fresh() && next == old(next) + |moves| && live == old(live)
      ensures log == old(log) + MoveTrace(moves, old(next), keep)
    {
      ghost var log0, id0 := log, next;
      var i := 0;
      while i < |moves|
        invariant 0 <= i <= |moves| && Fresh() && next == id0 + i && live == old(live)
        invariant log == log0 + MoveTrace(moves[..i], id0, keep)
      {
        Regroup(log0, MoveTrace(moves[..i], id0, keep), MoveEmits(moves[i], next, keep));
        assert moves[..i + 1][..i] == moves[..i];
        EmitMove(moves[i]);
        i := i + 1;
      }
      assert moves[..i] == moves;
    }

    /**
     The instrumented run: it ends as the program does by itself, with the same
     effects; the thread-local context is what it was; and the records are those
     of the lexical context.
     */
    method Run(c: Call) returns (out: Outcome)
      requires Fresh()
      modifies this
      ensures out == Meaning(c) && effects == old(effects) + Effects(c)
      ensures payload == old(payload) && live == old(live) && Fresh()
      ensures next == old(next) + Numbered(c, old(payload))
      ensures log == old(log) + Recorded(c, old(payload), old(next))
      decreases c, 1
    {
      match c
      case Leaf(effect, o) =>
        effects := effects + [effect];
        Regroup(log, [], []);
        out := o;
      case Chain(onRaise, a, b) => out := RunChain(onRaise, a, b);
      case Context(ctx, body) => out := RunInContext(ctx, body);
      case Collective(_, default, body) =>
        var tag := TagOf(default, payload);
        if !enabled || tag.None? {
          out := Run(body);
        } else {
          out := RunBracketed(tag.value, body);
        }
      case Opener(ctx, moves, body) =>
        if !enabled {
          out := Run(body);
        } else {
          out := RunOpener(ctx, moves, body);
        }
      case Bracket(meta, notes, body) =>
        if !enabled {
          out := Run(body);
        } else {
          out := RunBracket(meta, notes, body);
        }
    }

    function Recorded(c: Call, env: Option<Payload>, id: nat): seq<Emit> {
      if enabled then Trace(c, env, id, keep) else []
    }

    function Numbered(c: Call, env: Option<Payload>): nat {
      if enabled then Issued(c, env) else 0
    }

    method RunChain(onRaise: bool, a: Call, b: Call) returns (out: Outcome)
      requires Fresh()
      modifies this
      ensures out == Meaning(Chain(onRaise, a, b)) && effects == old(effects) + Effects(Chain(onRaise, a, b))
      ensures payload == old(payload) && live == old(live) && Fresh()
      ensures next == old(next) + Numbered(Chain(onRaise, a, b), old(payload))
      ensures log == old(log) + Recorded(Chain(onRaise, a, b), old(payload), old(next))
      decreases Chain(onRaise, a, b), 0
    {
      ghost var env, log0, effects0, id0 := payload, log, effects, next;
      out := Run(a);
      if out.Raised? == onRaise {
        ghost var id1 := next;
        out := Run(b);
        Regroup(effects0, Effects(a), Effects(b));
        Regroup(log0, Recorded(a, env, id0), Recorded(b, env, id1));
      }
    }

    /** The payload context: saved, overwritten, and put back whether or not the call raises. */
    method RunInContext(ctx: Payload, body: Call) returns (out: Outcome)
      requires Fresh()
      modifies this
      ensures out == Meaning(body) && effects == old(effects) + Effects(body)
      ensures payload == old(payload) && live == old(live) && Fresh()
      ensures next == old(next) + Numbered(body, Some(ctx))
      ensures log == old(log) + Recorded(body, Some(ctx), old(next))
      decreases body, 2
    {
      var prev := payload;
      payload := Some(ctx);
      out := Run(body);
      payload := prev;
    }

    /** A context around the call, and a record of every move once it has returned. */
    method RunOpener(ctx: Payload, moves: seq<Meta>, body: Call) returns (out: Outcome)
      requires Fresh() && enabled
      modifies this
      ensures out == Meaning(body) && effects == old(effects) + Effects(body)
      ensures payload == old(payload) && live == old(live) && Fresh()
      ensures next == old(next) + Issued(Opener(ctx, moves, body), old(payload))
      ensures log == old(log) + Trace(Opener(ctx, moves, body), old(payload), old(next), keep)
      decreases body, 3
    {
      ghost var log0, id0 := log, next;
      out := RunInContext(ctx, body);
      if out.Returned? {
        ghost var id1 := next;
        EmitMoves(moves);
        Regroup(log0, Trace(body, Some(ctx), id0, keep), MoveTrace(moves, id1, keep));
      }
    }

    /** A bracketed call with further records after its end. */
    method RunBracket(meta: Meta, notes: nat, body: Call) returns (out: Outcome)
      requires Fresh() && enabled
      modifies this
      ensures out == Meaning(body) && effects == old(effects) + Effects(body)
      ensures payload == old(payload) && live == old(live) && Fresh()
      ensures next == old(next) + Issued(Bracket(meta, notes, body), old(payload))
      ensures log == old(log) + Trace(Bracket(meta, notes, body), old(payload), old(next), keep)
      decreases body, 3
    {
      ghost var log0, id0 := log, next;
      ghost var inner := Pair(keep, id0, OfMove(meta), Trace(body, payload, id0 + 1, keep), Meaning(body).Raised?);
      out := RunBracketed(OfMove(meta), body);
      EmitNotes(notes);
      Regroup(log0, inner, Notes(notes));
    }

    /** A call between the start and the end of a transfer, cancelled if the call raises. */
    method RunBracketed(tag: Tag, body: Call) returns (out: Outcome)
      requires Fresh() && enabled
      modifies this
      ensures out == Meaning(body) && effects == old(effects) + Effects(body)
      ensures payload == old(payload) && live == old(live) && Fresh()
      ensures next == old(next) + 1 + Issued(body, old(payload))
      ensures log == old(log) +
        Pair(keep, old(next), tag, Trace(body, old(payload), old(next) + 1, keep), Meaning(body).Raised?)
      decreases body, 2
    {
      ghost var log0, env, id0 := log, payload, next;
      var id := TransferStart(tag);
      out := Run(body);
      TransferEnd(id, out.Raised?);
      ghost var inner := Trace(body, env, id0 + 1, keep);
      Regroup(log0, [Open(id0, tag)], inner);
      Regroup(log0, [Open(id0, tag)] + inner, [Close(id0, out.Raised?)]);
    }
  }
}
