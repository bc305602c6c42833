/**
 The emitter's shared memory as a value, and the atomic actions that its
 methods are made of.  The classes in EmitterClasses.dfy are proved to perform
 these actions; Pipeline.dfy interleaves them.
 */
module EmitterModel {
  import opened Records

  const RECORD_ESTIMATE := 256       // bytes charged for each enqueued record
  const RING_CAPACITY := 4096        // records per thread
  const DEFAULT_FLUSH_BYTES := 4194304

  datatype Config = Config(trace: nat, node: nat, worker: nat, flushBytes: int, capacity: nat)

  datatype Ring = Ring(items: seq<Record>, dropped: nat)

  datatype EmitterState = EmitterState(
    rings: map<Thread, Ring>, order: seq<Thread>,   // order: rings as registered
    live: map<TransferId, Meta>,
    pending: int, trigger: bool, refused: nat)

  function InitialState(): EmitterState {
    EmitterState(map[], [], map[], 0, false, 0)
  }

  function OrElse<T>(field: Option<T>, default: T): Option<T> {
    if field.None? then Some(default) else field
  }

  /** The envelope fields are filled in only where the record lacks them. */
  function Stamp(cfg: Config, r: Record): Record {
    r.(trace := OrElse(r.trace, cfg.trace), node := OrElse(r.node, cfg.node),
       worker := OrElse(r.worker, cfg.worker), v := OrElse(r.v, 1))
  }

  function RingOf(em: EmitterState, th: Thread): Ring {
    if th in em.rings then em.rings[th] else Ring([], 0)
  }

  predicate HasRoom(cfg: Config, em: EmitterState, th: Thread) {
    |RingOf(em, th).items| < cfg.capacity
  }

  function RingPut(capacity: nat, ring: Ring, r: Record): Ring {
    if |ring.items| < capacity then ring.(items := ring.items + [r])
    else ring.(dropped := ring.dropped + 1)
  }

  /** A record is put into the ring of `th`, which is registered on first use. */
  function Offered(cfg: Config, em: EmitterState, th: Thread, stamped: Record): EmitterState {
    em.(rings := em.rings[th := RingPut(cfg.capacity, RingOf(em, th), stamped)],
        order := if th in em.rings then em.order else em.order + [th])
  }

  /** What `event` does to the shared memory when thread `th` calls it, once the record is stamped. */
  function Enqueue(cfg: Config, em: EmitterState, th: Thread, stamped: Record): EmitterState {
    var kept := Offered(cfg, em, th, stamped);
    if !HasRoom(cfg, em, th) then kept.(refused := em.refused + 1)
    else if em.pending + RECORD_ESTIMATE >= cfg.flushBytes then kept.(pending := 0, trigger := true)
    else kept.(pending := em.pending + RECORD_ESTIMATE)
  }

  /** The metadata record of a timed body, if it is not sampled away. */
  function Noted(cfg: Config, em: EmitterState, th: Thread, subtype: Subtype, sampled: bool, ts: int): EmitterState {
    if sampled then Enqueue(cfg, em, th, Stamp(cfg, Bare(Metadata, subtype, ts))) else em
  }

  function SetLive(em: EmitterState, tid: TransferId, meta: Meta): EmitterState {
    em.(live := em.live[tid := meta])
  }

  function ClearLive(em: EmitterState, tid: TransferId): EmitterState {
    em.(live := em.live - {tid})
  }

  function EmptyRing(em: EmitterState, th: Thread): EmitterState {
    if th in em.rings then em.(rings := em.rings[th := em.rings[th].(items := [])]) else em
  }

  function StartRecord(tid: TransferId, meta: Meta, request: Option<RequestId>, ts: int): Record {
    Bare(Transfer, Start, ts).(transfer := Some(tid), request := request, detail := Move(meta))
  }

  function EndRecord(tid: TransferId, meta: Meta, request: Option<RequestId>, ts: int, cancelled: bool): Record {
    Bare(Transfer, if cancelled then Cancel else End, ts)
      .(transfer := Some(tid), request := request, detail := Move(meta))
  }

  /** What `transfer_start` does to the shared memory when nothing interleaves. */
  function StartIfSampled(cfg: Config, enabled: bool, em: EmitterState, th: Thread, tid: TransferId, meta: Meta,
                          request: Option<RequestId>, sampled: bool, ts: int): EmitterState {
    if enabled && sampled
    then SetLive(Enqueue(cfg, em, th, Stamp(cfg, StartRecord(tid, meta, request, ts))), tid, meta)
    else em
  }

  /** What `transfer_end` does to the shared memory when nothing interleaves. */
  function EndIfLive(cfg: Config, enabled: bool, em: EmitterState, th: Thread, tid: TransferId,
                     request: Option<RequestId>, cancelled: bool, ts: int): EmitterState {
    if enabled && tid in em.live
    then Enqueue(cfg, ClearLive(em, tid), th, Stamp(cfg, EndRecord(tid, em.live[tid], request, ts, cancelled)))
    else em
  }
}
