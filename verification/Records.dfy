/** Trace records and the small vocabulary every other module shares. */
module Records {

  datatype Option<+T> = None | Some(value: T)

  // Identifiers only ever get compared, so numbers stand for the source's
  // strings; an empty string, which the source treats as missing, is None.
  type TransferId = nat
  type RequestId = nat
  type Thread = nat

  datatype Kind = Request | Token | KvBlock | WeightBlock | Transfer | Metadata | SysCounter

  datatype Subtype =
    | Start | End | Cancel
    | Arrival | Admit | Preempt | Resume | Finish | Abort
    | FirstToken | PrefillChunk | Decode
    | SchedulerDecision
    | TierPromote | TierDemote
    | Named(code: nat)

  datatype Direction = Load | Save

  /** How a call into the traced engine ends. */
  datatype Outcome = Returned(value: int) | Raised(error: int)

  /** The part of a start record that the live map keeps for the end record. */
  datatype Meta = Meta(direction: Direction, payload: string)

  /** Fields that only some kinds of record carry. */
  datatype Detail =
    | Plain
    | Move(meta: Meta)
    | Stamps(arrival: Option<int>, firstSchedule: Option<int>, firstToken: Option<int>,
             finish: Option<int>, ttft: Option<int>, tpot: Option<int>, outputLen: int)

  /** One JSON object; a field that is absent is None. */
  datatype Record = Record(
    v: Option<int>, ts: Option<int>, trace: Option<nat>, node: Option<nat>, worker: Option<nat>,
    kind: Option<Kind>, subtype: Option<Subtype>,
    transfer: Option<TransferId>, request: Option<RequestId>, detail: Detail)

  /** A record before the emitter has stamped the envelope on it. */
  function Bare(kind: Kind, subtype: Subtype, ts: int): Record {
    Record(None, Some(ts), None, None, None, Some(kind), Some(subtype), None, None, Plain)
  }

  predicate IsTransfer(r: Record) {
    r.kind == Some(Transfer)
  }

  predicate Opens(r: Record, tid: TransferId) {
    IsTransfer(r) && r.subtype == Some(Start) && r.transfer == Some(tid)
  }

  predicate Closes(r: Record, tid: TransferId) {
    IsTransfer(r) && (r.subtype == Some(End) || r.subtype == Some(Cancel)) && r.transfer == Some(tid)
  }
}
