/** Values exchanged between the worker, its socket and its listeners:
    inbound messages, outbound frames and emitted events. */
module Protocol {

  datatype Option<+T> = None | Some(value: T)

  /** Operation codes. Their concrete values live in a constants module that is not
      part of this model; only the two the worker switches on are distinguished. */
  datatype Opcode = Identify | Ready | Other(code: nat)

  /** The `range` field of an identify reply: the stored partition list, or the
      sentinel string 'new' when none is stored. */
  datatype RangeValue = Partitions(ids: seq<string>) | New

  /** An inbound message after decoding: its op and its `range` field
      (None when the field is absent or null). */
  datatype Message = Message(op: Opcode, range: Option<seq<string>>)

  /** An outbound frame: the one shape the worker ever builds, the identify reply. */
  datatype Frame = Frame(op: Opcode, secret: string, range: RangeValue)

  /** What an `error` event carries: a socket error as re-emitted by onError,
      or the close reason passed to onDisconnect. */
  datatype Payload = SocketFault(description: string) | CloseReason(reason: string)

  /** The only event the worker emits itself is `error`. */
  datatype Event = ErrorEvent(payload: Payload)

  /** The identify reply's range: `this.range ? this.range : 'new'`. A JavaScript array,
      even an empty one, is truthy, so only a missing range becomes 'new'. */
  function RangeOrNew(range: Option<seq<string>>): (v: RangeValue)
    ensures v == New <==> range == None
    ensures v.Partitions? ==> range == Some(v.ids)
  {
    match range
    case None => New
    case Some(ids) => Partitions(ids)
  }
}
