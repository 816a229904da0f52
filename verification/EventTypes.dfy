// Types shared by the queue, the parser, the poller and the database writer.
module EventTypes {
  datatype Option<+T> = None | Some(value: T)

  function OrElse<T>(a: Option<T>, b: T): T {
    if a.Some? then a.value else b
  }

  type Byte = b: int | 0 <= b < 256

  datatype EventKind = Unknown | PumpFun | Raydium

  datatype Event = Event(kind: EventKind, programId: string, signature: string, slot: nat, data: seq<Byte>)

  // The program ids of the configuration.
  datatype Programs = Programs(pumpfun: string, raydium: string)

  const EVENT_PAYLOAD_MAX: nat := 4096

  // What calloc leaves in an unused cell of the queue's buffer.
  const ZERO_EVENT := Event(Unknown, "", "", 0, [])

  // The events that a list of records is about.
  function EventsIn<T>(records: seq<T>, of: T -> Event): (es: seq<Event>)
    ensures |es| == |records| && forall i | 0 <= i < |records| :: es[i] == of(records[i])
  {
    seq(|records|, i requires 0 <= i < |records| => of(records[i]))
  }
}
