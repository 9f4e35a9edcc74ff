/** The Worker class of index.js: an event emitter wrapped around one WebSocket at a time.
    Its fields are updated in place by the socket handlers; the socket itself is an
    abstract session, `ws.send` appends to `sent` and `emit` appends to `events`.
    Each method's new state is the matching function of WorkerSpec applied to the old one. */
module WorkerClient {
  import opened Protocol
  import Spec = WorkerSpec

  class Worker {
    var host: string
    var secret: string
    var attempts: nat
    var range: Option<seq<string>>
    var connected: bool
    var ws: Option<Spec.Session>
    var sockets: nat
    var sent: seq<Spec.Delivery>
    var events: seq<Event>

    /** The worker's fields as a value. */
    function Snapshot(): Spec.State
      reads this
    {
      Spec.State(host, secret, attempts, range, connected, ws, sockets, sent, events)
    }

    ghost predicate Valid()
      reads this
    {
      Spec.Valid(Snapshot())
    }

    constructor (host: string, secret: string)
      ensures Valid()
      ensures Snapshot() == Spec.Init(host, secret)
      ensures this.host == host && this.secret == secret
      ensures attempts == 0 && range == None && !connected
      ensures ws == None && sent == [] && events == []
    {
      this.host := host;
      this.secret := secret;
      attempts := 0;
      range := None;
      connected := false;
      ws := None;
      sockets := 0;
      sent := [];
      events := [];
    }

    /** Opens a new socket to `host`; the previous one, if any, is no longer used for sending. */
    method Connect()
      requires Valid()
      modifies this
      ensures Valid()
      ensures Snapshot() == Spec.Connect(old(Snapshot()))
      ensures ws == Some(Spec.Session(old(sockets), host)) && sockets == old(sockets) + 1
      ensures attempts == old(attempts) && connected == old(connected) && range == old(range)
      ensures sent == old(sent) && events == old(events)
    {
      ws := Some(Spec.Session(sockets, host));
      sockets := sockets + 1;
    }

    /** Sends one frame on the current socket, or throws when there is none yet. */
    method SendWS(frame: Frame) returns (outcome: Spec.Outcome)
      requires Valid()
      modifies this
      ensures Valid()
      ensures (Snapshot(), outcome) == Spec.SendWS(old(Snapshot()), frame)
      ensures outcome == Spec.Normal <==> old(ws).Some?
      ensures outcome == Spec.Normal ==> sent == old(sent) + [Spec.Delivery(ws.value.id, frame)]
      ensures outcome == Spec.TypeError ==> sent == old(sent)
      ensures ws == old(ws) && host == old(host) && secret == old(secret) && range == old(range)
      ensures attempts == old(attempts) && connected == old(connected) && events == old(events)
    {
      if ws.None? {
        return Spec.TypeError;
      }
      sent := sent + [Spec.Delivery(ws.value.id, frame)];
      outcome := Spec.Normal;
    }

    /** `emit(event)`: appends to the event log and nothing else. */
    method Emit(event: Event)
      modifies this`events
      ensures events == old(events) + [event]
    {
      events := events + [event];
    }

    /** Re-emits a socket error; the connection state is left alone. */
    method OnError(description: string)
      requires Valid()
      modifies this
      ensures Valid()
      ensures Snapshot() == Spec.OnError(old(Snapshot()), description)
      ensures events == old(events) + [ErrorEvent(SocketFault(description))]
      ensures attempts == old(attempts) && connected == old(connected) && range == old(range)
      ensures ws == old(ws) && sent == old(sent)
    {
      Emit(ErrorEvent(SocketFault(description)));
    }

    /** The socket opened: whatever attempts was, it is reset to 1, and the worker is connected.
        Registering the message listener then throws when there is no socket. */
    method OnConnect() returns (outcome: Spec.Outcome)
      requires Valid()
      modifies this
      ensures Valid()
      ensures (Snapshot(), outcome) == Spec.OnConnect(old(Snapshot()))
      ensures attempts == 1 && connected
      ensures outcome == Spec.TypeError <==> old(ws).None?
      ensures range == old(range) && ws == old(ws) && sent == old(sent) && events == old(events)
    {
      attempts := 1;
      connected := true;
      // `this.ws.on('message', …)`: the listener itself is socket plumbing.
      outcome := if ws.Some? then Spec.Normal else Spec.TypeError;
    }

    /** The socket closed: one error event with the close reason, disconnected, one more
        attempt, and a new socket opened straight away. */
    method OnDisconnect(code: int, reason: string)
      requires Valid()
      modifies this
      ensures Valid()
      ensures Snapshot() == Spec.OnDisconnect(old(Snapshot()), code, reason)
      ensures events == old(events) + [ErrorEvent(CloseReason(reason))]
      ensures !connected && attempts == old(attempts) + 1
      ensures ws == Some(Spec.Session(old(sockets), host)) && sockets == old(sockets) + 1
      ensures range == old(range) && sent == old(sent)
    {
      Emit(ErrorEvent(CloseReason(reason)));
      connected := false;
      attempts := attempts + 1;
      Connect();
    }

    /** Dispatches on the message's op: an identify challenge gets exactly one reply,
        a ready message is only logged, any other op is ignored. No field changes. */
    method OnMessage(msg: Message) returns (outcome: Spec.Outcome)
      requires Valid()
      modifies this
      ensures Valid()
      ensures (Snapshot(), outcome) == Spec.OnMessage(old(Snapshot()), msg)
      ensures msg.op == Identify && old(ws).Some? ==>
        outcome == Spec.Normal &&
        sent == old(sent) + [Spec.Delivery(ws.value.id, Frame(Identify, secret, RangeOrNew(range)))]
      ensures msg.op != Identify || old(ws).None? ==> sent == old(sent)
      ensures outcome == Spec.TypeError <==>
        (msg.op == Identify && old(ws).None?) || (msg.op == Ready && msg.range.None?)
      ensures host == old(host) && secret == old(secret) && range == old(range)
      ensures attempts == old(attempts) && connected == old(connected)
      ensures ws == old(ws) && sockets == old(sockets) && events == old(events)
    {
      match msg.op {
        case Identify =>
          outcome := SendWS(Frame(Identify, secret, RangeOrNew(range)));
        case Ready =>
          // Only logs `msg.range.join(', ')`, which throws when the range is missing.
          outcome := if msg.range.Some? then Spec.Normal else Spec.TypeError;
        case Other(_) =>
          outcome := Spec.Normal;
      }
    }
  }

  /** A worker that connects and is challenged answers with its secret and 'new'. */
  method IdentifyAfterConnect(host: string, secret: string) returns (reply: Frame)
    ensures reply == Frame(Identify, secret, New)
  {
    var w := new Worker(host, secret);
    w.Connect();
    var outcome := w.OnConnect();
    outcome := w.OnMessage(Message(Identify, None));
    reply := w.sent[|w.sent| - 1].frame;
  }

  /** A ready message carrying a range does not store it: the next identify reply still says 'new'. */
  method ReadyKeepsNew(host: string, secret: string, ids: seq<string>) returns (reply: Frame)
    ensures reply == Frame(Identify, secret, New)
  {
    var w := new Worker(host, secret);
    w.Connect();
    var outcome := w.OnConnect();
    outcome := w.OnMessage(Message(Ready, Some(ids)));
    outcome := w.OnMessage(Message(Identify, None));
    reply := w.sent[|w.sent| - 1].frame;
  }

  /** A disconnect after a connection raises attempts to 2 and opens a second socket. */
  method ReconnectAfterClose(host: string, secret: string, code: int, reason: string)
    returns (attempts: nat, connected: bool, session: Spec.Session)
    ensures attempts == 2 && !connected && session == Spec.Session(1, host)
  {
    var w := new Worker(host, secret);
    w.Connect();
    var outcome := w.OnConnect();
    w.OnDisconnect(code, reason);
    attempts, connected, session := w.attempts, w.connected, w.ws.value;
  }
}
