/**
 * The per-connection `Session` actor of src/session.rs: the WebSocket frame
 * dispatch as a pure function from one inbound event to its effects, and the
 * actor itself as a class whose lifecycle hooks and handlers append to the
 * frames written to its peer and to the requests sent to the chat server.
 */
module Session {
  import opened Messages

  newtype byte = x: int | 0 <= x < 0x100
  type Bytes = seq<byte>
  newtype u16 = x: int | 0 <= x < 0x1_0000

  /** `ws::Item`: one fragment of a fragmented message (section 5.4 of RFC 6455). */
  datatype Item =
    | FirstText(data: Bytes)
    | FirstBinary(data: Bytes)
    | Continue(data: Bytes)
    | Last(data: Bytes)

  /** `ws::CloseReason`: the close status code and an optional description. */
  datatype CloseReason = CloseReason(code: u16, description: Option<string>)

  /** `ws::Message`: one decoded WebSocket message. */
  datatype Frame =
    | Text(text: string)
    | Binary(data: Bytes)
    | Continuation(item: Item)
    | Ping(data: Bytes)
    | Pong(data: Bytes)
    | Close(reason: Option<CloseReason>)
    | Nop

  /** What the stream yields: `Ok(ws::Message)` or `Err(ws::ProtocolError)`. */
  datatype Inbound = Received(frame: Frame) | ProtocolError

  /**
   * One effect of a handler: a frame written to the peer (`ctx.text`,
   * `ctx.binary`, `ctx.pong`, `ctx.close`), a request sent to the chat
   * server (`do_send`), or `ctx.stop()`.
   */
  datatype Effect = Write(frame: Frame) | Send(request: Request) | StopActor

  /** The welcome a session writes to its own peer when it starts. */
  const SessionJoined: string := "Session: Joined"

  /**
   * `StreamHandler::handle`: the effects of one inbound event on the session
   * with the given id and channel.
   */
  function OnStreamEvent(id: string, channel: string, event: Inbound): (effects: seq<Effect>)
    // the session stops exactly on a decode error, a Close and a continuation
    // frame, and stopping is the last thing it does
    ensures StopActor in effects <==>
              event.ProtocolError? || event.frame.Close? || event.frame.Continuation?
    ensures StopActor in effects ==> effects[|effects| - 1] == StopActor
    // only a text frame reaches the server, as a broadcast to this session's channel
    ensures forall e :: e in effects && e.Send? ==>
              event.Received? && event.frame.Text? &&
              e.request == ClientMessage(id, event.frame.text, channel)
    ensures event.Received? && event.frame.Text? ==>
              Send(ClientMessage(id, event.frame.text, channel)) in effects
    // what goes back to the peer is a pong, a binary echo or a close, never text
    ensures forall e :: e in effects && e.Write? ==>
              e.frame.Pong? || e.frame.Binary? || e.frame.Close?
    ensures |effects| <= 2
  {
    match event
    case ProtocolError => [StopActor]
    case Received(frame) =>
      match frame
      case Ping(data) => [Write(Pong(data))]
      case Pong(_) => []
      case Text(text) => [Send(ClientMessage(id, text, channel))]
      case Binary(data) => [Write(Binary(data))]
      case Close(reason) => [Write(Close(reason)), StopActor]
      case Continuation(_) => [StopActor]
      case Nop => []
  }

  /** The frames among `effects`, in order. */
  function Written(effects: seq<Effect>): (frames: seq<Frame>)
    ensures |frames| <= |effects|
    ensures forall f :: f in frames <==> Write(f) in effects
  {
    if effects == [] then []
    else (if effects[0].Write? then [effects[0].frame] else []) + Written(effects[1..])
  }

  /** The server requests among `effects`, in order. */
  function Requested(effects: seq<Effect>): (requests: seq<Request>)
    ensures |requests| <= |effects|
    ensures forall r :: r in requests <==> Send(r) in effects
  {
    if effects == [] then []
    else (if effects[0].Send? then [effects[0].request] else []) + Requested(effects[1..])
  }

  /** Every request is a text broadcast by session `id` to `channel`. */
  predicate OnlyBroadcasts(requests: seq<Request>, id: string, channel: string)
  {
    forall i :: 0 <= i < |requests| ==>
      requests[i].ClientMessage? && requests[i].id == id && requests[i].channel == channel
  }

  /**
   * The requests of a session over its whole life, as the server's mailbox
   * receives them: its Connect first, then text broadcasts only, then its
   * Disconnect.
   */
  predicate Lifetime(requests: seq<Request>, id: string, channel: string, addr: Handle)
  {
    && |requests| >= 2
    && requests[0] == Connect(id, channel, addr)
    && requests[|requests| - 1] == Disconnect(id, channel)
    && OnlyBroadcasts(requests[1..|requests| - 1], id, channel)
  }

  lemma {:induction false} StreamRequestsAreBroadcasts(id: string, channel: string, event: Inbound)
    ensures OnlyBroadcasts(Requested(OnStreamEvent(id, channel, event)), id, channel)
  {
    var effects := OnStreamEvent(id, channel, event);
    var requests := Requested(effects);
    forall i | 0 <= i < |requests|
      ensures requests[i].ClientMessage? && requests[i].id == id && requests[i].channel == channel
    {
      assert requests[i] in requests;
      assert Send(requests[i]) in effects;
    }
  }

  // -----------------------------------------------------------------------
  // The event dispatch, case by case

  /** A ping is answered by one pong with the same payload (section 5.5.3 of RFC 6455). */
  lemma PingIsAnswered(id: string, channel: string, data: Bytes)
    ensures Written(OnStreamEvent(id, channel, Received(Ping(data)))) == [Pong(data)]
    ensures Requested(OnStreamEvent(id, channel, Received(Ping(data)))) == []
    ensures StopActor !in OnStreamEvent(id, channel, Received(Ping(data)))
  {
  }

  /** Pong and Nop frames have no effect at all. */
  lemma PongAndNopAreIgnored(id: string, channel: string, data: Bytes)
    ensures OnStreamEvent(id, channel, Received(Pong(data))) == []
    ensures OnStreamEvent(id, channel, Received(Nop)) == []
  {
  }

  /** A text frame becomes one broadcast request and nothing is written back. */
  lemma TextIsForwarded(id: string, channel: string, text: string)
    ensures Requested(OnStreamEvent(id, channel, Received(Text(text)))) == [ClientMessage(id, text, channel)]
    ensures Written(OnStreamEvent(id, channel, Received(Text(text)))) == []
    ensures StopActor !in OnStreamEvent(id, channel, Received(Text(text)))
  {
  }

  /** A binary frame is echoed to the peer only. */
  lemma BinaryIsEchoed(id: string, channel: string, data: Bytes)
    ensures Written(OnStreamEvent(id, channel, Received(Binary(data)))) == [Binary(data)]
    ensures Requested(OnStreamEvent(id, channel, Received(Binary(data)))) == []
    ensures StopActor !in OnStreamEvent(id, channel, Received(Binary(data)))
  {
  }

  /** A Close is answered with a Close carrying the same reason, then the session stops (section 5.5.1 of RFC 6455). */
  lemma CloseIsMirrored(id: string, channel: string, reason: Option<CloseReason>)
    ensures OnStreamEvent(id, channel, Received(Close(reason))) == [Write(Close(reason)), StopActor]
  {
  }

  /** A continuation frame or a decode error stops the session and sends nothing anywhere. */
  lemma UnsupportedStops(id: string, channel: string, item: Item)
    ensures OnStreamEvent(id, channel, Received(Continuation(item))) == [StopActor]
    ensures OnStreamEvent(id, channel, ProtocolError) == [StopActor]
  {
  }

  // -----------------------------------------------------------------------
  // The actor

  /**
   * The actor's lifecycle. `Connecting` is before `started` has run,
   * `Active` is actix's running state, `Closing` follows `ctx.stop()`, and
   * `Closed` follows `stopping` returning `Running::Stop`.
   */
  datatype ActorState = Connecting | Active | Closing | Closed

  /** actix `Running`: what `stopping` answers. */
  datatype Running = Stop | Continue

  class Session {
    const id: string
    const name: Option<string>
    const channel: string
    /** `ctx.address().recipient()`: this session's own handle. */
    const addr: Handle
    var state: ActorState
    /** Every frame written to this session's WebSocket, in order. */
    var peer: seq<Frame>
    /** Every request sent to the chat server, in order. */
    var hub: seq<Request>

    /**
     * What the session has told the server so far: nothing before it starts,
     * then its Connect, then only text broadcasts, and, once it has stopped,
     * its Disconnect last.
     */
    ghost predicate Valid()
      reads this
    {
      && (state.Connecting? ==> hub == [])
      && (!state.Connecting? ==> |hub| >= 1 && hub[0] == Connect(id, channel, addr))
      && (state.Active? || state.Closing? ==> OnlyBroadcasts(hub[1..], id, channel))
      && (state.Closed? ==> Lifetime(hub, id, channel, addr))
    }

    /** The struct literal of src/main.rs: a session not yet started. */
    constructor (id: string, name: Option<string>, channel: string, addr: Handle)
      ensures Valid()
      ensures this.id == id && this.name == name && this.channel == channel && this.addr == addr
      ensures state == Connecting && peer == [] && hub == []
    {
      this.id := id;
      this.name := name;
      this.channel := channel;
      this.addr := addr;
      state := Connecting;
      peer := [];
      hub := [];
    }

    /** `Actor::started`: register with the server, then greet the peer. */
    method Started()
      requires Valid() && state.Connecting?
      modifies this`state, this`peer, this`hub
      ensures Valid() && state.Active?
      ensures hub == old(hub) + [Connect(id, channel, addr)]
      ensures peer == old(peer) + [Text(SessionJoined)]
    {
      hub := hub + [Connect(id, channel, addr)];
      peer := peer + [Text(SessionJoined)];
      state := Active;
    }

    /** `Actor::stopping`: unregister from the server and agree to stop. */
    method Stopping() returns (r: Running)
      requires Valid() && state.Closing?
      modifies this`state, this`hub
      ensures Valid() && state.Closed?
      ensures r == Stop
      ensures hub == old(hub) + [Disconnect(id, channel)]
    {
      hub := hub + [Disconnect(id, channel)];
      state := Closed;
      r := Stop;
    }

    /**
     * The default `StreamHandler::finished` this impl inherits: when the peer
     * goes away, the context stops the actor.
     */
    method Finished()
      requires Valid() && state.Active?
      modifies this`state
      ensures Valid() && state.Closing?
    {
      state := Closing;
    }

    /** `Handler<Message>`: a text from the server goes to the peer verbatim. */
    method HandleMessage(msg: Message)
      requires Valid() && state.Active?
      modifies this`peer
      ensures Valid()
      ensures peer == old(peer) + [Text(msg.text)]
    {
      peer := peer + [Text(msg.text)];
    }

    /** `StreamHandler::handle`: react to one inbound WebSocket event. */
    method HandleStream(event: Inbound)
      requires Valid() && state.Active?
      modifies this`state, this`peer, this`hub
      ensures Valid()
      ensures peer == old(peer) + Written(OnStreamEvent(id, channel, event))
      ensures hub == old(hub) + Requested(OnStreamEvent(id, channel, event))
      ensures state == if StopActor in OnStreamEvent(id, channel, event) then Closing else Active
    {
      ghost var effects := OnStreamEvent(id, channel, event);
      match event {
        case ProtocolError =>
          assert Written(effects) == [] && Requested(effects) == [];
          state := Closing;
        case Received(frame) =>
          match frame {
            case Ping(data) =>
              assert Written(effects) == [Pong(data)] && Requested(effects) == [];
              peer := peer + [Pong(data)];
            case Pong(_) =>
            case Text(text) =>
              assert Written(effects) == [] && Requested(effects) == [ClientMessage(id, text, channel)];
              ghost var before := hub;
              hub := hub + [ClientMessage(id, text, channel)];
              assert hub[1..] == before[1..] + [ClientMessage(id, text, channel)];
            case Binary(data) =>
              assert Written(effects) == [Binary(data)] && Requested(effects) == [];
              peer := peer + [Binary(data)];
            case Close(reason) =>
              assert Written(effects) == [Close(reason)] && Requested(effects) == [];
              peer := peer + [Close(reason)];
              state := Closing;
            case Continuation(_) =>
              assert Written(effects) == [] && Requested(effects) == [];
              state := Closing;
            case Nop =>
          }
      }
    }
  }
}
