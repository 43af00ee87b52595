# enchato chat relay — a Dafny model

enchato is a WebSocket chat relay written in Rust on actix. Clients connect to
`/ws/{channel}`. Each connection gets a `Session` actor, and one `ChatServer`
actor keeps track of who is in which channel. Text a client sends is broadcast
to every member of its channel, the sender included. This project models the
two actors and proves what they promise.

- `messages.dfy` (module `Messages`): the message structs `Message`,
  `ClientMessage`, `Connect` and `Disconnect`, and the outbound handle
  `Recipient<Message>`. The handle is an opaque value that is only stored,
  compared and sent to.
- `registry.dfy` (module `Registry`): the server's `channels` map as a value.
  `Join` is the `Connect` update, `Leave` the `Disconnect` update and `Fanout`
  the `send_message` loop. The module also holds the invariant that no stored
  channel is empty, and lemmas that relate the updates to each other.
- `server.dfy` (module `Server`): class `ChatServer`. Its handlers update
  `channels` in place, and every `do_send` is appended to `outbox`. Each
  method's postcondition equates the new state with `Join`, `Leave` or `Fanout`
  of the old one and keeps the invariant.
- `session.dfy` (module `Session`): `OnStreamEvent`, the frame dispatch, as a
  function from one inbound event to its effects. The effects are frames
  written to the peer, requests to the server, and a stop. Class `Session`
  holds the actor's lifecycle (`started`, `stopping`, the inherited
  `finished`), its frames written to the peer and its requests to the server.
  Its invariant says what the session has told the server so far: its
  `Connect`, then only text broadcasts, then its `Disconnect`.
- `relay.dfy` (module `Relay`): the two actors together. A trace is one order
  in which the server's mailbox hands it the sessions' requests. `Run` replays
  a trace on the registry, and `Deliver` routes one request to the matching
  handler of a `ChatServer`. The end-to-end theorems come from these.

Choices made where the source leaves the behaviour open:

- A `HashMap`'s iteration order is not fixed. `SendMessage` returns, as a
  ghost value, the order in which it visited the members. `Fanout` and the
  broadcast lemmas hold for every such order.
- Each handler is one atomic step. The mailbox order across sessions is
  arbitrary, so the composed theorems quantify over the traces before and
  after the step they are about.
- The session handlers require the actor to be running. actix only dispatches
  stream items and mailbox messages to a running actor.
- A text frame is treated as a string, and binary, ping and pong payloads as
  byte sequences.

Where the intended design and the code differ:

- A connection id is meant to be in at most one channel. The server does not
  enforce this: the same id connected to two channels is a member of both
  (`Registry.SameIdMayJoinTwoChannels`). The property holds because every
  session gets a fresh random id, so every Connect of an id names that
  session's channel; under that condition `Relay.OneChannelPerId` proves it.
  `Relay.StaysIn` proves the other half: a member keeps its membership and its
  handle until its own Disconnect.
- `Disconnect` on a channel that is present but has no members deletes it.
  Under the invariant this cannot happen, so `LeaveAbsentIsNoop` assumes the
  invariant.

## Model

| member | source | states |
|---|---|---|
| `Registry.Join` | src/server.rs:62-68 | after Connect the channel is present, its members are the old members plus `id`, `id` maps to the new handle, the other members keep their handles, and every other channel is unchanged |
| `Registry.Leave` | src/server.rs:82-88 | after Disconnect `id` is not a member; the channel is present iff other members remain; the remaining members keep their handles; every other channel is unchanged |
| `Registry.Fanout` | src/server.rs:43-49 | the broadcast sends one copy of the text per visited member, the i-th copy to the handle of the i-th member visited |
| `Registry.JoinKeepsNoEmptyChannel` | src/server.rs:62-67 | Connect keeps every stored channel non-empty |
| `Registry.LeaveKeepsNoEmptyChannel` | src/server.rs:82-87 | Disconnect keeps every stored channel non-empty, because an emptied channel is removed |
| `Registry.JoinReplacesHandle` | src/server.rs:62-63 | re-connecting an id to the same channel only replaces its handle |
| `Registry.LeaveAbsentIsNoop` | src/server.rs:82-88 | Disconnect of a missing channel or member changes nothing |
| `Registry.LeaveIdempotent` | src/server.rs:82-88 | Disconnect twice is the same as Disconnect once, on every registry |
| `Registry.LeaveUndoesJoin` | src/server.rs:61-89 | Disconnect restores the registry as it was before the Connect of a new member |
| `Registry.SameIdMayJoinTwoChannels` | src/server.rs:62-67 | the server lets one id be a member of two channels at once |
| `Registry.FanoutReachesEveryMember` | src/server.rs:43-49 | every member of the channel receives the text |
| `Registry.FanoutOnlyToMembers` | src/server.rs:43-49 | every message sent is the text verbatim, to the handle of some member |
| `Registry.FanoutCopies` | src/server.rs:45-47 | the loop sends a member's handle one copy if it has visited the member and none otherwise, when handles are distinct |
| `Registry.FanoutOncePerMember` | src/server.rs:43-49 | a whole broadcast sends each member exactly one copy, when handles are distinct |
| `Server.ChatServer.constructor` | src/server.rs:39-41 | `new` starts with no channels, no users and nothing sent, so the invariant holds |
| `Server.ChatServer.SendMessage` | src/server.rs:43-49 | visits every member once and appends the `Fanout` of the text to the outbox; an absent channel sends nothing; the registry is not written and the invariant is kept |
| `Server.ChatServer.Connect` | src/server.rs:61-75 | the registry becomes `Join` of the old one, exactly one `"Server: Joined"` goes to the new handle only, and the invariant is kept |
| `Server.ChatServer.Disconnect` | src/server.rs:81-89 | the registry becomes `Leave` of the old one, nothing is sent, and the invariant is kept |
| `Server.ChatServer.ClientMessage` | src/server.rs:95-97 | broadcasts `msg` verbatim to the named channel, leaves the registry alone and keeps the invariant |
| `Session.OnStreamEvent` | src/session.rs:43-72 | the session stops exactly on a decode error, a Close or a continuation frame, and stopping comes last; only a text frame reaches the server, as a `ClientMessage` carrying the session's own id and channel; only pong, binary and close frames go back to the peer |
| `Session.StreamRequestsAreBroadcasts` | src/session.rs:55-61 | every server request an inbound event causes is a broadcast by this session to its own channel |
| `Session.PingIsAnswered` | src/session.rs:53 | a ping gets exactly one pong with the same payload, and the server is not involved |
| `Session.PongAndNopAreIgnored` | src/session.rs:52-70 | pong and nop frames have no effect |
| `Session.TextIsForwarded` | src/session.rs:55-61 | a text frame becomes exactly one `ClientMessage{id, text, channel}`, and nothing is written to the peer |
| `Session.BinaryIsEchoed` | src/session.rs:62 | a binary frame is echoed unchanged to the peer only |
| `Session.CloseIsMirrored` | src/session.rs:63-66 | a Close is answered with a Close carrying the same reason, then the session stops |
| `Session.UnsupportedStops` | src/session.rs:44-69 | a continuation frame or a decode error stops the session and sends nothing |
| `Session.Session.constructor` | src/main.rs:61-66 | a new session has its id, name and channel, has not started, and has sent nothing |
| `Session.Session.Started` | src/session.rs:17-25 | `started` sends one `Connect` with the session's own id, channel and address, and writes `"Session: Joined"` to its own peer |
| `Session.Session.Stopping` | src/session.rs:27-31 | `stopping` sends one `Disconnect` with the session's own id and channel and returns `Stop`; the session's requests now form a whole lifetime |
| `Session.Session.Finished` | src/session.rs:42 | when the peer goes away, the session moves to stopping without sending anything |
| `Session.Session.HandleMessage` | src/session.rs:37-39 | a server `Message(s)` is written to the peer as text `s` verbatim |
| `Session.Session.HandleStream` | src/session.rs:43-72 | the frames written and the requests sent are those `OnStreamEvent` gives, and the session is stopping iff that includes a stop; id, name and channel are constants |
| `Relay.Deliver` | src/server.rs:58-98 | handling a request changes the registry as `Apply` says and appends the output `HubOutput` gives for the member order it used, keeping the invariant; `users` and earlier outbox entries do not change |
| `Relay.RunKeepsNoEmptyChannel` | src/server.rs:61-89 | every sequence of handled requests keeps every stored channel non-empty |
| `Relay.BroadcastsKeepRegistry` | src/server.rs:95-97 | broadcast requests never change the registry |
| `Relay.StaysOut` | src/server.rs:61-89 | once an id is not in a channel, only a Connect of that id to that channel puts it back |
| `Relay.StaysAbsent` | src/server.rs:61-89 | an absent channel stays absent while nobody connects to it |
| `Relay.OneChannelPerId` | src/server.rs:61-89 | when every Connect of an id names one channel, as with a fresh session id, the id is never a member of any other channel |
| `Relay.StaysIn` | src/server.rs:61-89 | a member stays in its channel with the same handle until a Disconnect or a new Connect of its id to that channel |
| `Relay.StoppedSessionIsNotAMember` | src/session.rs:27-31 | after a session's Disconnect has been handled, its id is not in its channel, unless a Connect of that id to that channel came later |
| `Relay.LastMemberRemovesChannel` | src/server.rs:82-87 | when the last member disconnects, the channel entry is gone and stays gone until someone connects to it |
| `Relay.LifetimeRestoresRegistry` | src/session.rs:17-31 | a session's whole run of requests leaves the registry as it found it |
| `Relay.TextReachesWholeChannel` | src/session.rs:55-61 | a text frame from a member reaches every member of its channel, the sender included, verbatim and nobody else |
| `Relay.BothMembersHearHi` | src/server.rs:43-49 | when A and B have joined "general" and A says "hi", both receive "hi" |
| `Relay.JoinThenLeaveLeavesNothing` | src/server.rs:61-89 | joining "x" and leaving again leaves no entry for "x" |

## Left out

- src/main.rs: the HTTP bootstrap (`websocket`, `hello`, `main`, the bind
  address) is I/O. `nanoid!` id generation is randomness, so ids are
  parameters. Logging is left out too.
- The `Channel` actor in src/main.rs is left out. It has no route, and it
  formats a fresh random id into every reply.
- The actix runtime is left out: mailboxes, how `Addr` and `Recipient` deliver,
  and how concurrent sessions interleave. Handlers are atomic steps, and
  traces quantify over the mailbox order.
- `do_send` never fails in the model. A send to a handle whose session has
  stopped is still recorded in the outbox.
- The relative order of the two welcome messages is not modelled. It depends
  on scheduling across actors.
- WebSocket wire framing and decoding, inside actix-web-actors, is left out.
  Only the decoded events are modelled.
- The `users` field is kept and never changes. No handler reads or writes it.
- The `name` field is only carried as a constant.
- The session's `server` field (`Addr<ChatServer>`) is not modelled. What the
  session sends there is its `hub` request log, and `Relay` replays such logs.
- `Registry.FanoutOncePerMember`: assumes the members have distinct handles.
  Two ids sharing one handle would receive one copy each, and that handle
  would get two.
