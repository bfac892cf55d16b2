# HyperChat session bridge, modelled in Dafny

HyperChat lets browser clients chat in named rooms over a Hyperswarm
peer-to-peer overlay. The Node server (`server.js`) is the bridge. It gives
each WebSocket connection an entry in a global `clients` map. The entry holds
the connection's swarm (or null), its username and room, and a `peers` map
from full peer id (hex public key) to `{username, connected}`. Six kinds of
event change that state: a client connects, sends `join-room`,
`send-message` or `leave-room`, or disconnects; and the client's swarm
reports a new peer connection, data from a peer, or a peer's stream closing.

The model keeps the source's imperative form:

- `Bridge.Bridge` is a class with the `clients` map, a log of everything
  sent to clients (`wsOut`) and a log of everything written to peer streams
  (`peerWrites`). Ghost sets record which swarms were created and destroyed.
  The map `listeners` holds what the connection listener of each swarm that
  joined a topic closes over: the username and room of its join-room
  request. Each event handler is one method that runs as one atomic step.
- The `send-message` loop over `peers.values()` is the method
  `Bridge.Broadcast`, proved against `Registry.Connected`.
- The `peers` map is a `Registry.PeerRegistry`: a JavaScript `Map` as entries
  plus the order in which keys were first set, because broadcasts follow that
  order.
- What a handler does to one client entry is a pure function on the `Client`
  value (`Joined`, `Left`, `Admit`, `Announce`, `Closed`). Their contracts
  state what changes and what is kept.
- Frames and envelopes are datatypes. JSON values are `Values.Value`,
  including `undefined` for a missing property. `Values.JsText` is the text a
  value becomes inside a template literal. It is None when that conversion
  throws, which happens for an object with its own `toString` property or
  an array holding one. The bridge then stops where the source throws. A
  peer's join frame still renames the peer, but nothing is forwarded. A new
  peer connection on a swarm whose username has no text changes nothing.
- `Scenarios` holds verified runs of short event sequences.

Where the specification and the code disagree, the model follows the code:

- A second `join-room` destroys the old swarm but does not clear `peers`
  (server.js:38-46).
- `leave-room` keeps `username` and `room` (server.js:171-175).
- A peer's close reports `peer-disconnected` even after `leave-room` removed
  its entry (server.js:117-124).
- `join-room` assigns the swarm, username and room before it hashes the room
  (server.js:43-52). The hash throws on a room that is not a string, so the
  client gets an `error` but still holds a swarm that never joins a topic. A
  later `send-message` then succeeds instead of failing with "Not connected
  to a room" (`Scenarios.JoinWithoutRoomStillSends`).
- Usernames and rooms are not checked: any JSON value is stored as sent.
- A forwarded peer frame is labelled with the frame's own `sender`
  (server.js:107), not with the name the peer announced. The name recorded
  in the peer map (server.js:67, 97) is never read. So a peer that announced
  itself as "Alice" and then sends `{type: "chat", content: "hi"}` appears
  as "undefined (<short id>)", not as "Alice (<short id>)"
  (`Scenarios.AnnounceThenChat`).

Assumptions stated as preconditions:

- Client requests and `Receive` require the client to be registered: a
  WebSocket delivers no message after its `close` event.
- `PeerConnection` requires the client's swarm to have joined a topic,
  because only such a swarm finds peers. Its listener formats the username
  and room it closed over. `Bridge.Valid` proves these are the client's
  current username and room. It also keeps the swarm a client holds
  undestroyed and held by no other client.
- Peer data and close events for a client that was already removed change
  nothing. The handler mutates an object no longer in the map and sends to a
  closed socket, which drops the message.

## Model

| member | source | states |
|---|---|---|
| Translator.ShortId | server.js:102 | the short id is the first six characters of the key (the whole key if shorter), a prefix of it |
| Values.JsText | server.js:107 | the template-literal text of a value: a string is itself, other primitives always have a text, an object has none exactly when it has its own `toString`, and an array has none exactly when a non-null element has none |
| Translator.Frame.Fields | server.js:79-86 | the object a peer parses back from a written frame carries its type, sender, content, room and timestamp, and holds no undefined property |
| Translator.Serialised | server.js:86 | after `JSON.stringify`, every property reads back as it was, undefined ones are not written, and no new ones appear |
| Translator.JoinAnnouncement | server.js:79-85 | the announcement exists exactly when the username has a text; it reads back as a join frame with the username as sender, "<username text> joined the chat" as content, and the room and time |
| Translator.ChatMessage | server.js:150-156 | the broadcast frame reads back as a chat frame with the client's username, the request's content, the client's room and the time |
| Translator.Decorate | server.js:103-109 | a forwarded message exists exactly when the frame's sender has a text; it keeps every property except `sender`, which it always has and which is the sender text followed by " (<short id>)" |
| Translator.Undecorate | server.js:107 | a decorated sender text ends in " (<short id>)" after the text it returns |
| Translator.DecorationRoundTrip | server.js:107 | the peer's own sender text can be recovered from every forwarded message |
| Translator.NamedFrameForwarded | server.js:103-109 | a frame whose sender is a string is forwarded with "<sender> (<short id>)" and all else kept |
| Translator.AnonymousFrameForwarded | server.js:103-109 | a frame without a sender is forwarded with "undefined (<short id>)" as its sender |
| Translator.AnnouncementIdentifiesSender | server.js:79-99 | a join announcement read by the bridge at the other end is a join frame naming the announcing user, forwarded as "<user> (<short id>)" |
| Registry.Empty | server.js:29 | a new or cleared peer map has no entries and an empty iteration order |
| Registry.Set | server.js:65 | `peers.set` replaces the entry, appends a new key to the iteration order, keeps an existing key in place, and keeps the map well formed |
| Registry.Connected | server.js:158-162 | the peers a broadcast visits are keys of the map whose entry is connected |
| Registry.ConnectedOnce | server.js:158-162 | over a repeat-free order, each connected key is visited exactly once and every other key never |
| Registry.BroadcastReachesConnected | server.js:158-162 | a broadcast reaches each connected peer of a well-formed map exactly once and no other peer |
| Bridge.Broadcast | server.js:158-162 | the loop writes the frame once to each connected peer in map order, and to nothing else |
| Bridge.NewClient | server.js:29 | a new entry has no swarm, an empty peer map and undefined username and room |
| Bridge.Joined | server.js:44-46 | join-room sets the swarm, username and room and leaves the peer map as it was |
| Bridge.Left | server.js:171-175 | leave-room drops a held swarm and empties the peer map (keeping it well formed), keeps username and room, and changes nothing when no swarm is held |
| Bridge.LeaveIdempotent | server.js:169-179 | a second leave-room changes nothing |
| Bridge.Admit | server.js:65-70 | a new connection registers the peer as "Unknown" and connected, replaces any entry under that id, and leaves all other entries as they were |
| Bridge.Announce | server.js:94-99 | a join frame sets the sender as the username of a peer that still has an entry; other frames and other peers change nothing |
| Bridge.LastAnnouncementWins | server.js:94-99 | of two join frames from one peer, the later one names it |
| Bridge.Closed | server.js:117-120 | a closed peer's entry is kept and only marked not connected; other entries are unchanged |
| Bridge.ConnectThenClose | server.js:65-120 | a peer that connects and closes stays registered as an unknown peer that is not connected |
| Bridge.JoinReply | server.js:133-136 | the reply is join-success exactly when the room is a string, carrying the local short id; otherwise it is the hash fault the handler's catch sends (server.js:180-186) |
| Bridge.Bridge.constructor | server.js:23 | the bridge starts with no clients and empty logs |
| Bridge.Bridge.Connect | server.js:28-29 | the new id gets a fresh entry and no other entry changes |
| Bridge.Bridge.Receive | server.js:31-187 | a frame that does not parse gets one error carrying the fault; a frame of an unknown type gets no answer; the three request types act as their handlers |
| Bridge.Bridge.JoinRoom | server.js:36-137 | the held swarm is destroyed and the fresh swarm is held, with the peer map kept; a string room joins a topic, the swarm gets a listener closing over the username and room, and the reply is join-success with the local short id; any other room gets the hash fault instead and no listener |
| Bridge.Bridge.SendMessage | server.js:139-167 | without a swarm the client gets one "Not connected to a room" error and no peer is written to; otherwise one chat frame with the client's username and room goes to every connected peer, then the client gets send-success; no client state changes |
| Bridge.Bridge.LeaveRoom | server.js:169-179 | a held swarm is destroyed and the entry left as `Left` says; the client always gets leave-success |
| Bridge.Bridge.Disconnect | server.js:189-196 | a held swarm is destroyed and the entry removed; nothing is sent |
| Bridge.Bridge.PeerConnection | server.js:61-86 | when the listener's username has no text, nothing changes; otherwise the peer is admitted, the client gets peer-connected with the short id, and only that peer is sent the join announcement of the client's current username and room |
| Bridge.Bridge.PeerData | server.js:89-113 | an unparseable frame changes nothing and sends nothing; a parsed frame may rename the peer, and is forwarded decorated when its sender has a text and not at all otherwise |
| Bridge.Bridge.PeerClose | server.js:115-125 | the entry, if present, is marked not connected, and the client always gets peer-disconnected with the short id |
| Scenarios.LeaveTwice | server.js:169-179 | two leave-room requests change the state as one does and answer leave-success twice |
| Scenarios.PeerAnnounces | server.js:89-113 | a registered peer's join frame renames it and reaches the client labelled "<name> (<short id>)" |
| Scenarios.PeerArrivesNamed | server.js:61-113 | a new peer is sent the announcement alone; the client gets peer-connected, then the peer's own join labelled "<name> (<short id>)"; the entry carries the name and is connected |
| Scenarios.AnonymousChat | server.js:103-109 | a chat frame without a sender reaches the client as "undefined (<short id>)" with its content kept, and no client state changes |
| Scenarios.AnnounceThenChat | server.js:61-113 | after a peer announced a name, which the entry carries, its chat frame without a sender still reaches the client as "undefined (<short id>)" |
| Scenarios.ConnectThenCloseRun | server.js:61-125 | connect then close gives exactly one peer-connected then one peer-disconnected, and the entry stays, not connected |
| Scenarios.UnprintableUsername | server.js:61-63 | with a username object that has its own `toString`, a new peer connection changes nothing and sends nothing |
| Scenarios.UnprintableSender | server.js:94-112 | a join frame whose sender object has its own `toString` renames the peer but forwards nothing |
| Scenarios.ClosedPeerSkipped | server.js:115-162 | a broadcast writes nothing to a peer whose stream closed |
| Scenarios.RejoinKeepsPeers | server.js:36-162 | after a second join the old swarm is destroyed, the peer map is unchanged, and each still-connected peer gets one write stamped with the new room |
| Scenarios.CloseAfterLeave | server.js:115-179 | after leave-room, a late close still reports peer-disconnected and the peer map stays empty |
| Scenarios.DisconnectRun | server.js:189-196 | a disconnect removes only its own entry and leaves other clients' swarms alive |

Further verified runs with no contract of their own: `Scenarios.SendWithoutJoin`
(one error and no write), `Scenarios.MalformedFrame`,
`Scenarios.UnknownRequest` and `Scenarios.JoinWithoutRoomStillSends`.

## Left out

- The Express/HTTP server, static serving and the WebSocket server wiring (server.js:1-20, 199-201): I/O plumbing.
- Hyperswarm internals (server.js:43, 54-58): the DHT, `swarm.join` and `discovery.flushed()` are not modelled. A swarm is an opaque id. Creating and destroying one only update the ghost sets `created` and `destroyed`; joining a topic registers its listener in `listeners`.
- The SHA-256 topic derivation (server.js:52): only its failure on a room that is not a string is modelled. The text of that fault is a parameter (`hashFault`).
- `crypto.randomBytes` ids, the hex encoding of public keys and `Date.now()`: they are method parameters (`cid`, `key`, `localKey`, `now`).
- JSON text: frames are records. A client frame `JSON.parse` rejects is `Malformed` with the parser's fault text. A client frame that parses to a value other than an object is not a separate input: `null` fails like `Malformed`, and other primitives act as an object without a `type`. A peer frame that does not parse, or parses to `null`, is `Unparseable`. The properties a string spread adds to a forwarded peer frame are not modelled.
- Floating-point numbers: `Values.Num` holds integers only, and `Values.JsText` formats them as decimal integers. JavaScript writes integers of 22 or more digits in exponent form; the model does not.
- Interleavings between handlers: each handler is one atomic step. In the source, `await swarm.destroy()` lets other events run in between. The close events a destroy causes arrive in the model as separate later `PeerClose` calls.
- Failures of the overlay (a rejected `destroy()`, stream write errors), console logging, and the no-op `connection.on('error')` handler (server.js:127-129).
- Stream objects: a write is logged against the client and the peer id. The stream it goes to is the one the peer map holds under that id at that moment, as in the source.
- Bridge.Bridge.PeerConnection: when formatting the username throws at server.js:63, the model records no effect. It does not model where the exception goes from there: it escapes into Hyperswarm's event dispatch. It also does not model that the stream's `data` and `close` listeners are never registered, so later peer events for that stream are left to the caller not to issue.
- public/app.js: browser UI with reconnect timers, DOM building and counters that only drive rendering.
