/**
 * The session bridge: the process-wide `clients` registry, keyed by the
 * random id given to each WebSocket connection, and the handlers of the
 * events that change it. Each handler runs as one atomic step; what it sends
 * to a client or writes to a peer is appended to a log.
 */
module Bridge {
  import opened Values
  import opened Translator
  import opened Registry

  /** The hex text of the 16 random bytes drawn for a connection. */
  type ClientId = string

  /** An overlay (Hyperswarm) instance, named by the order of its creation. */
  type SwarmId = nat

  /** A client's `swarm` property: null, or the instance it holds. */
  datatype SwarmRef = NoSwarm | Swarm(id: SwarmId)

  /** A `clients` entry. `username` and `room` are undefined until the first join. */
  datatype Client = Client(swarm: SwarmRef, username: Value, room: Value, peers: PeerRegistry)

  /** The error text of a `send-message` from a client that holds no swarm. */
  const NotConnected: string := "Not connected to a room"

  /** The initial text of a newly connected peer's username. */
  const UnknownPeer: string := "Unknown"

  /** The swarm a reference holds, as a set. */
  function Held(s: SwarmRef): (held: set<SwarmId>)
  {
    if s.Swarm? then {s.id} else {}
  }

  // ------------------------------------------------------ client transitions

  /** The entry registered on connect: no swarm and an empty peer map. */
  function NewClient(): (c: Client)
    ensures c.swarm == NoSwarm && c.peers.Valid() && c.peers.entries == map[]
    ensures c.username == Undefined && c.room == Undefined
  {
    Client(NoSwarm, Undefined, Undefined, Empty())
  }

  /**
   * join-room: the client holds the new swarm under the new identity; the
   * peers of the previous swarm stay in the map.
   */
  function Joined(c: Client, sw: SwarmId, username: Value, room: Value): (r: Client)
    ensures r.swarm == Swarm(sw) && r.username == username && r.room == room
    ensures r.peers == c.peers
  {
    c.(swarm := Swarm(sw), username := username, room := room)
  }

  /**
   * leave-room: a held swarm is dropped and the peer map emptied; username
   * and room are kept. Without a swarm nothing changes.
   */
  function Left(c: Client): (r: Client)
    ensures r.swarm == NoSwarm
    ensures c.peers.Valid() ==> r.peers.Valid()
    ensures r.username == c.username && r.room == c.room
    ensures c.swarm.Swarm? ==> r.peers.entries == map[] && r.peers.order == []
    ensures c.swarm == NoSwarm ==> r == c
  {
    if c.swarm.Swarm? then c.(swarm := NoSwarm, peers := Empty()) else c
  }

  /** A second leave-room changes nothing. */
  lemma LeaveIdempotent(c: Client)
    ensures Left(Left(c)) == Left(c)
  {
  }

  /**
   * A new peer connection: the peer's entry becomes an unknown, connected
   * peer (replacing any entry under the same id); every other entry is kept.
   */
  function Admit(c: Client, key: PeerId): (r: Client)
    requires c.peers.Valid()
    ensures r.peers.Valid()
    ensures r.swarm == c.swarm && r.username == c.username && r.room == c.room
    ensures r.peers.entries == c.peers.entries[key := PeerEntry(Str(UnknownPeer), true)]
    ensures key in c.peers.entries ==> r.peers.order == c.peers.order
    ensures key !in c.peers.entries ==> r.peers.order == c.peers.order + [key]
  {
    c.(peers := Set(c.peers, key, PeerEntry(Str(UnknownPeer), true)))
  }

  /**
   * A parsed frame from a peer: a join frame makes its sender the peer's
   * username if the peer still has an entry; nothing else changes.
   */
  function Announce(c: Client, key: PeerId, fields: map<string, Value>): (r: Client)
    requires c.peers.Valid()
    ensures r.peers.Valid()
    ensures r.swarm == c.swarm && r.username == c.username && r.room == c.room
    ensures r.peers.order == c.peers.order && r.peers.entries.Keys == c.peers.entries.Keys
    ensures forall p | p in c.peers.entries && p != key :: r.peers.entries[p] == c.peers.entries[p]
    ensures key in c.peers.entries ==>
              r.peers.entries[key].connected == c.peers.entries[key].connected &&
              r.peers.entries[key].username ==
                (if IsJoin(fields) then Get(fields, "sender") else c.peers.entries[key].username)
  {
    if IsJoin(fields) && key in c.peers.entries
    then c.(peers := Set(c.peers, key, c.peers.entries[key].(username := Get(fields, "sender"))))
    else c
  }

  /** Of two join frames from one peer, the later one names it. */
  lemma {:induction false} LastAnnouncementWins(c: Client, key: PeerId, first: map<string, Value>, second: map<string, Value>)
    requires c.peers.Valid() && key in c.peers.entries
    requires IsJoin(second)
    ensures Announce(Announce(c, key, first), key, second).peers.entries[key].username == Get(second, "sender")
  {
  }

  /**
   * A peer stream closes: the peer's entry, if it still has one, is marked
   * disconnected and kept; nothing else changes.
   */
  function Closed(c: Client, key: PeerId): (r: Client)
    requires c.peers.Valid()
    ensures r.peers.Valid()
    ensures r.swarm == c.swarm && r.username == c.username && r.room == c.room
    ensures r.peers.order == c.peers.order && r.peers.entries.Keys == c.peers.entries.Keys
    ensures forall p | p in c.peers.entries && p != key :: r.peers.entries[p] == c.peers.entries[p]
    ensures key in c.peers.entries ==>
              r.peers.entries[key] == c.peers.entries[key].(connected := false)
  {
    if key in c.peers.entries
    then c.(peers := Set(c.peers, key, c.peers.entries[key].(connected := false)))
    else c
  }

  /** A peer that connects and then closes stays registered, as an unknown peer that is not connected. */
  lemma ConnectThenClose(c: Client, key: PeerId)
    requires c.peers.Valid()
    ensures key in Closed(Admit(c, key), key).peers.entries
    ensures Closed(Admit(c, key), key).peers.entries[key] == PeerEntry(Str(UnknownPeer), false)
  {
  }

  // ---------------------------------------------------------------- outputs

  /** One `ws.send` to a client. */
  datatype Sent = Sent(to: ClientId, envelope: Envelope)

  /** One `connection.write` to the stream registered under `peer` in `client`'s peer map. */
  datatype Write = Write(client: ClientId, peer: PeerId, frame: Frame)

  /** The writes of one frame to each of the given peers, in order. */
  function Writes(cid: ClientId, targets: seq<PeerId>, f: Frame): (w: seq<Write>)
    ensures |w| == |targets|
    ensures forall i | 0 <= i < |w| :: w[i] == Write(cid, targets[i], f)
  {
    if targets == [] then []
    else Writes(cid, targets[..|targets| - 1], f) + [Write(cid, targets[|targets| - 1], f)]
  }

  /** One more key of the iteration order adds at most its own write. */
  lemma BroadcastStep(cid: ClientId, order: seq<PeerId>, entries: map<PeerId, PeerEntry>, i: nat, f: Frame)
    requires i < |order| && forall k | k in order :: k in entries
    ensures Writes(cid, Connected(order[..i + 1], entries), f) ==
            Writes(cid, Connected(order[..i], entries), f) +
            (if entries[order[i]].connected then [Write(cid, order[i], f)] else [])
  {
    var sent := Connected(order[..i], entries);
    assert order[..i + 1][..i] == order[..i];
    if entries[order[i]].connected {
      assert (sent + [order[i]])[..|sent|] == sent;
    }
  }

  /**
   * The `for` loop of send-message: one write of `frame` to each connected
   * peer, in the map's iteration order.
   */
  method Broadcast(cid: ClientId, peers: PeerRegistry, frame: Frame) returns (written: seq<Write>)
    requires peers.Valid()
    ensures written == Writes(cid, peers.ConnectedPeers(), frame)
  {
    var order := peers.order;
    written := [];
    var i := 0;
    while i < |order|
      invariant 0 <= i <= |order|
      invariant written == Writes(cid, Connected(order[..i], peers.entries), frame)
    {
      var p := order[i];
      BroadcastStep(cid, order, peers.entries, i, frame);
      if peers.entries[p].connected {
        written := written + [Write(cid, p, frame)];
      }
      i := i + 1;
    }
    assert order[..i] == order;
  }

  /**
   * The reply to join-room: join-success with the local short id, or the
   * fault the topic hash raises when the room is not a string.
   */
  function JoinReply(room: Value, localKey: string, hashFault: string): (e: Envelope)
    ensures e.JoinSuccess? <==> room.Str?
    ensures e.JoinSuccess? ==> e.peerId == ShortId(localKey)
    ensures !room.Str? ==> e == Error(hashFault)
  {
    if room.Str? then JoinSuccess(ShortId(localKey)) else Error(hashFault)
  }

  // ------------------------------------------------------------------ state

  /**
   * The connection listener a successful join-room registers on its swarm,
   * with the username and room of the request it closes over.
   */
  datatype Listener = Listener(username: Value, room: Value)

  /**
   * Every peer map is well formed; a swarm a client holds was created and
   * not yet destroyed, and its listener, if it has one, closes over the
   * client's current username and room; no two clients hold the same swarm.
   */
  ghost predicate Consistent(clients: map<ClientId, Client>, created: set<SwarmId>, destroyed: set<SwarmId>,
                             listeners: map<SwarmId, Listener>)
  {
    && destroyed <= created
    && listeners.Keys <= created
    && (forall c | c in clients :: clients[c].peers.Valid())
    && (forall c | c in clients && clients[c].swarm.Swarm? ::
          && clients[c].swarm.id in created && clients[c].swarm.id !in destroyed
          && (clients[c].swarm.id in listeners ==>
                listeners[clients[c].swarm.id] == Listener(clients[c].username, clients[c].room)))
    && (forall c, d | c in clients && d in clients && c != d && clients[c].swarm.Swarm? ::
          clients[c].swarm != clients[d].swarm)
  }

  /**
   * Replacing one client's entry keeps the registry consistent when the new
   * entry's peer map is well formed and its swarm, if any, is live and held
   * by no other client.
   */
  lemma UpdateConsistent(clients: map<ClientId, Client>, created: set<SwarmId>, destroyed: set<SwarmId>,
                         listeners: map<SwarmId, Listener>, cid: ClientId, c: Client)
    requires Consistent(clients - {cid}, created, destroyed, listeners)
    requires c.peers.Valid()
    requires c.swarm.Swarm? ==> c.swarm.id in created && c.swarm.id !in destroyed
    requires c.swarm.Swarm? && c.swarm.id in listeners ==> listeners[c.swarm.id] == Listener(c.username, c.room)
    requires c.swarm.Swarm? ==> forall d | d in clients && d != cid :: clients[d].swarm != c.swarm
    ensures Consistent(clients[cid := c], created, destroyed, listeners)
  {
    var m := clients[cid := c];
    forall a, b | a in m && b in m && a != b && m[a].swarm.Swarm?
      ensures m[a].swarm != m[b].swarm
    {
      if a != cid && b != cid {
        assert a in clients - {cid} && b in clients - {cid};
      }
    }
    forall a | a in m ensures m[a].peers.Valid()
    {
      if a != cid { assert a in clients - {cid}; }
    }
    forall a | a in m && m[a].swarm.Swarm?
      ensures m[a].swarm.id in created && m[a].swarm.id !in destroyed
      ensures m[a].swarm.id in listeners ==> listeners[m[a].swarm.id] == Listener(m[a].username, m[a].room)
    {
      if a != cid { assert a in clients - {cid}; }
    }
  }

  /**
   * Dropping one client's entry keeps the rest consistent, also when the
   * swarm it held is destroyed and new swarms are created with listeners.
   */
  lemma RemoveConsistent(clients: map<ClientId, Client>, created: set<SwarmId>, destroyed: set<SwarmId>,
                         listeners: map<SwarmId, Listener>, cid: ClientId, gone: set<SwarmId>, born: set<SwarmId>,
                         heard: map<SwarmId, Listener>)
    requires Consistent(clients, created, destroyed, listeners)
    requires cid in clients ==> gone <= Held(clients[cid].swarm)
    requires cid !in clients ==> gone == {}
    requires heard.Keys <= born && born !! created
    ensures Consistent(clients - {cid}, created + born, destroyed + gone, listeners + heard)
  {
  }

  /**
   * A join keeps the registry consistent: the joining client's old swarm is
   * destroyed and it holds the fresh swarm `sw`, which has a listener exactly
   * when the room is a string.
   */
  lemma JoinConsistent(clients: map<ClientId, Client>, created: set<SwarmId>, destroyed: set<SwarmId>,
                       listeners: map<SwarmId, Listener>, cid: ClientId, sw: SwarmId, username: Value, room: Value)
    requires Consistent(clients, created, destroyed, listeners)
    requires cid in clients && sw !in created
    ensures var heard := if room.Str? then map[sw := Listener(username, room)] else map[];
            Consistent(clients[cid := Joined(clients[cid], sw, username, room)], created + {sw},
                       destroyed + Held(clients[cid].swarm), listeners + heard)
  {
    var c := clients[cid];
    var heard := if room.Str? then map[sw := Listener(username, room)] else map[];
    RemoveConsistent(clients, created, destroyed, listeners, cid, Held(c.swarm), {sw}, heard);
    UpdateConsistent(clients, created + {sw}, destroyed + Held(c.swarm), listeners + heard,
                     cid, Joined(c, sw, username, room));
  }

  class Bridge {
    /** The `clients` map. */
    var clients: map<ClientId, Client>
    /** Everything sent to clients, in order. */
    var wsOut: seq<Sent>
    /** Everything written to peer streams, in order. */
    var peerWrites: seq<Write>
    /** The connection listener of each swarm that joined a topic. */
    var listeners: map<SwarmId, Listener>
    /** Swarms created and destroyed. */
    ghost var created: set<SwarmId>
    ghost var destroyed: set<SwarmId>

    ghost predicate Valid()
      reads this
    {
      Consistent(clients, created, destroyed, listeners)
    }

    constructor ()
      ensures Valid()
      ensures clients == map[] && wsOut == [] && peerWrites == []
      ensures listeners == map[] && created == {} && destroyed == {}
    {
      clients, wsOut, peerWrites, listeners := map[], [], [], map[];
      created, destroyed := {}, {};
    }

    /** A WebSocket connects and is registered under its random id. */
    method Connect(cid: ClientId)
      requires Valid()
      modifies this
      ensures Valid()
      ensures clients == old(clients)[cid := NewClient()]
      ensures wsOut == old(wsOut) && peerWrites == old(peerWrites)
      ensures created == old(created) && destroyed == old(destroyed) && listeners == old(listeners)
    {
      clients := clients[cid := NewClient()];
    }

    /**
     * One frame from a client. A frame that does not parse is answered with
     * its fault; a frame of none of the three request types gets no answer.
     * `sw` and `localKey` are the swarm a join-room creates and its public
     * key, `hashFault` the fault the topic hash raises for a non-string room,
     * `now` the clock.
     */
    method Receive(cid: ClientId, input: ClientInput, sw: SwarmId, localKey: string, hashFault: string, now: int)
      requires Valid() && cid in clients && sw !in created
      modifies this
      ensures Valid()
      ensures input.Malformed? ==>
                && clients == old(clients) && peerWrites == old(peerWrites)
                && wsOut == old(wsOut) + [Sent(cid, Error(input.fault))]
                && created == old(created) && destroyed == old(destroyed) && listeners == old(listeners)
      ensures input.ClientFrame? ==> var kind := Get(input.fields, "type");
                kind != Str("join-room") && kind != Str("send-message") && kind != Str("leave-room") ==>
                  && clients == old(clients) && peerWrites == old(peerWrites) && wsOut == old(wsOut)
                  && created == old(created) && destroyed == old(destroyed) && listeners == old(listeners)
      ensures input.ClientFrame? && Get(input.fields, "type") == Str("join-room") ==>
                var username, room := Get(input.fields, "username"), Get(input.fields, "room");
                && clients == old(clients)[cid := Joined(old(clients[cid]), sw, username, room)]
                && wsOut == old(wsOut) + [Sent(cid, JoinReply(room, localKey, hashFault))]
                && peerWrites == old(peerWrites)
                && destroyed == old(destroyed) + Held(old(clients[cid]).swarm)
                && created == old(created) + {sw}
                && listeners == if room.Str? then old(listeners)[sw := Listener(username, room)] else old(listeners)
      ensures input.ClientFrame? && Get(input.fields, "type") == Str("send-message") ==>
                var c := old(clients[cid]);
                && clients == old(clients)
                && created == old(created) && destroyed == old(destroyed) && listeners == old(listeners)
                && wsOut == old(wsOut) + [Sent(cid, if c.swarm.Swarm? then SendSuccess else Error(NotConnected))]
                && peerWrites == old(peerWrites) +
                     (if c.swarm.Swarm?
                      then Writes(cid, c.peers.ConnectedPeers(),
                                  ChatMessage(c.username, Get(input.fields, "content"), c.room, now))
                      else [])
      ensures input.ClientFrame? && Get(input.fields, "type") == Str("leave-room") ==>
                && clients == old(clients)[cid := Left(old(clients[cid]))]
                && wsOut == old(wsOut) + [Sent(cid, LeaveSuccess)]
                && peerWrites == old(peerWrites)
                && destroyed == old(destroyed) + Held(old(clients[cid]).swarm)
                && created == old(created) && listeners == old(listeners)
    {
      match input
      case Malformed(fault) =>
        wsOut := wsOut + [Sent(cid, Error(fault))];
      case ClientFrame(fields) =>
        var kind := Get(fields, "type");
        if kind == Str("join-room") {
          JoinRoom(cid, Get(fields, "username"), Get(fields, "room"), sw, localKey, hashFault);
        } else if kind == Str("send-message") {
          SendMessage(cid, Get(fields, "content"), now);
        } else if kind == Str("leave-room") {
          LeaveRoom(cid);
        }
    }

    /**
     * join-room: destroys a swarm the client holds, then gives it the fresh
     * swarm `sw` with the new username and room. A string room is hashed into
     * a topic that `sw` joins, and the client is sent its own short id; any
     * other room makes the hash fail after the assignments, and the client is
     * sent the fault instead.
     */
    method JoinRoom(cid: ClientId, username: Value, room: Value, sw: SwarmId, localKey: string, hashFault: string)
      requires Valid() && cid in clients && sw !in created
      modifies this
      ensures Valid()
      ensures destroyed == old(destroyed) + Held(old(clients[cid]).swarm)
      ensures created == old(created) + {sw}
      ensures listeners == if room.Str? then old(listeners)[sw := Listener(username, room)] else old(listeners)
      ensures clients == old(clients)[cid := Joined(old(clients[cid]), sw, username, room)]
      ensures wsOut == old(wsOut) + [Sent(cid, JoinReply(room, localKey, hashFault))]
      ensures peerWrites == old(peerWrites)
    {
      var c := clients[cid];
      var heard := if room.Str? then map[sw := Listener(username, room)] else map[];
      JoinConsistent(clients, created, destroyed, listeners, cid, sw, username, room);
      assert listeners + heard == if room.Str? then listeners[sw := Listener(username, room)] else listeners;
      destroyed := destroyed + Held(c.swarm);
      created := created + {sw};
      clients := clients[cid := Joined(c, sw, username, room)];
      listeners := listeners + heard;
      wsOut := wsOut + [Sent(cid, JoinReply(room, localKey, hashFault))];
    }

    /**
     * send-message: without a swarm, the client gets the "Not connected to a
     * room" error and no peer is written to. Otherwise one chat frame is
     * written to every connected peer in the map's order, and the client
     * gets send-success. The client state does not change.
     */
    method SendMessage(cid: ClientId, content: Value, now: int)
      requires Valid() && cid in clients
      modifies this
      ensures Valid()
      ensures clients == old(clients)
      ensures created == old(created) && destroyed == old(destroyed) && listeners == old(listeners)
      ensures clients[cid].swarm == NoSwarm ==>
                peerWrites == old(peerWrites) && wsOut == old(wsOut) + [Sent(cid, Error(NotConnected))]
      ensures clients[cid].swarm.Swarm? ==>
                var c := clients[cid];
                && peerWrites == old(peerWrites) +
                     Writes(cid, c.peers.ConnectedPeers(), ChatMessage(c.username, content, c.room, now))
                && wsOut == old(wsOut) + [Sent(cid, SendSuccess)]
    {
      var c := clients[cid];
      if c.swarm == NoSwarm {
        wsOut := wsOut + [Sent(cid, Error(NotConnected))];
        return;
      }
      var written := Broadcast(cid, c.peers, ChatMessage(c.username, content, c.room, now));
      peerWrites := peerWrites + written;
      wsOut := wsOut + [Sent(cid, SendSuccess)];
    }

    /**
     * leave-room: a held swarm is destroyed and dropped and the peer map
     * emptied; the client always gets leave-success.
     */
    method LeaveRoom(cid: ClientId)
      requires Valid() && cid in clients
      modifies this
      ensures Valid()
      ensures destroyed == old(destroyed) + Held(old(clients[cid]).swarm)
      ensures created == old(created) && listeners == old(listeners)
      ensures clients == old(clients)[cid := Left(old(clients[cid]))]
      ensures wsOut == old(wsOut) + [Sent(cid, LeaveSuccess)]
      ensures peerWrites == old(peerWrites)
    {
      var c := clients[cid];
      if c.swarm.Swarm? {
        destroyed := destroyed + {c.swarm.id};
        clients := clients[cid := Left(c)];
      }
      wsOut := wsOut + [Sent(cid, LeaveSuccess)];
    }

    /** The WebSocket closes: a held swarm is destroyed and the entry removed. */
    method Disconnect(cid: ClientId)
      requires Valid()
      modifies this
      ensures Valid()
      ensures clients == old(clients) - {cid}
      ensures destroyed == old(destroyed) + (if cid in old(clients) then Held(old(clients[cid]).swarm) else {})
      ensures created == old(created) && listeners == old(listeners)
      ensures wsOut == old(wsOut) && peerWrites == old(peerWrites)
    {
      if cid in clients && clients[cid].swarm.Swarm? {
        destroyed := destroyed + {clients[cid].swarm.id};
      }
      clients := clients - {cid};
    }

    /**
     * The client's swarm reports a new connection from the peer with public
     * key `key`. Only a swarm that joined a topic and is not destroyed finds
     * peers, and that is the swarm the client holds. Its listener formats the
     * username it closed over, which is the client's own: when that throws,
     * nothing takes effect. Otherwise the peer is registered as unknown and
     * connected, the client is told its short id, and the peer alone is sent
     * the join announcement.
     */
    method PeerConnection(cid: ClientId, key: PeerId, now: int)
      requires Valid() && cid in clients
      requires clients[cid].swarm.Swarm? && clients[cid].swarm.id in listeners
      modifies this
      ensures Valid()
      ensures listeners == old(listeners) && created == old(created) && destroyed == old(destroyed)
      ensures var c := old(clients[cid]);
              JsText(c.username).None? ==>
                clients == old(clients) && wsOut == old(wsOut) && peerWrites == old(peerWrites)
      ensures var c := old(clients[cid]);
              var announcement := JoinAnnouncement(c.username, c.room, now);
              announcement.Some? ==>
                && clients == old(clients)[cid := Admit(c, key)]
                && wsOut == old(wsOut) + [Sent(cid, PeerConnected(ShortId(key)))]
                && peerWrites == old(peerWrites) + [Write(cid, key, announcement.value)]
    {
      var c := clients[cid];
      var heard := listeners[c.swarm.id];
      var announcement := JoinAnnouncement(heard.username, heard.room, now);
      if announcement.None? {
        return;
      }
      clients := clients[cid := Admit(c, key)];
      wsOut := wsOut + [Sent(cid, PeerConnected(ShortId(key)))];
      peerWrites := peerWrites + [Write(cid, key, announcement.value)];
    }

    /**
     * A `data` event on the stream of peer `key`. A frame that does not parse
     * is dropped. A parsed frame may rename the peer (Announce) and is then
     * forwarded to the client with its sender decorated, unless the sender
     * has no text, in which case building the message throws and nothing is
     * sent. Events that arrive after the client was removed reach a closed
     * socket and change nothing.
     */
    method PeerData(cid: ClientId, key: PeerId, input: PeerInput)
      requires Valid()
      modifies this
      ensures Valid()
      ensures peerWrites == old(peerWrites)
      ensures created == old(created) && destroyed == old(destroyed) && listeners == old(listeners)
      ensures cid !in old(clients) || input.Unparseable? ==> clients == old(clients) && wsOut == old(wsOut)
      ensures cid in old(clients) && input.PeerFrame? ==>
                && clients == old(clients)[cid := Announce(old(clients[cid]), key, input.fields)]
                && var forwarded := Decorate(input.fields, ShortId(key));
                   wsOut == old(wsOut) + (if forwarded.Some? then [Sent(cid, Message(forwarded.value))] else [])
    {
      if cid in clients && input.PeerFrame? {
        clients := clients[cid := Announce(clients[cid], key, input.fields)];
        var forwarded := Decorate(input.fields, ShortId(key));
        if forwarded.Some? {
          wsOut := wsOut + [Sent(cid, Message(forwarded.value))];
        }
      }
    }

    /**
     * The stream of peer `key` closes: its entry, if any, is marked
     * disconnected, and the client is told the short id even when the entry
     * is gone. After the client was removed nothing changes.
     */
    method PeerClose(cid: ClientId, key: PeerId)
      requires Valid()
      modifies this
      ensures Valid()
      ensures peerWrites == old(peerWrites)
      ensures created == old(created) && destroyed == old(destroyed) && listeners == old(listeners)
      ensures cid !in old(clients) ==> clients == old(clients) && wsOut == old(wsOut)
      ensures cid in old(clients) ==>
                && clients == old(clients)[cid := Closed(old(clients[cid]), key)]
                && wsOut == old(wsOut) + [Sent(cid, PeerDisconnected(ShortId(key)))]
    {
      if cid in clients {
        clients := clients[cid := Closed(clients[cid], key)];
        wsOut := wsOut + [Sent(cid, PeerDisconnected(ShortId(key)))];
      }
    }
  }
}
