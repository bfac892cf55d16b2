/**
 * Runs of the bridge through short event sequences, with what the client and
 * the peers receive proved from the handlers' contracts alone. Most start
 * from any consistent state of the bridge.
 */
module Scenarios {
  import opened Wrappers
  import opened Values
  import opened Translator
  import opened Registry
  import opened Bridge

  /** A client that never joined gets one error for send-message, and no peer is written to. */
  method SendWithoutJoin(cid: ClientId, content: Value)
  {
    var b := new Bridge();
    b.Connect(cid);
    b.Receive(cid, ClientFrame(map["type" := Str("send-message"), "content" := content]), 0, "", "", 1);
    assert b.wsOut == [Sent(cid, Error(NotConnected))];
    assert b.peerWrites == [];
  }

  /** A frame that is not JSON gets exactly one error carrying the parser's fault. */
  method MalformedFrame(cid: ClientId, fault: string)
  {
    var b := new Bridge();
    b.Connect(cid);
    b.Receive(cid, Malformed(fault), 0, "", "", 1);
    assert b.wsOut == [Sent(cid, Error(fault))];
    assert b.clients[cid] == NewClient();
  }

  /** A frame with an unknown type gets no answer at all. */
  method UnknownRequest(cid: ClientId)
  {
    var b := new Bridge();
    b.Connect(cid);
    b.Receive(cid, ClientFrame(map["type" := Str("ping")]), 0, "", "", 1);
    assert b.wsOut == [] && b.clients[cid] == NewClient();
  }

  /**
   * A join-room without a room fails at the topic hash after the swarm was
   * assigned: the client gets the fault, yet a following send-message
   * succeeds, because the client now holds a swarm.
   */
  method JoinWithoutRoomStillSends(cid: ClientId, fault: string)
  {
    var b := new Bridge();
    b.Connect(cid);
    b.Receive(cid, ClientFrame(map["type" := Str("join-room"), "username" := Str("bob")]), 0, "", fault, 10);
    assert b.wsOut == [Sent(cid, Error(fault))];
    assert 0 !in b.listeners;
    b.SendMessage(cid, Str("hi"), 20);
    assert b.wsOut[1] == Sent(cid, SendSuccess);
  }

  /** A second leave-room answers leave-success again and changes nothing else. */
  method LeaveTwice(b: Bridge, cid: ClientId)
    requires b.Valid() && cid in b.clients
    modifies b
    ensures b.clients == old(b.clients)[cid := Left(old(b.clients[cid]))]
    ensures b.destroyed == old(b.destroyed) + Held(old(b.clients[cid]).swarm)
    ensures b.wsOut == old(b.wsOut) + [Sent(cid, LeaveSuccess), Sent(cid, LeaveSuccess)]
    ensures b.peerWrites == old(b.peerWrites)
  {
    b.LeaveRoom(cid);
    b.LeaveRoom(cid);
    LeaveIdempotent(old(b.clients[cid]));
  }

  /**
   * A registered peer announces itself under `peerName`: the peer map records
   * the name, and the client sees the announcement labelled
   * "<peerName> (<short id>)".
   */
  method PeerAnnounces(b: Bridge, cid: ClientId, key: PeerId, peerName: string)
    requires b.Valid() && cid in b.clients && key in b.clients[cid].peers.entries
    modifies b
    ensures b.Valid() && b.peerWrites == old(b.peerWrites)
    ensures cid in b.clients && key in b.clients[cid].peers.entries
    ensures b.clients[cid].peers.entries[key] == old(b.clients[cid].peers.entries[key]).(username := Str(peerName))
    ensures b.wsOut == old(b.wsOut) +
              [Sent(cid, Message(map["type" := Str("join"), "sender" := Str(peerName + " (" + ShortId(key) + ")")]))]
  {
    var hello := map["type" := Str("join"), "sender" := Str(peerName)];
    assert IsJoin(hello);
    NamedFrameForwarded(hello, peerName, ShortId(key));
    assert hello["sender" := Str(peerName + " (" + ShortId(key) + ")")] ==
           map["type" := Str("join"), "sender" := Str(peerName + " (" + ShortId(key) + ")")];
    b.PeerData(cid, key, PeerFrame(hello));
  }

  /**
   * A peer connects and announces itself under `peerName`. The peer alone is
   * sent the local user's announcement; the client sees the peer's arrival
   * and the announcement labelled "<peerName> (<short id>)"; the peer map
   * records the name.
   */
  method PeerArrivesNamed(b: Bridge, cid: ClientId, key: PeerId, peerName: string, now: int)
    requires b.Valid() && cid in b.clients
    requires b.clients[cid].swarm.Swarm? && b.clients[cid].swarm.id in b.listeners
    requires JsText(b.clients[cid].username).Some?
    modifies b
    ensures b.Valid() && cid in b.clients
    ensures var c := old(b.clients[cid]);
            JoinAnnouncement(c.username, c.room, now).Some? &&
            b.peerWrites == old(b.peerWrites) + [Write(cid, key, JoinAnnouncement(c.username, c.room, now).value)]
    ensures key in b.clients[cid].peers.entries
    ensures b.clients[cid].peers.entries[key] == PeerEntry(Str(peerName), true)
    ensures b.wsOut == old(b.wsOut) +
              [Sent(cid, PeerConnected(ShortId(key))),
               Sent(cid, Message(map["type" := Str("join"), "sender" := Str(peerName + " (" + ShortId(key) + ")")]))]
  {
    b.PeerConnection(cid, key, now);
    PeerAnnounces(b, cid, key, peerName);
  }

  /**
   * A chat frame without a sender, `{type: "chat", content}`, reaches the
   * client labelled "undefined (<short id>)", and changes no client state.
   */
  method AnonymousChat(b: Bridge, cid: ClientId, key: PeerId, text: Value)
    requires b.Valid() && cid in b.clients
    modifies b
    ensures b.Valid() && b.clients == old(b.clients) && b.peerWrites == old(b.peerWrites)
    ensures b.wsOut == old(b.wsOut) +
              [Sent(cid, Message(map["type" := Str("chat"), "content" := text,
                                     "sender" := Str("undefined (" + ShortId(key) + ")")]))]
  {
    var chat := map["type" := Str("chat"), "content" := text];
    AnonymousFrameForwarded(chat, ShortId(key));
    assert !IsJoin(chat);
    b.PeerData(cid, key, PeerFrame(chat));
  }

  /**
   * After a peer has announced itself under `peerName`, its chat frame
   * without a sender is still labelled "undefined (<short id>)": a forwarded
   * frame names its own sender, never the name the peer map recorded, which
   * is read nowhere.
   */
  method AnnounceThenChat(b: Bridge, cid: ClientId, key: PeerId, peerName: string, text: Value, now: int)
    requires b.Valid() && cid in b.clients
    requires b.clients[cid].swarm.Swarm? && b.clients[cid].swarm.id in b.listeners
    requires JsText(b.clients[cid].username).Some?
    modifies b
    ensures cid in b.clients && key in b.clients[cid].peers.entries
    ensures b.clients[cid].peers.entries[key] == PeerEntry(Str(peerName), true)
    ensures |b.wsOut| == |old(b.wsOut)| + 3
    ensures b.wsOut[|old(b.wsOut)| + 2].envelope.Message?
    ensures var m := b.wsOut[|old(b.wsOut)| + 2].envelope.forwarded;
              "sender" in m && m["sender"] == Str("undefined (" + ShortId(key) + ")") &&
              "content" in m && m["content"] == text
  {
    PeerArrivesNamed(b, cid, key, peerName, now);
    AnonymousChat(b, cid, key, text);
  }

  /**
   * A peer that connects and closes without sending anything: one
   * peer-connected, then one peer-disconnected, and its entry stays, marked
   * not connected.
   */
  method ConnectThenCloseRun(b: Bridge, cid: ClientId, key: PeerId, now: int)
    requires b.Valid() && cid in b.clients
    requires b.clients[cid].swarm.Swarm? && b.clients[cid].swarm.id in b.listeners
    requires JsText(b.clients[cid].username).Some?
    modifies b
    ensures b.Valid() && cid in b.clients
    ensures b.wsOut == old(b.wsOut) + [Sent(cid, PeerConnected(ShortId(key))), Sent(cid, PeerDisconnected(ShortId(key)))]
    ensures key in b.clients[cid].peers.entries
    ensures b.clients[cid].peers.entries[key] == PeerEntry(Str(UnknownPeer), false)
  {
    b.PeerConnection(cid, key, now);
    b.PeerClose(cid, key);
  }

  /**
   * A username object with a `toString` property of its own: the listener
   * throws at its first line, so a new peer is neither registered nor
   * announced, and the client hears nothing of it.
   */
  method UnprintableUsername(b: Bridge, cid: ClientId, key: PeerId, now: int)
    requires b.Valid() && cid in b.clients
    requires b.clients[cid].swarm.Swarm? && b.clients[cid].swarm.id in b.listeners
    requires b.clients[cid].username.Obj? && "toString" in b.clients[cid].username.fields
    modifies b
    ensures b.clients == old(b.clients) && b.wsOut == old(b.wsOut) && b.peerWrites == old(b.peerWrites)
  {
    b.PeerConnection(cid, key, now);
  }

  /**
   * A join frame whose sender is an object with a `toString` property of its
   * own renames the peer to that object, and then fails to be forwarded.
   */
  method UnprintableSender(b: Bridge, cid: ClientId, key: PeerId, name: map<string, Value>)
    requires b.Valid() && cid in b.clients && key in b.clients[cid].peers.entries
    requires "toString" in name
    modifies b
    ensures cid in b.clients && key in b.clients[cid].peers.entries
    ensures b.clients[cid].peers.entries[key].username == Obj(name)
    ensures b.wsOut == old(b.wsOut)
  {
    var hello := map["type" := Str("join"), "sender" := Obj(name)];
    assert IsJoin(hello) && Get(hello, "sender") == Obj(name);
    b.PeerData(cid, key, PeerFrame(hello));
  }

  /** A broadcast writes nothing to a peer whose stream has closed. */
  method ClosedPeerSkipped(b: Bridge, cid: ClientId, key: PeerId, content: Value, now: int)
    requires b.Valid() && cid in b.clients
    requires key in b.clients[cid].peers.entries && !b.clients[cid].peers.entries[key].connected
    modifies b
    ensures forall i | |old(b.peerWrites)| <= i < |b.peerWrites| :: b.peerWrites[i].peer != key
  {
    var peers := b.clients[cid].peers;
    BroadcastReachesConnected(peers, key);
    assert key !in peers.ConnectedPeers();
    b.SendMessage(cid, content, now);
  }

  /** Each target of a run of writes of one frame gets as many writes as it occurs among the targets. */
  lemma {:induction false} WritesCount(cid: ClientId, targets: seq<PeerId>, f: Frame, p: PeerId)
    ensures multiset(Writes(cid, targets, f))[Write(cid, p, f)] == multiset(targets)[p]
  {
    if targets != [] {
      var init := targets[..|targets| - 1];
      assert targets == init + [targets[|targets| - 1]];
      WritesCount(cid, init, f, p);
    }
  }

  /**
   * Joining again destroys the swarm the client held but keeps its peers:
   * every peer still marked connected gets exactly one write of the next
   * broadcast, now stamped with the new room.
   */
  method RejoinKeepsPeers(b: Bridge, cid: ClientId, room: string, sw: SwarmId, localKey: string, key: PeerId, now: int)
    requires b.Valid() && cid in b.clients && sw !in b.created
    requires b.clients[cid].swarm.Swarm?
    requires key in b.clients[cid].peers.entries && b.clients[cid].peers.entries[key].connected
    modifies b
    ensures old(b.clients[cid]).swarm.id in b.destroyed && cid in b.clients
    ensures b.clients[cid].peers == old(b.clients[cid]).peers
    ensures multiset(b.peerWrites)[Write(cid, key, ChatMessage(b.clients[cid].username, Str("hi"), Str(room), now))]
            == multiset(old(b.peerWrites))[Write(cid, key, ChatMessage(b.clients[cid].username, Str("hi"), Str(room), now))] + 1
  {
    var user := b.clients[cid].username;
    b.JoinRoom(cid, user, Str(room), sw, localKey, "");
    var before := b.peerWrites;
    b.SendMessage(cid, Str("hi"), now);
    var c := b.clients[cid];
    var f := ChatMessage(user, Str("hi"), Str(room), now);
    BroadcastReachesConnected(c.peers, key);
    WritesCount(cid, c.peers.ConnectedPeers(), f, key);
    assert b.peerWrites == before + Writes(cid, c.peers.ConnectedPeers(), f);
  }

  /**
   * After leave-room has emptied the peer map, the close of a peer of the
   * destroyed swarm still reports peer-disconnected to the client.
   */
  method CloseAfterLeave(b: Bridge, cid: ClientId, key: PeerId)
    requires b.Valid() && cid in b.clients && b.clients[cid].swarm.Swarm?
    modifies b
    ensures cid in b.clients && b.clients[cid].peers.entries == map[]
    ensures b.wsOut == old(b.wsOut) + [Sent(cid, LeaveSuccess), Sent(cid, PeerDisconnected(ShortId(key)))]
  {
    b.LeaveRoom(cid);
    b.PeerClose(cid, key);
  }

  /** A disconnect destroys the held swarm and removes the entry; other clients are untouched. */
  method DisconnectRun(b: Bridge, cid: ClientId, other: ClientId)
    requires b.Valid() && cid in b.clients && other in b.clients && other != cid
    modifies b
    ensures cid !in b.clients && other in b.clients && b.clients[other] == old(b.clients[other])
    ensures b.clients[other].swarm.Swarm? ==> b.clients[other].swarm.id !in b.destroyed
  {
    b.Disconnect(cid);
  }
}
