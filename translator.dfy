/**
 * The two message universes the bridge translates between: the JSON
 * envelopes exchanged with a browser client and the frames exchanged with
 * peers over the overlay's byte streams, and the pure translation between
 * them (short peer ids and the decoration of an inbound peer's sender).
 */
module Translator {
  import opened Wrappers
  import opened Values

  /** A full peer id: the hex text of an overlay public key. */
  type PeerId = string

  /**
   * The short form of a hex key shown to users: `key.substring(0, 6)`, which
   * is the whole key when it is shorter than six characters.
   */
  function ShortId(key: string): (short: string)
    ensures |short| == if |key| < 6 then |key| else 6
    ensures short <= key
    ensures |key| >= 6 ==> forall i | 0 <= i < 6 :: short[i] == key[i]
  {
    if |key| <= 6 then key else key[..6]
  }

  // ---------------------------------------------------------------- to peers

  datatype FrameType = Join | Chat

  /** A frame the bridge writes to a peer stream. */
  datatype Frame = Frame(kind: FrameType, sender: Value, content: Value, timestamp: int, room: Value)
  {
    /**
     * The object a receiving bridge parses back from the frame's JSON text;
     * `JSON.stringify` leaves out the properties whose value is undefined.
     */
    function Fields(): (m: map<string, Value>)
      ensures Get(m, "type") == Str(if kind == Join then "join" else "chat")
      ensures Get(m, "sender") == sender && Get(m, "content") == content
      ensures Get(m, "room") == room && Get(m, "timestamp") == Num(timestamp)
      ensures m.Keys <= {"type", "sender", "content", "timestamp", "room"}
      ensures forall k | k in m :: !m[k].Undefined?
    {
      var o := map["type" := Str(if kind == Join then "join" else "chat"), "sender" := sender,
                   "content" := content, "timestamp" := Num(timestamp), "room" := room];
      assert o.Keys == {"type", "sender", "content", "timestamp", "room"};
      assert o["type"] == Str(if kind == Join then "join" else "chat") && o["sender"] == sender;
      assert o["content"] == content && o["timestamp"] == Num(timestamp) && o["room"] == room;
      Serialised(o)
    }
  }

  /**
   * An object as it reads back after `JSON.stringify` and `JSON.parse`: the
   * properties whose value is undefined are not written, so every property
   * reads back as it was, and no undefined value remains stored.
   */
  function Serialised(o: map<string, Value>): (m: map<string, Value>)
    ensures forall k | k in o :: Get(m, k) == o[k]
    ensures m.Keys <= o.Keys
    ensures forall k | k in m :: !m[k].Undefined?
  {
    map k | k in o && !o[k].Undefined? :: o[k]
  }

  /**
   * The point-to-point announcement written to a newly connected peer, or
   * None when the username has no text, so that formatting it throws.
   */
  function JoinAnnouncement(username: Value, room: Value, now: int): (f: Option<Frame>)
    ensures f.Some? <==> JsText(username).Some?
    ensures f.Some? ==>
              var m := f.value.Fields();
              && Get(m, "type") == Str("join") && Get(m, "sender") == username
              && Get(m, "content") == Str(JsText(username).value + " joined the chat")
              && Get(m, "room") == room && Get(m, "timestamp") == Num(now)
  {
    var text := JsText(username);
    if text.None? then None
    else Some(Frame(Join, username, Str(text.value + " joined the chat"), now, room))
  }

  /** The frame a `send-message` request broadcasts. */
  function ChatMessage(username: Value, content: Value, room: Value, now: int): (f: Frame)
    ensures var m := f.Fields();
            && Get(m, "type") == Str("chat") && Get(m, "sender") == username
            && Get(m, "content") == content && Get(m, "room") == room && Get(m, "timestamp") == Num(now)
  {
    Frame(Chat, username, content, now, room)
  }

  // ----------------------------------------------------------- from peers

  /** One `data` event of a peer stream: a parsed JSON object, or text that does not parse. */
  datatype PeerInput = PeerFrame(fields: map<string, Value>) | Unparseable

  /** A peer frame whose `type` is "join" announces the peer's username. */
  predicate IsJoin(fields: map<string, Value>)
  {
    Get(fields, "type") == Str("join")
  }

  /**
   * `"${sender} (${short})"`: a peer's own sender text labelled with its
   * short id, or None when the sender has no text.
   */
  function DecoratedSender(sender: Value, short: string): (r: Option<string>)
  {
    var text := JsText(sender);
    if text.None? then None else Some(text.value + " (" + short + ")")
  }

  /**
   * The message forwarded to the client for a parsed peer frame: every
   * property of the frame is kept except `sender`, which is set to the
   * decorated sender text (and added if the frame had none). When the
   * sender has no text, building the message throws and nothing is
   * forwarded.
   */
  function Decorate(fields: map<string, Value>, short: string): (message: Option<map<string, Value>>)
    ensures message.Some? <==> JsText(Get(fields, "sender")).Some?
    ensures message.Some? ==> message.value.Keys == fields.Keys + {"sender"}
    ensures message.Some? ==> forall k | k in fields && k != "sender" :: message.value[k] == fields[k]
    ensures message.Some? ==>
              message.value["sender"].Str? &&
              |message.value["sender"].s| == |JsText(Get(fields, "sender")).value| + |short| + 3
  {
    var sender := DecoratedSender(Get(fields, "sender"), short);
    if sender.None? then None else Some(fields["sender" := Str(sender.value)])
  }

  /**
   * What a client can recover from a decorated sender text when it knows the
   * short id: the peer's own sender text, or None if the text does not end in
   * that tag.
   */
  function Undecorate(text: string, short: string): (r: Option<string>)
    ensures r.Some? ==> text == r.value + " (" + short + ")"
  {
    var tag := " (" + short + ")";
    if |tag| <= |text| && text[|text| - |tag|..] == tag
    then Some(text[..|text| - |tag|])
    else None
  }

  /**
   * Decoration loses nothing: the peer's sender text is recovered from every
   * forwarded message.
   */
  lemma DecorationRoundTrip(fields: map<string, Value>, short: string)
    ensures Decorate(fields, short).Some? ==>
              var sender := Decorate(fields, short).value["sender"];
              sender.Str? && Undecorate(sender.s, short) == JsText(Get(fields, "sender"))
  {
    var text := JsText(Get(fields, "sender"));
    if text.Some? {
      var tag := " (" + short + ")";
      var decorated := text.value + tag;
      assert Decorate(fields, short).value["sender"].s == decorated;
      assert decorated[|decorated| - |tag|..] == tag;
      assert decorated[..|decorated| - |tag|] == text.value;
    }
  }

  /** A frame whose sender is a string is forwarded with that string labelled by the short id. */
  lemma NamedFrameForwarded(fields: map<string, Value>, name: string, short: string)
    requires Get(fields, "sender") == Str(name)
    ensures Decorate(fields, short) == Some(fields["sender" := Str(name + " (" + short + ")")])
  {
  }

  /**
   * A frame without a sender, such as a bare `{type: "chat", content}`, is
   * forwarded as sent by "undefined", labelled with the short id.
   */
  lemma AnonymousFrameForwarded(fields: map<string, Value>, short: string)
    requires "sender" !in fields
    ensures Decorate(fields, short) == Some(fields["sender" := Str("undefined (" + short + ")")])
  {
    assert JsText(Get(fields, "sender")) == JsText(Undefined) == Some("undefined");
    assert "undefined" + " (" == "undefined (";
    assert DecoratedSender(Undefined, short) == Some("undefined (" + short + ")");
  }

  /**
   * A join announcement from one bridge, parsed by the bridge at the other end,
   * is recognised as a join that names the announcing user, and is forwarded
   * to that bridge's client with the user's name labelled by the short id.
   */
  lemma AnnouncementIdentifiesSender(username: string, room: Value, now: int, key: PeerId)
    ensures JoinAnnouncement(Str(username), room, now).Some?
    ensures var m := JoinAnnouncement(Str(username), room, now).value.Fields();
            && IsJoin(m) && Get(m, "sender") == Str(username)
            && Decorate(m, ShortId(key)).Some?
            && Decorate(m, ShortId(key)).value["sender"] == Str(username + " (" + ShortId(key) + ")")
    ensures Undecorate(username + " (" + ShortId(key) + ")", ShortId(key)) == Some(username)
  {
    var m := JoinAnnouncement(Str(username), room, now).value.Fields();
    DecorationRoundTrip(m, ShortId(key));
  }

  // ------------------------------------------------------------- to clients

  /** A JSON envelope the bridge sends to its browser client. */
  datatype Envelope =
    | JoinSuccess(peerId: string)
    | Message(forwarded: map<string, Value>)
    | PeerConnected(peerId: string)
    | PeerDisconnected(peerId: string)
    | SendSuccess
    | LeaveSuccess
    | Error(message: string)

  /** One frame from the client: a parsed JSON object, or text `JSON.parse` rejects with a fault. */
  datatype ClientInput = ClientFrame(fields: map<string, Value>) | Malformed(fault: string)
}
