/**
 * The per-client peer registry: a JavaScript `Map` from full peer id to the
 * peer's entry. A `Map` iterates in the order its keys were first set, so the
 * registry keeps that order beside the entries.
 */
module Registry {
  import opened Values
  import opened Translator

  /** What the bridge records of one peer connection. */
  datatype PeerEntry = PeerEntry(username: Value, connected: bool)

  datatype PeerRegistry = PeerRegistry(order: seq<PeerId>, entries: map<PeerId, PeerEntry>)
  {
    /** Every key appears once in the iteration order, and the order holds exactly the keys. */
    ghost predicate Valid()
    {
      && Distinct(order)
      && (forall k | k in order :: k in entries)
      && (forall k | k in entries :: k in order)
    }

    /** The peers `for (const peer of peers.values()) if (peer.connected)` visits. */
    function ConnectedPeers(): seq<PeerId>
      requires Valid()
    {
      Connected(order, entries)
    }
  }

  ghost predicate Distinct(s: seq<PeerId>)
  {
    forall i, j | 0 <= i < j < |s| :: s[i] != s[j]
  }

  /** `new Map()` and `peers.clear()`. */
  function Empty(): (r: PeerRegistry)
    ensures r.Valid() && r.entries == map[] && r.order == []
  {
    PeerRegistry([], map[])
  }

  /**
   * `peers.set(k, e)`: the entry for `k` becomes `e`; a new key is iterated
   * last, a key already present keeps its place.
   */
  function Set(r: PeerRegistry, k: PeerId, e: PeerEntry): (r': PeerRegistry)
    requires r.Valid()
    ensures r'.Valid()
    ensures r'.entries == r.entries[k := e]
    ensures k in r.entries ==> r'.order == r.order
    ensures k !in r.entries ==> r'.order == r.order + [k]
  {
    if k in r.entries then r.(entries := r.entries[k := e])
    else PeerRegistry(r.order + [k], r.entries[k := e])
  }

  /**
   * The keys of `order` whose entries are connected, in order. Defined on the
   * last key so that a loop over a growing prefix of `order` extends it.
   */
  function Connected(order: seq<PeerId>, entries: map<PeerId, PeerEntry>): (ps: seq<PeerId>)
    requires forall k | k in order :: k in entries
    ensures forall p | p in ps :: p in order && entries[p].connected
    ensures |ps| <= |order|
  {
    if order == [] then []
    else
      var last := order[|order| - 1];
      Connected(order[..|order| - 1], entries) + (if entries[last].connected then [last] else [])
  }

  /** Over keys without repeats, each connected key is selected exactly once and no other key at all. */
  lemma {:induction false} ConnectedOnce(order: seq<PeerId>, entries: map<PeerId, PeerEntry>, p: PeerId)
    requires forall k | k in order :: k in entries
    requires Distinct(order)
    ensures multiset(Connected(order, entries))[p] == if p in order && entries[p].connected then 1 else 0
  {
    if order != [] {
      var init, last := order[..|order| - 1], order[|order| - 1];
      assert order == init + [last];
      assert Distinct(init);
      ConnectedOnce(init, entries, p);
    }
  }

  /** A broadcast over the registry reaches every connected peer exactly once and no other peer. */
  lemma BroadcastReachesConnected(r: PeerRegistry, p: PeerId)
    requires r.Valid()
    ensures multiset(r.ConnectedPeers())[p] == if p in r.entries && r.entries[p].connected then 1 else 0
  {
    ConnectedOnce(r.order, r.entries, p);
  }
}
