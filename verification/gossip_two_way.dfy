/** The bidirectional gossip peer (class `GossipTwoWay`): gossip runs out
    along the path 0 .. N-1, is turned around by the last peer and runs
    back to peer 0. */
module GossipTwoWay {
  import opened Options
  import opened Messages
  import PyInt

  /** One peer: its identity, the number of devices, the secrets it knows,
      its successor `n1` and its predecessor `n2` on the ring. */
  datatype Peer = Peer(index: int, devices: int, secrets: set<int>, n1: int, n2: int)

  /** The peer as constructed: it knows only its own secret; its neighbours
      are the next and previous identities, wrapping around the ring, so
      peer 0's predecessor is the last peer. */
  function Init(index: int, devices: int): (p: Peer)
    requires devices != 0
    ensures p.index == index && p.devices == devices
    ensures p.secrets == {index}
    ensures devices > 0 ==> 0 <= p.n1 < devices && 0 <= p.n2 < devices
    ensures 0 <= index < devices ==> p.n1 == (if index + 1 == devices then 0 else index + 1)
    ensures 0 <= index < devices ==> p.n2 == (if index == 0 then devices - 1 else index - 1)
  {
    PyInt.ModSucc(index, devices);
    PyInt.ModPred(index, devices);
    Peer(index, devices, {index}, PyInt.Mod(index + 1, devices), PyInt.Mod(index - 1, devices))
  }

  /** The guard of the receive loop. */
  predicate Running(p: Peer)
  {
    |p.secrets| != p.devices
  }

  /** The message the peer sends to `to`: its current secrets. */
  function Outgoing(p: Peer, to: int): GossipMessage
  {
    GossipMessage(p.index, to, p.secrets)
  }

  /** What the peer sends before entering its loop. */
  function Start(p: Peer): (out: Option<GossipMessage>)
    ensures out.Some? <==> p.index == 0
    ensures out.Some? ==> out.value.source == p.index
    ensures out.Some? ==> out.value.destination == p.n1 && out.value.secrets == p.secrets
  {
    if p.index == 0 then Some(Outgoing(p, p.n1)) else None
  }

  /** Only peer 0 starts the gossip, with its own secret, to its successor. */
  lemma InitialSend(index: int, devices: int)
    requires 0 <= index < devices
    ensures Start(Init(index, devices)) ==
      if index == 0 then Some(GossipMessage(0, if devices == 1 then 0 else 1, {0})) else None
  {
  }

  /** Where an interior peer relays a message: onward to the successor when
      it came from the predecessor, and back to the predecessor otherwise. */
  function RelayTarget(p: Peer, m: GossipMessage): (to: int)
    ensures to == p.n1 || to == p.n2
    ensures m.source == p.n2 ==> to == p.n1
    ensures m.source != p.n2 ==> to == p.n2
  {
    if p.n2 == m.source then p.n1 else p.n2
  }

  /** A relayed message never goes back to the neighbour it came from, as
      long as the two neighbours are distinct peers. */
  lemma RelayAvoidsSender(p: Peer, m: GossipMessage)
    requires m.source == p.n1 || m.source == p.n2
    requires p.n1 != p.n2
    ensures RelayTarget(p, m) != m.source
    ensures RelayTarget(p, m) == p.n1 || RelayTarget(p, m) == p.n2
  {
  }

  /** Handling a received message: learn its secrets, then the last peer
      always reflects to its predecessor, peer 0 never sends, and any other
      peer relays away from the sender. */
  function Receive(p: Peer, m: GossipMessage): (r: (Peer, Option<GossipMessage>))
    ensures r.0.index == p.index && r.0.devices == p.devices && r.0.n1 == p.n1 && r.0.n2 == p.n2
    ensures p.secrets <= r.0.secrets && m.secrets <= r.0.secrets
    ensures forall s :: s in r.0.secrets ==> s in p.secrets || s in m.secrets
    ensures m.secrets <= p.secrets ==> r.0 == p
    ensures r.1.Some? ==> r.1.value.source == p.index && r.1.value.secrets == r.0.secrets
    ensures r.1.Some? ==> r.1.value.destination == p.n1 || r.1.value.destination == p.n2
    ensures p.index + 1 == p.devices ==> r.1.Some? && r.1.value.destination == p.n2
    ensures p.index + 1 != p.devices && p.index == 0 ==> r.1.None?
    ensures p.index + 1 != p.devices && p.index != 0 ==>
      r.1.Some? && r.1.value.destination == RelayTarget(p, m)
  {
    var p' := p.(secrets := p.secrets + m.secrets);
    if p.index + 1 == p.devices then (p', Some(Outgoing(p', p.n2)))
    else if p.index != 0 then (p', Some(Outgoing(p', RelayTarget(p, m))))
    else (p', None)
  }

  /** One pass of the receive loop, which runs only while the guard holds:
      with no message nothing changes and nothing is sent. */
  function Round(p: Peer, incoming: Option<GossipMessage>): (r: (Peer, Option<GossipMessage>))
    requires Running(p)
    ensures incoming.None? ==> r.0 == p && r.1 == None
    ensures incoming.Some? ==> r == Receive(p, incoming.value)
  {
    match incoming
    case None => (p, None)
    case Some(m) => Receive(p, m)
  }
}
