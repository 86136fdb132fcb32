/** The one-directional gossip peer (class `Gossip`): every peer forwards
    what it knows to its successor on the ring, started by peer 0. */
module Gossip {
  import opened Options
  import opened Messages
  import PyInt

  /** One peer: its identity, the number of devices, the secrets it knows,
      and its successor on the ring. */
  datatype Peer = Peer(index: int, devices: int, secrets: set<int>, neighbour: int)

  /** The peer as constructed: it knows only its own secret, and its
      neighbour is the next identity on the ring, wrapping to 0. */
  function Init(index: int, devices: int): (p: Peer)
    requires devices != 0
    ensures p.index == index && p.devices == devices
    ensures p.secrets == {index}
    ensures devices > 0 ==> 0 <= p.neighbour < devices
    ensures 0 <= index < devices ==> p.neighbour == (if index + 1 == devices then 0 else index + 1)
  {
    PyInt.ModSucc(index, devices);
    Peer(index, devices, {index}, PyInt.Mod(index + 1, devices))
  }

  /** The guard of the receive loop: the peer keeps going while it does not
      yet know as many secrets as there are devices. */
  predicate Running(p: Peer)
  {
    |p.secrets| != p.devices
  }

  /** The message the peer sends: its current secrets, to its neighbour. */
  function Outgoing(p: Peer): GossipMessage
  {
    GossipMessage(p.index, p.neighbour, p.secrets)
  }

  /** What the peer sends before entering its loop. */
  function Start(p: Peer): (out: Option<GossipMessage>)
    ensures out.Some? <==> p.index == 0
    ensures out.Some? ==> out.value.source == p.index
    ensures out.Some? ==> out.value.destination == p.neighbour && out.value.secrets == p.secrets
  {
    if p.index == 0 then Some(Outgoing(p)) else None
  }

  /** Only peer 0 starts the gossip, with its own secret, to its successor. */
  lemma InitialSend(index: int, devices: int)
    requires 0 <= index < devices
    ensures Start(Init(index, devices)) ==
      if index == 0 then Some(GossipMessage(0, if devices == 1 then 0 else 1, {0})) else None
  {
  }

  /** The one exception to forwarding: the neighbour is the last device and
      the received payload already held a secret per device. */
  predicate Suppressed(p: Peer, m: GossipMessage)
  {
    p.neighbour + 1 == p.devices && p.devices == |m.secrets|
  }

  /** On a ring of at least two devices, only the second-to-last peer can
      suppress; on a single-device ring, peer 0 is its own successor and can. */
  lemma SuppressionSite(index: int, devices: int)
    requires 0 <= index < devices
    ensures Init(index, devices).neighbour + 1 == devices <==> index + 2 == devices || devices == 1
  {
  }

  /** The last peer of a ring of two or more devices never suppresses:
      whatever it receives, it forwards its secrets to peer 0. */
  lemma LastPeerForwards(devices: int, m: GossipMessage)
    requires devices >= 2
    ensures var p := Init(devices - 1, devices);
      Receive(p, m).1 == Some(GossipMessage(devices - 1, 0, p.secrets + m.secrets))
  {
  }

  /** Handling a received message: learn its secrets, then forward the
      updated set to the neighbour unless the forward is suppressed. */
  function Receive(p: Peer, m: GossipMessage): (r: (Peer, Option<GossipMessage>))
    ensures r.0.index == p.index && r.0.devices == p.devices && r.0.neighbour == p.neighbour
    ensures p.secrets <= r.0.secrets && m.secrets <= r.0.secrets
    ensures forall s :: s in r.0.secrets ==> s in p.secrets || s in m.secrets
    ensures m.secrets <= p.secrets ==> r.0 == p
    ensures r.1.Some? <==> !Suppressed(p, m)
    ensures r.1.Some? ==> r.1.value == GossipMessage(p.index, p.neighbour, r.0.secrets)
  {
    var p' := p.(secrets := p.secrets + m.secrets);
    if Suppressed(p, m) then (p', None) else (p', Some(Outgoing(p')))
  }

  /** One pass of the receive loop, which runs only while the guard holds:
      with no message nothing changes and nothing is sent. */
  function Round(p: Peer, incoming: Option<GossipMessage>): (r: (Peer, Option<GossipMessage>))
    requires Running(p)
    ensures incoming.None? ==> r.0 == p && r.1 == None
    ensures incoming.Some? ==> r == Receive(p, incoming.value)
  {
    match incoming
    case None => (p, None)
    case Some(m) => Receive(p, m)
  }
}
