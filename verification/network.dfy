/** A group of peers of one variant and the messages between them. The
    round-synchronous medium is replaced by a sequential one: the messages
    in flight are delivered one at a time, oldest first. */
module Network {
  import opened Options
  import opened Messages
  import Gossip
  import GossipTwoWay

  datatype Variant = OneDirectional | Bidirectional

  /** A peer of either variant. */
  datatype Node = One(g: Gossip.Peer) | Two(t: GossipTwoWay.Peer)

  function InitNode(v: Variant, index: int, devices: int): Node
    requires devices != 0
  {
    match v
    case OneDirectional => One(Gossip.Init(index, devices))
    case Bidirectional => Two(GossipTwoWay.Init(index, devices))
  }

  function Index(node: Node): int
  {
    match node
    case One(g) => g.index
    case Two(t) => t.index
  }

  function Secrets(node: Node): set<int>
  {
    match node
    case One(g) => g.secrets
    case Two(t) => t.secrets
  }

  predicate Running(node: Node)
  {
    match node
    case One(g) => Gossip.Running(g)
    case Two(t) => GossipTwoWay.Running(t)
  }

  function Start(node: Node): Option<GossipMessage>
  {
    match node
    case One(g) => Gossip.Start(g)
    case Two(t) => GossipTwoWay.Start(t)
  }

  /** A running peer's loop pass that receives `m`: the peer keeps its
      identity and variant and learns exactly the secrets of `m`. */
  function Receive(node: Node, m: GossipMessage): (r: (Node, Option<GossipMessage>))
    requires Running(node)
    ensures r.0.One? == node.One?
    ensures Index(r.0) == Index(node)
    ensures Secrets(r.0) == Secrets(node) + m.secrets
    ensures r.1.Some? ==> r.1.value.source == Index(node) && r.1.value.secrets == Secrets(r.0)
  {
    match node
    case One(g) =>
      var res := Gossip.Round(g, Some(m));
      (One(res.0), res.1)
    case Two(t) =>
      var res := GossipTwoWay.Round(t, Some(m));
      (Two(res.0), res.1)
  }

  /** The whole group: the peers by identity, the messages in flight in
      sending order, how many messages were sent and delivered, and the
      messages that reached a peer whose loop had already ended (or no
      peer at all), which nobody will ever receive. */
  datatype Net = Net(peers: seq<Node>, inFlight: seq<GossipMessage>, sent: nat, delivered: nat,
                     stranded: seq<GossipMessage>)

  /** Every message sent is delivered, stranded or still in flight. */
  predicate Accounted(net: Net)
  {
    net.sent == net.delivered + |net.stranded| + |net.inFlight|
  }

  /** The messages the peers from `i` on send before entering their loops. */
  function Launch(peers: seq<Node>, i: nat): (out: seq<GossipMessage>)
    requires i <= |peers|
    ensures (forall j :: i <= j < |peers| ==> Index(peers[j]) != 0) ==> out == []
    ensures |out| <= |peers| - i
    decreases |peers| - i
  {
    if i == |peers| then [] else Start(peers[i]).ToSeq() + Launch(peers, i + 1)
  }

  /** The group as started: peer `j` has identity `j`, and the only message
      in flight is peer 0's own secret on its way to its successor. A group
      of no devices has no peers and sends nothing. */
  function Boot(v: Variant, n: nat): (net: Net)
    ensures |net.peers| == n
    ensures forall j :: 0 <= j < n ==> net.peers[j] == InitNode(v, j, n)
    ensures n >= 1 ==> net.inFlight == [GossipMessage(0, if n == 1 then 0 else 1, {0})]
    ensures n >= 1 ==> net.sent == 1
    ensures n == 0 ==> net.inFlight == [] && net.sent == 0
    ensures net.delivered == 0 && net.stranded == []
  {
    var peers := seq(n, j requires 0 <= j < n => InitNode(v, j, n));
    var out := Launch(peers, 0);
    Net(peers, out, |out|, 0, [])
  }

  /** Delivers the oldest message in flight. A running addressee takes it
      through one pass of its loop and whatever it sends joins the end of
      the queue; otherwise the message is stranded. Only the addressee
      changes. */
  function Deliver(net: Net): (r: Net)
    requires net.inFlight != []
    ensures |r.peers| == |net.peers|
    ensures forall i :: 0 <= i < |net.peers| && i != net.inFlight[0].destination ==> r.peers[i] == net.peers[i]
    ensures Accounted(net) ==> Accounted(r)
    ensures r.delivered + |r.stranded| == net.delivered + |net.stranded| + 1
    ensures net.stranded <= r.stranded
    ensures r.stranded != net.stranded ==> r.peers == net.peers && r.sent == net.sent
    ensures r.sent != net.sent ==>
      0 <= net.inFlight[0].destination < |net.peers| && Running(net.peers[net.inFlight[0].destination])
    ensures r.stranded == net.stranded <==>
      0 <= net.inFlight[0].destination < |net.peers| && Running(net.peers[net.inFlight[0].destination])
  {
    var m := net.inFlight[0];
    var d := m.destination;
    if 0 <= d < |net.peers| && Running(net.peers[d]) then
      var res := Receive(net.peers[d], m);
      var out := res.1.ToSeq();
      Net(net.peers[d := res.0], net.inFlight[1..] + out, net.sent + |out|, net.delivered + 1, net.stranded)
    else
      Net(net.peers, net.inFlight[1..], net.sent, net.delivered, net.stranded + [m])
  }

  /** Delivers messages until none is in flight or `steps` have been
      delivered. It stops early only when the group has gone quiet. */
  function Run(net: Net, steps: nat): (r: Net)
    ensures |r.peers| == |net.peers|
    ensures Accounted(net) ==> Accounted(r)
    ensures net.stranded <= r.stranded
    ensures r.delivered + |r.stranded| <= net.delivered + |net.stranded| + steps
    ensures r.inFlight == [] || r.delivered + |r.stranded| == net.delivered + |net.stranded| + steps
    decreases steps
  {
    if steps == 0 || net.inFlight == [] then net else Run(Deliver(net), steps - 1)
  }

  /** A delivery never makes a peer forget a secret, and the addressee of a
      delivered message learns all of its secrets. */
  lemma DeliverLearns(net: Net, i: int)
    requires net.inFlight != [] && 0 <= i < |net.peers|
    ensures Secrets(net.peers[i]) <= Secrets(Deliver(net).peers[i])
    ensures i == net.inFlight[0].destination && Running(net.peers[i]) ==>
      net.inFlight[0].secrets <= Secrets(Deliver(net).peers[i])
  {
  }

  /** Knowledge only grows, however many messages are delivered. */
  lemma {:induction false} RunLearns(net: Net, steps: nat, i: int)
    requires 0 <= i < |net.peers|
    ensures Secrets(net.peers[i]) <= Secrets(Run(net, steps).peers[i])
    decreases steps
  {
    if steps > 0 && net.inFlight != [] {
      DeliverLearns(net, i);
      RunLearns(Deliver(net), steps - 1, i);
    }
  }

  /** The number of messages either protocol needs on `n` devices. */
  function Total(n: int): int
  {
    2 * (n - 1)
  }

  /** The stage reached after `steps` deliveries, when the run ends at
      stage `Total(n)`. */
  function Reached(n: int, steps: nat): int
  {
    if steps <= Total(n) then steps else Total(n)
  }

  /** Induction over a run: if a delivery always takes a group at stage
      `i` < `total` to stage i + 1, and a group at stage `total` has nothing
      in flight, then running from stage `k` reaches stage k + steps, or
      `total` if that comes first. */
  lemma {:induction false} RunStages(net: Net, k: nat, steps: nat, total: nat, stage: (Net, int) -> bool)
    requires k <= total && stage(net, k)
    requires forall x: Net, i: int :: 0 <= i < total && stage(x, i) ==> x.inFlight != [] && stage(Deliver(x), i + 1)
    requires forall x: Net :: stage(x, total) ==> x.inFlight == []
    ensures stage(Run(net, steps), if k + steps <= total then k + steps else total)
    decreases steps
  {
    if steps == 0 {
      assert Run(net, steps) == net;
    } else if k == total {
      assert net.inFlight == [];
      assert Run(net, steps) == net;
    } else {
      var next := Deliver(net);
      assert stage(next, k + 1);
      assert Run(net, steps) == Run(next, steps - 1);
      RunStages(next, k + 1, steps - 1, total, stage);
    }
  }

  /** A single device: peer 0 already knows every secret, so its loop never
      runs, yet it still sends its secret to its own successor, itself;
      that message is never received. */
  lemma SinglePeer(v: Variant, steps: nat)
    requires steps >= 1
    ensures var r := Run(Boot(v, 1), steps);
      && |r.peers| == 1
      && Secrets(r.peers[0]) == {0} && !Running(r.peers[0])
      && r.sent == 1 && r.delivered == 0
      && r.inFlight == [] && r.stranded == [GossipMessage(0, 0, {0})]
  {
    var b := Boot(v, 1);
    assert Secrets(b.peers[0]) == {0};
    assert !Running(b.peers[0]);
    var d := Deliver(b);
    assert d.inFlight == [];
    assert Run(b, steps) == Run(d, steps - 1);
  }

  /** A peer that has left its loop never changes again, however many
      messages are delivered: whatever reaches it is stranded. */
  lemma {:induction false} RunKeepsFinished(net: Net, steps: nat, i: int)
    requires 0 <= i < |net.peers| && !Running(net.peers[i])
    ensures Run(net, steps).peers[i] == net.peers[i]
    decreases steps
  {
    if steps > 0 && net.inFlight != [] {
      RunKeepsFinished(Deliver(net), steps - 1, i);
    }
  }
}
