/** End-to-end behaviour of the bidirectional path for at least two
    devices. Going out, each peer adds its secret and relays to its
    successor; peer N-1 learns everything and reflects it; coming back,
    each peer learns the full set and relays to its predecessor, and
    peer 0 receives it and sends nothing. */
module TwoWayRun {
  import opened Options
  import opened Messages
  import opened Knowledge
  import GossipTwoWay
  import opened Network

  /** What peer `j` knows after `k` deliveries. */
  function SecretsAt(n: int, k: int, j: int): set<int>
  {
    if k <= n - 1 then (if j <= k then Range(j + 1) else {j})
    else (if j >= Total(n) - k then Range(n) else Range(j + 1))
  }

  /** Peer `j` after `k` deliveries: as constructed, except for its secrets. */
  function PeerAt(n: int, k: int, j: int): Node
  {
    Two(GossipTwoWay.Peer(j, n, SecretsAt(n, k, j), if j + 1 == n then 0 else j + 1, if j == 0 then n - 1 else j - 1))
  }

  /** The message in flight after `k` deliveries, if any. */
  function InFlightAt(n: int, k: int): seq<GossipMessage>
  {
    if k < n - 1 then [GossipMessage(k, k + 1, Range(k + 1))]
    else if k < Total(n) then [GossipMessage(Total(n) - k, Total(n) - k - 1, Range(n))]
    else []
  }

  /** `net` is the group after `k` deliveries. */
  predicate IsAt(net: Net, n: int, k: int)
    requires n >= 2
  {
    && |net.peers| == n
    && (forall j :: 0 <= j < n ==> net.peers[j] == PeerAt(n, k, j))
    && net.inFlight == InFlightAt(n, k)
    && net.sent == k + |InFlightAt(n, k)|
    && net.delivered == k
    && net.stranded == []
  }

  /** The started group is stage 0. */
  lemma BootIsAt(n: int)
    requires n >= 2
    ensures IsAt(Boot(Bidirectional, n), n, 0)
  {
    assert Range(1) == {0} by {
      RangeMembers(1, 0);
      forall i | i in Range(1) ensures i == 0 { RangeMembers(1, i); }
    }
  }

  /** Going out, at the peer: interior peer k+1 hears from its predecessor,
      adds the secrets 0 .. k to its own and relays to its successor. */
  lemma OutwardReceive(n: int, k: int)
    requires n >= 2 && 0 <= k < n - 2
    ensures Running(PeerAt(n, k, k + 1))
    ensures Receive(PeerAt(n, k, k + 1), GossipMessage(k, k + 1, Range(k + 1)))
         == (PeerAt(n, k + 1, k + 1), Some(GossipMessage(k + 1, k + 2, Range(k + 2))))
  {
    RangeSize(k + 1);
    RangeMembers(k + 1, k + 1);
  }

  /** Going out, for the group: only peer k+1 changes, and its relay is the next message in flight. */
  lemma OutwardStep(net: Net, n: int, k: int)
    requires n >= 2 && 0 <= k < n - 2 && IsAt(net, n, k)
    ensures IsAt(Deliver(net), n, k + 1)
  {
    assert net.inFlight == [GossipMessage(k, k + 1, Range(k + 1))];
    OutwardReceive(n, k);
    var r := Deliver(net);
    forall j | 0 <= j < n
      ensures r.peers[j] == PeerAt(n, k + 1, j)
    {
      if j != k + 1 {
        assert SecretsAt(n, k + 1, j) == SecretsAt(n, k, j);
      }
    }
  }

  /** The turn, at the peer: peer N-1 learns everything and reflects it
      to its predecessor. */
  lemma TurnReceive(n: int)
    requires n >= 2
    ensures Running(PeerAt(n, n - 2, n - 1))
    ensures Receive(PeerAt(n, n - 2, n - 1), GossipMessage(n - 2, n - 1, Range(n - 1)))
         == (PeerAt(n, n - 1, n - 1), Some(GossipMessage(n - 1, n - 2, Range(n))))
  {
    var t := GossipTwoWay.Peer(n - 1, n, {n - 1}, 0, n - 2);
    var t' := t.(secrets := Range(n));
    assert PeerAt(n, n - 2, n - 1) == Two(t);
    assert PeerAt(n, n - 1, n - 1) == Two(t');
    assert t.secrets + Range(n - 1) == Range(n);
    assert GossipTwoWay.Receive(t, GossipMessage(n - 2, n - 1, Range(n - 1)))
        == (t', Some(GossipMessage(n - 1, n - 2, Range(n))));
  }

  /** The turn: peer N-1 learns everything and reflects it to its predecessor. */
  lemma TurnStep(net: Net, n: int)
    requires n >= 2 && IsAt(net, n, n - 2)
    ensures IsAt(Deliver(net), n, n - 1)
  {
    assert net.inFlight == [GossipMessage(n - 2, n - 1, Range(n - 1))];
    TurnReceive(n);
    assert InFlightAt(n, n - 1) == [GossipMessage(n - 1, n - 2, Range(n))];
    var r := Deliver(net);
    forall j | 0 <= j < n
      ensures r.peers[j] == PeerAt(n, n - 1, j)
    {
      if j != n - 1 {
        assert SecretsAt(n, n - 1, j) == SecretsAt(n, n - 2, j);
      }
    }
  }

  /** Coming back, at the peer: peer d hears the full set from its
      successor and relays it to its predecessor, unless it is peer 0. */
  lemma ReturnReceive(n: int, k: int, d: int)
    requires n >= 2 && n - 1 <= k < Total(n) && d == Total(n) - k - 1
    ensures Running(PeerAt(n, k, d))
    ensures Receive(PeerAt(n, k, d), GossipMessage(d + 1, d, Range(n)))
         == (PeerAt(n, k + 1, d), if d == 0 then None else Some(GossipMessage(d, d - 1, Range(n))))
  {
    assert SecretsAt(n, k, d) == Range(d + 1);
    RangeSize(d + 1);
    RangeMono(d + 1, n);
  }

  /** Coming back, for the group: only peer d changes, and its relay (if any) is the next message in flight. */
  lemma ReturnStep(net: Net, n: int, k: int)
    requires n >= 2 && n - 1 <= k < Total(n) && IsAt(net, n, k)
    ensures IsAt(Deliver(net), n, k + 1)
  {
    var d := Total(n) - k - 1;
    assert net.inFlight == [GossipMessage(d + 1, d, Range(n))];
    ReturnReceive(n, k, d);
    var r := Deliver(net);
    forall j | 0 <= j < n
      ensures r.peers[j] == PeerAt(n, k + 1, j)
    {
      if j != d {
        assert SecretsAt(n, k + 1, j) == SecretsAt(n, k, j);
      }
    }
  }

  /** Each delivery takes the group from one stage to the next. */
  lemma DeliverStep(net: Net, n: int, k: int)
    requires n >= 2 && 0 <= k < Total(n) && IsAt(net, n, k)
    ensures IsAt(Deliver(net), n, k + 1)
  {
    if k < n - 2 {
      OutwardStep(net, n, k);
    } else if k == n - 2 {
      TurnStep(net, n);
    } else {
      ReturnStep(net, n, k);
    }
  }

  /** Running the booted group for `steps` deliveries reaches stage
      `steps`, or the final stage if that comes first. */
  lemma RunFrom(n: int, steps: nat)
    requires n >= 2
    ensures IsAt(Run(Boot(Bidirectional, n), steps), n, Reached(n, steps))
  {
    var stage := (x: Net, i: int) => IsAt(x, n, i);
    forall x: Net, i: int | 0 <= i < Total(n) && stage(x, i)
      ensures x.inFlight != [] && stage(Deliver(x), i + 1)
    {
      DeliverStep(x, n, i);
    }
    BootIsAt(n);
    RunStages(Boot(Bidirectional, n), 0, steps, Total(n), stage);
  }

  /** For two devices or more: after 2(N-1) deliveries, or any more, no
      message is in flight, every peer knows every secret and has left its
      loop, exactly 2(N-1) messages were sent, and none was addressed to a
      peer that had already finished. */
  lemma Converges(n: int, steps: nat)
    requires n >= 2 && steps >= Total(n)
    ensures var r := Run(Boot(Bidirectional, n), steps);
      && r.inFlight == []
      && r.stranded == []
      && r.sent == Total(n) && r.delivered == Total(n)
      && |r.peers| == n
      && forall j :: 0 <= j < n ==> Secrets(r.peers[j]) == Range(n) && !Running(r.peers[j])
  {
    RunFrom(n, steps);
    RangeSize(n);
  }

  /** Fewer than 2(N-1) deliveries leave a message in flight. */
  lemma NotSooner(n: int, steps: nat)
    requires n >= 2 && steps < Total(n)
    ensures Run(Boot(Bidirectional, n), steps).inFlight != []
  {
    RunFrom(n, steps);
  }
}
