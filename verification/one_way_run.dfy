/** End-to-end behaviour of the one-directional ring for at least two
    devices. The gossip makes one full lap of N messages: each peer adds
    its secret and forwards, and peer N-1 learns everything and hands it to
    peer 0. Then come N-2 messages of a second lap that stops at peer N-2:
    peers 0 .. N-3 pass the full set on and peer N-2 keeps it, because its
    successor N-1 has already finished. */
module OneWayRun {
  import opened Options
  import opened Messages
  import opened Knowledge
  import Gossip
  import opened Network

  /** What peer `j` knows after `k` deliveries. */
  function SecretsAt(n: int, k: int, j: int): set<int>
  {
    if k <= n - 1 then (if j <= k then Range(j + 1) else {j})
    else (if j < k - n + 1 then Range(n) else Range(j + 1))
  }

  /** Peer `j` after `k` deliveries: as constructed, except for its secrets. */
  function PeerAt(n: int, k: int, j: int): Node
  {
    One(Gossip.Peer(j, n, SecretsAt(n, k, j), if j + 1 == n then 0 else j + 1))
  }

  /** The message in flight after `k` deliveries, if any. */
  function InFlightAt(n: int, k: int): seq<GossipMessage>
  {
    if k <= n - 1 then [GossipMessage(k, if k == n - 1 then 0 else k + 1, Range(k + 1))]
    else if k < Total(n) then [GossipMessage(k - n, k - n + 1, Range(n))]
    else []
  }

  /** `net` is the group after `k` deliveries. */
  predicate IsAt(net: Net, n: int, k: int)
    requires n >= 2
  {
    && |net.peers| == n
    && (forall j :: 0 <= j < n ==> net.peers[j] == PeerAt(n, k, j))
    && net.inFlight == InFlightAt(n, k)
    && net.sent == k + |InFlightAt(n, k)|
    && net.delivered == k
    && net.stranded == []
  }

  /** The started group is stage 0. */
  lemma BootIsAt(n: int)
    requires n >= 2
    ensures IsAt(Boot(OneDirectional, n), n, 0)
  {
    assert Range(1) == {0} by {
      RangeMembers(1, 0);
      forall i | i in Range(1) ensures i == 0 { RangeMembers(1, i); }
    }
  }

  /** First lap, at the peer: peer k+1 adds the secrets 0 .. k to its own
      and forwards them to its successor. */
  lemma LapOneReceive(n: int, k: int)
    requires n >= 2 && 0 <= k < n - 1
    ensures Running(PeerAt(n, k, k + 1))
    ensures Receive(PeerAt(n, k, k + 1), GossipMessage(k, k + 1, Range(k + 1)))
         == (PeerAt(n, k + 1, k + 1), Some(GossipMessage(k + 1, if k + 1 == n - 1 then 0 else k + 2, Range(k + 2))))
  {
    RangeSize(k + 1);
    RangeMembers(k + 1, k + 1);
  }

  /** First lap, for the group: only peer k+1 changes, and its forward is the next message in flight. */
  lemma LapOneStep(net: Net, n: int, k: int)
    requires n >= 2 && 0 <= k < n - 1 && IsAt(net, n, k)
    ensures IsAt(Deliver(net), n, k + 1)
  {
    assert net.inFlight == [GossipMessage(k, k + 1, Range(k + 1))];
    LapOneReceive(n, k);
    var r := Deliver(net);
    forall j | 0 <= j < n
      ensures r.peers[j] == PeerAt(n, k + 1, j)
    {
      if j != k + 1 {
        assert SecretsAt(n, k + 1, j) == SecretsAt(n, k, j);
      }
    }
  }

  /** The hand-over, at the peer: peer 0 learns everything from peer N-1
      and passes it on, unless its own successor is the last peer (N = 2),
      which has already left its loop. */
  lemma HandOverReceive(n: int)
    requires n >= 2
    ensures Running(PeerAt(n, n - 1, 0))
    ensures Receive(PeerAt(n, n - 1, 0), GossipMessage(n - 1, 0, Range(n)))
         == (PeerAt(n, n, 0), if n == 2 then None else Some(GossipMessage(0, 1, Range(n))))
  {
    assert SecretsAt(n, n - 1, 0) == Range(1);
    RangeSize(1);
    RangeSize(n);
    RangeMono(1, n);
  }

  /** The hand-over, for the group: only peer 0 changes, and its forward (if any) is the next message in flight. */
  lemma HandOverStep(net: Net, n: int)
    requires n >= 2 && IsAt(net, n, n - 1)
    ensures IsAt(Deliver(net), n, n)
  {
    assert net.inFlight == [GossipMessage(n - 1, 0, Range(n))];
    HandOverReceive(n);
    var r := Deliver(net);
    forall j | 0 <= j < n
      ensures r.peers[j] == PeerAt(n, n, j)
    {
      if j != 0 {
        assert SecretsAt(n, n, j) == SecretsAt(n, n - 1, j);
      }
    }
  }

  /** Second lap, at the peer: peer d learns the full set and passes it
      on, except peer N-2, whose successor has already left its loop. */
  lemma LapTwoReceive(n: int, k: int, d: int)
    requires n >= 2 && n - 1 < k < Total(n) && d == k - n + 1
    ensures Running(PeerAt(n, k, d))
    ensures Receive(PeerAt(n, k, d), GossipMessage(d - 1, d, Range(n)))
         == (PeerAt(n, k + 1, d), if d == n - 2 then None else Some(GossipMessage(d, d + 1, Range(n))))
  {
    assert SecretsAt(n, k, d) == Range(d + 1);
    RangeSize(d + 1);
    RangeSize(n);
    RangeMono(d + 1, n);
  }

  /** Second lap, for the group: only peer d changes, and its forward (if any) is the next message in flight. */
  lemma LapTwoStep(net: Net, n: int, k: int)
    requires n >= 2 && n - 1 < k < Total(n) && IsAt(net, n, k)
    ensures IsAt(Deliver(net), n, k + 1)
  {
    var d := k - n + 1;
    assert net.inFlight == [GossipMessage(d - 1, d, Range(n))];
    LapTwoReceive(n, k, d);
    var r := Deliver(net);
    forall j | 0 <= j < n
      ensures r.peers[j] == PeerAt(n, k + 1, j)
    {
      if j != d {
        assert SecretsAt(n, k + 1, j) == SecretsAt(n, k, j);
      }
    }
  }

  /** Each delivery takes the group from one stage to the next. */
  lemma DeliverStep(net: Net, n: int, k: int)
    requires n >= 2 && 0 <= k < Total(n) && IsAt(net, n, k)
    ensures IsAt(Deliver(net), n, k + 1)
  {
    if k < n - 1 {
      LapOneStep(net, n, k);
    } else if k == n - 1 {
      HandOverStep(net, n);
    } else {
      LapTwoStep(net, n, k);
    }
  }

  /** Running the booted group for `steps` deliveries reaches stage
      `steps`, or the final stage if that comes first. */
  lemma RunFrom(n: int, steps: nat)
    requires n >= 2
    ensures IsAt(Run(Boot(OneDirectional, n), steps), n, Reached(n, steps))
  {
    var stage := (x: Net, i: int) => IsAt(x, n, i);
    forall x: Net, i: int | 0 <= i < Total(n) && stage(x, i)
      ensures x.inFlight != [] && stage(Deliver(x), i + 1)
    {
      DeliverStep(x, n, i);
    }
    BootIsAt(n);
    RunStages(Boot(OneDirectional, n), 0, steps, Total(n), stage);
  }

  /** For two devices or more: after 2(N-1) deliveries, or any more, no
      message is in flight, every peer knows every secret and has left its
      loop, exactly 2(N-1) messages were sent, and none was addressed to a
      peer that had already finished. */
  lemma Converges(n: int, steps: nat)
    requires n >= 2 && steps >= Total(n)
    ensures var r := Run(Boot(OneDirectional, n), steps);
      && r.inFlight == []
      && r.stranded == []
      && r.sent == Total(n) && r.delivered == Total(n)
      && |r.peers| == n
      && forall j :: 0 <= j < n ==> Secrets(r.peers[j]) == Range(n) && !Running(r.peers[j])
  {
    RunFrom(n, steps);
    RangeSize(n);
  }

  /** Fewer than 2(N-1) deliveries leave a message in flight: none of the
      2(N-1) messages is redundant to the run. */
  lemma NotSooner(n: int, steps: nat)
    requires n >= 2 && steps < Total(n)
    ensures Run(Boot(OneDirectional, n), steps).inFlight != []
  {
    RunFrom(n, steps);
  }
}
