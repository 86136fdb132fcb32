# Gossip on a ring, modelled in Dafny

This project models the two gossip protocols of `exercises/exercise1.py`.
Each of N peers starts knowing one secret, its own identity. The peers pass
their knowledge sets to ring neighbours until every peer knows all N secrets.

- **`Gossip`** (one-directional): peer 0 sends `{0}` to its successor.
  Every peer that receives a message unions the payload into its set and
  forwards the new set to its successor `(index + 1) % N`. The one exception
  is when the successor is the last peer and the received payload already
  held N secrets.
- **`GossipTwoWay`** (bidirectional): peers also know their predecessor
  `(index - 1) % N`. The last peer always reflects to its predecessor. Peer 0
  never sends after its initial message. Every other peer relays to its
  successor if the message came from its predecessor, and to its predecessor
  otherwise.
- **`GossipMessage`**: a source, a destination and a snapshot of the sender's
  secrets.

Each peer's loop runs while its set does not have exactly N elements. The model's
files are:

| file | module | contents |
|---|---|---|
| `messages.dfy` | `Messages` | the message value |
| `gossip.dfy` | `Gossip` | the one-directional peer: `Init`, `Start`, `Running`, `Receive`, `Round` |
| `gossip_two_way.dfy` | `GossipTwoWay` | the bidirectional peer, with `RelayTarget` |
| `py_int.dfy` | `PyInt` | Python's `%`, used for the neighbours; `Div` (Python's `//`, which the program itself does not use) only pins `Mod`'s value through the identity `DivMod` |
| `knowledge.dfy` | `Knowledge` | `Range(n)`, the full secret set `{0, …, n-1}` |
| `options.dfy` | `Options` | the optional outgoing message |
| `network.dfy` | `Network` | a group of peers, the messages in flight, and one-at-a-time delivery |
| `one_way_run.dfy`, `two_way_run.dfy` | `OneWayRun`, `TwoWayRun` | the state after each delivery, and convergence |

The round-synchronous medium is replaced by a sequential one. `Network.Deliver`
takes the oldest message in flight. If its addressee is still in its loop, the
addressee runs one pass of the loop body on it, and anything it sends joins the
end of the queue. Otherwise the message is *stranded*: in the program it would
wait in an inbox that is never read again. Both protocols only ever have one
message in flight, so the order of delivery is forced.

What the code does at the edges, as modelled:

- The forward suppression at `exercises/exercise1.py:45-46` is a chained
  comparison: the successor's number plus one equals N, and N equals the
  payload's size. So the suppressing peer is N-2, whose successor is the last
  peer. The last peer itself always forwards to peer 0 (`Gossip.LastPeerForwards`).
  With N ≥ 2, the one-directional ring makes one full lap of N messages, then
  N-2 messages of a second lap that stops at peer N-2. Peer N-1 finishes on
  the first lap. On the second lap, peers 0 … N-3 pass the full set on, and
  peer N-2 suppresses the message that would reach N-1 after it has exited.
- With a single device, peer 0's successor is itself. It sends `{0}` to
  itself before its loop, which never runs, so exactly one message is sent
  and never received (`Network.SinglePeer`).
- Python's `%` takes the divisor's sign, so `(0 - 1) % N` is `N - 1`. It is
  modelled exactly by `PyInt.Mod`, which requires a non-zero divisor because
  Python raises `ZeroDivisionError` otherwise.

## Model

| member | source | states |
|---|---|---|
| PyInt.Mod | exercises/exercise1.py:24 | Python's remainder lies in [0, n) for a positive divisor and in (n, 0] for a negative one; a zero divisor is excluded because Python raises |
| PyInt.ModSucc | exercises/exercise1.py:24 | on a ring of n devices, the successor of i is i+1, and the successor of n-1 wraps to 0 |
| PyInt.ModPred | exercises/exercise1.py:61 | on a ring of n devices, the predecessor of i is i-1, and the predecessor of 0 wraps to n-1 (never negative) |
| Knowledge.RangeSize | exercises/exercise1.py:35 | the full set of secrets of n devices has exactly n elements, which is what the loop guard compares with |
| Gossip.Init | exercises/exercise1.py:19-24 | a new peer knows only its own secret; for an identity in range, its neighbour is the next peer on the ring, wrapping to 0 |
| Gossip.Start | exercises/exercise1.py:26-33 | a peer sends before its loop if and only if it is peer 0, and then sends its secrets to its neighbour |
| Gossip.InitialSend | exercises/exercise1.py:31-33 | of the peers as constructed, only peer 0 sends before its loop, and it sends `{0}` to peer 1 (to itself when N = 1) |
| Gossip.SuppressionSite | exercises/exercise1.py:45-46 | the first half of the suppression condition holds exactly for peer N-2, or for peer 0 when N = 1 |
| Gossip.LastPeerForwards | exercises/exercise1.py:45-47 | for N ≥ 2, the last peer forwards to peer 0 whatever it receives |
| Gossip.Receive | exercises/exercise1.py:41-47 | the new set contains the old set and the payload and nothing else, and is unchanged when the payload is a subset; a message is sent exactly when the forward is not suppressed; a sent message goes from this peer to its neighbour and carries the updated set |
| Gossip.Round | exercises/exercise1.py:35-47 | the loop body runs only while the set is not full; a round without a message changes nothing and sends nothing |
| GossipTwoWay.Init | exercises/exercise1.py:55-61 | a new peer knows only its own secret; for an identity in range, its successor wraps to 0 and its predecessor wraps to N-1 |
| GossipTwoWay.Start | exercises/exercise1.py:64-74 | a peer sends before its loop if and only if it is peer 0, and then sends its secrets to its successor |
| GossipTwoWay.InitialSend | exercises/exercise1.py:72-74 | of the peers as constructed, only peer 0 sends before its loop, and it sends `{0}` to peer 1 (to itself when N = 1) |
| GossipTwoWay.RelayTarget | exercises/exercise1.py:68-70 | a relay goes to one of the two neighbours: the successor when the sender was the predecessor, and the predecessor otherwise |
| GossipTwoWay.RelayAvoidsSender | exercises/exercise1.py:68-70 | when the two neighbours differ, a relayed message never goes back to the neighbour that sent it |
| GossipTwoWay.Receive | exercises/exercise1.py:82-88 | the set grows by exactly the payload; the last peer always sends to its predecessor; otherwise peer 0 never sends; any other peer sends to its relay target; every message sent goes to a neighbour and carries the updated set |
| GossipTwoWay.Round | exercises/exercise1.py:76-88 | the loop body runs only while the set is not full; a round without a message changes nothing and sends nothing |
| Network.Receive | exercises/exercise1.py:36-47 | a running peer that receives a message keeps its identity and learns exactly the message's secrets; what it sends carries its identity and its updated set |
| Network.Launch | exercises/exercise1.py:31-33 | if no peer from position i on is peer 0, then nothing is sent before the loops |
| Network.Boot | exercises/exercise1.py:72-74 | peer j of the started group is peer j as constructed; with at least one device, the only message in flight is `{0}` from peer 0 to its successor and one message has been sent; with no devices there are no peers and nothing is sent |
| Network.Deliver | exercises/exercise1.py:76-82 | only the addressee changes; a message is stranded exactly when its addressee is out of range or has left its loop, and then no peer changes and nothing is sent; only a running addressee can send; every message sent stays delivered, stranded or in flight |
| Network.Run | exercises/exercise1.py:35-41 | repeated delivery keeps the message accounting and never un-strands a message; it stops early only when nothing is in flight |
| Network.DeliverLearns | exercises/exercise1.py:41 | a delivery never removes a secret from any peer, and a running addressee learns every secret of the message |
| Network.RunLearns | exercises/exercise1.py:82 | however many deliveries happen, no peer's set ever shrinks |
| Network.RunKeepsFinished | exercises/exercise1.py:35 | a peer whose loop has ended keeps its final state over any number of deliveries: the loop never resumes |
| Network.SinglePeer | exercises/exercise1.py:31-35 | with one device, peer 0 keeps `{0}`, never runs its loop, and its one message, addressed to itself, is never received |
| OneWayRun.LapOneReceive | exercises/exercise1.py:41-47 | on the first lap, peer k+1 holding its own secret receives {0..k}, learns {0..k+1} and forwards it to its successor |
| OneWayRun.HandOverReceive | exercises/exercise1.py:41-47 | peer 0 receives the full set from peer N-1 and forwards it to peer 1, unless N = 2 |
| OneWayRun.LapTwoReceive | exercises/exercise1.py:41-47 | on the second lap, peer d receives the full set and passes it on, except peer N-2, which suppresses |
| OneWayRun.Converges | exercises/exercise1.py:31-47 | for N ≥ 2, once 2(N-1) or more deliveries have been allowed, nothing is in flight; every peer knows all N secrets and has left its loop; exactly 2(N-1) messages were sent; none was stranded |
| OneWayRun.NotSooner | exercises/exercise1.py:31-47 | for N ≥ 2, fewer than 2(N-1) deliveries always leave a message in flight |
| TwoWayRun.OutwardReceive | exercises/exercise1.py:82-88 | going out, interior peer k+1 receives {0..k} from its predecessor, learns {0..k+1} and relays it to its successor |
| TwoWayRun.TurnReceive | exercises/exercise1.py:84-86 | the last peer receives {0..N-2}, learns all N secrets and reflects them to peer N-2 |
| TwoWayRun.ReturnReceive | exercises/exercise1.py:82-88 | coming back, peer d receives the full set from its successor; it relays it to its predecessor unless it is peer 0 |
| TwoWayRun.Converges | exercises/exercise1.py:72-88 | for N ≥ 2, once 2(N-1) or more deliveries have been allowed, nothing is in flight; every peer knows all N secrets and has left its loop; exactly 2(N-1) messages were sent; none was stranded |
| TwoWayRun.NotSooner | exercises/exercise1.py:72-88 | for N ≥ 2, fewer than 2(N-1) deliveries always leave a message in flight |

## Left out

- The emulator base classes `Device`, `Medium` and `MessageStub`, and their `send`, `receive` and `wait_for_next_round`: they are not part of this model. The medium is replaced by `Network`'s one-at-a-time FIFO delivery, and "no message this round" is `Round` with `None`.
- Threads and rounds: each peer runs sequentially, and the protocols keep at most one message in flight, so rounds add no behaviour.
- The medium's policy when one inbox gets several messages in a round: it never arises here.
- `print_result` and `GossipMessage.__str__`: console output only.
- Object aliasing of the secret set inside sent messages: the code rebinds the set to a fresh union, so payloads are value snapshots.
- Network.Run: takes a bound `steps` on the number of deliveries instead of running until quiet. The convergence lemmas hold for every bound of at least 2(N-1), and `NotSooner` shows that smaller bounds do not suffice.
- Network.Boot: takes the number of devices as a natural number, because a negative count describes no group of peers. The peer modules themselves only require a non-zero count, since `%` by zero raises in Python.
- OneWayRun.Converges and TwoWayRun.Converges: proved for the sequential delivery order from the started group, which is the only order possible with a single message in flight.
