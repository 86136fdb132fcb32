/** The value the peers exchange. */
module Messages {

  /** A gossip message: who sent it, who it is for, and a snapshot of the
      sender's knowledge set at the time of sending. */
  datatype GossipMessage = GossipMessage(source: int, destination: int, secrets: set<int>)
}
