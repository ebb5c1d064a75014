/**
  What a node does with each kind of message, said of the node and its outbox before and after, for every
  state of the node and every message.
 */
module RaftLaws {
  import opened RaftNode

  /** A message of a later term that its receiver heeds: all but an answer to a heartbeat that finds a follower. */
  predicate Heeds(n: NodeState, m: Message) {
    m.term > n.term && !m.kind.Other? && !(m.kind == AppendEntriesRes && n.role == Follower)
  }

  /**
    A later term makes every node a follower in it, without a count; its vote is gone, or is the one just asked for.
    Only a heartbeat resets its timer.
   */
  lemma LaterTermWins(n: NodeState, m: Message, now: int)
    requires Heeds(n, m)
    ensures Handle(n, Receive(m), now).Done?
    ensures var n' := Handle(n, Receive(m), now).node;
      && SameIdentity(n, n') && n'.role == Follower && n'.term == m.term && n'.votesReceived == 0
      && n'.votedFor == (if m.kind == RequestVoteReq then m.from else 0)
      && n'.heardAt == (if m.kind == AppendEntriesReq then now else n.heardAt) && n'.sentAt == n.sentAt
  {
  }

  /** A response of a later term takes a candidate or leader out of office, and nothing is sent. */
  lemma LaterResponseDeposes(n: NodeState, m: Message, now: int)
    requires (m.kind == RequestVoteRes || m.kind == AppendEntriesRes) && m.term > n.term && n.role != Follower
    ensures Handle(n, Receive(m), now).Done? && Handle(n, Receive(m), now).sent == []
    ensures var n' := Handle(n, Receive(m), now).node;
      && SameIdentity(n, n') && n'.role == Follower && n'.term == m.term && n'.votedFor == 0 && n'.votesReceived == 0
      && n'.heardAt == n.heardAt && n'.sentAt == n.sentAt
  {
  }

  /** The one answer to a request, in the term the node is then in. */
  predicate OneAnswer(n: NodeState, m: Message, n': NodeState, sent: seq<Message>, kind: MessageType, ok: bool) {
    |sent| == 1 && sent[0].from == n.id && sent[0].to == m.from && sent[0].kind == kind && sent[0].ok == ok
    && sent[0].term == n'.term
  }

  /** A request of an earlier term changes nothing and is refused in the node's own term. */
  lemma EarlierTermIsRefused(n: NodeState, m: Message, now: int)
    requires (m.kind == RequestVoteReq || m.kind == AppendEntriesReq) && m.term < n.term
    ensures Handle(n, Receive(m), now).Done? && Handle(n, Receive(m), now).node == n
    ensures OneAnswer(n, m, n, Handle(n, Receive(m), now).sent,
                      if m.kind == RequestVoteReq then RequestVoteRes else AppendEntriesRes, false)
  {
  }

  /** Whether the node is free to vote for the sender. */
  predicate MayVote(n: NodeState, m: Message) {
    m.term > n.term || (m.term == n.term && (n.votedFor == 0 || n.votedFor == m.from))
  }

  /** Every vote request gets one answer; the vote is granted exactly if the node may vote, and is remembered. */
  lemma VoteIsAnswered(n: NodeState, m: Message, now: int)
    requires m.kind == RequestVoteReq
    ensures Handle(n, Receive(m), now).Done?
    ensures var n', sent := Handle(n, Receive(m), now).node, Handle(n, Receive(m), now).sent;
      && OneAnswer(n, m, n', sent, RequestVoteRes, MayVote(n, m))
      && (MayVote(n, m) ==> n'.votedFor == m.from && n'.term == m.term)
      && (!MayVote(n, m) ==> n' == n)
      && (m.term == n.term ==> n' == n.(votedFor := n'.votedFor))
  {
  }

  /**
    A heartbeat is accepted exactly if its term is not an earlier one: the node follows in that term with its timer
    reset, and keeps its vote if the term is its own. Only a leader of the very term panics.
   */
  lemma HeartbeatIsAnswered(n: NodeState, m: Message, now: int)
    requires m.kind == AppendEntriesReq
    ensures Handle(n, Receive(m), now).Panicked? <==> m.term == n.term && n.role == Leader
    ensures Handle(n, Receive(m), now).Panicked? ==> Handle(n, Receive(m), now).reason == SplitBrain
    ensures Handle(n, Receive(m), now).Done? ==>
      var n', sent := Handle(n, Receive(m), now).node, Handle(n, Receive(m), now).sent;
      && OneAnswer(n, m, n', sent, AppendEntriesRes, m.term >= n.term)
      && (m.term >= n.term ==> SameIdentity(n, n') && n'.role == Follower && n'.term == m.term && n'.heardAt == now)
      && (m.term == n.term ==>
            && n'.votedFor == n.votedFor && n'.sentAt == n.sentAt
            && n'.votesReceived == if n.role == Candidate then 0 else n.votesReceived)
  {
  }

  /** A response that is not of a later term is ignored, unless a candidate counts it as a vote. */
  lemma ResponseIsIgnored(n: NodeState, m: Message, now: int)
    requires m.kind == RequestVoteRes || m.kind == AppendEntriesRes
    requires !Heeds(n, m) && !Counts(n, Receive(m))
    ensures Handle(n, Receive(m), now) == Done(n, [])
  {
  }

  /** A counted vote adds one; at the threshold the candidate leads its term and sends every peer one heartbeat. */
  lemma VoteIsCounted(n: NodeState, m: Message, now: int)
    requires Counts(n, Receive(m))
    ensures Handle(n, Receive(m), now).Done?
    ensures var n', sent := Handle(n, Receive(m), now).node, Handle(n, Receive(m), now).sent;
      var wins := n.votesReceived + 1 > |n.peers| / 2;
      && n' == n.(role := n'.role, votesReceived := n.votesReceived + 1, sentAt := n'.sentAt)
      && n'.role == (if wins then Leader else Candidate)
      && n'.sentAt == (if wins then now else n.sentAt)
      && |sent| == (if wins then |n.peers| else 0)
      && forall k :: 0 <= k < |sent| ==> sent[k] == Message(n.id, n.peers[k], AppendEntriesReq, true, n.term)
  {
    ToAllInOrder(n.id, n.peers, AppendEntriesReq, n.term);
  }

  lemma {:induction false} ToAllInOrder(from: int, peers: seq<int>, kind: MessageType, term: int)
    ensures |ToAll(from, peers, kind, term)| == |peers|
    ensures forall k :: 0 <= k < |peers| ==>
      ToAll(from, peers, kind, term)[k] == Message(from, peers[k], kind, true, term)
  {
    if peers != [] {
      ToAllInOrder(from, peers[..|peers| - 1], kind, term);
    }
  }

  /**
    A tick: a leader sends each peer one heartbeat exactly when the interval has passed; any other node stands exactly
    when its timeout has passed, alone it leads at once, and otherwise it asks each peer once; else nothing happens.
   */
  lemma TickDoes(n: NodeState, now: int)
    ensures Handle(n, Tick, now).Done?
    ensures var n', sent := Handle(n, Tick, now).node, Handle(n, Tick, now).sent;
      var due := n.role == Leader && now - n.sentAt >= n.heartbeatInterval;
      var out := n.role != Leader && now - n.heardAt >= n.electionTimeout;
      && |sent| == (if due || out then |n.peers| else 0)
      && (forall k :: 0 <= k < |sent| ==>
            sent[k] == Message(n.id, n.peers[k], if due then AppendEntriesReq else RequestVoteReq, true, n'.term))
      && (due ==> n' == n.(sentAt := now))
      && (out ==> SameIdentity(n, n') && n'.term == n.term + 1 && n'.votedFor == n.id && n'.votesReceived == 1
                  && n'.heardAt == now && n'.role == (if n.peers == [] then Leader else Candidate)
                  && n'.sentAt == if n.peers == [] then now else n.sentAt)
      && (!due && !out ==> n' == n)
  {
    ToAllInOrder(n.id, n.peers, AppendEntriesReq, n.term);
    ToAllInOrder(n.id, n.peers, RequestVoteReq, n.term + 1);
    assert n.peers == [] ==> ToAll(n.id, n.peers, AppendEntriesReq, n.term + 1) == [];
  }
}
