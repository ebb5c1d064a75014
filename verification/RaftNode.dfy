/**
  One Raft node: the leader-election state machine of internal/raft/node.go.

  The pure part (`HandleTick`, the four message handlers and `Handle`) says what one
  event does to the node's fields and which messages it sends. The class `Node` is the
  object of the source: its methods update fields in place, loop over the peers, and are
  proved to do what the pure part says. A Go panic is an explicit outcome.
 */
module RaftNode {

  datatype Role = Follower | Candidate | Leader

  /** The message type is a string in the source; `Other` is any string the node does not know. */
  datatype MessageType =
    | AppendEntriesReq
    | AppendEntriesRes
    | RequestVoteReq
    | RequestVoteRes
    | Other(name: string)

  datatype Message = Message(from: int, to: int, kind: MessageType, ok: bool, term: int)

  /** `Foreign` is an event that is neither a tick nor a message. */
  datatype Event = Tick | Receive(message: Message) | Foreign

  datatype Panic =
    | SplitBrain
    | UnknownMessageType
    | UnexpectedEvent
    | WrongMessageType
    | OnlyLeaderBroadcasts
    | FollowerToLeader
    | LeaderToCandidate
    | NoLeaderFound
    | NodeCountMismatch

  /** The fields of a node other than its outbox and logger; 0 in `votedFor` means "nobody". */
  datatype NodeState = NodeState(
    id: int,
    role: Role,
    term: int,
    peers: seq<int>,
    sentAt: int,
    heardAt: int,
    electionTimeout: int,
    heartbeatInterval: int,
    votedFor: int,
    votesReceived: int)

  /** What one event does: a new state and the messages appended to the outbox, or a panic. */
  datatype Outcome = Done(node: NodeState, sent: seq<Message>) | Panicked(reason: Panic)

  function NewNode(id: int, peers: seq<int>, electionTimeout: int, heartbeatInterval: int): NodeState {
    NodeState(id, Follower, 0, peers, 0, 0, electionTimeout, heartbeatInterval, 0, 0)
  }

  /** The same message to every peer, in the order of the peer list. */
  function ToAll(from: int, peers: seq<int>, kind: MessageType, term: int): seq<Message> {
    if peers == [] then []
    else ToAll(from, peers[..|peers| - 1], kind, term) + [Message(from, peers[|peers| - 1], kind, true, term)]
  }

  function BecomeFollower(n: NodeState, term: int): NodeState {
    n.(term := term,
       votedFor := if n.term != term then 0 else n.votedFor,
       role := Follower,
       votesReceived := 0)
  }

  function BecomeCandidate(n: NodeState, term: int): Outcome {
    if n.role == Leader then Panicked(LeaderToCandidate)
    else Done(n.(role := Candidate, term := term, votedFor := n.id, votesReceived := 1), [])
  }

  function BecomeLeader(n: NodeState, term: int): Outcome {
    if n.role == Follower then Panicked(FollowerToLeader)
    else Done(n.(role := Leader, term := term), [])
  }

  function BroadcastHeartbeats(n: NodeState, now: int): Outcome {
    if n.role != Leader then Panicked(OnlyLeaderBroadcasts)
    else Done(n.(sentAt := now), ToAll(n.id, n.peers, AppendEntriesReq, n.term))
  }

  function LeadAndBroadcast(n: NodeState, now: int): Outcome {
    var led := BecomeLeader(n, n.term);
    if led.Panicked? then led else BroadcastHeartbeats(led.node, now)
  }

  function HandleTick(n: NodeState, now: int): Outcome {
    if n.role == Leader then
      if now - n.sentAt >= n.heartbeatInterval then BroadcastHeartbeats(n, now) else Done(n, [])
    else if now - n.heardAt >= n.electionTimeout then
      var stood := BecomeCandidate(n.(heardAt := now), n.term + 1);
      if stood.Panicked? then stood
      else if |n.peers| == 0 then LeadAndBroadcast(stood.node, now)
      else Done(stood.node, ToAll(n.id, n.peers, RequestVoteReq, n.term + 1))
    else Done(n, [])
  }

  function HandleRequestVoteRequest(n: NodeState, m: Message): Outcome {
    if m.kind != RequestVoteReq then Panicked(WrongMessageType)
    else if m.term < n.term then
      Done(n, [Message(n.id, m.from, RequestVoteRes, false, n.term)])
    else
      var n1 := if m.term > n.term then BecomeFollower(n, m.term) else n;
      if n1.votedFor != 0 && n1.votedFor != m.from then
        Done(n1, [Message(n.id, m.from, RequestVoteRes, false, n1.term)])
      else
        Done(n1.(votedFor := m.from), [Message(n.id, m.from, RequestVoteRes, true, n1.term)])
  }

  function HandleRequestVoteResponse(n: NodeState, m: Message, now: int): Outcome {
    if m.kind != RequestVoteRes then Panicked(WrongMessageType)
    else if m.term > n.term then Done(BecomeFollower(n, m.term), [])
    else if n.role == Candidate && m.ok then
      var n1 := n.(votesReceived := n.votesReceived + 1);
      if n1.votesReceived > |n.peers| / 2 then LeadAndBroadcast(n1, now) else Done(n1, [])
    else Done(n, [])
  }

  function HandleAppendEntriesResponse(n: NodeState, m: Message): Outcome {
    if m.kind != AppendEntriesRes then Panicked(WrongMessageType)
    else if m.term > n.term && n.role != Follower then Done(BecomeFollower(n, m.term), [])
    else Done(n, [])
  }

  function HandleAppendEntriesRequest(n: NodeState, m: Message, now: int): Outcome {
    if m.kind != AppendEntriesReq then Panicked(WrongMessageType)
    else if m.term < n.term then
      Done(n, [Message(n.id, m.from, AppendEntriesRes, false, n.term)])
    else
      var n1 := if m.term > n.term then BecomeFollower(n, m.term) else n;
      if n1.role == Leader then Panicked(SplitBrain)
      else
        var n2 := n1.(heardAt := now);
        var n3 := if n2.role == Candidate then BecomeFollower(n2, m.term) else n2;
        Done(n3, [Message(n.id, m.from, AppendEntriesRes, true, n1.term)])
  }

  function Handle(n: NodeState, e: Event, now: int): Outcome {
    match e
    case Foreign => Panicked(UnexpectedEvent)
    case Tick => HandleTick(n, now)
    case Receive(m) =>
      match m.kind
      case AppendEntriesReq => HandleAppendEntriesRequest(n, m, now)
      case AppendEntriesRes => HandleAppendEntriesResponse(n, m)
      case RequestVoteReq => HandleRequestVoteRequest(n, m)
      case RequestVoteRes => HandleRequestVoteResponse(n, m, now)
      case Other(_) => Panicked(UnknownMessageType)
  }

  /** The node starts an election on this event. */
  predicate Stands(n: NodeState, e: Event, now: int) {
    e == Tick && n.role != Leader && now - n.heardAt >= n.electionTimeout
  }

  /** `m` is what the broadcast to `peers` sends to one of them. */
  predicate IsBroadcast(m: Message, from: int, peers: seq<int>, kind: MessageType, term: int) {
    m.from == from && m.to in peers && m.kind == kind && m.ok && m.term == term
  }

  lemma {:induction false} ToAllMembers(from: int, peers: seq<int>, kind: MessageType, term: int)
    ensures forall m :: m in ToAll(from, peers, kind, term) <==> IsBroadcast(m, from, peers, kind, term)
  {
    if peers != [] {
      var last := |peers| - 1;
      ToAllMembers(from, peers[..last], kind, term);
      assert peers == peers[..last] + [peers[last]];
    }
  }

  predicate Distinct(s: seq<int>) {
    forall i, j :: 0 <= i < j < |s| ==> s[i] != s[j]
  }

  /** A broadcast to distinct peers holds each of its messages once. */
  lemma {:induction false} ToAllOnce(from: int, peers: seq<int>, kind: MessageType, term: int, m: Message)
    requires Distinct(peers)
    ensures multiset(ToAll(from, peers, kind, term))[m] == if IsBroadcast(m, from, peers, kind, term) then 1 else 0
  {
    if peers != [] {
      var last := |peers| - 1;
      ToAllOnce(from, peers[..last], kind, term, m);
      assert peers == peers[..last] + [peers[last]];
      assert peers[last] !in peers[..last];
    }
  }

  /** Every field a handler never assigns keeps its value. */
  predicate SameIdentity(n: NodeState, n': NodeState) {
    && n'.id == n.id
    && n'.peers == n.peers
    && n'.electionTimeout == n.electionTimeout
    && n'.heartbeatInterval == n.heartbeatInterval
  }

  /** Candidates and leaders hold their own vote. */
  predicate SelfVoted(n: NodeState) {
    n.role != Follower ==> n.votedFor == n.id
  }

  /** What every message a step sends is about: its sender, the sender's new term, and why it was sent. */
  predicate Justified(n: NodeState, e: Event, now: int, n': NodeState, m: Message) {
    && m.from == n.id
    && m.term == n'.term
    && match m.kind
       case AppendEntriesReq => m.ok && m.to in n.peers && n'.role == Leader
       case AppendEntriesRes => e.Receive? && e.message.kind == AppendEntriesReq && m.to == e.message.from
       case RequestVoteReq => m.ok && m.to in n.peers && Stands(n, e, now) && n'.role == Candidate
       case RequestVoteRes =>
         && e.Receive? && e.message.kind == RequestVoteReq && m.to == e.message.from
         && (m.ok ==> n'.votedFor == m.to && e.message.term == n'.term)
       case Other(_) => false
  }

  /** One step of a node, seen from outside: what may change, how, and why each message was sent. */
  ghost predicate Disciplined(n: NodeState, e: Event, now: int, n': NodeState, sent: seq<Message>) {
    && SameIdentity(n, n')
    && n'.term >= n.term
    && (n'.term == n.term && n.votedFor != 0 ==> n'.votedFor == n.votedFor)
    && SelfVoted(n')
    && (Stands(n, e, now) ==> n'.term == n.term + 1 && n'.votedFor == n.id && n'.role != Follower)
    && (n'.role == Candidate && n.role != Candidate ==> Stands(n, e, now))
    && (n'.role == Candidate && !Stands(n, e, now) ==> n'.term == n.term)
    && (n'.role == Leader && !Stands(n, e, now) ==> n'.term == n.term && n.role != Follower)
    && (n'.votedFor != 0 && n'.votedFor != n.votedFor && !Stands(n, e, now) ==>
          e.Receive? && e.message.kind == RequestVoteReq && n'.votedFor == e.message.from && n'.term == e.message.term)
    && (n'.votedFor != 0 && n'.term != n.term && !Stands(n, e, now) ==>
          e.Receive? && e.message.kind == RequestVoteReq && n'.votedFor == e.message.from && n'.term == e.message.term)
    && (forall m :: m in sent ==> Justified(n, e, now, n', m))
    && (Distinct(n.peers) ==> forall m :: m in sent ==> multiset(sent)[m] == 1)
  }

  /**
    The local discipline behind election safety, for every state and every event: identity is
    kept, terms never decrease, a vote given in a term is never changed within it, candidates and
    leaders vote for themselves, and every message sent is justified by the step that sent it.
   */
  lemma StepDiscipline(n: NodeState, e: Event, now: int)
    requires n.id != 0 && SelfVoted(n)
    requires Handle(n, e, now).Done?
    ensures Disciplined(n, e, now, Handle(n, e, now).node, Handle(n, e, now).sent)
  {
    if e == Tick {
      TickDiscipline(n, now);
    } else if e.message.kind == RequestVoteRes {
      VoteResponseDiscipline(n, e.message, now);
    } else {
      ReplyDiscipline(n, e.message, now);
    }
  }

  lemma ReplyDiscipline(n: NodeState, m: Message, now: int)
    requires n.id != 0 && SelfVoted(n)
    requires m.kind in {RequestVoteReq, AppendEntriesReq, AppendEntriesRes}
    requires Handle(n, Receive(m), now).Done?
    ensures Disciplined(n, Receive(m), now, Handle(n, Receive(m), now).node, Handle(n, Receive(m), now).sent)
  {
    assert |Handle(n, Receive(m), now).sent| <= 1;
  }

  lemma TickDiscipline(n: NodeState, now: int)
    requires n.id != 0 && SelfVoted(n)
    ensures HandleTick(n, now).Done?
    ensures Disciplined(n, Tick, now, HandleTick(n, now).node, HandleTick(n, now).sent)
  {
    BroadcastShape(n, AppendEntriesReq, HandleTick(n, now).node.term);
    BroadcastShape(n, RequestVoteReq, HandleTick(n, now).node.term);
  }

  lemma VoteResponseDiscipline(n: NodeState, m: Message, now: int)
    requires n.id != 0 && SelfVoted(n) && m.kind == RequestVoteRes
    ensures HandleRequestVoteResponse(n, m, now).Done?
    ensures Disciplined(n, Receive(m), now, HandleRequestVoteResponse(n, m, now).node,
      HandleRequestVoteResponse(n, m, now).sent)
  {
    BroadcastShape(n, AppendEntriesReq, n.term);
  }

  lemma BroadcastShape(n: NodeState, kind: MessageType, term: int)
    ensures forall m :: m in ToAll(n.id, n.peers, kind, term) ==> IsBroadcast(m, n.id, n.peers, kind, term)
    ensures Distinct(n.peers) ==> forall m :: m in ToAll(n.id, n.peers, kind, term) ==>
      multiset(ToAll(n.id, n.peers, kind, term))[m] == 1
  {
    ToAllMembers(n.id, n.peers, kind, term);
    if Distinct(n.peers) {
      forall m | m in ToAll(n.id, n.peers, kind, term)
        ensures multiset(ToAll(n.id, n.peers, kind, term))[m] == 1
      {
        ToAllOnce(n.id, n.peers, kind, term, m);
      }
    }
  }

  /** A tick sends a vote request of the new term to every peer, or a heartbeat of the current one, or nothing. */
  lemma TickSends(n: NodeState, now: int, m: Message)
    requires m in HandleTick(n, now).sent
    ensures var n' := HandleTick(n, now).node;
      && IsBroadcast(m, n.id, n.peers, m.kind, n'.term)
      && ((m.kind == RequestVoteReq && Stands(n, Tick, now) && n'.role == Candidate && n'.term == n.term + 1)
          || (m.kind == AppendEntriesReq && n.role == n'.role == Leader && n'.term == n.term && n'.sentAt == now
              && now - n.sentAt >= n.heartbeatInterval))
  {
    ToAllMembers(n.id, n.peers, AppendEntriesReq, n.term);
    ToAllMembers(n.id, n.peers, RequestVoteReq, n.term + 1);
    assert n.peers == [] ==> ToAll(n.id, n.peers, AppendEntriesReq, n.term + 1) == [];
  }

  /** For every node whatsoever: identity is kept and terms never decrease. */
  lemma StepKeeps(n: NodeState, e: Event, now: int)
    requires Handle(n, e, now).Done?
    ensures SameIdentity(n, Handle(n, e, now).node) && n.term <= Handle(n, e, now).node.term
  {
  }

  /** The event is a granted vote that a candidate counts (the code does not compare the vote's term with its own). */
  predicate Counts(n: NodeState, e: Event) {
    e.Receive? && e.message.kind == RequestVoteRes && e.message.ok && n.role == Candidate && e.message.term <= n.term
  }

  /** How the vote count moves, and exactly when a node takes the lead. */
  ghost predicate Counted(n: NodeState, e: Event, now: int, n': NodeState) {
    && (n'.role == Candidate ==>
          if Stands(n, e, now) then n'.votesReceived == 1 && |n.peers| > 0
          else if Counts(n, e) then n'.votesReceived == n.votesReceived + 1 <= |n.peers| / 2
          else n'.votesReceived == n.votesReceived)
    && (Counts(n, e) ==> n'.term == n.term)
    && (n'.role == Leader && n.role != Leader <==>
          || (Stands(n, e, now) && |n.peers| == 0)
          || (Counts(n, e) && n.votesReceived + 1 > |n.peers| / 2))
  }

  lemma StepCounting(n: NodeState, e: Event, now: int)
    requires Handle(n, e, now).Done?
    ensures Counted(n, e, now, Handle(n, e, now).node)
  {
  }

  /** The only panics a node can reach by itself: unknown input, or a second leader's heartbeat in its own term. */
  lemma PanicsExactly(n: NodeState, e: Event, now: int)
    ensures Handle(n, e, now).Panicked? <==>
      || e.Foreign?
      || (e.Receive? && e.message.kind.Other?)
      || (e.Receive? && e.message.kind == AppendEntriesReq && n.role == Leader && e.message.term == n.term)
    ensures Handle(n, e, now).Panicked? ==>
      Handle(n, e, now).reason in {UnexpectedEvent, UnknownMessageType, SplitBrain}
  {
  }

  /** What a method of `Node` reports: whether the Go code would have panicked. */
  datatype Status = Fine | Panic(reason: Panic)

  /** The object of the source, with its outbox. */
  class Node {
    const id: int
    const peerIDs: seq<int>
    const electionTimeout: int
    const heartbeatInterval: int
    var role: Role
    var term: int
    var outbox: seq<Message>
    var lastHeartbeatSentAt: int
    var lastHeartbeatReceivedAt: int
    var votedFor: int
    var votesReceived: int

    constructor (id: int, peerIDs: seq<int>, electionTimeout: int, heartbeatInterval: int)
      ensures State() == NewNode(id, peerIDs, electionTimeout, heartbeatInterval)
      ensures outbox == []
    {
      this.id := id;
      this.peerIDs := peerIDs;
      this.electionTimeout := electionTimeout;
      this.heartbeatInterval := heartbeatInterval;
      role, term, outbox := Follower, 0, [];
      lastHeartbeatSentAt, lastHeartbeatReceivedAt := 0, 0;
      votedFor, votesReceived := 0, 0;
    }

    ghost function State(): NodeState
      reads this
    {
      NodeState(id, role, term, peerIDs, lastHeartbeatSentAt, lastHeartbeatReceivedAt,
                electionTimeout, heartbeatInterval, votedFor, votesReceived)
    }

    /** The object moved from state `n` and outbox `box` as `o` says. */
    ghost predicate Follows(n: NodeState, box: seq<Message>, o: Outcome, s: Status)
      reads this
    {
      match o
      case Done(n', sent) => s == Fine && State() == n' && outbox == box + sent
      case Panicked(p) => s == Panic(p)
    }

    method Step(event: Event, now: int) returns (s: Status)
      modifies this
      ensures Follows(old(State()), old(outbox), Handle(old(State()), event, now), s)
    {
      match event {
        case Foreign => s := Panic(UnexpectedEvent);
        case Tick => s := StepTick(now);
        case Receive(m) =>
          match m.kind {
            case AppendEntriesReq => s := StepAppendEntriesRequest(m, now);
            case AppendEntriesRes => s := StepAppendEntriesResponse(m);
            case RequestVoteReq => s := StepRequestVoteRequest(m);
            case RequestVoteRes => s := StepRequestVoteResponse(m, now);
            case Other(_) => s := Panic(UnknownMessageType);
          }
      }
    }

    method ClearOutbox()
      modifies this
      ensures State() == old(State()) && outbox == []
    {
      outbox := outbox[..0];
    }

    method StepRequestVoteRequest(m: Message) returns (s: Status)
      modifies this
      ensures Follows(old(State()), old(outbox), HandleRequestVoteRequest(old(State()), m), s)
    {
      if m.kind != RequestVoteReq { return Panic(WrongMessageType); }
      if m.term < term {
        outbox := outbox + [Message(id, m.from, RequestVoteRes, false, term)];
        return Fine;
      }
      if m.term > term {
        ToFollower(m.term);
      }
      if votedFor != 0 && votedFor != m.from {
        outbox := outbox + [Message(id, m.from, RequestVoteRes, false, term)];
        return Fine;
      }
      votedFor := m.from;
      outbox := outbox + [Message(id, m.from, RequestVoteRes, true, term)];
      return Fine;
    }

    method StepRequestVoteResponse(m: Message, now: int) returns (s: Status)
      modifies this
      ensures Follows(old(State()), old(outbox), HandleRequestVoteResponse(old(State()), m, now), s)
    {
      if m.kind != RequestVoteRes { return Panic(WrongMessageType); }
      s := Fine;
      if m.term > term {
        ToFollower(m.term);
        return;
      }
      if role == Candidate && m.ok {
        votesReceived := votesReceived + 1;
        if votesReceived > |peerIDs| / 2 {
          s := ToLeader(term);
          if s.Panic? { return; }
          s := SendHeartbeats(now);
        }
      }
    }

    method StepAppendEntriesResponse(m: Message) returns (s: Status)
      modifies this
      ensures Follows(old(State()), old(outbox), HandleAppendEntriesResponse(old(State()), m), s)
    {
      if m.kind != AppendEntriesRes { return Panic(WrongMessageType); }
      if m.term > term && role != Follower {
        ToFollower(m.term);
      }
      return Fine;
    }

    method StepAppendEntriesRequest(m: Message, now: int) returns (s: Status)
      modifies this
      ensures Follows(old(State()), old(outbox), HandleAppendEntriesRequest(old(State()), m, now), s)
    {
      if m.kind != AppendEntriesReq { return Panic(WrongMessageType); }
      if m.term < term {
        outbox := outbox + [Message(id, m.from, AppendEntriesRes, false, term)];
        return Fine;
      }
      if m.term > term {
        ToFollower(m.term);
      }
      if role == Leader { return Panic(SplitBrain); }
      lastHeartbeatReceivedAt := now;
      var successResponse := Message(id, m.from, AppendEntriesRes, true, term);
      if role == Candidate {
        ToFollower(m.term);
      }
      outbox := outbox + [successResponse];
      return Fine;
    }

    method StepTick(now: int) returns (s: Status)
      modifies this
      ensures Follows(old(State()), old(outbox), HandleTick(old(State()), now), s)
    {
      s := Fine;
      if role == Leader {
        if now - lastHeartbeatSentAt >= heartbeatInterval {
          s := SendHeartbeats(now);
        }
        return;
      }
      if now - lastHeartbeatReceivedAt >= electionTimeout {
        var newTerm := term + 1;
        lastHeartbeatReceivedAt := now;
        s := ToCandidate(newTerm);
        if s.Panic? { return; }
        if |peerIDs| == 0 {
          s := ToLeader(term);
          if s.Panic? { return; }
          s := SendHeartbeats(now);
          return;
        }
        SendToPeers(RequestVoteReq);
      }
    }

    method SendHeartbeats(now: int) returns (s: Status)
      modifies this
      ensures Follows(old(State()), old(outbox), BroadcastHeartbeats(old(State()), now), s)
    {
      if role != Leader { return Panic(OnlyLeaderBroadcasts); }
      SendToPeers(AppendEntriesReq);
      lastHeartbeatSentAt := now;
      return Fine;
    }

    /** The loop over the peer list shared by both broadcasts. */
    method SendToPeers(kind: MessageType)
      modifies this`outbox
      ensures outbox == old(outbox) + ToAll(id, peerIDs, kind, term)
    {
      for k := 0 to |peerIDs|
        invariant outbox == old(outbox) + ToAll(id, peerIDs[..k], kind, term)
      {
        assert peerIDs[..k + 1][..k] == peerIDs[..k];
        outbox := outbox + [Message(id, peerIDs[k], kind, true, term)];
      }
      assert peerIDs[..|peerIDs|] == peerIDs;
    }

    method ToLeader(newTerm: int) returns (s: Status)
      modifies this
      ensures Follows(old(State()), old(outbox), BecomeLeader(old(State()), newTerm), s)
    {
      if role == Follower { return Panic(FollowerToLeader); }
      role, term := Leader, newTerm;
      return Fine;
    }

    method ToCandidate(newTerm: int) returns (s: Status)
      modifies this
      ensures Follows(old(State()), old(outbox), BecomeCandidate(old(State()), newTerm), s)
    {
      if role == Leader { return Panic(LeaderToCandidate); }
      role, term := Candidate, newTerm;
      votedFor := id;
      votesReceived := 1;
      return Fine;
    }

    method ToFollower(newTerm: int)
      modifies this
      ensures State() == BecomeFollower(old(State()), newTerm) && outbox == old(outbox)
    {
      if term != newTerm {
        term := newTerm;
        votedFor := 0;
      }
      role := Follower;
      votesReceived := 0;
    }
  }
}
