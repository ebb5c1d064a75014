/**
  One-tick convergence: when a single node stands in a term above all others and nothing is lost,
  one call of `Tick` makes it the leader of everybody, whatever the order of delivery.
 */
module RaftConvergence {
  import opened RaftNode
  import opened RaftNetwork
  import opened RaftLockstep
  import opened Sums

  /** What may be in flight while `c` is being elected in term `t`. */
  predicate Orderly(m: Message, c: int, t: int) {
    && m.term <= t
    && match m.kind
       case RequestVoteReq => m.from == c && m.to != c && m.ok && m.term == t
       case RequestVoteRes => m.to == c
       case AppendEntriesReq => (m.from == c && m.to != c) || m.term < t
       case AppendEntriesRes => true
       case Other(_) => false
  }

  /** A node that has not reached term `t` yet, or follows in it without having voted for anyone but `c`. */
  predicate Open(n: NodeState, c: int, t: int) {
    n.term < t || (n.term == t && n.role == Follower && (n.votedFor == 0 || n.votedFor == c))
  }

  predicate Joined(n: NodeState, c: int, t: int) {
    n.term == t && n.role == Follower && n.votedFor == c
  }

  /** An open node stays open; the request makes it join, the heartbeat of the new leader resets its timer. */
  ghost predicate VoterMoved(n: NodeState, m: Message, now: int, c: int, t: int, n': NodeState, sent: seq<Message>) {
    && Open(n', c, t)
    && (Joined(n, c, t) ==> Joined(n', c, t))
    && (m.kind == RequestVoteReq ==> Joined(n', c, t) && Grant(n.id, c, t) in sent)
    && (n'.heardAt == n.heardAt || n'.heardAt == now)
    && (m.kind == AppendEntriesReq && m.term == t ==> n'.heardAt == now)
    && (m.kind != RequestVoteReq && Joined(n', c, t) ==> Joined(n, c, t))
    && forall x :: x in sent ==> Orderly(x, c, t)
  }

  lemma VoterStep(n: NodeState, m: Message, now: int, c: int, t: int)
    requires c != 0 && Open(n, c, t) && Orderly(m, c, t) && m.to == n.id != c
    requires Handle(n, Receive(m), now).Done?
    ensures VoterMoved(n, m, now, c, t, Handle(n, Receive(m), now).node, Handle(n, Receive(m), now).sent)
  {
    assert m.kind == RequestVoteReq ==> Handle(n, Receive(m), now).sent == [Grant(n.id, c, t)];
  }

  /** The standing node keeps its term and never falls back; on taking the lead it sends heartbeats to all. */
  ghost predicate StanderMoved(n: NodeState, m: Message, now: int, t: int, n': NodeState, sent: seq<Message>) {
    && n'.id == n.id && n'.peers == n.peers && n'.term == t && n'.role != Follower
    && (n.role == Leader ==> n'.role == Leader && n'.sentAt == n.sentAt)
    && (n.role == Candidate && n'.role == Leader ==>
          n'.sentAt == now && forall v :: v in n.peers ==> Heartbeat(n.id, v, t) in sent)
    && (n'.role == Candidate ==> n'.votesReceived == n.votesReceived || n'.votesReceived <= |n.peers| / 2)
    && forall x :: x in sent ==> Orderly(x, n.id, t)
  }

  lemma StanderStep(n: NodeState, m: Message, now: int, t: int)
    requires n.role != Follower && n.term == t && Orderly(m, n.id, t) && m.to == n.id && n.id !in n.peers
    requires Handle(n, Receive(m), now).Done?
    ensures StanderMoved(n, m, now, t, Handle(n, Receive(m), now).node, Handle(n, Receive(m), now).sent)
  {
    ToAllMembers(n.id, n.peers, AppendEntriesReq, t);
    assert forall v :: v in n.peers ==> IsBroadcast(Heartbeat(n.id, v, t), n.id, n.peers, AppendEntriesReq, t);
  }

  /** Where node `v` stands: its request is still under way, or it has joined and its vote is under way or counted; and
      once `c` leads, the heartbeat is under way or has been heard. */
  ghost predicate Joining(s: State, h: History, c: int, t: int, now: int, v: int)
    requires c in s.nodes && v in s.nodes
  {
    && Open(s.nodes[v], c, t)
    && (Request(c, v, t) in s.flight || Joined(s.nodes[v], c, t))
    && (Joined(s.nodes[v], c, t) && s.nodes[c].role == Candidate ==>
          Request(c, v, t) in s.flight || Grant(v, c, t) in s.flight || (c in h.tally && v in h.tally[c]))
    && (s.nodes[c].role == Leader ==> Heartbeat(c, v, t) in s.flight || s.nodes[v].heardAt == now)
  }

  ghost predicate Standing(s: State, c: int, t: int, now: int) {
    && c in s.nodes && s.nodes[c].term == t && s.nodes[c].role != Follower
    && (s.nodes[c].role == Leader ==> s.nodes[c].sentAt == now)
    && (s.nodes[c].role == Candidate ==>
          && |s.nodes[c].peers| > 0
          && (s.nodes[c].votesReceived == 1 || s.nodes[c].votesReceived <= |s.nodes[c].peers| / 2))
  }

  ghost predicate Converging(s: State, h: History, c: int, t: int, now: int) {
    && Standing(s, c, t, now)
    && (forall v :: v in s.nodes && v != c ==> Joining(s, h, c, t, now, v))
    && (forall m :: m in s.flight ==> Orderly(m, c, t))
  }

  ghost predicate Converged(s: State, c: int, t: int, now: int) {
    && c in s.nodes && s.nodes[c].role == Leader && s.nodes[c].term == t && s.nodes[c].sentAt == now
    && forall v :: v in s.nodes && v != c ==>
         s.nodes[v].role == Follower && s.nodes[v].term == t && s.nodes[v].votedFor == c && s.nodes[v].heardAt == now
  }

  /** The next state when `m` is delivered. */
  function After(s: State, m: Message, n': NodeState, sent: seq<Message>): State {
    State(s.nodes[m.to := n'], s.flight - multiset{m} + multiset(sent))
  }

  lemma DeliverToVoter(s: State, h: History, h': History, c: int, t: int, now: int, m: Message, n': NodeState,
                       sent: seq<Message>)
    requires Configured(s.nodes) && Converging(s, h, c, t, now) && m in s.flight && m.to in s.nodes && m.to != c
    requires VoterMoved(s.nodes[m.to], m, now, c, t, n', sent)
    requires c in h.tally ==> c in h'.tally && h'.tally[c] == h.tally[c]
    ensures Converging(After(s, m, n', sent), h', c, t, now)
  {
    var i, s' := m.to, After(s, m, n', sent);
    assert forall x :: x in s'.flight ==> x in s.flight || x in sent;
    assert forall x :: x in s.flight && x != m ==> x in s'.flight;
    forall v | v in s'.nodes && v != c
      ensures Joining(s', h', c, t, now, v)
    {
      assert Joining(s, h, c, t, now, v);
      if v == i && m.kind == RequestVoteReq {
        assert Grant(i, c, t) in s'.flight;
      }
    }
  }

  lemma DeliverToStander(s: State, h: History, h': History, c: int, t: int, now: int, m: Message, n': NodeState,
                         sent: seq<Message>)
    requires Configured(s.nodes) && Converging(s, h, c, t, now) && m in s.flight && m.to == c
    requires StanderMoved(s.nodes[c], m, now, t, n', sent)
    requires c in h'.tally && (c in h.tally ==> h.tally[c] <= h'.tally[c])
    requires s.nodes[c].role == Candidate && m.kind == RequestVoteRes && m.ok && m.term == t ==> m.from in h'.tally[c]
    ensures Converging(After(s, m, n', sent), h', c, t, now)
  {
    var s' := After(s, m, n', sent);
    assert forall x :: x in s'.flight ==> x in s.flight || x in sent;
    assert forall x :: x in s.flight && x != m ==> x in s'.flight;
    assert forall x :: x in sent ==> x in s'.flight;
    forall v | v in s'.nodes && v != c
      ensures Joining(s', h', c, t, now, v)
    {
      assert Joining(s, h, c, t, now, v);
      assert v in s.nodes[c].peers;
    }
  }

  /** The election of `c` is on its way, in a reachable state of a lockstep call. */
  ghost predicate OnTrack(s: State, h: History, c: int, t: int, now: int) {
    Inv(s, h) && CurrentVotes(s) && Converging(s, h, c, t, now)
  }

  /** Delivering any message keeps the election on its way. */
  lemma DeliverConverges(s: State, h: History, c: int, t: int, now: int, m: Message) returns (h': History)
    requires OnTrack(s, h, c, t, now)
    ensures Apply(s, Deliver(m, now)).Running? && OnTrack(Apply(s, Deliver(m, now)).state, h', c, t, now)
  {
    h' := h;
    if m in s.flight {
      DecideKeeps(s, h, Deliver(m, now), now);
      assert FlightFacts(s, h, m) && Orderly(m, c, t);
      var n', sent := Handle(s.nodes[m.to], Receive(m), now).node, Handle(s.nodes[m.to], Receive(m), now).sent;
      h' := RecordStep(s.nodes[m.to], h, Receive(m), now, n');
      DeliverStep(s, h, h', c, t, now, m, n', sent);
    }
  }

  lemma DeliverStep(s: State, h: History, h': History, c: int, t: int, now: int, m: Message, n': NodeState,
                    sent: seq<Message>)
    requires Configured(s.nodes) && Converging(s, h, c, t, now)
    requires m in s.flight && m.to in s.nodes && m.from != m.to && c != 0
    requires Handle(s.nodes[m.to], Receive(m), now) == Done(n', sent)
    requires h' == RecordStep(s.nodes[m.to], h, Receive(m), now, n')
    ensures Converging(After(s, m, n', sent), h', c, t, now)
  {
    assert Orderly(m, c, t);
    if m.to == c {
      StanderStep(s.nodes[c], m, now, t);
      DeliverToStander(s, h, h', c, t, now, m, n', sent);
    } else {
      assert Joining(s, h, c, t, now, m.to);
      VoterStep(s.nodes[m.to], m, now, c, t);
      DeliverToVoter(s, h, h', c, t, now, m, n', sent);
    }
  }

  lemma {:induction false} DeliveriesConverge(s: State, h: History, c: int, t: int, now: int, acts: seq<Action>)
    returns (h': History)
    requires OnTrack(s, h, c, t, now)
    requires forall a :: a in acts ==> a.Deliver? && a.now == now
    ensures Exec(s, acts).Running? && OnTrack(Exec(s, acts).state, h', c, t, now)
    decreases |acts|
  {
    h' := h;
    if acts != [] {
      assert acts[0] in acts;
      var h1 := DeliverConverges(s, h, c, t, now, acts[0].msg);
      assert acts[0] == Deliver(acts[0].msg, now);
      h' := DeliveriesConverge(Apply(s, acts[0]).state, h1, c, t, now, acts[1..]);
    }
  }

  /** With nothing left in flight, everybody's vote was counted, so the candidate must have won. */
  lemma QuietIsConverged(s: State, h: History, c: int, t: int, now: int)
    requires Inv(s, h) && Converging(s, h, c, t, now) && s.flight == multiset{}
    ensures Converged(s, c, t, now)
  {
    assert forall v :: v in s.nodes && v != c ==> Joining(s, h, c, t, now, v);
    if s.nodes[c].role == Candidate {
      assert TallyFacts(s, h, c);
      if !(s.nodes.Keys <= h.tally[c]) {
        var v := Outside(s.nodes.Keys, h.tally[c]);
      }
      SubsetSize(s.nodes.Keys, h.tally[c]);
      PeerCount(s.nodes, c);
      assert false;
    }
  }

  /** Exactly node `c` stands at time `now`, in a term above everybody else's. */
  ghost predicate StandsAlone(s: State, c: int, now: int) {
    && c in s.nodes
    && (forall i :: i in s.nodes ==> (Stands(s.nodes[i], Tick, now) <==> i == c))
    && (forall i :: i in s.nodes ==> s.nodes[i].term <= s.nodes[c].term)
  }

  lemma TickedConverging(s: State, h: History, c: int, now: int, s1: State)
    requires Configured(s.nodes) && StandsAlone(s, c, now) && Ticked(s, now, s1)
    ensures Converging(s1, h, c, s.nodes[c].term + 1, now)
  {
    var t := s.nodes[c].term + 1;
    assert Stands(s.nodes[c], Tick, now);
    TickedOrderly(s, c, now, s1);
    forall v | v in s1.nodes && v != c
      ensures Joining(s1, h, c, t, now, v)
    {
      TickKeepsOthers(s.nodes[v], now);
      assert v in s.nodes[c].peers;
      TickRequests(s.nodes[c], now, v);
      assert Request(c, v, t) in s1.flight;
    }
    StanderTicks(s.nodes[c], now);
  }

  lemma TickedOrderly(s: State, c: int, now: int, s1: State)
    requires Configured(s.nodes) && StandsAlone(s, c, now) && Ticked(s, now, s1)
    ensures forall m :: m in s1.flight ==> Orderly(m, c, s.nodes[c].term + 1)
  {
    forall m | m in s1.flight
      ensures Orderly(m, c, s.nodes[c].term + 1)
    {
      assert SentByTick(s, now, m);
      SentInTerm(s, now, m);
      assert s.nodes[m.from].term <= s.nodes[c].term;
    }
  }

  lemma StanderTicks(n: NodeState, now: int)
    requires Stands(n, Tick, now)
    ensures var n' := HandleTick(n, now).node;
      n'.term == n.term + 1 && n'.peers == n.peers &&
      if n.peers == [] then n'.role == Leader && n'.sentAt == now else n'.role == Candidate && n'.votesReceived == 1
  {
  }

  lemma TickKeepsOthers(n: NodeState, now: int)
    requires !Stands(n, Tick, now)
    ensures HandleTick(n, now).node.term == n.term
  {
  }

  lemma TickRequests(n: NodeState, now: int, v: int)
    requires Stands(n, Tick, now) && v in n.peers
    ensures Request(n.id, v, n.term + 1) in HandleTick(n, now).sent && HandleTick(n, now).node.role == Candidate
  {
    ToAllMembers(n.id, n.peers, RequestVoteReq, n.term + 1);
    assert IsBroadcast(Request(n.id, v, n.term + 1), n.id, n.peers, RequestVoteReq, n.term + 1);
  }

  ghost predicate NothingLost(c: Call) {
    forall a :: a in Concat(c.rounds) ==> a.Deliver?
  }

  lemma CallConverges(s: State, h: History, call: Call, c: int)
    requires Inv(s, h) && s.flight == multiset{} && (Quorate(|s.nodes|) || AllFor(h, c))
    requires Lockstep(s, call) && Finished(s, call) && NothingLost(call) && StandsAlone(s, c, call.now)
    ensures Exec(s, Actions(call)).Running?
    ensures Converged(Exec(s, Actions(call)).state, c, s.nodes[c].term + 1, call.now)
  {
    var h1, h2 := CallTimely(s, h, call, c);
    var s1 := Exec(s, TickAll(call.order, call.now)).state;
    TickedCurrent(s, call.now, s1);
    TickedConverging(s, h1, c, call.now, s1);
    forall a | a in Concat(call.rounds)
      ensures a.Deliver? && a.now == call.now
    {
      assert Decides(a, call.now);
    }
    var h' := DeliveriesConverge(s1, h1, c, s.nodes[c].term + 1, call.now, Concat(call.rounds));
    QuietIsConverged(Exec(s, Actions(call)).state, h', c, s.nodes[c].term + 1, call.now);
  }

  /**
    After every lockstep run of a quorate cluster, with whatever losses before: if one node stands alone
    and nothing is lost in this call, the call ends, for every order of nodes and messages, with that node
    leading its new term and every other node following in it, having voted for the leader and heard it at
    this very tick.
   */
  lemma OneTickConvergence(s0: State, calls: seq<Call>, s: State, call: Call, c: int)
    requires Initial(s0) && Quorate(|s0.nodes|) && LockstepRun(s0, calls) && Exec(s0, Schedule(calls)) == Running(s)
    requires Lockstep(s, call) && Finished(s, call) && NothingLost(call) && StandsAlone(s, c, call.now)
    ensures Exec(s, Actions(call)).Running?
    ensures Converged(Exec(s, Actions(call)).state, c, s.nodes[c].term + 1, call.now)
  {
    InitialInv(s0);
    var h := CallsTimely(s0, NO_HISTORY, calls);
    CallConverges(s, h, call, c);
  }
}
