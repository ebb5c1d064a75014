/**
  Fresh clusters of every size, and single steps of theirs, from which the splitting runs of
  `RaftSizes` and `RaftDelivery` are built.
 */
module RaftFleet {
  import opened RaftNode
  import opened RaftNetwork

  // ----- fresh clusters of every size -----

  function Others(n: nat, i: int): seq<int> {
    if n == 0 then [] else Others(n - 1, i) + if n == i then [] else [n]
  }

  lemma {:induction false} OthersList(n: nat, i: int)
    ensures Distinct(Others(n, i))
    ensures forall p :: p in Others(n, i) <==> 1 <= p <= n && p != i
  {
    if n > 0 {
      OthersList(n - 1, i);
      var shorter := Others(n - 1, i);
      assert forall j :: 0 <= j < |shorter| ==> shorter[j] in shorter;
    }
  }

  function Ids(n: nat): (ids: set<int>)
    ensures |ids| == n
    ensures forall i :: i in ids <==> 1 <= i <= n
  {
    if n == 0 then {} else Ids(n - 1) + {n}
  }

  /** Nodes 1 and 2 stand before the others. */
  function Timeout(i: int): int {
    if i <= 2 then 1 else 2
  }

  /** Nodes 1 to `n` with heartbeat interval 1. */
  ghost function Fleet(n: nat): State {
    State(map i | i in Ids(n) :: NewNode(i, Others(n, i), Timeout(i), 1), multiset{})
  }

  lemma FleetInitial(n: nat)
    ensures Initial(Fleet(n)) && |Fleet(n).nodes| == n
  {
    var nodes := Fleet(n).nodes;
    assert nodes.Keys == Ids(n);
    forall i | i in nodes
      ensures nodes[i].id == i && i != 0 && Distinct(nodes[i].peers) && Fresh(nodes[i])
      ensures forall p :: p in nodes[i].peers <==> p in nodes && p != i
    {
      OthersList(n, i);
    }
  }

  /** Node `i` of a fleet of `n` before its first event. */
  ghost predicate Rested(s: State, n: nat, i: int) {
    && i in s.nodes && s.nodes[i] == NewNode(i, s.nodes[i].peers, Timeout(i), 1)
    && |s.nodes[i].peers| == n - 1
    && forall v :: 1 <= v <= n && v != i ==> v in s.nodes[i].peers
  }

  lemma FleetRests(n: nat, i: int)
    requires 1 <= i <= n
    ensures Rested(Fleet(n), n, i)
  {
    FleetInitial(n);
    OthersList(n, i);
    PeerCount(Fleet(n).nodes, i);
  }

  // ----- single steps -----

  ghost predicate StoodUp(s: State, i: int, now: int, s': State)
    requires i in s.nodes
  {
    var n := s.nodes[i];
    && s'.nodes == s.nodes[
         i := n.(heardAt := now, role := Candidate, term := n.term + 1, votedFor := i, votesReceived := 1)]
    && s.flight <= s'.flight
    && (forall v :: v in n.peers ==> Request(i, v, n.term + 1) in s'.flight)
  }

  /** Node `i` stands: it becomes a candidate of the next term and asks every peer. */
  lemma StandStep(s: State, i: int, now: int)
    requires i in s.nodes && Stands(s.nodes[i], Tick, now) && s.nodes[i].peers != [] && s.nodes[i].id == i
    ensures Apply(s, TickNode(i, now)).Running?
    ensures StoodUp(s, i, now, Apply(s, TickNode(i, now)).state)
  {
    var n := s.nodes[i];
    ToAllMembers(i, n.peers, RequestVoteReq, n.term + 1);
    assert forall v :: v in n.peers ==> IsBroadcast(Request(i, v, n.term + 1), i, n.peers, RequestVoteReq, n.term + 1);
  }

  /** Node `v`, still in an earlier term, grants its vote to `c`. */
  lemma GrantStep(s: State, c: int, v: int, t: int, now: int)
    requires v in s.nodes && s.nodes[v].id == v && s.nodes[v].term < t && Request(c, v, t) in s.flight
    ensures Timely(s, Deliver(Request(c, v, t), now)) && Apply(s, Deliver(Request(c, v, t), now)).Running?
    ensures var s' := Apply(s, Deliver(Request(c, v, t), now)).state;
      && s'.nodes == s.nodes[v := s.nodes[v].(role := Follower, term := t, votedFor := c, votesReceived := 0)]
      && s'.flight == s.flight - multiset{Request(c, v, t)} + multiset{Grant(v, c, t)}
  {
    assert Handle(s.nodes[v], Receive(Request(c, v, t)), now).sent == [Grant(v, c, t)];
  }

  /** Candidate `c` counts a vote of its own or an earlier term, and leads if that makes the threshold. */
  lemma CountStep(s: State, v: int, c: int, t: int, now: int)
    requires c in s.nodes && s.nodes[c].id == c && s.nodes[c].role == Candidate
    requires t <= s.nodes[c].term && Grant(v, c, t) in s.flight
    ensures Apply(s, Deliver(Grant(v, c, t), now)).Running?
    ensures t == s.nodes[c].term ==> Timely(s, Deliver(Grant(v, c, t), now))
    ensures var s', votes := Apply(s, Deliver(Grant(v, c, t), now)).state, s.nodes[c].votesReceived + 1;
      && s'.nodes.Keys == s.nodes.Keys && s'.nodes == s.nodes[c := s'.nodes[c]]
      && SameIdentity(s.nodes[c], s'.nodes[c]) && s'.nodes[c].term == s.nodes[c].term
      && s'.nodes[c].votesReceived == votes
      && s'.nodes[c].role == (if votes > |s.nodes[c].peers| / 2 then Leader else Candidate)
      && s.flight - multiset{Grant(v, c, t)} <= s'.flight
      && (votes > |s.nodes[c].peers| / 2 ==> Beats(s', c, s.nodes[c].term))
  {
    var n := s.nodes[c];
    ToAllMembers(c, n.peers, AppendEntriesReq, n.term);
    assert forall p :: p in n.peers ==> IsBroadcast(Heartbeat(c, p, n.term), c, n.peers, AppendEntriesReq, n.term);
  }

  /** Heartbeats of `c` in term `t` are under way to all its peers. */
  ghost predicate Beats(s: State, c: int, t: int) {
    c in s.nodes && forall p :: p in s.nodes[c].peers ==> Heartbeat(c, p, t) in s.flight
  }

  /** `c` is a candidate of term `t` with its own vote only. */
  ghost predicate Stood(s: State, c: int, t: int, peers: nat) {
    && c in s.nodes && s.nodes[c].id == c && s.nodes[c].role == Candidate && s.nodes[c].term == t
    && s.nodes[c].votesReceived == 1 && |s.nodes[c].peers| == peers
  }

  /** The `k` nodes from `lo` on have not voted yet and are asked by `c` in term 1. */
  ghost predicate Askable(s: State, c: int, lo: int, k: nat) {
    forall v :: lo <= v < lo + k ==>
      v in s.nodes && v != c && s.nodes[v].id == v && s.nodes[v].term < 1 && Request(c, v, 1) in s.flight
  }

  ghost predicate Leads(s: State, c: int, t: int) {
    c in s.nodes && s.nodes[c].role == Leader && s.nodes[c].term == t
  }

  /** A schedule on whose way there are two leaders of one term. */
  lemma TwoLeaders(s: State, acts: seq<Action>, first: seq<Action>, s': State, a: int, b: int, t: int)
    requires first <= acts && Exec(s, first) == Running(s') && Leads(s', a, t) && Leads(s', b, t) && a != b
    ensures !OneLeaderPerTerm(s, acts)
  {
    assert acts[..|first|] == first;
    assert LeaderAt(s, acts, |first|, a, t) && LeaderAt(s, acts, |first|, b, t);
  }

  /** A leader that hears another one of its term panics. */
  lemma SplitBrainPanics(s: State, a: int, b: int, t: int, now: int)
    requires Leads(s, b, t) && Heartbeat(a, b, t) in s.flight
    ensures Apply(s, Deliver(Heartbeat(a, b, t), now)) == Crashed(SplitBrain)
  {
  }
}
