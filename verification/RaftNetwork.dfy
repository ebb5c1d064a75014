/**
  A cluster of Raft nodes over an asynchronous network, and election safety.

  An action lets one node handle a tick, delivers one message in flight, loses one, or copies
  one. Every schedule is a sequence of actions, so every interleaving, delay, reordering, loss
  and duplication is some schedule. Times are arbitrary integers: nothing here depends on clocks.
 */
module RaftNetwork {
  import opened RaftNode
  import opened Sums

  datatype State = State(nodes: map<int, NodeState>, flight: multiset<Message>)

  datatype Action =
    | TickNode(id: int, now: int)
    | Deliver(msg: Message, now: int)
    | Drop(msg: Message)
    | Duplicate(msg: Message)

  datatype Result = Running(state: State) | Crashed(reason: Panic)

  /** Node `i` takes the step `o`, with `flight` being what is left in flight. */
  function Commit(s: State, i: int, flight: multiset<Message>, o: Outcome): Result {
    match o
    case Done(n, sent) => Running(State(s.nodes[i := n], flight + multiset(sent)))
    case Panicked(p) => Crashed(p)
  }

  /** An action that names an absent node or message does nothing. */
  function Apply(s: State, a: Action): Result {
    match a
    case TickNode(i, now) =>
      if i in s.nodes then Commit(s, i, s.flight, Handle(s.nodes[i], Tick, now)) else Running(s)
    case Deliver(m, now) =>
      if m !in s.flight then Running(s)
      else if m.to !in s.nodes then Running(s.(flight := s.flight - multiset{m}))
      else Commit(s, m.to, s.flight - multiset{m}, Handle(s.nodes[m.to], Receive(m), now))
    case Drop(m) => Running(s.(flight := s.flight - multiset{m}))
    case Duplicate(m) =>
      if m in s.flight then Running(s.(flight := s.flight + multiset{m})) else Running(s)
  }

  function Exec(s: State, acts: seq<Action>): Result
    decreases |acts|
  {
    if acts == [] then Running(s)
    else
      var r := Apply(s, acts[0]);
      if r.Crashed? then r else Exec(r.state, acts[1..])
  }

  lemma {:induction false} ExecConcat(s: State, first: seq<Action>, second: seq<Action>)
    ensures Exec(s, first + second) ==
      if Exec(s, first).Crashed? then Exec(s, first) else Exec(Exec(s, first).state, second)
    decreases |first|
  {
    if first == [] {
      assert first + second == second;
    } else {
      assert (first + second)[1..] == first[1..] + second;
      var r := Apply(s, first[0]);
      if r.Running? {
        ExecConcat(r.state, first[1..], second);
      }
    }
  }

  /** No node appears, disappears, changes its configuration or goes back in its term. */
  ghost predicate Keeps(s: State, s': State) {
    && s'.nodes.Keys == s.nodes.Keys
    && forall i :: i in s.nodes ==> SameIdentity(s.nodes[i], s'.nodes[i]) && s.nodes[i].term <= s'.nodes[i].term
  }

  lemma ActionKeeps(s: State, a: Action)
    requires Apply(s, a).Running?
    ensures Keeps(s, Apply(s, a).state)
  {
    if a.TickNode? && a.id in s.nodes {
      StepKeeps(s.nodes[a.id], Tick, a.now);
    } else if a.Deliver? && a.msg in s.flight && a.msg.to in s.nodes {
      StepKeeps(s.nodes[a.msg.to], Receive(a.msg), a.now);
    }
  }

  lemma {:induction false} RunKeeps(s: State, acts: seq<Action>)
    requires Exec(s, acts).Running?
    ensures Keeps(s, Exec(s, acts).state)
    decreases |acts|
  {
    if acts != [] {
      ActionKeeps(s, acts[0]);
      RunKeeps(Apply(s, acts[0]).state, acts[1..]);
    }
  }

  // ----- configuration -----

  /** Every node knows its non-zero id and lists exactly the other nodes as peers, once each. */
  ghost predicate Configured(nodes: map<int, NodeState>) {
    forall i :: i in nodes ==>
      && i != 0
      && nodes[i].id == i
      && Distinct(nodes[i].peers)
      && forall p :: p in nodes[i].peers <==> p in nodes && p != i
  }

  ghost predicate Fresh(n: NodeState) {
    n == NewNode(n.id, n.peers, n.electionTimeout, n.heartbeatInterval)
  }

  /** A cluster before its first event. */
  ghost predicate Initial(s: State) {
    && Configured(s.nodes)
    && s.flight == multiset{}
    && forall i :: i in s.nodes ==> Fresh(s.nodes[i])
  }

  lemma {:induction false} DistinctSize(s: seq<int>)
    requires Distinct(s)
    ensures |set x | x in s| == |s|
  {
    if s != [] {
      var last := |s| - 1;
      DistinctSize(s[..last]);
      assert s == s[..last] + [s[last]];
      assert (set x | x in s) == (set x | x in s[..last]) + {s[last]};
    }
  }

  lemma PeerCount(nodes: map<int, NodeState>, i: int)
    requires Configured(nodes) && i in nodes
    ensures |nodes[i].peers| == |nodes| - 1
  {
    DistinctSize(nodes[i].peers);
    assert (set x | x in nodes[i].peers) == nodes.Keys - {i};
  }

  /** The cluster sizes for which two winning sets of voters always share a node. */
  predicate Quorate(size: int) {
    size % 2 == 1 || size <= 2
  }

  /** The action delivers a granted vote to a candidate that has already moved on to a later term. */
  ghost predicate LateVote(s: State, a: Action) {
    a.Deliver? && a.msg in s.flight && a.msg.kind == RequestVoteRes && a.msg.ok && a.msg.to in s.nodes
    && s.nodes[a.msg.to].role == Candidate && a.msg.term < s.nodes[a.msg.to].term
  }

  /** The two delivery conditions: nothing is copied, and no vote is late. */
  ghost predicate Timely(s: State, a: Action) {
    !a.Duplicate? && !LateVote(s, a)
  }

  ghost predicate TimelyRun(s: State, acts: seq<Action>)
    decreases |acts|
  {
    acts != [] ==>
      && Timely(s, acts[0])
      && (Apply(s, acts[0]).Running? ==> TimelyRun(Apply(s, acts[0]).state, acts[1..]))
  }

  // ----- history -----

  /**
    What has happened so far: who voted for whom in which term, which voters each candidate has
    counted in its current candidacy, and which voters made each leader.
   */
  datatype History = History(ballots: map<(int, int), int>, tally: map<int, set<int>>, wins: map<(int, int), set<int>>)

  const NO_HISTORY := History(map[], map[], map[])

  function TallyAfter(n: NodeState, h: History, e: Event, now: int): set<int> {
    if Stands(n, e, now) then {n.id}
    else
      var before := if n.id in h.tally then h.tally[n.id] else {};
      if Counts(n, e) then before + {e.message.from} else before
  }

  function RecordStep(n: NodeState, h: History, e: Event, now: int, n': NodeState): History {
    var tally := TallyAfter(n, h, e, now);
    History(
      if n'.votedFor != 0 then h.ballots[(n.id, n'.term) := n'.votedFor] else h.ballots,
      h.tally[n.id := tally],
      if n'.role == Leader && n.role != Leader then h.wins[(n.id, n'.term) := tally] else h.wins)
  }

  function Record(n: NodeState, h: History, e: Event, now: int): History {
    match Handle(n, e, now)
    case Panicked(_) => h
    case Done(n', _) => RecordStep(n, h, e, now, n')
  }

  function RecordAction(s: State, h: History, a: Action): History {
    match a
    case TickNode(i, now) => if i in s.nodes then Record(s.nodes[i], h, Tick, now) else h
    case Deliver(m, now) =>
      if m in s.flight && m.to in s.nodes then Record(s.nodes[m.to], h, Receive(m), now) else h
    case _ => h
  }

  /** The record only grows. */
  ghost predicate Extends(h: History, h': History) {
    && (forall k :: k in h.ballots ==> k in h'.ballots && h'.ballots[k] == h.ballots[k])
    && (forall k :: k in h.wins ==> k in h'.wins)
  }

  // ----- the invariant -----

  /** A node's `votedFor` is its ballot of the current term, and ballots are never from the future. */
  ghost predicate BallotInv(s: State, h: History) {
    && (forall k :: k in h.ballots ==>
          && k.0 in s.nodes && k.1 <= s.nodes[k.0].term
          && h.ballots[k] in s.nodes && k.1 <= s.nodes[h.ballots[k]].term)
    && (forall i :: i in s.nodes && s.nodes[i].votedFor != 0 ==>
          (i, s.nodes[i].term) in h.ballots && h.ballots[(i, s.nodes[i].term)] == s.nodes[i].votedFor)
    && (forall i :: i in s.nodes && (i, s.nodes[i].term) in h.ballots ==> s.nodes[i].votedFor != 0)
  }

  /** Every voter in `q` voted for `c` in term `t`. */
  ghost predicate VotedFor(h: History, q: set<int>, c: int, t: int) {
    forall v :: v in q ==> (v, t) in h.ballots && h.ballots[(v, t)] == c
  }

  /** A candidate's count is the number of distinct nodes whose votes in its term reached it. */
  ghost predicate TallyFacts(s: State, h: History, c: int)
    requires c in s.nodes
  {
    s.nodes[c].role == Candidate ==>
      && c in h.tally
      && c in h.tally[c]
      && |h.tally[c]| == s.nodes[c].votesReceived
      && VotedFor(h, h.tally[c], c, s.nodes[c].term)
  }

  ghost predicate TallyInv(s: State, h: History) {
    forall c :: c in s.nodes ==> TallyFacts(s, h, c)
  }

  /** Every leader was made by voters, in a quorate cluster by more than half of the nodes. */
  ghost predicate WinFacts(h: History, size: int, k: (int, int))
    requires k in h.wins
  {
    && h.wins[k] != {} && (Quorate(size) ==> 2 * |h.wins[k]| > size)
    && VotedFor(h, h.wins[k], k.0, k.1)
  }

  ghost predicate WinInv(s: State, h: History) {
    && (forall c :: c in s.nodes && s.nodes[c].role == Leader ==> (c, s.nodes[c].term) in h.wins)
    && (forall k :: k in h.wins ==> WinFacts(h, |s.nodes|, k))
  }

  ghost predicate SelfVoteInv(s: State) {
    forall i :: i in s.nodes ==> SelfVoted(s.nodes[i])
  }

  /** What a message in flight says about the past. */
  ghost predicate FlightFacts(s: State, h: History, m: Message) {
    && m.from in s.nodes && m.to in s.nodes && m.from != m.to && !m.kind.Other?
    && m.term <= s.nodes[m.from].term
    && (m.kind == RequestVoteReq ==> m.ok && (m.from, m.term) in h.ballots && h.ballots[(m.from, m.term)] == m.from)
    && (m.kind == RequestVoteRes && m.ok ==> (m.from, m.term) in h.ballots && h.ballots[(m.from, m.term)] == m.to)
    && (m.kind == AppendEntriesReq ==> (m.from, m.term) in h.wins)
  }

  ghost predicate FlightInv(s: State, h: History) {
    forall m :: m in s.flight ==> FlightFacts(s, h, m)
  }

  function Request(c: int, v: int, t: int): Message { Message(c, v, RequestVoteReq, true, t) }

  function Grant(v: int, c: int, t: int): Message { Message(v, c, RequestVoteRes, true, t) }

  function Heartbeat(c: int, v: int, t: int): Message { Message(c, v, AppendEntriesReq, true, t) }

  /** How often the vote of `v` for `c` in term `t` is still under way, as a request or as a granted vote. */
  function Pending(flight: multiset<Message>, c: int, v: int, t: int): nat {
    flight[Request(c, v, t)] + flight[Grant(v, c, t)]
  }

  /** No vote is under way twice, and none that the candidate has already counted. */
  ghost predicate OnceInv(s: State, h: History) {
    forall c, v, t :: c in s.nodes ==>
      && Pending(s.flight, c, v, t) <= 1
      && (s.nodes[c].role == Candidate && t == s.nodes[c].term && c in h.tally && v in h.tally[c]
          ==> Pending(s.flight, c, v, t) == 0)
  }

  /** Every vote ever cast is for `c`. */
  ghost predicate AllFor(h: History, c: int) {
    forall k :: k in h.ballots ==> h.ballots[k] == c
  }

  /** What rules out two winners of a term: majorities that overlap, or a single candidate so far. */
  ghost predicate Decisive(size: int, h: History) {
    Quorate(size) || forall j, k :: j in h.ballots && k in h.ballots ==> h.ballots[j] == h.ballots[k]
  }

  ghost predicate Inv(s: State, h: History) {
    && Configured(s.nodes)
    && Decisive(|s.nodes|, h)
    && SelfVoteInv(s)
    && BallotInv(s, h)
    && TallyInv(s, h)
    && WinInv(s, h)
    && FlightInv(s, h)
    && OnceInv(s, h)
  }

  lemma InitialInv(s: State)
    requires Initial(s)
    ensures Inv(s, NO_HISTORY)
  {
  }

  // ----- one step keeps the invariant -----

  /** Node `i` handles `e`, which is a tick or a message in flight to it that is not a late vote. */
  ghost predicate StepAt(s: State, i: int, e: Event, flight: multiset<Message>) {
    && i in s.nodes
    && match e
       case Foreign => false
       case Tick => flight == s.flight
       case Receive(m) =>
         && m in s.flight && m.to == i && flight == s.flight - multiset{m}
         && (m.kind == RequestVoteRes && m.ok && s.nodes[i].role == Candidate ==> m.term >= s.nodes[i].term)
  }

  /** Winners of one term share a voter, so they are the same node. */
  lemma OneWinner(s: State, h: History, a: int, b: int, t: int)
    requires WinInv(s, h) && BallotInv(s, h) && Decisive(|s.nodes|, h)
    requires (a, t) in h.wins && (b, t) in h.wins
    ensures a == b
  {
    var qa, qb := h.wins[(a, t)], h.wins[(b, t)];
    assert WinFacts(h, |s.nodes|, (a, t)) && WinFacts(h, |s.nodes|, (b, t));
    if Quorate(|s.nodes|) {
      MajoritiesMeet(s, h, a, b, t);
    } else {
      var v := AnElement(qa);
      var w := AnElement(qb);
      assert (v, t) in h.ballots && (w, t) in h.ballots;
    }
  }

  lemma MajoritiesMeet(s: State, h: History, a: int, b: int, t: int)
    requires BallotInv(s, h) && (a, t) in h.wins && (b, t) in h.wins
    requires VotedFor(h, h.wins[(a, t)], a, t) && VotedFor(h, h.wins[(b, t)], b, t)
    requires 2 * |h.wins[(a, t)]| > |s.nodes| && 2 * |h.wins[(b, t)]| > |s.nodes|
    ensures a == b
  {
    var qa, qb := h.wins[(a, t)], h.wins[(b, t)];
    assert forall v :: v in qa || v in qb ==> (v, t) in h.ballots;
    var v := Overlap(qa, qb, s.nodes.Keys);
  }

  /** No step the network can cause panics; "split brain" is dead because heartbeats come from winners. */
  lemma NoPanic(s: State, h: History, i: int, e: Event, now: int, flight: multiset<Message>)
    requires WinInv(s, h) && BallotInv(s, h) && FlightInv(s, h) && Decisive(|s.nodes|, h) && StepAt(s, i, e, flight)
    ensures Handle(s.nodes[i], e, now).Done?
  {
    PanicsExactly(s.nodes[i], e, now);
    if e.Receive? && e.message.kind == AppendEntriesReq
      && s.nodes[i].role == Leader && e.message.term == s.nodes[i].term {
      OneWinner(s, h, i, e.message.from, e.message.term);
      assert false;
    }
  }

  /** A disciplined step of node `i` from `s` to `s'`, with the record kept. */
  ghost predicate Stepped(s: State, h: History, i: int, e: Event, now: int, flight: multiset<Message>,
                          n': NodeState, sent: seq<Message>, s': State, h': History) {
    && Configured(s.nodes)
    && StepAt(s, i, e, flight)
    && Disciplined(s.nodes[i], e, now, n', sent)
    && s' == State(s.nodes[i := n'], flight + multiset(sent))
    && h' == RecordStep(s.nodes[i], h, e, now, n')
  }

  lemma StepConfigured(s: State, h: History, i: int, e: Event, now: int, flight: multiset<Message>,
                       n': NodeState, sent: seq<Message>, s': State, h': History)
    requires Stepped(s, h, i, e, now, flight, n', sent, s', h')
    requires SelfVoteInv(s)
    ensures s'.nodes.Keys == s.nodes.Keys && |s'.nodes| == |s.nodes| && Configured(s'.nodes) && SelfVoteInv(s')
  {
    assert s'.nodes.Keys == s.nodes.Keys;
  }

  /** Only one ballot can be new: the stepping node's ballot of its current term, for a node that stood in it. */
  lemma NewBallot(s: State, h: History, i: int, e: Event, now: int, flight: multiset<Message>,
                  n': NodeState, sent: seq<Message>, s': State, h': History)
    requires Stepped(s, h, i, e, now, flight, n', sent, s', h')
    requires BallotInv(s, h) && FlightInv(s, h)
    ensures n'.votedFor != 0 ==>
      && n'.votedFor in s.nodes && n'.term <= s'.nodes[n'.votedFor].term
      && ((i, n'.term) in h.ballots ==> h.ballots[(i, n'.term)] == n'.votedFor)
    ensures n'.votedFor == 0 ==> (i, n'.term) !in h.ballots
  {
  }

  lemma StepBallots(s: State, s': State, h: History, h': History, i: int)
    requires BallotInv(s, h) && i in s.nodes && i in s'.nodes
    requires s'.nodes == s.nodes[i := s'.nodes[i]] && s.nodes[i].term <= s'.nodes[i].term
    requires var n' := s'.nodes[i];
      if n'.votedFor != 0 then
        && h'.ballots == h.ballots[(i, n'.term) := n'.votedFor]
        && n'.votedFor in s.nodes && n'.term <= s'.nodes[n'.votedFor].term
        && ((i, n'.term) in h.ballots ==> h.ballots[(i, n'.term)] == n'.votedFor)
      else h'.ballots == h.ballots && (i, n'.term) !in h.ballots
    ensures MoreBallots(h, h')
    ensures BallotInv(s', h')
  {
    assert forall j :: j in s.nodes ==> s.nodes[j].term <= s'.nodes[j].term;
  }

  ghost predicate MoreBallots(h: History, h': History) {
    forall k :: k in h.ballots ==> k in h'.ballots && h'.ballots[k] == h.ballots[k]
  }

  /** The count of a candidate grows by a voter it has not counted before, or starts with itself. */
  lemma TallyGrows(s: State, h: History, i: int, e: Event, now: int, flight: multiset<Message>, n': NodeState,
                   h': History)
    requires Configured(s.nodes) && StepAt(s, i, e, flight) && Stands(s.nodes[i], e, now) != Counts(s.nodes[i], e)
    requires Stands(s.nodes[i], e, now) ==> n'.votedFor == i
    requires h' == RecordStep(s.nodes[i], h, e, now, n') && MoreBallots(h, h')
    requires TallyFacts(s, h, i) && OnceInv(s, h) && FlightInv(s, h)
    ensures i in h'.tally[i]
    ensures |h'.tally[i]| == if Counts(s.nodes[i], e) then s.nodes[i].votesReceived + 1 else 1
    ensures Counts(s.nodes[i], e) ==> |h'.tally[i]| >= 2
    ensures VotedFor(h', h'.tally[i], i, if Counts(s.nodes[i], e) then s.nodes[i].term else n'.term)
  {
    if Counts(s.nodes[i], e) {
      NewVoter(s, h, i, e, flight);
    }
  }

  /** A vote that arrives is counted for the first time, and was cast for the candidate in its current term. */
  lemma NewVoter(s: State, h: History, i: int, e: Event, flight: multiset<Message>)
    requires StepAt(s, i, e, flight) && Counts(s.nodes[i], e)
    requires TallyFacts(s, h, i) && OnceInv(s, h) && FlightInv(s, h)
    ensures e.message.from !in h.tally[i]
    ensures (e.message.from, s.nodes[i].term) in h.ballots && h.ballots[(e.message.from, s.nodes[i].term)] == i
  {
    var n, m := s.nodes[i], e.message;
    assert FlightFacts(s, h, m);
    assert m == Grant(m.from, i, n.term) && Pending(s.flight, i, m.from, n.term) > 0;
  }

  lemma StepTally(s: State, h: History, i: int, e: Event, now: int, n': NodeState, s': State, h': History)
    requires i in s.nodes && s'.nodes == s.nodes[i := n'] && n'.id == s.nodes[i].id == i
    requires h' == RecordStep(s.nodes[i], h, e, now, n') && MoreBallots(h, h')
    requires Counted(s.nodes[i], e, now, n')
    requires n'.role == Candidate && !Stands(s.nodes[i], e, now) ==>
      s.nodes[i].role == Candidate && n'.term == s.nodes[i].term
    requires TallyInv(s, h)
    requires Stands(s.nodes[i], e, now) || Counts(s.nodes[i], e) ==>
      && i in h'.tally[i]
      && |h'.tally[i]| == (if Counts(s.nodes[i], e) then s.nodes[i].votesReceived + 1 else 1)
      && VotedFor(h', h'.tally[i], i, if Counts(s.nodes[i], e) then s.nodes[i].term else n'.term)
    ensures TallyInv(s', h')
  {
    forall c | c in s'.nodes
      ensures TallyFacts(s', h', c)
    {
      assert TallyFacts(s, h, c);
    }
  }

  lemma StepWins(s: State, h: History, i: int, e: Event, now: int, n': NodeState, s': State, h': History)
    requires i in s.nodes && s'.nodes == s.nodes[i := n'] && n'.id == s.nodes[i].id == i
    requires h' == RecordStep(s.nodes[i], h, e, now, n') && MoreBallots(h, h')
    requires Counted(s.nodes[i], e, now, n')
    requires n'.role == Leader && !Stands(s.nodes[i], e, now) ==> n'.term == s.nodes[i].term
    requires WinInv(s, h) && |s'.nodes| == |s.nodes| == |s.nodes[i].peers| + 1
    requires Stands(s.nodes[i], e, now) || Counts(s.nodes[i], e) ==>
      && |h'.tally[i]| == (if Counts(s.nodes[i], e) then s.nodes[i].votesReceived + 1 else 1)
      && VotedFor(h', h'.tally[i], i, if Counts(s.nodes[i], e) then s.nodes[i].term else n'.term)
    requires Counts(s.nodes[i], e) ==> |h'.tally[i]| >= 2
    ensures WinInv(s', h') && Extends(h, h')
  {
    forall k | k in h'.wins
      ensures WinFacts(h', |s'.nodes|, k)
    {
      if k in h.wins && h'.wins[k] == h.wins[k] {
        assert WinFacts(h, |s.nodes|, k);
      } else {
        assert k == (i, n'.term) && h'.wins[k] == h'.tally[i];
      }
    }
  }

  /** A message in flight after the step was there before it or is justified by the step. */
  lemma StepFlight(s: State, h: History, i: int, e: Event, now: int, flight: multiset<Message>,
                   n': NodeState, sent: seq<Message>, s': State, h': History)
    requires Stepped(s, h, i, e, now, flight, n', sent, s', h')
    requires FlightInv(s, h) && BallotInv(s', h') && Extends(h, h')
    requires n'.role == Leader ==> (i, n'.term) in h'.wins
    ensures FlightInv(s', h')
  {
    forall m | m in s'.flight
      ensures FlightFacts(s', h', m)
    {
      if m in sent {
        assert Justified(s.nodes[i], e, now, n', m);
        assert e.Receive? ==> FlightFacts(s, h, e.message);
      } else {
        assert m in flight && FlightFacts(s, h, m);
      }
    }
  }

  /** A request is new only in a term nobody has voted in; a granted vote replaces the request it answers. */
  lemma StepPending(s: State, h: History, i: int, e: Event, now: int, flight: multiset<Message>,
                    n': NodeState, sent: seq<Message>, s': State, h': History, c: int, v: int, t: int)
    requires Stepped(s, h, i, e, now, flight, n', sent, s', h')
    requires OnceInv(s, h) && FlightInv(s, h) && BallotInv(s, h)
    requires c in s.nodes
    ensures if c == i && v != c && Stands(s.nodes[i], e, now) && t == n'.term
      then Pending(s'.flight, c, v, t) <= 1
      else Pending(s'.flight, c, v, t) <= Pending(s.flight, c, v, t)
    ensures e == Receive(Grant(v, c, t)) ==> Pending(s'.flight, c, v, t) < Pending(s.flight, c, v, t)
  {
    var req, ok := Request(c, v, t), Grant(v, c, t);
    assert multiset(sent)[req] == if req in sent then 1 else 0;
    assert multiset(sent)[ok] == if ok in sent then 1 else 0;
    if req in sent {
      RequestIsNew(s, h, i, e, now, flight, n', sent, s', h', c, v, t);
    } else if ok in sent {
      GrantReplaces(s, h, i, e, now, flight, n', sent, s', h', c, v, t);
    }
  }

  lemma RequestIsNew(s: State, h: History, i: int, e: Event, now: int, flight: multiset<Message>,
                     n': NodeState, sent: seq<Message>, s': State, h': History, c: int, v: int, t: int)
    requires Stepped(s, h, i, e, now, flight, n', sent, s', h')
    requires FlightInv(s, h) && BallotInv(s, h) && Request(c, v, t) in sent
    ensures e == Tick && c == i && v != c && Stands(s.nodes[i], e, now) && t == n'.term && Grant(v, c, t) !in sent
    ensures Pending(s.flight, c, v, t) == 0
  {
    var req, ok := Request(c, v, t), Grant(v, c, t);
    assert Justified(s.nodes[i], e, now, n', req);
    assert ok in sent ==> Justified(s.nodes[i], e, now, n', ok);
    assert req in s.flight ==> FlightFacts(s, h, req);
    assert ok in s.flight ==> FlightFacts(s, h, ok);
  }

  lemma GrantReplaces(s: State, h: History, i: int, e: Event, now: int, flight: multiset<Message>,
                      n': NodeState, sent: seq<Message>, s': State, h': History, c: int, v: int, t: int)
    requires Stepped(s, h, i, e, now, flight, n', sent, s', h')
    requires FlightInv(s, h) && Grant(v, c, t) in sent
    ensures v == i && e == Receive(Request(c, v, t)) && !Stands(s.nodes[i], e, now)
    ensures Pending(flight, c, v, t) == Pending(s.flight, c, v, t) - 1
  {
    assert Justified(s.nodes[i], e, now, n', Grant(v, c, t));
    assert FlightFacts(s, h, e.message);
  }

  lemma StepOnce(s: State, h: History, i: int, e: Event, now: int, flight: multiset<Message>,
                 n': NodeState, sent: seq<Message>, s': State, h': History)
    requires Stepped(s, h, i, e, now, flight, n', sent, s', h')
    requires OnceInv(s, h) && FlightInv(s, h) && BallotInv(s, h)
    ensures OnceInv(s', h')
  {
    forall c, v, t | c in s'.nodes
      ensures Pending(s'.flight, c, v, t) <= 1
      ensures s'.nodes[c].role == Candidate && t == s'.nodes[c].term && c in h'.tally && v in h'.tally[c]
              ==> Pending(s'.flight, c, v, t) == 0
    {
      StepPending(s, h, i, e, now, flight, n', sent, s', h', c, v, t);
      assert Pending(s.flight, c, v, t) <= 1;
      StepTallied(s, h, i, e, now, flight, n', sent, s', h', c, v, t);
    }
  }

  /** A voter counted after the step was counted before it, or is the one whose vote just arrived, or the candidate. */
  lemma StepTallied(s: State, h: History, i: int, e: Event, now: int, flight: multiset<Message>,
                    n': NodeState, sent: seq<Message>, s': State, h': History, c: int, v: int, t: int)
    requires Stepped(s, h, i, e, now, flight, n', sent, s', h')
    requires FlightInv(s, h) && c in s.nodes
    ensures s'.nodes[c].role == Candidate && t == s'.nodes[c].term && c in h'.tally && v in h'.tally[c] ==>
      || (s.nodes[c].role == Candidate && t == s.nodes[c].term && c in h.tally && v in h.tally[c]
          && !(c == i && Stands(s.nodes[i], e, now)))
      || e == Receive(Grant(v, c, t))
      || (v == c == i && Stands(s.nodes[i], e, now))
  {
    if e.Receive? {
      assert FlightFacts(s, h, e.message);
    }
  }

  /** In a cluster that is not quorate, nobody stands against an earlier candidate. */
  ghost predicate Uncontested(s: State, h: History, i: int, e: Event, now: int) {
    i in s.nodes && (Quorate(|s.nodes|) || (Stands(s.nodes[i], e, now) ==> AllFor(h, i)))
  }

  /** A new vote is for a node that has voted for itself before, or for a new candidate. */
  lemma StepDecisive(s: State, h: History, i: int, e: Event, now: int, flight: multiset<Message>,
                     n': NodeState, sent: seq<Message>, s': State, h': History)
    requires Stepped(s, h, i, e, now, flight, n', sent, s', h')
    requires Decisive(|s.nodes|, h) && FlightInv(s, h) && BallotInv(s, h) && Uncontested(s, h, i, e, now)
    ensures Decisive(|s.nodes|, h')
  {
    if !Quorate(|s.nodes|) && n'.votedFor != 0 && !Stands(s.nodes[i], e, now) {
      if n'.votedFor == s.nodes[i].votedFor && n'.term == s.nodes[i].term {
        assert (i, n'.term) in h.ballots;
      } else {
        assert FlightFacts(s, h, e.message);
      }
    }
  }

  /** Every step of the code is disciplined, counts as it should, and is recorded. */
  lemma StepShape(s: State, h: History, i: int, e: Event, now: int, flight: multiset<Message>)
    requires Configured(s.nodes) && SelfVoteInv(s) && StepAt(s, i, e, flight) && Handle(s.nodes[i], e, now).Done?
    ensures var o := Handle(s.nodes[i], e, now);
      && Stepped(s, h, i, e, now, flight, o.node, o.sent, State(s.nodes[i := o.node], flight + multiset(o.sent)),
        Record(s.nodes[i], h, e, now))
      && Counted(s.nodes[i], e, now, o.node)
    ensures |s.nodes[i].peers| + 1 == |s.nodes|
  {
    StepDiscipline(s.nodes[i], e, now);
    StepCounting(s.nodes[i], e, now);
    PeerCount(s.nodes, i);
  }

  lemma StepInv(s: State, h: History, i: int, e: Event, now: int, flight: multiset<Message>)
    requires Inv(s, h) && StepAt(s, i, e, flight) && Uncontested(s, h, i, e, now)
    ensures Handle(s.nodes[i], e, now).Done?
    ensures var o := Handle(s.nodes[i], e, now);
      var s', h' := State(s.nodes[i := o.node], flight + multiset(o.sent)), Record(s.nodes[i], h, e, now);
      Inv(s', h') && Extends(h, h') && |s'.nodes| == |s.nodes|
  {
    NoPanic(s, h, i, e, now, flight);
    StepShape(s, h, i, e, now, flight);
    var o := Handle(s.nodes[i], e, now);
    StepInvParts(s, h, i, e, now, flight, o.node, o.sent, State(s.nodes[i := o.node], flight + multiset(o.sent)),
      Record(s.nodes[i], h, e, now));
  }

  lemma StepInvParts(s: State, h: History, i: int, e: Event, now: int, flight: multiset<Message>,
                     n': NodeState, sent: seq<Message>, s': State, h': History)
    requires Inv(s, h) && Stepped(s, h, i, e, now, flight, n', sent, s', h') && Counted(s.nodes[i], e, now, n')
    requires |s.nodes[i].peers| + 1 == |s.nodes| && Uncontested(s, h, i, e, now)
    ensures Inv(s', h') && Extends(h, h') && |s'.nodes| == |s.nodes|
  {
    StepDecisive(s, h, i, e, now, flight, n', sent, s', h');
    StepConfigured(s, h, i, e, now, flight, n', sent, s', h');
    NewBallot(s, h, i, e, now, flight, n', sent, s', h');
    StepBallots(s, s', h, h', i);
    if Stands(s.nodes[i], e, now) || Counts(s.nodes[i], e) {
      TallyGrows(s, h, i, e, now, flight, n', h');
    }
    StepTally(s, h, i, e, now, n', s', h');
    StepWins(s, h, i, e, now, n', s', h');
    StepFlight(s, h, i, e, now, flight, n', sent, s', h');
    StepOnce(s, h, i, e, now, flight, n', sent, s', h');
  }

  /** Losing a message keeps the invariant. */
  lemma DropInv(s: State, h: History, m: Message)
    requires Inv(s, h)
    ensures Inv(s.(flight := s.flight - multiset{m}), h)
  {
    DropFlight(s, h, m);
    DropOnce(s, h, m);
  }

  lemma DropFlight(s: State, h: History, m: Message)
    requires FlightInv(s, h)
    ensures FlightInv(s.(flight := s.flight - multiset{m}), h)
  {
    var s' := s.(flight := s.flight - multiset{m});
    forall x | x in s'.flight
      ensures FlightFacts(s', h, x)
    {
      assert FlightFacts(s, h, x);
    }
  }

  lemma DropOnce(s: State, h: History, m: Message)
    requires OnceInv(s, h)
    ensures OnceInv(s.(flight := s.flight - multiset{m}), h)
  {
    var s' := s.(flight := s.flight - multiset{m});
    forall c, v, t | c in s.nodes
      ensures Pending(s'.flight, c, v, t) <= Pending(s.flight, c, v, t) <= 1
    {
    }
  }

  /** Every timely action keeps the invariant and cannot panic. */
  lemma ActionInv(s: State, h: History, a: Action)
    requires Inv(s, h) && Timely(s, a)
    requires a.TickNode? && a.id in s.nodes ==> Uncontested(s, h, a.id, Tick, a.now)
    ensures Apply(s, a).Running? && |Apply(s, a).state.nodes| == |s.nodes|
    ensures Inv(Apply(s, a).state, RecordAction(s, h, a)) && Extends(h, RecordAction(s, h, a))
  {
    match a
    case TickNode(i, now) =>
      if i in s.nodes { StepInv(s, h, i, Tick, now, s.flight); }
    case Deliver(m, now) =>
      if m in s.flight {
        assert FlightFacts(s, h, m);
        StepInv(s, h, m.to, Receive(m), now, s.flight - multiset{m});
      }
    case Drop(m) => DropInv(s, h, m);
  }

  // ----- whole runs -----

  lemma {:induction false} RunInv(s: State, h: History, acts: seq<Action>) returns (h': History)
    requires Inv(s, h) && Quorate(|s.nodes|) && TimelyRun(s, acts)
    ensures Exec(s, acts).Running? && |Exec(s, acts).state.nodes| == |s.nodes|
    ensures Inv(Exec(s, acts).state, h') && Extends(h, h')
    decreases |acts|
  {
    h' := h;
    if acts != [] {
      ActionInv(s, h, acts[0]);
      h' := RunInv(Apply(s, acts[0]).state, RecordAction(s, h, acts[0]), acts[1..]);
    }
  }

  lemma {:induction false} TimelyConcat(s: State, first: seq<Action>, second: seq<Action>)
    ensures TimelyRun(s, first + second) <==>
      TimelyRun(s, first) && (Exec(s, first).Running? ==> TimelyRun(Exec(s, first).state, second))
    decreases |first|
  {
    if first == [] {
      assert first + second == second;
    } else {
      assert (first + second)[1..] == first[1..] + second;
      if Apply(s, first[0]).Running? {
        TimelyConcat(Apply(s, first[0]).state, first[1..], second);
      }
    }
  }

  /** No vote of the schedule is late; messages may be copied. */
  ghost predicate PunctualRun(s: State, acts: seq<Action>)
    decreases |acts|
  {
    acts != [] ==>
      && !LateVote(s, acts[0])
      && (Apply(s, acts[0]).Running? ==> PunctualRun(Apply(s, acts[0]).state, acts[1..]))
  }

  lemma {:induction false} PunctualConcat(s: State, first: seq<Action>, second: seq<Action>)
    ensures PunctualRun(s, first + second) <==>
      PunctualRun(s, first) && (Exec(s, first).Running? ==> PunctualRun(Exec(s, first).state, second))
    decreases |first|
  {
    if first == [] {
      assert first + second == second;
    } else {
      assert (first + second)[1..] == first[1..] + second;
      if Apply(s, first[0]).Running? {
        PunctualConcat(Apply(s, first[0]).state, first[1..], second);
      }
    }
  }

  ghost predicate NoCopies(acts: seq<Action>) {
    forall a :: a in acts ==> !a.Duplicate?
  }

  lemma ExecOne(s: State, a: Action)
    ensures Exec(s, [a]) == Apply(s, a)
    ensures (Timely(s, a) ==> TimelyRun(s, [a])) && (!LateVote(s, a) ==> PunctualRun(s, [a]))
  {
    assert [a][1..] == [];
  }

  lemma InSequence(s: State, first: seq<Action>, s1: State, second: seq<Action>, s2: State)
    requires Exec(s, first) == Running(s1) && Exec(s1, second) == Running(s2)
    ensures Exec(s, first + second) == Running(s2)
    ensures TimelyRun(s, first) && TimelyRun(s1, second) ==> TimelyRun(s, first + second)
    ensures PunctualRun(s, first) && PunctualRun(s1, second) ==> PunctualRun(s, first + second)
  {
    ExecConcat(s, first, second);
    TimelyConcat(s, first, second);
    PunctualConcat(s, first, second);
  }

  /** After the first `k` actions of the schedule, node `a` leads in term `t`. */
  ghost predicate LeaderAt(s: State, acts: seq<Action>, k: nat, a: int, t: int) {
    && k <= |acts|
    && var r := Exec(s, acts[..k]);
       r.Running? && a in r.state.nodes && r.state.nodes[a].role == Leader && r.state.nodes[a].term == t
  }

  /** In the whole schedule, no term ever has two leaders, whether at once or one after the other. */
  ghost predicate OneLeaderPerTerm(s: State, acts: seq<Action>) {
    forall i, j, a, b, t :: LeaderAt(s, acts, i, a, t) && LeaderAt(s, acts, j, b, t) ==> a == b
  }

  lemma OneLeaderOrdered(s: State, acts: seq<Action>, i: nat, j: nat, a: int, b: int, t: int)
    requires Initial(s) && Quorate(|s.nodes|) && TimelyRun(s, acts)
    requires i <= j && LeaderAt(s, acts, i, a, t) && LeaderAt(s, acts, j, b, t)
    ensures a == b
  {
    InitialInv(s);
    var p, q := acts[..i], acts[i..j];
    assert acts == p + acts[i..] && acts[i..] == q + acts[j..] && acts[..j] == p + q;
    TimelyConcat(s, p, acts[i..]);
    var hp := RunInv(s, NO_HISTORY, p);
    var sp := Exec(s, p).state;
    TimelyConcat(sp, q, acts[j..]);
    var hq := RunInv(sp, hp, q);
    ExecConcat(s, p, q);
    OneWinner(Exec(sp, q).state, hq, a, b, t);
  }

  /** Election safety: every timely schedule of a quorate cluster has at most one leader per term. */
  lemma ElectionSafety(s: State, acts: seq<Action>)
    requires Initial(s) && Quorate(|s.nodes|) && TimelyRun(s, acts)
    ensures OneLeaderPerTerm(s, acts)
  {
    forall i, j, a, b, t | LeaderAt(s, acts, i, a, t) && LeaderAt(s, acts, j, b, t)
      ensures a == b
    {
      if i <= j {
        OneLeaderOrdered(s, acts, i, j, a, b, t);
      } else {
        OneLeaderOrdered(s, acts, j, i, b, a, t);
      }
    }
  }

  /** No panic of the node code is reachable in any timely schedule of a quorate cluster. */
  lemma NeverPanics(s: State, acts: seq<Action>)
    requires Initial(s) && Quorate(|s.nodes|) && TimelyRun(s, acts)
    ensures Exec(s, acts).Running?
  {
    InitialInv(s);
    var h := RunInv(s, NO_HISTORY, acts);
  }
}
