/**
  One vote per term, for a single node under every possible input: messages lost, repeated,
  reordered, forged or from the future.
 */
module RaftVotes {
  import opened RaftNode

  datatype Input = Input(event: Event, now: int)

  /** Everything a node sends over a run; a panic ends the run. */
  function Sent(n: NodeState, inputs: seq<Input>): seq<Message>
    decreases |inputs|
  {
    if inputs == [] then []
    else
      match Handle(n, inputs[0].event, inputs[0].now)
      case Panicked(_) => []
      case Done(n', sent) => sent + Sent(n', inputs[1..])
  }

  /** The state a node reaches; a panic ends the run. */
  function Reached(n: NodeState, inputs: seq<Input>): NodeState
    decreases |inputs|
  {
    if inputs == [] then n
    else
      match Handle(n, inputs[0].event, inputs[0].now)
      case Panicked(_) => n
      case Done(n', _) => Reached(n', inputs[1..])
  }

  /** Whatever arrives: candidates and leaders have voted for themselves, and terms never decrease. */
  lemma {:induction false} VotesForItself(n: NodeState, inputs: seq<Input>)
    requires n.id != 0 && SelfVoted(n)
    ensures var n' := Reached(n, inputs); SelfVoted(n') && SameIdentity(n, n') && n.term <= n'.term
    decreases |inputs|
  {
    if inputs != [] && Handle(n, inputs[0].event, inputs[0].now).Done? {
      StepDiscipline(n, inputs[0].event, inputs[0].now);
      VotesForItself(Handle(n, inputs[0].event, inputs[0].now).node, inputs[1..]);
    }
  }

  /** A vote request and a granted vote each back one node: the sender itself, or the candidate answered. */
  predicate Backs(m: Message) {
    m.kind == RequestVoteReq || (m.kind == RequestVoteRes && m.ok)
  }

  function Backed(m: Message): int
    requires Backs(m)
  {
    if m.kind == RequestVoteReq then m.from else m.to
  }

  /**
    All votes a node ever gives in one term, its own candidacy included, are for the same node:
    it never grants two candidates of a term, nor anyone else in a term it stood in.
   */
  ghost predicate OneVotePerTerm(n: NodeState, inputs: seq<Input>) {
    forall m1, m2 :: m1 in Sent(n, inputs) && m2 in Sent(n, inputs) && Backs(m1) && Backs(m2) && m1.term == m2.term
      ==> Backed(m1) == Backed(m2)
  }

  /** Every vote request received names a sender in `senders`. */
  ghost predicate RequestsFrom(inputs: seq<Input>, senders: set<int>) {
    forall x :: x in inputs && x.event.Receive? && x.event.message.kind == RequestVoteReq ==>
      x.event.message.from in senders
  }

  /** `cast` holds the node's vote in every term it has voted in. */
  ghost predicate Ballots(n: NodeState, cast: map<int, int>) {
    && n.id != 0 && SelfVoted(n)
    && (forall t :: t in cast ==> t <= n.term)
    && (if n.votedFor != 0 then n.term in cast && cast[n.term] == n.votedFor else n.term !in cast)
  }

  ghost predicate Agrees(cast: map<int, int>, sent: seq<Message>) {
    forall m :: m in sent && Backs(m) ==> m.term in cast && cast[m.term] == Backed(m)
  }

  ghost predicate Grows(cast: map<int, int>, cast': map<int, int>) {
    forall t :: t in cast ==> t in cast' && cast'[t] == cast[t]
  }

  lemma VoteStep(n: NodeState, cast: map<int, int>, e: Event, now: int) returns (cast': map<int, int>)
    requires Ballots(n, cast) && Handle(n, e, now).Done?
    requires e.Receive? && e.message.kind == RequestVoteReq ==> e.message.from != 0
    ensures Ballots(Handle(n, e, now).node, cast') && Grows(cast, cast') && Agrees(cast', Handle(n, e, now).sent)
  {
    var n', sent := Handle(n, e, now).node, Handle(n, e, now).sent;
    StepDiscipline(n, e, now);
    cast' := if n'.votedFor != 0 then cast[n'.term := n'.votedFor] else cast;
    assert forall m :: m in sent ==> Justified(n, e, now, n', m);
  }

  lemma {:induction false} VotesAgree(n: NodeState, cast: map<int, int>, inputs: seq<Input>, senders: set<int>)
    returns (cast': map<int, int>)
    requires Ballots(n, cast) && RequestsFrom(inputs, senders) && 0 !in senders
    ensures Grows(cast, cast') && Agrees(cast', Sent(n, inputs))
    decreases |inputs|
  {
    cast' := cast;
    if inputs != [] && Handle(n, inputs[0].event, inputs[0].now).Done? {
      var o := Handle(n, inputs[0].event, inputs[0].now);
      var cast1 := VoteStep(n, cast, inputs[0].event, inputs[0].now);
      cast' := VotesAgree(o.node, cast1, inputs[1..], senders);
    }
  }

  /** Whatever arrives, as long as no vote request carries the id 0 that stands for "nobody". */
  lemma OneVote(n: NodeState, inputs: seq<Input>, senders: set<int>)
    requires n.id != 0 && n == NewNode(n.id, n.peers, n.electionTimeout, n.heartbeatInterval)
    requires RequestsFrom(inputs, senders) && 0 !in senders
    ensures OneVotePerTerm(n, inputs)
  {
    var cast := VotesAgree(n, map[], inputs, senders);
  }

  /** A request from id 0 is granted without being remembered. */
  lemma ZeroVotesTwice(n: NodeState, other: int) returns (inputs: seq<Input>)
    requires n == NewNode(n.id, n.peers, n.electionTimeout, n.heartbeatInterval) && other != 0
    ensures RequestsFrom(inputs, {0, other}) && !OneVotePerTerm(n, inputs)
  {
    var first := Input(Receive(Message(0, n.id, RequestVoteReq, true, 1)), 0);
    var second := Input(Receive(Message(other, n.id, RequestVoteReq, true, 1)), 0);
    inputs := [first, second];
    var n1 := Handle(n, first.event, 0).node;
    var m1, m2 := Message(n.id, 0, RequestVoteRes, true, 1), Message(n.id, other, RequestVoteRes, true, 1);
    assert inputs[1..] == [second] && [second][1..] == [];
    assert Handle(n, first.event, 0).sent == [m1] && Handle(n1, second.event, 0).sent == [m2];
    assert Sent(n1, [second]) == [m2] + [];
    assert Sent(n, inputs) == [m1, m2];
    assert m1 in Sent(n, inputs) && m2 in Sent(n, inputs);
  }

  /** Among sets of senders that include a real node, exactly those without the id 0 keep the rule. */
  lemma OneVoteExactly(n: NodeState, senders: set<int>, other: int)
    requires n.id != 0 && n == NewNode(n.id, n.peers, n.electionTimeout, n.heartbeatInterval)
    requires other in senders && other != 0
    ensures (forall inputs :: RequestsFrom(inputs, senders) ==> OneVotePerTerm(n, inputs)) <==> 0 !in senders
  {
    if 0 in senders {
      var bad := ZeroVotesTwice(n, other);
      assert RequestsFrom(bad, senders) && !OneVotePerTerm(n, bad);
    } else {
      forall inputs | RequestsFrom(inputs, senders)
        ensures OneVotePerTerm(n, inputs)
      {
        OneVote(n, inputs, senders);
      }
    }
  }
}
