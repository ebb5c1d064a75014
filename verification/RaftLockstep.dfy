/**
  The lockstep cluster of internal/raft_test/cluster.go: one call of `Tick` lets every node
  handle a tick, then delivers messages in rounds until none are left. The order of nodes and of
  messages within a round, and which messages are lost, are arbitrary.
 */
module RaftLockstep {
  import opened RaftNode
  import opened RaftNetwork

  /** One call of `Tick`: its time, the order in which nodes tick, and what happens to each message of each round. */
  datatype Call = Call(now: int, order: seq<int>, rounds: seq<seq<Action>>)

  function TickAll(order: seq<int>, now: int): seq<Action> {
    if order == [] then [] else [TickNode(order[0], now)] + TickAll(order[1..], now)
  }

  function Concat(rounds: seq<seq<Action>>): seq<Action> {
    if rounds == [] then [] else rounds[0] + Concat(rounds[1..])
  }

  function Actions(c: Call): seq<Action> {
    TickAll(c.order, c.now) + Concat(c.rounds)
  }

  /** Every message gets one decision: delivered at the time of the call, or lost. */
  predicate Decides(a: Action, now: int) {
    (a.Deliver? && a.now == now) || a.Drop?
  }

  function Decided(acts: seq<Action>): multiset<Message> {
    if acts == [] then multiset{}
    else (if acts[0].TickNode? then multiset{} else multiset{acts[0].msg}) + Decided(acts[1..])
  }

  /** A round decides exactly the messages in flight when it starts. */
  ghost predicate Round(s: State, acts: seq<Action>, now: int) {
    && (forall a :: a in acts ==> Decides(a, now))
    && Decided(acts) == s.flight
  }

  /** Rounds follow each other while messages are in flight; a panic ends the call. */
  ghost predicate Rounds(s: State, rounds: seq<seq<Action>>, now: int)
    decreases |rounds|
  {
    rounds != [] ==>
      && s.flight != multiset{}
      && Round(s, rounds[0], now)
      && if Exec(s, rounds[0]).Running? then Rounds(Exec(s, rounds[0]).state, rounds[1..], now) else |rounds| == 1
  }

  ghost predicate Lists(order: seq<int>, ids: set<int>) {
    Distinct(order) && forall i :: i in ids <==> i in order
  }

  ghost predicate Lockstep(s: State, c: Call) {
    && Lists(c.order, s.nodes.Keys)
    && (forall a :: a in Concat(c.rounds) ==> Decides(a, c.now))
    && (Exec(s, TickAll(c.order, c.now)).Running? ==> Rounds(Exec(s, TickAll(c.order, c.now)).state, c.rounds, c.now))
  }

  /** Unless it panics, the call ends with nothing left to deliver. */
  ghost predicate Finished(s: State, c: Call) {
    Exec(s, Actions(c)).Running? ==> Exec(s, Actions(c)).state.flight == multiset{}
  }

  lemma {:induction false} TickAllSnoc(order: seq<int>, i: int, now: int)
    ensures TickAll(order + [i], now) == TickAll(order, now) + [TickNode(i, now)]
  {
    if order == [] {
      assert [i][1..] == [];
    } else {
      assert (order + [i])[1..] == order[1..] + [i];
      TickAllSnoc(order[1..], i, now);
    }
  }

  lemma {:induction false} ConcatSnoc(rounds: seq<seq<Action>>, last: seq<Action>)
    ensures Concat(rounds + [last]) == Concat(rounds) + last
  {
    if rounds == [] {
      assert [last][1..] == [];
    } else {
      assert (rounds + [last])[1..] == rounds[1..] + [last];
      ConcatSnoc(rounds[1..], last);
    }
  }

  /** One more round may follow when the last one left messages in flight. */
  lemma {:induction false} RoundsSnoc(s: State, rounds: seq<seq<Action>>, last: seq<Action>, now: int)
    requires Rounds(s, rounds, now) && Exec(s, Concat(rounds)).Running?
    requires Exec(s, Concat(rounds)).state.flight != multiset{} && Round(Exec(s, Concat(rounds)).state, last, now)
    ensures Rounds(s, rounds + [last], now)
    decreases |rounds|
  {
    if rounds == [] {
      assert [last][1..] == [];
    } else {
      assert (rounds + [last])[1..] == rounds[1..] + [last];
      ExecConcat(s, rounds[0], Concat(rounds[1..]));
      RoundsSnoc(Exec(s, rounds[0]).state, rounds[1..], last, now);
    }
  }

  // ----- what a cluster decides -----

  datatype Filter = KeepAll | DropIf(test: (Message, int) -> bool)

  /** The fate of a message: lost if an end is disabled or the filter says so. */
  function Decision(disabled: set<int>, filter: Filter, m: Message, now: int): Action {
    if m.from in disabled || m.to in disabled then Drop(m)
    else if filter.DropIf? && filter.test(m, now) then Drop(m)
    else Deliver(m, now)
  }

  function Decisions(disabled: set<int>, filter: Filter, ms: seq<Message>, now: int): seq<Action> {
    if ms == [] then []
    else Decisions(disabled, filter, ms[..|ms| - 1], now) + [Decision(disabled, filter, ms[|ms| - 1], now)]
  }

  /** Every message met the fate this cluster decides for it. */
  ghost predicate DecidedBy(acts: seq<Action>, now: int, disabled: set<int>, filter: Filter) {
    forall a :: a in acts ==> Decides(a, now) && a == Decision(disabled, filter, a.msg, now)
  }

  lemma {:induction false} DecidedSnoc(acts: seq<Action>, a: Action)
    ensures Decided(acts + [a]) == Decided(acts) + if a.TickNode? then multiset{} else multiset{a.msg}
  {
    if acts == [] {
      assert [a][1..] == [];
    } else {
      assert (acts + [a])[1..] == acts[1..] + [a];
      DecidedSnoc(acts[1..], a);
    }
  }

  lemma {:induction false} DecisionsDecide(disabled: set<int>, filter: Filter, ms: seq<Message>, now: int)
    ensures Decided(Decisions(disabled, filter, ms, now)) == multiset(ms)
    ensures DecidedBy(Decisions(disabled, filter, ms, now), now, disabled, filter)
  {
    if ms != [] {
      var last := |ms| - 1;
      DecisionsDecide(disabled, filter, ms[..last], now);
      var before, a := Decisions(disabled, filter, ms[..last], now), Decision(disabled, filter, ms[last], now);
      DecidedSnoc(before, a);
      assert DecidedBy([a], now, disabled, filter);
      DecidedByBoth(before, [a], now, disabled, filter);
      assert ms == ms[..last] + [ms[last]];
    }
  }

  lemma DecidedByBoth(first: seq<Action>, second: seq<Action>, now: int, disabled: set<int>, filter: Filter)
    requires DecidedBy(first, now, disabled, filter) && DecidedBy(second, now, disabled, filter)
    ensures DecidedBy(first + second, now, disabled, filter)
  {
  }

  lemma DecisionsSnoc(disabled: set<int>, filter: Filter, ms: seq<Message>, m: Message, now: int)
    ensures Decisions(disabled, filter, ms + [m], now)
      == Decisions(disabled, filter, ms, now) + [Decision(disabled, filter, m, now)]
  {
    assert (ms + [m])[..|ms|] == ms;
  }

  // ----- delivery terminates -----

  function Rank(m: Message): nat {
    match m.kind
    case RequestVoteReq => 4
    case RequestVoteRes => 3
    case AppendEntriesReq => 2
    case AppendEntriesRes => 1
    case Other(_) => 1
  }

  ghost predicate Below(flight: multiset<Message>, rank: int) {
    forall m :: m in flight ==> Rank(m) <= rank
  }

  /** Handling a message only sends messages of lower rank. */
  lemma RankDrops(n: NodeState, m: Message, now: int)
    requires Handle(n, Receive(m), now).Done?
    ensures forall x :: x in Handle(n, Receive(m), now).sent ==> Rank(x) < Rank(m)
  {
    ToAllMembers(n.id, n.peers, AppendEntriesReq, n.term);
  }

  /** Deciding a message takes it out of flight and adds only messages of lower rank. */
  lemma DecideDrops(s: State, a: Action, now: int, x: Message)
    requires Decides(a, now) && Apply(s, a).Running?
    ensures Apply(s, a).state.flight[x] <= (s.flight - multiset{a.msg})[x] || Rank(x) < Rank(a.msg)
  {
    var m := a.msg;
    if a.Deliver? && m in s.flight && m.to in s.nodes {
      RankDrops(s.nodes[m.to], m, now);
      assert x in multiset(Handle(s.nodes[m.to], Receive(m), now).sent) ==>
        x in Handle(s.nodes[m.to], Receive(m), now).sent;
    }
  }

  /** While a round runs, what is in flight is what it has not decided yet, or of lower rank. */
  lemma {:induction false} RoundDrops(s: State, acts: seq<Action>, now: int, rank: int)
    requires forall a :: a in acts ==> Decides(a, now)
    requires forall m :: s.flight[m] <= Decided(acts)[m] || Rank(m) < rank
    requires Below(Decided(acts), rank)
    requires Exec(s, acts).Running?
    ensures Below(Exec(s, acts).state.flight, rank - 1)
    decreases |acts|
  {
    if acts != [] {
      var a, rest := acts[0], acts[1..];
      assert a in acts && Decides(a, now);
      assert Decided(acts) == multiset{a.msg} + Decided(rest);
      assert a.msg in Decided(acts);
      forall x
        ensures Apply(s, a).state.flight[x] <= Decided(rest)[x] || Rank(x) < rank
      {
        DecideDrops(s, a, now, x);
      }
      RoundDrops(Apply(s, a).state, rest, now, rank);
    }
  }

  lemma {:induction false} RoundsBound(s: State, rounds: seq<seq<Action>>, now: int, rank: nat)
    requires Below(s.flight, rank) && Rounds(s, rounds, now)
    ensures |rounds| <= rank
    decreases |rounds|
  {
    if rounds != [] {
      var x :| x in s.flight;
      if Exec(s, rounds[0]).Running? {
        RoundDrops(s, rounds[0], now, rank);
        RoundsBound(Exec(s, rounds[0]).state, rounds[1..], now, rank - 1);
      }
    }
  }

  lemma AtMostFour(s: State, rounds: seq<seq<Action>>, now: int)
    requires Rounds(s, rounds, now)
    ensures |rounds| <= 4
  {
    RoundsBound(s, rounds, now, 4);
  }

  /** From any state whatsoever, delivery ends: unless a tick panics, a call has at most four rounds. */
  lemma FourRounds(s: State, c: Call)
    requires Lockstep(s, c) && Exec(s, TickAll(c.order, c.now)).Running?
    ensures |c.rounds| <= 4
  {
    AtMostFour(Exec(s, TickAll(c.order, c.now)).state, c.rounds, c.now);
  }

  // ----- the tick phase -----

  /** Some node sends `m` on its tick. */
  ghost predicate SentByTick(s: State, now: int, m: Message) {
    exists i :: i in s.nodes && m in HandleTick(s.nodes[i], now).sent
  }

  /** Every node has handled its tick, and what is in flight is what they sent. */
  ghost predicate Ticked(s: State, now: int, s': State) {
    && s'.nodes.Keys == s.nodes.Keys
    && (forall i :: i in s.nodes ==> s'.nodes[i] == HandleTick(s.nodes[i], now).node)
    && (forall m :: m in s'.flight ==> SentByTick(s, now, m))
    && (forall i, m :: i in s.nodes && m in HandleTick(s.nodes[i], now).sent ==> m in s'.flight)
  }

  /** The part of the nodes in `order` has not ticked yet. */
  ghost predicate TickingTo(s: State, now: int, s1: State, order: seq<int>) {
    && s1.nodes.Keys == s.nodes.Keys
    && (forall i :: i in s.nodes ==> s1.nodes[i] == if i in order then s.nodes[i] else HandleTick(s.nodes[i], now).node)
    && (forall m :: m in s1.flight ==> exists i :: i in s.nodes && i !in order && m in HandleTick(s.nodes[i], now).sent)
    && (forall i, m :: i in s.nodes && i !in order && m in HandleTick(s.nodes[i], now).sent ==> m in s1.flight)
  }

  lemma TickNeverPanics(n: NodeState, now: int)
    ensures HandleTick(n, now).Done?
  {
  }

  lemma TickOne(s: State, now: int, s1: State, order: seq<int>)
    requires order != [] && Distinct(order) && order[0] in s.nodes && TickingTo(s, now, s1, order)
    ensures Apply(s1, TickNode(order[0], now)).Running?
    ensures TickingTo(s, now, Apply(s1, TickNode(order[0], now)).state, order[1..])
  {
    var i, rest := order[0], order[1..];
    assert forall j :: j in order <==> j == i || j in rest;
    assert i !in rest;
    TickNeverPanics(s.nodes[i], now);
    var sent := HandleTick(s.nodes[i], now).sent;
    var s2 := Apply(s1, TickNode(i, now)).state;
    assert s2.flight == s1.flight + multiset(sent);
    assert forall m :: m in s2.flight <==> m in s1.flight || m in sent;
  }

  lemma {:induction false} TickRest(s: State, now: int, s1: State, order: seq<int>)
    requires Distinct(order) && (forall i :: i in order ==> i in s.nodes) && TickingTo(s, now, s1, order)
    ensures Exec(s1, TickAll(order, now)).Running? && TickingTo(s, now, Exec(s1, TickAll(order, now)).state, [])
    decreases |order|
  {
    if order != [] {
      var first := order[0];
      assert first in order;
      TickOne(s, now, s1, order);
      assert TickAll(order, now)[1..] == TickAll(order[1..], now);
      TickRest(s, now, Apply(s1, TickNode(order[0], now)).state, order[1..]);
    }
  }

  /** The tick phase does the same whatever the order, and cannot panic. */
  lemma TickPhase(s: State, order: seq<int>, now: int)
    requires Lists(order, s.nodes.Keys) && s.flight == multiset{}
    ensures Exec(s, TickAll(order, now)).Running? && Ticked(s, now, Exec(s, TickAll(order, now)).state)
  {
    TickRest(s, now, s, order);
    var s1 := Exec(s, TickAll(order, now)).state;
  }

  // ----- every lockstep run is timely -----

  /** Votes under way are about the current term of every node that is still a candidate. */
  ghost predicate CurrentVote(s: State, m: Message) {
    && (m.kind == RequestVoteReq && m.from in s.nodes && s.nodes[m.from].role == Candidate ==>
      s.nodes[m.from].term == m.term)
    && (m.kind == RequestVoteRes && m.ok && m.to in s.nodes && s.nodes[m.to].role == Candidate ==>
      s.nodes[m.to].term == m.term)
  }

  ghost predicate CurrentVotes(s: State) {
    forall m :: m in s.flight ==> CurrentVote(s, m)
  }

  lemma TickedCurrent(s: State, now: int, s1: State)
    requires Configured(s.nodes) && Ticked(s, now, s1)
    ensures CurrentVotes(s1)
  {
    forall m | m in s1.flight
      ensures CurrentVote(s1, m)
    {
      assert SentByTick(s, now, m);
      SentInTerm(s, now, m);
    }
  }

  /** What a tick sends carries the sender's new term: a request if it stands, a heartbeat if it leads. */
  lemma SentInTerm(s: State, now: int, m: Message)
    requires Configured(s.nodes) && SentByTick(s, now, m)
    ensures m.from in s.nodes && m.to in s.nodes && m.to != m.from && m.ok
    ensures m.term == HandleTick(s.nodes[m.from], now).node.term
    ensures if m.kind == RequestVoteReq then Stands(s.nodes[m.from], Tick, now) && m.term == s.nodes[m.from].term + 1
      else m.kind == AppendEntriesReq && s.nodes[m.from].role == Leader && m.term == s.nodes[m.from].term
           && now - s.nodes[m.from].sentAt >= s.nodes[m.from].heartbeatInterval
  {
    var i :| i in s.nodes && m in HandleTick(s.nodes[i], now).sent;
    TickSends(s.nodes[i], now, m);
  }

  lemma DecideTimely(s: State, a: Action, now: int)
    requires CurrentVotes(s) && Decides(a, now)
    ensures Timely(s, a)
  {
    if a.Deliver? && a.msg in s.flight {
      assert CurrentVote(s, a.msg);
    }
  }

  /** No message is under way from a node to itself. */
  ghost predicate Outward(s: State) {
    forall m :: m in s.flight ==> m.from != m.to
  }

  /** What keeps votes current, whatever the size of the cluster. */
  ghost predicate Proper(s: State) {
    Configured(s.nodes) && SelfVoteInv(s) && CurrentVotes(s) && Outward(s)
  }

  lemma DecideProper(s: State, a: Action, now: int)
    requires Proper(s) && Decides(a, now)
    ensures Apply(s, a).Running? ==> Proper(Apply(s, a).state)
  {
    var m := a.msg;
    if a.Deliver? && m in s.flight && m.to in s.nodes && Apply(s, a).Running? {
      HandledProper(s, m, now);
    }
  }

  lemma HandledProper(s: State, m: Message, now: int)
    requires Proper(s) && m in s.flight && m.to in s.nodes
    requires Handle(s.nodes[m.to], Receive(m), now).Done?
    ensures var o := Handle(s.nodes[m.to], Receive(m), now);
      Proper(State(s.nodes[m.to := o.node], s.flight - multiset{m} + multiset(o.sent)))
  {
    StepDiscipline(s.nodes[m.to], Receive(m), now);
    var o := Handle(s.nodes[m.to], Receive(m), now);
    DeliverCurrent(s, m, now, o.node, o.sent);
    DeliverOutward(s, m, now, o.node, o.sent);
  }

  lemma DeliverCurrent(s: State, m: Message, now: int, n': NodeState, sent: seq<Message>)
    requires Configured(s.nodes) && Outward(s) && CurrentVotes(s) && m in s.flight && m.to in s.nodes
    requires Disciplined(s.nodes[m.to], Receive(m), now, n', sent)
    ensures CurrentVotes(State(s.nodes[m.to := n'], s.flight - multiset{m} + multiset(sent)))
  {
    var s' := State(s.nodes[m.to := n'], s.flight - multiset{m} + multiset(sent));
    assert m.from != m.to && CurrentVote(s, m);
    forall x | x in s'.flight
      ensures CurrentVote(s', x)
    {
      if x in sent {
        assert Justified(s.nodes[m.to], Receive(m), now, n', x);
      } else {
        assert x in s.flight && CurrentVote(s, x);
      }
    }
  }

  lemma DeliverOutward(s: State, m: Message, now: int, n': NodeState, sent: seq<Message>)
    requires Configured(s.nodes) && Outward(s) && m in s.flight && m.to in s.nodes
    requires Disciplined(s.nodes[m.to], Receive(m), now, n', sent)
    ensures Outward(State(s.nodes[m.to := n'], s.flight - multiset{m} + multiset(sent)))
  {
    var s' := State(s.nodes[m.to := n'], s.flight - multiset{m} + multiset(sent));
    forall x | x in s'.flight
      ensures x.from != x.to
    {
      if x in sent {
        assert Justified(s.nodes[m.to], Receive(m), now, n', x);
      } else {
        assert x in s.flight;
      }
    }
  }

  /** After the ticks of a quiescent cluster, requests and heartbeats are about current terms. */
  lemma TickedProper(s: State, now: int, s1: State)
    requires Configured(s.nodes) && SelfVoteInv(s) && Ticked(s, now, s1)
    ensures Proper(s1)
  {
    TickedCurrent(s, now, s1);
    forall m | m in s1.flight
      ensures m.from != m.to
    {
      assert SentByTick(s, now, m);
      SentInTerm(s, now, m);
    }
    forall i | i in s.nodes
      ensures SameIdentity(s.nodes[i], s1.nodes[i]) && SelfVoted(s1.nodes[i])
    {
      TickNeverPanics(s.nodes[i], now);
      StepDiscipline(s.nodes[i], Tick, now);
    }
  }

  /** What every action of a kind keeps unless it panics, a schedule of such actions keeps. */
  lemma {:induction false} TimelyAlong(inv: State -> bool, kind: Action -> bool, s: State, acts: seq<Action>)
    requires inv(s) && forall a :: a in acts ==> kind(a)
    requires forall s1, a :: inv(s1) && kind(a) ==> TimelyBy(inv, s1, a)
    ensures TimelyRun(s, acts) && (Exec(s, acts).Running? ==> inv(Exec(s, acts).state))
    decreases |acts|
  {
    if acts != [] {
      assert acts[0] in acts && TimelyBy(inv, s, acts[0]);
      if Apply(s, acts[0]).Running? {
        TimelyAlong(inv, kind, Apply(s, acts[0]).state, acts[1..]);
      }
    }
  }

  ghost predicate TimelyBy(inv: State -> bool, s: State, a: Action) {
    Timely(s, a) && (Apply(s, a).Running? ==> inv(Apply(s, a).state))
  }

  lemma RoundsTimely(s: State, acts: seq<Action>, now: int)
    requires Proper(s) && forall a :: a in acts ==> Decides(a, now)
    ensures TimelyRun(s, acts) && (Exec(s, acts).Running? ==> Proper(Exec(s, acts).state))
  {
    var inv := (s1: State) => Proper(s1);
    var decided := (a: Action) => Decides(a, now);
    forall s1, a | inv(s1) && decided(a)
      ensures TimelyBy(inv, s1, a)
    {
      DecideTimely(s1, a, now);
      DecideProper(s1, a, now);
    }
    TimelyAlong(inv, decided, s, acts);
  }

  /** One call on a quiescent cluster of any size, whether or not it panics. */
  lemma TimelyCall(s: State, c: Call)
    requires Configured(s.nodes) && SelfVoteInv(s) && s.flight == multiset{} && Lockstep(s, c)
    ensures TimelyRun(s, Actions(c))
    ensures Exec(s, Actions(c)).Running? ==> Proper(Exec(s, Actions(c)).state)
  {
    TickPhase(s, c.order, c.now);
    var s1 := Exec(s, TickAll(c.order, c.now)).state;
    TicksTimely(s, c.order, c.now);
    TickedProper(s, c.now, s1);
    RoundsTimely(s1, Concat(c.rounds), c.now);
    TimelyConcat(s, TickAll(c.order, c.now), Concat(c.rounds));
    ExecConcat(s, TickAll(c.order, c.now), Concat(c.rounds));
  }

  lemma DecideKeeps(s: State, h: History, a: Action, now: int)
    requires Inv(s, h) && CurrentVotes(s) && Decides(a, now)
    ensures Timely(s, a) && Apply(s, a).Running?
    ensures Inv(Apply(s, a).state, RecordAction(s, h, a)) && CurrentVotes(Apply(s, a).state)
  {
    DecideTimely(s, a, now);
    assert Outward(s) by {
      assert forall m :: m in s.flight ==> FlightFacts(s, h, m);
    }
    DecideProper(s, a, now);
    ActionInv(s, h, a);
  }

  lemma DecidedTimely(s: State, h: History, acts: seq<Action>, now: int) returns (h': History)
    requires Inv(s, h) && CurrentVotes(s) && forall a :: a in acts ==> Decides(a, now)
    ensures TimelyRun(s, acts) && Exec(s, acts).Running?
    ensures Inv(Exec(s, acts).state, h') && CurrentVotes(Exec(s, acts).state)
  {
    var inv := (s1: State, h1: History) => Inv(s1, h1) && CurrentVotes(s1);
    var decided := (a: Action) => Decides(a, now);
    forall s1, h1, a | inv(s1, h1) && decided(a)
      ensures KeptBy(inv, s1, h1, a)
    {
      DecideKeeps(s1, h1, a, now);
    }
    h' := KeptAlong(inv, decided, s, h, acts);
  }

  ghost predicate KeptBy(inv: (State, History) -> bool, s: State, h: History, a: Action) {
    Timely(s, a) && Apply(s, a).Running? && inv(Apply(s, a).state, RecordAction(s, h, a))
  }

  /** What every action of a kind keeps, a schedule of such actions keeps. */
  lemma {:induction false} KeptAlong(inv: (State, History) -> bool, kind: Action -> bool, s: State, h: History,
                                     acts: seq<Action>)
    returns (h': History)
    requires inv(s, h) && forall a :: a in acts ==> kind(a)
    requires forall s1, h1, a :: inv(s1, h1) && kind(a) ==> KeptBy(inv, s1, h1, a)
    ensures TimelyRun(s, acts) && Exec(s, acts).Running? && inv(Exec(s, acts).state, h')
    decreases |acts|
  {
    h' := h;
    if acts != [] {
      assert acts[0] in acts && KeptBy(inv, s, h, acts[0]);
      h' := KeptAlong(inv, kind, Apply(s, acts[0]).state, RecordAction(s, h, acts[0]), acts[1..]);
    }
  }

  lemma {:induction false} TicksTimely(s: State, order: seq<int>, now: int)
    ensures TimelyRun(s, TickAll(order, now))
    decreases |order|
  {
    if order != [] {
      assert TickAll(order, now)[1..] == TickAll(order[1..], now);
      if Apply(s, TickNode(order[0], now)).Running? {
        TicksTimely(Apply(s, TickNode(order[0], now)).state, order[1..], now);
      }
    }
  }

  /** The cluster is quorate, or nobody but `c` has ever been voted for or stands now. */
  ghost predicate Clear(s: State, h: History, now: int, c: int) {
    Quorate(|s.nodes|) || (AllFor(h, c) && forall i :: i in s.nodes && Stands(s.nodes[i], Tick, now) ==> i == c)
  }

  /** Without a new candidate, a tick adds no vote. */
  lemma TickKeepsVotes(s: State, h: History, i: int, now: int, c: int)
    requires i in s.nodes && Configured(s.nodes) && BallotInv(s, h) && SelfVoteInv(s) && AllFor(h, c)
    requires Stands(s.nodes[i], Tick, now) ==> i == c
    ensures AllFor(RecordAction(s, h, TickNode(i, now)), c)
  {
    TickNeverPanics(s.nodes[i], now);
    StepDiscipline(s.nodes[i], Tick, now);
  }

  lemma TicksInv(s: State, h: History, s1: State, order: seq<int>, now: int, c: int) returns (h': History)
    requires Distinct(order) && (forall i :: i in order ==> i in s.nodes) && TickingTo(s, now, s1, order)
    requires Inv(s1, h) && |s1.nodes| == |s.nodes| && Clear(s, h, now, c)
    ensures Exec(s1, TickAll(order, now)).Running?
    ensures Inv(Exec(s1, TickAll(order, now)).state, h')
  {
    var good := (s2: State, h2: History, o: seq<int>) => Midway(s, h2, s2, o, now, c);
    forall s2, h2, o | good(s2, h2, o) && o != []
      ensures KeptByTick(good, s2, h2, o, now)
    {
      TickInv(s, h2, s2, o, now, c);
    }
    h' := KeptByTicks(good, s1, h, order, now);
  }

  /** During the tick phase from `s`, with the nodes in `order` still to tick. */
  ghost predicate Midway(s: State, h: History, s1: State, order: seq<int>, now: int, c: int) {
    && Distinct(order) && (forall i :: i in order ==> i in s.nodes) && TickingTo(s, now, s1, order)
    && Inv(s1, h) && |s1.nodes| == |s.nodes| && Clear(s, h, now, c)
  }

  ghost predicate KeptByTick(good: (State, History, seq<int>) -> bool, s: State, h: History, order: seq<int>, now: int)
    requires order != []
  {
    var a := TickNode(order[0], now);
    Apply(s, a).Running? && good(Apply(s, a).state, RecordAction(s, h, a), order[1..])
  }

  lemma {:induction false} KeptByTicks(good: (State, History, seq<int>) -> bool, s: State, h: History, order: seq<int>,
                                       now: int)
    returns (h': History)
    requires good(s, h, order)
    requires forall s1, h1, o :: good(s1, h1, o) && o != [] ==> KeptByTick(good, s1, h1, o, now)
    ensures Exec(s, TickAll(order, now)).Running? && good(Exec(s, TickAll(order, now)).state, h', [])
    decreases |order|
  {
    h' := h;
    if order != [] {
      assert KeptByTick(good, s, h, order, now);
      var a := TickNode(order[0], now);
      assert TickAll(order, now)[1..] == TickAll(order[1..], now);
      h' := KeptByTicks(good, Apply(s, a).state, RecordAction(s, h, a), order[1..], now);
    }
  }

  lemma TickInv(s: State, h: History, s1: State, order: seq<int>, now: int, c: int)
    requires order != [] && Midway(s, h, s1, order, now, c)
    ensures var a := TickNode(order[0], now);
      Apply(s1, a).Running? && Midway(s, RecordAction(s1, h, a), Apply(s1, a).state, order[1..], now, c)
  {
    var i, rest := order[0], order[1..];
    assert i in order;
    TickOne(s, now, s1, order);
    TickUncontested(s, h, s1, order, now, c);
    ActionInv(s1, h, TickNode(i, now));
    assert forall j :: j in rest ==> j in order;
  }

  /** The next node to tick is as it was, so it stands only if it may. */
  lemma TickUncontested(s: State, h: History, s1: State, order: seq<int>, now: int, c: int)
    requires order != [] && order[0] in s.nodes && TickingTo(s, now, s1, order)
    requires Configured(s1.nodes) && BallotInv(s1, h) && SelfVoteInv(s1) && |s1.nodes| == |s.nodes|
    requires Clear(s, h, now, c)
    ensures Uncontested(s1, h, order[0], Tick, now) && Clear(s, RecordAction(s1, h, TickNode(order[0], now)), now, c)
  {
    var i := order[0];
    assert i in order && s1.nodes[i] == s.nodes[i];
    if !Quorate(|s.nodes|) {
      TickKeepsVotes(s1, h, i, now, c);
    }
  }

  /**
    A call of `Tick` on a quiescent reachable cluster is a timely schedule: it never panics and keeps the invariant.
    This holds for every quorate cluster, and for every cluster as long as there is one candidate only.
   */
  lemma CallTimely(s: State, h: History, c: Call, sole: int) returns (h1: History, h': History)
    requires Inv(s, h) && s.flight == multiset{} && Lockstep(s, c) && Clear(s, h, c.now, sole)
    ensures Exec(s, TickAll(c.order, c.now)).Running?
    ensures var s1 := Exec(s, TickAll(c.order, c.now)).state;
      && Ticked(s, c.now, s1) && Inv(s1, h1)
      && Exec(s, Actions(c)) == Exec(s1, Concat(c.rounds))
    ensures TimelyRun(s, Actions(c)) && Exec(s, Actions(c)).Running? && Inv(Exec(s, Actions(c)).state, h')
    ensures |Exec(s, Actions(c)).state.nodes| == |s.nodes|
  {
    TickPhase(s, c.order, c.now);
    var s1 := Exec(s, TickAll(c.order, c.now)).state;
    TicksTimely(s, c.order, c.now);
    h1 := TicksInv(s, h, s, c.order, c.now, sole);
    TickedCurrent(s, c.now, s1);
    h' := DecidedTimely(s1, h1, Concat(c.rounds), c.now);
    TimelyConcat(s, TickAll(c.order, c.now), Concat(c.rounds));
    ExecConcat(s, TickAll(c.order, c.now), Concat(c.rounds));
    RunKeeps(s, Actions(c));
    SameSize(s, Exec(s, Actions(c)).state);
  }

  lemma SameSize(s: State, s': State)
    requires Keeps(s, s')
    ensures |s'.nodes| == |s.nodes|
  {
    assert |s'.nodes.Keys| == |s.nodes.Keys|;
  }

  /** A sequence of calls, each ending before the next begins. */
  ghost predicate LockstepRun(s: State, calls: seq<Call>)
    decreases |calls|
  {
    calls != [] ==>
      && Lockstep(s, calls[0]) && Finished(s, calls[0])
      && (Exec(s, Actions(calls[0])).Running? ==> LockstepRun(Exec(s, Actions(calls[0])).state, calls[1..]))
  }

  function Schedule(calls: seq<Call>): seq<Action> {
    if calls == [] then [] else Actions(calls[0]) + Schedule(calls[1..])
  }

  lemma {:induction false} CallsTimely(s: State, h: History, calls: seq<Call>) returns (h': History)
    requires Inv(s, h) && Quorate(|s.nodes|) && s.flight == multiset{} && LockstepRun(s, calls)
    ensures TimelyRun(s, Schedule(calls)) && Exec(s, Schedule(calls)).Running?
    ensures Inv(Exec(s, Schedule(calls)).state, h') && Exec(s, Schedule(calls)).state.flight == multiset{}
    ensures |Exec(s, Schedule(calls)).state.nodes| == |s.nodes|
    decreases |calls|
  {
    h' := h;
    if calls != [] {
      var h1, h2 := CallTimely(s, h, calls[0], 0);
      var s' := Exec(s, Actions(calls[0])).state;
      h' := CallsTimely(s', h2, calls[1..]);
      TimelyConcat(s, Actions(calls[0]), Schedule(calls[1..]));
      ExecConcat(s, Actions(calls[0]), Schedule(calls[1..]));
    }
  }

  lemma {:induction false} ScheduleSnoc(calls: seq<Call>, call: Call)
    ensures Schedule(calls + [call]) == Schedule(calls) + Actions(call)
  {
    if calls == [] {
      assert [call][1..] == [];
    } else {
      assert (calls + [call])[1..] == calls[1..] + [call];
      ScheduleSnoc(calls[1..], call);
    }
  }

  /** A run is prolonged by a call from the state it ends in. */
  lemma RunSnoc(s0: State, calls: seq<Call>, s: State, call: Call)
    requires LockstepRun(s0, calls) && Exec(s0, Schedule(calls)) == Running(s) && Lockstep(s, call) && Finished(s, call)
    ensures LockstepRun(s0, calls + [call]) && Exec(s0, Schedule(calls + [call])) == Exec(s, Actions(call))
  {
    LockstepSnoc(s0, calls, s, call);
    ScheduleSnoc(calls, call);
    ExecConcat(s0, Schedule(calls), Actions(call));
  }

  // The same for any notion `ok` of a call and any notion `go` of its result.

  ghost predicate RunOf(ok: (State, Call) -> bool, go: (State, Call) -> Result, s: State, calls: seq<Call>)
    decreases |calls|
  {
    calls != [] ==> ok(s, calls[0]) && (go(s, calls[0]).Running? ==> RunOf(ok, go, go(s, calls[0]).state, calls[1..]))
  }

  ghost function EndOf(go: (State, Call) -> Result, s: State, calls: seq<Call>): Result
    decreases |calls|
  {
    if calls == [] then Running(s)
    else if go(s, calls[0]).Crashed? then go(s, calls[0])
    else EndOf(go, go(s, calls[0]).state, calls[1..])
  }

  lemma {:induction false} RunOfSnoc(ok: (State, Call) -> bool, go: (State, Call) -> Result,
                                     s0: State, calls: seq<Call>, s: State, call: Call)
    requires RunOf(ok, go, s0, calls) && EndOf(go, s0, calls) == Running(s) && ok(s, call)
    ensures RunOf(ok, go, s0, calls + [call])
    decreases |calls|
  {
    if calls == [] {
      assert [call][1..] == [];
    } else {
      assert (calls + [call])[1..] == calls[1..] + [call];
      RunOfSnoc(ok, go, go(s0, calls[0]).state, calls[1..], s, call);
    }
  }

  ghost function Completes(): (State, Call) -> bool {
    (s, c) => Lockstep(s, c) && Finished(s, c)
  }

  ghost function Results(): (State, Call) -> Result {
    (s, c) => Exec(s, Actions(c))
  }

  lemma {:induction false} LockstepIsRunOf(s: State, calls: seq<Call>)
    ensures LockstepRun(s, calls) <==> RunOf(Completes(), Results(), s, calls)
    decreases |calls|
  {
    if calls != [] {
      assert Completes()(s, calls[0]) <==> Lockstep(s, calls[0]) && Finished(s, calls[0]);
      assert Results()(s, calls[0]) == Exec(s, Actions(calls[0]));
      if Exec(s, Actions(calls[0])).Running? {
        LockstepIsRunOf(Exec(s, Actions(calls[0])).state, calls[1..]);
      }
    }
  }

  lemma {:induction false} ScheduleIsEndOf(s: State, calls: seq<Call>)
    ensures Exec(s, Schedule(calls)) == EndOf(Results(), s, calls)
    decreases |calls|
  {
    if calls != [] {
      ExecConcat(s, Actions(calls[0]), Schedule(calls[1..]));
      assert Results()(s, calls[0]) == Exec(s, Actions(calls[0]));
      if Exec(s, Actions(calls[0])).Running? {
        ScheduleIsEndOf(Exec(s, Actions(calls[0])).state, calls[1..]);
      }
    }
  }

  lemma LockstepSnoc(s0: State, calls: seq<Call>, s: State, call: Call)
    requires LockstepRun(s0, calls) && Exec(s0, Schedule(calls)) == Running(s) && Lockstep(s, call) && Finished(s, call)
    ensures LockstepRun(s0, calls + [call])
  {
    LockstepIsRunOf(s0, calls);
    ScheduleIsEndOf(s0, calls);
    RunOfSnoc(Completes(), Results(), s0, calls, s, call);
    LockstepIsRunOf(s0, calls + [call]);
  }

  lemma LockstepCons(s: State, c: Call, rest: seq<Call>)
    requires Lockstep(s, c) && Finished(s, c)
    requires Exec(s, Actions(c)).Running? ==> LockstepRun(Exec(s, Actions(c)).state, rest)
    ensures LockstepRun(s, [c] + rest)
  {
    assert ([c] + rest)[1..] == rest;
  }

  lemma {:induction false} CallsAreTimely(s: State, calls: seq<Call>)
    requires Configured(s.nodes) && SelfVoteInv(s) && s.flight == multiset{} && LockstepRun(s, calls)
    ensures TimelyRun(s, Schedule(calls))
    decreases |calls|
  {
    if calls != [] {
      TimelyCall(s, calls[0]);
      if Exec(s, Actions(calls[0])).Running? {
        CallsAreTimely(Exec(s, Actions(calls[0])).state, calls[1..]);
      }
      TimelyConcat(s, Actions(calls[0]), Schedule(calls[1..]));
    }
  }

  /**
    Every lockstep run of a cluster of any size, with any ticks, losses and orders, is a timely schedule of
    the asynchronous network: nothing is copied, and no vote reaches a candidate of a later term.
   */
  lemma LockstepIsTimely(s: State, calls: seq<Call>)
    requires Initial(s) && LockstepRun(s, calls)
    ensures TimelyRun(s, Schedule(calls))
  {
    CallsAreTimely(s, calls);
  }

  /** So in a quorate cluster it has at most one leader per term and reaches no panic. */
  lemma LockstepSafety(s: State, calls: seq<Call>)
    requires Initial(s) && Quorate(|s.nodes|) && LockstepRun(s, calls)
    ensures OneLeaderPerTerm(s, Schedule(calls))
    ensures Exec(s, Schedule(calls)).Running?
  {
    LockstepIsTimely(s, calls);
    ElectionSafety(s, Schedule(calls));
    NeverPanics(s, Schedule(calls));
  }
}
