/**
  How a leader of an old term learns that it is one: its next heartbeat to a node of a later term is refused,
  and the refusal takes it out of its term, within the same call of `Tick`.
 */
module RaftStale {
  import opened RaftNode
  import opened RaftNetwork
  import opened RaftLockstep
  import opened RaftStability
  import opened RaftTenure

  /** The node leads term `t`, or has left it for a later one. */
  predicate LedOrLeft(n: NodeState, t: int) {
    n.term > t || (n.term == t && n.role == Leader)
  }

  /** A leader leaves its term only for a later one. */
  lemma OfficeStep(n: NodeState, m: Message, now: int, t: int)
    requires LedOrLeft(n, t) && Handle(n, Receive(m), now).Done?
    ensures LedOrLeft(Handle(n, Receive(m), now).node, t)
  {
    StepKeeps(n, Receive(m), now);
  }

  lemma OfficeKept(s: State, a: Action, l: int, t: int)
    requires l in s.nodes && LedOrLeft(s.nodes[l], t) && (a.Deliver? || a.Drop?) && Apply(s, a).Running?
    ensures l in Apply(s, a).state.nodes && LedOrLeft(Apply(s, a).state.nodes[l], t)
  {
    if a.Deliver? && a.msg in s.flight && a.msg.to == l {
      OfficeStep(s.nodes[l], a.msg, a.now, t);
    }
  }

  lemma {:induction false} OfficeAlong(s: State, acts: seq<Action>, now: int, l: int, t: int)
    requires l in s.nodes && LedOrLeft(s.nodes[l], t) && Exec(s, acts).Running?
    requires forall a :: a in acts ==> Decides(a, now)
    ensures l in Exec(s, acts).state.nodes && LedOrLeft(Exec(s, acts).state.nodes[l], t)
    decreases |acts|
  {
    if acts != [] {
      assert acts[0] in acts;
      OfficeKept(s, acts[0], l, t);
      OfficeAlong(Apply(s, acts[0]).state, acts[1..], now, l, t);
    }
  }

  /** What no action decides stays under way. */
  lemma {:induction false} StaysAlong(s: State, acts: seq<Action>, now: int, m: Message)
    requires m in s.flight && m.to in s.nodes && Exec(s, acts).Running?
    requires forall a :: a in acts ==> Decides(a, now) && a.msg != m
    ensures m in Exec(s, acts).state.flight
    decreases |acts|
  {
    if acts != [] {
      assert acts[0] in acts;
      StaysInFlight(s, acts[0], m);
      StaysAlong(Apply(s, acts[0]).state, acts[1..], now, m);
    }
  }

  /** A refusal of a heartbeat of term `t`, in a later term. */
  predicate Refusal(r: Message, l: int, t: int) {
    r.kind == AppendEntriesRes && r.to == l && r.term > t
  }

  lemma RefusesOne(s: State, l: int, v: int, t: int, now: int) returns (r: Message)
    requires Heartbeat(l, v, t) in s.flight && v in s.nodes && s.nodes[v].id == v && s.nodes[v].term > t
    ensures var a := Deliver(Heartbeat(l, v, t), now);
      Apply(s, a).Running? && Apply(s, a).state.nodes.Keys == s.nodes.Keys && r in Apply(s, a).state.flight
    ensures Refusal(r, l, t) && r.from == v
  {
    var n := s.nodes[v];
    r := Message(n.id, l, AppendEntriesRes, false, n.term);
    assert Handle(n, Receive(Heartbeat(l, v, t)), now) == Done(n, [r]);
  }

  /** A heartbeat of term `t` that is not lost is refused by a node of a later term. */
  lemma {:induction false} HeartbeatRefused(s: State, acts: seq<Action>, now: int, l: int, v: int, t: int)
    returns (r: Message)
    requires Heartbeat(l, v, t) in s.flight && l in s.nodes && v in s.nodes && s.nodes[v].id == v && s.nodes[v].term > t
    requires Exec(s, acts).Running?
    requires forall a :: a in acts ==>
      Decides(a, now) && a.msg.kind != AppendEntriesRes && (a.msg == Heartbeat(l, v, t) ==> a.Deliver?)
    requires exists i :: 0 <= i < |acts| && !acts[i].TickNode? && acts[i].msg == Heartbeat(l, v, t)
    ensures r in Exec(s, acts).state.flight && Refusal(r, l, t) && r.from == v
    decreases |acts|
  {
    var m, a := Heartbeat(l, v, t), acts[0];
    assert a in acts;
    if a.msg == m {
      r := RefusesOne(s, l, v, t, now);
      assert a == Deliver(m, now);
      StaysAlong(Apply(s, a).state, acts[1..], now, r);
    } else {
      var i :| 0 <= i < |acts| && !acts[i].TickNode? && acts[i].msg == m;
      assert acts[1..][i - 1].msg == m;
      StaysInFlight(s, a, m);
      ActionKeeps(s, a);
      r := HeartbeatRefused(Apply(s, a).state, acts[1..], now, l, v, t);
    }
  }

  lemma RefusalDeposes(s: State, r: Message, l: int, t: int, now: int)
    requires r in s.flight && l in s.nodes && LedOrLeft(s.nodes[l], t) && Refusal(r, l, t)
    ensures var x := Apply(s, Deliver(r, now)); x.Running? && l in x.state.nodes && x.state.nodes[l].term > t
  {
  }

  /** A refusal that is not lost takes the leader out of its term. */
  lemma {:induction false} RefusalArrives(s: State, acts: seq<Action>, now: int, r: Message, l: int, t: int)
    requires r in s.flight && l in s.nodes && LedOrLeft(s.nodes[l], t) && Refusal(r, l, t) && Exec(s, acts).Running?
    requires forall a :: a in acts ==> Decides(a, now) && (a.msg == r ==> a.Deliver?)
    requires exists i :: 0 <= i < |acts| && !acts[i].TickNode? && acts[i].msg == r
    ensures var s' := Exec(s, acts).state; l in s'.nodes && s'.nodes[l].term > t
    decreases |acts|
  {
    var a := acts[0];
    assert a in acts;
    if a.msg == r {
      RefusalDeposes(s, r, l, t, now);
      assert a == Deliver(r, now);
      RunKeeps(Apply(s, a).state, acts[1..]);
    } else {
      var i :| 0 <= i < |acts| && !acts[i].TickNode? && acts[i].msg == r;
      assert acts[1..][i - 1].msg == r;
      StaysInFlight(s, a, r);
      OfficeKept(s, a, l, t);
      RefusalArrives(Apply(s, a).state, acts[1..], now, r, l, t);
    }
  }

  /** After the ticks: the heartbeat is under way to a node of a later term, and no answers are. */
  ghost predicate Outdated(s: State, l: int, t: int, v: int) {
    && l in s.nodes && LedOrLeft(s.nodes[l], t)
    && v in s.nodes && s.nodes[v].term > t
    && Heartbeat(l, v, t) in s.flight
    && forall m :: m in s.flight ==> m.kind != AppendEntriesRes
  }

  lemma TickedOutdated(s: State, l: int, t: int, v: int, now: int, s1: State)
    requires Configured(s.nodes) && Ticked(s, now, s1)
    requires l in s.nodes && s.nodes[l].role == Leader && s.nodes[l].term == t
    requires now - s.nodes[l].sentAt >= s.nodes[l].heartbeatInterval
    requires v in s.nodes && s.nodes[v].term > t
    ensures Outdated(s1, l, t, v)
  {
    LeaderTicks(s.nodes[l], now);
    assert v in s.nodes[l].peers;
    assert Heartbeat(l, v, t) in HandleTick(s.nodes[l], now).sent;
    TickNeverPanics(s.nodes[v], now);
    StepKeeps(s.nodes[v], Tick, now);
    forall m | m in s1.flight
      ensures m.kind != AppendEntriesRes
    {
      assert SentByTick(s, now, m);
      SentInTerm(s, now, m);
    }
  }

  /** Nothing between `l` and `v` is lost. */
  ghost predicate InTouch(acts: seq<Action>, l: int, v: int) {
    forall a :: a in acts && a.Drop? ==> !(a.msg.from == l && a.msg.to == v) && !(a.msg.from == v && a.msg.to == l)
  }

  /** The two rounds it takes. */
  lemma TwoRounds(s1: State, c: Call, l: int, t: int, v: int)
    requires Configured(s1.nodes) && Outdated(s1, l, t, v)
    requires Rounds(s1, c.rounds, c.now) && InTouch(Concat(c.rounds), l, v) && Exec(s1, Concat(c.rounds)).Running?
    requires Exec(s1, Concat(c.rounds)).state.flight == multiset{}
    ensures var s' := Exec(s1, Concat(c.rounds)).state; l in s'.nodes && s'.nodes[l].term > t
  {
    assert c.rounds != [];
    var round, rest := c.rounds[0], c.rounds[1..];
    ExecConcat(s1, round, Concat(rest));
    var r := FirstRound(s1, round, Concat(rest), c.now, l, t, v);
    var s2 := Exec(s1, round).state;
    OfficeAlong(s1, round, c.now, l, t);
    assert rest != [];
    var round2, more := rest[0], Concat(rest[1..]);
    ExecConcat(s2, round2, more);
    SecondRound(s2, round2, more, c.now, r, l, t, v);
    RunKeeps(Exec(s2, round2).state, more);
  }

  lemma FirstRound(s1: State, round: seq<Action>, more: seq<Action>, now: int, l: int, t: int, v: int)
    returns (r: Message)
    requires Configured(s1.nodes) && Outdated(s1, l, t, v) && Round(s1, round, now) && InTouch(round + more, l, v)
    requires Exec(s1, round).Running?
    ensures r in Exec(s1, round).state.flight && Refusal(r, l, t) && r.from == v
  {
    DecidedHas(round, Heartbeat(l, v, t));
    forall a | a in round
      ensures Decides(a, now) && a.msg.kind != AppendEntriesRes && (a.msg == Heartbeat(l, v, t) ==> a.Deliver?)
    {
      DecidedIn(round, a);
      assert a in round + more;
    }
    r := HeartbeatRefused(s1, round, now, l, v, t);
  }

  lemma {:induction false} DecidedIn(acts: seq<Action>, a: Action)
    requires a in acts && !a.TickNode?
    ensures a.msg in Decided(acts)
    decreases |acts|
  {
    if acts[0] != a {
      DecidedIn(acts[1..], a);
    }
  }

  lemma SecondRound(s2: State, round: seq<Action>, more: seq<Action>, now: int, r: Message, l: int, t: int, v: int)
    requires r in s2.flight && Refusal(r, l, t) && r.from == v && l in s2.nodes && LedOrLeft(s2.nodes[l], t)
    requires Round(s2, round, now) && InTouch(round + more, l, v) && Exec(s2, round).Running?
    ensures var s' := Exec(s2, round).state; l in s'.nodes && s'.nodes[l].term > t
  {
    DecidedHas(round, r);
    forall a | a in round
      ensures Decides(a, now) && (a.msg == r ==> a.Deliver?)
    {
      assert a in round + more;
    }
    RefusalArrives(s2, round, now, r, l, t);
  }

  /**
    A leader of an old term whose heartbeat is due leaves its term in the same call, if nothing is lost between it and
    some node of a later term, whatever else is lost and in whatever order messages arrive; unless the call panics.
   */
  lemma StaleLeaderLeaves(s: State, l: int, t: int, v: int, c: Call)
    requires Configured(s.nodes) && s.flight == multiset{} && Lockstep(s, c) && Finished(s, c)
    requires l in s.nodes && s.nodes[l].role == Leader && s.nodes[l].term == t
    requires c.now - s.nodes[l].sentAt >= s.nodes[l].heartbeatInterval
    requires v in s.nodes && s.nodes[v].term > t && InTouch(Concat(c.rounds), l, v)
    ensures Exec(s, Actions(c)).Running? ==>
      l in Exec(s, Actions(c)).state.nodes && Exec(s, Actions(c)).state.nodes[l].term > t
  {
    TickPhase(s, c.order, c.now);
    var s1 := Exec(s, TickAll(c.order, c.now)).state;
    ExecConcat(s, TickAll(c.order, c.now), Concat(c.rounds));
    TickedOutdated(s, l, t, v, c.now, s1);
    RunKeeps(s, TickAll(c.order, c.now));
    if Exec(s, Actions(c)).Running? {
      TwoRounds(s1, c, l, t, v);
    }
  }
}
