/**
  Leader stability: how long election timeouts must be so that heartbeats keep a leader in office,
  whichever followers are cut off.
 */
module RaftStability {
  import opened RaftNode
  import opened RaftNetwork
  import opened RaftLockstep
  import opened RaftConvergence

  /** Node `v` takes part and is not the leader. */
  ghost predicate Enabled(s: State, l: int, off: set<int>, v: int) {
    v in s.nodes && v != l && v !in off
  }

  /**
    `l` leads term `t`, the nodes outside `off` follow it, and all of them heard its last heartbeat when it was sent.
   */
  ghost predicate Led(s: State, l: int, t: int, off: set<int>) {
    && Configured(s.nodes) && s.flight == multiset{}
    && l in s.nodes && l !in off && s.nodes[l].role == Leader && s.nodes[l].term == t
    && forall v :: Enabled(s, l, off, v) ==>
         s.nodes[v].role == Follower && s.nodes[v].term == t && s.nodes[v].heardAt == s.nodes[l].sentAt
  }

  /** The last heartbeat is less than an interval old, and timeouts exceed the interval by the largest tick distance. */
  ghost predicate Stable(s: State, l: int, t: int, off: set<int>, last: int, d: int) {
    && Led(s, l, t, off)
    && s.nodes[l].heartbeatInterval >= 1
    && last - s.nodes[l].sentAt < s.nodes[l].heartbeatInterval
    && forall v :: Enabled(s, l, off, v) ==> s.nodes[v].electionTimeout >= s.nodes[l].heartbeatInterval + d
  }

  /** Exactly the messages to or from a disabled node are lost. */
  ghost predicate CutsOff(c: Call, off: set<int>) {
    forall a :: a in Concat(c.rounds) && !a.TickNode? ==> (a.Drop? <==> a.msg.from in off || a.msg.to in off)
  }

  /** Between enabled nodes only heartbeats of `l` and answers to them are under way. */
  ghost predicate Calm(m: Message, l: int, t: int, off: set<int>, beating: bool) {
    m.from !in off && m.to !in off ==>
      m.term == t && ((m.kind == AppendEntriesReq && m.from == l && m.to != l && beating)
        || (m.kind == AppendEntriesRes && m.to == l))
  }

  /** During a call at time `now`, the leader's last heartbeat being of time `beat`. */
  ghost predicate Beating(s: State, l: int, t: int, off: set<int>, now: int, beat: int) {
    && Configured(s.nodes)
    && l in s.nodes && l !in off && s.nodes[l].role == Leader && s.nodes[l].term == t && s.nodes[l].sentAt == beat
    && (forall v :: Enabled(s, l, off, v) ==>
          && s.nodes[v].role == Follower && s.nodes[v].term == t
          && (s.nodes[v].heardAt == beat || (beat == now && Heartbeat(l, v, t) in s.flight)))
    && (forall m :: m in s.flight ==> Calm(m, l, t, off, beat == now))
  }

  lemma FollowerHears(n: NodeState, m: Message, now: int)
    requires n.role == Follower && m.kind == AppendEntriesReq && m.term == n.term
    ensures Handle(n, Receive(m), now)
      == Done(n.(heardAt := now), [Message(n.id, m.from, AppendEntriesRes, true, n.term)])
  {
  }

  lemma DeliverBeats(s: State, l: int, t: int, off: set<int>, now: int, beat: int, m: Message)
    requires Beating(s, l, t, off, now, beat) && m in s.flight && m.from !in off && m.to !in off
    ensures Apply(s, Deliver(m, now)).Running? && Beating(Apply(s, Deliver(m, now)).state, l, t, off, now, beat)
  {
    assert Calm(m, l, t, off, beat == now);
    if m.kind == AppendEntriesReq && m.to in s.nodes {
      assert Enabled(s, l, off, m.to);
      FollowerHears(s.nodes[m.to], m, now);
    } else if m.to in s.nodes {
      assert Handle(s.nodes[l], Receive(m), now) == Done(s.nodes[l], []);
    }
    var s' := Apply(s, Deliver(m, now)).state;
    BeatsAfter(s, s', l, t, off, now, beat, m);
  }

  lemma BeatsAfter(s: State, s': State, l: int, t: int, off: set<int>, now: int, beat: int, m: Message)
    requires Beating(s, l, t, off, now, beat) && m in s.flight && s'.nodes.Keys == s.nodes.Keys
    requires forall x :: x in s.flight && x != m ==> x in s'.flight
    requires forall x :: x in s'.flight ==> x in s.flight || Calm(x, l, t, off, beat == now)
    requires m == Heartbeat(l, m.to, t) && Enabled(s, l, off, m.to) ==> s'.nodes[m.to].heardAt == now
    requires forall i :: i in s.nodes ==>
      s'.nodes[i] == s.nodes[i] || (s'.nodes[i] == s.nodes[i].(heardAt := now) && i != l && beat == now)
    ensures Beating(s', l, t, off, now, beat)
  {
    forall v | Enabled(s', l, off, v)
      ensures s'.nodes[v].role == Follower && s'.nodes[v].term == t
      ensures s'.nodes[v].heardAt == beat || (beat == now && Heartbeat(l, v, t) in s'.flight)
    {
      assert Enabled(s, l, off, v);
    }
  }

  lemma DropBeats(s: State, l: int, t: int, off: set<int>, now: int, beat: int, m: Message)
    requires Beating(s, l, t, off, now, beat) && (m.from in off || m.to in off)
    ensures Beating(s.(flight := s.flight - multiset{m}), l, t, off, now, beat)
  {
    var s' := s.(flight := s.flight - multiset{m});
    assert forall x :: x in s'.flight ==> x in s.flight;
    forall v | Enabled(s', l, off, v)
      ensures s'.nodes[v].heardAt == beat || (beat == now && Heartbeat(l, v, t) in s'.flight)
    {
      assert Enabled(s, l, off, v) && Heartbeat(l, v, t) != m;
    }
  }

  lemma {:induction false} DecisionsBeat(s: State, l: int, t: int, off: set<int>, now: int, beat: int,
                                         acts: seq<Action>)
    requires Beating(s, l, t, off, now, beat)
    requires forall a :: a in acts ==> Decides(a, now) && (a.Drop? <==> a.msg.from in off || a.msg.to in off)
    ensures Exec(s, acts).Running? && Beating(Exec(s, acts).state, l, t, off, now, beat)
    decreases |acts|
  {
    if acts != [] {
      var a := acts[0];
      assert a in acts;
      if a.Drop? {
        DropBeats(s, l, t, off, now, beat, a.msg);
      } else if a.msg in s.flight {
        DeliverBeats(s, l, t, off, now, beat, a.msg);
        assert a == Deliver(a.msg, now);
      }
      DecisionsBeat(Apply(s, a).state, l, t, off, now, beat, acts[1..]);
    }
  }

  /** The followers' timers have not run out when the leader's next heartbeat is due. */
  lemma TickedBeats(s: State, l: int, t: int, off: set<int>, last: int, d: int, now: int, s1: State)
    requires Stable(s, l, t, off, last, d) && now <= last + d && Ticked(s, now, s1)
    ensures s1.nodes[l].sentAt == if now - s.nodes[l].sentAt >= s.nodes[l].heartbeatInterval then now
      else s.nodes[l].sentAt
    ensures Beating(s1, l, t, off, now, s1.nodes[l].sentAt)
  {
    var beat := s1.nodes[l].sentAt;
    assert s1.nodes[l] == HandleTick(s.nodes[l], now).node;
    LeaderTicks(s.nodes[l], now);
    forall v | Enabled(s1, l, off, v)
      ensures s1.nodes[v].role == Follower && s1.nodes[v].term == t
      ensures s1.nodes[v].heardAt == beat || (beat == now && Heartbeat(l, v, t) in s1.flight)
    {
      assert Enabled(s, l, off, v);
      WaitsTick(s.nodes[v], now);
      if now - s.nodes[l].sentAt >= s.nodes[l].heartbeatInterval {
        assert v in s.nodes[l].peers;
        assert Heartbeat(l, v, t) in HandleTick(s.nodes[l], now).sent;
      }
    }
    TickedCalm(s, l, t, off, last, d, now, s1);
    assert forall i :: i in s.nodes ==> SameIdentity(s.nodes[i], s1.nodes[i]) by {
      forall i | i in s.nodes ensures SameIdentity(s.nodes[i], s1.nodes[i]) { StepKeeps(s.nodes[i], Tick, now); }
    }
  }

  lemma LeaderTicks(n: NodeState, now: int)
    requires n.role == Leader
    ensures var due := now - n.sentAt >= n.heartbeatInterval;
      && HandleTick(n, now).node == (if due then n.(sentAt := now) else n)
      && (due ==> forall v :: v in n.peers ==> Heartbeat(n.id, v, n.term) in HandleTick(n, now).sent)
  {
    ToAllMembers(n.id, n.peers, AppendEntriesReq, n.term);
    assert forall v :: v in n.peers ==>
      IsBroadcast(Heartbeat(n.id, v, n.term), n.id, n.peers, AppendEntriesReq, n.term);
  }

  lemma WaitsTick(n: NodeState, now: int)
    requires n.role != Leader && now - n.heardAt < n.electionTimeout
    ensures HandleTick(n, now) == Done(n, [])
  {
  }

  lemma TickedCalm(s: State, l: int, t: int, off: set<int>, last: int, d: int, now: int, s1: State)
    requires Stable(s, l, t, off, last, d) && now <= last + d && Ticked(s, now, s1)
    requires now - s.nodes[l].sentAt >= s.nodes[l].heartbeatInterval ==> s1.nodes[l].sentAt == now
    ensures forall m :: m in s1.flight ==> Calm(m, l, t, off, s1.nodes[l].sentAt == now)
  {
    forall m | m in s1.flight
      ensures Calm(m, l, t, off, s1.nodes[l].sentAt == now)
    {
      assert SentByTick(s, now, m);
      SentInTerm(s, now, m);
      assert !Enabled(s, l, off, m.from);
    }
  }

  /** One call keeps the leader, its term and its followers, and cannot panic. */
  lemma StableCall(s: State, l: int, t: int, off: set<int>, last: int, d: int, c: Call)
    requires Stable(s, l, t, off, last, d)
    requires Lockstep(s, c) && Finished(s, c) && CutsOff(c, off) && c.now <= last + d
    ensures Exec(s, Actions(c)).Running? && Stable(Exec(s, Actions(c)).state, l, t, off, c.now, d)
    ensures var sentAt := s.nodes[l].sentAt;
      Exec(s, Actions(c)).state.nodes[l].sentAt == if c.now - sentAt >= s.nodes[l].heartbeatInterval then c.now
        else sentAt
  {
    TickPhase(s, c.order, c.now);
    var s1 := Exec(s, TickAll(c.order, c.now)).state;
    TickedBeats(s, l, t, off, last, d, c.now, s1);
    var beat := s1.nodes[l].sentAt;
    forall a | a in Concat(c.rounds)
      ensures Decides(a, c.now) && (a.Drop? <==> a.msg.from in off || a.msg.to in off)
    {
    }
    DecisionsBeat(s1, l, t, off, c.now, beat, Concat(c.rounds));
    ExecConcat(s, TickAll(c.order, c.now), Concat(c.rounds));
    RunKeeps(s, Actions(c));
    StillStable(s, Exec(s, Actions(c)).state, l, t, off, last, d, c.now, beat);
  }

  lemma StillStable(s: State, s': State, l: int, t: int, off: set<int>, last: int, d: int, now: int, beat: int)
    requires Stable(s, l, t, off, last, d) && Beating(s', l, t, off, now, beat) && s'.flight == multiset{}
    requires Keeps(s, s')
    requires beat == if now - s.nodes[l].sentAt >= s.nodes[l].heartbeatInterval then now else s.nodes[l].sentAt
    ensures Stable(s', l, t, off, now, d)
  {
    forall v | Enabled(s', l, off, v)
      ensures s'.nodes[v].role == Follower && s'.nodes[v].term == t && s'.nodes[v].heardAt == beat
      ensures s'.nodes[v].electionTimeout >= s'.nodes[l].heartbeatInterval + d
    {
      assert Enabled(s, l, off, v);
    }
  }

  /** Calls at most `d` apart, all cutting off exactly the nodes in `off`. */
  ghost predicate Steady(last: int, d: int, off: set<int>, calls: seq<Call>)
    decreases |calls|
  {
    calls != [] ==> calls[0].now <= last + d && CutsOff(calls[0], off) && Steady(calls[0].now, d, off, calls[1..])
  }

  /**
    However long the cluster runs: with ticks at most `d` apart, election timeouts of at least the heartbeat
    interval plus `d`, and nothing lost between enabled nodes, the leader and its term never change, whichever
    fixed set of followers is disabled. This holds for every cluster size.
   */
  lemma {:induction false} LeaderStability(s: State, l: int, t: int, off: set<int>, last: int, d: int, calls: seq<Call>)
    requires Stable(s, l, t, off, last, d) && LockstepRun(s, calls) && Steady(last, d, off, calls)
    ensures Exec(s, Schedule(calls)).Running?
    ensures Led(Exec(s, Schedule(calls)).state, l, t, off)
    decreases |calls|
  {
    if calls != [] {
      StableCall(s, l, t, off, last, d, calls[0]);
      ExecConcat(s, Actions(calls[0]), Schedule(calls[1..]));
      LeaderStability(Exec(s, Actions(calls[0])).state, l, t, off, calls[0].now, d, calls[1..]);
    }
  }

  /** A converged election is where stability starts. */
  lemma ConvergedIsStable(s: State, c: int, t: int, now: int, off: set<int>, d: int)
    requires Configured(s.nodes) && s.flight == multiset{} && Converged(s, c, t, now) && c !in off
    requires s.nodes[c].heartbeatInterval >= 1
    requires forall v :: Enabled(s, c, off, v) ==> s.nodes[v].electionTimeout >= s.nodes[c].heartbeatInterval + d
    ensures Stable(s, c, t, off, now, d)
  {
    forall v | Enabled(s, c, off, v)
      ensures s.nodes[v].role == Follower && s.nodes[v].term == t && s.nodes[v].heardAt == s.nodes[c].sentAt
      ensures s.nodes[v].electionTimeout >= s.nodes[c].heartbeatInterval + d
    {
      assert v in s.nodes && v != c;
    }
  }

  /**
    A leader elected by everybody in one call after any run of a quorate cluster stays the leader, in the same
    term, for as long as calls are steady, even if followers are cut off afterwards.
   */
  lemma ElectedStays(s0: State, calls: seq<Call>, s: State, call: Call, c: int, off: set<int>, d: int, later: seq<Call>)
    requires Initial(s0) && Quorate(|s0.nodes|) && LockstepRun(s0, calls) && Exec(s0, Schedule(calls)) == Running(s)
    requires Lockstep(s, call) && Finished(s, call) && NothingLost(call) && StandsAlone(s, c, call.now) && c !in off
    requires s.nodes[c].heartbeatInterval >= 1
    requires forall v :: Enabled(s, c, off, v) ==> s.nodes[v].electionTimeout >= s.nodes[c].heartbeatInterval + d
    requires Exec(s, Actions(call)).Running? ==> LockstepRun(Exec(s, Actions(call)).state, later)
    requires Steady(call.now, d, off, later)
    ensures Exec(s, Actions(call)).Running? && Exec(Exec(s, Actions(call)).state, Schedule(later)).Running?
    ensures Led(Exec(Exec(s, Actions(call)).state, Schedule(later)).state, c, s.nodes[c].term + 1, off)
  {
    OneTickConvergence(s0, calls, s, call, c);
    var s1, t := Exec(s, Actions(call)).state, s.nodes[c].term + 1;
    InitialInv(s0);
    var h := CallsTimely(s0, NO_HISTORY, calls);
    var h1, h2 := CallTimely(s, h, call, c);
    RunKeeps(s, Actions(call));
    SlowEnough(s, s1, c, off, d);
    ConvergedIsStable(s1, c, t, call.now, off, d);
    LeaderStability(s1, c, t, off, call.now, d, later);
  }

  lemma SlowEnough(s: State, s1: State, c: int, off: set<int>, d: int)
    requires Keeps(s, s1) && c in s.nodes && s.nodes[c].heartbeatInterval >= 1
    requires forall v :: Enabled(s, c, off, v) ==> s.nodes[v].electionTimeout >= s.nodes[c].heartbeatInterval + d
    ensures s1.nodes[c].heartbeatInterval >= 1
    ensures forall v :: Enabled(s1, c, off, v) ==> s1.nodes[v].electionTimeout >= s1.nodes[c].heartbeatInterval + d
  {
    forall v | Enabled(s1, c, off, v)
      ensures s1.nodes[v].electionTimeout >= s1.nodes[c].heartbeatInterval + d
    {
      assert Enabled(s, c, off, v);
    }
  }
}
