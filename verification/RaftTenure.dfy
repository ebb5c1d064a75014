/**
  How long a leader stays: the exact bound on election timeouts. The failing runs are built from calls
  of `Tick` that always exist, because delivery ends.
 */
module RaftTenure {
  import opened RaftNode
  import opened RaftNetwork
  import opened RaftLockstep
  import opened RaftConvergence
  import opened RaftStability
  import opened Sums

  // ----- a call of `Tick` always exists -----

  lemma {:induction false} SomeOrder(ids: set<int>) returns (order: seq<int>)
    ensures Lists(order, ids)
    decreases ids
  {
    order := [];
    if ids != {} {
      var i := AnElement(ids);
      var rest := SomeOrder(ids - {i});
      order := rest + [i];
      assert forall j :: 0 <= j < |rest| ==> rest[j] in rest;
    }
  }

  lemma {:induction false} Spread(flight: multiset<Message>) returns (ms: seq<Message>)
    ensures multiset(ms) == flight
    decreases |flight|
  {
    ms := [];
    if flight != multiset{} {
      var m :| m in flight;
      var rest := Spread(flight - multiset{m});
      ms := [m] + rest;
    }
  }

  /** Rounds of deliveries until nothing is left. */
  lemma {:induction false} SomeRounds(s: State, off: set<int>, now: int, rank: nat) returns (rounds: seq<seq<Action>>)
    requires Below(s.flight, rank)
    ensures Rounds(s, rounds, now) && DecidedBy(Concat(rounds), now, off, KeepAll)
    ensures Exec(s, Concat(rounds)).Running? ==> Exec(s, Concat(rounds)).state.flight == multiset{}
    decreases rank
  {
    rounds := [];
    if s.flight != multiset{} {
      var ms := Spread(s.flight);
      DecisionsDecide(off, KeepAll, ms, now);
      var round := Decisions(off, KeepAll, ms, now);
      var rest := [];
      if Exec(s, round).Running? {
        var m :| m in s.flight;
        RoundDrops(s, round, now, rank);
        rest := SomeRounds(Exec(s, round).state, off, now, rank - 1);
      }
      rounds := RoundThenMore(s, off, now, round, rest);
    }
  }

  lemma RoundThenMore(s: State, off: set<int>, now: int, round: seq<Action>, rest: seq<seq<Action>>)
    returns (rounds: seq<seq<Action>>)
    requires s.flight != multiset{} && Round(s, round, now) && DecidedBy(round, now, off, KeepAll)
    requires DecidedBy(Concat(rest), now, off, KeepAll)
    requires if Exec(s, round).Running? then Rounds(Exec(s, round).state, rest, now) else rest == []
    requires Exec(s, round).Running? && Exec(Exec(s, round).state, Concat(rest)).Running? ==>
      Exec(Exec(s, round).state, Concat(rest)).state.flight == multiset{}
    ensures Rounds(s, rounds, now) && DecidedBy(Concat(rounds), now, off, KeepAll)
    ensures Exec(s, Concat(rounds)).Running? ==> Exec(s, Concat(rounds)).state.flight == multiset{}
  {
    rounds := [round] + rest;
    assert rounds[1..] == rest;
    ExecConcat(s, round, Concat(rest));
  }

  /** From every quiescent state, whatever is disabled, a call runs to its end. */
  lemma SomeCall(s: State, off: set<int>, now: int) returns (c: Call)
    requires s.flight == multiset{}
    ensures Lockstep(s, c) && Finished(s, c) && CutsOff(c, off) && c.now == now
  {
    var order := SomeOrder(s.nodes.Keys);
    var s1 := Ticks(s, order, now);
    var rounds := SomeRounds(s1, off, now, 4);
    c := Call(now, order, rounds);
    RoundsMakeCall(s, s1, off, c);
  }

  lemma Ticks(s: State, order: seq<int>, now: int) returns (s1: State)
    ensures Exec(s, TickAll(order, now)) == Running(s1) && Below(s1.flight, 4)
  {
    TicksNeverPanic(s, order, now);
    s1 := Exec(s, TickAll(order, now)).state;
  }

  lemma {:induction false} TicksNeverPanic(s: State, order: seq<int>, now: int)
    ensures Exec(s, TickAll(order, now)).Running?
    decreases |order|
  {
    if order != [] {
      var a := TickNode(order[0], now);
      if order[0] in s.nodes {
        TickNeverPanics(s.nodes[order[0]], now);
      }
      assert TickAll(order, now)[1..] == TickAll(order[1..], now);
      TicksNeverPanic(Apply(s, a).state, order[1..], now);
    }
  }

  lemma RoundsMakeCall(s: State, s1: State, off: set<int>, c: Call)
    requires Lists(c.order, s.nodes.Keys) && Exec(s, TickAll(c.order, c.now)) == Running(s1)
    requires Rounds(s1, c.rounds, c.now) && DecidedBy(Concat(c.rounds), c.now, off, KeepAll)
    requires Exec(s1, Concat(c.rounds)).Running? ==> Exec(s1, Concat(c.rounds)).state.flight == multiset{}
    ensures Lockstep(s, c) && Finished(s, c) && CutsOff(c, off)
  {
    ExecConcat(s, TickAll(c.order, c.now), Concat(c.rounds));
  }

  // ----- the exact bound -----

  /** Calls 1 to `d` apart, all cutting off exactly the nodes in `off`. */
  ghost predicate Paced(last: int, d: int, off: set<int>, calls: seq<Call>)
    decreases |calls|
  {
    calls != [] ==> last < calls[0].now <= last + d && CutsOff(calls[0], off) && Paced(calls[0].now, d, off, calls[1..])
  }

  lemma {:induction false} PacedIsSteady(last: int, d: int, off: set<int>, calls: seq<Call>)
    requires Paced(last, d, off, calls)
    ensures Steady(last, d, off, calls)
    decreases |calls|
  {
    if calls != [] {
      PacedIsSteady(calls[0].now, d, off, calls[1..]);
    }
  }

  /** The run ends, without a panic, with the same leader, term and followers. */
  ghost predicate Endures(s: State, l: int, t: int, off: set<int>, calls: seq<Call>) {
    Exec(s, Schedule(calls)).Running? && Led(Exec(s, Schedule(calls)).state, l, t, off)
  }

  /** The run ends, without a panic, with `l` leading term `t`. */
  ghost predicate Reigns(s: State, l: int, t: int, calls: seq<Call>) {
    var r := Exec(s, Schedule(calls));
    r.Running? && l in r.state.nodes && r.state.nodes[l].role == Leader && r.state.nodes[l].term == t
  }

  /** Node `v` is the enabled follower whose timer, of `timeout`, runs out first. */
  ghost predicate Soonest(s: State, l: int, off: set<int>, v: int, timeout: int) {
    && Enabled(s, l, off, v) && s.nodes[v].electionTimeout == timeout
    && forall u :: Enabled(s, l, off, u) ==> timeout <= s.nodes[u].electionTimeout
  }

  lemma SoonestStays(s: State, s': State, l: int, off: set<int>, v: int, timeout: int)
    requires Soonest(s, l, off, v, timeout) && Keeps(s, s')
    ensures Soonest(s', l, off, v, timeout)
  {
    forall u | Enabled(s', l, off, u)
      ensures timeout <= s'.nodes[u].electionTimeout
    {
      assert Enabled(s, l, off, u);
    }
  }

  /** A call before any heartbeat is due and any timer has run out leaves everything as it is. */
  lemma NothingDue(s: State, l: int, t: int, off: set<int>, v: int, timeout: int, c: Call)
    requires Led(s, l, t, off) && Soonest(s, l, off, v, timeout)
    requires c.now - s.nodes[l].sentAt < s.nodes[l].heartbeatInterval && c.now - s.nodes[l].sentAt < timeout
    requires s.nodes[l].heartbeatInterval >= 1
    requires Lockstep(s, c) && Finished(s, c) && CutsOff(c, off)
    ensures Exec(s, Actions(c)).Running?
    ensures var s' := Exec(s, Actions(c)).state;
      && Led(s', l, t, off) && Soonest(s', l, off, v, timeout)
      && s'.nodes[l].sentAt == s.nodes[l].sentAt && s'.nodes[l].heartbeatInterval == s.nodes[l].heartbeatInterval
  {
    var interval := s.nodes[l].heartbeatInterval;
    StableCall(s, l, t, off, s.nodes[l].sentAt + interval - 1, timeout - interval, c);
    RunKeeps(s, Actions(c));
    SoonestStays(s, Exec(s, Actions(c)).state, l, off, v, timeout);
  }

  // ----- a follower that stands deposes the leader -----

  lemma {:induction false} DecidedHas(acts: seq<Action>, m: Message)
    requires m in Decided(acts)
    ensures exists i :: 0 <= i < |acts| && !acts[i].TickNode? && acts[i].msg == m
    decreases |acts|
  {
    if !acts[0].TickNode? && acts[0].msg == m {
      assert acts[0].msg == m;
    } else {
      DecidedHas(acts[1..], m);
      var i :| 0 <= i < |acts| - 1 && !acts[1..][i].TickNode? && acts[1..][i].msg == m;
      assert acts[i + 1].msg == m;
    }
  }

  /** A vote request that is decided and not lost takes the node it goes to into its term. */
  lemma {:induction false} RequestArrives(s: State, acts: seq<Action>, m: Message, now: int)
    requires m in s.flight && m.to in s.nodes && m.kind == RequestVoteReq && Exec(s, acts).Running?
    requires forall a :: a in acts ==> Decides(a, now) && (a.msg == m ==> a.Deliver?)
    requires exists i :: 0 <= i < |acts| && !acts[i].TickNode? && acts[i].msg == m
    ensures var s' := Exec(s, acts).state; m.to in s'.nodes && s'.nodes[m.to].term >= m.term
    decreases |acts|
  {
    var a := acts[0];
    assert a in acts;
    if a.msg == m {
      RequestRaises(s, m, now);
      assert a == Deliver(m, now);
      RunKeeps(Apply(s, a).state, acts[1..]);
    } else {
      var i :| 0 <= i < |acts| && !acts[i].TickNode? && acts[i].msg == m;
      assert acts[1..][i - 1].msg == m;
      StaysInFlight(s, a, m);
      RequestArrives(Apply(s, a).state, acts[1..], m, now);
    }
  }

  lemma RequestRaises(s: State, m: Message, now: int)
    requires m in s.flight && m.to in s.nodes && m.kind == RequestVoteReq
    ensures var r := Apply(s, Deliver(m, now));
      r.Running? && m.to in r.state.nodes && r.state.nodes[m.to].term >= m.term
  {
  }

  lemma StaysInFlight(s: State, a: Action, m: Message)
    requires m in s.flight && m.to in s.nodes && (a.Deliver? || a.Drop?) && a.msg != m && Apply(s, a).Running?
    ensures m in Apply(s, a).state.flight && m.to in Apply(s, a).state.nodes
  {
    assert m in s.flight - multiset{a.msg};
  }

  /** The follower whose timer runs out asks the leader too, which then leaves its term. */
  lemma TimerRunsOut(s: State, l: int, t: int, off: set<int>, v: int, c: Call)
    requires Led(s, l, t, off) && Enabled(s, l, off, v) && Lockstep(s, c) && Finished(s, c) && CutsOff(c, off)
    requires c.now - s.nodes[l].sentAt >= s.nodes[v].electionTimeout
    ensures Exec(s, Actions(c)).Running? ==>
      l in Exec(s, Actions(c)).state.nodes && Exec(s, Actions(c)).state.nodes[l].term > t
  {
    TickPhase(s, c.order, c.now);
    var s1 := Exec(s, TickAll(c.order, c.now)).state;
    ExecConcat(s, TickAll(c.order, c.now), Concat(c.rounds));
    AsksLeader(s, l, t, off, v, c.now, s1);
    if Exec(s, Actions(c)).Running? {
      LeaderIsAsked(s1, l, t, off, v, c);
    }
  }

  lemma AsksLeader(s: State, l: int, t: int, off: set<int>, v: int, now: int, s1: State)
    requires Led(s, l, t, off) && Enabled(s, l, off, v) && Ticked(s, now, s1)
    requires now - s.nodes[l].sentAt >= s.nodes[v].electionTimeout
    ensures l in s1.nodes && Request(v, l, t + 1) in s1.flight
  {
    assert l in s.nodes[v].peers;
    TickRequests(s.nodes[v], now, l);
  }

  lemma LeaderIsAsked(s1: State, l: int, t: int, off: set<int>, v: int, c: Call)
    requires l in s1.nodes && Request(v, l, t + 1) in s1.flight && l !in off && v !in off
    requires Rounds(s1, c.rounds, c.now) && CutsOff(c, off) && Exec(s1, Concat(c.rounds)).Running?
    requires Exec(s1, Concat(c.rounds)).state.flight == multiset{}
    ensures var s' := Exec(s1, Concat(c.rounds)).state; l in s'.nodes && s'.nodes[l].term > t
  {
    var m := Request(v, l, t + 1);
    assert c.rounds != [];
    var first, rest := c.rounds[0], Concat(c.rounds[1..]);
    ExecConcat(s1, first, rest);
    DecidedHas(first, m);
    forall a | a in first
      ensures Decides(a, c.now) && (a.msg == m ==> a.Deliver?)
    {
      assert a in Concat(c.rounds);
    }
    RequestArrives(s1, first, m, c.now);
    RunKeeps(Exec(s1, first).state, rest);
  }

  /** If the shortest timeout is below interval plus `d`, waiting as long as allowed deposes the leader. */
  lemma {:induction false} Deposes(s: State, l: int, t: int, off: set<int>, last: int, d: int, v: int, timeout: int)
    returns (calls: seq<Call>)
    requires Led(s, l, t, off) && Soonest(s, l, off, v, timeout) && s.nodes[l].heartbeatInterval >= 1 && d >= 1
    requires timeout < s.nodes[l].heartbeatInterval + d
    ensures LockstepRun(s, calls) && Paced(last, d, off, calls) && !Reigns(s, l, t, calls)
    decreases if s.nodes[l].sentAt + timeout > last then s.nodes[l].sentAt + timeout - last else 0
  {
    var out := s.nodes[l].sentAt + timeout;
    if last + d >= out {
      var c := SomeCall(s, off, if out > last then out else last + 1);
      TimerRunsOut(s, l, t, off, v, c);
      calls := [c];
      OneCall(s, c);
    } else {
      var c := SomeCall(s, off, last + 1);
      NothingDue(s, l, t, off, v, timeout, c);
      var rest := Deposes(Exec(s, Actions(c)).state, l, t, off, last + 1, d, v, timeout);
      calls := [c] + rest;
      FirstCall(s, c, rest);
    }
  }

  lemma FirstCall(s: State, c: Call, rest: seq<Call>)
    requires Lockstep(s, c) && Finished(s, c)
    requires Exec(s, Actions(c)).Running? ==> LockstepRun(Exec(s, Actions(c)).state, rest)
    ensures ([c] + rest)[1..] == rest && LockstepRun(s, [c] + rest)
    ensures Exec(s, Schedule([c] + rest)) ==
      if Exec(s, Actions(c)).Crashed? then Exec(s, Actions(c)) else Exec(Exec(s, Actions(c)).state, Schedule(rest))
  {
    LockstepCons(s, c, rest);
    assert ([c] + rest)[1..] == rest;
    ExecConcat(s, Actions(c), Schedule(rest));
  }

  lemma OneCall(s: State, c: Call)
    requires Lockstep(s, c) && Finished(s, c)
    ensures [c][1..] == [] && LockstepRun(s, [c]) && Exec(s, Schedule([c])) == Exec(s, Actions(c))
  {
    FirstCall(s, c, []);
    assert [c] + [] == [c];
  }

  ghost function Timeouts(s: State): int -> int {
    i => if i in s.nodes then s.nodes[i].electionTimeout else 0
  }

  lemma SomeSoonest(s: State, l: int, off: set<int>, u: int) returns (v: int)
    requires Enabled(s, l, off, u)
    ensures Enabled(s, l, off, v) && Soonest(s, l, off, v, s.nodes[v].electionTimeout)
    ensures s.nodes[v].electionTimeout <= s.nodes[u].electionTimeout
  {
    var enabled := s.nodes.Keys - {l} - off;
    assert u in enabled;
    v := Least(enabled, Timeouts(s));
    assert Timeouts(s)(v) <= Timeouts(s)(u);
    forall w | Enabled(s, l, off, w)
      ensures s.nodes[v].electionTimeout <= s.nodes[w].electionTimeout
    {
      assert w in enabled && Timeouts(s)(v) <= Timeouts(s)(w);
    }
  }

  /**
    The bound is exact: when the leader has just sent a heartbeat, every run of calls 1 to `d` apart that cuts off
    the nodes in `off` and loses nothing else ends with the same leader in the same term, if and only if every enabled
    follower's timeout is at least the heartbeat interval plus `d`; and the same holds for leader, term and followers.
   */
  lemma StabilityExactly(s: State, l: int, t: int, off: set<int>, d: int)
    requires Led(s, l, t, off) && s.nodes[l].heartbeatInterval >= 1 && d >= 1
    ensures (forall calls :: LockstepRun(s, calls) && Paced(s.nodes[l].sentAt, d, off, calls) ==>
      Reigns(s, l, t, calls))
      <==> SlowToStand(s, l, off, d)
    ensures (forall calls :: LockstepRun(s, calls) && Paced(s.nodes[l].sentAt, d, off, calls) ==>
      Endures(s, l, t, off, calls))
      <==> SlowToStand(s, l, off, d)
  {
    if SlowToStand(s, l, off, d) {
      forall calls | LockstepRun(s, calls) && Paced(s.nodes[l].sentAt, d, off, calls)
        ensures Endures(s, l, t, off, calls) && Reigns(s, l, t, calls)
      {
        PacedIsSteady(s.nodes[l].sentAt, d, off, calls);
        LeaderStability(s, l, t, off, s.nodes[l].sentAt, d, calls);
      }
    } else {
      var u :| Enabled(s, l, off, u) && s.nodes[u].electionTimeout < s.nodes[l].heartbeatInterval + d;
      var v := SomeSoonest(s, l, off, u);
      var calls := Deposes(s, l, t, off, s.nodes[l].sentAt, d, v, s.nodes[v].electionTimeout);
      assert !Endures(s, l, t, off, calls);
    }
  }

  ghost predicate SlowToStand(s: State, l: int, off: set<int>, d: int)
    requires l in s.nodes
  {
    forall v :: Enabled(s, l, off, v) ==> s.nodes[v].electionTimeout >= s.nodes[l].heartbeatInterval + d
  }
}
