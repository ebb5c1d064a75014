/**
  How fast terms can grow, under any network behaviour (loss, delay, reordering, duplication):
  a node starts at most one election per election timeout, and every term in the system is paid
  for by an election somebody started.
 */
module RaftTerms {
  import opened RaftNode
  import opened RaftNetwork
  import opened Sums

  /** The action makes node `i` start an election. */
  ghost predicate StandsIn(s: State, a: Action, i: int) {
    a.TickNode? && a.id == i && i in s.nodes && Stands(s.nodes[i], Tick, a.now)
  }

  /** How many elections node `i` starts during the schedule. */
  ghost function Elections(s: State, acts: seq<Action>, i: int): nat
    decreases |acts|
  {
    if acts == [] then 0
    else
      (if StandsIn(s, acts[0], i) then 1 else 0) +
      (if Apply(s, acts[0]).Running? then Elections(Apply(s, acts[0]).state, acts[1..], i) else 0)
  }

  function At(m: map<int, int>): int -> int {
    i => if i in m then m[i] else 0
  }

  /** The clock of the node an action runs on moves to the action's time. */
  function Advance(clock: map<int, int>, a: Action): map<int, int> {
    match a
    case TickNode(i, now) => clock[i := now]
    case Deliver(m, now) => clock[m.to := now]
    case _ => clock
  }

  function FinalClock(clock: map<int, int>, acts: seq<Action>): map<int, int>
    decreases |acts|
  {
    if acts == [] then clock else FinalClock(Advance(clock, acts[0]), acts[1..])
  }

  /** No node's clock ever runs backwards; different nodes' clocks are unrelated. */
  ghost predicate ClocksForward(clock: map<int, int>, acts: seq<Action>)
    decreases |acts|
  {
    acts != [] ==>
      && (forall i :: At(clock)(i) <= At(Advance(clock, acts[0]))(i))
      && ClocksForward(Advance(clock, acts[0]), acts[1..])
  }

  /** The `count` elections of node `n` so far each cost it a full timeout of its clock. */
  ghost predicate Timed(n: NodeState, count: int, clock: int) {
    n.electionTimeout >= 1 && count * n.electionTimeout <= n.heardAt <= clock
  }

  /** Elections are paid for in time, and terms in elections. */
  ghost predicate Paid(s: State, clock: map<int, int>, count: map<int, int>) {
    && Configured(s.nodes)
    && (forall i :: i in s.nodes ==>
          && SelfVoted(s.nodes[i])
          && Timed(s.nodes[i], At(count)(i), At(clock)(i))
          && s.nodes[i].term <= Sum(s.nodes.Keys, At(count)))
    && (forall m :: m in s.flight ==> m.term <= Sum(s.nodes.Keys, At(count)))
  }

  /**
    Standing resets the timer; otherwise the timer keeps its value or is set to now, and the term is one already in
    use.
   */
  lemma TimerStep(n: NodeState, e: Event, now: int)
    requires Handle(n, e, now).Done?
    ensures var n' := Handle(n, e, now).node;
      if Stands(n, e, now) then n'.heardAt == now && n'.term == n.term + 1
      else
        && (n'.heardAt == n.heardAt || n'.heardAt == now)
        && (n'.term == n.term || (e.Receive? && n'.term == e.message.term))
  {
  }

  ghost function Charge(count: map<int, int>, i: int, stood: bool): map<int, int> {
    if stood then count[i := At(count)(i) + 1] else count
  }

  lemma PaidStep(s: State, clock: map<int, int>, count: map<int, int>, i: int, e: Event, now: int,
                 flight: multiset<Message>)
    requires Paid(s, clock, count) && i in s.nodes && Handle(s.nodes[i], e, now).Done?
    requires forall m :: m in flight ==> m in s.flight
    requires e.Receive? ==> e.message in s.flight
    requires At(clock)(i) <= now
    ensures Paid(State(s.nodes[i := Handle(s.nodes[i], e, now).node],
      flight + multiset(Handle(s.nodes[i], e, now).sent)),
                 clock[i := now], Charge(count, i, Stands(s.nodes[i], e, now)))
  {
    var n, n', sent := s.nodes[i], Handle(s.nodes[i], e, now).node, Handle(s.nodes[i], e, now).sent;
    StepDiscipline(n, e, now);
    TimerStep(n, e, now);
    PaidTimers(n, e, now, n', At(count)(i), At(clock)(i));
    assert forall m :: m in sent ==> Justified(n, e, now, n', m);
    PaidUpdate(s, clock, count, i, now, n', flight, sent, Stands(n, e, now));
  }

  lemma PaidUpdate(s: State, clock: map<int, int>, count: map<int, int>, i: int, now: int,
                   n': NodeState, flight: multiset<Message>, sent: seq<Message>, stood: bool)
    requires Paid(s, clock, count) && i in s.nodes && SameIdentity(s.nodes[i], n') && SelfVoted(n')
    requires forall m :: m in flight ==> m in s.flight
    requires forall m :: m in sent ==> m.term == n'.term
    requires n'.term <= if stood then s.nodes[i].term + 1 else Sum(s.nodes.Keys, At(count))
    requires Timed(n', At(Charge(count, i, stood))(i), now)
    ensures Paid(State(s.nodes[i := n'], flight + multiset(sent)), clock[i := now], Charge(count, i, stood))
  {
    var s', count' := State(s.nodes[i := n'], flight + multiset(sent)), Charge(count, i, stood);
    assert s'.nodes.Keys == s.nodes.Keys;
    SumChange(s.nodes.Keys, At(count), At(count'), i);
    forall m | m in s'.flight
      ensures m in s.flight || m.term == n'.term
    {
      assert m in flight || m in sent;
    }
  }

  lemma PaidTimers(n: NodeState, e: Event, now: int, n': NodeState, count: int, clock: int)
    requires Timed(n, count, clock) && clock <= now && SameIdentity(n, n')
    requires if Stands(n, e, now) then n'.heardAt == now else n'.heardAt == n.heardAt || n'.heardAt == now
    ensures Timed(n', if Stands(n, e, now) then count + 1 else count, now)
  {
    assert (count + 1) * n.electionTimeout == count * n.electionTimeout + n.electionTimeout;
  }

  lemma PaidAction(s: State, clock: map<int, int>, count: map<int, int>, a: Action) returns (count': map<int, int>)
    requires Paid(s, clock, count) && Apply(s, a).Running?
    requires forall i :: At(clock)(i) <= At(Advance(clock, a))(i)
    ensures Paid(Apply(s, a).state, Advance(clock, a), count')
    ensures forall i :: i in s.nodes ==> At(count')(i) == At(count)(i) + if StandsIn(s, a, i) then 1 else 0
  {
    count' := count;
    match a
    case TickNode(i, now) =>
      assert At(clock)(i) <= At(Advance(clock, a))(i);
      if i in s.nodes {
        PaidStep(s, clock, count, i, Tick, now, s.flight);
        count' := Charge(count, i, Stands(s.nodes[i], Tick, now));
      }
    case Deliver(m, now) => PaidDelivery(s, clock, count, m, now);
    case Drop(m) => PaidLoss(s, clock, clock, count, m);
    case Duplicate(m) =>
  }

  lemma PaidDelivery(s: State, clock: map<int, int>, count: map<int, int>, m: Message, now: int)
    requires Paid(s, clock, count) && Apply(s, Deliver(m, now)).Running?
    requires forall i :: At(clock)(i) <= At(clock[m.to := now])(i)
    ensures Paid(Apply(s, Deliver(m, now)).state, clock[m.to := now], count)
  {
    assert At(clock)(m.to) <= At(clock[m.to := now])(m.to);
    if m in s.flight && m.to in s.nodes {
      PaidStep(s, clock, count, m.to, Receive(m), now, s.flight - multiset{m});
    } else {
      PaidLoss(s, clock, clock[m.to := now], count, m);
    }
  }

  lemma PaidLoss(s: State, clock: map<int, int>, clock': map<int, int>, count: map<int, int>, m: Message)
    requires Paid(s, clock, count)
    requires forall i :: At(clock)(i) <= At(clock')(i)
    ensures Paid(s, clock', count) && Paid(s.(flight := s.flight - multiset{m}), clock', count)
  {
    assert forall x :: x in s.flight - multiset{m} ==> x in s.flight;
    assert forall i :: i in s.nodes ==> At(clock)(i) <= At(clock')(i);
  }

  lemma {:induction false} PaidRun(s: State, clock: map<int, int>, count: map<int, int>, acts: seq<Action>)
    returns (count': map<int, int>)
    requires Paid(s, clock, count) && ClocksForward(clock, acts) && Exec(s, acts).Running?
    ensures Paid(Exec(s, acts).state, FinalClock(clock, acts), count')
    ensures forall i :: i in s.nodes ==> At(count')(i) == At(count)(i) + Elections(s, acts, i)
    ensures Exec(s, acts).state.nodes.Keys == s.nodes.Keys
    decreases |acts|
  {
    count' := count;
    if acts != [] {
      ActionKeeps(s, acts[0]);
      var count1 := PaidAction(s, clock, count, acts[0]);
      count' := PaidRun(Apply(s, acts[0]).state, Advance(clock, acts[0]), count1, acts[1..]);
    }
  }

  /** How many election timeouts of node `i` fit into its clock. */
  ghost function Budget(s: State, clock: map<int, int>): int -> int {
    i => if i in s.nodes && s.nodes[i].electionTimeout >= 1 then At(clock)(i) / s.nodes[i].electionTimeout else 0
  }

  /**
    Whatever the network does, node `i` starts at most as many elections as election timeouts fit
    into its clock, and no term of a node or of a message exceeds the sum of these numbers.
   */
  lemma TermGrowth(s: State, acts: seq<Action>)
    requires Initial(s) && (forall i :: i in s.nodes ==> s.nodes[i].electionTimeout >= 1)
    requires ClocksForward(map[], acts) && Exec(s, acts).Running?
    ensures var s', clock := Exec(s, acts).state, FinalClock(map[], acts);
      && (forall i :: i in s.nodes ==> Elections(s, acts, i) <= Budget(s, clock)(i))
      && (forall i :: i in s'.nodes ==> s'.nodes[i].term <= Sum(s.nodes.Keys, Budget(s, clock)))
      && (forall m :: m in s'.flight ==> m.term <= Sum(s.nodes.Keys, Budget(s, clock)))
  {
    var zero: map<int, int> := map[];
    SumZero(s.nodes.Keys, At(zero));
    var count := PaidRun(s, zero, zero, acts);
    var s', clock := Exec(s, acts).state, FinalClock(map[], acts);
    RunKeeps(s, acts);
    forall i | i in s.nodes
      ensures Elections(s, acts, i) <= Budget(s, clock)(i)
    {
      Quotient(At(count)(i), s.nodes[i].electionTimeout, At(clock)(i));
    }
    SumBound(s.nodes.Keys, At(count), Budget(s, clock));
  }

  lemma TimesMore(a: int, b: int, t: int)
    requires a <= b && t >= 1
    ensures a * t <= b * t
  {
  }

  lemma Quotient(count: int, timeout: int, clock: int)
    requires timeout >= 1 && count * timeout <= clock
    ensures count <= clock / timeout
  {
    var q := clock / timeout;
    assert clock < (q + 1) * timeout;
    if q + 1 <= count {
      TimesMore(q + 1, count, timeout);
    }
  }
}
