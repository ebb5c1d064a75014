/**
  The test cluster of internal/raft_test/cluster.go as an object: node objects changed in place,
  the delivery loops of `Tick`, and `WaitForLeader`. Go's map iteration order and the message
  sorter appear as arbitrary choices.
 */
module RaftCluster {
  import opened RaftNode
  import opened RaftNetwork
  import opened RaftLockstep
  import opened RaftConvergence
  import opened Sums

  /** All messages waiting in the outboxes of nodes 1 to `n`. */
  ghost function Pool(boxes: map<int, seq<Message>>, n: nat): multiset<Message>
    requires forall i :: 1 <= i <= n ==> i in boxes
  {
    if n == 0 then multiset{} else Pool(boxes, n - 1) + multiset(boxes[n])
  }

  lemma {:induction false} PoolSame(boxes: map<int, seq<Message>>, boxes': map<int, seq<Message>>, n: nat)
    requires forall i :: 1 <= i <= n ==> i in boxes && i in boxes' && boxes[i] == boxes'[i]
    ensures Pool(boxes, n) == Pool(boxes', n)
  {
    if n > 0 {
      PoolSame(boxes, boxes', n - 1);
    }
  }

  lemma BothGrow(a: multiset<Message>, b: multiset<Message>, c: multiset<Message>, d: multiset<Message>,
                 more: multiset<Message>)
    requires a + b == c + d
    ensures a + more + b == c + more + d
  {
    calc {
      a + more + b;
      a + b + more;
      c + d + more;
      c + more + d;
    }
  }

  /** Replacing one outbox replaces its messages in the pool. */
  lemma {:induction false} PoolReplace(boxes: map<int, seq<Message>>, n: nat, i: int, box: seq<Message>)
    requires (forall j :: 1 <= j <= n ==> j in boxes) && 1 <= i <= n
    ensures Pool(boxes[i := box], n) + multiset(boxes[i]) == Pool(boxes, n) + multiset(box)
  {
    if i == n {
      PoolSame(boxes, boxes[i := box], n - 1);
    } else {
      PoolReplace(boxes, n - 1, i, box);
      BothGrow(Pool(boxes[i := box], n - 1), multiset(boxes[i]), Pool(boxes, n - 1), multiset(box), multiset(boxes[n]));
    }
  }

  lemma PoolGrows(pool: multiset<Message>, pool': multiset<Message>, box: multiset<Message>, sent: multiset<Message>)
    requires pool' + box == pool + (box + sent)
    ensures pool' == pool + sent
  {
    forall m
      ensures pool'[m] == (pool + sent)[m]
    {
      assert (pool' + box)[m] == (pool + (box + sent))[m];
    }
  }

  lemma {:induction false} PoolEmpty(boxes: map<int, seq<Message>>, n: nat)
    requires forall i :: 1 <= i <= n ==> i in boxes && boxes[i] == []
    ensures Pool(boxes, n) == multiset{}
  {
    if n > 0 {
      PoolEmpty(boxes, n - 1);
    }
  }

  /** Messages taken out of one outbox join those already collected. */
  lemma Moves(flight: multiset<Message>, flight': multiset<Message>, messages: seq<Message>, box: seq<Message>)
    requires flight == flight' + multiset(box)
    ensures flight + multiset(messages) == flight' + multiset(messages + box)
  {
    assert multiset(messages + box) == multiset(messages) + multiset(box);
  }

  /** A waiting message can be taken out before or after adding the outboxes. */
  lemma Leaves(waiting: multiset<Message>, boxes: multiset<Message>, m: Message, sent: multiset<Message>)
    requires m in waiting
    ensures waiting + boxes - multiset{m} + sent == waiting - multiset{m} + (boxes + sent)
    ensures sent == multiset{} ==> waiting + boxes - multiset{m} == waiting - multiset{m} + boxes
  {
  }

  /** Delivering a waiting message, with the outboxes beside the waiting messages. */
  lemma DeliversTo(nodes: map<int, NodeState>, waiting: multiset<Message>, boxes: multiset<Message>, m: Message,
                   now: int)
    requires m in waiting && m.to in nodes
    ensures Apply(State(nodes, waiting + boxes), Deliver(m, now)) ==
      match Handle(nodes[m.to], Receive(m), now)
      case Done(n', sent) => Running(State(nodes[m.to := n'], waiting - multiset{m} + (boxes + multiset(sent))))
      case Panicked(p) => Crashed(p)
  {
    var o := Handle(nodes[m.to], Receive(m), now);
    if o.Done? {
      Leaves(waiting, boxes, m, multiset(o.sent));
    }
  }

  /** The ids of the other nodes of a cluster of `n`. */
  method OtherIds(n: nat, id: int) returns (others: seq<int>)
    ensures Distinct(others)
    ensures forall p :: p in others <==> 1 <= p <= n && p != id
  {
    others := [];
    for k := 1 to n + 1
      invariant Distinct(others)
      invariant forall p :: p in others <==> 1 <= p < k && p != id
    {
      if k != id {
        assert forall j :: 0 <= j < |others| ==> others[j] in others;
        others := others + [k];
      }
    }
  }

  /** Some order of the messages: what collecting from a map and sorting with an arbitrary comparator gives. */
  method Arrange(messages: seq<Message>) returns (arranged: seq<Message>)
    ensures multiset(arranged) == multiset(messages)
  {
    arranged := [];
    var rest := messages;
    while rest != []
      invariant multiset(arranged) + multiset(rest) == multiset(messages)
      decreases |rest|
    {
      var k :| 0 <= k < |rest|;
      assert rest == rest[..k] + [rest[k]] + rest[k + 1..];
      arranged, rest := arranged + [rest[k]], rest[..k] + rest[k + 1..];
    }
  }

  class TestCluster {
    const count: nat
    var nodes: map<int, Node>
    var disabledNodes: set<int>
    var dropMessageFunc: Filter

    ghost predicate Valid()
      reads this, nodes.Values
    {
      && (forall i :: i in nodes <==> 1 <= i <= count)
      && forall i :: i in nodes ==> nodes[i].id == i
    }

    ghost function States(): map<int, NodeState>
      reads this, nodes.Values
    {
      map i | i in nodes :: nodes[i].State()
    }

    ghost function Boxes(): map<int, seq<Message>>
      reads this, nodes.Values
    {
      map i | i in nodes :: nodes[i].outbox
    }

    /** The network state this cluster is in: messages in outboxes are in flight. */
    ghost function View(): State
      requires Valid()
      reads this, nodes.Values
    {
      State(States(), Pool(Boxes(), count))
    }

    constructor (nodeCount: nat, electionTimeouts: seq<int>, heartbeatInterval: int)
      requires nodeCount == |electionTimeouts|
      ensures Valid() && count == nodeCount
      ensures forall i :: i in nodes ==> fresh(nodes[i])
      ensures Initial(View())
      ensures forall i :: 1 <= i <= nodeCount ==>
        nodes[i].electionTimeout == electionTimeouts[i - 1] && nodes[i].heartbeatInterval == heartbeatInterval
      ensures disabledNodes == {} && dropMessageFunc == KeepAll
    {
      count := nodeCount;
      nodes, disabledNodes, dropMessageFunc := map[], {}, KeepAll;
      new;
      for id := 1 to nodeCount + 1
        invariant disabledNodes == {} && dropMessageFunc == KeepAll
        invariant forall i :: i in nodes ==> fresh(nodes[i])
        invariant forall i :: i in nodes <==> 1 <= i < id
        invariant forall i :: i in nodes ==>
          && nodes[i].id == i && nodes[i].outbox == [] && Fresh(nodes[i].State()) && Distinct(nodes[i].peerIDs)
          && nodes[i].electionTimeout == electionTimeouts[i - 1] && nodes[i].heartbeatInterval == heartbeatInterval
        invariant forall i :: i in nodes ==> forall p :: p in nodes[i].peerIDs <==> 1 <= p <= nodeCount && p != i
      {
        var otherNodeIds := OtherIds(nodeCount, id);
        var node := new Node(id, otherNodeIds, electionTimeouts[id - 1], heartbeatInterval);
        nodes := nodes[id := node];
      }
      PoolEmpty(Boxes(), count);
    }

    /** Node `i` handles an event; every other node is left alone. */
    method StepNode(i: int, event: Event, now: int) returns (s: Status)
      requires Valid() && i in nodes
      modifies nodes.Values
      ensures Valid()
      ensures match Handle(old(States())[i], event, now)
        case Done(n', sent) =>
          && s == Fine && States() == old(States())[i := n']
          && Boxes() == old(Boxes())[i := old(Boxes())[i] + sent]
          && View() == State(old(View()).nodes[i := n'], old(View()).flight + multiset(sent))
        case Panicked(p) => s == Panic(p)
    {
      ghost var boxes := Boxes();
      s := nodes[i].Step(event, now);
      ghost var o := Handle(old(States())[i], event, now);
      if o.Done? {
        PoolReplace(boxes, count, i, boxes[i] + o.sent);
        SameMap(Boxes(), boxes[i := boxes[i] + o.sent]);
        SameMap(States(), old(States())[i := o.node]);
        assert multiset(boxes[i] + o.sent) == multiset(boxes[i]) + multiset(o.sent);
        PoolGrows(Pool(boxes, count), Pool(Boxes(), count), multiset(boxes[i]), multiset(o.sent));
      }
    }

    /** Takes the messages out of one outbox. */
    method TakeOutbox(i: int) returns (box: seq<Message>)
      requires Valid() && i in nodes
      modifies nodes.Values
      ensures Valid() && States() == old(States()) && Boxes() == old(Boxes())[i := []]
      ensures old(View()).flight == View().flight + multiset(box)
    {
      ghost var boxes := Boxes();
      box := nodes[i].outbox;
      nodes[i].ClearOutbox();
      SameMap(Boxes(), boxes[i := []]);
      SameMap(States(), old(States()));
      PoolReplace(boxes, count, i, []);
    }

    method CollectOutboxMessages() returns (messages: seq<Message>)
      requires Valid()
      modifies nodes.Values
      ensures Valid() && View() == State(old(States()), multiset{})
      ensures multiset(messages) == old(View()).flight
    {
      messages := EmptyOutboxes();
      messages := Arrange(messages);
    }

    /** The loop over the nodes. */
    method EmptyOutboxes() returns (messages: seq<Message>)
      requires Valid()
      modifies nodes.Values
      ensures Valid() && View() == State(old(States()), multiset{})
      ensures multiset(messages) == old(View()).flight
    {
      messages := [];
      ghost var flight := View().flight;
      var todo := nodes.Keys;
      while todo != {}
        invariant Valid() && States() == old(States()) && todo <= nodes.Keys
        invariant flight == View().flight + multiset(messages)
        invariant forall i :: i in nodes && i !in todo ==> Boxes()[i] == []
        decreases todo
      {
        ghost var some := AnElement(todo);
        var i :| i in todo;
        ghost var before := View().flight;
        var box := TakeOutbox(i);
        Moves(before, View().flight, messages, box);
        messages := messages + box;
        todo := todo - {i};
      }
      PoolEmpty(Boxes(), count);
    }

    /** The first loop of `Tick`: every node handles the tick once, in some order. */
    method TickNodes(now: int) returns (s: Status, ghost order: seq<int>)
      requires Valid()
      modifies nodes.Values
      ensures Valid() && s == Fine && Lists(order, nodes.Keys)
      ensures Exec(old(View()), TickAll(order, now)) == Running(View())
    {
      order, s := [], Fine;
      var todo := nodes.Keys;
      while todo != {}
        invariant Valid() && todo <= nodes.Keys && s == Fine && Distinct(order)
        invariant forall i :: i in nodes && i !in todo <==> i in order
        invariant Exec(old(View()), TickAll(order, now)) == Running(View())
        decreases todo
      {
        ghost var some := AnElement(todo);
        var i :| i in todo;
        s := TickNext(i, now, old(View()), order);
        assert forall j :: 0 <= j < |order| ==> order[j] in order;
        order := order + [i];
        todo := todo - {i};
      }
    }

    /** The body of the first loop. */
    method TickNext(i: int, now: int, ghost start: State, ghost order: seq<int>) returns (s: Status)
      requires Valid() && i in nodes && Exec(start, TickAll(order, now)) == Running(View())
      modifies nodes.Values
      ensures Valid() && s == Fine && Exec(start, TickAll(order + [i], now)) == Running(View())
    {
      ghost var before := View();
      TickNeverPanics(before.nodes[i], now);
      TickAllSnoc(order, i, now);
      ExecConcat(start, TickAll(order, now), [TickNode(i, now)]);
      ExecOne(before, TickNode(i, now));
      s := StepNode(i, Event.Tick, now);
    }

    /** Decides one of the messages still waiting in this round. */
    method DeliverOne(m: Message, now: int, ghost waiting: multiset<Message>) returns (s: Status)
      requires Valid() && m in waiting
      modifies nodes.Values
      ensures Valid()
      ensures Apply(State(old(States()), waiting + old(View()).flight),
        Decision(disabledNodes, dropMessageFunc, m, now))
        == Ended(s, State(States(), waiting - multiset{m} + View().flight))
    {
      s := Fine;
      Leaves(waiting, View().flight, m, multiset{});
      var drop := false;
      if m.from in disabledNodes || m.to in disabledNodes {
        drop := true;
      } else if dropMessageFunc.DropIf? {
        drop := dropMessageFunc.test(m, now);
      }
      if !drop && m.to in nodes {
        DeliversTo(States(), waiting, View().flight, m, now);
        s := StepNode(m.to, Receive(m), now);
      }
    }

    /** The inner loop of `Tick`: one round of deliveries. */
    method DeliverAll(messages: seq<Message>, now: int) returns (s: Status)
      requires Valid() && View().flight == multiset{}
      modifies nodes.Values
      ensures Valid()
      ensures Exec(State(old(States()), multiset(messages)), Decisions(disabledNodes, dropMessageFunc, messages, now))
        == Ended(s, View())
    {
      ghost var s0 := State(States(), multiset(messages));
      s := Fine;
      assert messages[0..] == messages;
      for k := 0 to |messages|
        invariant Valid() && s == Fine
        invariant Exec(s0, Decisions(disabledNodes, dropMessageFunc, messages[..k], now))
          == Running(Waiting(messages, k))
      {
        s := DeliverNext(messages, k, now, s0);
        if s.Panic? {
          return;
        }
      }
      assert messages[..|messages|] == messages;
    }

    /** The cluster with the messages from `k` on still waiting in this round. */
    ghost function Waiting(messages: seq<Message>, k: nat): State
      requires Valid() && k <= |messages|
      reads this, nodes.Values
    {
      State(States(), multiset(messages[k..]) + View().flight)
    }

    /** The body of the inner loop. */
    method DeliverNext(messages: seq<Message>, k: nat, now: int, ghost s0: State) returns (s: Status)
      requires Valid() && k < |messages|
      requires Exec(s0, Decisions(disabledNodes, dropMessageFunc, messages[..k], now)) == Running(Waiting(messages, k))
      modifies nodes.Values
      ensures Valid()
      ensures s == Fine ==>
        Exec(s0, Decisions(disabledNodes, dropMessageFunc, messages[..k + 1], now)) == Running(Waiting(messages, k + 1))
      ensures s.Panic? ==> Exec(s0, Decisions(disabledNodes, dropMessageFunc, messages, now)) == Crashed(s.reason)
    {
      NextMessage(messages, k);
      DecidesNext(disabledNodes, dropMessageFunc, messages, now, k, s0, Waiting(messages, k));
      s := DeliverOne(messages[k], now, multiset(messages[k..]));
    }

    /**
      One call of `Tick`. It is a lockstep call with the decisions of this cluster, of at most four rounds, and
      leaves no message behind. `TickIsSafe` says when it cannot panic.
     */
    method Tick(now: int) returns (s: Status, ghost call: Call)
      requires Valid()
      modifies nodes.Values
      ensures Valid() && |call.rounds| <= 4
      ensures Called(old(View()), call, now, disabledNodes, dropMessageFunc, Ended(s, View()))
    {
      ghost var order, rounds;
      s, order := TickNodes(now);
      ghost var s1 := View();
      s, rounds := DeliverRounds(now);
      call := Call(now, order, rounds);
      MakesCall(old(View()), s1, call, disabledNodes, dropMessageFunc, Ended(s, View()));
    }

    /** The outer loop of `Tick`: rounds of deliveries until no message is left. */
    method DeliverRounds(now: int) returns (s: Status, ghost rounds: seq<seq<Action>>)
      requires Valid()
      modifies nodes.Values
      ensures Valid() && (s == Fine ==> View().flight == multiset{})
      ensures RoundsTo(old(View()), rounds, now, disabledNodes, dropMessageFunc, Ended(s, View()))
    {
      s, rounds := Fine, [];
      ghost var s1 := View();
      var messages := CollectOutboxMessages();
      while |messages| > 0
        invariant Valid() && s == Fine && View().flight == multiset{}
        invariant RoundsTo(s1, rounds, now, disabledNodes, dropMessageFunc,
          Running(State(States(), multiset(messages))))
        decreases 4 - |rounds|
      {
        ghost var round := Decisions(disabledNodes, dropMessageFunc, messages, now);
        AddRound(s1, rounds, now, disabledNodes, dropMessageFunc, States(), messages);
        s := DeliverAll(messages, now);
        rounds := rounds + [round];
        if s.Panic? {
          return;
        }
        messages := CollectOutboxMessages();
      }
    }

    method DisableNode(id: int)
      modifies this`disabledNodes
      ensures disabledNodes == old(disabledNodes) + {id}
    {
      disabledNodes := disabledNodes + {id};
    }

    method EnableNode(id: int)
      modifies this`disabledNodes
      ensures disabledNodes == old(disabledNodes) - {id}
    {
      disabledNodes := disabledNodes - {id};
    }

    /** Some leader, or 0 if there is none. */
    method GetLeader() returns (leader: int)
      requires Valid()
      ensures FoundLeader(View(), leader) && View() == old(View())
    {
      var todo := nodes.Keys;
      while todo != {}
        invariant todo <= nodes.Keys
        invariant forall i :: i in nodes && i !in todo ==> nodes[i].role != Leader
        decreases todo
      {
        ghost var some := AnElement(todo);
        var i :| i in todo;
        if nodes[i].role == Leader {
          return nodes[i].id;
        }
        todo := todo - {i};
      }
      return 0;
    }

    /** The body of the waiting loop: a call of `Tick` and a look for a leader. */
    method TickAndLook(tick: nat) returns (s: Status, leader: int, ghost last: Call)
      requires Valid()
      modifies nodes.Values
      ensures Valid()
      ensures Looked(Calls(disabledNodes, dropMessageFunc), old(View()), last, tick, s, leader, View())
    {
      s, last := Tick(tick);
      leader := 0;
      if s.Fine? {
        leader := GetLeader();
      }
    }

    /** Ticks 0, 1, 2, ... until some node leads or the limit is reached. */
    method WaitForLeader(timeout: int)
      returns (s: Status, leader: int, tick: nat, ghost idle: seq<Call>, ghost last: Call)
      requires Valid()
      modifies nodes.Values
      ensures Valid()
      ensures Waited(Calls(disabledNodes, dropMessageFunc), old(View()), timeout, idle, last, s, leader, tick, View())
    {
      tick, idle := 0, [];
      ghost var called := Calls(disabledNodes, dropMessageFunc);
      while true
        invariant Valid() && tick == |idle| && (tick == 0 || tick < timeout)
        invariant Idle(called, old(View()), idle, View())
        decreases timeout - tick
      {
        ghost var before := View();
        s, leader, last := TickAndLook(tick);
        WaitStep(called, old(View()), idle, before, last, s, leader, View());
        if s.Panic? || leader != 0 {
          WaitEnds(called, old(View()), timeout, idle, last, s, leader, tick, before, View());
          return;
        }
        tick, idle := tick + 1, idle + [last];
        if tick >= timeout {
          s := Panic(NoLeaderFound);
          return;
        }
      }
    }
  }

  /** The code panics unless there is one timeout for each node. */
  method NewTestCluster(nodeCount: int, electionTimeouts: seq<int>, heartbeatInterval: int)
    returns (s: Status, tc: TestCluster?)
    ensures s == if nodeCount == |electionTimeouts| then Fine else Panic(NodeCountMismatch)
    ensures s == Fine <==> tc != null
    ensures tc != null ==>
      && fresh(tc) && tc.Valid() && tc.count == nodeCount && (forall i :: i in tc.nodes ==> fresh(tc.nodes[i]))
      && Initial(tc.View()) && tc.disabledNodes == {} && tc.dropMessageFunc == KeepAll
      && forall i :: 1 <= i <= nodeCount ==>
           tc.nodes[i].electionTimeout == electionTimeouts[i - 1] && tc.nodes[i].heartbeatInterval == heartbeatInterval
  {
    if nodeCount != |electionTimeouts| {
      return Panic(NodeCountMismatch), null;
    }
    s := Fine;
    tc := new TestCluster(nodeCount, electionTimeouts, heartbeatInterval);
  }

  /** A call that leads from `s` to `s'` with this cluster's decisions. */
  ghost predicate Called(s: State, call: Call, now: int, disabled: set<int>, filter: Filter, r: Result) {
    && Lockstep(s, call) && call.now == now && DecidedBy(Concat(call.rounds), now, disabled, filter)
    && Exec(s, Actions(call)) == r && (r.Running? ==> r.state.flight == multiset{})
  }

  /** How the code leaves off: in state `s`, or in a panic. */
  function Ended(status: Status, s: State): Result {
    match status
    case Fine => Running(s)
    case Panic(p) => Crashed(p)
  }

  /** What a call may lead to: state, call, tick and result. */
  type Calling = (State, Call, int, Result) -> bool

  /** The calls of a cluster with these settings. */
  ghost function Calls(disabled: set<int>, filter: Filter): Calling {
    (s, call, now, r) => Called(s, call, now, disabled, filter, r)
  }

  /** Calls at ticks 0, 1, 2, ..., none of which leaves a leader, lead from `s` to `s'`. */
  ghost predicate Idle(called: Calling, s: State, calls: seq<Call>, s': State)
    decreases |calls|
  {
    if calls == [] then s' == s
    else
      var before, last := calls[..|calls| - 1], calls[|calls| - 1];
      && NobodyLeads(s')
      && exists s1 :: Idle(called, s, before, s1) && called(s1, last, |before|, Running(s'))
  }

  /** A call and the look for a leader after it. */
  ghost predicate Looked(called: Calling, s: State, call: Call, now: int, status: Status, leader: int, s': State) {
    called(s, call, now, Ended(status, s')) && (status == Fine ==> FoundLeader(s', leader))
  }

  lemma WaitStep(called: Calling, s: State, idle: seq<Call>, s1: State, last: Call, status: Status, leader: int,
                 s2: State)
    requires Idle(called, s, idle, s1)
    requires Looked(called, s1, last, |idle|, status, leader, s2)
    ensures if status == Fine && leader == 0 then Idle(called, s, idle + [last], s2)
      else WaitedUntil(called, s, idle, last, status, leader, s1, s2)
  {
    assert (idle + [last])[..|idle|] == idle;
  }

  /**
    What waiting does: `tick` idle calls, then one that leaves a leader or panics, unless the limit is reached first.
   */
  ghost predicate Waited(called: Calling, s: State, timeout: int, idle: seq<Call>, last: Call,
                         status: Status, leader: int, tick: nat, s': State) {
    && tick == |idle|
    && if status == Panic(NoLeaderFound) && timeout <= tick && tick > 0
       then Idle(called, s, idle, s')
       else (tick == 0 || tick < timeout) && exists s1 :: WaitedUntil(called, s, idle, last, status, leader, s1, s')
  }

  ghost predicate WaitedUntil(called: Calling, s: State, idle: seq<Call>, last: Call,
                              status: Status, leader: int, s1: State, s': State) {
    && Idle(called, s, idle, s1)
    && Looked(called, s1, last, |idle|, status, leader, s')
    && (status == Fine ==> leader != 0)
  }

  lemma WaitEnds(called: Calling, s: State, timeout: int, idle: seq<Call>, last: Call,
                 status: Status, leader: int, tick: nat, s1: State, s': State)
    requires WaitedUntil(called, s, idle, last, status, leader, s1, s')
    requires tick == |idle| && (tick == 0 || tick < timeout)
    ensures Waited(called, s, timeout, idle, last, status, leader, tick, s')
  {
  }

  /** The rounds so far, decided as this cluster decides, end in `r`. */
  ghost predicate RoundsTo(s1: State, rounds: seq<seq<Action>>, now: int, disabled: set<int>, filter: Filter,
                           r: Result) {
    && Rounds(s1, rounds, now) && |rounds| <= 4 && Exec(s1, Concat(rounds)) == r
    && DecidedBy(Concat(rounds), now, disabled, filter)
  }

  /** The ticks and the rounds after them make a call. */
  lemma MakesCall(s: State, s1: State, call: Call, disabled: set<int>, filter: Filter, r: Result)
    requires Lists(call.order, s.nodes.Keys) && Exec(s, TickAll(call.order, call.now)) == Running(s1)
    requires RoundsTo(s1, call.rounds, call.now, disabled, filter, r) && (r.Running? ==> r.state.flight == multiset{})
    ensures Called(s, call, call.now, disabled, filter, r) && |call.rounds| <= 4
  {
    ExecConcat(s, TickAll(call.order, call.now), Concat(call.rounds));
  }

  /** With no node disabled and no filter, nothing is lost. */
  lemma KeepsAll(call: Call)
    requires DecidedBy(Concat(call.rounds), call.now, {}, KeepAll)
    ensures NothingLost(call)
  {
  }

  /** Another round may be added while messages are left; there are never more than four. */
  lemma AddAnyRound(s1: State, rounds: seq<seq<Action>>, now: int, s: State, round: seq<Action>)
    requires Rounds(s1, rounds, now) && Exec(s1, Concat(rounds)) == Running(s)
    requires s.flight != multiset{} && Round(s, round, now)
    ensures |rounds| < 4 && Rounds(s1, rounds + [round], now)
  {
    RoundsSnoc(s1, rounds, round, now);
    AtMostFour(s1, rounds + [round], now);
  }

  lemma AddRound(s1: State, rounds: seq<seq<Action>>, now: int, disabled: set<int>, filter: Filter,
                 nodes: map<int, NodeState>, messages: seq<Message>)
    requires RoundsTo(s1, rounds, now, disabled, filter, Running(State(nodes, multiset(messages)))) && messages != []
    ensures var round := Decisions(disabled, filter, messages, now);
      && |rounds| < 4
      && RoundsTo(s1, rounds + [round], now, disabled, filter, Exec(State(nodes, multiset(messages)), round))
  {
    DecisionsDecide(disabled, filter, messages, now);
    assert messages[0] in multiset(messages);
    var round := Decisions(disabled, filter, messages, now);
    AddAnyRound(s1, rounds, now, State(nodes, multiset(messages)), round);
    ConcatSnoc(rounds, round);
    ExecConcat(s1, Concat(rounds), round);
    DecidedByBoth(Concat(rounds), round, now, disabled, filter);
  }

  /** `leader` is a leader of `s`, or 0 if `s` has none. */
  ghost predicate FoundLeader(s: State, leader: int) {
    if leader == 0 then NobodyLeads(s) else leader in s.nodes && s.nodes[leader].role == Leader
  }

  ghost predicate NobodyLeads(s: State) {
    forall i :: i in s.nodes ==> s.nodes[i].role != Leader
  }

  /**
    In a call of `Tick`, a message is lost exactly if one of its ends is disabled or the filter says so,
    and is delivered at the time of the call otherwise.
   */
  lemma TickLoses(s: State, call: Call, now: int, disabled: set<int>, filter: Filter, r: Result, a: Action)
    requires Called(s, call, now, disabled, filter, r) && a in Concat(call.rounds)
    ensures !a.TickNode? && !a.Duplicate? && (a.Deliver? ==> a.now == now)
    ensures a.Drop? <==>
      a.msg.from in disabled || a.msg.to in disabled || (filter != KeepAll && filter.test(a.msg, now))
  {
  }

  /**
    After any lockstep run of a quorate cluster, whatever is disabled and filtered now: a call of `Tick` does not panic,
    prolongs the run, and the whole run still has at most one leader per term.
   */
  lemma TickIsSafe(s0: State, calls: seq<Call>, s: State, call: Call, now: int, disabled: set<int>, filter: Filter,
                   r: Result)
    requires Initial(s0) && Quorate(|s0.nodes|) && LockstepRun(s0, calls) && Exec(s0, Schedule(calls)) == Running(s)
    requires Called(s, call, now, disabled, filter, r)
    ensures r.Running? && LockstepRun(s0, calls + [call]) && Exec(s0, Schedule(calls + [call])) == r
    ensures OneLeaderPerTerm(s0, Schedule(calls + [call]))
  {
    RunSnoc(s0, calls, s, call);
    LockstepSafety(s0, calls + [call]);
  }

  /** A fresh cluster, of any size, in which node `c` has the shortest timeout. */
  ghost predicate FreshRace(s: State, c: int) {
    && Initial(s) && c in s.nodes && s.nodes[c].electionTimeout >= 0
    && forall i :: i in s.nodes && i != c ==> s.nodes[c].electionTimeout < s.nodes[i].electionTimeout
  }

  /** Before the shortest timeout nothing happens; at it, its owner is elected. */
  lemma RaceTick(s: State, c: int, call: Call, now: int, r: Result)
    requires FreshRace(s, c) && now <= s.nodes[c].electionTimeout && Called(s, call, now, {}, KeepAll, r)
    ensures r.Running?
    ensures if now < s.nodes[c].electionTimeout then r.state == s else Converged(r.state, c, 1, now)
  {
    KeepsAll(call);
    if now < s.nodes[c].electionTimeout {
      QuietCall(s, call);
    } else {
      InitialInv(s);
      CallConverges(s, NO_HISTORY, call, c);
    }
  }

  /** Such a race, as seen by what calls lead to. */
  ghost predicate Race(called: Calling, s: State, shortest: int, end: State -> bool) {
    forall call, now, r :: now <= shortest && called(s, call, now, r) ==>
      r.Running? && if now < shortest then r.state == s else end(r.state) && !NobodyLeads(r.state)
  }

  /** Idle calls stay within the shortest timeout and change nothing. */
  lemma {:induction false} RaceIdles(called: Calling, s: State, shortest: nat, end: State -> bool, calls: seq<Call>,
                                     s': State)
    requires Race(called, s, shortest, end) && Idle(called, s, calls, s')
    ensures s' == s && |calls| <= shortest
    decreases |calls|
  {
    if calls != [] {
      var before, last := calls[..|calls| - 1], calls[|calls| - 1];
      var s1 :| Idle(called, s, before, s1) && called(s1, last, |before|, Running(s'));
      RaceIdles(called, s, shortest, end, before, s1);
      assert called(s, last, |before|, Running(s'));
    }
  }

  lemma RaceEnds(called: Calling, s: State, shortest: nat, end: State -> bool,
                 timeout: int, idle: seq<Call>, last: Call, status: Status, leader: int, tick: nat, s': State)
    requires Race(called, s, shortest, end) && NobodyLeads(s)
    requires Waited(called, s, timeout, idle, last, status, leader, tick, s')
    ensures if shortest == 0 || shortest < timeout
      then status == Fine && FoundLeader(s', leader) && leader != 0 && tick == shortest && end(s')
      else status == Panic(NoLeaderFound)
  {
    if status == Panic(NoLeaderFound) && timeout <= tick && tick > 0 {
      RaceIdles(called, s, shortest, end, idle, s');
    } else {
      var s1 :| WaitedUntil(called, s, idle, last, status, leader, s1, s');
      RaceIdles(called, s, shortest, end, idle, s1);
      assert called(s, last, tick, Ended(status, s'));
    }
  }

  /**
    In a fresh cluster of any size with one shortest timeout and no losses, waiting returns the node with that timeout
    at the tick equal to it, elected by everybody; it panics exactly if its limit is not above that tick.
   */
  lemma ExactElectionTime(s: State, c: int, timeout: int, idle: seq<Call>, last: Call, status: Status, leader: int,
                          tick: nat, s': State)
    requires FreshRace(s, c) && Waited(Calls({}, KeepAll), s, timeout, idle, last, status, leader, tick, s')
    ensures var shortest := s.nodes[c].electionTimeout;
      if shortest == 0 || shortest < timeout
      then status == Fine && leader == c && tick == shortest && Converged(s', c, 1, shortest)
      else status == Panic(NoLeaderFound)
  {
    var shortest := s.nodes[c].electionTimeout;
    var end := (s2: State) => Converged(s2, c, 1, shortest);
    FreshIsRace(s, c, shortest, end);
    RaceEnds(Calls({}, KeepAll), s, shortest, end, timeout, idle, last, status, leader, tick, s');
  }

  lemma FreshIsRace(s: State, c: int, shortest: int, end: State -> bool)
    requires FreshRace(s, c) && shortest == s.nodes[c].electionTimeout
    requires forall s2 :: end(s2) <==> Converged(s2, c, 1, shortest)
    ensures Race(Calls({}, KeepAll), s, shortest, end) && NobodyLeads(s)
  {
    var called := Calls({}, KeepAll);
    forall call, now, r | now <= shortest && called(s, call, now, r)
      ensures r.Running? && if now < shortest then r.state == s else end(r.state) && !NobodyLeads(r.state)
    {
      RaceTick(s, c, call, now, r);
    }
  }

  /** If nobody leads and no timer has run out, a call changes nothing. */
  lemma QuietCall(s: State, call: Call)
    requires s.flight == multiset{} && Lockstep(s, call)
    requires forall i :: i in s.nodes ==> s.nodes[i].role != Leader && !Stands(s.nodes[i], Tick, call.now)
    ensures Exec(s, Actions(call)) == Running(s)
  {
    TickPhase(s, call.order, call.now);
    var s1 := Exec(s, TickAll(call.order, call.now)).state;
    assert forall i :: i in s.nodes ==> HandleTick(s.nodes[i], call.now) == Done(s.nodes[i], []);
    SameMap(s1.nodes, s.nodes);
    forall m
      ensures m !in s1.flight
    {
      assert !SentByTick(s, call.now, m);
    }
    assert s1.flight == multiset{};
    assert call.rounds == [];
    ExecConcat(s, TickAll(call.order, call.now), Concat(call.rounds));
  }

  lemma NextMessage(messages: seq<Message>, k: nat)
    requires k < |messages|
    ensures messages[k] in multiset(messages[k..])
    ensures multiset(messages[k..]) - multiset{messages[k]} == multiset(messages[k + 1..])
  {
    assert messages[k..] == [messages[k]] + messages[k + 1..];
  }

  lemma DecidesNext(disabled: set<int>, filter: Filter, ms: seq<Message>, now: int, k: nat, s0: State, s: State)
    requires k < |ms| && Exec(s0, Decisions(disabled, filter, ms[..k], now)) == Running(s)
    ensures var r := Apply(s, Decision(disabled, filter, ms[k], now));
      && Exec(s0, Decisions(disabled, filter, ms[..k + 1], now)) == r
      && (r.Crashed? ==> Exec(s0, Decisions(disabled, filter, ms, now)) == r)
  {
    var a := Decision(disabled, filter, ms[k], now);
    assert ms[..k + 1][..k] == ms[..k];
    ExecConcat(s0, Decisions(disabled, filter, ms[..k], now), [a]);
    ExecOne(s, a);
    if Apply(s, a).Crashed? {
      PanicEnds(disabled, filter, ms, now, k, s0);
    }
  }

  /** A panic in the middle of a round is the outcome of the round. */
  lemma PanicEnds(disabled: set<int>, filter: Filter, ms: seq<Message>, now: int, k: nat, s0: State)
    requires k < |ms| && Exec(s0, Decisions(disabled, filter, ms[..k + 1], now)).Crashed?
    ensures Exec(s0, Decisions(disabled, filter, ms, now)) == Exec(s0, Decisions(disabled, filter, ms[..k + 1], now))
    decreases |ms|
  {
    if k + 1 < |ms| {
      var last := |ms| - 1;
      assert ms[..last][..k + 1] == ms[..k + 1];
      PanicEnds(disabled, filter, ms[..last], now, k, s0);
      ExecConcat(s0, Decisions(disabled, filter, ms[..last], now), [Decision(disabled, filter, ms[last], now)]);
    } else {
      assert ms[..k + 1] == ms;
    }
  }
}
