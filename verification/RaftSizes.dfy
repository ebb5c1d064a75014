/**
  For which cluster sizes the threshold of the code is safe: every even cluster of four or more nodes has a
  single call of `Tick` in which two nodes lead the same term, and one of them then panics.
 */
module RaftSizes {
  import opened RaftNode
  import opened RaftNetwork
  import opened RaftLockstep
  import opened RaftConvergence
  import opened RaftStability
  import opened RaftTenure
  import opened RaftFleet

  // ----- rounds -----

  lemma {:induction false} DecidedConcat(first: seq<Action>, second: seq<Action>)
    ensures Decided(first + second) == Decided(first) + Decided(second)
    decreases |first|
  {
    if first == [] {
      assert first + second == second;
    } else {
      assert (first + second)[1..] == first[1..] + second;
      DecidedConcat(first[1..], second);
    }
  }

  function Drops(ms: seq<Message>): seq<Action> {
    if ms == [] then [] else [Drop(ms[0])] + Drops(ms[1..])
  }

  lemma {:induction false} DropsRun(s: State, ms: seq<Message>)
    ensures Exec(s, Drops(ms)) == Running(s.(flight := s.flight - multiset(ms)))
    decreases |ms|
  {
    if ms == [] {
      assert s.flight - multiset(ms) == s.flight;
    } else {
      var s1 := s.(flight := s.flight - multiset{ms[0]});
      DropsRun(s1, ms[1..]);
      assert Drops(ms)[1..] == Drops(ms[1..]);
      OneByOne(s.flight, ms);
    }
  }

  lemma OneByOne(flight: multiset<Message>, ms: seq<Message>)
    requires ms != []
    ensures flight - multiset{ms[0]} - multiset(ms[1..]) == flight - multiset(ms)
  {
    assert ms == [ms[0]] + ms[1..];
  }

  lemma {:induction false} DropsDecide(ms: seq<Message>, now: int)
    ensures Decided(Drops(ms)) == multiset(ms) && AllDecide(Drops(ms), now)
    decreases |ms|
  {
    if ms != [] {
      DropsDecide(ms[1..], now);
      assert Drops(ms)[1..] == Drops(ms[1..]);
      assert ms == [ms[0]] + ms[1..];
    }
  }

  ghost predicate AllDecide(acts: seq<Action>, now: int) {
    forall a :: a in acts ==> Decides(a, now)
  }

  /** A round that begins with `acts` and loses everything else that was in flight. */
  lemma FinishRound(s: State, acts: seq<Action>, now: int, s': State) returns (round: seq<Action>, s2: State)
    requires AllDecide(acts, now) && Decided(acts) <= s.flight && Exec(s, acts) == Running(s')
    ensures Round(s, round, now) && Exec(s, round) == Running(s2) && s2.nodes == s'.nodes
    ensures forall m :: s.flight[m] == 0 ==> s2.flight[m] == s'.flight[m]
  {
    var rest := Spread(s.flight - Decided(acts));
    DropsRun(s', rest);
    DropsDecide(rest, now);
    DecidedConcat(acts, Drops(rest));
    round, s2 := acts + Drops(rest), s'.(flight := s'.flight - multiset(rest));
    ExecConcat(s, acts, Drops(rest));
  }

  /** A round that begins with a panic. */
  lemma PanicRound(s: State, a: Action, now: int) returns (round: seq<Action>)
    requires Decides(a, now) && a.msg in s.flight && Apply(s, a).Crashed?
    ensures Round(s, round, now) && Exec(s, round) == Apply(s, a)
  {
    var rest := Spread(s.flight - multiset{a.msg});
    DropsDecide(rest, now);
    DecidedConcat([a], Drops(rest));
    round := [a] + Drops(rest);
    ExecOne(s, a);
    ExecConcat(s, [a], Drops(rest));
    DecidedOne(a);
  }

  lemma DecidedOne(a: Action)
    requires !a.TickNode?
    ensures Decided([a]) == multiset{a.msg}
  {
    assert [a][1..] == [];
  }

  lemma RoundsCons(s: State, round: seq<Action>, s': State, rest: seq<seq<Action>>, now: int)
    requires s.flight != multiset{} && Round(s, round, now) && Exec(s, round) == Running(s') && Rounds(s', rest, now)
    ensures Rounds(s, [round] + rest, now) && Exec(s, Concat([round] + rest)) == Exec(s', Concat(rest))
  {
    assert ([round] + rest)[1..] == rest;
    ExecConcat(s, round, Concat(rest));
  }

  lemma RoundsEnd(s: State, round: seq<Action>, now: int)
    requires s.flight != multiset{} && Round(s, round, now) && Exec(s, round).Crashed?
    ensures Rounds(s, [round], now) && Concat([round]) == round
  {
    assert [round][1..] == [];
  }

  // ----- granting and counting -----

  predicate AskOf(m: Message, c: int, lo: int, k: nat) {
    lo <= m.to < lo + k && m == Request(c, m.to, 1)
  }

  predicate VoteOf(m: Message, c: int, lo: int, k: nat) {
    lo <= m.from < lo + k && m == Grant(m.from, c, 1)
  }

  function Asks(c: int, lo: int, k: nat): seq<Message> {
    if k == 0 then [] else Asks(c, lo, k - 1) + [Request(c, lo + k - 1, 1)]
  }

  function Votes(c: int, lo: int, k: nat): seq<Message> {
    if k == 0 then [] else Votes(c, lo, k - 1) + [Grant(lo + k - 1, c, 1)]
  }

  lemma {:induction false} AsksOnce(c: int, lo: int, k: nat, m: Message)
    ensures multiset(Asks(c, lo, k))[m] == if AskOf(m, c, lo, k) then 1 else 0
    decreases k
  {
    if k > 0 {
      AsksOnce(c, lo, k - 1, m);
    }
  }

  lemma {:induction false} VotesOnce(c: int, lo: int, k: nat, m: Message)
    ensures multiset(Votes(c, lo, k))[m] == if VoteOf(m, c, lo, k) then 1 else 0
    decreases k
  {
    if k > 0 {
      VotesOnce(c, lo, k - 1, m);
    }
  }

  /** All of these messages are delivered. */
  function DeliverEach(ms: seq<Message>): seq<Action> {
    Decisions({}, KeepAll, ms, 1)
  }

  lemma DeliverEachSnoc(s: State, ms: seq<Message>, s1: State, m: Message)
    requires Exec(s, DeliverEach(ms)) == Running(s1)
    ensures Exec(s, DeliverEach(ms + [m])) == Apply(s1, Deliver(m, 1))
  {
    DecisionsSnoc({}, KeepAll, ms, m, 1);
    ExecConcat(s, DeliverEach(ms), [Deliver(m, 1)]);
    ExecOne(s1, Deliver(m, 1));
  }

  /** Nodes `lo` to `lo + k - 1` grant their votes to `c`. */
  lemma {:induction false} GrantAll(s: State, c: int, lo: int, k: nat) returns (s': State)
    requires Askable(s, c, lo, k)
    ensures Exec(s, DeliverEach(Asks(c, lo, k))) == Running(s') && AllGranted(s, s', c, lo, k)
    decreases k
  {
    if k == 0 {
      s' := s;
      GrantNone(s, c, lo);
    } else {
      FewerAskable(s, c, lo, k);
      var s1 := GrantAll(s, c, lo, k - 1);
      s' := GrantOneMore(s, s1, c, lo, k);
    }
  }

  lemma GrantNone(s: State, c: int, lo: int)
    ensures Exec(s, DeliverEach(Asks(c, lo, 0))) == Running(s) && AllGranted(s, s, c, lo, 0)
  {
    assert DeliverEach(Asks(c, lo, 0)) == [];
  }

  lemma FewerAskable(s: State, c: int, lo: int, k: nat)
    requires k >= 1 && Askable(s, c, lo, k)
    ensures Askable(s, c, lo, k - 1)
  {
  }

  lemma GrantOneMore(s: State, s1: State, c: int, lo: int, k: nat) returns (s': State)
    requires k >= 1 && Askable(s, c, lo, k)
    requires Exec(s, DeliverEach(Asks(c, lo, k - 1))) == Running(s1) && AllGranted(s, s1, c, lo, k - 1)
    ensures Exec(s, DeliverEach(Asks(c, lo, k))) == Running(s') && AllGranted(s, s', c, lo, k)
  {
    NextIsAskable(s, s1, c, lo, k);
    s' := GrantOne(s, s1, c, lo, k);
    GrantsNext(s, s1, s', c, lo, k);
  }

  lemma GrantsNext(s: State, s1: State, s': State, c: int, lo: int, k: nat)
    requires k >= 1 && AllGranted(s, s1, c, lo, k - 1) && Request(c, lo + k - 1, 1) in s1.flight
    requires s'.nodes.Keys == s1.nodes.Keys
    requires forall i :: i in s1.nodes && i != lo + k - 1 ==> s'.nodes[i] == s1.nodes[i]
    requires s'.flight == s1.flight - multiset{Request(c, lo + k - 1, 1)} + multiset{Grant(lo + k - 1, c, 1)}
    ensures AllGranted(s, s', c, lo, k)
  {
    GrantsStay(s.flight, s1.flight, s'.flight, c, lo, k);
  }

  /** Only the voters have changed, their votes are under way, and otherwise only requests to them are gone. */
  ghost predicate AllGranted(s: State, s': State, c: int, lo: int, k: nat) {
    && s'.nodes.Keys == s.nodes.Keys
    && (forall i :: i in s.nodes && !(lo <= i < lo + k) ==> s'.nodes[i] == s.nodes[i])
    && (forall v :: lo <= v < lo + k ==> Grant(v, c, 1) in s'.flight)
    && (forall m :: !AskOf(m, c, lo, k) ==> s.flight[m] <= s'.flight[m])
    && (forall m: Message :: m.kind != RequestVoteRes ==> s'.flight[m] <= s.flight[m])
  }

  lemma NextIsAskable(s: State, s1: State, c: int, lo: int, k: nat)
    requires k >= 1 && Askable(s, c, lo, k) && AllGranted(s, s1, c, lo, k - 1)
    ensures var v := lo + k - 1;
      v in s1.nodes && s1.nodes[v].id == v && s1.nodes[v].term < 1 && Request(c, v, 1) in s1.flight
  {
    var v := lo + k - 1;
    assert s.flight[Request(c, v, 1)] <= s1.flight[Request(c, v, 1)];
  }

  lemma GrantOne(s: State, s1: State, c: int, lo: int, k: nat) returns (s': State)
    requires k >= 1 && Exec(s, DeliverEach(Asks(c, lo, k - 1))) == Running(s1)
    requires var v := lo + k - 1;
      v in s1.nodes && s1.nodes[v].id == v && s1.nodes[v].term < 1 && Request(c, v, 1) in s1.flight
    ensures Exec(s, DeliverEach(Asks(c, lo, k))) == Running(s')
    ensures s'.nodes.Keys == s1.nodes.Keys
    ensures forall i :: i in s1.nodes && i != lo + k - 1 ==> s'.nodes[i] == s1.nodes[i]
    ensures s'.flight == s1.flight - multiset{Request(c, lo + k - 1, 1)} + multiset{Grant(lo + k - 1, c, 1)}
  {
    var v := lo + k - 1;
    GrantStep(s1, c, v, 1, 1);
    DeliverEachSnoc(s, Asks(c, lo, k - 1), s1, Request(c, v, 1));
    s' := Apply(s1, Deliver(Request(c, v, 1), 1)).state;
  }

  /** The same, for some order of these requests. */
  lemma Grants(s: State, c: int, lo: int, k: nat) returns (ms: seq<Message>, s': State)
    requires Askable(s, c, lo, k)
    ensures Exec(s, DeliverEach(ms)) == Running(s')
    ensures forall m :: multiset(ms)[m] <= if AskOf(m, c, lo, k) then 1 else 0
    ensures s'.nodes.Keys == s.nodes.Keys
    ensures forall i :: i in s.nodes && !(lo <= i < lo + k) ==> s'.nodes[i] == s.nodes[i]
    ensures forall v :: lo <= v < lo + k ==> Grant(v, c, 1) in s'.flight
    ensures forall m :: !AskOf(m, c, lo, k) ==> s.flight[m] <= s'.flight[m]
    ensures forall m: Message :: m.kind != RequestVoteRes ==> s'.flight[m] <= s.flight[m]
  {
    s' := GrantAll(s, c, lo, k);
    ms := Asks(c, lo, k);
    forall m
      ensures multiset(ms)[m] <= if AskOf(m, c, lo, k) then 1 else 0
    {
      AsksOnce(c, lo, k, m);
    }
  }

  lemma GrantsStay(f: multiset<Message>, f1: multiset<Message>, f2: multiset<Message>, c: int, lo: int, k: nat)
    requires k >= 1 && Request(c, lo + k - 1, 1) in f1
    requires f2 == f1 - multiset{Request(c, lo + k - 1, 1)} + multiset{Grant(lo + k - 1, c, 1)}
    requires forall v :: lo <= v < lo + k - 1 ==> Grant(v, c, 1) in f1
    requires forall m :: !AskOf(m, c, lo, k - 1) ==> f[m] <= f1[m]
    requires forall m: Message :: m.kind != RequestVoteRes ==> f1[m] <= f[m]
    ensures forall v :: lo <= v < lo + k ==> Grant(v, c, 1) in f2
    ensures forall m :: !AskOf(m, c, lo, k) ==> f[m] <= f2[m]
    ensures forall m: Message :: m.kind != RequestVoteRes ==> f2[m] <= f[m]
  {
  }

  /** `c` counts the votes of nodes `lo` to `lo + k - 1`, too few to lead. */
  lemma {:induction false} CountSome(s: State, c: int, lo: int, k: nat) returns (s': State)
    requires c in s.nodes && s.nodes[c].id == c && s.nodes[c].role == Candidate && s.nodes[c].term == 1
    requires s.nodes[c].votesReceived + k <= |s.nodes[c].peers| / 2
    requires forall v :: lo <= v < lo + k ==> Grant(v, c, 1) in s.flight
    ensures Exec(s, DeliverEach(Votes(c, lo, k))) == Running(s')
    ensures c in s'.nodes && s'.nodes == s.nodes[c := s'.nodes[c]] && SameIdentity(s.nodes[c], s'.nodes[c])
    ensures s'.nodes[c].role == Candidate && s'.nodes[c].term == 1
    ensures s'.nodes[c].votesReceived == s.nodes[c].votesReceived + k
    ensures forall m :: !VoteOf(m, c, lo, k) ==> s.flight[m] <= s'.flight[m]
    decreases k
  {
    s' := s;
    if k > 0 {
      var v := lo + k - 1;
      var s1 := CountSome(s, c, lo, k - 1);
      assert s.flight[Grant(v, c, 1)] <= s1.flight[Grant(v, c, 1)];
      s' := CountOne(s, s1, c, lo, k);
    }
  }

  lemma CountOne(s: State, s1: State, c: int, lo: int, k: nat) returns (s': State)
    requires k >= 1 && Exec(s, DeliverEach(Votes(c, lo, k - 1))) == Running(s1)
    requires c in s1.nodes && s1.nodes[c].id == c && s1.nodes[c].role == Candidate && s1.nodes[c].term == 1
    requires Grant(lo + k - 1, c, 1) in s1.flight
    ensures Exec(s, DeliverEach(Votes(c, lo, k))) == Running(s')
    ensures c in s'.nodes && s'.nodes == s1.nodes[c := s'.nodes[c]] && SameIdentity(s1.nodes[c], s'.nodes[c])
    ensures s'.nodes[c].term == 1 && s'.nodes[c].votesReceived == s1.nodes[c].votesReceived + 1
    ensures if s1.nodes[c].votesReceived + 1 > |s1.nodes[c].peers| / 2
      then s'.nodes[c].role == Leader && Beats(s', c, 1)
      else s'.nodes[c].role == Candidate
    ensures forall m :: m != Grant(lo + k - 1, c, 1) ==> s1.flight[m] <= s'.flight[m]
  {
    var m := Grant(lo + k - 1, c, 1);
    CountStep(s1, lo + k - 1, c, 1, 1);
    DeliverEachSnoc(s, Votes(c, lo, k - 1), s1, m);
    s' := Apply(s1, Deliver(m, 1)).state;
    assert forall x :: x != m ==> (s1.flight - multiset{m})[x] == s1.flight[x];
  }

  /** `c` counts the votes of nodes `lo` to `lo + k - 1`, and leads after the last. */
  lemma CountVotes(s: State, c: int, lo: int, k: nat) returns (ms: seq<Message>, s': State)
    requires c in s.nodes && s.nodes[c].id == c && s.nodes[c].role == Candidate && s.nodes[c].term == 1
    requires k >= 1 && s.nodes[c].votesReceived + k == |s.nodes[c].peers| / 2 + 1
    requires forall v :: lo <= v < lo + k ==> Grant(v, c, 1) in s.flight
    ensures Exec(s, DeliverEach(ms)) == Running(s')
    ensures forall m :: multiset(ms)[m] <= if VoteOf(m, c, lo, k) then 1 else 0
    ensures Leads(s', c, 1) && s'.nodes == s.nodes[c := s'.nodes[c]]
    ensures s'.nodes[c].peers == s.nodes[c].peers && Beats(s', c, 1)
    ensures forall m :: !VoteOf(m, c, lo, k) ==> s.flight[m] <= s'.flight[m]
  {
    s' := CountEnough(s, c, lo, k);
    ms := Votes(c, lo, k);
    forall m
      ensures multiset(ms)[m] <= if VoteOf(m, c, lo, k) then 1 else 0
    {
      VotesOnce(c, lo, k, m);
    }
  }

  lemma CountEnough(s: State, c: int, lo: int, k: nat) returns (s': State)
    requires c in s.nodes && s.nodes[c].id == c && s.nodes[c].role == Candidate && s.nodes[c].term == 1
    requires k >= 1 && s.nodes[c].votesReceived + k == |s.nodes[c].peers| / 2 + 1
    requires forall v :: lo <= v < lo + k ==> Grant(v, c, 1) in s.flight
    ensures Exec(s, DeliverEach(Votes(c, lo, k))) == Running(s')
    ensures Leads(s', c, 1) && s'.nodes == s.nodes[c := s'.nodes[c]]
    ensures s'.nodes[c].peers == s.nodes[c].peers && Beats(s', c, 1)
    ensures forall m :: !VoteOf(m, c, lo, k) ==> s.flight[m] <= s'.flight[m]
  {
    var s1 := CountSome(s, c, lo, k - 1);
    var last := Grant(lo + k - 1, c, 1);
    assert s.flight[last] <= s1.flight[last];
    assert s1.nodes[c].votesReceived + 1 > |s1.nodes[c].peers| / 2;
    s' := CountOne(s, s1, c, lo, k);
    UpdatedTwice(s.nodes, c, s1.nodes[c], s'.nodes[c]);
    VotesStay(s.flight, s1.flight, s'.flight, c, lo, k);
  }

  lemma UpdatedTwice(nodes: map<int, NodeState>, c: int, x: NodeState, y: NodeState)
    ensures nodes[c := x][c := y] == nodes[c := y]
  {
  }

  lemma VotesStay(f: multiset<Message>, f1: multiset<Message>, f2: multiset<Message>, c: int, lo: int, k: nat)
    requires k >= 1 && forall m :: !VoteOf(m, c, lo, k - 1) ==> f[m] <= f1[m]
    requires forall m :: m != Grant(lo + k - 1, c, 1) ==> f1[m] <= f2[m]
    ensures forall m :: !VoteOf(m, c, lo, k) ==> f[m] <= f2[m]
  {
    forall m | !VoteOf(m, c, lo, k)
      ensures f[m] <= f2[m]
    {
      assert m != Grant(lo + k - 1, c, 1) && f[m] <= f1[m];
    }
  }

  // ----- the call that splits -----

  /** Candidate `c` of term 1 needs the votes of the `k` nodes from `lo` on. */
  ghost predicate Ready(s: State, c: int, lo: int, k: nat) {
    c in s.nodes && Stood(s, c, 1, |s.nodes[c].peers|) && |s.nodes[c].peers| / 2 == k && Askable(s, c, lo, k)
  }

  /** Only requests are under way. */
  ghost predicate OnlyRequests(s: State) {
    forall m :: m in s.flight ==> m.kind == RequestVoteReq
  }

  /** A fleet before its first event. */
  ghost predicate AllRested(s: State, n: nat) {
    Initial(s) && forall i :: 1 <= i <= n ==> Rested(s, n, i)
  }

  /** At tick 1, nodes 1 and 2 stand and the others wait. */
  lemma TickedReady(s: State, n: nat, k: nat, s1: State)
    requires n == 2 * k + 2 && k >= 1 && AllRested(s, n) && Ticked(s, 1, s1)
    ensures Ready(s1, 1, 3, k) && Ready(s1, 2, 3 + k, k) && 2 in s1.nodes[1].peers
  {
    RivalStands(s, n, s1, 1);
    RivalStands(s, n, s1, 2);
    forall v | 3 <= v <= n
      ensures v in s1.nodes && s1.nodes[v].id == v && s1.nodes[v].term < 1
    {
      VoterWaits(s, n, s1, v);
    }
  }

  lemma VoterWaits(s: State, n: nat, s1: State, v: int)
    requires v > 2 && Rested(s, n, v) && Ticked(s, 1, s1)
    ensures v in s1.nodes && s1.nodes[v].id == v && s1.nodes[v].term < 1
  {
    WaitsTick(s.nodes[v], 1);
    assert s1.nodes[v] == HandleTick(s.nodes[v], 1).node;
  }

  lemma TickedRequests(s: State, s1: State)
    requires Initial(s) && Ticked(s, 1, s1)
    ensures OnlyRequests(s1)
  {
    forall m | m in s1.flight
      ensures m.kind == RequestVoteReq
    {
      assert SentByTick(s, 1, m);
      SentInTerm(s, 1, m);
    }
  }

  lemma RivalStands(s: State, n: nat, s1: State, c: int)
    requires n >= 2 && 1 <= c <= 2 && Rested(s, n, c) && Ticked(s, 1, s1)
    ensures Stood(s1, c, 1, n - 1)
    ensures forall v :: 1 <= v <= n && v != c ==> v in s1.nodes[c].peers && Request(c, v, 1) in s1.flight
  {
    var node := s.nodes[c];
    assert 3 - c in node.peers;
    assert s1.nodes[c] == HandleTick(node, 1).node;
    StanderTicks(node, 1);
    StepKeeps(node, Tick, 1);
    forall v | 1 <= v <= n && v != c
      ensures v in s1.nodes[c].peers && Request(c, v, 1) in s1.flight
    {
      TickRequests(node, 1, v);
    }
  }

  /** First round: half of the voters hear node 1 first, the other half node 2. */
  lemma VotesSplit(s: State, k: nat) returns (round: seq<Action>, s': State)
    requires k >= 1 && Ready(s, 1, 3, k) && Ready(s, 2, 3 + k, k) && OnlyRequests(s) && 2 in s.nodes[1].peers
    ensures s.flight != multiset{} && Round(s, round, 1) && Exec(s, round) == Running(s')
    ensures Granted(s', 1, 3, k) && Granted(s', 2, 3 + k, k) && 2 in s'.nodes[1].peers
    ensures Heartbeat(1, 2, 1) !in s'.flight
  {
    var ms1, s1, ms2, s2 := BothGranted(s, k);
    round, s' := DeliverThese(s, ms1, s1, ms2, s2);
    assert Request(1, 3, 1) in s.flight;
    SplitFlight(s.flight, s2.flight, s'.flight, k);
  }

  lemma BothGranted(s: State, k: nat) returns (ms1: seq<Message>, s1: State, ms2: seq<Message>, s2: State)
    requires 1 in s.nodes && 2 in s.nodes && Askable(s, 1, 3, k) && Askable(s, 2, 3 + k, k) && OnlyRequests(s)
    ensures Exec(s, DeliverEach(ms1)) == Running(s1) && Exec(s1, DeliverEach(ms2)) == Running(s2)
    ensures multiset(ms1) + multiset(ms2) <= s.flight
    ensures 1 in s2.nodes && 2 in s2.nodes && s2.nodes[1] == s.nodes[1] && s2.nodes[2] == s.nodes[2]
    ensures forall v :: 3 <= v < 3 + k ==> Grant(v, 1, 1) in s2.flight
    ensures forall v :: 3 + k <= v < 3 + k + k ==> Grant(v, 2, 1) in s2.flight
    ensures Heartbeat(1, 2, 1) !in s2.flight
  {
    ms1, s1 := Grants(s, 1, 3, k);
    StillAskable(s, s1, k);
    ms2, s2 := Grants(s1, 2, 3 + k, k);
    AsksFit(s, ms1, ms2, k);
    RivalsUntouched(s, s1, s2, k);
    BothUnderWay(s.flight, s1.flight, s2.flight, k);
  }

  lemma BothUnderWay(f: multiset<Message>, f1: multiset<Message>, f2: multiset<Message>, k: nat)
    requires forall m :: m in f ==> m.kind == RequestVoteReq
    requires forall v :: 3 <= v < 3 + k ==> Grant(v, 1, 1) in f1
    requires forall m :: !AskOf(m, 2, 3 + k, k) ==> f1[m] <= f2[m]
    requires forall m: Message :: m.kind != RequestVoteRes ==> f1[m] <= f[m] && f2[m] <= f1[m]
    ensures forall v :: 3 <= v < 3 + k ==> Grant(v, 1, 1) in f2
    ensures Heartbeat(1, 2, 1) !in f2
  {
    forall v | 3 <= v < 3 + k
      ensures Grant(v, 1, 1) in f2
    {
      assert f1[Grant(v, 1, 1)] <= f2[Grant(v, 1, 1)];
    }
    assert f2[Heartbeat(1, 2, 1)] <= f1[Heartbeat(1, 2, 1)] <= f[Heartbeat(1, 2, 1)];
  }

  lemma RivalsUntouched(s: State, s1: State, s2: State, k: nat)
    requires 1 in s.nodes && 2 in s.nodes && s1.nodes.Keys == s.nodes.Keys == s2.nodes.Keys
    requires forall i :: i in s.nodes && !(3 <= i < 3 + k) ==> s1.nodes[i] == s.nodes[i]
    requires forall i :: i in s1.nodes && !(3 + k <= i < 3 + k + k) ==> s2.nodes[i] == s1.nodes[i]
    ensures s2.nodes[1] == s.nodes[1] && s2.nodes[2] == s.nodes[2]
  {
  }

  lemma SplitFlight(f: multiset<Message>, f2: multiset<Message>, f': multiset<Message>, k: nat)
    requires forall m :: m in f ==> m.kind == RequestVoteReq
    requires forall m :: f[m] == 0 ==> f'[m] == f2[m]
    ensures forall v :: 3 <= v < 3 + k && Grant(v, 1, 1) in f2 ==> Grant(v, 1, 1) in f'
    ensures forall v :: 3 + k <= v < 3 + k + k && Grant(v, 2, 1) in f2 ==> Grant(v, 2, 1) in f'
    ensures Heartbeat(1, 2, 1) !in f2 ==> Heartbeat(1, 2, 1) !in f'
  {
    assert forall v, c :: Grant(v, c, 1) !in f;
    assert Heartbeat(1, 2, 1) !in f;
  }

  lemma StillAskable(s: State, s1: State, k: nat)
    requires Askable(s, 2, 3 + k, k) && s1.nodes.Keys == s.nodes.Keys
    requires forall i :: i in s.nodes && !(3 <= i < 3 + k) ==> s1.nodes[i] == s.nodes[i]
    requires forall m :: !AskOf(m, 1, 3, k) ==> s.flight[m] <= s1.flight[m]
    ensures Askable(s1, 2, 3 + k, k)
  {
    forall v | 3 + k <= v < 3 + k + k
      ensures Request(2, v, 1) in s1.flight
    {
      assert s.flight[Request(2, v, 1)] <= s1.flight[Request(2, v, 1)];
    }
  }

  lemma AsksFit(s: State, ms1: seq<Message>, ms2: seq<Message>, k: nat)
    requires Askable(s, 1, 3, k) && forall m :: multiset(ms1)[m] <= if AskOf(m, 1, 3, k) then 1 else 0
    requires Askable(s, 2, 3 + k, k) && forall m :: multiset(ms2)[m] <= if AskOf(m, 2, 3 + k, k) then 1 else 0
    ensures multiset(ms1) + multiset(ms2) <= s.flight
  {
    forall m
      ensures (multiset(ms1) + multiset(ms2))[m] <= s.flight[m]
    {
      assert AskOf(m, 1, 3, k) ==> Request(1, m.to, 1) in s.flight;
      assert AskOf(m, 2, 3 + k, k) ==> Request(2, m.to, 1) in s.flight;
    }
  }

  /** A round that delivers these messages in this order and loses the others. */
  lemma DeliverThese(s: State, ms1: seq<Message>, s1: State, ms2: seq<Message>, s2: State)
    returns (round: seq<Action>, s': State)
    requires Exec(s, DeliverEach(ms1)) == Running(s1) && Exec(s1, DeliverEach(ms2)) == Running(s2)
    requires multiset(ms1) + multiset(ms2) <= s.flight
    ensures Round(s, round, 1) && Exec(s, round) == Running(s') && s'.nodes == s2.nodes
    ensures forall m :: s.flight[m] == 0 ==> s'.flight[m] == s2.flight[m]
  {
    var acts1, acts2 := DeliverEach(ms1), DeliverEach(ms2);
    DecisionsDecide({}, KeepAll, ms1, 1);
    DecisionsDecide({}, KeepAll, ms2, 1);
    DecidedConcat(acts1, acts2);
    ExecConcat(s, acts1, acts2);
    round, s' := FinishRound(s, acts1 + acts2, 1, s2);
  }

  /** `c` has the votes of the `k` nodes from `lo` on under way. */
  ghost predicate Granted(s: State, c: int, lo: int, k: nat) {
    && c in s.nodes && Stood(s, c, 1, |s.nodes[c].peers|) && |s.nodes[c].peers| / 2 == k
    && forall v :: lo <= v < lo + k ==> Grant(v, c, 1) in s.flight
  }

  /** Second round: both candidates count their half, which the code takes for a majority. */
  lemma BothWin(s: State, k: nat) returns (round: seq<Action>, s': State)
    requires k >= 1 && Granted(s, 1, 3, k) && Granted(s, 2, 3 + k, k) && 2 in s.nodes[1].peers
    requires Heartbeat(1, 2, 1) !in s.flight
    ensures s.flight != multiset{} && Round(s, round, 1) && Exec(s, round) == Running(s')
    ensures Leads(s', 1, 1) && Leads(s', 2, 1) && Heartbeat(1, 2, 1) in s'.flight
  {
    var ms1, s1 := CountVotes(s, 1, 3, k);
    forall v | 3 + k <= v < 3 + k + k
      ensures Grant(v, 2, 1) in s1.flight
    {
      assert s.flight[Grant(v, 2, 1)] <= s1.flight[Grant(v, 2, 1)];
    }
    var ms2, s2 := CountVotes(s1, 2, 3 + k, k);
    VotesFit(s, ms1, ms2, k);
    round, s' := DeliverThese(s, ms1, s1, ms2, s2);
    assert Grant(3, 1, 1) in s.flight;
    assert s1.flight[Heartbeat(1, 2, 1)] <= s2.flight[Heartbeat(1, 2, 1)];
  }

  lemma VotesFit(s: State, ms1: seq<Message>, ms2: seq<Message>, k: nat)
    requires forall v :: 3 <= v < 3 + k ==> Grant(v, 1, 1) in s.flight
    requires forall v :: 3 + k <= v < 3 + k + k ==> Grant(v, 2, 1) in s.flight
    requires forall m :: multiset(ms1)[m] <= if VoteOf(m, 1, 3, k) then 1 else 0
    requires forall m :: multiset(ms2)[m] <= if VoteOf(m, 2, 3 + k, k) then 1 else 0
    ensures multiset(ms1) + multiset(ms2) <= s.flight
  {
    forall m
      ensures (multiset(ms1) + multiset(ms2))[m] <= s.flight[m]
    {
      assert VoteOf(m, 1, 3, k) ==> Grant(m.from, 1, 1) in s.flight;
      assert VoteOf(m, 2, 3 + k, k) ==> Grant(m.from, 2, 1) in s.flight;
    }
  }

  /** The rounds of the call: votes split, both win, and the second leader hears the first. */
  lemma SplitRounds(s1: State, k: nat)
    returns (rounds: seq<seq<Action>>, before: seq<Action>, last: seq<Action>, s3: State)
    requires k >= 1 && Ready(s1, 1, 3, k) && Ready(s1, 2, 3 + k, k) && OnlyRequests(s1) && 2 in s1.nodes[1].peers
    ensures Rounds(s1, rounds, 1) && AllDecide(Concat(rounds), 1)
    ensures Exec(s1, Concat(rounds)).Crashed? && Concat(rounds) == before + last
    ensures Exec(s1, before) == Running(s3) && Leads(s3, 1, 1) && Leads(s3, 2, 1)
  {
    var round1, s2 := VotesSplit(s1, k);
    var round2, s' := BothWin(s2, k);
    s3 := s';
    SplitBrainPanics(s3, 1, 2, 1, 1);
    last := PanicRound(s3, Deliver(Heartbeat(1, 2, 1), 1), 1);
    RoundsEnd(s3, last, 1);
    RoundsCons(s2, round2, s3, [last], 1);
    RoundsCons(s1, round1, s2, [round2] + [last], 1);
    rounds, before := [round1] + ([round2] + [last]), round1 + round2;
    ExecConcat(s1, round1, round2);
    ConcatThree(round1, round2, last);
  }

  lemma ConcatThree(a: seq<Action>, b: seq<Action>, c: seq<Action>)
    ensures Concat([a] + ([b] + [c])) == a + b + c
  {
    assert ([a] + ([b] + [c]))[1..] == [b] + [c] && ([b] + [c])[1..] == [c] && [c][1..] == [];
    assert Concat([c]) == c;
    assert Concat([b] + [c]) == b + c;
    assert Concat([a] + ([b] + [c])) == a + (b + c);
  }

  /**
    Every even cluster of four or more nodes: if two nodes stand at the same tick and half of the others hear one
    first and half the other, one call of `Tick` has two leaders of a term, and panics when one hears the other.
   */
  lemma LockstepSplits(n: nat) returns (c: Call)
    requires n >= 4 && n % 2 == 0
    ensures LockstepRun(Fleet(n), [c]) && !OneLeaderPerTerm(Fleet(n), Schedule([c]))
    ensures Exec(Fleet(n), Schedule([c])).Crashed?
  {
    var k := n / 2 - 1;
    var order, s1 := BothStand(n, k);
    var rounds, before, last, s3 := SplitRounds(s1, k);
    c := Call(1, order, rounds);
    SplitCall(Fleet(n), c, s1, before, last, s3);
  }

  lemma BothStand(n: nat, k: nat) returns (order: seq<int>, s1: State)
    requires n == 2 * k + 2 && k >= 1
    ensures Lists(order, Fleet(n).nodes.Keys) && Exec(Fleet(n), TickAll(order, 1)) == Running(s1)
    ensures Ready(s1, 1, 3, k) && Ready(s1, 2, 3 + k, k) && OnlyRequests(s1) && 2 in s1.nodes[1].peers
  {
    var s := Fleet(n);
    FleetInitial(n);
    forall i | 1 <= i <= n
      ensures Rested(s, n, i)
    {
      FleetRests(n, i);
    }
    order, s1 := RivalsTick(s, n, k);
  }

  lemma RivalsTick(s: State, n: nat, k: nat) returns (order: seq<int>, s1: State)
    requires n == 2 * k + 2 && k >= 1 && AllRested(s, n)
    ensures Lists(order, s.nodes.Keys) && Exec(s, TickAll(order, 1)) == Running(s1)
    ensures Ready(s1, 1, 3, k) && Ready(s1, 2, 3 + k, k) && OnlyRequests(s1) && 2 in s1.nodes[1].peers
  {
    order := SomeOrder(s.nodes.Keys);
    TickPhase(s, order, 1);
    s1 := Exec(s, TickAll(order, 1)).state;
    TickedReady(s, n, k, s1);
    TickedRequests(s, s1);
  }

  lemma SplitCall(s: State, c: Call, s1: State, before: seq<Action>, last: seq<Action>, s3: State)
    requires Lists(c.order, s.nodes.Keys) && Exec(s, TickAll(c.order, c.now)) == Running(s1)
    requires Rounds(s1, c.rounds, c.now) && AllDecide(Concat(c.rounds), c.now)
    requires Exec(s1, Concat(c.rounds)).Crashed? && Concat(c.rounds) == before + last
    requires Exec(s1, before) == Running(s3) && Leads(s3, 1, 1) && Leads(s3, 2, 1)
    ensures LockstepRun(s, [c]) && !OneLeaderPerTerm(s, Schedule([c])) && Exec(s, Schedule([c])).Crashed?
  {
    CrashingCall(s, c, s1);
    LeadersOnTheWay(s, TickAll(c.order, c.now), s1, before, last, s3);
    assert [c][1..] == [];
    assert Schedule([c]) == TickAll(c.order, c.now) + (before + last);
  }

  lemma CrashingCall(s: State, c: Call, s1: State)
    requires Lists(c.order, s.nodes.Keys) && Exec(s, TickAll(c.order, c.now)) == Running(s1)
    requires Rounds(s1, c.rounds, c.now) && AllDecide(Concat(c.rounds), c.now) && Exec(s1, Concat(c.rounds)).Crashed?
    ensures LockstepRun(s, [c]) && Exec(s, Schedule([c])).Crashed?
  {
    ExecConcat(s, TickAll(c.order, c.now), Concat(c.rounds));
    OneCall(s, c);
  }

  lemma LeadersOnTheWay(s: State, ticks: seq<Action>, s1: State, before: seq<Action>, last: seq<Action>, s3: State)
    requires Exec(s, ticks) == Running(s1) && Exec(s1, before) == Running(s3) && Leads(s3, 1, 1) && Leads(s3, 2, 1)
    ensures !OneLeaderPerTerm(s, ticks + (before + last))
  {
    ExecConcat(s, ticks, before);
    BeginsWith(ticks, before, last);
    TwoLeaders(s, ticks + (before + last), ticks + before, s3, 1, 2, 1);
  }

  lemma BeginsWith(a: seq<Action>, b: seq<Action>, c: seq<Action>)
    ensures a + b <= a + (b + c)
  {
  }

  // ----- the exact sizes -----

  ghost predicate LockstepSafe(n: nat) {
    forall s, calls :: Initial(s) && |s.nodes| == n && LockstepRun(s, calls) ==> OneLeaderPerTerm(s, Schedule(calls))
  }

  ghost predicate LockstepRuns(n: nat) {
    forall s, calls :: Initial(s) && |s.nodes| == n && LockstepRun(s, calls) ==> Exec(s, Schedule(calls)).Running?
  }

  /**
    All lockstep runs of all fresh clusters of `n` nodes have at most one leader per term if and only if `n` is odd or
    at most two, and exactly then none of them panics.
   */
  lemma LockstepExactly(n: nat)
    ensures LockstepSafe(n) <==> Quorate(n)
    ensures LockstepRuns(n) <==> Quorate(n)
  {
    if Quorate(n) {
      forall s, calls | Initial(s) && |s.nodes| == n && LockstepRun(s, calls)
        ensures OneLeaderPerTerm(s, Schedule(calls)) && Exec(s, Schedule(calls)).Running?
      {
        LockstepSafety(s, calls);
      }
    } else {
      var c := LockstepSplits(n);
      FleetInitial(n);
    }
  }

  /** As a schedule of the asynchronous network. */
  lemma EvenSplits(n: nat) returns (acts: seq<Action>)
    requires n >= 4 && n % 2 == 0
    ensures TimelyRun(Fleet(n), acts) && NoCopies(acts)
    ensures !OneLeaderPerTerm(Fleet(n), acts) && Exec(Fleet(n), acts).Crashed?
  {
    var c := LockstepSplits(n);
    FleetInitial(n);
    LockstepIsTimely(Fleet(n), [c]);
    acts := Schedule([c]);
    NothingCopied(c);
  }

  lemma {:induction false} TicksOnly(order: seq<int>, now: int)
    ensures forall a :: a in TickAll(order, now) ==> a.TickNode?
  {
    if order != [] {
      TicksOnly(order[1..], now);
    }
  }

  lemma NothingCopied(c: Call)
    requires forall a :: a in Concat(c.rounds) ==> Decides(a, c.now)
    ensures NoCopies(Schedule([c]))
  {
    TicksOnly(c.order, c.now);
    assert [c][1..] == [];
    assert Schedule([c]) == Actions(c);
  }

  /** Every timely schedule of every fresh cluster of `n` nodes has at most one leader per term. */
  ghost predicate SafeSize(n: nat) {
    forall s, acts :: Initial(s) && |s.nodes| == n && TimelyRun(s, acts) ==> OneLeaderPerTerm(s, acts)
  }

  /** The code elects safely exactly in clusters of odd size and of at most two nodes. */
  lemma SafeExactly(n: nat)
    ensures SafeSize(n) <==> Quorate(n)
  {
    if Quorate(n) {
      forall s, acts | Initial(s) && |s.nodes| == n && TimelyRun(s, acts)
        ensures OneLeaderPerTerm(s, acts)
      {
        ElectionSafety(s, acts);
      }
    } else {
      var acts := EvenSplits(n);
      FleetInitial(n);
    }
  }
}
