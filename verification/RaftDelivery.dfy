/**
  What the network must not do: for which cluster sizes election safety survives copied messages and
  votes that reach a candidate of a later term, for every combination of the two.
 */
module RaftDelivery {
  import opened RaftNode
  import opened RaftNetwork
  import opened RaftFleet
  import opened RaftSizes
  import opened Sums

  /** What the network may do besides losing, delaying and reordering messages. */
  ghost predicate Permitted(s: State, acts: seq<Action>, copies: bool, late: bool) {
    (copies || NoCopies(acts)) && (late || PunctualRun(s, acts))
  }

  /** The sizes for which the code is safe. */
  predicate SafeFor(n: nat, copies: bool, late: bool) {
    if late then n <= 1 else if copies then n <= 3 else Quorate(n)
  }

  // ----- up to three nodes, copies do no harm -----

  /** Every voter a candidate has counted voted for it in its term; it may have been counted more than once. */
  ghost predicate LooseFacts(s: State, h: History, c: int)
    requires c in s.nodes
  {
    s.nodes[c].role == Candidate ==> c in h.tally && c in h.tally[c] && VotedFor(h, h.tally[c], c, s.nodes[c].term)
  }

  ghost predicate LooseTally(s: State, h: History) {
    forall c :: c in s.nodes ==> LooseFacts(s, h, c)
  }

  ghost predicate CopyInv(s: State, h: History) {
    && Configured(s.nodes) && |s.nodes| <= 3 && SelfVoteInv(s)
    && BallotInv(s, h) && LooseTally(s, h) && WinInv(s, h) && FlightInv(s, h)
  }

  /**
    A vote that is not late comes from another node that voted for the candidate in its term: two voters of at most
    three.
   */
  lemma LooseTallyGrows(s: State, h: History, i: int, e: Event, now: int, flight: multiset<Message>, n': NodeState,
                        h': History)
    requires Configured(s.nodes) && StepAt(s, i, e, flight) && Stands(s.nodes[i], e, now) != Counts(s.nodes[i], e)
    requires Stands(s.nodes[i], e, now) ==> n'.votedFor == i
    requires Counts(s.nodes[i], e) ==> n'.term == s.nodes[i].term
    requires h' == RecordStep(s.nodes[i], h, e, now, n') && MoreBallots(h, h')
    requires LooseFacts(s, h, i) && FlightInv(s, h)
    ensures i in h'.tally[i] && VotedFor(h', h'.tally[i], i, n'.term)
    ensures Counts(s.nodes[i], e) ==> |h'.tally[i]| >= 2
  {
    if Counts(s.nodes[i], e) {
      var m := e.message;
      assert FlightFacts(s, h, m);
      SubsetSize({i, m.from}, h'.tally[i]);
    }
  }

  lemma LooseStep(s: State, h: History, i: int, e: Event, now: int, n': NodeState, s': State, h': History)
    requires i in s.nodes && s'.nodes == s.nodes[i := n'] && n'.id == s.nodes[i].id == i
    requires h' == RecordStep(s.nodes[i], h, e, now, n') && MoreBallots(h, h')
    requires n'.role == Candidate && !Stands(s.nodes[i], e, now) ==>
      s.nodes[i].role == Candidate && n'.term == s.nodes[i].term
    requires LooseTally(s, h)
    requires Stands(s.nodes[i], e, now) || Counts(s.nodes[i], e) ==>
      i in h'.tally[i] && VotedFor(h', h'.tally[i], i, n'.term)
    ensures LooseTally(s', h')
  {
    forall c | c in s'.nodes
      ensures LooseFacts(s', h', c)
    {
      assert LooseFacts(s, h, c);
    }
  }

  lemma LooseWins(s: State, h: History, i: int, e: Event, now: int, n': NodeState, s': State, h': History)
    requires i in s.nodes && s'.nodes == s.nodes[i := n'] && n'.id == s.nodes[i].id == i
    requires h' == RecordStep(s.nodes[i], h, e, now, n') && MoreBallots(h, h')
    requires Counted(s.nodes[i], e, now, n')
    requires n'.role == Leader && !Stands(s.nodes[i], e, now) ==> n'.term == s.nodes[i].term
    requires WinInv(s, h) && |s'.nodes| == |s.nodes| == |s.nodes[i].peers| + 1 <= 3
    requires Stands(s.nodes[i], e, now) || Counts(s.nodes[i], e) ==>
      i in h'.tally[i] && VotedFor(h', h'.tally[i], i, n'.term)
    requires Counts(s.nodes[i], e) ==> |h'.tally[i]| >= 2
    ensures WinInv(s', h') && Extends(h, h')
  {
    forall k | k in h'.wins
      ensures WinFacts(h', |s'.nodes|, k)
    {
      if k in h.wins && h'.wins[k] == h.wins[k] {
        assert WinFacts(h, |s.nodes|, k);
      } else {
        assert k == (i, n'.term) && h'.wins[k] == h'.tally[i];
        SubsetSize({i}, h'.tally[i]);
      }
    }
  }

  lemma CopyNoPanic(s: State, h: History, i: int, e: Event, now: int, flight: multiset<Message>)
    requires WinInv(s, h) && BallotInv(s, h) && FlightInv(s, h) && |s.nodes| <= 3 && StepAt(s, i, e, flight)
    ensures Handle(s.nodes[i], e, now).Done?
  {
    SmallIsQuorate(|s.nodes|);
    NoPanic(s, h, i, e, now, flight);
  }

  lemma SmallIsQuorate(n: nat)
    requires n <= 3
    ensures Quorate(n)
  {
  }

  lemma CopyStep(s: State, h: History, i: int, e: Event, now: int, flight: multiset<Message>)
    requires CopyInv(s, h) && StepAt(s, i, e, flight)
    ensures Handle(s.nodes[i], e, now).Done?
    ensures var o := Handle(s.nodes[i], e, now);
      var s', h' := State(s.nodes[i := o.node], flight + multiset(o.sent)), Record(s.nodes[i], h, e, now);
      CopyInv(s', h') && Extends(h, h')
  {
    CopyNoPanic(s, h, i, e, now, flight);
    StepShape(s, h, i, e, now, flight);
    var o := Handle(s.nodes[i], e, now);
    CopyStepParts(s, h, i, e, now, flight, o.node, o.sent, State(s.nodes[i := o.node], flight + multiset(o.sent)),
      Record(s.nodes[i], h, e, now));
  }

  lemma CopyStepParts(s: State, h: History, i: int, e: Event, now: int, flight: multiset<Message>,
                      n': NodeState, sent: seq<Message>, s': State, h': History)
    requires CopyInv(s, h) && Stepped(s, h, i, e, now, flight, n', sent, s', h') && Counted(s.nodes[i], e, now, n')
    requires |s.nodes[i].peers| + 1 == |s.nodes|
    ensures CopyInv(s', h') && Extends(h, h')
  {
    StepConfigured(s, h, i, e, now, flight, n', sent, s', h');
    NewBallot(s, h, i, e, now, flight, n', sent, s', h');
    StepBallots(s, s', h, h', i);
    if Stands(s.nodes[i], e, now) || Counts(s.nodes[i], e) {
      LooseTallyGrows(s, h, i, e, now, flight, n', h');
    }
    LooseStep(s, h, i, e, now, n', s', h');
    LooseWins(s, h, i, e, now, n', s', h');
    StepFlight(s, h, i, e, now, flight, n', sent, s', h');
  }

  lemma CopyAction(s: State, h: History, a: Action)
    requires CopyInv(s, h) && !LateVote(s, a)
    ensures Apply(s, a).Running?
    ensures CopyInv(Apply(s, a).state, RecordAction(s, h, a)) && Extends(h, RecordAction(s, h, a))
  {
    match a
    case TickNode(i, now) =>
      if i in s.nodes { CopyStep(s, h, i, Tick, now, s.flight); }
    case Deliver(m, now) =>
      if m in s.flight {
        assert FlightFacts(s, h, m);
        CopyStep(s, h, m.to, Receive(m), now, s.flight - multiset{m});
      }
    case Drop(m) =>
      DropFlight(s, h, m);
      CopyInvFlight(s, h, s.flight - multiset{m});
    case Duplicate(m) =>
      if m in s.flight {
        CopyFlight(s, h, m);
        CopyInvFlight(s, h, s.flight + multiset{m});
      }
  }

  /** The invariant speaks of messages in one place only. */
  lemma CopyInvFlight(s: State, h: History, flight: multiset<Message>)
    requires CopyInv(s, h) && FlightInv(s.(flight := flight), h)
    ensures CopyInv(s.(flight := flight), h)
  {
  }

  lemma CopyFlight(s: State, h: History, m: Message)
    requires FlightInv(s, h) && m in s.flight
    ensures FlightInv(s.(flight := s.flight + multiset{m}), h)
  {
    var s' := s.(flight := s.flight + multiset{m});
    forall x | x in s'.flight
      ensures FlightFacts(s', h, x)
    {
      assert x in s.flight && FlightFacts(s, h, x);
    }
  }

  lemma {:induction false} CopyRun(s: State, h: History, acts: seq<Action>) returns (h': History)
    requires CopyInv(s, h) && PunctualRun(s, acts)
    ensures Exec(s, acts).Running? && CopyInv(Exec(s, acts).state, h') && Extends(h, h')
    decreases |acts|
  {
    h' := h;
    if acts != [] {
      CopyAction(s, h, acts[0]);
      h' := CopyRun(Apply(s, acts[0]).state, RecordAction(s, h, acts[0]), acts[1..]);
    }
  }

  lemma CopyLeaders(s: State, acts: seq<Action>, i: nat, j: nat, a: int, b: int, t: int)
    requires Initial(s) && |s.nodes| <= 3 && PunctualRun(s, acts)
    requires i <= j && LeaderAt(s, acts, i, a, t) && LeaderAt(s, acts, j, b, t)
    ensures a == b
  {
    var p, q := acts[..i], acts[i..j];
    assert acts == p + acts[i..] && acts[i..] == q + acts[j..] && acts[..j] == p + q;
    PunctualConcat(s, p, acts[i..]);
    CopyInitial(s);
    var hp := CopyRun(s, NO_HISTORY, p);
    var sp := Exec(s, p).state;
    PunctualConcat(sp, q, acts[j..]);
    var hq := CopyRun(sp, hp, q);
    ExecConcat(s, p, q);
    SmallIsQuorate(|Exec(sp, q).state.nodes|);
    OneWinner(Exec(sp, q).state, hq, a, b, t);
  }

  lemma CopyInitial(s: State)
    requires Initial(s) && |s.nodes| <= 3
    ensures CopyInv(s, NO_HISTORY)
  {
  }

  /** In clusters of at most three nodes, messages may be copied at will as long as no vote is late. */
  lemma CopySafety(s: State, acts: seq<Action>)
    requires Initial(s) && |s.nodes| <= 3 && PunctualRun(s, acts)
    ensures OneLeaderPerTerm(s, acts) && Exec(s, acts).Running?
  {
    forall i, j, a, b, t | LeaderAt(s, acts, i, a, t) && LeaderAt(s, acts, j, b, t)
      ensures a == b
    {
      if i <= j {
        CopyLeaders(s, acts, i, j, a, b, t);
      } else {
        CopyLeaders(s, acts, j, i, b, a, t);
      }
    }
    CopyInitial(s);
    var h := CopyRun(s, NO_HISTORY, acts);
  }

  /** A single node cannot disagree with anybody. */
  lemma AloneIsSafe(s: State, acts: seq<Action>)
    requires |s.nodes| <= 1
    ensures OneLeaderPerTerm(s, acts)
  {
    forall i: nat, j: nat, a, b, t | LeaderAt(s, acts, i, a, t) && LeaderAt(s, acts, j, b, t)
      ensures a == b
    {
      RunKeeps(s, acts[..i]);
      RunKeeps(s, acts[..j]);
      assert a in s.nodes.Keys && b in s.nodes.Keys;
      if a != b {
        SubsetSize({a, b}, s.nodes.Keys);
      }
    }
  }

  // ----- counting votes -----

  /** The votes of `v` for `c` in the terms `ts` are in flight, one for each. */
  ghost predicate Due(flight: multiset<Message>, v: int, c: int, ts: seq<int>)
    decreases |ts|
  {
    ts != [] ==> Grant(v, c, ts[0]) in flight && Due(flight - multiset{Grant(v, c, ts[0])}, v, c, ts[1..])
  }

  lemma {:induction false} DueMore(flight: multiset<Message>, flight': multiset<Message>, v: int, c: int, ts: seq<int>)
    requires Due(flight, v, c, ts) && flight <= flight'
    ensures Due(flight', v, c, ts)
    decreases |ts|
  {
    if ts != [] {
      var m := Grant(v, c, ts[0]);
      DueMore(flight - multiset{m}, flight' - multiset{m}, v, c, ts[1..]);
    }
  }

  /** Enough votes to make `c` a leader, and not one too many. */
  predicate Enough(votes: int, more: nat, peers: nat) {
    more >= 1 && votes + more > peers / 2 && (more > 1 ==> votes + more - 1 <= peers / 2)
  }

  /** Candidate `c` counts the votes of `v` in the terms `ts`, whatever its own term, and leads after the last. */
  lemma {:induction false} CountAll(s: State, v: int, c: int, ts: seq<int>, now: int)
    returns (acts: seq<Action>, s': State)
    requires c in s.nodes && s.nodes[c].id == c && s.nodes[c].role == Candidate
    requires Enough(s.nodes[c].votesReceived, |ts|, |s.nodes[c].peers|)
    requires (forall i :: 0 <= i < |ts| ==> ts[i] <= s.nodes[c].term) && Due(s.flight, v, c, ts)
    ensures NoCopies(acts) && Exec(s, acts) == Running(s') && Leads(s', c, s.nodes[c].term)
    ensures (forall i :: 0 <= i < |ts| ==> ts[i] == s.nodes[c].term) ==> PunctualRun(s, acts)
    ensures s'.nodes == s.nodes[c := s'.nodes[c]]
    ensures forall m: Message :: !(m.kind == RequestVoteRes && m.to == c) ==> s.flight[m] <= s'.flight[m]
    ensures s'.nodes[c].peers == s.nodes[c].peers && Beats(s', c, s.nodes[c].term)
    decreases |ts|
  {
    var m := Grant(v, c, ts[0]);
    CountStep(s, v, c, ts[0], now);
    acts, s' := [Deliver(m, now)], Apply(s, Deliver(m, now)).state;
    ExecOne(s, acts[0]);
    if |ts| > 1 {
      DueMore(s.flight - multiset{m}, s'.flight, v, c, ts[1..]);
      var more, s2 := CountAll(s', v, c, ts[1..], now);
      InSequence(s, acts, s', more, s2);
      acts, s' := acts + more, s2;
    }
  }

  lemma ExecTwo(s0: State, s1: State, s2: State, a: Action, b: Action)
    requires Apply(s0, a) == Running(s1) && Apply(s1, b) == Running(s2)
    ensures Exec(s0, [a, b]) == Running(s2)
    ensures !LateVote(s0, a) && !LateVote(s1, b) ==> PunctualRun(s0, [a, b])
  {
    ExecOne(s0, a);
    ExecOne(s1, b);
    InSequence(s0, [a], s1, [b], s2);
    assert [a] + [b] == [a, b];
  }

  // ----- copies split four nodes and more -----

  function Repeat(t: int, k: nat): seq<int> {
    if k == 0 then [] else [t] + Repeat(t, k - 1)
  }

  lemma {:induction false} RepeatDue(flight: multiset<Message>, v: int, c: int, t: int, k: nat)
    requires flight[Grant(v, c, t)] >= k
    ensures |Repeat(t, k)| == k && (forall i :: 0 <= i < k ==> Repeat(t, k)[i] == t) && Due(flight, v, c, Repeat(t, k))
    decreases k
  {
    if k > 0 {
      assert Repeat(t, k)[1..] == Repeat(t, k - 1);
      RepeatDue(flight - multiset{Grant(v, c, t)}, v, c, t, k - 1);
    }
  }

  /** The network makes `k` copies of a message in flight. */
  lemma {:induction false} CopyMany(s: State, m: Message, k: nat) returns (acts: seq<Action>, s': State)
    requires m in s.flight
    ensures PunctualRun(s, acts) && Exec(s, acts) == Running(s')
    ensures s'.nodes == s.nodes && s.flight <= s'.flight && s'.flight[m] >= s.flight[m] + k
    decreases k
  {
    acts, s' := [], s;
    if k > 0 {
      var s1 := s.(flight := s.flight + multiset{m});
      ExecOne(s, Duplicate(m));
      var more, s2 := CopyMany(s1, m, k - 1);
      InSequence(s, [Duplicate(m)], s1, more, s2);
      acts, s' := [Duplicate(m)] + more, s2;
    }
  }

  /** One voter is enough: its vote is copied until there are enough. */
  lemma WinsByCopies(s: State, c: int, v: int, peers: nat) returns (acts: seq<Action>, s': State)
    requires Stood(s, c, 1, peers) && peers >= 2 && Askable(s, c, v, 1)
    ensures PunctualRun(s, acts) && Exec(s, acts) == Running(s') && Leads(s', c, 1)
    ensures v in s.nodes && s'.nodes.Keys == s.nodes.Keys
    ensures forall i :: i in s.nodes && i != c && i != v ==> s'.nodes[i] == s.nodes[i]
    ensures forall x, w :: Request(x, w, 1) in s.flight && w != v ==> Request(x, w, 1) in s'.flight
    ensures forall m :: m in s.flight && m.kind == AppendEntriesReq ==> m in s'.flight
    ensures s'.nodes[c].peers == s.nodes[c].peers && Beats(s', c, 1)
  {
    var k := peers / 2;
    var acts1, s2 := VoteIsCopied(s, c, v, k);
    var acts2, s3 := CountsCopies(s2, c, v, k);
    InSequence(s, acts1, s2, acts2, s3);
    acts, s' := acts1 + acts2, s3;
    RequestsStay(s, s2, s3, c, v);
  }

  lemma CountsCopies(s: State, c: int, v: int, k: nat) returns (acts: seq<Action>, s': State)
    requires c in s.nodes && Stood(s, c, 1, |s.nodes[c].peers|) && |s.nodes[c].peers| / 2 == k >= 1
    requires s.flight[Grant(v, c, 1)] >= k
    ensures PunctualRun(s, acts) && Exec(s, acts) == Running(s') && Leads(s', c, 1)
    ensures s'.nodes == s.nodes[c := s'.nodes[c]]
    ensures forall m: Message :: !(m.kind == RequestVoteRes && m.to == c) ==> s.flight[m] <= s'.flight[m]
    ensures s'.nodes[c].peers == s.nodes[c].peers && Beats(s', c, 1)
  {
    RepeatDue(s.flight, v, c, 1, k);
    acts, s' := CountAll(s, v, c, Repeat(1, k), 1);
  }

  /** Voter `v` grants candidate `c` its vote, and the network copies it. */
  lemma VoteIsCopied(s: State, c: int, v: int, k: nat) returns (acts: seq<Action>, s': State)
    requires Askable(s, c, v, 1)
    ensures PunctualRun(s, acts) && Exec(s, acts) == Running(s')
    ensures v in s.nodes && v != c && v in s'.nodes && s'.nodes == s.nodes[v := s'.nodes[v]]
    ensures s'.flight[Grant(v, c, 1)] >= k && s.flight - multiset{Request(c, v, 1)} <= s'.flight
  {
    assert v in s.nodes;
    GrantStep(s, c, v, 1, 1);
    var ask := Deliver(Request(c, v, 1), 1);
    var s1 := Apply(s, ask).state;
    ExecOne(s, ask);
    var more, s2 := CopyMany(s1, Grant(v, c, 1), k);
    InSequence(s, [ask], s1, more, s2);
    acts, s' := [ask] + more, s2;
  }

  lemma RequestsStay(s: State, s2: State, s3: State, c: int, v: int)
    requires s.flight - multiset{Request(c, v, 1)} <= s2.flight
    requires forall m: Message :: !(m.kind == RequestVoteRes && m.to == c) ==> s2.flight[m] <= s3.flight[m]
    ensures forall x, w :: Request(x, w, 1) in s.flight && w != v ==> Request(x, w, 1) in s3.flight
    ensures forall m :: m in s.flight && m.kind == AppendEntriesReq ==> m in s3.flight
  {
    forall m | m in s.flight && m.kind == AppendEntriesReq
      ensures m in s3.flight
    {
      assert m in s.flight - multiset{Request(c, v, 1)};
      assert s2.flight[m] <= s3.flight[m];
    }
    forall x, w | Request(x, w, 1) in s.flight && w != v
      ensures Request(x, w, 1) in s3.flight
    {
      assert Request(x, w, 1) in s.flight - multiset{Request(c, v, 1)};
      assert s2.flight[Request(x, w, 1)] <= s3.flight[Request(x, w, 1)];
    }
  }

  lemma TwoCampaign(n: nat) returns (s: State)
    requires n >= 4
    ensures var stands := [TickNode(1, 1), TickNode(2, 1)];
      PunctualRun(Fleet(n), stands) && Exec(Fleet(n), stands) == Running(s)
    ensures Stood(s, 1, 1, n - 1) && Stood(s, 2, 1, n - 1) && Askable(s, 1, 3, 1) && Askable(s, 2, 4, 1)
    ensures 2 in s.nodes[1].peers
  {
    var s0 := Fleet(n);
    FleetRests(n, 1);
    FleetRests(n, 2);
    FleetRests(n, 3);
    FleetRests(n, 4);
    StandStep(s0, 1, 1);
    var s1 := Apply(s0, TickNode(1, 1)).state;
    StandStep(s1, 2, 1);
    s := Apply(s1, TickNode(2, 1)).state;
    ExecTwo(s0, s1, s, TickNode(1, 1), TickNode(2, 1));
    BothCampaign(n, s0, s1, s);
  }

  lemma BothCampaign(n: nat, s0: State, s1: State, s: State)
    requires n >= 4 && Rested(s0, n, 1) && Rested(s0, n, 2) && Rested(s0, n, 3) && Rested(s0, n, 4)
    requires StoodUp(s0, 1, 1, s1) && 2 in s1.nodes && StoodUp(s1, 2, 1, s)
    ensures Stood(s, 1, 1, n - 1) && Stood(s, 2, 1, n - 1) && Askable(s, 1, 3, 1) && Askable(s, 2, 4, 1)
    ensures 2 in s.nodes[1].peers
  {
    assert 3 in s0.nodes[1].peers && 4 in s0.nodes[2].peers;
    assert Request(1, 3, 1) in s1.flight;
  }

  /** After a split, the second leader hears the first and panics. */
  lemma ThenPanics(s: State, acts: seq<Action>, s': State, t: int) returns (all: seq<Action>)
    requires Exec(s, acts) == Running(s') && Leads(s', 1, t) && Leads(s', 2, t) && Heartbeat(1, 2, t) in s'.flight
    ensures !OneLeaderPerTerm(s, all) && Exec(s, all).Crashed?
    ensures (NoCopies(acts) ==> NoCopies(all)) && (PunctualRun(s, acts) ==> PunctualRun(s, all))
  {
    var a := Deliver(Heartbeat(1, 2, t), 0);
    all := acts + [a];
    SplitBrainPanics(s', 1, 2, t, 0);
    ExecOne(s', a);
    ExecConcat(s, acts, [a]);
    PunctualConcat(s, acts, [a]);
    TwoLeaders(s, all, acts, s', 1, 2, t);
  }

  /** Four nodes or more, no late vote: two candidates with one voter each both count copies of its vote. */
  lemma RepeatedVoteSplits(n: nat) returns (acts: seq<Action>)
    requires n >= 4
    ensures PunctualRun(Fleet(n), acts) && !OneLeaderPerTerm(Fleet(n), acts) && Exec(Fleet(n), acts).Crashed?
  {
    var stands := [TickNode(1, 1), TickNode(2, 1)];
    var s1 := TwoCampaign(n);
    var acts2, s2 := WinsByCopies(s1, 1, 3, n - 1);
    var acts3, s3 := WinsByCopies(s2, 2, 4, n - 1);
    assert Heartbeat(1, 2, 1) in s2.flight;
    InSequence(Fleet(n), stands, s1, acts2, s2);
    InSequence(Fleet(n), stands + acts2, s2, acts3, s3);
    acts := ThenPanics(Fleet(n), stands + acts2 + acts3, s3, 1);
  }

  // ----- late votes split two nodes and more -----

  /** The terms `first`, `first + 2`, ..., `k` of them. */
  function EveryOther(first: int, k: nat): seq<int>
    decreases k
  {
    if k == 0 then [] else [first] + EveryOther(first + 2, k - 1)
  }

  lemma {:induction false} EveryOtherDue(flight: multiset<Message>, v: int, c: int, first: int, k: nat)
    requires forall i :: 0 <= i < k ==> Grant(v, c, first + 2 * i) in flight
    ensures |EveryOther(first, k)| == k && Due(flight, v, c, EveryOther(first, k))
    ensures forall i :: 0 <= i < k ==> EveryOther(first, k)[i] < first + 2 * k
    decreases k
  {
    if k > 0 {
      var rest := flight - multiset{Grant(v, c, first)};
      assert Grant(v, c, first + 2 * 0) in flight;
      forall i | 0 <= i < k - 1
        ensures Grant(v, c, first + 2 + 2 * i) in rest
      {
        assert first + 2 + 2 * i == first + 2 * (i + 1);
      }
      assert EveryOther(first, k)[1..] == EveryOther(first + 2, k - 1);
      EveryOtherDue(rest, v, c, first + 2, k - 1);
    }
  }

  /** Node `c` before standing again: its timer ran from `since`, it does not lead, and it can ask `v`. */
  ghost predicate Idle(s: State, c: int, v: int, t: int, peers: nat) {
    && c in s.nodes && s.nodes[c].id == c && s.nodes[c].role != Leader && s.nodes[c].term == t
    && s.nodes[c].electionTimeout == 1 && s.nodes[c].heardAt <= t
    && |s.nodes[c].peers| == peers && v in s.nodes[c].peers
  }

  /** After `k` rounds: nodes 1 and 2 have granted each other `k` votes each, all of them still under way. */
  ghost predicate Dueling(s: State, k: nat, peers: nat) {
    && Idle(s, 1, 2, 2 * k, peers) && Idle(s, 2, 1, 2 * k, peers)
    && (forall i :: 0 <= i < k ==> Grant(2, 1, 1 + 2 * i) in s.flight)
    && (forall i :: 0 <= i < k ==> Grant(1, 2, 2 + 2 * i) in s.flight)
  }

  /** Node `c` stands and `v` grants it a vote, which stays under way. */
  lemma HalfRound(s: State, c: int, v: int, t: int, peers: nat) returns (acts: seq<Action>, s': State)
    requires c != v && t >= 0 && Idle(s, c, v, t, peers) && Idle(s, v, c, t, peers)
    ensures NoCopies(acts) && Exec(s, acts) == Running(s')
    ensures Idle(s', c, v, t + 1, peers) && Idle(s', v, c, t + 1, peers)
    ensures Grant(v, c, t + 1) in s'.flight
    ensures forall m :: m in s.flight && m.kind == RequestVoteRes ==> m in s'.flight
  {
    var s1 := StandsAgain(s, c, v, t, peers);
    var s2 := GrantsAgain(s1, c, v, t + 1);
    var first, second := [TickNode(c, t + 1)], [Deliver(Request(c, v, t + 1), t + 1)];
    InSequence(s, first, s1, second, s2);
    acts, s' := first + second, s2;
    StillIdle(s, s1, s', c, v, t, peers);
    VotesStay(s.flight, s1.flight, s'.flight, Request(c, v, t + 1));
  }

  lemma StandsAgain(s: State, c: int, v: int, t: int, peers: nat) returns (s1: State)
    requires c != v && Idle(s, c, v, t, peers) && Idle(s, v, c, t, peers)
    ensures Exec(s, [TickNode(c, t + 1)]) == Running(s1) && StoodUp(s, c, t + 1, s1)
    ensures v in s1.nodes && s1.nodes[v] == s.nodes[v] && Request(c, v, t + 1) in s1.flight
  {
    StandStep(s, c, t + 1);
    ExecOne(s, TickNode(c, t + 1));
    s1 := Apply(s, TickNode(c, t + 1)).state;
  }

  lemma GrantsAgain(s1: State, c: int, v: int, t: int) returns (s': State)
    requires v in s1.nodes && s1.nodes[v].id == v && s1.nodes[v].term < t && Request(c, v, t) in s1.flight
    ensures Exec(s1, [Deliver(Request(c, v, t), t)]) == Running(s')
    ensures s'.nodes == s1.nodes[v := s1.nodes[v].(role := Follower, term := t, votedFor := c, votesReceived := 0)]
    ensures s'.flight == s1.flight - multiset{Request(c, v, t)} + multiset{Grant(v, c, t)}
  {
    GrantStep(s1, c, v, t, t);
    ExecOne(s1, Deliver(Request(c, v, t), t));
    s' := Apply(s1, Deliver(Request(c, v, t), t)).state;
  }

  lemma StillIdle(s: State, s1: State, s': State, c: int, v: int, t: int, peers: nat)
    requires c != v && Idle(s, c, v, t, peers) && Idle(s, v, c, t, peers) && StoodUp(s, c, t + 1, s1) && v in s1.nodes
    requires s'.nodes == s1.nodes[v := s1.nodes[v].(role := Follower, term := t + 1, votedFor := c, votesReceived := 0)]
    ensures Idle(s', c, v, t + 1, peers) && Idle(s', v, c, t + 1, peers)
  {
  }

  lemma VotesStay(before: multiset<Message>, stood: multiset<Message>, after: multiset<Message>, ask: Message)
    requires before <= stood && stood - multiset{ask} <= after && ask.kind == RequestVoteReq
    ensures forall m :: m in before && m.kind == RequestVoteRes ==> m in after
  {
    forall m | m in before && m.kind == RequestVoteRes
      ensures m in after
    {
      assert m in stood && m in stood - multiset{ask};
    }
  }

  lemma {:induction false} DuelRounds(n: nat, k: nat) returns (acts: seq<Action>, s: State)
    requires n >= 2
    ensures NoCopies(acts) && Exec(Fleet(n), acts) == Running(s) && Dueling(s, k, n - 1)
    decreases k
  {
    if k == 0 {
      acts, s := [], Fleet(n);
      FleetRests(n, 1);
      FleetRests(n, 2);
    } else {
      var acts0, s0 := DuelRounds(n, k - 1);
      var acts1, s1 := DuelRound(s0, k, n - 1);
      InSequence(Fleet(n), acts0, s0, acts1, s1);
      acts, s := acts0 + acts1, s1;
    }
  }

  lemma DuelRound(s0: State, k: nat, peers: nat) returns (acts: seq<Action>, s: State)
    requires k >= 1 && Dueling(s0, k - 1, peers)
    ensures NoCopies(acts) && Exec(s0, acts) == Running(s) && Dueling(s, k, peers)
  {
    var t := 2 * (k - 1);
    var acts1, s1 := HalfRound(s0, 1, 2, t, peers);
    var acts2, s2 := HalfRound(s1, 2, 1, t + 1, peers);
    DuelGoesOn(s0, s1, s2, k, peers);
    InSequence(s0, acts1, s1, acts2, s2);
    acts, s := acts1 + acts2, s2;
  }

  lemma DuelGoesOn(s0: State, s1: State, s: State, k: nat, peers: nat)
    requires k >= 1 && Dueling(s0, k - 1, peers)
    requires Grant(2, 1, 2 * k - 1) in s1.flight && Grant(1, 2, 2 * k) in s.flight
    requires forall m :: m in s0.flight && m.kind == RequestVoteRes ==> m in s1.flight
    requires forall m :: m in s1.flight && m.kind == RequestVoteRes ==> m in s.flight
    requires Idle(s, 1, 2, 2 * k, peers) && Idle(s, 2, 1, 2 * k, peers)
    ensures Dueling(s, k, peers)
  {
    forall i | 0 <= i < k
      ensures Grant(2, 1, 1 + 2 * i) in s.flight && Grant(1, 2, 2 + 2 * i) in s.flight
    {
      if i == k - 1 {
        assert 1 + 2 * i == 2 * k - 1 && 2 + 2 * i == 2 * k;
      } else {
        assert Grant(2, 1, 1 + 2 * i) in s0.flight && Grant(1, 2, 2 + 2 * i) in s0.flight;
      }
    }
  }

  /** Both stand in the same term. */
  lemma BothStand(s: State, k: nat, peers: nat) returns (s': State)
    requires Dueling(s, k, peers) && k >= 1
    ensures var acts := [TickNode(1, 2 * k + 1), TickNode(2, 2 * k + 1)];
      NoCopies(acts) && Exec(s, acts) == Running(s')
    ensures Stood(s', 1, 2 * k + 1, peers) && Stood(s', 2, 2 * k + 1, peers) && 2 in s'.nodes[1].peers
    ensures forall i :: 0 <= i < k ==> Grant(2, 1, 1 + 2 * i) in s'.flight && Grant(1, 2, 2 + 2 * i) in s'.flight
  {
    var now := 2 * k + 1;
    StandStep(s, 1, now);
    var s1 := Apply(s, TickNode(1, now)).state;
    StandStep(s1, 2, now);
    s' := Apply(s1, TickNode(2, now)).state;
    ExecTwo(s, s1, s', TickNode(1, now), TickNode(2, now));
    assert s.flight <= s'.flight;
  }

  /** Candidate `c` counts the votes of `v` from every other term. */
  lemma CountsLate(s: State, c: int, v: int, first: int, k: nat, peers: nat) returns (acts: seq<Action>, s': State)
    requires Enough(1, k, peers) && Stood(s, c, 2 * k + 1, peers) && first <= 2
    requires forall i :: 0 <= i < k ==> Grant(v, c, first + 2 * i) in s.flight
    ensures NoCopies(acts) && Exec(s, acts) == Running(s') && Leads(s', c, 2 * k + 1)
    ensures s'.nodes == s.nodes[c := s'.nodes[c]] && s'.nodes[c].peers == s.nodes[c].peers && Beats(s', c, 2 * k + 1)
    ensures forall m: Message :: !(m.kind == RequestVoteRes && m.to == c) ==> s.flight[m] <= s'.flight[m]
  {
    EveryOtherDue(s.flight, v, c, first, k);
    acts, s' := CountAll(s, v, c, EveryOther(first, k), 0);
  }

  /** Each of the two counts the votes it was granted in earlier terms. */
  lemma BothCount(s: State, k: nat, peers: nat) returns (acts: seq<Action>, s': State)
    requires Enough(1, k, peers) && Stood(s, 1, 2 * k + 1, peers) && Stood(s, 2, 2 * k + 1, peers)
    requires 2 in s.nodes[1].peers
    requires forall i :: 0 <= i < k ==> Grant(2, 1, 1 + 2 * i) in s.flight && Grant(1, 2, 2 + 2 * i) in s.flight
    ensures NoCopies(acts) && Exec(s, acts) == Running(s') && Leads(s', 1, 2 * k + 1) && Leads(s', 2, 2 * k + 1)
    ensures Heartbeat(1, 2, 2 * k + 1) in s'.flight
  {
    var acts1, s1 := CountsLate(s, 1, 2, 1, k, peers);
    forall i | 0 <= i < k
      ensures Grant(1, 2, 2 + 2 * i) in s1.flight
    {
      assert s.flight[Grant(1, 2, 2 + 2 * i)] <= s1.flight[Grant(1, 2, 2 + 2 * i)];
    }
    var acts2, s2 := CountsLate(s1, 2, 1, 2, k, peers);
    assert s1.flight[Heartbeat(1, 2, 2 * k + 1)] <= s2.flight[Heartbeat(1, 2, 2 * k + 1)];
    InSequence(s, acts1, s1, acts2, s2);
    acts, s' := acts1 + acts2, s2;
  }

  lemma EnoughRounds(peers: nat) returns (k: nat)
    requires peers >= 1
    ensures k >= 1 && Enough(1, k, peers)
  {
    k := if peers <= 2 then 1 else peers / 2;
  }

  /**
    Two nodes or more, nothing copied: nodes 1 and 2 grant each other votes in alternate terms, all delayed,
    then stand in the same term and count them.
   */
  lemma LateVoteSplits(n: nat) returns (acts: seq<Action>)
    requires n >= 2
    ensures NoCopies(acts) && !OneLeaderPerTerm(Fleet(n), acts) && Exec(Fleet(n), acts).Crashed?
  {
    var k := EnoughRounds(n - 1);
    var acts1, s1 := DuelRounds(n, k);
    var s2 := BothStand(s1, k, n - 1);
    var stands := [TickNode(1, 2 * k + 1), TickNode(2, 2 * k + 1)];
    var acts3, s3 := BothCount(s2, k, n - 1);
    InSequence(Fleet(n), acts1, s1, stands, s2);
    InSequence(Fleet(n), acts1 + stands, s2, acts3, s3);
    acts := ThenPanics(Fleet(n), acts1 + stands + acts3, s3, 2 * k + 1);
  }

  // ----- every combination -----

  lemma {:induction false} TimelyMeans(s: State, acts: seq<Action>)
    ensures NoCopies(acts) && PunctualRun(s, acts) ==> TimelyRun(s, acts)
    ensures TimelyRun(s, acts) ==> PunctualRun(s, acts)
    decreases |acts|
  {
    if acts != [] {
      assert acts == [acts[0]] + acts[1..];
      if Apply(s, acts[0]).Running? {
        TimelyMeans(Apply(s, acts[0]).state, acts[1..]);
      }
    }
  }

  /**
    Every fresh cluster of `n` nodes has at most one leader per term, whatever the network does within what is
    permitted.
   */
  ghost predicate AlwaysSafe(n: nat, copies: bool, late: bool) {
    forall s, acts :: Initial(s) && |s.nodes| == n && Permitted(s, acts, copies, late) ==> OneLeaderPerTerm(s, acts)
  }

  /** No fresh cluster of `n` nodes ever panics, whatever the network does within what is permitted. */
  ghost predicate AlwaysRuns(n: nat, copies: bool, late: bool) {
    forall s, acts :: Initial(s) && |s.nodes| == n && Permitted(s, acts, copies, late) ==> Exec(s, acts).Running?
  }

  /** A single node has nobody to send to. */
  lemma {:induction false} AloneRuns(s: State, acts: seq<Action>)
    requires Configured(s.nodes) && |s.nodes| <= 1 && s.flight == multiset{}
    ensures Exec(s, acts).Running?
    decreases |acts|
  {
    if acts != [] {
      var a := acts[0];
      if a.TickNode? && a.id in s.nodes {
        AloneSendsNothing(s, a.id, a.now);
      }
      AloneRuns(Apply(s, a).state, acts[1..]);
    }
  }

  lemma AloneSendsNothing(s: State, i: int, now: int)
    requires Configured(s.nodes) && |s.nodes| <= 1 && s.flight == multiset{} && i in s.nodes
    ensures var r := Apply(s, TickNode(i, now));
      r.Running? && Configured(r.state.nodes) && |r.state.nodes| <= 1 && r.state.flight == multiset{}
  {
    PeerCount(s.nodes, i);
    StepKeeps(s.nodes[i], Tick, now);
    ActionKeeps(s, TickNode(i, now));
    assert |Apply(s, TickNode(i, now)).state.nodes.Keys| == |s.nodes.Keys|;
  }

  lemma SafeWhen(n: nat, copies: bool, late: bool, s: State, acts: seq<Action>)
    requires SafeFor(n, copies, late) && Initial(s) && |s.nodes| == n && Permitted(s, acts, copies, late)
    ensures OneLeaderPerTerm(s, acts) && Exec(s, acts).Running?
  {
    if late {
      AloneIsSafe(s, acts);
      AloneRuns(s, acts);
    } else if copies {
      CopySafety(s, acts);
    } else {
      TimelyMeans(s, acts);
      ElectionSafety(s, acts);
      NeverPanics(s, acts);
    }
  }

  lemma SplitsUnless(n: nat, copies: bool, late: bool) returns (acts: seq<Action>)
    requires !SafeFor(n, copies, late)
    ensures Permitted(Fleet(n), acts, copies, late) && !OneLeaderPerTerm(Fleet(n), acts)
    ensures Exec(Fleet(n), acts).Crashed?
  {
    if late {
      acts := LateVoteSplits(n);
    } else if copies {
      acts := RepeatedVoteSplits(n);
    } else {
      acts := EvenSplits(n);
      TimelyMeans(Fleet(n), acts);
    }
  }

  /**
    The exact delivery conditions of the code: without copies and late votes it is safe for odd sizes and up to
    two nodes; with copies for up to three nodes; with late votes, copied or not, for a single node only. Exactly
    then, too, no schedule reaches a panic.
   */
  lemma DeliveryExactly(n: nat, copies: bool, late: bool)
    ensures AlwaysSafe(n, copies, late) <==> SafeFor(n, copies, late)
    ensures AlwaysRuns(n, copies, late) <==> SafeFor(n, copies, late)
  {
    if SafeFor(n, copies, late) {
      forall s, acts | Initial(s) && |s.nodes| == n && Permitted(s, acts, copies, late)
        ensures OneLeaderPerTerm(s, acts) && Exec(s, acts).Running?
      {
        SafeWhen(n, copies, late, s, acts);
      }
    } else {
      var acts := SplitsUnless(n, copies, late);
      FleetInitial(n);
    }
  }
}
