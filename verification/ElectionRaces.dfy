/**
  Runs of the election in which a delayed store of a term does harm.  Each run is built step
  by step; the lemmas named after steps say what a step does to a whole system state.
 */
module ElectionRaces {
  import opened Options
  import opened ClusterNode
  import opened Election

  // ---------- building runs ----------

  // A run whose last state is `s`.
  ghost predicate Leads(r: Run, members: set<Name>, s: System) {
    IsRun(r) && r.members == members && r.states[|r.steps|] == s
  }

  // `step` leads from `s` to `s'`.
  ghost predicate Goes(s: System, members: set<Name>, step: Step, s': System) {
    Members(s, members) && Enabled(s, members, step) && Apply(s, members, step) == s'
  }

  // `r'` continues `r` by one step.
  ghost predicate Continues(r: Run, r': Run, step: Step) {
    r.states <= r'.states && r'.steps == r.steps + [step]
  }

  lemma Then(r: Run, members: set<Name>, s: System, step: Step, s': System) returns (r': Run)
    requires Leads(r, members, s) && Goes(s, members, step, s')
    ensures Leads(r', members, s') && Continues(r, r', step)
  {
    hide Apply, Enabled, Init;
    r' := Run(members, r.states + [s'], r.steps + [step]);
    forall i | 0 <= i < |r'.steps| ensures StepAt(r', i) {
      assert r'.states[i] == r.states[i];
      if i < |r.steps| {
        assert StepAt(r, i);
        assert r'.states[i + 1] == r.states[i + 1] && r'.steps[i] == r.steps[i];
      } else {
        assert r'.steps[i] == step;
      }
    }
  }

  function Fresh(n: Name): NodeState {
    NodeState(n, 0, Follower, None, map[], [])
  }

  function Start(members: set<Name>): System {
    System(map n | n in members :: Fresh(n), map n | n in members :: Idle, map[], {}, {}, {}, {}, {}, {}, {}, {})
  }

  lemma StartRun(members: set<Name>) returns (r: Run)
    ensures Leads(r, members, Start(members)) && r.steps == []
  {
    r := Run(members, [Start(members)], []);
  }

  // ---------- what steps do ----------

  function Loaded(s: System, n: Name): System
    requires n in s.nodes
  {
    s.(phase := s.phase[n := Bumping(s.nodes[n].term)])
  }

  lemma Load(s: System, members: set<Name>, n: Name)
    requires Members(s, members) && n in members && s.phase[n] == Idle
    ensures Goes(s, members, LoadTerm(n), Loaded(s, n))
  {
    var step := LoadTerm(n);
    assert Enabled(s, members, step) && NodeAfter(s, members, step) == s.nodes[n];
    assert PhaseAfter(s, members, step) == Bumping(s.nodes[n].term);
    assert SigningAfter(s, members, step) == s.signing;
    hide Enabled, NodeAfter, PhaseAfter, SigningAfter;
    assert s.nodes[n := s.nodes[n]] == s.nodes;
  }

  function Stored(s: System, n: Name, t: int): System
    requires n in s.nodes
  {
    s.(nodes := s.nodes[n := s.nodes[n].(term := t)], phase := s.phase[n := Campaigning(t)])
  }

  lemma Store(s: System, members: set<Name>, n: Name, x: int)
    requires Members(s, members) && n in members && s.phase[n] == Bumping(x)
    ensures Goes(s, members, StoreBumpedTerm(n), Stored(s, n, x + 1))
  {
    var step := StoreBumpedTerm(n);
    assert Enabled(s, members, step) && NodeAfter(s, members, step) == s.nodes[n].(term := x + 1);
    assert PhaseAfter(s, members, step) == Campaigning(x + 1);
    assert SigningAfter(s, members, step) == s.signing;
    hide Enabled, NodeAfter, PhaseAfter, SigningAfter;
  }

  function SelfVoted(s: System, n: Name, t: int): System
    requires n in s.nodes
  {
    s.(nodes := s.nodes[n := s.nodes[n].(role := Candidate, votes := s.nodes[n].votes[t := n])],
       phase := s.phase[n := Voting(t)], requests := s.requests + {VoteRequest(n, t)})
  }

  lemma SelfVote(s: System, members: set<Name>, n: Name, t: int)
    requires Members(s, members) && n in members && s.phase[n] == Campaigning(t)
    requires s.nodes[n].role == Follower && t !in s.nodes[n].votes
    ensures Goes(s, members, VoteForSelf(n), SelfVoted(s, n, t))
  {
    var step := VoteForSelf(n);
    assert Enabled(s, members, step);
    assert NodeAfter(s, members, step) == s.nodes[n].(role := Candidate, votes := s.nodes[n].votes[t := n]);
    assert PhaseAfter(s, members, step) == Voting(t) && VotedFor(s.nodes[n], t, n) == n;
    assert SigningAfter(s, members, step) == s.signing;
    hide Enabled, NodeAfter, PhaseAfter, VotedFor, SigningAfter;
  }

  function Resigned(s: System, n: Name): System
    requires n in s.nodes
  {
    s.(nodes := s.nodes[n := s.nodes[n].(role := Follower)], phase := s.phase[n := Idle])
  }

  // An attempt without enough votes ends.
  lemma Lose(s: System, members: set<Name>, n: Name)
    requires Members(s, members) && n in members && s.phase[n].Voting?
    requires s.nodes[n].role == Candidate && s.nodes[n].leader == None
    ensures Goes(s, members, GiveUp(n), Resigned(s, n))
  {
    var step := GiveUp(n);
    assert Enabled(s, members, step) && NodeAfter(s, members, step) == s.nodes[n].(role := Follower);
    assert PhaseAfter(s, members, step) == Idle;
    assert SigningAfter(s, members, step) == s.signing;
    hide Enabled, NodeAfter, PhaseAfter, SigningAfter;
  }

  // A node that has already voted for another leaves its attempt.
  lemma FailSelfVote(s: System, members: set<Name>, n: Name, t: int)
    requires Members(s, members) && n in members && s.phase[n] == Campaigning(t)
    requires s.nodes[n].role == Follower && s.nodes[n].leader == None && t in s.nodes[n].votes && s.nodes[n].votes[t] != n
    ensures Goes(s, members, VoteForSelf(n), s.(phase := s.phase[n := Idle]))
  {
    var step := VoteForSelf(n);
    assert Enabled(s, members, step) && NodeAfter(s, members, step) == s.nodes[n];
    assert PhaseAfter(s, members, step) == Idle && VotedFor(s.nodes[n], t, n) != n && SigningAfter(s, members, step) == s.signing;
    hide Enabled, NodeAfter, PhaseAfter, VotedFor, SigningAfter;
    assert s.nodes[n := s.nodes[n]] == s.nodes;
  }

  function Granted(s: System, n: Name, request: VoteRequest): System
    requires n in s.nodes
  {
    s.(nodes := s.nodes[n := s.nodes[n].(votes := s.nodes[n].votes[request.term := request.from])],
       votes := s.votes + {VoteReply(n, request.term, request.from, true)})
  }

  // A follower without a leader grants its first vote of a term.
  lemma Vote(s: System, members: set<Name>, n: Name, request: VoteRequest)
    requires Members(s, members) && n in members && request in s.requests && n != request.from && n !in s.signing
    requires s.nodes[n].role == Follower && s.nodes[n].leader == None && request.term !in s.nodes[n].votes
    ensures Goes(s, members, AnswerAskVote(n, request, false), Granted(s, n, request))
  {
    var step := AnswerAskVote(n, request, false);
    var me := s.nodes[n];
    assert Enabled(s, members, step);
    assert me.events + [] == me.events;
    assert NodeAfter(s, members, step) == me.(votes := me.votes[request.term := request.from]);
    assert PhaseAfter(s, members, step) == s.phase[n] && SigningAfter(s, members, step) == s.signing;
    assert VotedFor(me, request.term, request.from) == request.from && Grants(me, request, false);
    hide Enabled, NodeAfter, PhaseAfter, VotedFor, Grants, SigningAfter;
    assert s.phase[n := s.phase[n]] == s.phase;
  }

  lemma TwoAreEnough(members: set<Name>, x: Name, y: Name)
    requires |members| <= 3 && x != y
    ensures Quorum(|members|) <= |{x} + {y}|
  {
    assert |{x} + {y}| == 2;
  }

  function Won(s: System, n: Name, t: int, voter: Name): System {
    s.(phase := s.phase[n := Broadcasting(t)], broadcasts := s.broadcasts + {Broadcast(n, t, n)},
       wins := s.wins + {Win(n, t, {voter} + {n})})
  }

  lemma VotesSuffice(s: System, members: set<Name>, n: Name, t: int, voter: Name)
    requires Members(s, members) && n in members && s.phase[n] == Voting(t) && |members| <= 3
    requires voter != n && VoteReply(voter, t, n, true) in s.votes
    ensures Enabled(s, members, PassVoteGate(n, {voter}))
    ensures NodeAfter(s, members, PassVoteGate(n, {voter})) == s.nodes[n]
    ensures PhaseAfter(s, members, PassVoteGate(n, {voter})) == Broadcasting(t)
    ensures SigningAfter(s, members, PassVoteGate(n, {voter})) == s.signing
  {
    hide Quorum;
    TwoAreEnough(members, voter, n);
  }

  lemma PassVotes(s: System, members: set<Name>, n: Name, t: int, voter: Name)
    requires Members(s, members) && n in members && s.phase[n] == Voting(t) && |members| <= 3
    requires voter != n && VoteReply(voter, t, n, true) in s.votes
    ensures Goes(s, members, PassVoteGate(n, {voter}), Won(s, n, t, voter))
  {
    var step := PassVoteGate(n, {voter});
    hide Enabled, NodeAfter, PhaseAfter, SigningAfter, Quorum;
    VotesSuffice(s, members, n, t, voter);
    assert s.nodes[n := s.nodes[n]] == s.nodes;
  }

  function Checked(s: System, n: Name, message: Broadcast): System {
    s.(checked := s.checked + {Receipt(n, message)})
  }

  lemma Check(s: System, members: set<Name>, n: Name, message: Broadcast)
    requires Members(s, members) && n in members && message in s.broadcasts
    requires n != message.from && s.nodes[n].term <= message.term
    ensures Goes(s, members, CheckBroadcast(n, message), Checked(s, n, message))
  {
    var step := CheckBroadcast(n, message);
    assert Enabled(s, members, step) && NodeAfter(s, members, step) == s.nodes[n];
    assert PhaseAfter(s, members, step) == s.phase[n];
    assert SigningAfter(s, members, step) == s.signing;
    hide Enabled, NodeAfter, PhaseAfter, SigningAfter;
    assert s.nodes[n := s.nodes[n]] == s.nodes && s.phase[n := s.phase[n]] == s.phase;
  }

  // A signLeader call passes its term check ...
  function Begun(s: System, n: Name, g: Signing): System {
    s.(signing := s.signing[n := g])
  }

  lemma BeginSign(s: System, members: set<Name>, n: Name, message: Broadcast)
    requires Members(s, members) && n in members && n !in s.signing && Receipt(n, message) in s.checked
    requires CanSign(s.nodes[n], message.term)
    ensures Goes(s, members, SignBroadcast(n, message), Begun(s, n, Signing(message.leader, message.term, Handler(message))))
  {
    var step := SignBroadcast(n, message);
    assert Enabled(s, members, step) && NodeAfter(s, members, step) == s.nodes[n] && PhaseAfter(s, members, step) == s.phase[n];
    assert SigningAfter(s, members, step) == s.signing[n := Signing(message.leader, message.term, Handler(message))];
    hide Enabled, NodeAfter, PhaseAfter, SigningAfter;
    assert s.nodes[n := s.nodes[n]] == s.nodes && s.phase[n := s.phase[n]] == s.phase;
  }

  // ... and stores: called by the handler of a message ...
  function Signed(s: System, n: Name, message: Broadcast): System
    requires n in s.nodes
  {
    s.(nodes := s.nodes[n := AfterStore(s.nodes[n], message.leader, message.term)], signing := s.signing - {n},
       acks := s.acks + {Receipt(n, message)}, adopted := s.adopted + {Receipt(n, message)})
  }

  lemma EndSign(s: System, members: set<Name>, n: Name, message: Broadcast)
    requires Members(s, members) && n in members && n in s.signing
    requires s.signing[n] == Signing(message.leader, message.term, Handler(message))
    ensures Goes(s, members, FinishSign(n), Signed(s, n, message))
  {
    var step := FinishSign(n);
    assert Enabled(s, members, step);
    assert NodeAfter(s, members, step) == AfterStore(s.nodes[n], message.leader, message.term);
    assert PhaseAfter(s, members, step) == s.phase[n] && SigningAfter(s, members, step) == s.signing - {n};
    hide Enabled, NodeAfter, PhaseAfter, AfterStore, SigningAfter;
    assert s.phase[n := s.phase[n]] == s.phase;
  }

  // ... or by the candidate itself.
  lemma AcksSuffice(s: System, members: set<Name>, n: Name, t: int, acker: Name)
    requires Members(s, members) && n in members && n !in s.signing && s.phase[n] == Broadcasting(t) && |members| <= 3
    requires acker != n && Receipt(acker, Broadcast(n, t, n)) in s.acks && CanSign(s.nodes[n], t)
    ensures Enabled(s, members, PassAckGate(n, {acker}))
    ensures NodeAfter(s, members, PassAckGate(n, {acker})) == s.nodes[n]
    ensures PhaseAfter(s, members, PassAckGate(n, {acker})) == Calling
    ensures SigningAfter(s, members, PassAckGate(n, {acker})) == s.signing[n := Signing(n, t, Itself)]
  {
    hide Quorum;
    TwoAreEnough(members, acker, n);
  }

  function Called(s: System, n: Name, t: int): System {
    s.(phase := s.phase[n := Calling], signing := s.signing[n := Signing(n, t, Itself)])
  }

  lemma PassAcks(s: System, members: set<Name>, n: Name, t: int, acker: Name)
    requires Members(s, members) && n in members && n !in s.signing && s.phase[n] == Broadcasting(t) && |members| <= 3
    requires acker != n && Receipt(acker, Broadcast(n, t, n)) in s.acks && CanSign(s.nodes[n], t)
    ensures Goes(s, members, PassAckGate(n, {acker}), Called(s, n, t))
  {
    hide Enabled, NodeAfter, PhaseAfter, SigningAfter, Quorum;
    AcksSuffice(s, members, n, t, acker);
    assert s.nodes[n := s.nodes[n]] == s.nodes;
  }

  function Elected(s: System, n: Name, t: int): System
    requires n in s.nodes
  {
    s.(nodes := s.nodes[n := AfterStore(s.nodes[n], n, t)], phase := s.phase[n := Idle], signing := s.signing - {n})
  }

  lemma Elect(s: System, members: set<Name>, n: Name, t: int)
    requires Members(s, members) && n in members && n in s.signing && s.signing[n] == Signing(n, t, Itself)
    ensures Goes(s, members, FinishSign(n), Elected(s, n, t))
  {
    var step := FinishSign(n);
    assert Enabled(s, members, step) && NodeAfter(s, members, step) == AfterStore(s.nodes[n], n, t);
    assert PhaseAfter(s, members, step) == Idle && SigningAfter(s, members, step) == s.signing - {n};
    hide Enabled, NodeAfter, PhaseAfter, AfterStore, SigningAfter;
  }

  // ---------- a term that falls ----------

  // Node `a` has loaded term 0, and `b` stands for term 1 ...
  lemma RaceBegins(members: set<Name>, a: Name, b: Name) returns (r: Run, s: System)
    requires a in members && b in members && a != b
    ensures Leads(r, members, s) && Members(s, members) && s.signing == map[] && s.broadcasts == {}
    ensures s.nodes == Start(members).nodes[b := Fresh(b).(term := 1)]
    ensures s.phase == Start(members).phase[a := Bumping(0)][b := Campaigning(1)]
  {
    hide Leads, Goes, Continues, IsRun;
    var s0 := Start(members);
    r := StartRun(members);
    Load(s0, members, a);
    var s1 := Loaded(s0, a);
    r := Then(r, members, s0, LoadTerm(a), s1);
    Load(s1, members, b);
    var s2 := Loaded(s1, b);
    r := Then(r, members, s1, LoadTerm(b), s2);
    Store(s2, members, b, 0);
    s := Stored(s2, b, 1);
    r := Then(r, members, s2, StoreBumpedTerm(b), s);
  }

  // ... but gets no votes.
  lemma FirstAttempt(members: set<Name>, a: Name, b: Name) returns (r: Run, s: System)
    requires a in members && b in members && a != b
    ensures Leads(r, members, s) && Members(s, members) && s.signing == map[] && s.broadcasts == {}
    ensures s.nodes == Start(members).nodes[b := Fresh(b).(term := 1, votes := map[1 := b])]
    ensures s.phase == Start(members).phase[a := Bumping(0)][b := Idle]
  {
    hide Leads, Goes, Continues, IsRun;
    var s0;
    r, s0 := RaceBegins(members, a, b);
    SelfVote(s0, members, b, 1);
    var s1 := SelfVoted(s0, b, 1);
    r := Then(r, members, s0, VoteForSelf(b), s1);
    Lose(s1, members, b);
    s := Resigned(s1, b);
    r := Then(r, members, s1, GiveUp(b), s);
  }

  // Then `b` stands for term 2.
  lemma SecondAttempt(members: set<Name>, a: Name, b: Name) returns (r: Run, s: System)
    requires a in members && b in members && a != b
    ensures Leads(r, members, s) && Members(s, members) && s.signing == map[] && s.broadcasts == {}
    ensures s.nodes == Start(members).nodes[b := Fresh(b).(term := 2, role := Candidate, votes := map[1 := b, 2 := b])]
    ensures s.phase == Start(members).phase[a := Bumping(0)][b := Voting(2)]
    ensures VoteRequest(b, 2) in s.requests
  {
    hide Leads, Goes, Continues, IsRun, BumpsAtomic;
    var s0;
    r, s0 := FirstAttempt(members, a, b);
    var s2;
    r, s2 := Bump(r, members, s0, b);
    SelfVote(s2, members, b, 2);
    s := SelfVoted(s2, b, 2);
    r := Then(r, members, s2, VoteForSelf(b), s);
  }

  function Overtaken(a: Name, b: Name): NodeState {
    NodeState(a, 2, Follower, Some(b), map[2 := b], [SignFollower(b)])
  }

  // What holds once `a` has taken `b` as its leader of term 2, still about to store term 1.
  ghost predicate Raced(s: System, members: set<Name>, a: Name, b: Name) {
    && Members(s, members) && a in members && b in members && a != b && s.signing == map[]
    && s.nodes[a] == Overtaken(a, b) && s.phase[a] == Bumping(0) && s.nodes[b].term == 2
    && s.broadcasts == {Broadcast(b, 2, b)} && Receipt(a, Broadcast(b, 2, b)) in s.acks
    && forall n :: n in members && n != a && n != b ==> s.nodes[n] == Fresh(n)
  }

  // `b` wins term 2 with the vote of `a` ...
  lemma RaceWin(members: set<Name>, a: Name, b: Name) returns (r: Run, s: System)
    requires a in members && b in members && a != b && |members| <= 3
    ensures Leads(r, members, s) && Members(s, members) && s.signing == map[]
    ensures s.nodes[a] == Fresh(a).(votes := map[2 := b]) && s.phase[a] == Bumping(0) && s.nodes[b].term == 2
    ensures s.broadcasts == {Broadcast(b, 2, b)}
    ensures forall n :: n in members && n != a && n != b ==> s.nodes[n] == Fresh(n)
  {
    hide Leads, Goes, Continues, IsRun;
    var s1;
    r, s1 := SecondAttempt(members, a, b);
    Vote(s1, members, a, VoteRequest(b, 2));
    var s2 := Granted(s1, a, VoteRequest(b, 2));
    r := Then(r, members, s1, AnswerAskVote(a, VoteRequest(b, 2), false), s2);
    PassVotes(s2, members, b, 2, a);
    s := Won(s2, b, 2, a);
    r := Then(r, members, s2, PassVoteGate(b, {a}), s);
  }

  // The BroadcastLeader handler of node `n`, without anything in between.
  lemma Handle(r0: Run, members: set<Name>, s0: System, n: Name, m: Broadcast) returns (r: Run, s: System)
    requires Leads(r0, members, s0) && Members(s0, members) && n in members && n !in s0.signing
    requires m in s0.broadcasts && n != m.from && s0.nodes[n].term <= m.term
    ensures Leads(r, members, s) && r0.states <= r.states && Members(s, members) && s.signing == s0.signing
    ensures s.nodes == s0.nodes[n := AfterStore(s0.nodes[n], m.leader, m.term)] && s.phase == s0.phase
    ensures s.broadcasts == s0.broadcasts && s.acks == s0.acks + {Receipt(n, m)}
  {
    hide Leads, Goes, IsRun, AfterStore;
    Check(s0, members, n, m);
    var s1 := Checked(s0, n, m);
    var r1 := Then(r0, members, s0, CheckBroadcast(n, m), s1);
    BeginSign(s1, members, n, m);
    var s2 := Begun(s1, n, Signing(m.leader, m.term, Handler(m)));
    var r2 := Then(r1, members, s1, SignBroadcast(n, m), s2);
    EndSign(s2, members, n, m);
    s := Signed(s2, n, m);
    r := Then(r2, members, s2, FinishSign(n), s);
    assert s.signing == s0.signing;
  }

  // ... and `a` follows it.
  lemma Race(members: set<Name>, a: Name, b: Name) returns (r: Run, s: System)
    requires a in members && b in members && a != b && |members| <= 3
    ensures Leads(r, members, s) && Raced(s, members, a, b)
  {
    hide Leads, IsRun;
    var s1;
    r, s1 := RaceWin(members, a, b);
    r, s := Handle(r, members, s1, a, Broadcast(b, 2, b));
  }

  /**
    Because the load and the store of the term bump are separate, some run of any cluster of
    two or three nodes ends with a node whose term has fallen below that of its leader.
   */
  lemma TermsCanFall(members: set<Name>, a: Name, b: Name) returns (r: Run, s: System, s': System)
    requires a in members && b in members && a != b && |members| <= 3
    ensures Leads(r, members, s) && Goes(s, members, StoreBumpedTerm(a), s') && StaleStore(s, members, StoreBumpedTerm(a))
    ensures a in s.nodes && s.nodes[a].term == 2 && s.nodes[a].leader == Some(b)
    ensures s'.nodes == s.nodes[a := s.nodes[a].(term := 1)]
  {
    hide Leads, IsRun, Enabled, Apply, Goes;
    r, s := Race(members, a, b);
    Store(s, members, a, 0);
    s' := Stored(s, a, 1);
    BumpIsStale(s, s', members, a);
  }

  lemma BumpIsStale(s: System, s': System, members: set<Name>, a: Name)
    requires Goes(s, members, StoreBumpedTerm(a), s') && a in members && s.phase[a] == Bumping(0) && 1 < s.nodes[a].term
    ensures StaleStore(s, members, StoreBumpedTerm(a))
  {
    hide Enabled, Apply;
  }

  // ---------- a fence that breaks ----------

  // After the stale store, `a` stands for term 1 ...
  lemma LateCandidate(r0: Run, s0: System, a: Name, b: Name, c: Name) returns (r: Run, s: System)
    requires c != a && c != b && Leads(r0, {a, b, c}, s0) && Raced(s0, {a, b, c}, a, b)
    ensures r0.states <= r.states && Leads(r, {a, b, c}, s) && Members(s, {a, b, c}) && s.signing == map[]
    ensures s.phase[a] == Voting(1) && s.nodes[a].name == a && s.nodes[a].term == 1 && s.nodes[c] == Fresh(c)
    ensures VoteRequest(a, 1) in s.requests
  {
    hide Leads, Goes, IsRun;
    var members := {a, b, c};
    Store(s0, members, a, 0);
    var s1 := Stored(s0, a, 1);
    var r1 := Then(r0, members, s0, StoreBumpedTerm(a), s1);
    SelfVote(s1, members, a, 1);
    s := SelfVoted(s1, a, 1);
    r := Then(r1, members, s1, VoteForSelf(a), s);
  }

  // ... gets the vote of `c` ...
  lemma LateWin(r0: Run, s0: System, a: Name, b: Name, c: Name) returns (r: Run, s: System)
    requires c != a && c != b && Leads(r0, {a, b, c}, s0) && Raced(s0, {a, b, c}, a, b)
    ensures r0.states <= r.states && Leads(r, {a, b, c}, s) && Members(s, {a, b, c}) && s.signing == map[]
    ensures s.phase[a] == Broadcasting(1) && s.nodes[a].name == a && s.nodes[a].term == 1 && s.nodes[c].term == 0
    ensures Broadcast(a, 1, a) in s.broadcasts
  {
    hide Leads, Goes, IsRun, Raced;
    var members := {a, b, c};
    var r1, s1 := LateCandidate(r0, s0, a, b, c);
    Vote(s1, members, c, VoteRequest(a, 1));
    var s2 := Granted(s1, c, VoteRequest(a, 1));
    var r2 := Then(r1, members, s1, AnswerAskVote(c, VoteRequest(a, 1), false), s2);
    PassVotes(s2, members, a, 1, c);
    s := Won(s2, a, 1, c);
    r := Then(r2, members, s2, PassVoteGate(a, {c}), s);
  }

  // ... and its acknowledgement.
  lemma LateAck(r0: Run, s0: System, a: Name, b: Name, c: Name) returns (r: Run, s: System)
    requires c != a && c != b && Leads(r0, {a, b, c}, s0) && Raced(s0, {a, b, c}, a, b)
    ensures r0.states <= r.states && Leads(r, {a, b, c}, s) && Members(s, {a, b, c}) && s.signing == map[]
    ensures s.phase[a] == Broadcasting(1) && s.nodes[a].name == a && s.nodes[a].term == 1
    ensures Receipt(c, Broadcast(a, 1, a)) in s.acks
  {
    hide Leads, IsRun, Raced;
    var r1, s1 := LateWin(r0, s0, a, b, c);
    r, s := Handle(r1, {a, b, c}, s1, c, Broadcast(a, 1, a));
  }

  // The ack gate opens for `a`, and its signLeader call goes through.
  lemma LateSign(r0: Run, s0: System, a: Name, b: Name, c: Name) returns (r: Run, s: System, s': System)
    requires c != a && c != b && Leads(r0, {a, b, c}, s0) && Members(s0, {a, b, c}) && s0.signing == map[]
    requires s0.phase[a] == Broadcasting(1) && s0.nodes[a].name == a && s0.nodes[a].term == 1
    requires Receipt(c, Broadcast(a, 1, a)) in s0.acks
    ensures Leads(r, {a, b, c}, s') && r.states == r0.states + [s, s'] && r.steps == r0.steps + [PassAckGate(a, {c}), FinishSign(a)]
    ensures a in s'.nodes && s'.nodes[a].role == Leader && s'.nodes[a].leader == Some(a) && s'.nodes[a].term == 1
  {
    hide Goes, Init, StepAt;
    var members := {a, b, c};
    PassAcks(s0, members, a, 1, c);
    s := Called(s0, a, 1);
    var r1 := Then(r0, members, s0, PassAckGate(a, {c}), s);
    Elect(s, members, a, 1);
    s' := Elected(s, a, 1);
    r := Then(r1, members, s, FinishSign(a), s');
    assert r1.states == r0.states + [s];
  }

  /**
    Without its condition the ack fence breaks: on some run of any three-node cluster, after
    a quorum has acknowledged term 2, a node that had not begun broadcasting becomes leader of
    term 1 through the ack gate.  The goroutine of that node resumes only after its heartbeat
    has timed out, so that its cluster is not ready.
   */
  lemma FenceCanBreak(a: Name, b: Name, c: Name) returns (r: Run, i: nat, k: nat)
    requires a != b && c != a && c != b
    ensures IsRun(r) && r.members == {a, b, c} && i <= k && k + 2 == |r.steps|
    ensures Acknowledged(r.states[i], r.members, Broadcast(b, 2, b), {a, b}) && AtLeast(r.states[i], {a, b}, 2)
    ensures Broadcast(a, 1, a) !in r.states[i].broadcasts && OpensAckGate(r, k, a, 1)
    ensures a in r.states[k].nodes && CanSign(r.states[k].nodes[a], 1)
    ensures a in r.states[k + 2].nodes && r.states[k + 2].nodes[a].role == Leader && r.states[k + 2].nodes[a].term == 1
  {
    hide Acknowledged, Raced, AtLeast, Init, StepAt;
    var r0, s0 := Race({a, b, c}, a, b);
    RacedAcknowledged(s0, a, b, c);
    i := |r0.steps|;
    var r1, s1 := LateAck(r0, s0, a, b, c);
    k := |r1.steps|;
    var s, s';
    r, s, s' := LateSign(r1, s1, a, b, c);
    assert r.states[i] == r0.states[i] == s0;
    assert r.states[k] == s1 && r.states[k + 2] == s' && r.steps[k] == PassAckGate(a, {c});
  }

  lemma RacedAcknowledged(s: System, a: Name, b: Name, c: Name)
    requires c != a && c != b && Raced(s, {a, b, c}, a, b)
    ensures Acknowledged(s, {a, b, c}, Broadcast(b, 2, b), {a, b}) && AtLeast(s, {a, b}, 2)
    ensures Broadcast(a, 1, a) !in s.broadcasts
  {
    assert |{a, b, c}| == 3 && |{a, b}| == 2;
  }

  // ---------- a sign that lowers the term ----------

  // Every store of fightingWithRetry comes right after its read.
  ghost predicate BumpsAtomic(steps: seq<Step>) {
    forall i :: 0 <= i < |steps| ==> BumpAtomicAt(steps, i)
  }

  ghost predicate BumpAtomicAt(steps: seq<Step>, i: nat)
    requires i < |steps|
  {
    && !steps[i].StoreMaxTerm?
    && (steps[i].StoreBumpedTerm? ==> 0 < i && steps[i - 1] == LoadTerm(steps[i].n))
  }

  lemma BumpsAtomicThen(steps: seq<Step>, more: seq<Step>)
    requires BumpsAtomic(steps) && BumpsAtomic(more)
    ensures BumpsAtomic(steps + more)
  {
    var all := steps + more;
    forall i | 0 <= i < |all| ensures BumpAtomicAt(all, i) {
      if i < |steps| {
        assert BumpAtomicAt(steps, i);
      } else {
        assert BumpAtomicAt(more, i - |steps|);
      }
    }
  }

  // One more step that is not a store.
  lemma ThenAtomic(r: Run, members: set<Name>, s: System, step: Step, s': System) returns (r': Run)
    requires Leads(r, members, s) && Goes(s, members, step, s') && BumpsAtomic(r.steps)
    requires !step.StoreMaxTerm? && !step.StoreBumpedTerm?
    ensures Leads(r', members, s') && BumpsAtomic(r'.steps)
  {
    hide Leads, Goes, BumpsAtomic;
    r' := Then(r, members, s, step, s');
    NoStore(step);
    BumpsAtomicThen(r.steps, [step]);
  }

  lemma NoBumps()
    ensures BumpsAtomic([])
  {
  }

  lemma NoStore(step: Step)
    requires !step.StoreMaxTerm? && !step.StoreBumpedTerm?
    ensures BumpsAtomic([step])
  {
  }

  // Node `a` bumps its term in one go.
  lemma Bump(r0: Run, members: set<Name>, s0: System, a: Name) returns (r: Run, s: System)
    requires Leads(r0, members, s0) && Members(s0, members) && a in members && s0.phase[a] == Idle
    ensures Leads(r, members, s) && Members(s, members) && s == Stored(s0, a, s0.nodes[a].term + 1)
    ensures BumpsAtomic(r0.steps) ==> BumpsAtomic(r.steps)
  {
    hide Goes, Leads, BumpsAtomic;
    Load(s0, members, a);
    var s1 := Loaded(s0, a);
    var r1 := Then(r0, members, s0, LoadTerm(a), s1);
    Store(s1, members, a, s0.nodes[a].term);
    s := Stored(s0, a, s0.nodes[a].term + 1);
    assert s == Stored(s1, a, s0.nodes[a].term + 1);
    r := Then(r1, members, s1, StoreBumpedTerm(a), s);
    var bump := [LoadTerm(a), StoreBumpedTerm(a)];
    assert r.steps == r0.steps + bump;
    BumpIsAtomic(a);
    if BumpsAtomic(r0.steps) {
      BumpsAtomicThen(r0.steps, bump);
    }
  }

  lemma BumpIsAtomic(a: Name)
    ensures BumpsAtomic([LoadTerm(a), StoreBumpedTerm(a)])
  {
  }

  // `b` stands for term 1 and gets the vote of `a`, ...
  lemma EarlyVote(members: set<Name>, a: Name, b: Name) returns (r: Run, s: System)
    requires a in members && b in members && a != b
    ensures Leads(r, members, s) && Members(s, members) && s.signing == map[] && BumpsAtomic(r.steps)
    ensures s.nodes[a] == Fresh(a).(votes := map[1 := b]) && s.phase[a] == Idle
    ensures s.phase[b] == Voting(1) && VoteReply(a, 1, b, true) in s.votes
  {
    hide Leads, Goes, IsRun, BumpsAtomic;
    var s0 := Start(members);
    r := StartRun(members);
    NoBumps();
    var s1;
    r, s1 := Bump(r, members, s0, b);
    SelfVote(s1, members, b, 1);
    var s2 := SelfVoted(s1, b, 1);
    r := ThenAtomic(r, members, s1, VoteForSelf(b), s2);
    Vote(s2, members, a, VoteRequest(b, 1));
    s := Granted(s2, a, VoteRequest(b, 1));
    r := ThenAtomic(r, members, s2, AnswerAskVote(a, VoteRequest(b, 1), false), s);
  }

  // ... wins, and `a`, which has reached term 1 too and lost it, handles its broadcast.
  lemma EarlyWin(members: set<Name>, a: Name, b: Name) returns (r: Run, s: System)
    requires a in members && b in members && a != b && |members| <= 3
    ensures Leads(r, members, s) && Members(s, members) && s.signing == map[] && BumpsAtomic(r.steps)
    ensures s.nodes[a] == Fresh(a).(term := 1, votes := map[1 := b]) && s.phase[a] == Idle
    ensures Broadcast(b, 1, b) in s.broadcasts
  {
    hide Leads, Goes, IsRun, BumpsAtomic;
    var s0, s2;
    r, s0 := EarlyVote(members, a, b);
    PassVotes(s0, members, b, 1, a);
    var s1 := Won(s0, b, 1, a);
    r := ThenAtomic(r, members, s0, PassVoteGate(b, {a}), s1);
    r, s2 := Bump(r, members, s1, a);
    FailSelfVote(s2, members, a, 1);
    s := s2.(phase := s2.phase[a := Idle]);
    r := ThenAtomic(r, members, s2, VoteForSelf(a), s);
  }

  /**
    Even if every bump were one step, signLeader lowers a term: it checks the term and stores
    it later, and its lock does not keep the bump out.
   */
  lemma SignCanLowerTerm(members: set<Name>, a: Name, b: Name) returns (r: Run, s: System, s': System)
    requires a in members && b in members && a != b && |members| <= 3
    ensures Leads(r, members, s) && BumpsAtomic(r.steps)
    ensures Goes(s, members, FinishSign(a), s') && StaleStore(s, members, FinishSign(a))
    ensures a in s.nodes && s.nodes[a].term == 2 && a in s'.nodes && s'.nodes[a].term == 1 && s'.nodes[a].leader == Some(b)
  {
    hide Leads, IsRun, BumpsAtomic, Enabled, Apply;
    var m := Broadcast(b, 1, b);
    var s0;
    r, s0 := EarlyWin(members, a, b);
    Check(s0, members, a, m);
    var s1 := Checked(s0, a, m);
    r := ThenAtomic(r, members, s0, CheckBroadcast(a, m), s1);
    BeginSign(s1, members, a, m);
    var s2 := Begun(s1, a, Signing(b, 1, Handler(m)));
    r := ThenAtomic(r, members, s1, SignBroadcast(a, m), s2);
    r, s := Bump(r, members, s2, a);
    EndSign(s, members, a, m);
    s' := Signed(s, a, m);
  }
}
