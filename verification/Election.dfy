/**
  Whole-cluster runs of the election in `cluster/cluster.go` and `cluster/grpc_server.go`,
  for a fixed membership.  A system state holds every node's state, where its single
  election goroutine stands, and every message ever sent, so that loss, delay, duplication
  and reordering are all possible.

  The three places that write the term, two in `fightingWithRetry` and one in `signLeader`,
  are each split into a read step and a write step, and the BroadcastLeader handler into its
  term check and its `signLeader` call, so other steps may come in between.  The lock that
  `signLeader` holds keeps out only the other sign and release steps of its node.
 */
module Election {
  import opened Options
  import opened ClusterNode

  // Where the election goroutine of a node stands.
  datatype Phase =
    | Idle
    | Updating(maxTerm: int)      // checked maxTerm >= term, about to store it
    | Bumping(loaded: int)        // loaded the term, about to store loaded + 1
    | Campaigning(term: int)      // about to vote for itself
    | Voting(term: int)           // AskVote requests are out
    | Broadcasting(term: int)     // BroadcastLeader requests are out
    | Calling                     // inside its own signLeader call

  datatype Broadcast = Broadcast(from: Name, term: int, leader: Name)
  datatype Receipt = Receipt(to: Name, message: Broadcast)

  // A signLeader call past its term check: called by the election goroutine itself, or by the
  // BroadcastLeader handler of a message.
  datatype Caller = Itself | Handler(message: Broadcast)
  datatype Signing = Signing(who: Name, term: int, caller: Caller)

  // History: `voters` is the set of nodes counted when `winner` passed the vote gate.
  datatype Win = Win(winner: Name, term: int, voters: set<Name>)

  datatype System = System(
    nodes: map<Name, NodeState>,
    phase: map<Name, Phase>,
    signing: map<Name, Signing>,  // the nodes whose leader lock a signLeader call holds
    requests: set<VoteRequest>,
    votes: set<VoteReply>,
    leaders: set<LeaderReply>,
    broadcasts: set<Broadcast>,
    checked: set<Receipt>,        // BroadcastLeader handlers past their term check
    acks: set<Receipt>,           // successful BroadcastLeader replies
    wins: set<Win>,               // history: passed the vote-quorum gate
    adopted: set<Receipt>)        // history: handler calls whose signLeader succeeded

  datatype Step =
    | AnswerAskLeader(n: Name, reqTerm: int, ready: bool)
    | AdoptLeader(n: Name, replies: seq<LeaderReply>, leader: Name, maxTerm: int)
    | CheckMaxTerm(n: Name, replies: seq<LeaderReply>, maxTerm: int)
    | StoreMaxTerm(n: Name)
    | LoadTerm(n: Name)
    | StoreBumpedTerm(n: Name)
    | VoteForSelf(n: Name)
    | AnswerAskVote(n: Name, request: VoteRequest, ready: bool)
    | PassVoteGate(n: Name, voters: set<Name>)
    | CheckBroadcast(n: Name, message: Broadcast)
    | SignBroadcast(n: Name, message: Broadcast)
    | PassAckGate(n: Name, ackers: set<Name>)
    | FinishSign(n: Name)
    | GiveUp(n: Name)
    | Release(n: Name)
    | StepDown(n: Name)

  ghost predicate Init(s: System, members: set<Name>) {
    && s.nodes.Keys == members && s.phase.Keys == members && s.signing == map[]
    && (forall n :: n in members ==>
          s.nodes[n] == NodeState(n, 0, Follower, None, map[], []) && s.phase[n] == Idle)
    && s.requests == {} && s.votes == {} && s.leaders == {} && s.broadcasts == {}
    && s.checked == {} && s.acks == {} && s.wins == {} && s.adopted == {}
  }

  ghost predicate Members(s: System, members: set<Name>) {
    s.nodes.Keys == members && s.phase.Keys == members && s.signing.Keys <= members
  }

  ghost predicate Enabled(s: System, members: set<Name>, step: Step)
    requires Members(s, members)
  {
    && step.n in members
    && match step
       case AnswerAskLeader(_, _, _) => true
       case AdoptLeader(n, replies, leader, maxTerm) =>
         && s.phase[n] == Idle && n !in s.signing && (forall m :: m in replies ==> m in s.leaders)
         && leader in members && Scan(replies) == (Some(leader), maxTerm)
       case CheckMaxTerm(n, replies, maxTerm) =>
         && s.phase[n] == Idle && (forall m :: m in replies ==> m in s.leaders)
         && Quorum(|members|) <= |replies| && Scan(replies).1 == maxTerm && s.nodes[n].term <= maxTerm
       case StoreMaxTerm(n) => s.phase[n].Updating?
       case LoadTerm(n) => s.phase[n] == Idle
       case StoreBumpedTerm(n) => s.phase[n].Bumping?
       case VoteForSelf(n) => s.phase[n].Campaigning? && s.nodes[n].role == Follower
       case AnswerAskVote(n, request, ready) =>
         && request in s.requests && n != request.from
         && (Grants(s.nodes[n], request, ready) ==> n !in s.signing)
       case PassVoteGate(n, voters) =>
         && s.phase[n].Voting? && n !in voters
         && (forall v :: v in voters ==> VoteReply(v, s.phase[n].term, n, true) in s.votes)
         && Quorum(|members|) <= |voters + {n}|
       case CheckBroadcast(n, message) =>
         message in s.broadcasts && n != message.from && s.nodes[n].term <= message.term
       case SignBroadcast(n, message) => Receipt(n, message) in s.checked && n !in s.signing
       case PassAckGate(n, ackers) =>
         && s.phase[n].Broadcasting? && n !in s.signing && n !in ackers
         && (forall a :: a in ackers ==> Receipt(a, Broadcast(n, s.phase[n].term, n)) in s.acks)
         && Quorum(|members|) <= |ackers + {n}|
       case FinishSign(n) => n in s.signing
       case GiveUp(n) => s.phase[n] != Calling
       case Release(n) => n !in s.signing
       case StepDown(n) => n !in s.signing
  }

  // The deferred CompareAndSwap(candidate, follower) at the end of an attempt.
  function Resign(n: NodeState): NodeState {
    if n.leader == None && n.role == Candidate then n.(role := Follower) else n
  }

  // What a step does, one component of the system at a time.  Only node `step.n` changes,
  // and messages and history are only added.

  ghost function NodeAfter(s: System, members: set<Name>, step: Step): NodeState
    requires Members(s, members) && Enabled(s, members, step)
  {
    var me := s.nodes[step.n];
    match step
    case StoreMaxTerm(n) => me.(term := s.phase[n].maxTerm)
    case StoreBumpedTerm(n) => me.(term := s.phase[n].loaded + 1)
    case VoteForSelf(n) =>
      var me' := AfterVote(me.(role := Candidate), s.phase[n].term, n);
      if me'.votes[s.phase[n].term] == n then me' else Resign(me')
    case AnswerAskVote(_, request, ready) => AfterAskVote(me, request, ready)
    case FinishSign(n) => AfterStore(me, s.signing[n].who, s.signing[n].term)
    case GiveUp(_) => Resign(me)
    case Release(_) => AfterRelease(me)
    case StepDown(n) => AfterStepDown(me, n)
    case _ => me
  }

  ghost function PhaseAfter(s: System, members: set<Name>, step: Step): Phase
    requires Members(s, members) && Enabled(s, members, step)
  {
    match step
    case CheckMaxTerm(_, _, maxTerm) => Updating(maxTerm)
    case LoadTerm(n) => Bumping(s.nodes[n].term)
    case StoreBumpedTerm(n) => Campaigning(s.phase[n].loaded + 1)
    case VoteForSelf(n) =>
      if VotedFor(s.nodes[n], s.phase[n].term, n) == n then Voting(s.phase[n].term) else Idle
    case PassVoteGate(n, _) => Broadcasting(s.phase[n].term)
    case StoreMaxTerm(_) => Idle
    case AdoptLeader(n, _, _, maxTerm) => if CanSign(s.nodes[n], maxTerm) then Calling else Idle
    case PassAckGate(n, _) => if CanSign(s.nodes[n], s.phase[n].term) then Calling else Idle
    case FinishSign(n) => if s.signing[n].caller == Itself then Idle else s.phase[n]
    case GiveUp(_) => Idle
    case _ => s.phase[step.n]
  }

  // The signLeader call that a step begins, with its term check passed.
  ghost function Begun(s: System, members: set<Name>, step: Step): Option<Signing>
    requires Members(s, members) && Enabled(s, members, step)
  {
    var me := s.nodes[step.n];
    match step
    case AdoptLeader(_, _, leader, maxTerm) =>
      if CanSign(me, maxTerm) then Some(Signing(leader, maxTerm, Itself)) else None
    case SignBroadcast(_, message) =>
      if CanSign(me, message.term) then Some(Signing(message.leader, message.term, Handler(message))) else None
    case PassAckGate(n, _) =>
      if CanSign(me, s.phase[n].term) then Some(Signing(n, s.phase[n].term, Itself)) else None
    case _ => None
  }

  ghost function SigningAfter(s: System, members: set<Name>, step: Step): map<Name, Signing>
    requires Members(s, members) && Enabled(s, members, step)
  {
    if step.FinishSign? then s.signing - {step.n}
    else if Begun(s, members, step).Some? then s.signing[step.n := Begun(s, members, step).value]
    else s.signing
  }

  // The handler that a step brings to its end with a successful reply.
  ghost function Acked(s: System, members: set<Name>, step: Step): set<Receipt>
    requires Members(s, members) && Enabled(s, members, step)
  {
    if step.SignBroadcast? && !CanSign(s.nodes[step.n], step.message.term) then {Receipt(step.n, step.message)}
    else Adopted(s, members, step)
  }

  ghost function Adopted(s: System, members: set<Name>, step: Step): set<Receipt>
    requires Members(s, members) && Enabled(s, members, step)
  {
    if step.FinishSign? && s.signing[step.n].caller.Handler? then {Receipt(step.n, s.signing[step.n].caller.message)} else {}
  }

  ghost function Apply(s: System, members: set<Name>, step: Step): System
    requires Members(s, members) && Enabled(s, members, step)
  {
    var n := step.n;
    var me := s.nodes[n];
    System(
      s.nodes[n := NodeAfter(s, members, step)],
      s.phase[n := PhaseAfter(s, members, step)],
      SigningAfter(s, members, step),
      s.requests +
      (if step.VoteForSelf? && VotedFor(me, s.phase[n].term, n) == n then {VoteRequest(n, s.phase[n].term)} else {}),
      s.votes +
      (if step.AnswerAskVote?
       then {VoteReply(n, step.request.term, VotedFor(me, step.request.term, step.request.from),
                       Grants(me, step.request, step.ready))}
       else {}),
      s.leaders + (if step.AnswerAskLeader? then {AskLeaderReply(me, step.reqTerm, step.ready)} else {}),
      s.broadcasts + (if step.PassVoteGate? then {Broadcast(n, s.phase[n].term, n)} else {}),
      s.checked + (if step.CheckBroadcast? then {Receipt(n, step.message)} else {}),
      s.acks + Acked(s, members, step),
      s.wins + (if step.PassVoteGate? then {Win(n, s.phase[n].term, step.voters + {n})} else {}),
      s.adopted + Adopted(s, members, step))
  }

  // ---------- runs ----------

  datatype Run = Run(members: set<Name>, states: seq<System>, steps: seq<Step>)

  ghost predicate IsRun(r: Run) {
    && |r.states| == |r.steps| + 1
    && Init(r.states[0], r.members)
    && forall i :: 0 <= i < |r.steps| ==> StepAt(r, i)
  }

  ghost predicate StepAt(r: Run, i: nat)
    requires |r.states| == |r.steps| + 1 && i < |r.steps|
  {
    && Members(r.states[i], r.members)
    && Enabled(r.states[i], r.members, r.steps[i])
    && r.states[i + 1] == Apply(r.states[i], r.members, r.steps[i])
  }

  // ---------- the safety invariant ----------

  ghost predicate Voted(s: System, v: Name, t: int, candidate: Name) {
    v in s.nodes && t in s.nodes[v].votes && s.nodes[v].votes[t] == candidate
  }

  // Votes and messages are only ever added.
  ghost predicate Grows(s: System, s': System) {
    && s'.nodes.Keys == s.nodes.Keys
    && (forall v, t, c :: Voted(s, v, t, c) ==> Voted(s', v, t, c))
    && s.votes <= s'.votes && s.broadcasts <= s'.broadcasts && s.wins <= s'.wins
    && s.checked <= s'.checked && s.acks <= s'.acks && s.adopted <= s'.adopted
  }

  ghost predicate WinOk(s: System, members: set<Name>, w: Win) {
    && w.voters <= members
    && Quorum(|members|) <= |w.voters|
    && forall v :: v in w.voters ==> Voted(s, v, w.term, w.winner)
  }

  ghost predicate Announces(s: System, b: Broadcast) {
    b.leader == b.from && exists w :: w in s.wins && w.winner == b.from && w.term == b.term
  }

  ghost predicate VoteInv(s: System, members: set<Name>)
    requires Members(s, members)
  {
    && (forall n :: n in members ==> s.nodes[n].name == n)
    && (forall n :: n in members && s.phase[n].Voting? ==> Voted(s, n, s.phase[n].term, n))
    && (forall m :: m in s.votes ==> Voted(s, m.from, m.term, m.votedFor))
  }

  ghost predicate Inv(s: System, members: set<Name>) {
    && Members(s, members)
    && VoteInv(s, members)
    && (forall w :: w in s.wins ==> WinOk(s, members, w))
    && (forall b :: b in s.broadcasts ==> Announces(s, b))
    && ReceiptsOk(s, members)
  }

  ghost predicate ReceiptsOk(s: System, members: set<Name>) {
    && (forall r :: r in s.checked ==> r.to in members && r.message in s.broadcasts)
    && s.acks <= s.checked && s.adopted <= s.acks
    && (forall n :: n in s.signing && s.signing[n].caller.Handler? ==> Receipt(n, s.signing[n].caller.message) in s.checked)
  }

  lemma StepFrame(s: System, members: set<Name>, step: Step)
    requires Members(s, members) && Enabled(s, members, step)
    ensures step.n in members && Members(Apply(s, members, step), members)
    ensures Apply(s, members, step).nodes == s.nodes[step.n := NodeAfter(s, members, step)]
    ensures Apply(s, members, step).phase == s.phase[step.n := PhaseAfter(s, members, step)]
    ensures Apply(s, members, step).signing == SigningAfter(s, members, step)
  {
    hide NodeAfter, PhaseAfter, Enabled, Begun, Acked, Adopted;
    ActorIsMember(s, members, step);
  }

  lemma ActorIsMember(s: System, members: set<Name>, step: Step)
    requires Members(s, members) && Enabled(s, members, step)
    ensures step.n in members
  {
  }

  // The acting node keeps its name and its votes.
  lemma NodeKeepsVotes(s: System, members: set<Name>, step: Step)
    requires Members(s, members) && Enabled(s, members, step)
    ensures NodeAfter(s, members, step).name == s.nodes[step.n].name
    ensures forall t :: t in s.nodes[step.n].votes ==>
              t in NodeAfter(s, members, step).votes && NodeAfter(s, members, step).votes[t] == s.nodes[step.n].votes[t]
  {
  }

  lemma StepGrows(s: System, members: set<Name>, step: Step)
    requires Members(s, members) && Enabled(s, members, step)
    ensures Grows(s, Apply(s, members, step))
  {
    hide NodeAfter, PhaseAfter, Enabled, Acked, Adopted, SigningAfter;
    NodeKeepsVotes(s, members, step);
    StepFrame(s, members, step);
    var s' := Apply(s, members, step);
    assert s.votes <= s'.votes && s.broadcasts <= s'.broadcasts && s.wins <= s'.wins;
    assert s.checked <= s'.checked && s.acks <= s'.acks && s.adopted <= s'.adopted;
    hide Apply;
  }

  lemma ActorVotes(s: System, members: set<Name>, step: Step)
    requires Inv(s, members) && Enabled(s, members, step)
    ensures var me, p := NodeAfter(s, members, step), PhaseAfter(s, members, step);
            && (p.Voting? ==> p.term in me.votes && me.votes[p.term] == step.n)
            && (step.AnswerAskVote? ==>
                  var t := step.request.term;
                  t in me.votes && me.votes[t] == VotedFor(s.nodes[step.n], t, step.request.from))
  {
    assert s.phase[step.n].Voting? ==> Voted(s, step.n, s.phase[step.n].term, step.n);
    hide Inv, NodeAfter, PhaseAfter;
    if step.AnswerAskVote? {
      AnswerVotes(s, members, step);
    }
    VoterVotes(s, members, step);
  }

  lemma AnswerVotes(s: System, members: set<Name>, step: Step)
    requires Members(s, members) && Enabled(s, members, step) && step.AnswerAskVote?
    ensures var me, t := NodeAfter(s, members, step), step.request.term;
            t in me.votes && me.votes[t] == VotedFor(s.nodes[step.n], t, step.request.from)
  {
  }

  lemma VoterVotes(s: System, members: set<Name>, step: Step)
    requires Members(s, members) && Enabled(s, members, step)
    requires s.phase[step.n].Voting? ==> Voted(s, step.n, s.phase[step.n].term, step.n)
    ensures var me, p := NodeAfter(s, members, step), PhaseAfter(s, members, step);
            p.Voting? ==> p.term in me.votes && me.votes[p.term] == step.n
  {
    NodeKeepsVotes(s, members, step);
    if !step.VoteForSelf? {
      hide NodeAfter;
    }
  }

  lemma StepKeepsVoteInv(s: System, members: set<Name>, step: Step)
    requires Inv(s, members) && Enabled(s, members, step)
    ensures Members(Apply(s, members, step), members)
    ensures VoteInv(Apply(s, members, step), members)
  {
    hide NodeAfter, PhaseAfter, Enabled, VotedFor, WinOk, Announces, Apply, Grows;
    StepFrame(s, members, step);
    StepGrows(s, members, step);
    NodeKeepsVotes(s, members, step);
    ActorVotes(s, members, step);
    StepVotes(s, members, step);
    VotesStay(s, Apply(s, members, step));
    var s' := Apply(s, members, step);
    forall m | m in s'.votes ensures Voted(s', m.from, m.term, m.votedFor) {
      if m in s.votes {
        assert Voted(s, m.from, m.term, m.votedFor);
      }
    }
    forall n | n in members && s'.phase[n].Voting? ensures Voted(s', n, s'.phase[n].term, n) {
      if n != step.n {
        assert Voted(s, n, s.phase[n].term, n);
      }
    }
  }

  lemma VotesStay(s: System, s': System)
    requires Grows(s, s')
    ensures forall v, t, c :: Voted(s, v, t, c) ==> Voted(s', v, t, c)
  {
  }

  lemma StepVotes(s: System, members: set<Name>, step: Step)
    requires Members(s, members) && Enabled(s, members, step)
    ensures Apply(s, members, step).votes == s.votes +
            if step.AnswerAskVote?
            then {VoteReply(step.n, step.request.term, VotedFor(s.nodes[step.n], step.request.term, step.request.from),
                            Grants(s.nodes[step.n], step.request, step.ready))}
            else {}
  {
    hide NodeAfter, PhaseAfter, Enabled, VotedFor, Grants;
  }

  lemma NewWinOk(s: System, members: set<Name>, step: Step)
    requires Inv(s, members) && Enabled(s, members, step) && step.PassVoteGate?
    ensures WinOk(s, members, Win(step.n, s.phase[step.n].term, step.voters + {step.n}))
  {
    forall v | v in step.voters ensures Voted(s, v, s.phase[step.n].term, step.n) {
      assert VoteReply(v, s.phase[step.n].term, step.n, true) in s.votes;
    }
  }

  lemma StepWins(s: System, members: set<Name>, step: Step)
    requires Members(s, members) && Enabled(s, members, step)
    ensures Apply(s, members, step).wins == s.wins +
            if step.PassVoteGate? then {Win(step.n, s.phase[step.n].term, step.voters + {step.n})} else {}
  {
    hide NodeAfter, PhaseAfter, Enabled, Acked, Adopted, SigningAfter;
  }

  lemma WinStaysOk(s: System, s': System, members: set<Name>, w: Win)
    requires WinOk(s, members, w) && Grows(s, s')
    ensures WinOk(s', members, w)
  {
  }

  lemma StepKeepsWins(s: System, members: set<Name>, step: Step)
    requires Inv(s, members) && Enabled(s, members, step)
    ensures forall w :: w in Apply(s, members, step).wins ==> WinOk(Apply(s, members, step), members, w)
  {
    hide NodeAfter, PhaseAfter, Enabled, WinOk, Grows, Announces, VoteInv, Apply;
    var s' := Apply(s, members, step);
    StepGrows(s, members, step);
    StepWins(s, members, step);
    if step.PassVoteGate? {
      NewWinOk(s, members, step);
    }
    forall w | w in s'.wins ensures WinOk(s', members, w) {
      WinStaysOk(s, s', members, w);
    }
  }

  lemma StepKeepsBroadcasts(s: System, members: set<Name>, step: Step)
    requires Inv(s, members) && Enabled(s, members, step)
    ensures forall b :: b in Apply(s, members, step).broadcasts ==> Announces(Apply(s, members, step), b)
  {
    hide NodeAfter, PhaseAfter, Enabled, WinOk, VoteInv;
    var s' := Apply(s, members, step);
    forall b | b in s'.broadcasts ensures Announces(s', b) {
      if b in s.broadcasts {
        var w :| w in s.wins && w.winner == b.from && w.term == b.term;
        assert w in s'.wins;
      } else {
        assert Win(step.n, b.term, step.voters + {step.n}) in s'.wins;
      }
    }
  }

  lemma ReceiptGuards(s: System, members: set<Name>, step: Step)
    requires Members(s, members) && Enabled(s, members, step)
    ensures step.n in members
    ensures step.CheckBroadcast? ==> step.message in s.broadcasts
    ensures step.SignBroadcast? ==> Receipt(step.n, step.message) in s.checked
    ensures step.FinishSign? ==> step.n in s.signing
    ensures forall r :: r in Acked(s, members, step) ==>
              || (step.SignBroadcast? && r == Receipt(step.n, step.message))
              || (step.FinishSign? && s.signing[step.n].caller == Handler(r.message) && r.to == step.n)
    ensures Adopted(s, members, step) <= Acked(s, members, step)
    ensures Begun(s, members, step).Some? && Begun(s, members, step).value.caller.Handler? ==>
              step.SignBroadcast? && Begun(s, members, step).value == Signing(step.message.leader, step.message.term, Handler(step.message))
  {
  }

  lemma StepReceipts(s: System, members: set<Name>, step: Step)
    requires Members(s, members) && Enabled(s, members, step)
    ensures var s' := Apply(s, members, step);
            && s'.checked == s.checked + (if step.CheckBroadcast? then {Receipt(step.n, step.message)} else {})
            && s'.acks == s.acks + Acked(s, members, step)
            && s'.adopted == s.adopted + Adopted(s, members, step)
            && s.broadcasts <= s'.broadcasts
  {
    hide NodeAfter, PhaseAfter, Enabled, Acked, Adopted, SigningAfter;
  }

  lemma StepKeepsReceipts(s: System, members: set<Name>, step: Step)
    requires Inv(s, members) && Enabled(s, members, step)
    ensures ReceiptsOk(Apply(s, members, step), members)
  {
    hide NodeAfter, PhaseAfter, WinOk, VoteInv, Announces, Apply, Enabled, Acked, Adopted, Begun;
    assert ReceiptsOk(s, members);
    hide Inv;
    ReceiptGuards(s, members, step);
    StepReceipts(s, members, step);
    StepFrame(s, members, step);
    var s' := Apply(s, members, step);
    forall n | n in s'.signing && s'.signing[n].caller.Handler? ensures Receipt(n, s'.signing[n].caller.message) in s'.checked {
      assert n != step.n ==> n in s.signing && s'.signing[n] == s.signing[n];
    }
  }

  lemma StepKeepsInv(s: System, members: set<Name>, step: Step)
    requires Inv(s, members) && Enabled(s, members, step)
    ensures Inv(Apply(s, members, step), members)
  {
    hide Apply, Enabled, WinOk, VoteInv, Announces, ReceiptsOk;
    StepKeepsVoteInv(s, members, step);
    StepKeepsWins(s, members, step);
    StepKeepsBroadcasts(s, members, step);
    StepKeepsReceipts(s, members, step);
  }

  lemma InitInv(s: System, members: set<Name>)
    requires Init(s, members)
    ensures Inv(s, members)
  {
  }

  lemma {:induction false} RunKeepsInv(r: Run, i: nat)
    requires IsRun(r) && i < |r.states|
    ensures Inv(r.states[i], r.members)
  {
    hide Apply, Enabled, Inv, Init;
    if i == 0 {
      InitInv(r.states[0], r.members);
    } else {
      RunKeepsInv(r, i - 1);
      assert StepAt(r, i - 1);
      StepKeepsInv(r.states[i - 1], r.members, r.steps[i - 1]);
    }
  }

  lemma {:induction false} RunGrows(r: Run, i: nat, j: nat)
    requires IsRun(r) && i <= j < |r.states|
    ensures Grows(r.states[i], r.states[j])
  {
    hide Apply, Enabled;
    if i < j {
      RunGrows(r, i, j - 1);
      assert StepAt(r, j - 1);
      StepGrows(r.states[j - 1], r.members, r.steps[j - 1]);
    }
  }

  // ---------- one winner per term ----------

  lemma WinsAgree(s: System, members: set<Name>, w: Win, w': Win)
    requires WinOk(s, members, w) && WinOk(s, members, w')
    requires w.term == w'.term
    ensures w.winner == w'.winner
  {
    var shared := QuorumsIntersect(members, w.voters, w'.voters);
    assert Voted(s, shared, w.term, w.winner) && Voted(s, shared, w'.term, w'.winner);
  }

  /**
    On every run, at most one node ever passes the vote-quorum gate of a term, at whatever
    two moments `i` and `j` of the run the two passages happen.
   */
  lemma OneWinnerPerTerm(r: Run, i: nat, j: nat, n: Name, n': Name, t: int)
    requires IsRun(r) && PassesVoteGate(r, i, n, t) && PassesVoteGate(r, j, n', t)
    ensures n == n'
  {
    hide Apply, Enabled, Init, WinOk, VoteInv, Announces;
    var last := |r.steps|;
    RunGrows(r, i + 1, last);
    RunGrows(r, j + 1, last);
    RunKeepsInv(r, last);
    var w := GateRecordsWin(r, i, n, t);
    var w' := GateRecordsWin(r, j, n', t);
    WinsAgree(r.states[last], r.members, w, w');
  }

  // Step `i` of the run is node `n` finding a quorum of votes for term `t`.
  ghost predicate PassesVoteGate(r: Run, i: nat, n: Name, t: int) {
    && |r.states| == |r.steps| + 1 && i < |r.steps|
    && r.steps[i].PassVoteGate? && r.steps[i].n == n
    && n in r.states[i].phase && r.states[i].phase[n] == Voting(t)
  }

  lemma GateRecordsWin(r: Run, i: nat, n: Name, t: int) returns (w: Win)
    requires IsRun(r) && PassesVoteGate(r, i, n, t)
    ensures w in r.states[i + 1].wins && w.winner == n && w.term == t
  {
    hide NodeAfter, PhaseAfter, Enabled, Init;
    assert StepAt(r, i);
    w := Win(n, t, r.steps[i].voters + {n});
  }

  lemma BroadcastsAgree(s: System, members: set<Name>, b: Broadcast, b': Broadcast)
    requires Inv(s, members) && b in s.broadcasts && b' in s.broadcasts && b.term == b'.term
    ensures b == b'
  {
    assert Announces(s, b) && Announces(s, b');
    var w :| w in s.wins && w.winner == b.from && w.term == b.term;
    var w' :| w' in s.wins && w'.winner == b'.from && w'.term == b'.term;
    WinsAgree(s, members, w, w');
  }

  /**
    All BroadcastLeader messages of a term, whenever sent, are the same message; so two nodes
    whose leader was set by the BroadcastLeader handler at that term agree on the leader.
   */
  lemma OneLeaderPerTerm(r: Run, i: nat, j: nat)
    requires IsRun(r) && i < |r.states| && j < |r.states|
    ensures forall b, b' :: b in r.states[i].broadcasts && b' in r.states[j].broadcasts && b.term == b'.term ==> b == b'
    ensures forall a, a' :: a in r.states[i].adopted && a' in r.states[j].adopted && a.message.term == a'.message.term ==>
              a.message.leader == a'.message.leader
  {
    var last := |r.steps|;
    RunGrows(r, i, last);
    RunGrows(r, j, last);
    RunKeepsInv(r, last);
    RunKeepsInv(r, i);
    RunKeepsInv(r, j);
    forall b, b' | b in r.states[i].broadcasts && b' in r.states[j].broadcasts && b.term == b'.term ensures b == b' {
      BroadcastsAgree(r.states[last], r.members, b, b');
    }
  }

  // ---------- roles and votes on runs ----------

  // A node has the leader role exactly while it is its own leader.
  predicate RoleOk(n: NodeState) {
    n.role == Leader <==> n.leader == Some(n.name)
  }

  lemma ActorRole(s: System, members: set<Name>, step: Step)
    requires Members(s, members) && Enabled(s, members, step) && RoleOk(s.nodes[step.n])
    ensures RoleOk(NodeAfter(s, members, step))
  {
  }

  /** On every run, a node has the leader role exactly while the leader it holds is itself. */
  lemma {:induction false} RoleFollowsLeader(r: Run, i: nat, n: Name)
    requires IsRun(r) && i < |r.states| && n in r.members
    ensures n in r.states[i].nodes && RoleOk(r.states[i].nodes[n])
  {
    hide Apply, Enabled, NodeAfter, PhaseAfter, SigningAfter, Init, RoleOk;
    if i == 0 {
      InitRole(r.states[0], r.members, n);
    } else {
      RoleFollowsLeader(r, i - 1, n);
      assert StepAt(r, i - 1);
      StepFrame(r.states[i - 1], r.members, r.steps[i - 1]);
      if n == r.steps[i - 1].n {
        ActorRole(r.states[i - 1], r.members, r.steps[i - 1]);
      }
    }
  }

  lemma InitRole(s: System, members: set<Name>, n: Name)
    requires Init(s, members) && n in members
    ensures n in s.nodes && RoleOk(s.nodes[n])
  {
  }

  // Node `n` has answered the request, naming the vote it has recorded.
  ghost predicate Answered(s: System, n: Name, request: VoteRequest, success: bool) {
    && n in s.nodes && request.term in s.nodes[n].votes
    && VoteReply(n, request.term, s.nodes[n].votes[request.term], success) in s.votes
  }

  /**
    On every run, a ready node that answers a vote request of a term not above its own keeps
    its role, leader and events and refuses; a request of a higher term is granted and leaves
    the node without a leader.
   */
  lemma AskVoteOnRuns(r: Run, i: nat)
    requires IsRun(r) && i < |r.steps| && r.steps[i].AnswerAskVote?
    ensures var step, n := r.steps[i], r.steps[i].n;
            && n in r.states[i].nodes && n in r.states[i + 1].nodes
            && var me, me' := r.states[i].nodes[n], r.states[i + 1].nodes[n];
               && (step.ready && step.request.term <= me.term ==>
                     && me'.role == me.role && me'.leader == me.leader && me'.events == me.events
                     && Answered(r.states[i + 1], n, step.request, false))
               && (me.term < step.request.term || !step.ready ==>
                     && me'.role == Follower && me'.leader == None
                     && Answered(r.states[i + 1], n, step.request, true))
  {
    assert StepAt(r, i);
    var s, step := r.states[i], r.steps[i];
    hide IsRun, Apply, Enabled, NodeAfter, PhaseAfter, SigningAfter, AfterAskVote;
    StepFrame(s, r.members, step);
    StepVotes(s, r.members, step);
    AnswerChanges(s, r.members, step);
    AskVoteLaws(s.nodes[step.n], step.request, step.ready, step.request);
  }

  lemma AnswerChanges(s: System, members: set<Name>, step: Step)
    requires Members(s, members) && Enabled(s, members, step) && step.AnswerAskVote?
    ensures NodeAfter(s, members, step) == AfterAskVote(s.nodes[step.n], step.request, step.ready)
  {
  }

  /**
    On every run: a release leaves a follower without a leader, a step-down does so exactly for
    a node in the leader role, and a finished sign leaves the node with the leader and term of
    the call, leading exactly if that leader is itself.
   */
  lemma LeadershipOnRuns(r: Run, i: nat)
    requires IsRun(r) && i < |r.steps|
    ensures var step, n, s, s' := r.steps[i], r.steps[i].n, r.states[i], r.states[i + 1];
            && n in s.nodes && n in s'.nodes
            && (step.Release? ==> s'.nodes[n].leader == None && s'.nodes[n].role == Follower)
            && (step.StepDown? ==>
                  if s.nodes[n].role == Leader then s'.nodes[n].leader == None && s'.nodes[n].role == Follower
                  else s'.nodes[n] == s.nodes[n])
            && (step.FinishSign? ==>
                  && n in s.signing && s'.nodes[n].leader == Some(s.signing[n].who) && s'.nodes[n].term == s.signing[n].term
                  && s'.nodes[n].role == (if s.signing[n].who == n then Leader else Follower))
  {
    assert StepAt(r, i);
    var s, step := r.states[i], r.steps[i];
    RunKeepsInv(r, i);
    assert step.n in r.members && s.nodes[step.n].name == step.n;
    RoleFollowsLeader(r, i, step.n);
    hide IsRun, Apply, PhaseAfter, SigningAfter, Inv, Init;
    StepFrame(s, r.members, step);
    LeadershipChanges(s, r.members, step);
    hide Enabled, NodeAfter;
    ReleaseLaws(s.nodes[step.n], step.n);
  }

  lemma LeadershipChanges(s: System, members: set<Name>, step: Step)
    requires Members(s, members) && Enabled(s, members, step)
    ensures step.Release? ==> NodeAfter(s, members, step) == AfterRelease(s.nodes[step.n])
    ensures step.StepDown? ==> NodeAfter(s, members, step) == AfterStepDown(s.nodes[step.n], step.n)
    ensures step.FinishSign? ==>
              step.n in s.signing && NodeAfter(s, members, step) == AfterStore(s.nodes[step.n], s.signing[step.n].who, s.signing[step.n].term)
  {
  }

  // The signLeader call that a step makes: for whom, at which term, by whom.
  ghost function CallOf(s: System, members: set<Name>, step: Step): Signing
    requires Members(s, members) && Enabled(s, members, step) && BeginsSign(step)
  {
    match step
    case AdoptLeader(_, _, leader, maxTerm) => Signing(leader, maxTerm, Itself)
    case SignBroadcast(_, message) => Signing(message.leader, message.term, Handler(message))
    case PassAckGate(n, _) => Signing(n, s.phase[n].term, Itself)
  }

  lemma SignBegins(s: System, members: set<Name>, step: Step)
    requires Members(s, members) && Enabled(s, members, step) && BeginsSign(step)
    ensures NodeAfter(s, members, step) == s.nodes[step.n] && step.n !in s.signing
    ensures var g := CallOf(s, members, step);
            SigningAfter(s, members, step) == if s.nodes[step.n].term <= g.term then s.signing[step.n := g] else s.signing
  {
  }

  lemma SignPhase(s: System, members: set<Name>, step: Step)
    requires Members(s, members) && Enabled(s, members, step) && BeginsSign(step)
    ensures var passes := s.nodes[step.n].term <= CallOf(s, members, step).term;
            && (!step.SignBroadcast? ==> PhaseAfter(s, members, step) == if passes then Calling else Idle)
            && (step.SignBroadcast? && !passes ==> Receipt(step.n, step.message) in Acked(s, members, step))
  {
  }

  /**
    On every run a signLeader call, of whichever caller, goes past its check exactly if the
    node's term is not above the one it is called with, and is then under way for that leader
    and term; the candidate waits for it, and a refused call of a handler acknowledges at once.
   */
  lemma SignsBeginOnRuns(r: Run, i: nat)
    requires IsRun(r) && i < |r.steps| && BeginsSign(r.steps[i]) && StepAt(r, i)
    ensures var step, n, s, s' := r.steps[i], r.steps[i].n, r.states[i], r.states[i + 1];
            var g := CallOf(s, r.members, step);
            && n in s.nodes && n in s'.phase && s'.nodes == s.nodes
            && (n in s'.signing <==> s.nodes[n].term <= g.term) && (n in s'.signing ==> s'.signing[n] == g)
            && (!step.SignBroadcast? ==> s'.phase[n] == if n in s'.signing then Calling else Idle)
            && (step.SignBroadcast? && n !in s'.signing ==> Receipt(n, step.message) in s'.acks)
  {
    hide Apply, Init, Enabled, NodeAfter, PhaseAfter, SigningAfter, Acked, CallOf;
    var s, step := r.states[i], r.steps[i];
    StepFrame(s, r.members, step);
    StepAcks(s, r.members, step);
    SignBegins(s, r.members, step);
    SignPhase(s, r.members, step);
    assert s.nodes[step.n := s.nodes[step.n]] == s.nodes;
  }

  // The replies to an AskLeader request of an idle node.
  ghost predicate HasReplies(s: System, members: set<Name>, n: Name, replies: seq<LeaderReply>)
    requires Members(s, members)
  {
    n in members && s.phase[n] == Idle && forall m :: m in replies ==> m in s.leaders
  }

  /**
    An idle node whose AskLeader replies name a leader takes it, at the greatest term of the
    replies, exactly if its own term is not above that: the check and the store of the sign can
    follow each other and leave it so.
   */
  lemma AdoptionRound(s: System, members: set<Name>, n: Name, replies: seq<LeaderReply>, l: Name, t: int)
    requires Members(s, members) && HasReplies(s, members, n, replies) && n !in s.signing
    requires l in members && Scan(replies) == (Some(l), t)
    ensures var begin := AdoptLeader(n, replies, l, t);
            && Enabled(s, members, begin) && Members(Apply(s, members, begin), members)
            && var s1 := Apply(s, members, begin);
               if s.nodes[n].term <= t
               then && Enabled(s1, members, FinishSign(n)) && n in Apply(s1, members, FinishSign(n)).nodes
                    && var me := Apply(s1, members, FinishSign(n)).nodes[n];
                       me.leader == Some(l) && me.term == t && (s.nodes[n].name == n ==> (me.role == Leader <==> l == n))
               else s1.nodes == s.nodes && n !in s1.signing
  {
    hide Apply, NodeAfter, PhaseAfter, SigningAfter, Scan;
    var begin := AdoptLeader(n, replies, l, t);
    AdoptionEnabled(s, members, n, replies, l, t);
    SignBegins(s, members, begin);
    StepFrame(s, members, begin);
    var s1 := Apply(s, members, begin);
    assert s.nodes[n := s.nodes[n]] == s.nodes;
    if s.nodes[n].term <= t {
      FinishEnabled(s1, members, n);
      hide Enabled;
      LeadershipChanges(s1, members, FinishSign(n));
      StepFrame(s1, members, FinishSign(n));
    }
  }

  lemma AdoptionEnabled(s: System, members: set<Name>, n: Name, replies: seq<LeaderReply>, l: Name, t: int)
    requires Members(s, members) && HasReplies(s, members, n, replies) && n !in s.signing
    requires l in members && Scan(replies) == (Some(l), t)
    ensures Enabled(s, members, AdoptLeader(n, replies, l, t))
  {
    hide Scan;
  }

  lemma FinishEnabled(s: System, members: set<Name>, n: Name)
    requires Members(s, members) && n in s.signing
    ensures Enabled(s, members, FinishSign(n))
  {
  }

  /**
    An idle node with a quorum of AskLeader replies raises its term to the greatest term of a
    successful reply, if that is not below its own.
   */
  lemma UpdateRound(s: System, members: set<Name>, n: Name, replies: seq<LeaderReply>)
    requires Members(s, members) && HasReplies(s, members, n, replies) && Quorum(|members|) <= |replies|
    requires s.nodes[n].term <= Scan(replies).1
    ensures var t := Scan(replies).1;
            var check := CheckMaxTerm(n, replies, t);
            && Enabled(s, members, check) && Members(Apply(s, members, check), members)
            && Enabled(Apply(s, members, check), members, StoreMaxTerm(n))
            && var s' := Apply(Apply(s, members, check), members, StoreMaxTerm(n));
               n in s'.nodes && s'.nodes[n] == s.nodes[n].(term := t) && n in s'.phase && s'.phase[n] == Idle
    ensures forall m :: m in replies && m.success ==> m.term <= Scan(replies).1
  {
    var t := Scan(replies).1;
    var check := CheckMaxTerm(n, replies, t);
    ScanFindsGreatestTerm(replies);
    hide Apply, NodeAfter, PhaseAfter, SigningAfter, Scan, Quorum, Enabled;
    UpdateEnabled(s, members, n, replies);
    ReadLeaves(s, members, check);
    StepFrame(s, members, check);
    var s1 := Apply(s, members, check);
    StoreEnabled(s1, members, n);
    StoresMax(s1, members, n);
    StepFrame(s1, members, StoreMaxTerm(n));
  }

  lemma UpdateEnabled(s: System, members: set<Name>, n: Name, replies: seq<LeaderReply>)
    requires Members(s, members) && HasReplies(s, members, n, replies) && Quorum(|members|) <= |replies|
    requires s.nodes[n].term <= Scan(replies).1
    ensures Enabled(s, members, CheckMaxTerm(n, replies, Scan(replies).1))
  {
    hide Scan, Quorum;
  }

  lemma StoreEnabled(s: System, members: set<Name>, n: Name)
    requires Members(s, members) && n in members && s.phase[n].Updating?
    ensures Enabled(s, members, StoreMaxTerm(n))
  {
  }

  lemma StoresMax(s: System, members: set<Name>, n: Name)
    requires Members(s, members) && Enabled(s, members, StoreMaxTerm(n))
    ensures NodeAfter(s, members, StoreMaxTerm(n)) == s.nodes[n].(term := s.phase[n].maxTerm)
    ensures PhaseAfter(s, members, StoreMaxTerm(n)) == Idle
  {
  }

  /**
    On every run a node answers every AskLeader request: with success exactly for terms not
    above its own, then with its own term, and with its leader exactly if it is ready.
   */
  lemma AskLeaderOnRuns(r: Run, i: nat)
    requires IsRun(r) && i < |r.steps| && r.steps[i].AnswerAskLeader?
    ensures var step, n := r.steps[i], r.steps[i].n;
            && n in r.states[i].nodes && r.states[i + 1].nodes == r.states[i].nodes
            && var me := r.states[i].nodes[n];
               (if step.reqTerm <= me.term then LeaderReply(n, me.term, if step.ready then me.leader else None, true)
                else LeaderReply(n, step.reqTerm, None, false)) in r.states[i + 1].leaders
  {
    assert StepAt(r, i);
    var s, step := r.states[i], r.steps[i];
    RunKeepsInv(r, i);
    assert step.n in r.members && s.nodes[step.n].name == step.n;
    hide IsRun, Inv, Init;
    assert NodeAfter(s, r.members, step) == s.nodes[step.n];
    hide NodeAfter, PhaseAfter, SigningAfter, Enabled, Acked, Adopted;
    assert s.nodes[step.n := s.nodes[step.n]] == s.nodes;
  }

  // ---------- terms ----------

  // A delayed store of a term that another store has overtaken meanwhile.
  ghost predicate StaleStore(s: System, members: set<Name>, step: Step)
    requires Members(s, members) && Enabled(s, members, step)
  {
    || (step.StoreMaxTerm? && s.phase[step.n].maxTerm < s.nodes[step.n].term)
    || (step.StoreBumpedTerm? && s.phase[step.n].loaded + 1 < s.nodes[step.n].term)
    || (step.FinishSign? && s.signing[step.n].term < s.nodes[step.n].term)
  }

  lemma ActorTerm(s: System, members: set<Name>, step: Step)
    requires Members(s, members) && Enabled(s, members, step)
    ensures NodeAfter(s, members, step).term < s.nodes[step.n].term <==> StaleStore(s, members, step)
  {
  }

  /** A step lowers a node's term exactly when it is a stale store. */
  lemma TermFallsIffStaleStore(s: System, members: set<Name>, step: Step)
    requires Members(s, members) && Enabled(s, members, step)
    ensures StaleStore(s, members, step) <==>
            exists n :: n in members && Apply(s, members, step).nodes[n].term < s.nodes[n].term
  {
    ActorTerm(s, members, step);
    hide NodeAfter, StaleStore, Enabled;
    assert Apply(s, members, step).nodes[step.n] == NodeAfter(s, members, step);
  }

  ghost predicate FreshAt(r: Run, i: nat)
    requires |r.states| == |r.steps| + 1 && i < |r.steps|
  {
    StepAt(r, i) && !StaleStore(r.states[i], r.members, r.steps[i])
  }

  ghost predicate NoStaleStores(r: Run, to: nat)
    requires IsRun(r) && to < |r.states|
  {
    forall i :: 0 <= i < to ==> FreshAt(r, i)
  }

  lemma StepTerms(r: Run, i: nat, n: Name)
    requires |r.states| == |r.steps| + 1 && i < |r.steps| && FreshAt(r, i) && n in r.members
    requires Members(r.states[i + 1], r.members)
    ensures r.states[i].nodes[n].term <= r.states[i + 1].nodes[n].term
  {
    hide Apply, Enabled, StaleStore;
    TermFallsIffStaleStore(r.states[i], r.members, r.steps[i]);
  }

  lemma {:induction false} TermsNeverFall(r: Run, i: nat, j: nat, n: Name)
    requires IsRun(r) && i <= j < |r.states| && NoStaleStores(r, j) && n in r.members
    ensures Members(r.states[i], r.members) && Members(r.states[j], r.members)
    ensures r.states[i].nodes[n].term <= r.states[j].nodes[n].term
  {
    hide Apply, Enabled, StaleStore, Init, WinOk, VoteInv, Announces, FreshAt;
    RunKeepsInv(r, i);
    RunKeepsInv(r, j);
    if i < j {
      TermsNeverFall(r, i, j - 1, n);
      StepTerms(r, j - 1, n);
    }
  }

  // The step checks the term at the beginning of a signLeader call.
  predicate BeginsSign(step: Step) { step.AdoptLeader? || step.SignBroadcast? || step.PassAckGate? }

  // Every term store comes right after the read or the check it belongs to.
  ghost predicate AtomicStores(r: Run) {
    forall i :: 0 <= i < |r.steps| ==> AtomicAt(r, i)
  }

  ghost predicate AtomicAt(r: Run, i: nat)
    requires i < |r.steps|
  {
    && (r.steps[i].StoreBumpedTerm? ==> 0 < i && r.steps[i - 1] == LoadTerm(r.steps[i].n))
    && (r.steps[i].StoreMaxTerm? ==> 0 < i && r.steps[i - 1].CheckMaxTerm? && r.steps[i - 1].n == r.steps[i].n)
    && (r.steps[i].FinishSign? ==> 0 < i && BeginsSign(r.steps[i - 1]) && r.steps[i - 1].n == r.steps[i].n)
  }

  lemma StoreAfterRead(s: System, members: set<Name>, read: Step, store: Step)
    requires Members(s, members) && Enabled(s, members, read) && read.n == store.n
    requires || (read.LoadTerm? && store.StoreBumpedTerm?)
             || (read.CheckMaxTerm? && store.StoreMaxTerm?)
             || (BeginsSign(read) && store.FinishSign?)
    requires Members(Apply(s, members, read), members) && Enabled(Apply(s, members, read), members, store)
    ensures !StaleStore(Apply(s, members, read), members, store)
  {
    hide Apply, NodeAfter, PhaseAfter, SigningAfter;
    StepFrame(s, members, read);
    ReadLeaves(s, members, read);
    StoreFinds(Apply(s, members, read), members, store);
    hide Enabled;
  }

  lemma ReadLeaves(s: System, members: set<Name>, read: Step)
    requires Members(s, members) && Enabled(s, members, read)
    ensures read.LoadTerm? || read.CheckMaxTerm? || BeginsSign(read) ==> NodeAfter(s, members, read) == s.nodes[read.n]
    ensures read.LoadTerm? ==> PhaseAfter(s, members, read) == Bumping(s.nodes[read.n].term)
    ensures read.CheckMaxTerm? ==> PhaseAfter(s, members, read) == Updating(read.maxTerm) && s.nodes[read.n].term <= read.maxTerm
    ensures BeginsSign(read) && read.n in SigningAfter(s, members, read) ==>
              s.nodes[read.n].term <= SigningAfter(s, members, read)[read.n].term
  {
  }

  lemma StoreFinds(s: System, members: set<Name>, store: Step)
    requires Members(s, members) && Enabled(s, members, store)
    ensures store.FinishSign? ==> store.n in s.signing
  {
  }

  /** Were each read and its store one step, terms would never fall. */
  lemma AtomicStoresAreFresh(r: Run, to: nat)
    requires IsRun(r) && to < |r.states| && AtomicStores(r)
    ensures NoStaleStores(r, to)
  {
    hide Apply, Enabled, Init;
    forall i | 0 <= i < to ensures FreshAt(r, i) {
      assert StepAt(r, i) && AtomicAt(r, i);
      if r.steps[i].StoreBumpedTerm? || r.steps[i].StoreMaxTerm? || r.steps[i].FinishSign? {
        assert StepAt(r, i - 1);
        StoreAfterRead(r.states[i - 1], r.members, r.steps[i - 1], r.steps[i]);
      }
    }
  }

  // ---------- fencing by the ack quorum ----------

  // Every acknowledging node, and every candidate that broadcasts, has reached that term.
  ghost predicate AcksReached(s: System, members: set<Name>)
    requires Members(s, members)
  {
    forall a :: a in s.acks ==> a.to in members && a.message.term <= s.nodes[a.to].term
  }

  ghost predicate BroadcastsReached(s: System, members: set<Name>)
    requires Members(s, members)
  {
    forall b :: b in s.broadcasts ==> b.from in members && b.term <= s.nodes[b.from].term
  }

  ghost predicate PhaseReached(n: NodeState, p: Phase) {
    p.Campaigning? || p.Voting? || p.Broadcasting? ==> p.term <= n.term
  }

  ghost predicate Reached(s: System, members: set<Name>)
    requires Members(s, members)
  {
    && AcksReached(s, members)
    && BroadcastsReached(s, members)
    && (forall n :: n in members ==> PhaseReached(s.nodes[n], s.phase[n]))
    && (forall n :: n in s.signing ==> SignsMessage(s.signing[n]))
  }

  ghost predicate SignsMessage(g: Signing) {
    g.caller.Handler? ==> g.term == g.caller.message.term
  }

  lemma ActorReached(s: System, members: set<Name>, step: Step)
    requires Members(s, members) && Reached(s, members) && Enabled(s, members, step) && !StaleStore(s, members, step)
    ensures forall a :: a in Acked(s, members, step) ==> a.to == step.n && a.message.term <= NodeAfter(s, members, step).term
    ensures forall n :: n in SigningAfter(s, members, step) ==> SignsMessage(SigningAfter(s, members, step)[n])
    ensures step.PassVoteGate? ==> s.phase[step.n].term <= NodeAfter(s, members, step).term
    ensures PhaseReached(NodeAfter(s, members, step), PhaseAfter(s, members, step))
  {
    hide AcksReached, BroadcastsReached, NodeAfter, PhaseAfter, Enabled, StaleStore, Acked, SigningAfter;
    ActorIsMember(s, members, step);
    ActorPhaseReached(s, members, step);
    ActorAcks(s, members, step);
    ActorSigns(s, members, step);
  }

  lemma ActorPhaseReached(s: System, members: set<Name>, step: Step)
    requires Members(s, members) && Enabled(s, members, step) && !StaleStore(s, members, step)
    requires PhaseReached(s.nodes[step.n], s.phase[step.n])
    ensures step.PassVoteGate? ==> s.phase[step.n].term <= NodeAfter(s, members, step).term
    ensures PhaseReached(NodeAfter(s, members, step), PhaseAfter(s, members, step))
  {
    ActorTerm(s, members, step);
    hide StaleStore;
    if !step.StoreBumpedTerm? {
      hide NodeAfter;
    }
  }

  lemma ActorAcks(s: System, members: set<Name>, step: Step)
    requires Members(s, members) && Enabled(s, members, step)
    requires forall n :: n in s.signing ==> SignsMessage(s.signing[n])
    ensures forall a :: a in Acked(s, members, step) ==> a.to == step.n && a.message.term <= NodeAfter(s, members, step).term
  {
    if step.FinishSign? {
      assert SignsMessage(s.signing[step.n]);
    }
  }

  lemma ActorSigns(s: System, members: set<Name>, step: Step)
    requires Members(s, members) && Enabled(s, members, step)
    requires forall n :: n in s.signing ==> SignsMessage(s.signing[n])
    ensures forall n :: n in SigningAfter(s, members, step) ==> SignsMessage(SigningAfter(s, members, step)[n])
  {
  }

  lemma StepKeepsAcksReached(s: System, members: set<Name>, step: Step)
    requires Members(s, members) && Reached(s, members) && Enabled(s, members, step) && !StaleStore(s, members, step)
    ensures Members(Apply(s, members, step), members) && AcksReached(Apply(s, members, step), members)
  {
    hide NodeAfter, PhaseAfter, StaleStore, Enabled, BroadcastsReached, PhaseReached, Apply, Acked, SigningAfter;
    var s' := Apply(s, members, step);
    StepFrame(s, members, step);
    ActorReached(s, members, step);
    StepAcks(s, members, step);
    assert AcksReached(s, members);
    hide Reached;
    forall a | a in s'.acks ensures a.to in members && a.message.term <= s'.nodes[a.to].term {
      if a in s.acks {
        TermStays(s, members, step, a.to);
      }
    }
  }

  lemma TermStays(s: System, members: set<Name>, step: Step, n: Name)
    requires Members(s, members) && Enabled(s, members, step) && !StaleStore(s, members, step) && n in members
    ensures Members(Apply(s, members, step), members)
    ensures s.nodes[n].term <= Apply(s, members, step).nodes[n].term
  {
    hide NodeAfter, PhaseAfter, StaleStore, Enabled, Apply;
    StepFrame(s, members, step);
    ActorTerm(s, members, step);
  }

  lemma StepAcks(s: System, members: set<Name>, step: Step)
    requires Members(s, members) && Enabled(s, members, step)
    ensures Apply(s, members, step).acks == s.acks + Acked(s, members, step)
    ensures Apply(s, members, step).broadcasts == s.broadcasts +
            if step.PassVoteGate? then {Broadcast(step.n, s.phase[step.n].term, step.n)} else {}
  {
    hide NodeAfter, PhaseAfter, Enabled, Acked, Adopted, SigningAfter;
  }

  lemma StepKeepsBroadcastsReached(s: System, members: set<Name>, step: Step)
    requires Members(s, members) && Reached(s, members) && Enabled(s, members, step) && !StaleStore(s, members, step)
    ensures Members(Apply(s, members, step), members) && BroadcastsReached(Apply(s, members, step), members)
  {
    hide NodeAfter, PhaseAfter, StaleStore, Enabled, AcksReached, PhaseReached, Apply;
    var s' := Apply(s, members, step);
    StepFrame(s, members, step);
    ActorReached(s, members, step);
    StepAcks(s, members, step);
    assert BroadcastsReached(s, members);
    hide Reached;
    forall b | b in s'.broadcasts ensures b.from in members && b.term <= s'.nodes[b.from].term {
      if b in s.broadcasts {
        TermStays(s, members, step, b.from);
      }
    }
  }

  lemma StepKeepsReached(s: System, members: set<Name>, step: Step)
    requires Members(s, members) && Reached(s, members) && Enabled(s, members, step) && !StaleStore(s, members, step)
    ensures Members(Apply(s, members, step), members) && Reached(Apply(s, members, step), members)
  {
    hide Apply, NodeAfter, PhaseAfter, StaleStore, Enabled, AcksReached, BroadcastsReached, PhaseReached;
    StepFrame(s, members, step);
    ActorReached(s, members, step);
    StepKeepsAcksReached(s, members, step);
    StepKeepsBroadcastsReached(s, members, step);
  }

  lemma InitReached(s: System, members: set<Name>)
    requires Init(s, members)
    ensures Members(s, members) && Reached(s, members)
  {
  }

  lemma {:induction false} RunKeepsReached(r: Run, i: nat)
    requires IsRun(r) && i < |r.states| && NoStaleStores(r, i)
    ensures Members(r.states[i], r.members) && Reached(r.states[i], r.members)
  {
    hide Apply, Enabled, StaleStore, Init, Reached;
    if i == 0 {
      InitReached(r.states[0], r.members);
    } else {
      RunKeepsReached(r, i - 1);
      assert FreshAt(r, i - 1);
      hide IsRun, NoStaleStores;
      StepKeepsReached(r.states[i - 1], r.members, r.steps[i - 1]);
    }
  }

  // A quorum, counting the candidate itself, has acknowledged broadcast `b`.
  ghost predicate Acknowledged(s: System, members: set<Name>, b: Broadcast, quorum: set<Name>) {
    && quorum <= members && Quorum(|members|) <= |quorum|
    && b in s.broadcasts
    && forall q :: q in quorum ==> q == b.from || Receipt(q, b) in s.acks
  }

  // A store that leaves the acting node below term `t`.
  ghost predicate LowStore(s: System, members: set<Name>, step: Step, t: int)
    requires Members(s, members) && Enabled(s, members, step)
  {
    || (step.StoreMaxTerm? && s.phase[step.n].maxTerm < t)
    || (step.StoreBumpedTerm? && s.phase[step.n].loaded + 1 < t)
    || (step.FinishSign? && s.signing[step.n].term < t)
  }

  // All of `quorum` are at term `t` or above.
  ghost predicate AtLeast(s: System, quorum: set<Name>, t: int) {
    forall q :: q in quorum ==> q in s.nodes && t <= s.nodes[q].term
  }

  // Step `j` is not a store that takes a member of `quorum` below `t`.
  ghost predicate KeepsUp(r: Run, j: nat, quorum: set<Name>, t: int)
    requires |r.states| == |r.steps| + 1 && j < |r.steps|
  {
    StepAt(r, j) && (r.steps[j].n in quorum ==> !LowStore(r.states[j], r.members, r.steps[j], t))
  }

  lemma ActorSinks(s: System, members: set<Name>, step: Step, t: int)
    requires Members(s, members) && Enabled(s, members, step) && t <= s.nodes[step.n].term
    ensures NodeAfter(s, members, step).term < t <==> LowStore(s, members, step, t)
  {
  }

  lemma StepKeepsUp(r: Run, j: nat, quorum: set<Name>, t: int)
    requires |r.states| == |r.steps| + 1 && j < |r.steps| && StepAt(r, j) && AtLeast(r.states[j], quorum, t)
    ensures AtLeast(r.states[j + 1], quorum, t) <==> KeepsUp(r, j, quorum, t)
  {
    hide Apply, Enabled, NodeAfter, PhaseAfter, LowStore;
    var s, step := r.states[j], r.steps[j];
    StepFrame(s, r.members, step);
    if step.n in quorum {
      ActorSinks(s, r.members, step, t);
    }
  }

  /**
    Members of a quorum that have reached a term stay there exactly as long as none of them
    stores a lower one; what other nodes store, and what was stored before, does not matter.
   */
  lemma {:induction false} QuorumStaysIff(r: Run, i: nat, k: nat, quorum: set<Name>, t: int)
    requires IsRun(r) && i <= k < |r.states| && AtLeast(r.states[i], quorum, t)
    ensures (forall j :: i <= j <= k ==> AtLeast(r.states[j], quorum, t)) <==>
            (forall j :: i <= j < k ==> KeepsUp(r, j, quorum, t))
  {
    hide Apply, Enabled, Init, LowStore, AtLeast;
    if i < k {
      assert StepAt(r, k - 1);
      hide StepAt;
      QuorumStaysIff(r, i, k - 1, quorum, t);
      if forall j :: i <= j <= k - 1 ==> AtLeast(r.states[j], quorum, t) {
        assert AtLeast(r.states[k - 1], quorum, t);
        StepKeepsUp(r, k - 1, quorum, t);
        hide KeepsUp;
        if forall j :: i <= j <= k ==> AtLeast(r.states[j], quorum, t) {
          assert AtLeast(r.states[k - 1 + 1], quorum, t);
        }
      }
    }
  }

  lemma CheckNeedsTerm(s: System, members: set<Name>, step: Step, receipt: Receipt)
    requires Members(s, members) && Enabled(s, members, step)
    requires receipt in Apply(s, members, step).checked && receipt !in s.checked
    ensures receipt.to in members && s.nodes[receipt.to].term <= receipt.message.term
  {
  }

  lemma CheckedWasSent(s: System, members: set<Name>, receipt: Receipt)
    requires Inv(s, members)
    ensures receipt in s.checked ==> receipt.message in s.broadcasts
  {
  }

  lemma TermOf(s: System, quorum: set<Name>, t: int, q: Name)
    requires AtLeast(s, quorum, t) && q in quorum
    ensures q in s.nodes && t <= s.nodes[q].term
  {
  }

  lemma {:induction false} NoLateCheck(r: Run, i: nat, k: nat, t: int, quorum: set<Name>, q: Name, late: Broadcast)
    requires IsRun(r) && i <= k < |r.states| && q in quorum
    requires forall j :: i <= j <= k ==> AtLeast(r.states[j], quorum, t)
    requires late.term < t && late !in r.states[i].broadcasts
    ensures Receipt(q, late) !in r.states[k].checked
  {
    hide Apply, Enabled, Init, Inv, AtLeast;
    if i == k {
      RunKeepsInv(r, i);
      CheckedWasSent(r.states[i], r.members, Receipt(q, late));
    } else {
      assert StepAt(r, k - 1);
      NoLateCheck(r, i, k - 1, t, quorum, q, late);
      assert AtLeast(r.states[k - 1], quorum, t);
      hide IsRun;
      TermOf(r.states[k - 1], quorum, t, q);
      if Receipt(q, late) in r.states[k].checked {
        CheckNeedsTerm(r.states[k - 1], r.members, r.steps[k - 1], Receipt(q, late));
      }
    }
  }

  // The ack gate opened for `n`: its quorum has acknowledged its broadcast.
  lemma GateQuorum(s: System, members: set<Name>, step: Step)
    requires Inv(s, members) && Enabled(s, members, step) && step.PassAckGate?
    ensures step.ackers <= members && Quorum(|members|) <= |step.ackers + {step.n}|
    ensures forall a :: a in step.ackers ==> Receipt(a, Broadcast(step.n, s.phase[step.n].term, step.n)) in s.checked
  {
    forall a | a in step.ackers ensures a in members && Receipt(a, Broadcast(step.n, s.phase[step.n].term, step.n)) in s.checked {
      assert Receipt(a, Broadcast(step.n, s.phase[step.n].term, step.n)) in s.acks;
    }
  }

  lemma RefusedSignChangesNothing(s: System, members: set<Name>, step: Step)
    requires Members(s, members) && Enabled(s, members, step) && step.PassAckGate?
    requires !CanSign(s.nodes[step.n], s.phase[step.n].term)
    ensures Apply(s, members, step).nodes == s.nodes && step.n !in Apply(s, members, step).signing
  {
    hide NodeAfter, PhaseAfter, Enabled, Apply, SigningAfter;
    RefusedGate(s, members, step);
    StepFrame(s, members, step);
  }

  lemma RefusedGate(s: System, members: set<Name>, step: Step)
    requires Members(s, members) && Enabled(s, members, step) && step.PassAckGate?
    requires !CanSign(s.nodes[step.n], s.phase[step.n].term)
    ensures NodeAfter(s, members, step) == s.nodes[step.n] && step.n !in SigningAfter(s, members, step)
  {
  }

  // Step `k` of the run is node `n` finding a quorum of acknowledgements for term `t`.
  ghost predicate OpensAckGate(r: Run, k: nat, n: Name, t: int) {
    && |r.states| == |r.steps| + 1 && k < |r.steps|
    && r.steps[k].PassAckGate? && r.steps[k].n == n
    && n in r.states[k].phase && r.states[k].phase[n] == Broadcasting(t)
  }

  // The late candidate `n` of term `t` is not signed: its own signLeader refuses the term.
  ghost predicate Refused(r: Run, k: nat, n: Name, t: int)
    requires k + 1 < |r.states|
  {
    && n in r.states[k].nodes && !CanSign(r.states[k].nodes[n], t)
    && r.states[k + 1].nodes == r.states[k].nodes && n !in r.states[k + 1].signing
  }

  /**
    One node suffices: a node that has reached term `t'` and stores no lower one keeps every
    candidate that begins broadcasting a lower term afterwards from being signed with its
    acknowledgement, and, if it is the candidate itself, with its own.
   */
  lemma HolderFences(r: Run, i: nat, k: nat, t': int, q: Name, n: Name, t: int)
    requires IsRun(r) && i <= k < |r.steps| && AtLeast(r.states[i], {q}, t')
    requires forall j :: i <= j < k ==> KeepsUp(r, j, {q}, t')
    requires t < t' && Broadcast(n, t, n) !in r.states[i].broadcasts
    ensures OpensAckGate(r, k, n, t) && q in r.steps[k].ackers + {n} ==> Refused(r, k, n, t)
  {
    hide Apply, Enabled, Init, LowStore, Inv;
    RunKeepsInv(r, k);
    QuorumStaysIff(r, i, k, {q}, t');
    hide KeepsUp;
    if OpensAckGate(r, k, n, t) && q in r.steps[k].ackers + {n} {
      assert StepAt(r, k);
      GateQuorum(r.states[k], r.members, r.steps[k]);
      if q == n {
        assert AtLeast(r.states[k], {q}, t');
      } else {
        NoLateCheck(r, i, k, t', {q}, q, Broadcast(n, t, n));
      }
      hide IsRun, Quorum;
      RefusedSignChangesNothing(r.states[k], r.members, r.steps[k]);
    }
  }

  lemma KeepsUpOne(r: Run, i: nat, k: nat, quorum: set<Name>, q: Name, t: int)
    requires |r.states| == |r.steps| + 1 && i <= k < |r.steps| && q in quorum
    requires AtLeast(r.states[i], quorum, t) && forall j :: i <= j < k ==> KeepsUp(r, j, quorum, t)
    ensures AtLeast(r.states[i], {q}, t) && forall j :: i <= j < k ==> KeepsUp(r, j, {q}, t)
  {
    hide StepAt, LowStore;
    forall j | i <= j < k ensures KeepsUp(r, j, {q}, t) {
      assert KeepsUp(r, j, quorum, t);
    }
  }

  lemma SharedAcker(r: Run, i: nat, k: nat, b: Broadcast, quorum: set<Name>, n: Name, t: int) returns (shared: Name)
    requires IsRun(r) && i <= k < |r.steps| && Acknowledged(r.states[i], r.members, b, quorum) && OpensAckGate(r, k, n, t)
    ensures shared in quorum && shared in r.steps[k].ackers + {n}
  {
    hide Apply, Enabled, Init, Inv;
    RunKeepsInv(r, k);
    assert StepAt(r, k);
    GateQuorum(r.states[k], r.members, r.steps[k]);
    hide IsRun, Quorum;
    shared := QuorumsIntersect(r.members, quorum, r.steps[k].ackers + {n});
  }

  /**
    Once a quorum has acknowledged a broadcast of term `b.term`, a candidate of a lower term
    that had not begun broadcasting by then is never signed leader through the ack gate, as
    long as no member of that quorum stores a term below `b.term`: if the gate opens for the
    candidate at all, its own signLeader call refuses the term.
   */
  lemma AckQuorumFences(r: Run, i: nat, k: nat, b: Broadcast, quorum: set<Name>, n: Name, t: int)
    requires IsRun(r) && i <= k < |r.steps|
    requires Acknowledged(r.states[i], r.members, b, quorum) && AtLeast(r.states[i], quorum, b.term)
    requires forall j :: i <= j < k ==> KeepsUp(r, j, quorum, b.term)
    requires t < b.term && Broadcast(n, t, n) !in r.states[i].broadcasts
    ensures OpensAckGate(r, k, n, t) ==> Refused(r, k, n, t)
  {
    hide Refused, KeepsUp, AtLeast;
    if OpensAckGate(r, k, n, t) {
      var shared := SharedAcker(r, i, k, b, quorum, n, t);
      KeepsUpOne(r, i, k, quorum, shared, b.term);
      HolderFences(r, i, k, b.term, shared, n, t);
    }
  }

  /**
    So when the fence does break, there is a node in both quorums (`SharedAcker`), and each
    such node has stored a lower term in between: the contrapositive of `HolderFences`.
   */
  lemma BrokenFence(r: Run, i: nat, k: nat, b: Broadcast, quorum: set<Name>, n: Name, t: int)
    requires IsRun(r) && i <= k < |r.steps|
    requires Acknowledged(r.states[i], r.members, b, quorum) && AtLeast(r.states[i], quorum, b.term)
    requires t < b.term && Broadcast(n, t, n) !in r.states[i].broadcasts
    requires OpensAckGate(r, k, n, t) && !Refused(r, k, n, t)
    ensures exists q :: q in quorum && q in r.steps[k].ackers + {n}
    ensures forall q :: q in quorum && q in r.steps[k].ackers + {n} ==> exists j :: i <= j < k && !KeepsUp(r, j, {q}, b.term)
  {
    hide Refused, KeepsUp, Init, StepAt, Acknowledged;
    var shared := SharedAcker(r, i, k, b, quorum, n, t);
    forall q | q in quorum && q in r.steps[k].ackers + {n} ensures exists j :: i <= j < k && !KeepsUp(r, j, {q}, b.term) {
      assert AtLeast(r.states[i], {q}, b.term);
      if forall j :: i <= j < k ==> KeepsUp(r, j, {q}, b.term) {
        HolderFences(r, i, k, b.term, q, n, t);
        assert false;
      }
    }
  }

  lemma AcknowledgedReached(s: System, members: set<Name>, b: Broadcast, quorum: set<Name>)
    requires Members(s, members) && Reached(s, members) && Acknowledged(s, members, b, quorum)
    ensures AtLeast(s, quorum, b.term)
  {
  }

  /** Were each read and its store one step, the fence would hold on every run. */
  lemma AtomicRunsAreFenced(r: Run, i: nat, k: nat, b: Broadcast, quorum: set<Name>, n: Name, t: int)
    requires IsRun(r) && i <= k < |r.steps| && AtomicStores(r)
    requires Acknowledged(r.states[i], r.members, b, quorum)
    requires t < b.term && Broadcast(n, t, n) !in r.states[i].broadcasts
    ensures OpensAckGate(r, k, n, t) ==> Refused(r, k, n, t)
  {
    hide Apply, Enabled, Init, StaleStore, Reached, OpensAckGate, Refused;
    AtomicStoresAreFresh(r, k);
    assert NoStaleStores(r, i);
    RunKeepsReached(r, i);
    AcknowledgedReached(r.states[i], r.members, b, quorum);
    forall j | i <= j <= k ensures AtLeast(r.states[j], quorum, b.term) {
      assert NoStaleStores(r, j);
      forall q | q in quorum ensures q in r.states[j].nodes && b.term <= r.states[j].nodes[q].term {
        TermsNeverFall(r, i, j, q);
      }
    }
    hide IsRun, NoStaleStores, AtomicStores, AtLeast, KeepsUp;
    QuorumStaysIff(r, i, k, quorum, b.term);
    AckQuorumFences(r, i, k, b, quorum, n, t);
  }
}
