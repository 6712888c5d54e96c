/**
  The per-node state of `cluster.Cluster` in cluster mode, its locked transitions
  (`signLeader`, `releaseLeader`, `releaseWithNodeName`, `getVoteNodeName`, `voteNode`)
  and the reply-counting loops of `fightingWithRetry`.

  The transitions are functions on a `NodeState` value, so that whole-cluster runs
  (module `Election`) and event sequences (module `JobTracker`) can be described with
  them.  Class `Cluster` is the imperative form, proved to perform exactly those functions.
 */
module ClusterNode {
  import opened Options

  // Node names matter only by equality; the wrapper keeps them apart from other strings.
  datatype Name = Name(text: string)

  datatype Role = Follower | Candidate | Leader

  datatype Event =
    | SignMaster
    | SignFollower(leader: Name)
    | UnsignMaster
    | UnsignFollower

  datatype NodeState = NodeState(
    name: Name,
    term: int,
    role: Role,
    leader: Option<Name>,
    votes: map<int, Name>,
    events: seq<Event>)

  // ---------- transitions taken under leaderLock / votesLock ----------

  // The event that announces the loss of the current leader, if there is one.
  function LossEvents(n: NodeState): seq<Event> {
    match n.leader
    case None => []
    case Some(l) => [if l == n.name then UnsignMaster else UnsignFollower]
  }

  predicate CanSign(n: NodeState, term: int) {
    n.term <= term
  }

  // signLeader once past its term check.
  function AfterStore(n: NodeState, who: Name, term: int): NodeState {
    n.(role := if who == n.name then Leader else Follower,
       leader := Some(who),
       term := term,
       events := n.events + LossEvents(n) + [if who == n.name then SignMaster else SignFollower(who)])
  }

  function AfterSign(n: NodeState, who: Name, term: int): NodeState {
    if CanSign(n, term) then AfterStore(n, who, term) else n
  }

  function AfterRelease(n: NodeState): NodeState {
    n.(role := Follower, leader := None, events := n.events + LossEvents(n))
  }

  function AfterStepDown(n: NodeState, who: Name): NodeState {
    if n.leader == Some(who) && n.role == Leader then AfterRelease(n) else n
  }

  // `getVoteNodeName` and `voteNode` write the same map, and only where it is empty.
  function AfterVote(n: NodeState, term: int, candidate: Name): NodeState {
    if term in n.votes then n else n.(votes := n.votes[term := candidate])
  }

  function VotedFor(n: NodeState, term: int, candidate: Name): Name {
    if term in n.votes then n.votes[term] else candidate
  }

  // ---------- request handlers ----------

  datatype VoteRequest = VoteRequest(from: Name, term: int)
  datatype VoteReply = VoteReply(from: Name, term: int, votedFor: Name, success: bool)
  datatype LeaderReply = LeaderReply(from: Name, term: int, leader: Option<Name>, success: bool)

  // A node refuses a vote request of an old term while its cluster is ready; the vote is
  // recorded all the same.
  predicate Grants(me: NodeState, request: VoteRequest, ready: bool) {
    !ready || me.term < request.term
  }

  function AfterAskVote(me: NodeState, request: VoteRequest, ready: bool): NodeState {
    var voted := AfterVote(me, request.term, request.from);
    if Grants(me, request, ready) then AfterRelease(voted) else voted
  }

  function AskVoteReply(me: NodeState, request: VoteRequest, ready: bool): VoteReply {
    VoteReply(me.name, request.term, VotedFor(me, request.term, request.from), Grants(me, request, ready))
  }

  /**
    A ready node keeps its role, leader and events through every vote request of a term not
    above its own, and refuses it.  A request of a higher term always succeeds and leaves no
    leader, and so does any request to a node that is not ready.  Who grants a term grants
    every higher one.  The reply names the vote that is now recorded.
   */
  lemma AskVoteLaws(me: NodeState, request: VoteRequest, ready: bool, higher: VoteRequest)
    ensures var me', reply := AfterAskVote(me, request, ready), AskVoteReply(me, request, ready);
            && (ready && request.term <= me.term ==>
                  me'.role == me.role && me'.leader == me.leader && me'.events == me.events && !reply.success)
            && (me.term < request.term || !ready ==>
                  && reply.success && me'.role == Follower && me'.leader == None
                  && me'.events == me.events +
                     match me.leader
                     case None => []
                     case Some(l) => [if l == me.name then UnsignMaster else UnsignFollower])
            && (reply.success && request.term <= higher.term ==> AskVoteReply(me, higher, ready).success)
            && me'.term == me.term && request.term in me'.votes && me'.votes[request.term] == reply.votedFor
            && (forall t :: t in me.votes ==> t in me'.votes && me'.votes[t] == me.votes[t])
  {
  }

  /** A release always leaves a follower without a leader and announces the loss of one. */
  lemma ReleaseLaws(n: NodeState, who: Name)
    ensures var n' := AfterRelease(n);
            && n'.role == Follower && n'.leader == None && n'.name == n.name && n'.term == n.term && n'.votes == n.votes
            && n'.events == n.events +
               match n.leader
               case None => []
               case Some(l) => [if l == n.name then UnsignMaster else UnsignFollower]
    ensures AfterStepDown(n, who) == if n.leader == Some(who) && n.role == Leader then AfterRelease(n) else n
  {
  }

  function AskLeaderReply(me: NodeState, reqTerm: int, ready: bool): LeaderReply {
    if reqTerm <= me.term
    then LeaderReply(me.name, me.term, if ready then me.leader else None, true)
    else LeaderReply(me.name, reqTerm, None, false)
  }

  // ---------- quorums ----------

  function Quorum(total: nat): (q: nat)
    ensures total < 2 * q
    ensures 0 < total ==> q <= total && 2 * (q - 1) <= total
  {
    if total == 0 then 1 else total / 2 + 1
  }

  lemma SubsetCardinality<T>(a: set<T>, b: set<T>)
    requires a <= b
    ensures |a| <= |b|
  {
    assert b == a + (b - a);
  }

  /** Any two majorities of the same membership share a member. */
  lemma QuorumsIntersect(members: set<Name>, a: set<Name>, b: set<Name>) returns (shared: Name)
    requires a <= members && b <= members
    requires Quorum(|members|) <= |a| && Quorum(|members|) <= |b|
    ensures shared in a && shared in b
  {
    SubsetCardinality(a + b, members);
    assert |a + b| + |a * b| == |a| + |b|;
    shared :| shared in a * b;
  }

  // ---------- replies ----------

  // `broadcastToNodes` sends one request to each other node, so replies have distinct senders.
  ghost predicate OneReplyEach(messages: seq<VoteReply>) {
    forall i, j :: 0 <= i < j < |messages| ==> messages[i].from != messages[j].from
  }

  ghost function Supporters(messages: seq<VoteReply>, me: Name): set<Name> {
    set m | m in messages && m.success && m.votedFor == me :: m.from
  }

  lemma SupportersSnoc(messages: seq<VoteReply>, m: VoteReply, me: Name)
    ensures Supporters(messages + [m], me) ==
            Supporters(messages, me) + (if m.success && m.votedFor == me then {m.from} else {})
  {
    var all := messages + [m];
    assert forall x :: x in all <==> x in messages || x == m;
    assert m in all;
  }

  lemma NotYetCounted(messages: seq<VoteReply>, i: nat, me: Name)
    requires OneReplyEach(messages) && i < |messages|
    ensures messages[i].from !in Supporters(messages[..i], me)
  {
  }

  /** The vote-counting loop: one for the self-vote and one for each node that supports `me`. */
  method CountVotes(messages: seq<VoteReply>, me: Name) returns (votesCount: nat)
    requires OneReplyEach(messages)
    requires forall m :: m in messages ==> m.from != me
    ensures votesCount == |Supporters(messages, me) + {me}|
  {
    votesCount := 1;
    assert messages[..0] == [] && Supporters([], me) == {} && me !in Supporters(messages, me);
    hide Supporters;
    for i := 0 to |messages|
      invariant votesCount == 1 + |Supporters(messages[..i], me)|
    {
      var m := messages[i];
      assert messages[..i + 1] == messages[..i] + [m];
      SupportersSnoc(messages[..i], m, me);
      NotYetCounted(messages, i, me);
      if m.success && m.votedFor == me {
        votesCount := votesCount + 1;
      }
    }
    assert messages[..|messages|] == messages;
  }

  // ---------- the AskLeader scan ----------

  // The scan keeps the largest term of a successful reply and the last leader name that
  // came with a term not below the largest one seen so far.
  function Scan(messages: seq<LeaderReply>): (Option<Name>, int) {
    if messages == [] then (None, 0)
    else
      var m := messages[|messages| - 1];
      var acc := Scan(messages[..|messages| - 1]);
      if m.success && acc.1 <= m.term then (if m.leader.Some? then m.leader else acc.0, m.term) else acc
  }

  /** The scan finds the greatest term of a successful reply, and a leader that some reply names. */
  lemma {:induction false} ScanFindsGreatestTerm(messages: seq<LeaderReply>)
    ensures var r := Scan(messages);
            && 0 <= r.1
            && (forall m :: m in messages && m.success ==> m.term <= r.1)
            && (r.1 == 0 || exists m :: m in messages && m.success && m.term == r.1)
            && (r.0.Some? ==> exists m :: m in messages && m.success && m.leader == r.0 && m.term <= r.1)
  {
    if messages != [] {
      var rest := messages[..|messages| - 1];
      ScanFindsGreatestTerm(rest);
      assert forall x :: x in messages ==> x in rest || x == messages[|messages| - 1];
      assert forall x :: x in rest ==> x in messages;
    }
  }

  method ScanReplies(messages: seq<LeaderReply>) returns (leader: Option<Name>, maxTerm: int)
    ensures (leader, maxTerm) == Scan(messages)
  {
    leader, maxTerm := None, 0;
    for i := 0 to |messages|
      invariant (leader, maxTerm) == Scan(messages[..i])
    {
      var message := messages[i];
      assert messages[..i + 1][..i] == messages[..i];
      if message.success && message.leader.Some? && message.term >= maxTerm {
        maxTerm := message.term;
        leader := message.leader;
      } else if message.success && message.term >= maxTerm {
        maxTerm := message.term;
      }
    }
    assert messages[..|messages|] == messages;
  }

  /** The name and the term that the scan returns need not come from one reply. */
  lemma ScanMixesReplies(a: Name, b: Name, l: Name)
    ensures var messages := [LeaderReply(a, 1, Some(l), true), LeaderReply(b, 2, None, true)];
            Scan(messages) == (Some(l), 2) && LeaderReply(a, 2, Some(l), true) !in messages
  {
    var first := [LeaderReply(a, 1, Some(l), true)];
    var messages := first + [LeaderReply(b, 2, None, true)];
    assert first[..0] == [];
    assert messages[..1] == first;
    assert Scan(first) == (Some(l), 1);
  }

  // Some successful reply names leader `l` at term `t`.
  ghost predicate Answers(messages: seq<LeaderReply>, l: Name, t: int) {
    exists m :: m in messages && m.success && m.leader == Some(l) && m.term == t
  }

  ghost predicate NamesAt(messages: seq<LeaderReply>, t: int) {
    exists m :: m in messages && m.success && m.leader.Some? && m.term == t
  }

  // Some successful reply of the greatest term names a leader.
  ghost predicate TopReplyNames(messages: seq<LeaderReply>) {
    exists m :: m in messages && m.success && m.leader.Some? && 0 <= m.term &&
                forall x :: x in messages && x.success ==> x.term <= m.term
  }

  lemma AnswersSnoc(rest: seq<LeaderReply>, m: LeaderReply, l: Name, t: int)
    ensures Answers(rest + [m], l, t) <==> Answers(rest, l, t) || (m.success && m.leader == Some(l) && m.term == t)
    ensures NamesAt(rest + [m], t) <==> NamesAt(rest, t) || (m.success && m.leader.Some? && m.term == t)
  {
    assert m in rest + [m];
    assert forall x :: x in rest ==> x in rest + [m];
  }

  lemma {:induction false} ScannedPair(messages: seq<LeaderReply>)
    ensures var r := Scan(messages);
            NamesAt(messages, r.1) <==> r.0.Some? && Answers(messages, r.0.value, r.1)
  {
    if messages != [] {
      var rest, m := messages[..|messages| - 1], messages[|messages| - 1];
      assert messages == rest + [m];
      ScannedPair(rest);
      ScanFindsGreatestTerm(rest);
      var r := Scan(messages);
      AnswersSnoc(rest, m, if r.0.Some? then r.0.value else m.from, r.1);
    }
  }

  /**
    The scanned leader and term come from one reply exactly when some successful reply of the
    greatest term names a leader.
   */
  lemma ScanIsGenuineIff(messages: seq<LeaderReply>)
    ensures var r := Scan(messages);
            r.0.Some? && Answers(messages, r.0.value, r.1) <==> TopReplyNames(messages)
  {
    ScannedPair(messages);
    ScanFindsGreatestTerm(messages);
    var t := Scan(messages).1;
    if NamesAt(messages, t) {
      var m :| m in messages && m.success && m.leader.Some? && m.term == t;
    }
    if TopReplyNames(messages) {
      var m :| m in messages && m.success && m.leader.Some? && 0 <= m.term &&
               forall x :: x in messages && x.success ==> x.term <= m.term;
      assert m.term == t;
    }
  }

  // ---------- the imperative form ----------

  class Cluster {
    const name: Name
    var term: int
    var role: Role
    var leader: Option<Name>
    var votes: map<int, Name>
    var events: seq<Event>

    constructor (name: Name)
      ensures State() == NodeState(name, 0, Follower, None, map[], [])
    {
      this.name := name;
      term, role, leader, votes, events := 0, Follower, None, map[], [];
    }

    function State(): NodeState
      reads this
    {
      NodeState(name, term, role, leader, votes, events)
    }

    method SignLeader(who: Name, newTerm: int) returns (ok: bool)
      modifies this
      ensures ok == CanSign(old(State()), newTerm)
      ensures State() == AfterSign(old(State()), who, newTerm)
      ensures if old(term) <= newTerm then term == newTerm && leader == Some(who) && role == (if who == name then Leader else Follower)
              else State() == old(State())
    {
      if newTerm < term {
        return false;
      }
      if leader.Some? {
        if leader.value == name {
          events := events + [UnsignMaster];
        } else {
          events := events + [UnsignFollower];
        }
        leader := None;
      }
      if who == name {
        role := Leader;
        events := events + [SignMaster];
      } else {
        role := Follower;
        events := events + [SignFollower(who)];
      }
      leader := Some(who);
      term := newTerm;
      return true;
    }

    method ReleaseLeader()
      modifies this
      ensures State() == AfterRelease(old(State()))
      ensures role == Follower && leader == None && term == old(term)
    {
      role := Follower;
      if leader.Some? {
        if leader.value == name {
          events := events + [UnsignMaster];
        } else {
          events := events + [UnsignFollower];
        }
        leader := None;
      }
    }

    method ReleaseWithNodeName(who: Name)
      modifies this
      ensures State() == AfterStepDown(old(State()), who)
      ensures if old(leader) == Some(who) && old(role) == Leader then role == Follower && leader == None
              else State() == old(State())
    {
      if leader == None || leader.value != who {
        return;
      }
      if role != Leader {
        return;
      }
      role := Follower;
      if leader.value == name {
        events := events + [UnsignMaster];
      } else {
        events := events + [UnsignFollower];
      }
      leader := None;
    }

    method GetVoteNodeName(t: int, candidate: Name) returns (voted: Name)
      modifies this
      ensures State() == AfterVote(old(State()), t, candidate)
      ensures voted == VotedFor(old(State()), t, candidate) && t in votes && votes[t] == voted
    {
      if t !in votes {
        votes := votes[t := candidate];
        return candidate;
      }
      return votes[t];
    }

    method VoteNode(t: int, candidate: Name) returns (ok: bool)
      modifies this
      ensures State() == AfterVote(old(State()), t, candidate)
      ensures ok <==> t in votes && votes[t] == candidate
    {
      if t !in votes {
        votes := votes[t := candidate];
        return true;
      }
      return votes[t] == candidate;
    }

    // The AskLeader handler; `ready` is IsReady, which depends on the clock.
    method AskLeader(reqTerm: int, ready: bool) returns (resp: LeaderReply)
      ensures resp == AskLeaderReply(State(), reqTerm, ready)
      ensures resp.success <==> reqTerm <= term
      ensures reqTerm <= resp.term && (resp.leader.Some? ==> resp.success && resp.leader == leader && resp.term == term)
      ensures resp.success ==> resp.term == term && resp.leader == if ready then leader else None
    {
      resp := LeaderReply(name, reqTerm, None, false);
      if ready && reqTerm <= term {
        resp := LeaderReply(name, term, leader, true);
      } else if reqTerm <= term {
        resp := LeaderReply(name, term, None, true);
      }
    }

    // The AskVote handler: it votes first and decides about success afterwards.
    method AskVote(request: VoteRequest, ready: bool) returns (resp: VoteReply)
      modifies this
      ensures State() == AfterAskVote(old(State()), request, ready)
      ensures resp == AskVoteReply(old(State()), request, ready)
      ensures request.term in votes && votes[request.term] == resp.votedFor
      ensures resp.success <==> !ready || old(term) < request.term
      ensures if resp.success then role == Follower && leader == None
              else role == old(role) && leader == old(leader) && events == old(events)
    {
      var voted := GetVoteNodeName(request.term, request.from);
      var success := true;
      if !ready || request.term > term {
        ReleaseLeader();
      } else {
        success := false;
      }
      resp := VoteReply(name, request.term, voted, success);
    }

    // The BroadcastLeader handler; `known` says whether the leader's name is a known node.
    method BroadcastLeader(msgTerm: int, who: Name, known: bool) returns (success: bool)
      modifies this
      ensures success <==> old(term) <= msgTerm && known
      ensures State() == if success then AfterSign(old(State()), who, msgTerm) else old(State())
      ensures success ==> leader == Some(who) && term == msgTerm
    {
      success := false;
      if term <= msgTerm && known {
        success := true;
        var _ := SignLeader(who, msgTerm);
      }
    }
  }
}
