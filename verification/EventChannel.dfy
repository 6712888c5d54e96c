/**
  Sending leadership events.  A locked transition of `cluster/cluster.go` only collects its
  events; they go into the event channel after the lock is released, so sends of several
  goroutines may interleave with each other and with later transitions.
 */
module EventChannel {
  import opened Options
  import opened ClusterNode
  import opened JobTracker

  // The events one transition collected: positions [lo, end) of the node's events, of which
  // those below `next` have been sent.
  datatype Outbox = Outbox(lo: nat, next: nat, end: nat)

  // `channel` holds the positions of the events sent, in the order of the sends.
  datatype State = State(node: NodeState, outboxes: seq<Outbox>, channel: seq<nat>)

  datatype Step =
    | Sign(who: Name, term: int)
    | ReleaseAll
    | StepDown(who: Name)
    | SendNext(i: nat)

  function Start(name: Name): State {
    State(NodeState(name, 0, Follower, None, map[], []), [], [])
  }

  function NodeAfter(n: NodeState, step: Step): NodeState {
    match step
    case Sign(who, term) => AfterSign(n, who, term)
    case ReleaseAll => AfterRelease(n)
    case StepDown(who) => AfterStepDown(n, who)
    case SendNext(_) => n
  }

  // A step that does not apply changes nothing.
  function Apply(s: State, step: Step): State {
    if step.SendNext? then
      if |s.outboxes| <= step.i || s.outboxes[step.i].next >= s.outboxes[step.i].end then s
      else
        var o := s.outboxes[step.i];
        s.(outboxes := s.outboxes[step.i := o.(next := o.next + 1)], channel := s.channel + [o.next])
    else
      var n := NodeAfter(s.node, step);
      s.(node := n, outboxes := s.outboxes + [Outbox(|s.node.events|, |s.node.events|, |n.events|)])
  }

  function After(name: Name, steps: seq<Step>): State {
    if steps == [] then Start(name) else Apply(After(name, steps[..|steps| - 1]), steps[|steps| - 1])
  }

  // ---------- the outboxes partition the events ----------

  ghost predicate Partition(s: State) {
    && EventsMatch(s.node)
    && (forall i :: 0 <= i < |s.outboxes| ==> s.outboxes[i].lo <= s.outboxes[i].next <= s.outboxes[i].end <= |s.node.events|)
    && (forall i, j :: 0 <= i < j < |s.outboxes| ==> s.outboxes[i].end <= s.outboxes[j].lo)
    && (forall p :: p in s.channel ==> p < |s.node.events|)
    && Contiguous(s.outboxes, |s.node.events|)
  }

  // Each outbox begins where the one before ends.
  ghost predicate Contiguous(outboxes: seq<Outbox>, end: nat) {
    if outboxes == [] then end == 0
    else
      var last := outboxes[|outboxes| - 1];
      last.end == end && Contiguous(outboxes[..|outboxes| - 1], last.lo)
  }

  lemma TransitionsAppend(n: NodeState, step: Step)
    requires EventsMatch(n)
    ensures EventsMatch(NodeAfter(n, step)) && n.events <= NodeAfter(n, step).events
  {
    hide EventsMatch;
    match step {
      case Sign(who, term) => TransitionsKeepBrackets(n, who, term);
      case ReleaseAll => TransitionsKeepBrackets(n, n.name, 0);
      case StepDown(who) => TransitionsKeepBrackets(n, who, 0);
      case SendNext(_) =>
    }
  }

  /** The three transitions are those of a node: who signs is followed, who releases follows nobody. */
  lemma TransitionsDecide(n: NodeState, who: Name, term: int)
    ensures n.term <= term ==> NodeAfter(n, Sign(who, term)).leader == Some(who) && NodeAfter(n, Sign(who, term)).term == term
    ensures term < n.term ==> NodeAfter(n, Sign(who, term)) == n
    ensures NodeAfter(n, ReleaseAll).leader == None && NodeAfter(n, ReleaseAll).role == Follower
    ensures if n.leader == Some(who) && n.role == Leader then NodeAfter(n, StepDown(who)) == NodeAfter(n, ReleaseAll)
            else NodeAfter(n, StepDown(who)) == n
  {
  }

  lemma {:induction false} ContiguousUpdate(outboxes: seq<Outbox>, end: nat, i: nat, o: Outbox)
    requires Contiguous(outboxes, end) && i < |outboxes| && o.lo == outboxes[i].lo && o.end == outboxes[i].end
    ensures Contiguous(outboxes[i := o], end)
  {
    var rest := outboxes[..|outboxes| - 1];
    if i < |rest| {
      ContiguousUpdate(rest, outboxes[|outboxes| - 1].lo, i, o);
      assert outboxes[i := o][..|rest|] == rest[i := o];
    } else {
      assert outboxes[i := o][..|rest|] == rest;
    }
  }

  lemma StepKeepsPartition(s: State, step: Step)
    requires Partition(s)
    ensures Partition(Apply(s, step))
  {
    hide EventsMatch, Contiguous;
    var s' := Apply(s, step);
    if step.SendNext? {
      if s' != s {
        ContiguousUpdate(s.outboxes, |s.node.events|, step.i, s'.outboxes[step.i]);
      }
    } else {
      TransitionsAppend(s.node, step);
      ContiguousSnoc(s.outboxes, s'.outboxes[|s.outboxes|]);
    }
  }

  lemma ContiguousSnoc(outboxes: seq<Outbox>, o: Outbox)
    requires Contiguous(outboxes, o.lo)
    ensures Contiguous(outboxes + [o], o.end)
  {
    assert (outboxes + [o])[..|outboxes|] == outboxes;
  }

  lemma {:induction false} RunKeepsPartition(name: Name, steps: seq<Step>)
    ensures Partition(After(name, steps))
  {
    if steps != [] {
      RunKeepsPartition(name, steps[..|steps| - 1]);
      hide Partition, Apply;
      StepKeepsPartition(After(name, steps[..|steps| - 1]), steps[|steps| - 1]);
    }
  }

  // ---------- the order of the sends ----------

  ghost predicate InOrder(channel: seq<nat>) {
    forall i :: 0 <= i < |channel| ==> channel[i] == i
  }

  predicate Finished(o: Outbox) { o.next == o.end }

  // A send overtakes when an earlier transition still has events to send.
  ghost predicate Overtakes(s: State, step: Step) {
    && step.SendNext? && step.i < |s.outboxes| && !Finished(s.outboxes[step.i])
    && exists j :: 0 <= j < step.i && !Finished(s.outboxes[j])
  }

  ghost predicate NoOvertaking(name: Name, steps: seq<Step>) {
    forall k :: 0 <= k < |steps| ==> !Overtakes(After(name, steps[..k]), steps[k])
  }

  // With `c` events sent in order, each outbox has sent what lies below `c`.
  predicate SentUpTo(o: Outbox, c: nat) {
    o.next == if c < o.lo then o.lo else if o.end < c then o.end else c
  }

  ghost predicate Level(s: State) {
    |s.channel| <= |s.node.events| && forall i :: 0 <= i < |s.outboxes| ==> SentUpTo(s.outboxes[i], |s.channel|)
  }

  // If all earlier transitions are done, the outbox begins at or below the number sent.
  lemma {:induction false} AllEarlierSent(outboxes: seq<Outbox>, end: nat, i: nat, c: nat)
    requires Contiguous(outboxes, end) && i < |outboxes|
    requires forall j :: 0 <= j < |outboxes| ==> SentUpTo(outboxes[j], c) && outboxes[j].lo <= outboxes[j].end
    requires forall j :: 0 <= j < i ==> Finished(outboxes[j])
    ensures outboxes[i].lo <= c
  {
    var rest := outboxes[..|outboxes| - 1];
    if i < |rest| {
      AllEarlierSent(rest, outboxes[|outboxes| - 1].lo, i, c);
    } else if i > 0 {
      AllEarlierSent(rest, outboxes[i].lo, i - 1, c);
      assert rest[|rest| - 1].end == outboxes[i].lo;
      assert Finished(outboxes[i - 1]) && SentUpTo(outboxes[i - 1], c);
    }
  }

  // While the order is right, the next send keeps it exactly if it does not overtake.
  lemma SendKeepsOrder(s: State, step: Step)
    requires Partition(s) && Level(s) && step.SendNext? && step.i < |s.outboxes| && !Finished(s.outboxes[step.i])
    ensures s.outboxes[step.i].next == |s.channel| <==> !Overtakes(s, step)
  {
    var i, c := step.i, |s.channel|;
    var o := s.outboxes[i];
    if !Overtakes(s, step) {
      AllEarlierSent(s.outboxes, |s.node.events|, i, c);
    } else {
      var j :| 0 <= j < i && !Finished(s.outboxes[j]);
      assert SentUpTo(s.outboxes[j], c) && s.outboxes[j].end <= o.lo;
    }
  }

  lemma StepKeepsLevel(s: State, step: Step)
    requires Partition(s) && Level(s) && InOrder(s.channel)
    ensures InOrder(Apply(s, step).channel) <==> !Overtakes(s, step)
    ensures !Overtakes(s, step) ==> Level(Apply(s, step))
  {
    hide EventsMatch, Contiguous;
    var s' := Apply(s, step);
    if step.SendNext? {
      if s' != s {
        SendKeepsOrder(s, step);
        assert s'.channel[|s.channel|] == s.outboxes[step.i].next;
        hide Overtakes;
        if s.outboxes[step.i].next == |s.channel| {
          forall j | 0 <= j < |s'.outboxes| ensures SentUpTo(s'.outboxes[j], |s'.channel|) {
            assert SentUpTo(s.outboxes[j], |s.channel|);
          }
        }
      }
    } else {
      TransitionsAppend(s.node, step);
      forall j | 0 <= j < |s'.outboxes| ensures SentUpTo(s'.outboxes[j], |s'.channel|) {
        assert j < |s.outboxes| ==> SentUpTo(s.outboxes[j], |s.channel|);
      }
    }
  }

  lemma NoOvertakingSnoc(name: Name, steps: seq<Step>)
    requires steps != []
    ensures var rest, last := steps[..|steps| - 1], steps[|steps| - 1];
            NoOvertaking(name, steps) <==> NoOvertaking(name, rest) && !Overtakes(After(name, rest), last)
  {
    hide After, Overtakes;
    var rest := steps[..|steps| - 1];
    assert forall k :: 0 <= k < |rest| ==> rest[..k] == steps[..k] && rest[k] == steps[k];
  }

  /** Events arrive in the order of the transitions exactly when no send overtakes another. */
  lemma {:induction false} OrderIff(name: Name, steps: seq<Step>)
    ensures InOrder(After(name, steps).channel) <==> NoOvertaking(name, steps)
    ensures NoOvertaking(name, steps) ==> Level(After(name, steps))
  {
    if steps != [] {
      var rest, last := steps[..|steps| - 1], steps[|steps| - 1];
      var s := After(name, rest);
      OrderIff(name, rest);
      NoOvertakingSnoc(name, steps);
      RunKeepsPartition(name, rest);
      hide NoOvertaking, Partition, Overtakes, Level;
      assert s.channel <= Apply(s, last).channel;
      if InOrder(s.channel) {
        StepKeepsLevel(s, last);
      }
    }
  }

  // ---------- what a tracker sees ----------

  // The events in the channel.
  ghost function Arrived(s: State): seq<Event>
    requires Partition(s)
  {
    seq(|s.channel|, i requires 0 <= i < |s.channel| => assert s.channel[i] in s.channel; s.node.events[s.channel[i]])
  }

  /**
    Without overtaking, the channel carries a prefix of the bracketed word, so a tracker that
    has received any stretch of it, registered late or not, runs exactly the ticker of its
    latest event, and after a Close never more than one.
   */
  lemma OrderedSendsDriveTracker(name: Name, steps: seq<Step>, inputs: seq<Input>, from: nat, to: nat)
    requires NoOvertaking(name, steps) && Partition(After(name, steps)) && from <= to <= |After(name, steps).channel|
    requires Delivered(inputs) == Arrived(After(name, steps))[from..to]
    ensures Arrived(After(name, steps)) <= After(name, steps).node.events
    ensures CloseStatus !in inputs ==> RunsExactly(AfterAll(inputs), Wanted(Delivered(inputs)))
    ensures CloseStatus in inputs ==> ClosedOk(AfterAll(inputs))
  {
    hide NoOvertaking, After, AfterAll, Delivered, Bracketed, Wanted, RunsExactly, ClosedOk;
    OrderIff(name, steps);
    var s := After(name, steps);
    assert Arrived(s) == s.node.events[..|s.channel|];
    assert Arrived(s)[from..to] == s.node.events[from..to];
    TrackerFollowsEvents(inputs, s.node.events, LeaderKind(s.node), from, to);
  }

  /** With overtaking it may run a ticker although its node has long lost its leader. */
  lemma OvertakenSendLeaks(name: Name, l: Name)
    requires name != l
    ensures var steps := [Sign(l, 0), ReleaseAll, SendNext(1), SendNext(0)];
            var inputs := [Deliver(UnsignFollower), Deliver(SignFollower(l)), Arm];
            && Partition(After(name, steps)) && Delivered(inputs) == Arrived(After(name, steps))
            && After(name, steps).node.leader == None && JobTracker.Live(AfterAll(inputs)) == {0}
  {
    hide Apply, After, Partition, AfterAll, Delivered, Live;
    var steps := [Sign(l, 0), ReleaseAll, SendNext(1), SendNext(0)];
    OvertakenRun(name, l);
    RunKeepsPartition(name, steps);
    TrackerLeft(l);
    assert Arrived(After(name, steps)) == [UnsignFollower, SignFollower(l)];
  }

  function Lost(name: Name, l: Name): NodeState {
    NodeState(name, 0, Follower, None, map[], [SignFollower(l), UnsignFollower])
  }

  lemma AfterSnoc(name: Name, steps: seq<Step>, step: Step)
    ensures After(name, steps + [step]) == Apply(After(name, steps), step)
  {
    assert (steps + [step])[..|steps|] == steps;
  }

  lemma OvertakenNode(name: Name, l: Name)
    requires name != l
    ensures After(name, [Sign(l, 0)] + [ReleaseAll]) == State(Lost(name, l), [Outbox(0, 0, 1), Outbox(1, 1, 2)], [])
  {
    var n1 := NodeState(name, 0, Follower, Some(l), map[], [SignFollower(l)]);
    assert AfterSign(Start(name).node, l, 0) == n1 && AfterRelease(n1) == Lost(name, l);
    hide AfterSign, AfterRelease;
    assert [] + [Sign(l, 0)] == [Sign(l, 0)];
    AfterSnoc(name, [], Sign(l, 0));
    assert After(name, [Sign(l, 0)]) == State(n1, [Outbox(0, 0, 1)], []);
    AfterSnoc(name, [Sign(l, 0)], ReleaseAll);
  }

  lemma OvertakenRun(name: Name, l: Name)
    requires name != l
    ensures After(name, [Sign(l, 0), ReleaseAll, SendNext(1), SendNext(0)]) ==
            State(Lost(name, l), [Outbox(0, 1, 1), Outbox(1, 2, 2)], [1, 0])
  {
    hide After;
    var p2 := [Sign(l, 0)] + [ReleaseAll];
    OvertakenNode(name, l);
    AfterSnoc(name, p2, SendNext(1));
    AfterSnoc(name, p2 + [SendNext(1)], SendNext(0));
    hide Lost;
    assert After(name, p2 + [SendNext(1)]) == State(Lost(name, l), [Outbox(0, 0, 1), Outbox(1, 2, 2)], [1]);
    assert p2 + [SendNext(1)] + [SendNext(0)] == [Sign(l, 0), ReleaseAll, SendNext(1), SendNext(0)];
  }

  lemma TrackerLeft(l: Name)
    ensures var inputs := [Deliver(UnsignFollower), Deliver(SignFollower(l)), Arm];
            JobTracker.Live(AfterAll(inputs)) == {0} && Delivered(inputs) == [UnsignFollower, SignFollower(l)]
  {
    var i1 := [Deliver(UnsignFollower)];
    var i2 := i1 + [Deliver(SignFollower(l))];
    var i3 := i2 + [Arm];
    assert i1[..0] == [] && i2[..1] == i1 && i3[..2] == i2;
    assert AfterAll(i1) == JobTracker.Fresh();
    assert AfterAll(i2) == TrackerState(Running, [], None, None, Some(Worker));
    assert AfterAll(i3) == TrackerState(Running, [Ticker(Worker, false)], None, Some(0), None);
    assert Delivered(i1) == [UnsignFollower];
    assert Delivered(i2) == [UnsignFollower, SignFollower(l)];
    assert i3 == [Deliver(UnsignFollower), Deliver(SignFollower(l)), Arm];
  }
}
