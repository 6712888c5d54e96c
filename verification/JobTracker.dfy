/**
  Leadership events and the job tracker they drive: the Sign/Unsign events that the locked
  transitions of a cluster node emit form a well-bracketed word, and a `DefaultJobTracker`
  that is fed any stretch of such a word runs exactly the ticker the word calls for.
 */
module JobTracker {
  import opened Options
  import opened ClusterNode
  import opened Election

  datatype Kind = Master | Worker

  // ---------- the bracketing language ----------

  predicate IsSign(e: Event) { e.SignMaster? || e.SignFollower? }

  function KindOf(e: Event): Kind {
    if e.SignMaster? || e.UnsignMaster? then Master else Worker
  }

  // `events` alternates Sign and Unsign of matching kinds, and leaves bracket `open` open.
  predicate Bracketed(events: seq<Event>, open: Option<Kind>) {
    if events == [] then open == None
    else
      var e := events[|events| - 1];
      var before := events[..|events| - 1];
      if IsSign(e) then open == Some(KindOf(e)) && Bracketed(before, None)
      else open == None && Bracketed(before, Some(KindOf(e)))
  }

  function LeaderKind(n: NodeState): Option<Kind> {
    match n.leader
    case None => None
    case Some(l) => Some(if l == n.name then Master else Worker)
  }

  // The open bracket of a node's events is its current leadership.
  ghost predicate EventsMatch(n: NodeState) {
    Bracketed(n.events, LeaderKind(n))
  }

  lemma BracketedSnoc(events: seq<Event>, open: Option<Kind>, e: Event)
    requires Bracketed(events, open)
    requires IsSign(e) ==> open == None
    requires !IsSign(e) ==> open == Some(KindOf(e))
    ensures Bracketed(events + [e], if IsSign(e) then Some(KindOf(e)) else None)
  {
    assert (events + [e])[..|events|] == events;
  }

  lemma LossCloses(n: NodeState)
    requires EventsMatch(n)
    ensures Bracketed(n.events + LossEvents(n), None)
  {
    if n.leader.Some? {
      BracketedSnoc(n.events, LeaderKind(n), LossEvents(n)[0]);
    } else {
      assert n.events + [] == n.events;
    }
  }

  /** Every locked transition of a node keeps its events bracketed and in step with its leader. */
  lemma TransitionsKeepBrackets(n: NodeState, who: Name, term: int)
    requires EventsMatch(n)
    ensures EventsMatch(AfterStore(n, who, term)) && EventsMatch(AfterSign(n, who, term))
    ensures EventsMatch(AfterRelease(n))
    ensures EventsMatch(AfterStepDown(n, who))
    ensures EventsMatch(AfterVote(n, term, who))
  {
    hide Bracketed;
    LossCloses(n);
    var e := if who == n.name then SignMaster else SignFollower(who);
    BracketedSnoc(n.events + LossEvents(n), None, e);
  }

  // Name, leader and events are as before.
  predicate SameLeadership(n: NodeState, n': NodeState) {
    n'.name == n.name && n'.leader == n.leader && n'.events == n.events
  }

  lemma NodeChanges(s: System, members: set<Name>, step: Step)
    requires Members(s, members) && Enabled(s, members, step)
    ensures var me, me' := s.nodes[step.n], NodeAfter(s, members, step);
            || SameLeadership(me, me')
            || (step.FinishSign? && step.n in s.signing && me' == AfterStore(me, s.signing[step.n].who, s.signing[step.n].term))
            || (step.AnswerAskVote? && me' == AfterRelease(AfterVote(me, step.request.term, step.request.from)))
            || me' == AfterRelease(me) || me' == AfterStepDown(me, step.n)
  {
    hide AfterStore, AfterRelease, AfterStepDown;
  }

  lemma StepKeepsBrackets(s: System, members: set<Name>, step: Step)
    requires Members(s, members) && Enabled(s, members, step)
    requires EventsMatch(s.nodes[step.n])
    ensures EventsMatch(NodeAfter(s, members, step))
  {
    hide Enabled, NodeAfter, AfterStore, AfterRelease, AfterStepDown, AfterVote, Bracketed;
    ActorIsMember(s, members, step);
    var me := s.nodes[step.n];
    NodeChanges(s, members, step);
    if step.FinishSign? && step.n in s.signing {
      TransitionsKeepBrackets(me, s.signing[step.n].who, s.signing[step.n].term);
    } else if step.AnswerAskVote? {
      TransitionsKeepBrackets(me, step.request.from, step.request.term);
      TransitionsKeepBrackets(AfterVote(me, step.request.term, step.request.from), step.n, 0);
    }
    TransitionsKeepBrackets(me, step.n, 0);
  }

  lemma InitEvents(s: System, members: set<Name>, n: Name)
    requires Init(s, members) && n in members
    ensures n in s.nodes && EventsMatch(s.nodes[n])
  {
  }

  /** On every run of the cluster, every node's events are well bracketed at every moment. */
  lemma {:induction false} RunEventsBracketed(r: Run, i: nat, n: Name)
    requires IsRun(r) && i < |r.states| && n in r.members
    ensures n in r.states[i].nodes && EventsMatch(r.states[i].nodes[n])
  {
    hide Apply, Enabled, NodeAfter, PhaseAfter, SigningAfter, Init, EventsMatch;
    if i == 0 {
      InitEvents(r.states[0], r.members, n);
    } else {
      RunEventsBracketed(r, i - 1, n);
      assert StepAt(r, i - 1);
      StepFrame(r.states[i - 1], r.members, r.steps[i - 1]);
      if n == r.steps[i - 1].n {
        StepKeepsBrackets(r.states[i - 1], r.members, r.steps[i - 1]);
      }
    }
  }

  // ---------- the tracker ----------

  datatype Status = Stopped | Running | Closed

  // One goroutine started by runTicker; it ends when its context is cancelled.
  datatype Ticker = Ticker(kind: Kind, cancelled: bool)

  // `leaderCancel` and `workerCancel` are the latest cancel functions, as ticker positions.
  // `pending` is a start callback between its status swap and the arming of its ticker.
  datatype TrackerState = TrackerState(
    status: Status,
    tickers: seq<Ticker>,
    leaderCancel: Option<nat>,
    workerCancel: Option<nat>,
    pending: Option<Kind>)

  function Fresh(): TrackerState {
    TrackerState(Stopped, [], None, None, None)
  }

  function Cancelled(tickers: seq<Ticker>, cancel: Option<nat>): seq<Ticker> {
    if cancel.Some? && cancel.value < |tickers|
    then tickers[cancel.value := tickers[cancel.value].(cancelled := true)]
    else tickers
  }

  // The two halves of a start callback: the status swap, and the new cancel function and ticker.
  function AfterSwap(t: TrackerState, kind: Kind): TrackerState {
    if t.status != Stopped then t else t.(status := Running, pending := Some(kind))
  }

  function Armed(t: TrackerState): TrackerState {
    match t.pending
    case None => t
    case Some(kind) =>
      var tickers := t.tickers + [Ticker(kind, false)];
      if kind == Master
      then TrackerState(t.status, tickers, Some(|t.tickers|), t.workerCancel, None)
      else TrackerState(t.status, tickers, t.leaderCancel, Some(|t.tickers|), None)
  }

  function AfterStop(t: TrackerState, kind: Kind): TrackerState {
    if t.status != Running then t
    else t.(status := Stopped,
            tickers := Cancelled(t.tickers, if kind == Master then t.leaderCancel else t.workerCancel))
  }

  function AfterCancel(t: TrackerState): TrackerState {
    t.(tickers := Cancelled(Cancelled(t.tickers, t.leaderCancel), t.workerCancel))
  }

  // What happens to a tracker.  One goroutine delivers the events, one callback after the
  // other; other goroutines call Close, which swaps the status and then cancels.
  datatype Input =
    | Deliver(event: Event)  // a Stop callback, or the first half of a Start callback
    | Arm                    // the second half
    | CloseStatus
    | CloseCancel

  function After(t: TrackerState, input: Input): TrackerState {
    match input
    case Deliver(e) =>
      if IsSign(e) then AfterSwap(Armed(t), KindOf(e)) else AfterStop(Armed(t), KindOf(e))
    case Arm => Armed(t)
    case CloseStatus => t.(status := Closed)
    case CloseCancel => if t.status == Closed then AfterCancel(t) else t
  }

  function AfterAll(inputs: seq<Input>): TrackerState {
    if inputs == [] then Fresh() else After(AfterAll(inputs[..|inputs| - 1]), inputs[|inputs| - 1])
  }

  ghost function Live(t: TrackerState): set<nat> {
    set i: nat | i < |t.tickers| && !t.tickers[i].cancelled
  }

  // The events among the inputs, in order.
  function Delivered(inputs: seq<Input>): seq<Event> {
    if inputs == [] then []
    else Delivered(inputs[..|inputs| - 1]) +
         match inputs[|inputs| - 1] case Deliver(e) => [e] case _ => []
  }

  // A tracker registered late sees a stretch events[from..to] of its node's events.
  ghost predicate IsStretch(seen: seq<Event>, events: seq<Event>, open: Option<Kind>, from: nat, to: nat) {
    Bracketed(events, open) && from <= to <= |events| && seen == events[from..to]
  }

  // The ticker that should run after `seen`: that of its last event, if this is a Sign.
  function Wanted(seen: seq<Event>): Option<Kind> {
    if seen != [] && IsSign(seen[|seen| - 1]) then Some(KindOf(seen[|seen| - 1])) else None
  }

  // The only ticker that runs is that of the latest cancel function of its kind.
  ghost predicate OnlyTicker(t: TrackerState, kind: Kind) {
    match kind
    case Master =>
      && t.leaderCancel.Some? && Live(t) == {t.leaderCancel.value}
      && t.leaderCancel.value < |t.tickers| && t.tickers[t.leaderCancel.value].kind == Master
    case Worker =>
      && t.workerCancel.Some? && Live(t) == {t.workerCancel.value}
      && t.workerCancel.value < |t.tickers| && t.tickers[t.workerCancel.value].kind == Worker
  }

  ghost predicate RunsExactly(t: TrackerState, wanted: Option<Kind>) {
    match wanted
    case None => t.status == Stopped && t.pending == None && Live(t) == {}
    case Some(kind) =>
      t.status == Running && if t.pending == None then OnlyTicker(t, kind) else t.pending == wanted && Live(t) == {}
  }

  // After Close has swapped the status: at most one ticker runs, and it can be cancelled.
  ghost predicate ClosedOk(t: TrackerState) {
    && t.status == Closed && (t.pending.Some? ==> Live(t) == {})
    && (Live(t) == {} || OnlyTicker(t, Master) || OnlyTicker(t, Worker))
  }

  lemma CancelRemoves(t: TrackerState, cancel: Option<nat>)
    ensures Live(t.(tickers := Cancelled(t.tickers, cancel))) == Live(t) - (if cancel.Some? then {cancel.value} else {})
  {
  }

  // Arming adds the one ticker of the pending start.
  lemma ArmAdds(t: TrackerState)
    requires t.pending.Some? && Live(t) == {}
    ensures OnlyTicker(Armed(t), t.pending.value) && Armed(t).status == t.status && Armed(t).pending == None
  {
    assert Live(Armed(t)) == {|t.tickers|};
  }

  lemma CancelEmpties(t: TrackerState)
    requires Live(t) == {} || OnlyTicker(t, Master) || OnlyTicker(t, Worker)
    ensures Live(AfterCancel(t)) == {}
  {
    var once := t.(tickers := Cancelled(t.tickers, t.leaderCancel));
    CancelRemoves(t, t.leaderCancel);
    CancelRemoves(once, t.workerCancel);
    assert Live(AfterCancel(t)) == Live(once.(tickers := Cancelled(once.tickers, t.workerCancel)));
  }

  lemma {:induction false} PrefixBracketed(events: seq<Event>, open: Option<Kind>, to: nat) returns (open': Option<Kind>)
    requires Bracketed(events, open) && to <= |events|
    ensures Bracketed(events[..to], open')
  {
    if to == |events| {
      assert events[..to] == events;
      open' := open;
    } else {
      var e := events[|events| - 1];
      open' := PrefixBracketed(events[..|events| - 1], if IsSign(e) then None else Some(KindOf(e)), to);
      assert events[..|events| - 1][..to] == events[..to];
    }
  }

  // Neighbouring events match: a Sign is followed by the Unsign of its kind, an Unsign by a Sign.
  lemma Neighbours(events: seq<Event>, open: Option<Kind>, i: nat)
    requires Bracketed(events, open) && 0 < i < |events|
    ensures IsSign(events[i]) <==> !IsSign(events[i - 1])
    ensures IsSign(events[i - 1]) ==> KindOf(events[i]) == KindOf(events[i - 1])
  {
    var open' := PrefixBracketed(events, open, i + 1);
    var upTo := events[..i + 1];
    assert upTo[|upTo| - 1] == events[i] && upTo[..i] == events[..i];
    var before := events[..i];
    assert before[|before| - 1] == events[i - 1];
  }

  lemma ArmKeeps(t: TrackerState, wanted: Option<Kind>)
    requires RunsExactly(t, wanted)
    ensures RunsExactly(Armed(t), wanted) && Armed(t).pending == None
  {
    if t.pending.Some? {
      ArmAdds(t);
    }
  }

  lemma DeliverKeeps(t: TrackerState, wanted: Option<Kind>, e: Event)
    requires RunsExactly(t, wanted)
    requires wanted.Some? ==> !IsSign(e) && KindOf(e) == wanted.value
    ensures RunsExactly(After(t, Deliver(e)), if IsSign(e) then Some(KindOf(e)) else None)
  {
    ArmKeeps(t, wanted);
    var t' := Armed(t);
    hide Armed;
    if wanted.Some? {
      CancelRemoves(t', if wanted.value == Master then t'.leaderCancel else t'.workerCancel);
    }
  }

  lemma CloseKeeps(t: TrackerState, wanted: Option<Kind>)
    requires RunsExactly(t, wanted)
    ensures ClosedOk(After(t, CloseStatus))
  {
    assert Live(t.(status := Closed)) == Live(t);
  }

  lemma ClosedStays(t: TrackerState, input: Input)
    requires ClosedOk(t)
    ensures ClosedOk(After(t, input))
    ensures input == CloseCancel ==> Live(After(t, input)) == {} && After(t, input).pending == t.pending
    ensures input != CloseCancel ==> Live(Armed(After(t, input))) == Live(Armed(t))
  {
    if t.pending.Some? {
      ArmAdds(t);
    }
    CancelEmpties(t);
    assert t.(status := Closed) == t;
  }

  /**
    A tracker that receives any stretch of a node's events, with Close calls anywhere, runs,
    until a Close, exactly one ticker while the latest event it has received is a Sign, of that
    Sign's kind and once the start callback has armed it, and none otherwise; after a Close
    never more than one.
   */
  lemma {:induction false} TrackerFollowsEvents(
    inputs: seq<Input>, events: seq<Event>, open: Option<Kind>, from: nat, to: nat)
    requires IsStretch(Delivered(inputs), events, open, from, to)
    ensures CloseStatus !in inputs ==> RunsExactly(AfterAll(inputs), Wanted(Delivered(inputs)))
    ensures CloseStatus in inputs ==> ClosedOk(AfterAll(inputs))
  {
    if inputs != [] {
      var rest, input := inputs[..|inputs| - 1], inputs[|inputs| - 1];
      assert inputs == rest + [input];
      assert CloseStatus in inputs <==> CloseStatus in rest || input == CloseStatus;
      var seen := Delivered(rest);
      var to' := if input.Deliver? then to - 1 else to;
      assert Delivered(inputs) == seen + if input.Deliver? then [input.event] else [];
      assert seen == Delivered(inputs)[..|seen|] == events[from..to'];
      TrackerFollowsEvents(rest, events, open, from, to');
      hide Bracketed;
      TrackerStep(AfterAll(rest), rest, input, events, open, from, to');
    }
  }

  lemma TrackerStep(t: TrackerState, rest: seq<Input>, input: Input, events: seq<Event>, open: Option<Kind>, from: nat, to: nat)
    requires IsStretch(Delivered(rest), events, open, from, to)
    requires input.Deliver? ==> to < |events| && input.event == events[to]
    requires if CloseStatus in rest then ClosedOk(t) else RunsExactly(t, Wanted(Delivered(rest)))
    ensures CloseStatus !in rest && input != CloseStatus ==> RunsExactly(After(t, input), Wanted(Delivered(rest + [input])))
    ensures CloseStatus in rest || input == CloseStatus ==> ClosedOk(After(t, input))
  {
    var seen := Delivered(rest);
    assert (rest + [input])[..|rest|] == rest;
    assert Delivered(rest + [input]) == seen + if input.Deliver? then [input.event] else [];
    hide RunsExactly, ClosedOk, Delivered;
    if CloseStatus in rest {
      ClosedStays(t, input);
    } else {
      match input {
        case Deliver(e) =>
          if seen != [] {
            assert seen[|seen| - 1] == events[to - 1];
            Neighbours(events, open, to);
          }
          DeliverKeeps(t, Wanted(seen), e);
        case Arm => ArmKeeps(t, Wanted(seen));
        case CloseStatus => CloseKeeps(t, Wanted(seen));
        case CloseCancel => NotClosed(t, Wanted(seen));
      }
    }
  }

  lemma NotClosed(t: TrackerState, wanted: Option<Kind>)
    requires RunsExactly(t, wanted)
    ensures After(t, CloseCancel) == t
  {
  }

  // Nothing after the cancels of a Close changes what will run once a pending start has armed.
  lemma {:induction false} NothingAfterClose(inputs: seq<Input>, post: seq<Input>)
    requires ClosedOk(AfterAll(inputs)) && CloseCancel !in post
    ensures ClosedOk(AfterAll(inputs + post)) && Live(Armed(AfterAll(inputs + post))) == Live(Armed(AfterAll(inputs)))
  {
    hide ClosedOk, Armed, Live, After, AfterAll;
    if post == [] {
      assert inputs + post == inputs;
    } else {
      var rest, last := post[..|post| - 1], post[|post| - 1];
      assert post == rest + [last];
      NothingAfterClose(inputs, rest);
      assert inputs + post == (inputs + rest) + [last];
      AfterAllSnoc(inputs + rest, last);
      ClosedStays(AfterAll(inputs + rest), last);
    }
  }

  lemma AfterAllSnoc(inputs: seq<Input>, input: Input)
    ensures AfterAll(inputs + [input]) == After(AfterAll(inputs), input)
  {
    assert (inputs + [input])[..|inputs|] == inputs;
  }

  /**
    After the last Close no ticker ever runs again if and only if no start callback was between
    its status swap and its arming when that Close cancelled.
   */
  lemma CloseStopsIff(pre: seq<Input>, post: seq<Input>, events: seq<Event>, open: Option<Kind>, from: nat, to: nat)
    requires IsStretch(Delivered(pre), events, open, from, to) && CloseStatus in pre && CloseCancel !in post
    ensures Live(Armed(AfterAll(pre + [CloseCancel] + post))) == {} <==> AfterAll(pre).pending == None
  {
    TrackerFollowsEvents(pre, events, open, from, to);
    var t := AfterAll(pre);
    var closed := pre + [CloseCancel];
    assert closed[..|pre|] == pre;
    ClosedStays(t, CloseCancel);
    NothingAfterClose(closed, post);
    var t' := AfterAll(closed);
    if t'.pending.Some? {
      ArmAdds(t');
    }
  }

  /** A Close in the middle of a start callback leaves the new ticker running for ever. */
  lemma CloseDuringStartLeaks()
    ensures var t := AfterAll([Deliver(SignMaster), CloseStatus, CloseCancel, Arm]);
            t.status == Closed && t.pending == None && Live(t) == {0}
  {
    var i1 := [Deliver(SignMaster)];
    var i2 := i1 + [CloseStatus];
    var i3 := i2 + [CloseCancel];
    var i4 := i3 + [Arm];
    assert i1[..0] == [] && i2[..1] == i1 && i3[..2] == i2 && i4[..3] == i3;
    assert AfterAll(i1) == TrackerState(Running, [], None, None, Some(Master));
    assert AfterAll(i3) == TrackerState(Closed, [], None, None, Some(Master));
    assert AfterAll(i4) == TrackerState(Closed, [Ticker(Master, false)], Some(0), None, None);
    assert i4 == [Deliver(SignMaster), CloseStatus, CloseCancel, Arm];
  }

  /** Brackets of matching kinds are needed: an Unsign of the other kind leaves a ticker behind. */
  lemma MismatchedUnsignLeaks(l: Name)
    ensures var t := AfterAll([Deliver(SignMaster), Deliver(UnsignFollower), Deliver(SignFollower(l)), Arm]);
            Live(t) == {0, 1} && t.tickers == [Ticker(Master, false), Ticker(Worker, false)]
  {
    var i1 := [Deliver(SignMaster)];
    var i2 := i1 + [Deliver(UnsignFollower)];
    var i3 := i2 + [Deliver(SignFollower(l))];
    var i4 := i3 + [Arm];
    assert i1[..0] == [] && i2[..1] == i1 && i3[..2] == i2 && i4[..3] == i3;
    assert AfterAll(i1) == TrackerState(Running, [], None, None, Some(Master));
    assert AfterAll(i2) == TrackerState(Stopped, [Ticker(Master, false)], Some(0), None, None);
    assert AfterAll(i3) == TrackerState(Running, [Ticker(Master, false)], Some(0), None, Some(Worker));
    assert i4 == [Deliver(SignMaster), Deliver(UnsignFollower), Deliver(SignFollower(l)), Arm];
  }

  // ---------- the imperative form ----------

  class DefaultJobTracker {
    var status: Status
    var tickers: seq<Ticker>
    var leaderCancel: Option<nat>
    var workerCancel: Option<nat>

    constructor ()
      ensures State() == Fresh()
    {
      status, tickers, leaderCancel, workerCancel := Stopped, [], None, None;
    }

    function State(): TrackerState
      reads this
    {
      TrackerState(status, tickers, leaderCancel, workerCancel, None)
    }

    method OnStartedLeading()
      modifies this
      ensures State() == After(After(old(State()), Deliver(SignMaster)), Arm)
    {
      if status != Stopped {
        return;
      }
      status := Running;
      leaderCancel := Some(|tickers|);
      tickers := tickers + [Ticker(Master, false)];
    }

    method OnStoppedLeading()
      modifies this
      ensures State() == After(old(State()), Deliver(UnsignMaster))
    {
      if status != Running {
        return;
      }
      status := Stopped;
      Cancel(leaderCancel);
    }

    method OnStartedFollowing(leaderName: Name)
      modifies this
      ensures State() == After(After(old(State()), Deliver(SignFollower(leaderName))), Arm)
    {
      if status != Stopped {
        return;
      }
      status := Running;
      workerCancel := Some(|tickers|);
      tickers := tickers + [Ticker(Worker, false)];
    }

    method OnStoppedFollowing()
      modifies this
      ensures State() == After(old(State()), Deliver(UnsignFollower))
    {
      if status != Running {
        return;
      }
      status := Stopped;
      Cancel(workerCancel);
    }

    method Close()
      modifies this
      ensures State() == After(After(old(State()), CloseStatus), CloseCancel)
    {
      if status == Running {
        status := Closed;
      }
      if status == Stopped {
        status := Closed;
      }
      Cancel(leaderCancel);
      Cancel(workerCancel);
    }

    method Cancel(cancel: Option<nat>)
      modifies this`tickers
      ensures tickers == Cancelled(old(tickers), cancel)
    {
      if cancel.Some? && cancel.value < |tickers| {
        tickers := tickers[cancel.value := tickers[cancel.value].(cancelled := true)];
      }
    }
  }
}
