/**
  Offset tracking of the Kafka v2 consumer (`kafka/v2/consumer.go`) for one partition, in
  single-message and in batch mode.  Claims put messages into a ring queue and hand them to
  workers; workers finish items in any order; a committer pops the finished prefix of the
  queue and marks the last popped message.  Sessions come and go with rebalances.

  Messages are named by their position in the partition's log.  A step that does not apply
  changes nothing, so a run is any list of steps.
 */
module KafkaOffsets {
  import opened Options
  import opened Retry

  datatype Config = Config(
    log: seq<int>,               // offsets of the partition's messages, strictly increasing
    batch: bool,
    retryCount: int,             // ConsumerRetryCount
    deadLetterCount: int,        // DeadLetterRetryCount
    hasDeadLetter: bool)

  datatype Phase = Handling | DeadLettering | Over

  // A msgItem or batchItem for the messages at positions [lo, hi), and its call counters.
  datatype Item = Item(lo: nat, hi: nat, done: bool, phase: Phase, calls: nat, failures: nat, dlCalls: nat)

  // A ring queue: items waiting for commit.  `floor` is the position after the last popped
  // message, `next` the position after the last message put in.
  datatype Queue = Queue(floor: nat, ids: seq<nat>, next: nat)

  // Where ConsumeClaim / consumeClaimBatch stands.
  datatype Claim =
    | NoClaim
    | Reading(next: nat)
    | Queueing(id: nat, next: nat)
    | Sending(id: nat, next: nat)

  // commitCompletedOffsets at work on a queue; `popped` is the position after its last pop.
  datatype Commit = NoCommit | Committing(queue: nat, popped: Option<nat>)

  datatype State = State(
    items: seq<Item>,
    queues: seq<Queue>,          // every queue ever made; a commit may still hold a deleted one
    current: Option<nat>,        // the queue registered in msgQueue
    session: bool,               // consumerSession is set
    claim: Claim,
    channel: multiset<nat>,
    workers: multiset<nat>,
    timers: multiset<nat>,
    commit: Commit,
    finished: set<nat>,          // history: positions whose processing is complete
    marked: nat)                 // every position below is marked as consumed

  datatype Result = Succeeded | Failed(running: bool) | Panicked

  datatype Step =
    | StartClaim(from: nat)
    | Receive(n: nat)
    | Enqueue
    | Send
    | EndClaim
    | DeleteQueue
    | DropSession
    | Take(id: nat)
    | Handle(id: nat, result: Result)
    | DeadLetter(id: nat, ok: bool)
    | Abandon(id: nat)
    | Fire(id: nat)
    | LoseTimer(id: nat)
    | BeginCommit
    | PopDone
    | EndCommit

  function Start(from: nat): State {
    State([], [], None, false, NoClaim, multiset{}, multiset{}, multiset{}, NoCommit, Span(0, from), from)
  }

  function Span(lo: nat, hi: nat): (ps: set<nat>)
    ensures forall p :: p in ps <==> lo <= p < hi
    decreases hi
  {
    if hi <= lo then {} else Span(lo, hi - 1) + {hi - 1}
  }

  function Max(a: nat, b: nat): nat { if a < b then b else a }

  // ---------- steps of the claim goroutine ----------

  // A claim starts at the committed offset of the group.  If that is above what this member
  // has marked, other members have finished the messages in between.
  function AfterStartClaim(c: Config, s: State, from: nat): State {
    if s.claim != NoClaim || s.current.Some? || |c.log| < from then s
    else s.(session := true, claim := Reading(from), marked := from, finished := s.finished + Span(s.marked, from))
  }

  // Single mode sends the item to the workers before queueing it, batch mode after.
  function AfterReceive(c: Config, s: State, n: nat): State {
    if !s.claim.Reading? || n == 0 || (!c.batch && n != 1) || |c.log| < s.claim.next + n then s
    else
      var id := |s.items|;
      s.(items := s.items + [Item(s.claim.next, s.claim.next + n, false, Handling, 0, 0, 0)],
         channel := if c.batch then s.channel else s.channel + multiset{id},
         claim := Queueing(id, s.claim.next + n))
  }

  function AfterEnqueue(c: Config, s: State): State {
    if !s.claim.Queueing? || |s.items| <= s.claim.id then s
    else
      var id, next := s.claim.id, s.claim.next;
      var claim := if c.batch then Sending(id, next) else Reading(next);
      if s.current.Some? && s.current.value < |s.queues| then
        var q := s.queues[s.current.value];
        s.(queues := s.queues[s.current.value := Queue(q.floor, q.ids + [id], next)], claim := claim)
      else
        s.(queues := s.queues + [Queue(s.items[id].lo, [id], next)], current := Some(|s.queues|), claim := claim)
  }

  function AfterSend(s: State): State {
    if !s.claim.Sending? then s
    else s.(channel := s.channel + multiset{s.claim.id}, claim := Reading(s.claim.next))
  }

  // ---------- steps of the workers and retry timers ----------

  function AfterFinish(s: State, id: nat, item: Item): State
    requires id < |s.items|
  {
    s.(items := s.items[id := item.(done := true, phase := Over)],
       workers := s.workers - multiset{id},
       finished := s.finished + Span(item.lo, item.hi))
  }

  function AfterDrop(s: State, id: nat, item: Item): State
    requires id < |s.items|
  {
    s.(items := s.items[id := item.(phase := Over)], workers := s.workers - multiset{id})
  }

  // What one handler call, and one dead-letter call, make of the item.
  function HandledItem(c: Config, item: Item, result: Result): Item {
    var called := item.(calls := item.calls + 1);
    match result
    case Succeeded => called.(done := true, phase := Over)
    case Panicked => called.(phase := Over)
    case Failed(running) =>
      var failed := called.(failures := item.failures + 1);
      if failed.failures < c.retryCount then if c.batch || running then failed else failed.(phase := Over)
      else if c.batch && !running then failed.(phase := Over)
      else if !c.hasDeadLetter then failed.(done := true, phase := Over)
      else failed.(phase := DeadLettering)
  }

  function DeadLetteredItem(c: Config, item: Item, ok: bool): Item {
    var called := item.(dlCalls := item.dlCalls + 1);
    if ok then called.(done := true, phase := Over)
    else if called.dlCalls < Limit(c.deadLetterCount) then called
    else called.(phase := Over)
  }

  // A worker lets go of an item that is over, and of a message that a timer will bring back.
  function AfterWork(c: Config, s: State, id: nat, item: Item): State
    requires id < |s.items|
  {
    if item.phase == Over then if item.done then AfterFinish(s, id, item) else AfterDrop(s, id, item)
    else if item.phase == Handling && !c.batch then
      s.(items := s.items[id := item], workers := s.workers - multiset{id}, timers := s.timers + multiset{id})
    else s.(items := s.items[id := item])
  }

  // An item that is done is held by no worker.
  function AfterHandle(c: Config, s: State, id: nat, result: Result): State {
    if id !in s.workers || |s.items| <= id || s.items[id].phase != Handling || s.items[id].done then s
    else AfterWork(c, s, id, HandledItem(c, s.items[id], result))
  }

  function AfterDeadLetter(c: Config, s: State, id: nat, ok: bool): State {
    if id !in s.workers || |s.items| <= id || s.items[id].phase != DeadLettering || s.items[id].done then s
    else AfterWork(c, s, id, DeadLetteredItem(c, s.items[id], ok))
  }

  // ---------- steps of the committer ----------

  function AfterPop(s: State): State {
    if s.commit == NoCommit || |s.queues| <= s.commit.queue || s.queues[s.commit.queue].ids == [] then s
    else
      var q := s.queues[s.commit.queue];
      if |s.items| <= q.ids[0] || !s.items[q.ids[0]].done then s
      else
        var hi := s.items[q.ids[0]].hi;
        s.(queues := s.queues[s.commit.queue := Queue(hi, q.ids[1..], q.next)],
           commit := Committing(s.commit.queue, Some(hi)))
  }

  function Stuck(s: State, q: Queue): bool {
    q.ids == [] || |s.items| <= q.ids[0] || !s.items[q.ids[0]].done
  }

  function AfterEndCommit(s: State): State {
    if s.commit == NoCommit || |s.queues| <= s.commit.queue || !Stuck(s, s.queues[s.commit.queue]) then s
    else s.(commit := NoCommit,
            marked := if s.commit.popped.Some? && s.session then Max(s.marked, s.commit.popped.value) else s.marked)
  }

  function Apply(c: Config, s: State, step: Step): State {
    match step
    case StartClaim(from) => AfterStartClaim(c, s, from)
    case Receive(n) => AfterReceive(c, s, n)
    case Enqueue => AfterEnqueue(c, s)
    case Send => AfterSend(s)
    case EndClaim => s.(claim := NoClaim)
    case DeleteQueue => if s.claim == NoClaim then s.(current := None) else s
    case DropSession => if s.claim == NoClaim then s.(session := false) else s
    case Take(id) =>
      if id in s.channel then s.(channel := s.channel - multiset{id}, workers := s.workers + multiset{id}) else s
    case Handle(id, result) => AfterHandle(c, s, id, result)
    case DeadLetter(id, ok) => AfterDeadLetter(c, s, id, ok)
    case Abandon(id) => if id in s.workers && id < |s.items| then AfterDrop(s, id, s.items[id]) else s
    case Fire(id) =>
      if id in s.timers then s.(timers := s.timers - multiset{id}, channel := s.channel + multiset{id}) else s
    case LoseTimer(id) => if id in s.timers then s.(timers := s.timers - multiset{id}) else s
    case BeginCommit =>
      if s.commit == NoCommit && s.current.Some? then s.(commit := Committing(s.current.value, None)) else s
    case PopDone => AfterPop(s)
    case EndCommit => AfterEndCommit(s)
  }

  function After(c: Config, from: nat, steps: seq<Step>): State {
    if steps == [] then Start(from)
    else Apply(c, After(c, from, steps[..|steps| - 1]), steps[|steps| - 1])
  }

  // ---------- what is finished ----------

  ghost predicate AllFinished(s: State, upTo: nat) {
    forall p: nat :: p < upTo ==> p in s.finished
  }

  ghost predicate ItemOk(s: State, item: Item) {
    item.lo < item.hi && (item.done ==> forall p: nat :: item.lo <= p < item.hi ==> p in s.finished)
  }

  // The queue holds consecutive stretches of the log, from `floor` to `next`.
  ghost predicate Chained(items: seq<Item>, ids: seq<nat>, floor: nat, next: nat) {
    && (forall i :: 0 <= i < |ids| ==> ids[i] < |items|)
    && (if ids == [] then floor == next
        else
          && items[ids[0]].lo == floor && items[ids[|ids| - 1]].hi == next
          && forall i :: 0 < i < |ids| ==> items[ids[i - 1]].hi == items[ids[i]].lo)
  }

  ghost predicate QueueOk(s: State, q: Queue) {
    AllFinished(s, q.floor) && Chained(s.items, q.ids, q.floor, q.next)
  }

  // Where the next queued item must begin: at the end of the current queue, or, if there is
  // none yet, at a position below which everything is finished.
  ghost predicate Joins(s: State, lo: nat) {
    if s.current.Some? then s.current.value < |s.queues| && s.queues[s.current.value].next == lo
    else AllFinished(s, lo)
  }

  ghost predicate ClaimOk(s: State) {
    match s.claim
    case NoClaim => true
    case Reading(next) => Joins(s, next)
    case Queueing(id, next) => id < |s.items| && s.items[id].hi == next && Joins(s, s.items[id].lo)
    case Sending(id, next) => id < |s.items| && Joins(s, next)
  }

  ghost predicate CommitOk(s: State) {
    s.commit != NoCommit ==>
      && s.commit.queue < |s.queues|
      && (s.commit.popped.Some? ==>
            AllFinished(s, s.commit.popped.value) && s.commit.popped.value == s.queues[s.commit.queue].floor)
  }

  ghost predicate Inv(s: State) {
    && AllFinished(s, s.marked)
    && (forall i :: 0 <= i < |s.items| ==> ItemOk(s, s.items[i]))
    && (forall i :: 0 <= i < |s.queues| ==> QueueOk(s, s.queues[i]))
    && (s.current.Some? ==> s.current.value < |s.queues|)
    && ClaimOk(s) && CommitOk(s)
  }

  // Finished positions are never forgotten, and items keep their messages.
  ghost predicate Evolves(s: State, s': State) {
    && s.finished <= s'.finished && |s.items| <= |s'.items|
    && forall i :: 0 <= i < |s.items| ==> s'.items[i].lo == s.items[i].lo && s'.items[i].hi == s.items[i].hi
  }

  ghost predicate ItemsOk(s: State) {
    forall i :: 0 <= i < |s.items| ==> ItemOk(s, s.items[i])
  }

  // The step touched items, workers, channel and timers only.
  ghost predicate SameTracking(s: State, s': State) {
    s'.queues == s.queues && s'.current == s.current && s'.claim == s.claim && s'.commit == s.commit && s'.marked == s.marked
  }

  lemma QueueStaysOk(s: State, s': State, q: Queue)
    requires QueueOk(s, q) && Evolves(s, s')
    ensures QueueOk(s', q)
  {
  }

  lemma WorkersKeepInv(s: State, s': State)
    requires Inv(s) && Evolves(s, s') && ItemsOk(s') && SameTracking(s, s')
    ensures Inv(s')
  {
    forall i | 0 <= i < |s'.queues| ensures QueueOk(s', s'.queues[i]) {
      QueueStaysOk(s, s', s.queues[i]);
    }
  }

  lemma FinishEvolves(s: State, id: nat, item: Item)
    requires ItemsOk(s) && id < |s.items| && item.lo == s.items[id].lo && item.hi == s.items[id].hi
    ensures Evolves(s, AfterFinish(s, id, item)) && ItemsOk(AfterFinish(s, id, item)) && SameTracking(s, AfterFinish(s, id, item))
  {
    var s' := AfterFinish(s, id, item);
    forall i | 0 <= i < |s'.items| ensures ItemOk(s', s'.items[i]) {
      assert ItemOk(s, s.items[i]);
    }
  }

  // Replacing an item by one with other counters.
  lemma UpdateEvolves(s: State, s': State, id: nat, item: Item)
    requires ItemsOk(s) && id < |s.items| && s'.items == s.items[id := item] && s'.finished == s.finished
    requires item.lo == s.items[id].lo && item.hi == s.items[id].hi && item.done == s.items[id].done
    ensures Evolves(s, s') && ItemsOk(s')
  {
    forall i | 0 <= i < |s'.items| ensures ItemOk(s', s'.items[i]) {
      assert ItemOk(s, s.items[i]);
    }
  }

  // A worker's call neither changes the item's messages nor finishes it without ending it.
  predicate Continues(item: Item, item': Item) {
    item'.lo == item.lo && item'.hi == item.hi && (item'.done ==> item'.phase == Over)
  }

  lemma CallsContinue(c: Config, item: Item, result: Result, ok: bool)
    requires !item.done
    ensures Continues(item, HandledItem(c, item, result)) && Continues(item, DeadLetteredItem(c, item, ok))
  {
  }

  lemma WorkItems(c: Config, s: State, id: nat, item: Item)
    requires id < |s.items|
    ensures AfterWork(c, s, id, item).items == s.items[id := item] && SameTracking(s, AfterWork(c, s, id, item))
  {
  }

  lemma WorkKeepsInv(c: Config, s: State, id: nat, item: Item)
    requires Inv(s) && id < |s.items| && !s.items[id].done && Continues(s.items[id], item)
    ensures Inv(AfterWork(c, s, id, item))
  {
    var s' := AfterWork(c, s, id, item);
    WorkItems(c, s, id, item);
    if item.done {
      FinishEvolves(s, id, item);
    } else {
      UpdateEvolves(s, s', id, item);
    }
    hide AfterWork;
    WorkersKeepInv(s, s');
  }

  lemma HandleKeepsInv(c: Config, s: State, id: nat, result: Result)
    requires Inv(s)
    ensures Inv(AfterHandle(c, s, id, result))
  {
    hide AfterWork, HandledItem, DeadLetteredItem, Inv;
    if AfterHandle(c, s, id, result) != s {
      CallsContinue(c, s.items[id], result, true);
      WorkKeepsInv(c, s, id, HandledItem(c, s.items[id], result));
    }
  }

  lemma DeadLetterKeepsInv(c: Config, s: State, id: nat, ok: bool)
    requires Inv(s)
    ensures Inv(AfterDeadLetter(c, s, id, ok))
  {
    hide AfterWork, HandledItem, DeadLetteredItem, Inv;
    if AfterDeadLetter(c, s, id, ok) != s {
      CallsContinue(c, s.items[id], Succeeded, ok);
      WorkKeepsInv(c, s, id, DeadLetteredItem(c, s.items[id], ok));
    }
  }

  lemma ReceiveKeepsInv(c: Config, s: State, n: nat)
    requires Inv(s)
    ensures Inv(AfterReceive(c, s, n))
  {
    var s' := AfterReceive(c, s, n);
    if s' != s {
      forall i | 0 <= i < |s'.queues| ensures QueueOk(s', s'.queues[i]) {
        QueueStaysOk(s, s', s.queues[i]);
      }
      forall i | 0 <= i < |s'.items| ensures ItemOk(s', s'.items[i]) {
        if i < |s.items| {
          assert ItemOk(s, s.items[i]);
        }
      }
    }
  }

  lemma ChainedSnoc(items: seq<Item>, ids: seq<nat>, floor: nat, next: nat, id: nat)
    requires Chained(items, ids, floor, next) && id < |items| && items[id].lo == next
    ensures Chained(items, ids + [id], floor, items[id].hi)
  {
  }

  lemma EnqueueKeepsInv(c: Config, s: State)
    requires Inv(s)
    ensures Inv(AfterEnqueue(c, s))
  {
    var s' := AfterEnqueue(c, s);
    if s.claim.Queueing? {
      var id := s.claim.id;
      assert ItemOk(s, s.items[id]);
      if s.current.Some? {
        var q := s.queues[s.current.value];
        assert QueueOk(s, q);
        ChainedSnoc(s.items, q.ids, q.floor, q.next, id);
      }
      forall i | 0 <= i < |s'.queues| ensures QueueOk(s', s'.queues[i]) {
        if i < |s.queues| && Some(i) != s.current {
          assert QueueOk(s, s.queues[i]);
        }
      }
      assert ItemsOk(s');
    }
  }

  lemma PopKeepsInv(s: State)
    requires Inv(s)
    ensures Inv(AfterPop(s))
  {
    var s' := AfterPop(s);
    if s' != s {
      var q := s.queues[s.commit.queue];
      assert QueueOk(s, q);
      var item := s.items[q.ids[0]];
      assert ItemOk(s, item);
      assert AllFinished(s, item.hi);
      assert Chained(s.items, q.ids[1..], item.hi, q.next);
      forall i | 0 <= i < |s'.queues| ensures QueueOk(s', s'.queues[i]) {
        assert QueueOk(s, s.queues[i]);
      }
      assert ItemsOk(s');
    }
  }

  lemma ClaimKeepsInv(c: Config, s: State, step: Step)
    requires Inv(s) && (step.StartClaim? || step.Send? || step.EndClaim? || step.DeleteQueue? || step.DropSession?)
    ensures Inv(Apply(c, s, step))
  {
    var s' := Apply(c, s, step);
    forall i | 0 <= i < |s'.queues| ensures QueueOk(s', s'.queues[i]) {
      QueueStaysOk(s, s', s.queues[i]);
    }
    assert ItemsOk(s');
  }

  lemma CommitKeepsInv(c: Config, s: State, step: Step)
    requires Inv(s) && (step.BeginCommit? || step.EndCommit?)
    ensures Inv(Apply(c, s, step))
  {
    var s' := Apply(c, s, step);
    forall i | 0 <= i < |s'.queues| ensures QueueOk(s', s'.queues[i]) {
      QueueStaysOk(s, s', s.queues[i]);
    }
    assert ItemsOk(s');
  }

  lemma StepKeepsInv(c: Config, s: State, step: Step)
    requires Inv(s)
    ensures Inv(Apply(c, s, step))
  {
    hide Inv, AfterHandle, AfterDeadLetter, AfterReceive, AfterEnqueue, AfterPop, AfterStartClaim, AfterSend, AfterEndCommit;
    match step {
      case Receive(n) => ReceiveKeepsInv(c, s, n);
      case Enqueue => EnqueueKeepsInv(c, s);
      case Handle(id, result) => HandleKeepsInv(c, s, id, result);
      case DeadLetter(id, ok) => DeadLetterKeepsInv(c, s, id, ok);
      case Abandon(id) =>
        if id in s.workers && id < |s.items| {
          AbandonKeepsInv(s, id);
        }
      case PopDone => PopKeepsInv(s);
      case BeginCommit => CommitKeepsInv(c, s, step);
      case EndCommit => CommitKeepsInv(c, s, step);
      case Take(id) => HandOverKeepsInv(c, s, step);
      case Fire(id) => HandOverKeepsInv(c, s, step);
      case LoseTimer(id) => HandOverKeepsInv(c, s, step);
      case _ => ClaimKeepsInv(c, s, step);
    }
  }

  lemma AbandonKeepsInv(s: State, id: nat)
    requires Inv(s) && id < |s.items|
    ensures Inv(AfterDrop(s, id, s.items[id]))
  {
    var s' := AfterDrop(s, id, s.items[id]);
    UpdateEvolves(s, s', id, s'.items[id]);
    WorkersKeepInv(s, s');
  }

  lemma HandOverKeepsInv(c: Config, s: State, step: Step)
    requires Inv(s) && (step.Take? || step.Fire? || step.LoseTimer?)
    ensures Inv(Apply(c, s, step))
  {
    var s' := Apply(c, s, step);
    assert ItemsOk(s');
    WorkersKeepInv(s, s');
  }

  lemma {:induction false} RunKeepsInv(c: Config, from: nat, steps: seq<Step>)
    ensures Inv(After(c, from, steps))
  {
    if steps != [] {
      RunKeepsInv(c, from, steps[..|steps| - 1]);
      hide Apply, Inv;
      StepKeepsInv(c, After(c, from, steps[..|steps| - 1]), steps[|steps| - 1]);
    }
  }

  // ---------- at-least-once ----------

  ghost predicate Increasing(log: seq<int>) {
    forall i, j :: 0 <= i < j < |log| ==> log[i] < log[j]
  }

  // Everything named by a position exists in the log.
  ghost predicate InLog(c: Config, s: State) {
    && s.marked <= |c.log|
    && (forall i :: 0 <= i < |s.items| ==> s.items[i].hi <= |c.log|)
    && (s.commit.Committing? && s.commit.popped.Some? ==> s.commit.popped.value <= |c.log|)
  }

  // A step changes at most one item, and not its messages, or adds one from the log.
  lemma ItemsChange(c: Config, s: State, step: Step)
    ensures var items := Apply(c, s, step).items;
            || items == s.items
            || (step.Receive? && items == s.items + [items[|s.items|]] && items[|s.items|].hi <= |c.log|)
            || ((step.Handle? || step.DeadLetter? || step.Abandon?) && step.id < |s.items| == |items| &&
                items == s.items[step.id := items[step.id]] &&
                items[step.id].lo == s.items[step.id].lo && items[step.id].hi == s.items[step.id].hi)
  {
    hide AfterWork, HandledItem, DeadLetteredItem;
    if step.Handle? || step.DeadLetter? {
      if step.id < |s.items| && !s.items[step.id].done {
        var item := s.items[step.id];
        if step.Handle? {
          CallsContinue(c, item, step.result, true);
          WorkItems(c, s, step.id, HandledItem(c, item, step.result));
        } else {
          CallsContinue(c, item, Succeeded, step.ok);
          WorkItems(c, s, step.id, DeadLetteredItem(c, item, step.ok));
        }
      }
    } else {
      hide AfterHandle, AfterDeadLetter;
    }
  }

  lemma MarksChange(c: Config, s: State, step: Step)
    requires InLog(c, s)
    ensures Apply(c, s, step).marked <= |c.log|
    ensures var commit := Apply(c, s, step).commit;
            commit.Committing? && commit.popped.Some? ==> commit.popped.value <= |c.log|
  {
    hide AfterHandle, AfterDeadLetter, AfterEnqueue;
    HandleMarksNothing(c, s, step);
  }

  lemma HandleMarksNothing(c: Config, s: State, step: Step)
    ensures step.Handle? || step.DeadLetter? || step.Enqueue? ==>
              Apply(c, s, step).marked == s.marked && Apply(c, s, step).commit == s.commit
  {
  }

  lemma StepKeepsInLog(c: Config, s: State, step: Step)
    requires InLog(c, s)
    ensures InLog(c, Apply(c, s, step))
  {
    hide Apply;
    ItemsChange(c, s, step);
    MarksChange(c, s, step);
  }

  lemma {:induction false} RunKeepsInLog(c: Config, from: nat, steps: seq<Step>)
    requires from <= |c.log|
    ensures InLog(c, After(c, from, steps))
  {
    if steps != [] {
      RunKeepsInLog(c, from, steps[..|steps| - 1]);
      hide Apply, InLog;
      StepKeepsInLog(c, After(c, from, steps[..|steps| - 1]), steps[|steps| - 1]);
    }
  }

  // MarkMessage(m) marks offset m.Offset + 1: the next offset to be consumed.
  function MarkedOffset(c: Config, s: State): int
    requires 0 < s.marked <= |c.log|
  {
    c.log[s.marked - 1] + 1
  }

  /**
    On every interleaving of claims, workers, retries, commits and rebalances, the marked
    offset never passes a message of the partition that is not finished.
   */
  lemma MarkNeverPassesUnfinished(c: Config, from: nat, steps: seq<Step>)
    requires Increasing(c.log) && from <= |c.log|
    ensures var s := After(c, from, steps);
            && s.marked <= |c.log|
            && (0 < s.marked ==> forall p: nat :: p < |c.log| && c.log[p] < MarkedOffset(c, s) ==> p in s.finished)
  {
    RunKeepsInv(c, from, steps);
    RunKeepsInLog(c, from, steps);
  }

  /**
    A position becomes finished only when its handler returns nil, when its dead-letter
    handler does, or when the handler has failed for the last time and there is no
    dead-letter handler; or, before a claim starts, through another member of the group.
   */
  lemma OnlyCompletionFinishes(c: Config, s: State, step: Step, p: nat)
    requires p in Apply(c, s, step).finished && p !in s.finished
    ensures step.Handle? || step.DeadLetter? || (step.StartClaim? && s.marked <= p < step.from)
    ensures !step.StartClaim? ==> step.id < |s.items| && s.items[step.id].lo <= p < s.items[step.id].hi
    ensures step.Handle? ==> step.result == Succeeded ||
                             (step.result.Failed? && !c.hasDeadLetter && c.retryCount <= s.items[step.id].failures + 1 &&
                              (c.batch ==> step.result.running))
    ensures step.DeadLetter? ==> step.ok && s.items[step.id].phase == DeadLettering
  {
  }

  /** Whatever the committer pops from a queue, it pops in log order and only when finished. */
  lemma PopAdvancesFloor(c: Config, from: nat, steps: seq<Step>)
    ensures var s := After(c, from, steps);
            var s' := AfterPop(s);
            forall i :: 0 <= i < |s.queues| ==>
              s.queues[i].floor <= s'.queues[i].floor && AllFinished(s, s'.queues[i].floor)
  {
    var s := After(c, from, steps);
    RunKeepsInv(c, from, steps);
    PopKeepsInv(s);
    var s' := AfterPop(s);
    forall i | 0 <= i < |s.queues| ensures s.queues[i].floor <= s'.queues[i].floor && AllFinished(s, s'.queues[i].floor) {
      assert QueueOk(s, s.queues[i]) && QueueOk(s', s'.queues[i]);
      if s'.queues[i] != s.queues[i] {
        assert ItemOk(s, s.items[s.queues[i].ids[0]]);
      }
    }
  }

  /** A claim that starts reads from the committed offset on, which is then the mark, in a set session. */
  lemma ClaimStarts(c: Config, s: State, from: nat)
    requires s.claim == NoClaim && s.current == None && from <= |c.log|
    ensures var s' := Apply(c, s, StartClaim(from));
            && s'.session && s'.claim == Reading(from) && s'.marked == from && s'.queues == s.queues && s'.items == s.items
            && forall p :: p in s'.finished <==> p in s.finished || s.marked <= p < from
  {
  }

  // ---------- what a commit does ----------

  // The commit under way has popped something from its queue, with a session to mark it in.
  predicate PoppedInSession(s: State) {
    s.commit.Committing? && s.commit.popped.Some? && s.session
  }

  /**
    The lower bound, over every run: when a commit that has popped something ends while the
    session is set, the mark is at least the floor of its queue, below which everything popped
    lies, and at least what it was, and is one of the two; without a session, or with nothing
    popped, the mark stays.
   */
  lemma CommitMarks(c: Config, from: nat, steps: seq<Step>)
    requires steps != [] && steps[|steps| - 1] == EndCommit
    ensures var s, s' := After(c, from, steps[..|steps| - 1]), After(c, from, steps);
            s.commit.Committing? && s'.commit == NoCommit ==>
              && s.commit.queue < |s.queues| && s'.queues == s.queues
              && var floor := s.queues[s.commit.queue].floor;
                 if PoppedInSession(s) then floor <= s'.marked && s.marked <= s'.marked && s'.marked in {floor, s.marked}
                 else s'.marked == s.marked
  {
    RunKeepsInv(c, from, steps[..|steps| - 1]);
  }

  // How many items at the head of the queue are done.
  function DoneCount(items: seq<Item>, ids: seq<nat>): (n: nat)
    ensures n <= |ids|
    ensures forall i :: 0 <= i < n ==> ids[i] < |items| && items[ids[i]].done
    ensures n < |ids| ==> |items| <= ids[n] || !items[ids[n]].done
  {
    if ids == [] || |items| <= ids[0] || !items[ids[0]].done then 0 else 1 + DoneCount(items, ids[1..])
  }

  // `k` pops in a row.
  function Pops(s: State, k: nat): State {
    if k == 0 then s else AfterPop(Pops(s, k - 1))
  }

  // The position up to which the first `k` items of a queue reach.
  function Reach(s: State, q: Queue, k: nat): nat
    requires k <= |q.ids| && forall i :: 0 <= i < |q.ids| ==> q.ids[i] < |s.items|
  {
    if k == 0 then q.floor else s.items[q.ids[k - 1]].hi
  }

  // The state after popping the first `k` items of queue `c`.
  function Popped(s: State, c: nat, k: nat): State
    requires c < |s.queues| && k <= |s.queues[c].ids| && forall i :: 0 <= i < |s.queues[c].ids| ==> s.queues[c].ids[i] < |s.items|
  {
    var q := s.queues[c];
    s.(queues := s.queues[c := Queue(Reach(s, q, k), q.ids[k..], q.next)],
       commit := Committing(c, if k == 0 then None else Some(Reach(s, q, k))))
  }

  lemma PopOnce(s: State, c: nat, k: nat)
    requires c < |s.queues| && k < DoneCount(s.items, s.queues[c].ids)
    requires forall i :: 0 <= i < |s.queues[c].ids| ==> s.queues[c].ids[i] < |s.items|
    ensures AfterPop(Popped(s, c, k)) == Popped(s, c, k + 1)
  {
    var q := s.queues[c];
    assert q.ids[k..][0] == q.ids[k] && q.ids[k..][1..] == q.ids[k + 1..];
    assert s.items[q.ids[k]].done;
    hide DoneCount;
  }

  lemma {:induction false} PopsAre(s: State, c: nat, k: nat)
    requires c < |s.queues| && k <= DoneCount(s.items, s.queues[c].ids)
    requires forall i :: 0 <= i < |s.queues[c].ids| ==> s.queues[c].ids[i] < |s.items|
    ensures Pops(Popped(s, c, 0), k) == Popped(s, c, k)
  {
    hide Popped, DoneCount, AfterPop;
    if k > 0 {
      PopsAre(s, c, k - 1);
      PopOnce(s, c, k - 1);
    }
  }

  lemma BeginsAt(c: Config, s: State)
    requires s.commit == NoCommit && s.current.Some? && s.current.value < |s.queues|
    requires var ids := s.queues[s.current.value].ids; forall i :: 0 <= i < |ids| ==> ids[i] < |s.items|
    ensures Apply(c, s, BeginCommit) == Popped(s, s.current.value, 0)
  {
    var q := s.queues[s.current.value];
    assert q.ids[0..] == q.ids && s.queues[s.current.value := q] == s.queues;
  }

  lemma EndsAt(c: Config, s: State, i: nat, k: nat)
    requires s.commit == NoCommit && i < |s.queues| && k <= DoneCount(s.items, s.queues[i].ids)
    requires forall j :: 0 <= j < |s.queues[i].ids| ==> s.queues[i].ids[j] < |s.items|
    ensures var q, s' := s.queues[i], Apply(c, Popped(s, i, k), EndCommit);
            if k < DoneCount(s.items, q.ids) then s'.commit != NoCommit
            else s' == s.(queues := s.queues[i := Queue(Reach(s, q, k), q.ids[k..], q.next)],
                          marked := if 0 < k && s.session && s.marked < Reach(s, q, k) then Reach(s, q, k) else s.marked)
  {
    var ids, t := s.queues[i].ids, Popped(s, i, k);
    assert t.queues[i].ids == ids[k..] && t.items == s.items;
    if k < |ids| {
      assert ids[k..][0] == ids[k];
    }
    assert Stuck(t, t.queues[i]) <==> k == DoneCount(s.items, ids);
    hide Stuck, DoneCount;
  }

  // A whole commit: begin, `k` pops, end.
  function Committed(c: Config, s: State, k: nat): State {
    Apply(c, Pops(Apply(c, s, BeginCommit), k), EndCommit)
  }

  /**
    A commit that nothing interrupts removes exactly the maximal finished prefix of its queue,
    not one item more or less, and marks the end of it: stopped earlier it does not end.
   */
  lemma CommitTakesDonePrefix(c: Config, from: nat, steps: seq<Step>, k: nat)
    requires var s := After(c, from, steps); s.commit == NoCommit && s.current.Some?
    ensures var s := After(c, from, steps);
            && s.current.value < |s.queues|
            && var q := s.queues[s.current.value];
               var n := DoneCount(s.items, q.ids);
               && (k < n ==> Committed(c, s, k).commit != NoCommit)
               && (forall i :: 0 <= i < |q.ids| ==> q.ids[i] < |s.items|)
               && Committed(c, s, n) ==
                  s.(queues := s.queues[s.current.value := Queue(Reach(s, q, n), q.ids[n..], q.next)],
                     marked := if 0 < n && s.session && s.marked < Reach(s, q, n) then Reach(s, q, n) else s.marked)
  {
    RunKeepsInv(c, from, steps);
    var s := After(c, from, steps);
    var i := s.current.value;
    assert QueueOk(s, s.queues[i]);
    hide After, Inv, QueueOk, DoneCount, Popped, Apply;
    var n := DoneCount(s.items, s.queues[i].ids);
    BeginsAt(c, s);
    PopsAre(s, i, n);
    EndsAt(c, s, i, n);
    if k < n {
      PopsAre(s, i, k);
      EndsAt(c, s, i, k);
    }
  }

  // ---------- owners and calls ----------

  // How many goroutines or channels hold item `i`.
  function Owners(c: Config, s: State, i: nat): nat {
    s.channel[i] + s.workers[i] + s.timers[i] +
    (if (s.claim.Sending? || (s.claim.Queueing? && c.batch)) && s.claim.id == i then 1 else 0)
  }

  predicate CallsOk(c: Config, item: Item) {
    match item.phase
    case Handling => item.calls == item.failures < Limit(c.retryCount) && item.dlCalls == 0 && !item.done
    case DeadLettering =>
      item.calls == item.failures == Limit(c.retryCount) && item.dlCalls < Limit(c.deadLetterCount) && !item.done
    case Over =>
      && item.calls <= Limit(c.retryCount) && item.dlCalls <= Limit(c.deadLetterCount)
      && (0 < item.dlCalls ==> item.failures == Limit(c.retryCount))
  }

  // What must hold of the holders of one item.
  predicate HeldOk(c: Config, s: State, i: nat) {
    && Owners(c, s, i) <= 1
    && (|s.items| <= i ==> Owners(c, s, i) == 0)
    && (i < |s.items| && s.items[i].phase == Over ==> Owners(c, s, i) == 0)
  }

  ghost predicate OwnersOk(c: Config, s: State) {
    && (forall i: nat :: HeldOk(c, s, i))
    && (forall i: nat :: i < |s.items| ==> CallsOk(c, s.items[i]))
    && (s.claim.Queueing? ==> s.claim.id < |s.items|)
  }

  // A worker keeps its item, passes it to a timer, or lets it go; only then may it be over.
  predicate WorkerMove(s: State, s': State, id: nat) {
    && s'.claim == s.claim && s'.channel == s.channel
    && id < |s.items| == |s'.items| && s'.items == s.items[id := s'.items[id]] && id in s.workers
    && (|| (s'.workers == s.workers && s'.timers == s.timers && s'.items[id].phase != Over)
        || (s'.workers == s.workers - multiset{id} && s'.timers == s.timers && s'.items[id].phase == Over)
        || (s'.workers == s.workers - multiset{id} && s'.timers == s.timers + multiset{id} && s'.items[id].phase != Over))
  }

  lemma WorkMoves(c: Config, s: State, id: nat, item: Item)
    requires id < |s.items| && id in s.workers
    ensures WorkerMove(s, AfterWork(c, s, id, item), id)
  {
    WorkItems(c, s, id, item);
  }

  lemma HandleMoves(c: Config, s: State, id: nat, result: Result)
    ensures AfterHandle(c, s, id, result) == s || WorkerMove(s, AfterHandle(c, s, id, result), id)
  {
    hide AfterWork, HandledItem, WorkerMove;
    if id in s.workers && id < |s.items| {
      WorkMoves(c, s, id, HandledItem(c, s.items[id], result));
    }
  }

  lemma DeadLetterMoves(c: Config, s: State, id: nat, ok: bool)
    ensures AfterDeadLetter(c, s, id, ok) == s || WorkerMove(s, AfterDeadLetter(c, s, id, ok), id)
  {
    hide AfterWork, DeadLetteredItem, WorkerMove;
    if id in s.workers && id < |s.items| {
      WorkMoves(c, s, id, DeadLetteredItem(c, s.items[id], ok));
    }
  }

  lemma WorkerMoves(c: Config, s: State, step: Step)
    requires step.Handle? || step.DeadLetter? || step.Abandon?
    ensures Apply(c, s, step) == s || WorkerMove(s, Apply(c, s, step), step.id)
  {
    hide AfterHandle, AfterDeadLetter;
    if step.Handle? {
      HandleMoves(c, s, step.id, step.result);
    } else if step.DeadLetter? {
      DeadLetterMoves(c, s, step.id, step.ok);
    }
  }

  lemma MoveHolds(c: Config, s: State, s': State, id: nat, i: nat)
    requires HeldOk(c, s, i) && WorkerMove(s, s', id)
    ensures HeldOk(c, s', i)
  {
    if i < |s.items| && i != id {
      assert s'.items[i] == s.items[i];
    }
  }

  lemma HandOverHolds(c: Config, s: State, step: Step, i: nat)
    requires HeldOk(c, s, i) && (step.Take? || step.Fire? || step.LoseTimer?)
    ensures HeldOk(c, Apply(c, s, step), i)
  {
  }

  lemma ReceiveHolds(c: Config, s: State, n: nat, i: nat)
    requires HeldOk(c, s, i)
    ensures HeldOk(c, AfterReceive(c, s, n), i)
  {
  }

  lemma SendHolds(c: Config, s: State, i: nat)
    requires HeldOk(c, s, i)
    ensures HeldOk(c, AfterSend(s), i)
  {
  }

  lemma ClaimHolds(c: Config, s: State, step: Step, i: nat)
    requires HeldOk(c, s, i) && (step.Receive? || step.Enqueue? || step.Send? || step.EndClaim?)
    requires s.claim.Queueing? ==> s.claim.id < |s.items|
    ensures HeldOk(c, Apply(c, s, step), i)
  {
    hide AfterReceive, AfterSend, AfterHandle, AfterDeadLetter, AfterPop, AfterEndCommit, AfterStartClaim;
    if step.Receive? {
      ReceiveHolds(c, s, step.n, i);
    } else if step.Send? {
      SendHolds(c, s, i);
    }
  }

  lemma OtherHolds(c: Config, s: State, step: Step, i: nat)
    requires HeldOk(c, s, i)
    requires step.StartClaim? || step.DeleteQueue? || step.DropSession? || step.BeginCommit? || step.PopDone? || step.EndCommit?
    ensures HeldOk(c, Apply(c, s, step), i)
  {
  }

  // ---------- nothing is lost ----------

  // An item that is not over is held by exactly one owner.
  predicate Kept(c: Config, s: State, i: nat) {
    i < |s.items| && s.items[i].phase != Over ==> Owners(c, s, i) == 1
  }

  // The steps that drop what they hold: a claim that ends, a timer that is stopped.
  predicate Loses(step: Step) { step.EndClaim? || step.LoseTimer? }

  lemma WorkKeeps(c: Config, s: State, step: Step, i: nat)
    requires HeldOk(c, s, i) && Kept(c, s, i) && (step.Handle? || step.DeadLetter? || step.Abandon?)
    ensures Kept(c, Apply(c, s, step), i)
  {
    hide Apply;
    WorkerMoves(c, s, step);
  }

  lemma ClaimKeeps(c: Config, s: State, step: Step, i: nat)
    requires HeldOk(c, s, i) && Kept(c, s, i) && (s.claim.Queueing? ==> s.claim.id < |s.items|)
    requires step.Receive? || step.Enqueue? || step.Send? || step.StartClaim?
    ensures Kept(c, Apply(c, s, step), i)
  {
  }

  lemma StepKeeps(c: Config, s: State, step: Step, i: nat)
    requires HeldOk(c, s, i) && Kept(c, s, i) && !Loses(step) && (s.claim.Queueing? ==> s.claim.id < |s.items|)
    ensures Kept(c, Apply(c, s, step), i)
  {
    hide AfterHandle, AfterDeadLetter, AfterPop, AfterEndCommit, AfterReceive, AfterEnqueue, AfterSend, AfterStartClaim;
    if step.Handle? || step.DeadLetter? || step.Abandon? {
      WorkKeeps(c, s, step, i);
    } else if step.Receive? || step.Enqueue? || step.Send? || step.StartClaim? {
      ClaimKeeps(c, s, step, i);
    } else {
      PopsNoItem(s);
    }
  }

  lemma PopsNoItem(s: State)
    ensures var p, e := AfterPop(s), AfterEndCommit(s);
            && p.items == s.items && p.channel == s.channel && p.workers == s.workers && p.timers == s.timers && p.claim == s.claim
            && e.items == s.items && e.channel == s.channel && e.workers == s.workers && e.timers == s.timers && e.claim == s.claim
  {
  }

  /**
    Conservation: on every run in which no claim ends and no timer is stopped, every item that
    is not over is held exactly once, by the claim, the channel, a worker or a timer.
   */
  lemma {:induction false} NothingIsLost(c: Config, from: nat, steps: seq<Step>, i: nat)
    requires forall k :: 0 <= k < |steps| ==> !Loses(steps[k])
    ensures Kept(c, After(c, from, steps), i)
  {
    if steps != [] {
      var rest := steps[..|steps| - 1];
      NothingIsLost(c, from, rest, i);
      RunKeepsOwners(c, from, rest);
      assert HeldOk(c, After(c, from, rest), i);
      hide Apply, HeldOk, Kept;
      StepKeeps(c, After(c, from, rest), steps[|steps| - 1], i);
    }
  }

  /** What lets an item go: a worker that gives up ends it unfinished, a stopped timer just forgets it. */
  lemma LettingGo(c: Config, s: State, id: nat)
    ensures id in s.workers && id < |s.items| ==>
              var s' := Apply(c, s, Abandon(id));
              && s'.workers[id] == s.workers[id] - 1 && s'.finished == s.finished
              && id < |s'.items| && s'.items[id].phase == Over && s'.items[id].done == s.items[id].done
    ensures id in s.timers ==>
              var s' := Apply(c, s, LoseTimer(id)); s'.timers[id] == s.timers[id] - 1 && s'.channel == s.channel && s'.items == s.items
  {
  }

  /** A rebalance ends the claim, drops the queue and the session, and so lets the next claim start. */
  lemma CleanupLeaves(c: Config, s: State, from: nat)
    requires from <= |c.log|
    ensures var s' := Apply(c, Apply(c, Apply(c, s, EndClaim), DeleteQueue), DropSession);
            && s'.claim == NoClaim && s'.current == None && !s'.session && s'.queues == s.queues && s'.marked == s.marked
            && Apply(c, s', StartClaim(from)).claim == Reading(from) && Apply(c, s', StartClaim(from)).session
  {
  }

  /** Who gets an item in a hand-over: the worker that takes it, the channel after a timer or a send. */
  lemma HandOvers(c: Config, s: State, id: nat)
    ensures id in s.channel ==>
              var s' := Apply(c, s, Take(id));
              s'.workers[id] == s.workers[id] + 1 && s'.channel[id] == s.channel[id] - 1 && s'.items == s.items
    ensures id in s.timers ==>
              var s' := Apply(c, s, Fire(id));
              s'.channel[id] == s.channel[id] + 1 && s'.timers[id] == s.timers[id] - 1 && s'.items == s.items
    ensures s.claim.Sending? && s.claim.id == id ==>
              var s' := Apply(c, s, Send);
              s'.channel[id] == s.channel[id] + 1 && s'.claim == Reading(s.claim.next)
  {
  }

  lemma CallsKeptOk(c: Config, item: Item, result: Result, ok: bool)
    requires CallsOk(c, item)
    ensures item.phase == Handling ==> CallsOk(c, HandledItem(c, item, result))
    ensures item.phase == DeadLettering ==> CallsOk(c, DeadLetteredItem(c, item, ok))
  {
  }

  lemma HandleKeepsCalls(c: Config, s: State, id: nat, result: Result)
    requires id < |s.items| && CallsOk(c, s.items[id])
    ensures id < |AfterHandle(c, s, id, result).items| && CallsOk(c, AfterHandle(c, s, id, result).items[id])
  {
    hide AfterWork, HandledItem, CallsOk;
    CallsKeptOk(c, s.items[id], result, true);
    WorkItems(c, s, id, HandledItem(c, s.items[id], result));
  }

  lemma DeadLetterKeepsCalls(c: Config, s: State, id: nat, ok: bool)
    requires id < |s.items| && CallsOk(c, s.items[id])
    ensures id < |AfterDeadLetter(c, s, id, ok).items| && CallsOk(c, AfterDeadLetter(c, s, id, ok).items[id])
  {
    hide AfterWork, DeadLetteredItem, CallsOk;
    CallsKeptOk(c, s.items[id], Succeeded, ok);
    WorkItems(c, s, id, DeadLetteredItem(c, s.items[id], ok));
  }

  lemma HandleCalls(c: Config, s: State, step: Step)
    requires (step.Handle? || step.DeadLetter? || step.Abandon?) && step.id < |s.items| && CallsOk(c, s.items[step.id])
    ensures step.id < |Apply(c, s, step).items| && CallsOk(c, Apply(c, s, step).items[step.id])
  {
    hide AfterHandle, AfterDeadLetter;
    if step.Handle? {
      HandleKeepsCalls(c, s, step.id, step.result);
    } else if step.DeadLetter? {
      DeadLetterKeepsCalls(c, s, step.id, step.ok);
    }
  }

  lemma StepCalls(c: Config, s: State, step: Step)
    requires forall i: nat :: i < |s.items| ==> CallsOk(c, s.items[i])
    ensures forall i: nat :: i < |Apply(c, s, step).items| ==> CallsOk(c, Apply(c, s, step).items[i])
  {
    ItemsChange(c, s, step);
    var items := Apply(c, s, step).items;
    if (step.Handle? || step.DeadLetter? || step.Abandon?) && step.id < |s.items| {
      HandleCalls(c, s, step);
    }
    if step.Receive? && |s.items| < |items| {
      assert items[|s.items|].phase == Handling && CallsOk(c, items[|s.items|]);
    }
    hide Apply, CallsOk;
  }

  lemma StepKeepsOwners(c: Config, s: State, step: Step)
    requires OwnersOk(c, s)
    ensures OwnersOk(c, Apply(c, s, step))
  {
    var s' := Apply(c, s, step);
    StepCalls(c, s, step);
    ClaimNamesItem(c, s, step);
    hide Apply, CallsOk, Owners, WorkerMove;
    forall i: nat ensures HeldOk(c, s', i) {
      assert HeldOk(c, s, i);
      if step.Handle? || step.DeadLetter? || step.Abandon? {
        WorkerMoves(c, s, step);
        if s' != s {
          MoveHolds(c, s, s', step.id, i);
        }
      } else if step.Take? || step.Fire? || step.LoseTimer? {
        HandOverHolds(c, s, step, i);
      } else if step.Receive? || step.Enqueue? || step.Send? || step.EndClaim? {
        ClaimHolds(c, s, step, i);
      } else {
        OtherHolds(c, s, step, i);
      }
    }
  }

  lemma ClaimNamesItem(c: Config, s: State, step: Step)
    requires s.claim.Queueing? ==> s.claim.id < |s.items|
    ensures Apply(c, s, step).claim.Queueing? ==> Apply(c, s, step).claim.id < |Apply(c, s, step).items|
  {
  }

  lemma {:induction false} RunKeepsOwners(c: Config, from: nat, steps: seq<Step>)
    ensures OwnersOk(c, After(c, from, steps))
  {
    if steps != [] {
      RunKeepsOwners(c, from, steps[..|steps| - 1]);
      hide Apply, OwnersOk;
      StepKeepsOwners(c, After(c, from, steps[..|steps| - 1]), steps[|steps| - 1]);
    }
  }

  /**
    On every run an item has at most one owner (claim, channel, worker or timer), none once it
    is over; its handler is called at most max(1, ConsumerRetryCount) times; its dead-letter
    handler only after exactly that many failures and at most max(1, DeadLetterRetryCount) times.
   */
  lemma OneOwnerBoundedCalls(c: Config, from: nat, steps: seq<Step>, i: nat)
    ensures var s := After(c, from, steps);
            && Owners(c, s, i) <= 1
            && (i < |s.items| ==>
                  && (s.items[i].done ==> Owners(c, s, i) == 0)
                  && s.items[i].calls <= Limit(c.retryCount)
                  && s.items[i].dlCalls <= Limit(c.deadLetterCount)
                  && (0 < s.items[i].dlCalls ==> s.items[i].failures == Limit(c.retryCount)))
  {
    RunKeepsOwners(c, from, steps);
    assert HeldOk(c, After(c, from, steps), i);
  }

  // ---------- one call of a worker ----------

  const SECOND := 1_000_000_000

  // The first `n` handler calls of a batch, and the first `n` dead-letter calls; `handles` and
  // `accepts` say which of them return nil, `closing` whether the consumer is closed when the
  // last permitted handler call has failed.
  ghost function Handled(c: Config, item: Item, handles: int -> bool, closing: bool, n: nat): Item {
    if n == 0 then item
    else HandledItem(c, Handled(c, item, handles, closing, n - 1),
                     if handles(n) then Succeeded else Result.Failed(!closing || n < Limit(c.retryCount)))
  }

  ghost function DeadLettered(c: Config, item: Item, accepts: int -> bool, n: nat): Item {
    if n == 0 then item else DeadLetteredItem(c, DeadLettered(c, item, accepts, n - 1), accepts(n))
  }

  lemma {:induction false} HandledFailures(c: Config, item: Item, handles: int -> bool, closing: bool, n: nat)
    requires c.batch && item.calls == item.failures == 0 && n < Limit(c.retryCount)
    requires AllFailed(handles, n)
    ensures Handled(c, item, handles, closing, n) == item.(calls := n, failures := n)
  {
    if n > 0 {
      HandledFailures(c, item, handles, closing, n - 1);
    }
  }

  // The last handler call of a batch: a success, or the last failure permitted.
  lemma HandledLast(c: Config, item: Item, handles: int -> bool, closing: bool, n: nat)
    requires c.batch && !item.done && item.calls == item.failures == 0 && item.phase == Handling
    requires 1 <= n <= Limit(c.retryCount) && AllFailed(handles, n - 1) && (handles(n) || n == Limit(c.retryCount))
    ensures Handled(c, item, handles, closing, n) ==
            if handles(n) then item.(calls := n, failures := n - 1, done := true, phase := Over)
            else item.(calls := n, failures := n, done := !closing && !c.hasDeadLetter,
                       phase := if !closing && c.hasDeadLetter then DeadLettering else Over)
  {
    HandledFailures(c, item, handles, closing, n - 1);
  }

  lemma {:induction false} DeadLetterFailures(c: Config, item: Item, accepts: int -> bool, n: nat)
    requires item.dlCalls == 0 && n < Limit(c.deadLetterCount) && AllFailed(accepts, n)
    ensures DeadLettered(c, item, accepts, n) == item.(dlCalls := n)
  {
    if n > 0 {
      DeadLetterFailures(c, item, accepts, n - 1);
    }
  }

  // A msgItem or batchItem; the ghost fields count what its calls so far did.
  class WorkItem {
    const lo: nat
    const hi: nat
    var done: bool
    var retryCount: nat
    var retryDelay: int
    ghost var phase: Phase
    ghost var calls: nat
    ghost var dlCalls: nat

    constructor (lo: nat, hi: nat)
      ensures State() == Item(lo, hi, false, Handling, 0, 0, 0)
    {
      this.lo, this.hi, done, retryCount, retryDelay := lo, hi, false, 0, 0;
      phase, calls, dlCalls := Handling, 0, 0;
    }

    ghost function State(): Item
      reads this
    {
      Item(lo, hi, done, phase, calls, retryCount, dlCalls)
    }

    /**
      handleDeadLetter and the worker's markDone: the item goes through the dead-letter steps of
      the calls made, and is abandoned if the consumer closes meanwhile.
     */
    method HandleDeadLetter(c: Config, interval: int, accepts: int -> bool, stopBefore: int -> bool, stopAfter: int -> bool)
      returns (stopped: bool)
      requires phase == DeadLettering && dlCalls == 0 && !done
      modifies this`done, this`phase, this`dlCalls
      ensures var item := DeadLettered(c, old(State()), accepts, dlCalls);
              State() == if stopped then item.(phase := Over) else item
      ensures done <==> !stopped && 1 <= dlCalls && accepts(dlCalls)
      ensures dlCalls <= Limit(c.deadLetterCount) && (stopped ==> dlCalls == 0 || !accepts(dlCalls))
      ensures AllFailed(accepts, if done then dlCalls - 1 else dlCalls) && phase == Over
    {
      ghost var item := State();
      var outcome, n, _ := Run(c.deadLetterCount, k => Delay(k, interval, 30 * SECOND), accepts, stopBefore, stopAfter);
      stopped := outcome == Cancelled;
      done := outcome == Done;
      phase, dlCalls := Over, n;
      if stopped {
        DeadLetterFailures(c, item, accepts, n);
      } else {
        DeadLetterFailures(c, item, accepts, n - 1);
      }
    }

    /**
      processMessage: the item goes through one handler step and, after its last failure, the
      dead-letter steps.  The result says whether a timer will hand it to the workers again.
     */
    method ProcessMessage(c: Config, result: Result, interval: int,
                          accepts: int -> bool, stopBefore: int -> bool, stopAfter: int -> bool)
      returns (again: bool, stopped: bool)
      requires !c.batch && phase == Handling && CallsOk(c, State())
      modifies this
      ensures var item := DeadLettered(c, HandledItem(c, old(State()), result), accepts, dlCalls);
              State() == if stopped then item.(phase := Over) else item
      ensures again <==> result == Result.Failed(true) && retryCount < c.retryCount
      ensures if again then phase == Handling && 0 < retryCount && retryDelay == Min(SECOND * Pow2(retryCount - 1), 30 * SECOND)
              else phase == Over
      ensures done <==> result == Succeeded ||
                        (result.Failed? && c.retryCount <= retryCount && (c.hasDeadLetter ==> 1 <= dlCalls && accepts(dlCalls)))
      ensures CallsOk(c, State()) && calls == old(calls) + 1
      ensures retryCount == old(retryCount) + if result.Failed? then 1 else 0
    {
      calls := calls + 1;
      again, stopped := false, false;
      match result {
        case Panicked => phase := Over;
        case Succeeded => done, phase := true, Over;
        case Failed(running) =>
          retryCount := retryCount + 1;
          if retryCount < c.retryCount {
            if running {
              retryDelay := RetryDelayWithBase(retryCount, SECOND, 30 * SECOND);
              again := true;
            } else {
              phase := Over;
            }
          } else if c.hasDeadLetter {
            phase := DeadLettering;
            stopped := HandleDeadLetter(c, interval, accepts, stopBefore, stopAfter);
          } else {
            done, phase := true, Over;
          }
      }
    }

    // The handler calls of a batch, all made by one worker.
    method HandleBatch(c: Config, handles: int -> bool, stopBefore: int -> bool, stopAfter: int -> bool, closing: bool)
      returns (stopped: bool, rejected: bool)
      requires c.batch && State() == Item(lo, hi, false, Handling, 0, 0, 0)
      modifies this
      ensures var item := Handled(c, old(State()), handles, closing, calls);
              State() == if stopped then item.(phase := Over) else item
      ensures CallsOk(c, State()) && dlCalls == 0
      ensures rejected <==> phase == DeadLettering
      ensures rejected <==> !stopped && !closing && c.hasDeadLetter && !handles(calls)
      ensures phase != DeadLettering ==> phase == Over
      ensures done <==> 1 <= calls && (handles(calls) || (!stopped && !closing && !c.hasDeadLetter))
      ensures !stopped ==> 1 <= calls
      ensures calls == 0 || AllFailed(handles, calls - 1)
      ensures retryCount == if 1 <= calls && handles(calls) then calls - 1 else calls
      ensures stopped ==> calls == 0 || !handles(calls)
    {
      ghost var item := State();
      var outcome, n, _ := Run(c.retryCount, k => Delay(k, SECOND, 30 * SECOND), handles, stopBefore, stopAfter);
      calls, retryCount := n, if outcome == Done then n - 1 else n;
      stopped := outcome == Cancelled;
      hide Handled;
      if stopped {
        HandledFailures(c, item, handles, closing, n);
      } else {
        HandledLast(c, item, handles, closing, n);
      }
      done := outcome == Done || (outcome == Outcome.Failed && !closing && !c.hasDeadLetter);
      rejected := outcome == Outcome.Failed && !closing && c.hasDeadLetter;
      phase := if rejected then DeadLettering else Over;
    }

    /**
      processBatch: the batch goes through the handler steps of the calls made and, after the
      last failure, the dead-letter steps.
     */
    method ProcessBatch(c: Config, handles: int -> bool, stopBefore: int -> bool, stopAfter: int -> bool, closing: bool,
                        interval: int, accepts: int -> bool, dlStopBefore: int -> bool, dlStopAfter: int -> bool)
      returns (stopped: bool)
      requires c.batch && State() == Item(lo, hi, false, Handling, 0, 0, 0)
      modifies this
      ensures var item := DeadLettered(c, Handled(c, old(State()), handles, closing, calls), accepts, dlCalls);
              State() == if stopped then item.(phase := Over) else item
      ensures phase == Over && CallsOk(c, State())
      ensures done <==> 1 <= calls && (handles(calls) ||
                                       (!stopped && !closing && (c.hasDeadLetter ==> 1 <= dlCalls && accepts(dlCalls))))
    {
      hide Handled;
      var rejected;
      stopped, rejected := HandleBatch(c, handles, stopBefore, stopAfter, closing);
      if rejected {
        stopped := HandleDeadLetter(c, interval, accepts, dlStopBefore, dlStopAfter);
      }
    }
  }
}
