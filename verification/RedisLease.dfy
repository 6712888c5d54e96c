/**
  Leader election over one Redis key (`cluster/cluster_redis.go`): SETNX with an expiry,
  a compare-and-PEXPIRE renewal script, the leader-sync job and the lease watchdog.

  Every command is a step, and so is what the sync job does with what it has read; a round of
  the watchdog, from reading the leader's name to releasing it, is one step.  Steps of different
  nodes and of the clock interleave freely.  A step that does not apply changes nothing, so a
  run is any list of steps.
 */
module RedisLease {
  import opened Options
  import opened ClusterNode

  // The election key: its value, when SETNX created it, and when it expires.
  datatype Key = Key(owner: Name, since: int, expires: int)

  // What the sync job has read from the key and not yet acted on.
  datatype Reading = NotRead | Absent | Owner(name: Name)

  // `granted` is when the server last executed a SETNX or renewal of the node for its own name.
  datatype Node = Node(leader: Option<Name>, leads: bool, reading: Reading, watchdog: bool, granted: Option<int>)

  datatype World = World(now: int, key: Option<Key>, nodes: map<Name, Node>, past: seq<Key>)

  datatype Step =
    | Pass(d: nat)
    | SetNX(n: Name)
    | Read(n: Name)
    | Act(n: Name)                    // redisSyncLeader acts on its reading
    | Skip(n: Name)                   // ... or gives up: the leader node is unknown locally
    | Tick(n: Name)                   // one watchdog round
    | TickFails(n: Name, applied: bool)

  function Start(names: set<Name>): World {
    World(0, None, map n | n in names :: Node(None, false, NotRead, false, None), [])
  }

  function Live(w: World): Option<Key> {
    if w.key.Some? && w.now < w.key.value.expires then w.key else None
  }

  predicate Owns(w: World, n: Name) {
    Live(w).Some? && Live(w).value.owner == n
  }

  function Released(n: Node): Node {
    n.(leader := None, leads := false)
  }

  function Renewed(w: World, period: int): World
    requires w.key.Some?
  {
    w.(key := Some(w.key.value.(expires := w.now + period)))
  }

  // The renewal script, called by `n` with the leader name it currently holds.
  function Renew(w: World, period: int, n: Name): (World, bool)
    requires n in w.nodes
  {
    var me := w.nodes[n];
    if me.leader.Some? && Owns(w, me.leader.value) then
      (Renewed(w, period).(nodes := if me.leader.value == n then w.nodes[n := me.(granted := Some(w.now))] else w.nodes), true)
    else (w, false)
  }

  function Stopped(w: World, n: Name): World
    requires n in w.nodes
  {
    w.(nodes := w.nodes[n := Released(w.nodes[n]).(watchdog := false)])
  }

  function Apply(w: World, period: int, step: Step): World {
    match step
    case Pass(d) => w.(now := w.now + d)
    case SetNX(n) =>
      if n !in w.nodes || Live(w).Some? then w
      else w.(key := Some(Key(n, w.now, w.now + period)),
              nodes := w.nodes[n := w.nodes[n].(granted := Some(w.now))],
              past := if w.key.Some? then w.past + [w.key.value] else w.past)
    case Read(n) =>
      if n !in w.nodes then w
      else w.(nodes := w.nodes[n := w.nodes[n].(reading := if Live(w).Some? then Owner(Live(w).value.owner) else Absent)])
    case Act(n) =>
      if n !in w.nodes then w
      else w.(nodes := w.nodes[n := Acted(n, w.nodes[n])])
    case Skip(n) =>
      if n !in w.nodes then w
      else w.(nodes := w.nodes[n := w.nodes[n].(reading := NotRead)])
    case Tick(n) =>
      if n !in w.nodes || !w.nodes[n].watchdog then w
      else var (w', ok) := Renew(w, period, n); if ok then w' else Stopped(w', n)
    case TickFails(n, applied) =>
      if n !in w.nodes || !w.nodes[n].watchdog then w
      else Stopped(if applied then Renew(w, period, n).0 else w, n)
  }

  // A reading of its own name makes the node leader and starts the watchdog if none runs;
  // nothing stops a watchdog that already runs.
  function Acted(n: Name, me: Node): Node {
    match me.reading
    case NotRead => me
    case Absent => Released(me).(reading := NotRead)
    case Owner(x) =>
      if me.leader == Some(x) then me.(reading := NotRead)
      else me.(leader := Some(x), leads := x == n, watchdog := me.watchdog || x == n, reading := NotRead)
  }

  function After(names: set<Name>, period: int, steps: seq<Step>): World {
    if steps == [] then Start(names)
    else Apply(After(names, period, steps[..|steps| - 1]), period, steps[|steps| - 1])
  }

  lemma AfterSnoc(names: set<Name>, period: int, steps: seq<Step>, step: Step)
    ensures After(names, period, steps + [step]) == Apply(After(names, period, steps), period, step)
  {
    assert (steps + [step])[..|steps|] == steps;
  }

  // ---------- ownership intervals ----------

  // All keys there have ever been, oldest first; each was owned during [since, expires).
  function History(w: World): seq<Key> {
    w.past + (if w.key.Some? then [w.key.value] else [])
  }

  ghost predicate Ordered(h: seq<Key>) {
    && (forall i :: 0 <= i < |h| ==> h[i].since <= h[i].expires)
    && (forall i, j :: 0 <= i < j < |h| ==> h[i].expires <= h[j].since)
  }

  ghost predicate Started(w: World) {
    forall i :: 0 <= i < |History(w)| ==> History(w)[i].since <= w.now
  }

  // Ownership only grows: later histories keep every interval, perhaps longer.
  ghost predicate Extends(h: seq<Key>, h': seq<Key>) {
    && |h| <= |h'|
    && forall i :: 0 <= i < |h| ==>
         h'[i].owner == h[i].owner && h'[i].since == h[i].since && h[i].expires <= h'[i].expires
  }

  // Every grant so far ends by now + period; keys are replaced, never deleted.
  ghost predicate Bounded(w: World, period: int) {
    if w.key.Some? then w.key.value.expires <= w.now + period else w.past == []
  }

  // The three things a step can do to the key: nothing, renew it, or create a new one.
  predicate KeyKept(w: World, w': World) {
    w'.key == w.key && w'.past == w.past && w.now <= w'.now
  }

  predicate KeyRenewed(w: World, w': World, period: int) {
    Live(w).Some? && w'.past == w.past && w'.now == w.now && w'.key == Some(w.key.value.(expires := w.now + period))
  }

  predicate KeyCreated(w: World, w': World, period: int, n: Name) {
    && Live(w) == None && w'.now == w.now && w'.key == Some(Key(n, w.now, w.now + period))
    && w'.past == if w.key.Some? then w.past + [w.key.value] else w.past
  }

  ghost predicate GrantsKept(w: World, w': World, except: Option<Name>) {
    && w'.nodes.Keys == w.nodes.Keys
    && forall n :: n in w.nodes && Some(n) != except ==> w'.nodes[n].granted == w.nodes[n].granted
  }

  predicate GrantedNow(w: World, n: Name) {
    n in w.nodes && w.nodes[n].granted == Some(w.now)
  }

  lemma KeyEffect(w: World, period: int, step: Step)
    ensures var w' := Apply(w, period, step);
            || (KeyKept(w, w') && GrantsKept(w, w', None))
            || (KeyRenewed(w, w', period) && GrantsKept(w, w', None))
            || (KeyRenewed(w, w', period) && GrantsKept(w, w', Some(w.key.value.owner)) && GrantedNow(w', w.key.value.owner))
            || (step.SetNX? && KeyCreated(w, w', period, step.n) && GrantsKept(w, w', Some(step.n)) && GrantedNow(w', step.n))
  {
  }

  lemma StepKeepsHistory(w: World, period: int, step: Step)
    requires 0 < period && Ordered(History(w)) && Started(w) && Bounded(w, period)
    ensures var w' := Apply(w, period, step);
            Ordered(History(w')) && Started(w') && Bounded(w', period) && Extends(History(w), History(w')) && w.now <= w'.now
  {
    var w' := Apply(w, period, step);
    KeyEffect(w, period, step);
    hide Apply, GrantsKept, GrantedNow;
    if w.key.Some? {
      assert History(w)[|w.past|] == w.key.value;
    }
    if KeyKept(w, w') {
      assert History(w') == History(w);
    } else if KeyRenewed(w, w', period) {
      assert History(w') == History(w)[|w.past| := w'.key.value];
    } else {
      assert History(w') == History(w) + [w'.key.value];
    }
  }

  // Whoever owns the key in `early` owns an interval of `h` that covers that moment.
  ghost predicate Covered(early: World, h: seq<Key>) {
    Live(early).Some? ==>
      exists k :: 0 <= k < |h| && h[k].owner == Live(early).value.owner && h[k].since <= early.now < h[k].expires
  }

  lemma CoveredNow(w: World)
    requires Started(w)
    ensures Covered(w, History(w))
  {
    if w.key.Some? {
      assert History(w)[|w.past|] == w.key.value;
    }
  }

  lemma StaysCovered(early: World, h: seq<Key>, h': seq<Key>)
    requires Covered(early, h) && Extends(h, h')
    ensures Covered(early, h')
  {
    if Live(early).Some? {
      var k :| 0 <= k < |h| && h[k].owner == Live(early).value.owner && h[k].since <= early.now < h[k].expires;
      assert h'[k].owner == h[k].owner;
    }
  }

  lemma StartHistory(names: set<Name>, period: int)
    ensures Ordered(History(Start(names))) && Started(Start(names)) && Bounded(Start(names), period)
  {
  }

  /**
    On every run, ownership intervals of different acquisitions never overlap, and whoever
    owns the key at an earlier moment of the run owns an interval that covers that moment.
   */
  lemma {:induction false} OwnershipNeverOverlaps(names: set<Name>, period: int, steps: seq<Step>, i: nat)
    requires 0 < period && i <= |steps|
    ensures var w := After(names, period, steps);
            Ordered(History(w)) && Started(w) && Bounded(w, period)
    ensures Covered(After(names, period, steps[..i]), History(After(names, period, steps)))
  {
    hide Covered, Ordered, Started, Bounded, Extends, History, Apply, Start;
    if steps == [] {
      StartHistory(names, period);
    } else {
      var rest, last := steps[..|steps| - 1], steps[|steps| - 1];
      var w := After(names, period, rest);
      OwnershipNeverOverlaps(names, period, rest, if i < |steps| then i else 0);
      StepKeepsHistory(w, period, last);
      if i < |steps| {
        assert rest[..i] == steps[..i];
        StaysCovered(After(names, period, steps[..i]), History(w), History(After(names, period, steps)));
      }
    }
    if i == |steps| {
      assert steps[..i] == steps;
      CoveredNow(After(names, period, steps));
    }
  }

  // ---------- who leads ----------

  // The node's own latest grant has not run out.
  predicate InTime(w: World, period: int, n: Name)
    requires n in w.nodes
  {
    w.nodes[n].granted.Some? && w.now < w.nodes[n].granted.value + period
  }

  ghost predicate LeadersOwn(w: World) {
    forall n :: n in w.nodes && w.nodes[n].leads ==> Owns(w, n)
  }

  ghost predicate LeadersInTime(w: World, period: int) {
    forall n :: n in w.nodes && w.nodes[n].leads ==> InTime(w, period, n)
  }

  ghost predicate GrantsHold(w: World, period: int) {
    && (forall n :: n in w.nodes && InTime(w, period, n) ==>
          w.key.Some? && w.key.value.owner == n && w.nodes[n].granted.value + period <= w.key.value.expires)
    && (w.key.Some? ==> w.key.value.owner in w.nodes && w.nodes[w.key.value.owner].granted.Some?)
  }

  lemma StepKeepsGrants(w: World, period: int, step: Step)
    requires 0 < period && GrantsHold(w, period) && Bounded(w, period)
    ensures GrantsHold(Apply(w, period, step), period)
  {
    var w' := Apply(w, period, step);
    KeyEffect(w, period, step);
    hide Apply;
    forall n | n in w'.nodes && InTime(w', period, n)
      ensures w'.key.Some? && w'.key.value.owner == n && w'.nodes[n].granted.value + period <= w'.key.value.expires
    {
      if w'.nodes[n].granted == w.nodes[n].granted {
        assert InTime(w, period, n);
      }
    }
  }

  lemma {:induction false} RunKeepsGrants(names: set<Name>, period: int, steps: seq<Step>)
    requires 0 < period
    ensures GrantsHold(After(names, period, steps), period)
  {
    if steps != [] {
      RunKeepsGrants(names, period, steps[..|steps| - 1]);
      OwnershipNeverOverlaps(names, period, steps[..|steps| - 1], 0);
      StepKeepsGrants(After(names, period, steps[..|steps| - 1]), period, steps[|steps| - 1]);
    }
  }

  /**
    On every run: if each leader's own latest grant has not run out, then each leader owns
    the unexpired key, and so no two nodes lead at once.
   */
  lemma InTimeLeadersAreUnique(names: set<Name>, period: int, steps: seq<Step>)
    requires 0 < period
    ensures var w := After(names, period, steps);
            LeadersInTime(w, period) ==>
              LeadersOwn(w) && forall n, m :: n in w.nodes && m in w.nodes && w.nodes[n].leads && w.nodes[m].leads ==> n == m
  {
    RunKeepsGrants(names, period, steps);
    var w := After(names, period, steps);
    if LeadersInTime(w, period) {
      forall n | n in w.nodes && w.nodes[n].leads ensures Owns(w, n) {
        assert InTime(w, period, n);
      }
    }
  }

  // A watchdog extends the lease of another node: it runs on although its node follows by now.
  predicate ForeignRenewal(w: World, step: Step) {
    && (step.Tick? || step.TickFails?) && step.n in w.nodes && w.nodes[step.n].watchdog
    && w.nodes[step.n].leader.Some? && w.nodes[step.n].leader.value != step.n
  }

  ghost predicate NoForeignRenewals(names: set<Name>, period: int, steps: seq<Step>) {
    forall i :: 0 <= i < |steps| ==> !ForeignRenewal(After(names, period, steps[..i]), steps[i])
  }

  ghost predicate ExactGrant(w: World, period: int) {
    w.key.Some? ==>
      && w.key.value.owner in w.nodes && w.nodes[w.key.value.owner].granted.Some?
      && w.key.value.expires == w.nodes[w.key.value.owner].granted.value + period
  }

  lemma StepKeepsExact(w: World, period: int, step: Step)
    requires ExactGrant(w, period) && !ForeignRenewal(w, step)
    ensures ExactGrant(Apply(w, period, step), period)
  {
  }

  lemma {:induction false} GrantsAreExact(names: set<Name>, period: int, steps: seq<Step>)
    requires 0 < period && NoForeignRenewals(names, period, steps)
    ensures ExactGrant(After(names, period, steps), period)
  {
    if steps != [] {
      var rest := steps[..|steps| - 1];
      assert forall i :: 0 <= i < |rest| ==> rest[..i] == steps[..i] && rest[i] == steps[i];
      hide Apply, ForeignRenewal, ExactGrant;
      GrantsAreExact(names, period, rest);
      StepKeepsExact(After(names, period, rest), period, steps[|steps| - 1]);
    }
  }

  /** Without foreign renewals each leader's own grants decide, state by state. */
  lemma OwnGrantsDecide(names: set<Name>, period: int, steps: seq<Step>)
    requires 0 < period && NoForeignRenewals(names, period, steps)
    ensures var w := After(names, period, steps); LeadersOwn(w) <==> LeadersInTime(w, period)
  {
    var w := After(names, period, steps);
    GrantsAreExact(names, period, steps);
    InTimeLeadersAreUnique(names, period, steps);
    if LeadersOwn(w) {
      forall n | n in w.nodes && w.nodes[n].leads ensures InTime(w, period, n) {
        assert Owns(w, n);
      }
    }
  }

  // ---------- ownership, exactly ----------

  // The step makes the server grant or extend the lease of `n`, by whichever node's command.
  predicate GrantsTo(w: World, step: Step, n: Name) {
    || (step == SetNX(n) && n in w.nodes && Live(w) == None)
    || ((step.Tick? || (step.TickFails? && step.applied)) && step.n in w.nodes && w.nodes[step.n].watchdog &&
        w.nodes[step.n].leader == Some(n) && Owns(w, n))
  }

  ghost predicate GrantedAt(names: set<Name>, period: int, steps: seq<Step>, n: Name, t: int, j: nat)
    requires j < |steps|
  {
    GrantsTo(After(names, period, steps[..j]), steps[j], n) && t < After(names, period, steps[..j]).now + period
  }

  // Less than a period before `t`, the server granted or extended the lease of `n`.
  ghost predicate RecentGrant(names: set<Name>, period: int, steps: seq<Step>, n: Name, t: int) {
    exists j: nat :: j < |steps| && GrantedAt(names, period, steps, n, t, j)
  }

  lemma RecentGrantSnoc(names: set<Name>, period: int, steps: seq<Step>, n: Name, t: int)
    requires steps != []
    ensures var rest, last := steps[..|steps| - 1], steps[|steps| - 1];
            RecentGrant(names, period, steps, n, t) <==>
            RecentGrant(names, period, rest, n, t) ||
            (GrantsTo(After(names, period, rest), last, n) && t < After(names, period, rest).now + period)
  {
    hide After, GrantsTo;
    var rest := steps[..|steps| - 1];
    assert forall k :: 0 <= k < |rest| ==> rest[..k] == steps[..k] && rest[k] == steps[k];
    if RecentGrant(names, period, rest, n, t) {
      var j: nat :| j < |rest| && GrantedAt(names, period, rest, n, t, j);
      assert GrantedAt(names, period, steps, n, t, j);
    }
    if RecentGrant(names, period, steps, n, t) {
      var j: nat :| j < |steps| && GrantedAt(names, period, steps, n, t, j);
      assert j < |rest| ==> GrantedAt(names, period, rest, n, t, j);
    }
    if GrantsTo(After(names, period, rest), steps[|steps| - 1], n) && t < After(names, period, rest).now + period {
      assert GrantedAt(names, period, steps, n, t, |rest|);
    }
  }

  // What a step does to the key, seen from one node.
  lemma KeySeenBy(w: World, period: int, step: Step, n: Name)
    ensures var key := Apply(w, period, step).key;
            if GrantsTo(w, step, n)
            then (Live(w) == None || Owns(w, n)) && key.Some? && key.value.owner == n && key.value.expires == w.now + period
            else key == w.key || (!Owns(w, n) && key.Some? && key.value.owner != n)
  {
  }

  // At time `t` or later the key would still be that of `n`.
  predicate OwnsUntil(w: World, n: Name, t: int) {
    w.key.Some? && w.key.value.owner == n && t < w.key.value.expires
  }

  lemma {:induction false} OwnsIffGranted(names: set<Name>, period: int, steps: seq<Step>, n: Name, t: int)
    requires 0 < period && After(names, period, steps).now <= t
    ensures OwnsUntil(After(names, period, steps), n, t) <==> RecentGrant(names, period, steps, n, t)
  {
    if steps != [] {
      var rest, last := steps[..|steps| - 1], steps[|steps| - 1];
      var w := After(names, period, rest);
      OwnershipNeverOverlaps(names, period, rest, 0);
      StepKeepsHistory(w, period, last);
      OwnsIffGranted(names, period, rest, n, t);
      RecentGrantSnoc(names, period, steps, n, t);
      KeySeenBy(w, period, last, n);
      hide Apply, GrantsTo, RecentGrant, Ordered, Started, Extends;
    }
  }

  /**
    On every run, exactly: each leader owns the unexpired key if and only if, less than a
    period ago, the server granted or extended the lease under its name.
   */
  lemma LeadersOwnIffInTime(names: set<Name>, period: int, steps: seq<Step>)
    requires 0 < period
    ensures var w := After(names, period, steps);
            LeadersOwn(w) <==> forall n :: n in w.nodes && w.nodes[n].leads ==> RecentGrant(names, period, steps, n, w.now)
  {
    hide RecentGrant, After;
    var w := After(names, period, steps);
    forall n ensures Owns(w, n) <==> RecentGrant(names, period, steps, n, w.now) {
      OwnsIffGranted(names, period, steps, n, w.now);
    }
  }

  // ---------- watchdogs that follow their own node ----------

  // A node whose watchdog runs is its own leader, or has none.
  ghost predicate Home(w: World) {
    forall n :: n in w.nodes && w.nodes[n].watchdog ==> w.nodes[n].leader == None || w.nodes[n].leader == Some(n)
  }

  // The sync job follows another node although the watchdog still runs.
  predicate AdoptsAway(w: World, step: Step) {
    && step.Act? && step.n in w.nodes && w.nodes[step.n].watchdog
    && w.nodes[step.n].reading.Owner? && w.nodes[step.n].reading.name != step.n
    && w.nodes[step.n].leader != Some(w.nodes[step.n].reading.name)
  }

  lemma StepKeepsHome(w: World, period: int, step: Step)
    requires Home(w)
    ensures Home(Apply(w, period, step)) <==> !AdoptsAway(w, step)
  {
    if AdoptsAway(w, step) {
      assert Apply(w, period, step).nodes[step.n].watchdog;
    }
  }

  ghost predicate HomeUpTo(names: set<Name>, period: int, steps: seq<Step>) {
    forall i :: 0 <= i <= |steps| ==> Home(After(names, period, steps[..i]))
  }

  ghost predicate NeverAdoptsAway(names: set<Name>, period: int, steps: seq<Step>) {
    forall i :: 0 <= i < |steps| ==> !AdoptsAway(After(names, period, steps[..i]), steps[i])
  }

  lemma HomeSnoc(names: set<Name>, period: int, steps: seq<Step>)
    requires steps != []
    ensures var rest := steps[..|steps| - 1];
            && (HomeUpTo(names, period, steps) <==> HomeUpTo(names, period, rest) && Home(After(names, period, steps)))
            && (NeverAdoptsAway(names, period, steps) <==>
                NeverAdoptsAway(names, period, rest) && !AdoptsAway(After(names, period, rest), steps[|steps| - 1]))
            && (HomeUpTo(names, period, rest) ==> Home(After(names, period, rest)))
  {
    hide After, Home, AdoptsAway;
    var rest := steps[..|steps| - 1];
    assert forall i :: 0 <= i <= |rest| ==> rest[..i] == steps[..i];
    assert forall i :: 0 <= i < |rest| ==> rest[i] == steps[i];
    assert steps[..|steps|] == steps && rest[..|rest|] == rest;
  }

  /**
    Exactly: on a run every running watchdog serves its own node at every moment if and only if
    the sync job never follows another node while the watchdog runs.
   */
  lemma {:induction false} HomeIff(names: set<Name>, period: int, steps: seq<Step>)
    ensures HomeUpTo(names, period, steps) <==> NeverAdoptsAway(names, period, steps)
    ensures HomeUpTo(names, period, steps) ==> NoForeignRenewals(names, period, steps)
  {
    if steps == [] {
      assert steps[..0] == [];
    } else {
      var rest := steps[..|steps| - 1];
      HomeIff(names, period, rest);
      HomeSnoc(names, period, steps);
      if HomeUpTo(names, period, rest) {
        StepKeepsHome(After(names, period, rest), period, steps[|steps| - 1]);
      }
      hide Apply, HomeUpTo, NeverAdoptsAway;
      assert forall i :: 0 <= i < |rest| ==> rest[..i] == steps[..i] && rest[i] == steps[i];
    }
  }

  // ---------- roles, on every run ----------

  // A node leads exactly while it is its own leader, and only with its watchdog running.
  predicate NodeRole(me: Node, n: Name) {
    (me.leads <==> me.leader == Some(n)) && (me.leads ==> me.watchdog)
  }

  ghost predicate RolesOk(w: World) {
    forall n :: n in w.nodes ==> NodeRole(w.nodes[n], n)
  }

  lemma StepKeepsRole(w: World, period: int, step: Step, n: Name)
    requires n in w.nodes && NodeRole(w.nodes[n], n)
    ensures n in Apply(w, period, step).nodes && NodeRole(Apply(w, period, step).nodes[n], n)
  {
  }

  /** On every run, without any discipline: who leads is its own leader and has a running watchdog. */
  lemma {:induction false} LeadersAreWatched(names: set<Name>, period: int, steps: seq<Step>)
    ensures RolesOk(After(names, period, steps))
  {
    if steps != [] {
      var rest, last := steps[..|steps| - 1], steps[|steps| - 1];
      LeadersAreWatched(names, period, rest);
      var w := After(names, period, rest);
      NodesStay(w, period, last);
      hide Apply, NodeRole;
      forall n | n in w.nodes ensures NodeRole(Apply(w, period, last).nodes[n], n) {
        StepKeepsRole(w, period, last, n);
      }
    }
  }

  /**
    On every run, a round of a running watchdog ends in one of two ways: it runs on, and the
    leader its node follows owns the unexpired key; or it has stopped, and the node has no
    leader and does not lead.  So a lost lease ends leadership with the next round.
   */
  lemma RoundsDecide(names: set<Name>, period: int, steps: seq<Step>, n: Name)
    requires 0 < period && steps != [] && (steps[|steps| - 1] == Tick(n) || (steps[|steps| - 1].TickFails? && steps[|steps| - 1].n == n))
    ensures var before, after := After(names, period, steps[..|steps| - 1]), After(names, period, steps);
            n in before.nodes && before.nodes[n].watchdog ==>
              && n in after.nodes
              && (after.nodes[n].watchdog ==>
                    steps[|steps| - 1].Tick? && after.nodes[n].leader.Some? && Owns(after, after.nodes[n].leader.value))
              && (!after.nodes[n].watchdog ==> after.nodes[n].leader == None && !after.nodes[n].leads)
              && (before.nodes[n].leader.Some? && Owns(before, before.nodes[n].leader.value) && steps[|steps| - 1].Tick? ==>
                    after.nodes[n].watchdog && after.nodes[n].leader == before.nodes[n].leader && after.nodes[n].leads == before.nodes[n].leads)
  {
  }

  /**
    On every run, what the sync job has read decides whom its node follows: nobody if there
    was no key, otherwise the owner it has read, and the node leads exactly if that is itself.
   */
  lemma SyncDecides(names: set<Name>, period: int, steps: seq<Step>, n: Name)
    requires steps != [] && steps[|steps| - 1] == Act(n) && n in After(names, period, steps[..|steps| - 1]).nodes
    ensures var reading, w := After(names, period, steps[..|steps| - 1]).nodes[n].reading, After(names, period, steps);
            && n in w.nodes && w.nodes[n].reading == NotRead
            && (reading == Absent ==> w.nodes[n].leader == None && !w.nodes[n].leads)
            && (reading.Owner? ==> w.nodes[n].leader == Some(reading.name) && (w.nodes[n].leads <==> reading.name == n))
  {
    LeadersAreWatched(names, period, steps[..|steps| - 1]);
    assert NodeRole(After(names, period, steps[..|steps| - 1]).nodes[n], n);
  }

  // ---------- when leaders own the key throughout ----------

  // The sync job makes its own node leader.
  predicate SignsItself(w: World, step: Step) {
    && step.Act? && step.n in w.nodes && w.nodes[step.n].reading == Owner(step.n)
    && w.nodes[step.n].leader != Some(step.n)
  }

  // A node signs itself only while it owns the key, and no leader's lease runs out.
  ghost predicate SafeStep(w: World, step: Step) {
    && (SignsItself(w, step) ==> Owns(w, step.n))
    && (step.Pass? ==> forall n :: n in w.nodes && w.nodes[n].leads ==> OwnsUntil(w, n, w.now + step.d))
  }

  lemma StepKeepsLeadersOwn(w: World, period: int, step: Step)
    requires 0 < period && LeadersOwn(w)
    ensures LeadersOwn(Apply(w, period, step)) <==> SafeStep(w, step)
  {
    var w' := Apply(w, period, step);
    if SignsItself(w, step) {
      assert w'.nodes[step.n].leads && w'.key == w.key;
    } else if step.Pass? {
      assert forall n :: n in w.nodes ==> (Owns(w', n) <==> OwnsUntil(w, n, w'.now));
    }
  }

  ghost predicate OwnUpTo(names: set<Name>, period: int, steps: seq<Step>) {
    forall i :: 0 <= i <= |steps| ==> LeadersOwn(After(names, period, steps[..i]))
  }

  ghost predicate SafeUpTo(names: set<Name>, period: int, steps: seq<Step>) {
    forall i :: 0 <= i < |steps| ==> SafeStep(After(names, period, steps[..i]), steps[i])
  }

  lemma SafeSnoc(names: set<Name>, period: int, steps: seq<Step>)
    requires steps != []
    ensures var rest := steps[..|steps| - 1];
            && (OwnUpTo(names, period, steps) <==> OwnUpTo(names, period, rest) && LeadersOwn(After(names, period, steps)))
            && (SafeUpTo(names, period, steps) <==>
                SafeUpTo(names, period, rest) && SafeStep(After(names, period, rest), steps[|steps| - 1]))
            && (OwnUpTo(names, period, rest) ==> LeadersOwn(After(names, period, rest)))
  {
    hide After, LeadersOwn, SafeStep;
    var rest := steps[..|steps| - 1];
    assert forall i :: 0 <= i <= |rest| ==> rest[..i] == steps[..i];
    assert forall i :: 0 <= i < |rest| ==> rest[i] == steps[i];
    assert steps[..|steps|] == steps && rest[..|rest|] == rest;
  }

  /**
    Exactly: on a run every leader owns the unexpired key at every moment if and only if nodes
    sign themselves only while they own it and no leader's lease runs out.
   */
  lemma {:induction false} LeadersOwnThroughoutIff(names: set<Name>, period: int, steps: seq<Step>)
    requires 0 < period
    ensures OwnUpTo(names, period, steps) <==> SafeUpTo(names, period, steps)
  {
    if steps == [] {
      assert steps[..0] == [];
    } else {
      var rest := steps[..|steps| - 1];
      LeadersOwnThroughoutIff(names, period, rest);
      SafeSnoc(names, period, steps);
      hide OwnUpTo, SafeUpTo, LeadersOwn, SafeStep, Apply;
      if OwnUpTo(names, period, rest) {
        StepKeepsLeadersOwn(After(names, period, rest), period, steps[|steps| - 1]);
      }
    }
  }

  lemma OwnersAreOne(w: World)
    requires LeadersOwn(w)
    ensures forall n, m :: n in w.nodes && m in w.nodes && w.nodes[n].leads && w.nodes[m].leads ==> n == m
  {
  }

  // ---------- a discipline that suffices ----------

  // After another `d`, the node's own latest grant is at most `interval` old.
  predicate Prompt(w: World, interval: int, n: Name, d: int)
    requires n in w.nodes
  {
    w.nodes[n].granted.Some? && w.now + d <= w.nodes[n].granted.value + interval
  }

  // The lease of a leader is renewed every `interval`, and a node signs itself only while it
  // owns the key.
  ghost predicate Disciplined(w: World, interval: int, step: Step) {
    && (step.Pass? ==> forall n :: n in w.nodes && w.nodes[n].leads ==> Prompt(w, interval, n, step.d))
    && (SignsItself(w, step) ==> Owns(w, step.n))
  }

  ghost predicate DisciplinedRun(names: set<Name>, period: int, interval: int, steps: seq<Step>) {
    forall i :: 0 <= i < |steps| ==> Disciplined(After(names, period, steps[..i]), interval, steps[i])
  }

  lemma PromptOwns(w: World, period: int, interval: int, n: Name, d: nat)
    requires interval < period && GrantsHold(w, period) && n in w.nodes && Prompt(w, interval, n, d)
    ensures OwnsUntil(w, n, w.now + d)
  {
    assert InTime(w, period, n);
  }

  lemma DisciplinedIsSafe(w: World, period: int, interval: int, step: Step)
    requires interval < period && GrantsHold(w, period) && Disciplined(w, interval, step)
    ensures SafeStep(w, step)
  {
    hide GrantsHold;
    if step.Pass? {
      forall n | n in w.nodes && w.nodes[n].leads ensures OwnsUntil(w, n, w.now + step.d) {
        PromptOwns(w, period, interval, n, step.d);
      }
    }
  }

  /** Disciplined runs, with a tick interval shorter than the lease, never have two leaders. */
  lemma DisciplinedRunsAreSafe(names: set<Name>, period: int, interval: int, steps: seq<Step>)
    requires 0 <= interval < period && DisciplinedRun(names, period, interval, steps)
    ensures OwnUpTo(names, period, steps)
    ensures var w := After(names, period, steps);
            && LeadersOwn(w)
            && forall n, m :: n in w.nodes && m in w.nodes && w.nodes[n].leads && w.nodes[m].leads ==> n == m
  {
    hide After, GrantsHold, Disciplined, SafeStep, LeadersOwn;
    forall i | 0 <= i < |steps| ensures SafeStep(After(names, period, steps[..i]), steps[i]) {
      RunKeepsGrants(names, period, steps[..i]);
      DisciplinedIsSafe(After(names, period, steps[..i]), period, interval, steps[i]);
    }
    LeadersOwnThroughoutIff(names, period, steps);
    assert steps[..|steps|] == steps;
    OwnersAreOne(After(names, period, steps));
  }

  // The same for every node whose watchdog runs, whether it leads or not.
  ghost predicate WatchDisciplined(w: World, interval: int, step: Step) {
    && (step.Pass? ==> forall n :: n in w.nodes && w.nodes[n].watchdog ==> Prompt(w, interval, n, step.d))
    && (SignsItself(w, step) ==> Owns(w, step.n))
  }

  ghost predicate WatchDisciplinedRun(names: set<Name>, period: int, interval: int, steps: seq<Step>) {
    forall i :: 0 <= i < |steps| ==> WatchDisciplined(After(names, period, steps[..i]), interval, steps[i])
  }

  // A node whose watchdog runs owns the key, is its own leader, and has not read anything else.
  predicate WatchedNode(w: World, n: Name)
    requires n in w.nodes
  {
    && Owns(w, n) && w.nodes[n].leader == Some(n)
    && (w.nodes[n].reading == NotRead || w.nodes[n].reading == Owner(n))
  }

  ghost predicate Watched(w: World) {
    forall n :: n in w.nodes ==> (w.nodes[n].leads ==> w.nodes[n].watchdog) && (w.nodes[n].watchdog ==> WatchedNode(w, n))
  }

  lemma StepKeepsWatched(w: World, period: int, interval: int, step: Step)
    requires 0 <= interval < period && GrantsHold(w, period)
    requires Watched(w) && WatchDisciplined(w, interval, step)
    ensures Watched(Apply(w, period, step)) && !AdoptsAway(w, step)
  {
    hide Apply, GrantsHold, WatchedNode, OwnsUntil;
    var w' := Apply(w, period, step);
    forall n | n in w.nodes
      ensures n in w'.nodes && (w'.nodes[n].leads ==> w'.nodes[n].watchdog) && (w'.nodes[n].watchdog ==> WatchedNode(w', n))
      ensures step.Act? && step.n == n ==> !AdoptsAway(w, step)
    {
      if w.nodes[n].watchdog && step.Pass? {
        PromptOwns(w, period, interval, n, step.d);
      }
      StepKeepsWatchedNode(w, period, step, n);
    }
    NodesStay(w, period, step);
  }

  lemma NodesStay(w: World, period: int, step: Step)
    ensures Apply(w, period, step).nodes.Keys == w.nodes.Keys
  {
  }

  lemma StepKeepsWatchedNode(w: World, period: int, step: Step, n: Name)
    requires 0 < period && n in w.nodes && (SignsItself(w, step) ==> Owns(w, step.n))
    requires w.nodes[n].leads ==> w.nodes[n].watchdog
    requires w.nodes[n].watchdog ==> WatchedNode(w, n) && (step.Pass? ==> OwnsUntil(w, n, w.now + step.d))
    ensures var w' := Apply(w, period, step);
            n in w'.nodes && (w'.nodes[n].leads ==> w'.nodes[n].watchdog) && (w'.nodes[n].watchdog ==> WatchedNode(w', n))
    ensures step.Act? && step.n == n ==> !AdoptsAway(w, step)
  {
  }

  /**
    If each node whose watchdog runs ticks within an interval shorter than the lease, and signs
    itself only while it owns the key, then every running watchdog renews its own node's lease
    and no other, and every leader owns the unexpired key.
   */
  lemma {:induction false} WatchdogsRenewTheirOwn(names: set<Name>, period: int, interval: int, steps: seq<Step>)
    requires 0 <= interval < period && WatchDisciplinedRun(names, period, interval, steps)
    ensures var w := After(names, period, steps); Watched(w) && LeadersOwn(w) && LeadersInTime(w, period)
    ensures NeverAdoptsAway(names, period, steps) && NoForeignRenewals(names, period, steps)
  {
    if steps != [] {
      var rest := steps[..|steps| - 1];
      assert forall i :: 0 <= i < |rest| ==> rest[..i] == steps[..i] && rest[i] == steps[i];
      WatchdogsRenewTheirOwn(names, period, interval, rest);
      RunKeepsGrants(names, period, rest);
      hide GrantsHold, Watched, AdoptsAway, ForeignRenewal, NoForeignRenewals, LeadersOwn, LeadersInTime;
      StepKeepsWatched(After(names, period, rest), period, interval, steps[|steps| - 1]);
      HomeSnoc(names, period, steps);
    }
    hide NeverAdoptsAway, NoForeignRenewals, WatchDisciplinedRun, HomeUpTo;
    HomeIff(names, period, steps);
    WatchedLead(After(names, period, steps));
    hide Watched, LeadersInTime;
    OwnGrantsDecide(names, period, steps);
  }

  lemma WatchedLead(w: World)
    requires Watched(w)
    ensures LeadersOwn(w)
  {
    forall n | n in w.nodes && w.nodes[n].leads ensures Owns(w, n) {
      assert WatchedNode(w, n);
    }
  }

  // ---------- reading, signing and the first renewal as one block ----------

  // A node that signs itself has just read the key, and its watchdog's first tick follows at once.
  ghost predicate Blocks(names: set<Name>, period: int, steps: seq<Step>) {
    forall i :: 0 <= i < |steps| ==> BlockAt(names, period, steps, i)
  }

  ghost predicate BlockAt(names: set<Name>, period: int, steps: seq<Step>, i: nat)
    requires i < |steps|
  {
    SignsItself(After(names, period, steps[..i]), steps[i]) ==>
      && 0 < i && steps[i - 1] == Read(steps[i].n)
      && (i + 1 < |steps| ==> steps[i + 1] == Tick(steps[i].n))
  }

  // Whenever time passes, each running watchdog has ticked within the interval.
  ghost predicate TicksWithin(names: set<Name>, period: int, interval: int, steps: seq<Step>) {
    forall i :: 0 <= i < |steps| ==> TickedAt(names, period, interval, steps, i)
  }

  ghost predicate TickedAt(names: set<Name>, period: int, interval: int, steps: seq<Step>, i: nat)
    requires i < |steps|
  {
    var w := After(names, period, steps[..i]);
    steps[i].Pass? ==> forall n :: n in w.nodes && w.nodes[n].watchdog ==>
      exists j: nat :: j < i && steps[j] == Tick(n) && w.now + steps[i].d <= After(names, period, steps[..j]).now + interval
  }

  // The node has just signed itself; its first tick is still to come.
  ghost predicate TickDue(names: set<Name>, period: int, steps: seq<Step>, n: Name) {
    && steps != [] && steps[|steps| - 1] == Act(n)
    && SignsItself(After(names, period, steps[..|steps| - 1]), steps[|steps| - 1])
  }

  // No tick of the node is later than its latest own grant.
  ghost predicate TicksGranted(names: set<Name>, period: int, steps: seq<Step>, n: Name) {
    var w := After(names, period, steps);
    n in w.nodes && w.nodes[n].watchdog ==>
      || TickDue(names, period, steps, n)
      || (w.nodes[n].granted.Some? &&
          forall j: nat :: j < |steps| && steps[j] == Tick(n) ==> After(names, period, steps[..j]).now <= w.nodes[n].granted.value)
  }

  ghost predicate AllTicksGranted(names: set<Name>, period: int, steps: seq<Step>) {
    forall n :: TicksGranted(names, period, steps, n)
  }

  lemma {:induction false} TimeIsMonotone(names: set<Name>, period: int, steps: seq<Step>, j: nat)
    requires j <= |steps|
    ensures After(names, period, steps[..j]).now <= After(names, period, steps).now
  {
    if j == |steps| {
      assert steps[..j] == steps;
    } else {
      var rest := steps[..|steps| - 1];
      assert rest[..j] == steps[..j];
      TimeIsMonotone(names, period, rest, j);
    }
  }

  // What a step means for a watched node that does not sign itself in it.
  lemma WatchedStep(w: World, period: int, step: Step, n: Name)
    requires n in w.nodes && Apply(w, period, step).nodes.Keys == w.nodes.Keys && Apply(w, period, step).nodes[n].watchdog
    requires !(SignsItself(w, step) && step.n == n) && (w.nodes[n].watchdog ==> WatchedNode(w, n))
    ensures w.nodes[n].watchdog
    ensures Apply(w, period, step).nodes[n].granted == if step == Tick(n) then Some(w.now) else w.nodes[n].granted
  {
  }

  lemma TicksStep(names: set<Name>, period: int, steps: seq<Step>, n: Name)
    requires steps != [] && Watched(After(names, period, steps[..|steps| - 1]))
    requires TicksGranted(names, period, steps[..|steps| - 1], n)
    requires TickDue(names, period, steps[..|steps| - 1], n) ==> steps[|steps| - 1] == Tick(n)
    ensures TicksGranted(names, period, steps, n)
  {
    var rest, last := steps[..|steps| - 1], steps[|steps| - 1];
    var w, w' := After(names, period, rest), After(names, period, steps);
    NodesStay(w, period, last);
    assert steps == rest + [last];
    AfterSnoc(names, period, rest, last);
    hide After;
    if n in w'.nodes && w'.nodes[n].watchdog && !TickDue(names, period, steps, n) {
      WatchedStep(w, period, last, n);
      hide Apply, WatchedNode;
      forall j: nat | j < |steps| && steps[j] == Tick(n)
        ensures After(names, period, steps[..j]).now <= w'.nodes[n].granted.value
      {
        if j < |rest| {
          assert rest[..j] == steps[..j] && rest[j] == steps[j];
          TimeIsMonotone(names, period, rest, j);
        } else {
          assert steps[..j] == rest;
        }
      }
    }
  }

  // A node that has just read its own name owns the key.
  lemma ReadThenSign(w: World, period: int, n: Name)
    requires SignsItself(Apply(w, period, Read(n)), Act(n))
    ensures Owns(Apply(w, period, Read(n)), n)
  {
  }

  lemma BlockDisciplined(names: set<Name>, period: int, interval: int, steps: seq<Step>)
    requires steps != [] && BlockAt(names, period, steps, |steps| - 1) && TickedAt(names, period, interval, steps, |steps| - 1)
    requires AllTicksGranted(names, period, steps[..|steps| - 1])
    requires forall n :: TickDue(names, period, steps[..|steps| - 1], n) ==> steps[|steps| - 1] == Tick(n)
    ensures WatchDisciplined(After(names, period, steps[..|steps| - 1]), interval, steps[|steps| - 1])
  {
    var rest, last := steps[..|steps| - 1], steps[|steps| - 1];
    var w := After(names, period, rest);
    if SignsItself(w, last) {
      var before := rest[..|rest| - 1];
      assert rest == before + [Read(last.n)];
      AfterSnoc(names, period, before, Read(last.n));
      ReadThenSign(After(names, period, before), period, last.n);
    }
    hide After, SignsItself, Owns;
    if last.Pass? {
      forall n | n in w.nodes && w.nodes[n].watchdog ensures Prompt(w, interval, n, last.d) {
        assert TicksGranted(names, period, rest, n) && !TickDue(names, period, rest, n);
        var j: nat :| j < |rest| && steps[j] == Tick(n) && w.now + last.d <= After(names, period, steps[..j]).now + interval;
        assert rest[..j] == steps[..j] && rest[j] == steps[j];
      }
    }
  }

  lemma NextIsTick(names: set<Name>, period: int, steps: seq<Step>, n: Name)
    requires steps != [] && Blocks(names, period, steps)
    ensures TickDue(names, period, steps[..|steps| - 1], n) ==> steps[|steps| - 1] == Tick(n)
  {
    hide After, SignsItself;
    var rest := steps[..|steps| - 1];
    if TickDue(names, period, rest, n) {
      var i := |rest| - 1;
      assert BlockAt(names, period, steps, i);
      assert rest[..i] == steps[..i] && rest[i] == steps[i];
    }
  }

  lemma {:induction false} BlocksAreDisciplined(names: set<Name>, period: int, interval: int, steps: seq<Step>)
    requires 0 <= interval < period && Blocks(names, period, steps) && TicksWithin(names, period, interval, steps)
    ensures WatchDisciplinedRun(names, period, interval, steps) && AllTicksGranted(names, period, steps)
  {
    hide After, TickDue, TicksGranted, Watched, BlockAt, TickedAt, WatchDisciplined, LeadersOwn, LeadersInTime, NoForeignRenewals;
    if steps == [] {
      NoTicksYet(names, period);
    } else {
      var rest, k := steps[..|steps| - 1], |steps| - 1;
      PrefixBlocks(names, period, interval, steps);
      BlocksAreDisciplined(names, period, interval, rest);
      WatchdogsRenewTheirOwn(names, period, interval, rest);
      forall n ensures TickDue(names, period, rest, n) ==> steps[k] == Tick(n) {
        NextIsTick(names, period, steps, n);
      }
      assert BlockAt(names, period, steps, k) && TickedAt(names, period, interval, steps, k);
      BlockDisciplined(names, period, interval, steps);
      forall n ensures TicksGranted(names, period, steps, n) {
        TicksStep(names, period, steps, n);
      }
      assert forall i :: 0 <= i < |rest| ==> rest[..i] == steps[..i] && rest[i] == steps[i];
    }
  }

  lemma NoTicksYet(names: set<Name>, period: int)
    ensures AllTicksGranted(names, period, [])
  {
  }

  lemma PrefixBlocks(names: set<Name>, period: int, interval: int, steps: seq<Step>)
    requires steps != [] && Blocks(names, period, steps) && TicksWithin(names, period, interval, steps)
    ensures Blocks(names, period, steps[..|steps| - 1]) && TicksWithin(names, period, interval, steps[..|steps| - 1])
  {
    hide After, SignsItself;
    var rest := steps[..|steps| - 1];
    assert forall i :: 0 <= i < |rest| ==> rest[..i] == steps[..i] && rest[i] == steps[i];
    forall i | 0 <= i < |rest| ensures BlockAt(names, period, rest, i) {
      assert BlockAt(names, period, steps, i);
    }
    forall i | 0 <= i < |rest| ensures TickedAt(names, period, interval, rest, i) {
      assert TickedAt(names, period, interval, steps, i);
      assert forall j :: 0 <= j < i ==> rest[..j] == steps[..j] && rest[j] == steps[j];
    }
  }

  /**
    If reading its own name, signing and the first renewal of a node form one block, and each
    running watchdog ticks within an interval shorter than the lease, then at every moment of
    the run every leader owns the unexpired key, so that two nodes never lead at once, and no
    watchdog serves another node.
   */
  lemma LeaseBlocksAreSafe(names: set<Name>, period: int, interval: int, steps: seq<Step>)
    requires 0 <= interval < period && Blocks(names, period, steps) && TicksWithin(names, period, interval, steps)
    ensures var w := After(names, period, steps);
            && LeadersOwn(w)
            && forall n, m :: n in w.nodes && m in w.nodes && w.nodes[n].leads && w.nodes[m].leads ==> n == m
    ensures NoForeignRenewals(names, period, steps)
  {
    hide After, Blocks, TicksWithin, WatchDisciplinedRun, LeadersOwn, Watched, LeadersInTime, NoForeignRenewals;
    BlocksAreDisciplined(names, period, interval, steps);
    WatchdogsRenewTheirOwn(names, period, interval, steps);
    OwnersAreOne(After(names, period, steps));
  }

  // ---------- what goes wrong without it ----------

  /** A lease that runs out between reading the key and signing gives two leaders. */
  lemma TwoLeaders(a: Name, b: Name, period: nat) returns (steps: seq<Step>)
    requires a != b && 0 < period
    ensures var w := After({a, b}, period, steps);
            a in w.nodes && b in w.nodes && w.nodes[a].leads && w.nodes[b].leads
  {
    var names := {a, b};
    steps := [];
    steps := Then(names, period, steps, SetNX(a));
    steps := Then(names, period, steps, Read(a));
    steps := Then(names, period, steps, Pass(period));
    assert Live(After(names, period, steps)) == None;
    steps := Then(names, period, steps, SetNX(b));
    steps := Then(names, period, steps, Read(b));
    steps := Then(names, period, steps, Act(b));
    steps := Then(names, period, steps, Act(a));
  }

  lemma Then(names: set<Name>, period: int, steps: seq<Step>, step: Step) returns (steps': seq<Step>)
    ensures steps' == steps + [step]
    ensures After(names, period, steps') == Apply(After(names, period, steps), period, step)
  {
    steps' := steps + [step];
    AfterSnoc(names, period, steps, step);
  }

  lemma LeaseRunsOut(a: Name, b: Name, period: nat) returns (steps: seq<Step>)
    requires a != b && 1 < period
    ensures var w := After({a, b}, period, steps);
            && w.nodes == map[a := Node(Some(a), true, NotRead, true, Some(0)), b := Node(None, false, NotRead, false, None)]
            && w.now == period && Live(w) == None
  {
    var names := {a, b};
    steps := [];
    steps := Then(names, period, steps, SetNX(a));
    steps := Then(names, period, steps, Read(a));
    steps := Then(names, period, steps, Act(a));
    steps := Then(names, period, steps, Pass(period));
  }

  /** A former leader's watchdog keeps another node's lease alive. */
  lemma WatchdogRenewsForOther(a: Name, b: Name, period: nat) returns (steps: seq<Step>)
    requires a != b && 1 < period
    ensures var w := After({a, b}, period, steps);
            ForeignRenewal(w, Tick(a)) && Owns(w, b) && Apply(w, period, Tick(a)).key.Some? &&
            w.key.value.expires < Apply(w, period, Tick(a)).key.value.expires
  {
    var names := {a, b};
    steps := LeaseRunsOut(a, b, period);
    steps := Then(names, period, steps, SetNX(b));
    steps := Then(names, period, steps, Read(a));
    steps := Then(names, period, steps, Act(a));
    steps := Then(names, period, steps, Pass(1));
  }

  // ---------- the imperative form ----------

  // The commands of the Redis server that the election uses.
  class RedisServer {
    var now: int
    var key: Option<Key>
    ghost var past: seq<Key>

    constructor ()
      ensures now == 0 && key == None && past == []
    {
      now, key, past := 0, None, [];
    }

    method SetNX(owner: Name, period: int) returns (ok: bool)
      modifies this`key, this`past
      ensures ok <==> old(key == None || key.value.expires <= now)
      ensures key == if ok then Some(Key(owner, now, now + period)) else old(key)
      ensures past == if ok && old(key).Some? then old(past) + [old(key).value] else old(past)
    {
      if key.Some? && now < key.value.expires {
        return false;
      }
      if key.Some? {
        past := past + [key.value];
      }
      key := Some(Key(owner, now, now + period));
      return true;
    }

    method Get() returns (r: Reading)
      ensures r == if key.Some? && now < key.value.expires then Owner(key.value.owner) else Absent
    {
      if key.Some? && now < key.value.expires {
        return Owner(key.value.owner);
      }
      return Absent;
    }

    // The renewal script: PEXPIRE only while the value is `name`.
    method RenewScript(name: Name, period: int) returns (ok: bool)
      modifies this`key
      ensures ok <==> old(key.Some? && now < key.value.expires && key.value.owner == name)
      ensures key == if ok then Some(old(key).value.(expires := now + period)) else old(key)
    {
      var owner := Get();
      ok := owner == Owner(name);
      if ok {
        key := Some(key.value.(expires := now + period));
      }
    }
  }

  // The attempts of one election, from number `k` on, and whether it is won.
  function Fought(w: World, period: int, n: Name, k: nat, fails: int -> bool, applied: int -> bool, pause: int -> nat): (World, bool)
    decreases 4 - k
  {
    var w' := if !fails(k) || applied(k) then Apply(w, period, SetNX(n)) else w;
    if !fails(k) then (w', Live(w) == None)
    else if k < 3 then Fought(Apply(w', period, Pass(pause(k))), period, n, k + 1, fails, applied, pause)
    else (w', false)
  }

  // The time that passes before attempt `j`, from attempt `k` on.
  function Paused(pause: int -> nat, k: nat, j: nat): nat
    decreases j - k
  {
    if j <= k then 0 else pause(k) + Paused(pause, k + 1, j)
  }

  /**
    Errors are retried: the first of the four attempts that returns without an error, those
    before it not having been applied, decides at its own moment.
   */
  lemma {:induction false} FirstAnswerDecides(
    w: World, period: int, n: Name, k: nat, j: nat, fails: int -> bool, applied: int -> bool, pause: int -> nat)
    requires k <= j <= 3 && !fails(j) && forall i :: k <= i < j ==> fails(i) && !applied(i)
    ensures var w' := w.(now := w.now + Paused(pause, k, j));
            Fought(w, period, n, k, fails, applied, pause) == (Apply(w', period, SetNX(n)), Live(w') == None)
    decreases j - k
  {
    if k < j {
      FirstAnswerDecides(w.(now := w.now + pause(k)), period, n, k + 1, j, fails, applied, pause);
    } else {
      assert w.(now := w.now + 0) == w;
    }
  }

  // What a read followed at once by acting on it, or by giving up, does.
  lemma SyncEffect(w: World, period: int, n: Name)
    requires n in w.nodes
    ensures var r, me := Apply(w, period, Read(n)), w.nodes[n];
            && Live(r) == Live(w)
            && Apply(r, period, Skip(n)) == w.(nodes := w.nodes[n := me.(reading := NotRead)])
            && Apply(r, period, Act(n)) ==
               w.(nodes := w.nodes[n := Acted(n, me.(reading := if Live(w).Some? then Owner(Live(w).value.owner) else Absent))])
  {
  }

  // One cluster node in Redis mode.
  class RedisMember {
    const name: Name
    const period: int
    const server: RedisServer
    var leader: Option<Name>
    var leads: bool
    var watchdog: bool
    ghost var granted: Option<int>

    constructor (name: Name, period: int, server: RedisServer)
      ensures this.name == name && this.period == period && this.server == server
      ensures View() == World(server.now, server.key, map[name := Node(None, false, NotRead, false, None)], server.past)
    {
      this.name, this.period, this.server := name, period, server;
      leader, leads, watchdog, granted := None, false, false, None;
    }

    // The server and this node.
    ghost function View(): World
      reads this, server
    {
      World(server.now, server.key, map[name := Node(leader, leads, NotRead, watchdog, granted)], server.past)
    }

    /**
      redisFightingWithRetry from attempt `k` on.  `fails(k)` says whether the command returns
      an error, `applied(k)` whether the server has executed it all the same; then the node
      sleeps for `pause(k)`.
     */
    method Fight(k: nat, fails: int -> bool, applied: int -> bool, pause: int -> nat) returns (won: bool)
      modifies this`granted, server`key, server`past, server`now
      ensures (View(), won) == Fought(old(View()), period, name, k, fails, applied, pause)
      ensures won && 0 < period ==> Owns(View(), name) && granted == Some(server.now)
      ensures (forall j :: k <= j ==> fails(j)) ==> !won
      decreases 4 - k
    {
      hide Apply;
      var ok := Attempt(!fails(k) || applied(k));
      if fails(k) {
        if k < 3 {
          Sleep(pause(k));
          won := Fight(k + 1, fails, applied, pause);
          return;
        }
        return false;
      }
      return ok;
    }

    method Sleep(d: nat)
      modifies server`now
      ensures View() == Apply(old(View()), period, Pass(d))
    {
      server.now := server.now + d;
    }

    method Attempt(executed: bool) returns (ok: bool)
      modifies this`granted, server`key, server`past
      ensures View() == if executed then Apply(old(View()), period, SetNX(name)) else old(View())
      ensures ok <==> executed && old(Live(View())) == None
      ensures ok ==> server.key == Some(Key(name, server.now, server.now + period)) && granted == Some(server.now)
    {
      ok := false;
      if executed {
        ok := server.SetNX(name, period);
        if ok {
          granted := Some(server.now);
        }
      }
    }

    // One round of redisSyncLeader; `known(x)` says whether node x is found locally.
    method SyncLeader(answered: bool, known: Name -> bool) returns (fight: bool)
      modifies this`leader, this`leads, this`watchdog
      ensures fight <==> answered && old(Live(View())) == None
      ensures fight ==> leader == None && !leads
      ensures !answered ==> View() == old(View())
      ensures answered ==>
                var w := Apply(old(View()), period, Read(name));
                View() == Apply(w, period,
                                if Live(w).Some? && old(leader) != Some(Live(w).value.owner) && !known(Live(w).value.owner)
                                then Skip(name) else Act(name))
    {
      hide Apply;
      ghost var w := View();
      SyncEffect(w, period, name);
      if !answered {
        return false;
      }
      var r := server.Get();
      if r == Absent {
        leader, leads := None, false;
        return true;
      }
      if leader != Some(r.name) && known(r.name) {
        leader, leads := Some(r.name), r.name == name;
        if leads {
          watchdog := true;
        }
      }
      assert View().nodes == w.nodes[name := View().nodes[name]];
      return false;
    }

    // One round of redisWatchDog; a failing command may still have been applied.
    method WatchDogRound(fails: bool, applied: bool)
      requires watchdog
      modifies this`leader, this`leads, this`watchdog, this`granted, server`key
      ensures View() == Apply(old(View()), period, if fails then TickFails(name, applied) else Tick(name))
      ensures watchdog <==> !fails && old(leader.Some? && Owns(View(), leader.value))
      ensures if watchdog then leader == old(leader) && leads == old(leads) else leader == None && !leads
    {
      var renewed := false;
      if leader.Some? && (!fails || applied) {
        renewed := server.RenewScript(leader.value, period);
        if renewed && leader.value == name {
          granted := Some(server.now);
        }
      }
      if fails || !renewed {
        leader, leads, watchdog := None, false, false;
      }
    }
  }
}
