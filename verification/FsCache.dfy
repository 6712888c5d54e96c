/**
  The file-handle cache of `web/app/fs.go`: requests look files up, open and insert them,
  read and close them, while one cleaner removes stale files and releases those nobody reads.
  Each critical section of `cacheLock` or `bigFilesLock`, and each action between two of
  them, is a step; steps of all requests and of the cleaner interleave freely.  A step that
  does not apply changes nothing, so a run is any list of steps.
 */
module FsCache {
  import opened Options

  // A key of one of the two caches.
  datatype Slot = Slot(compressed: bool, path: string)

  // Who is responsible for a file: the request that opened it, a cache entry, the cleaner's
  // pending list, its list of files to release, or nobody once it is released.
  datatype Place = ByRequest(r: nat) | Cached(slot: Slot) | Pending | Doomed | Gone

  // Where one extra handle (bigFileReader) of a big file is.
  datatype HandlePlace = Pooled | With(r: nat) | Closed

  datatype File = File(
    big: bool,
    readers: int,                // readersCount
    pool: seq<nat>,              // bigFiles
    releases: nat,               // history: calls of Release
    place: Place,                // history
    handles: seq<HandlePlace>,   // history: every handle ever opened by bigFileReader
    origin: Slot)                // history: what it was opened for

  // Where a request stands.  Discarding: it lost the race to insert and will use `keep`.
  datatype Request =
    | Missed(slot: Slot)
    | Opened(slot: Slot, file: nat)
    | Discarding(keep: nat, drop: nat)
    | Holding(file: nat)
    | Reading(file: nat, handle: Option<nat>)
    | Closing(file: nat)
    | Ended

  datatype State = State(
    files: seq<File>,
    cache: map<Slot, nat>,
    requests: seq<Request>,
    pending: set<nat>,
    doomed: set<nat>,
    asked: seq<Slot>)            // history: what each request asked for

  datatype Step =
    | Lookup(slot: Slot)
    | Open(r: nat, ok: bool, big: bool)
    | Insert(r: nat)
    | Discard(r: nat)
    | NotModified(r: nat)
    | NewReader(r: nat, openOk: bool)
    | CloseReader(r: nat, seekOk: bool)
    | FinishClose(r: nat)
    | Clean(stale: set<Slot>)
    | ReleaseOne(file: nat)

  function Start(): State {
    State([], map[], [], {}, {}, [])
  }

  // ---------- the parts of a step ----------

  function Count(f: File, d: int): File { f.(readers := f.readers + d) }

  // Release closes the file and every handle in bigFiles.
  function Released(f: File): File {
    f.(releases := f.releases + 1, place := Gone,
       handles := seq(|f.handles|, i requires 0 <= i < |f.handles| =>
                    if i in f.pool then Closed else f.handles[i]))
  }

  function SetFile(s: State, i: nat, f: File): State
    requires i < |s.files|
  {
    s.(files := s.files[i := f])
  }

  function SetRequest(s: State, r: nat, q: Request): State
    requires r < |s.requests|
  {
    s.(requests := s.requests[r := q])
  }

  function AfterLookup(s: State, slot: Slot): State {
    if slot in s.cache && s.cache[slot] < |s.files| then
      var f := s.cache[slot];
      SetFile(s.(requests := s.requests + [Holding(f)], asked := s.asked + [slot]), f, Count(s.files[f], 1))
    else s.(requests := s.requests + [Missed(slot)], asked := s.asked + [slot])
  }

  function AfterOpen(s: State, r: nat, ok: bool, big: bool): State {
    if |s.requests| <= r || !s.requests[r].Missed? then s
    else if !ok then SetRequest(s, r, Ended)
    else SetRequest(s.(files := s.files + [File(big, 0, [], 0, ByRequest(r), [], s.requests[r].slot)]), r, Opened(s.requests[r].slot, |s.files|))
  }

  function AfterInsert(s: State, r: nat): State {
    if |s.requests| <= r || !s.requests[r].Opened? || |s.files| <= s.requests[r].file then s
    else
      var slot, f := s.requests[r].slot, s.requests[r].file;
      if slot !in s.cache then
        SetRequest(SetFile(s.(cache := s.cache[slot := f]), f, Count(s.files[f], 1).(place := Cached(slot))), r, Holding(f))
      else if |s.files| <= s.cache[slot] then s
      else SetRequest(SetFile(s, s.cache[slot], Count(s.files[s.cache[slot]], 1)), r, Discarding(s.cache[slot], f))
  }

  function AfterDiscard(s: State, r: nat): State {
    if |s.requests| <= r || !s.requests[r].Discarding? || |s.files| <= s.requests[r].drop then s
    else SetRequest(SetFile(s, s.requests[r].drop, Released(s.files[s.requests[r].drop])), r, Holding(s.requests[r].keep))
  }

  // decReadersCount as the last action of a request.
  function Done(s: State, r: nat, f: nat): State
    requires r < |s.requests| && f < |s.files|
  {
    SetRequest(SetFile(s, f, Count(s.files[f], -1)), r, Ended)
  }

  function AfterNewReader(s: State, r: nat, openOk: bool): State {
    if |s.requests| <= r || !s.requests[r].Holding? || |s.files| <= s.requests[r].file then s
    else
      var i := s.requests[r].file;
      var f := s.files[i];
      if !f.big then SetRequest(s, r, Reading(i, None))
      else if f.pool != [] && f.pool[|f.pool| - 1] < |f.handles| then
        var h := f.pool[|f.pool| - 1];
        SetRequest(SetFile(s, i, f.(pool := f.pool[..|f.pool| - 1], handles := f.handles[h := With(r)])), r, Reading(i, Some(h)))
      else if openOk then
        SetRequest(SetFile(s, i, f.(handles := f.handles + [With(r)])), r, Reading(i, Some(|f.handles|)))
      else Done(s, r, i)
  }

  function AfterCloseReader(s: State, r: nat, seekOk: bool): State {
    if |s.requests| <= r || !s.requests[r].Reading? || |s.files| <= s.requests[r].file then s
    else
      var i := s.requests[r].file;
      var f := s.files[i];
      match s.requests[r].handle
      case None => Done(s, r, i)
      case Some(h) =>
        if |f.handles| <= h then s
        else
          var f' := if seekOk then f.(pool := f.pool + [h], handles := f.handles[h := Pooled]) else f.(handles := f.handles[h := Closed]);
          SetRequest(SetFile(s, i, f'), r, Closing(i))
  }

  // Files whose entry the cleaner removes from the caches, and pending files.
  function Swept(s: State, stale: set<Slot>): set<nat> {
    (set slot | slot in s.cache && slot in stale :: s.cache[slot]) + s.pending
  }

  function SweptPlace(s: State, stale: set<Slot>, i: nat): Place
    requires i < |s.files|
  {
    if i !in Swept(s, stale) then s.files[i].place
    else if 0 < s.files[i].readers then Pending else Doomed
  }

  function AfterClean(s: State, stale: set<Slot>): State {
    if s.doomed != {} then s
    else
      s.(cache := (map slot | slot in s.cache && slot !in stale :: s.cache[slot]),
         pending := (set i | i in Swept(s, stale) && i < |s.files| && 0 < s.files[i].readers),
         doomed := (set i | i in Swept(s, stale) && i < |s.files| && s.files[i].readers <= 0),
         files := seq(|s.files|, i requires 0 <= i < |s.files| => s.files[i].(place := SweptPlace(s, stale, i))))
  }

  function Apply(s: State, step: Step): State {
    match step
    case Lookup(slot) => AfterLookup(s, slot)
    case Open(r, ok, big) => AfterOpen(s, r, ok, big)
    case Insert(r) => AfterInsert(s, r)
    case Discard(r) => AfterDiscard(s, r)
    case NotModified(r) =>
      if r < |s.requests| && s.requests[r].Holding? && s.requests[r].file < |s.files| then Done(s, r, s.requests[r].file) else s
    case NewReader(r, openOk) => AfterNewReader(s, r, openOk)
    case CloseReader(r, seekOk) => AfterCloseReader(s, r, seekOk)
    case FinishClose(r) =>
      if r < |s.requests| && s.requests[r].Closing? && s.requests[r].file < |s.files| then Done(s, r, s.requests[r].file) else s
    case Clean(stale) => AfterClean(s, stale)
    case ReleaseOne(i) =>
      if i in s.doomed && i < |s.files| then SetFile(s.(doomed := s.doomed - {i}), i, Released(s.files[i])) else s
  }

  function After(steps: seq<Step>): State {
    if steps == [] then Start() else Apply(After(steps[..|steps| - 1]), steps[|steps| - 1])
  }

  // ---------- the invariant ----------

  predicate Holds(q: Request, i: nat) {
    match q
    case Discarding(keep, _) => keep == i
    case Holding(f) => f == i
    case Reading(f, _) => f == i
    case Closing(f) => f == i
    case _ => false
  }

  // The request that opened the file is still responsible for it.
  predicate Carries(q: Request, i: nat) {
    (q.Opened? && q.file == i) || (q.Discarding? && q.drop == i)
  }

  ghost function Holders(requests: seq<Request>, i: nat): set<nat> {
    set r: nat | r < |requests| && Holds(requests[r], i)
  }

  // The file's place agrees with the cache, the lists and the requests; only cached and
  // pending files have holders; it is released only when gone.
  ghost predicate FileOk(s: State, i: nat)
    requires i < |s.files|
  {
    var f := s.files[i];
    && f.readers == |Holders(s.requests, i)|
    && (f.place.Cached? || f.place == Pending || Holders(s.requests, i) == {})
    && (f.place.Cached? ==> f.place.slot in s.cache && s.cache[f.place.slot] == i)
    && (f.place.ByRequest? ==> f.place.r < |s.requests| && Carries(s.requests[f.place.r], i))
    && (f.place == Pending <==> i in s.pending)
    && (f.place == Doomed <==> i in s.doomed)
    && f.releases == if f.place == Gone then 1 else 0
  }

  ghost predicate RequestOk(s: State, r: nat)
    requires r < |s.requests|
  {
    && (forall i: nat :: Holds(s.requests[r], i) ==> i < |s.files|)
    && (forall i: nat :: Carries(s.requests[r], i) ==> i < |s.files| && s.files[i].place == ByRequest(r))
  }

  ghost predicate CacheOk(s: State) {
    && (forall slot :: slot in s.cache ==> s.cache[slot] < |s.files| && s.files[s.cache[slot]].place == Cached(slot))
    && (forall i :: i in s.pending || i in s.doomed ==> i < |s.files|)
  }

  ghost predicate Inv(s: State) {
    && (forall i: nat :: i < |s.files| ==> FileOk(s, i))
    && (forall r: nat :: r < |s.requests| ==> RequestOk(s, r))
    && CacheOk(s)
  }

  lemma HoldersUpdate(requests: seq<Request>, r: nat, q: Request, i: nat)
    requires r < |requests|
    ensures |Holders(requests[r := q], i)| ==
            |Holders(requests, i)| - (if Holds(requests[r], i) then 1 else 0) + (if Holds(q, i) then 1 else 0)
    ensures Holders(requests[r := q], i) <= Holders(requests, i) + (if Holds(q, i) then {r} else {})
  {
    hide Holders, Holds;
    var others := Holders(requests, i) - {r};
    HoldersSplit(requests, r, q, i);
    AddOne(others, r);
  }

  lemma HoldersSplit(requests: seq<Request>, r: nat, q: Request, i: nat)
    requires r < |requests|
    ensures var others := Holders(requests, i) - {r};
            && Holders(requests, i) == others + (if Holds(requests[r], i) then {r} else {})
            && Holders(requests[r := q], i) == others + (if Holds(q, i) then {r} else {})
  {
    hide Holds;
  }

  lemma AddOne(a: set<nat>, r: nat)
    requires r !in a
    ensures |a + {r}| == |a| + 1 && a + {} == a
  {
  }

  lemma HoldersAppend(requests: seq<Request>, q: Request, i: nat)
    ensures |Holders(requests + [q], i)| == |Holders(requests, i)| + (if Holds(q, i) then 1 else 0)
    ensures Holders(requests + [q], i) <= Holders(requests, i) + (if Holds(q, i) then {|requests|} else {})
  {
    assert Holders(requests + [q], i) == Holders(requests, i) + (if Holds(q, i) then {|requests|} else {});
    assert |requests| !in Holders(requests, i);
  }

  lemma LookupKeepsFiles(s: State, slot: Slot, i: nat)
    requires Inv(s) && i < |s.files|
    ensures FileOk(AfterLookup(s, slot), i)
  {
    hide Holders;
    assert FileOk(s, i) && CacheOk(s);
    hide Inv;
    HoldersAppend(s.requests, AfterLookup(s, slot).requests[|s.requests|], i);
  }

  lemma LookupKeepsInv(s: State, slot: Slot)
    requires Inv(s)
    ensures Inv(AfterLookup(s, slot))
  {
    var s' := AfterLookup(s, slot);
    forall i: nat | i < |s'.files| ensures FileOk(s', i) {
      LookupKeepsFiles(s, slot, i);
    }
    hide FileOk;
    forall r: nat | r < |s'.requests| ensures RequestOk(s', r) {
      if r < |s.requests| {
        assert RequestOk(s, r);
      }
    }
  }

  lemma OpenKeepsFiles(s: State, r: nat, ok: bool, big: bool, i: nat)
    requires Inv(s) && AfterOpen(s, r, ok, big) != s && i < |AfterOpen(s, r, ok, big).files|
    ensures FileOk(AfterOpen(s, r, ok, big), i)
  {
    hide Holders;
    assert RequestOk(s, r);
    HoldersUpdate(s.requests, r, AfterOpen(s, r, ok, big).requests[r], i);
    if i < |s.files| {
      assert FileOk(s, i);
      hide Inv;
    } else {
      NoHolders(s, i);
    }
  }

  lemma OpenKeepsInv(s: State, r: nat, ok: bool, big: bool)
    requires Inv(s)
    ensures Inv(AfterOpen(s, r, ok, big))
  {
    hide Holders;
    var s' := AfterOpen(s, r, ok, big);
    if s' != s {
      assert RequestOk(s, r);
      forall i: nat | i < |s'.files| ensures FileOk(s', i) {
        OpenKeepsFiles(s, r, ok, big, i);
      }
      hide FileOk;
      forall k: nat | k < |s'.requests| ensures RequestOk(s', k) {
        assert RequestOk(s, k);
      }
    }
  }

  lemma NoHolders(s: State, i: nat)
    requires Inv(s) && |s.files| <= i
    ensures Holders(s.requests, i) == {}
  {
    forall r: nat | r < |s.requests| ensures !Holds(s.requests[r], i) {
      assert RequestOk(s, r);
    }
  }

  lemma InsertKeepsFiles(s: State, r: nat, i: nat)
    requires Inv(s) && AfterInsert(s, r) != s && i < |s.files|
    ensures i < |AfterInsert(s, r).files| && FileOk(AfterInsert(s, r), i)
  {
    hide Holders;
    var s' := AfterInsert(s, r);
    assert RequestOk(s, r) && Carries(s.requests[r], s.requests[r].file);
    HoldersUpdate(s.requests, r, s'.requests[r], i);
    assert FileOk(s, i) && CacheOk(s);
    hide Inv, RequestOk;
    if s.requests[r].slot in s.cache {
      assert FileOk(s, s.cache[s.requests[r].slot]);
    }
  }

  lemma InsertKeepsRequests(s: State, r: nat, k: nat)
    requires Inv(s) && AfterInsert(s, r) != s && k < |s.requests|
    ensures k < |AfterInsert(s, r).requests| && RequestOk(AfterInsert(s, r), k)
  {
    assert RequestOk(s, r) && Carries(s.requests[r], s.requests[r].file);
    assert RequestOk(s, k);
    assert CacheOk(s);
    hide Inv;
  }

  lemma InsertKeepsInv(s: State, r: nat)
    requires Inv(s)
    ensures Inv(AfterInsert(s, r))
  {
    var s' := AfterInsert(s, r);
    if s' != s {
      assert RequestOk(s, r) && Carries(s.requests[r], s.requests[r].file);
      assert CacheOk(s');
      forall i: nat | i < |s'.files| ensures FileOk(s', i) {
        InsertKeepsFiles(s, r, i);
      }
      forall k: nat | k < |s'.requests| ensures RequestOk(s', k) {
        InsertKeepsRequests(s, r, k);
      }
    }
  }

  lemma DiscardKeepsFiles(s: State, r: nat, i: nat)
    requires Inv(s) && AfterDiscard(s, r) != s && i < |s.files|
    ensures i < |AfterDiscard(s, r).files| && FileOk(AfterDiscard(s, r), i)
  {
    hide Holders, Released;
    var s' := AfterDiscard(s, r);
    assert RequestOk(s, r);
    assert Carries(s.requests[r], s.requests[r].drop) && Holds(s.requests[r], s.requests[r].keep);
    HoldersUpdate(s.requests, r, s'.requests[r], i);
    assert FileOk(s, i);
    hide Inv, RequestOk;
    ReleasedIs(s.files[s.requests[r].drop]);
  }

  lemma ReleasedIs(f: File)
    ensures Released(f).readers == f.readers && Released(f).place == Gone && Released(f).releases == f.releases + 1
  {
  }

  lemma DiscardKeepsInv(s: State, r: nat)
    requires Inv(s)
    ensures Inv(AfterDiscard(s, r))
  {
    var s' := AfterDiscard(s, r);
    if s' != s {
      assert RequestOk(s, r) && Carries(s.requests[r], s.requests[r].drop) && Holds(s.requests[r], s.requests[r].keep);
      forall i: nat | i < |s'.files| ensures FileOk(s', i) {
        DiscardKeepsFiles(s, r, i);
      }
      hide FileOk;
      forall k: nat | k < |s'.requests| ensures RequestOk(s', k) {
        assert RequestOk(s, k);
        forall i: nat | Carries(s'.requests[k], i) ensures i < |s'.files| && s'.files[i].place == ByRequest(k) {
          assert Carries(s.requests[k], i);
        }
      }
    }
  }

  // A request that holds file `i` moves on, still holding it (`q`) or giving it up.
  lemma HolderKeepsInv(s: State, s': State, r: nat, i: nat)
    requires Inv(s) && r < |s.requests| && i < |s.files| == |s'.files|
    requires Holds(s.requests[r], i) && !s.requests[r].Discarding?
    requires s'.cache == s.cache && s'.pending == s.pending && s'.doomed == s.doomed
    requires |s'.requests| == |s.requests| && s'.requests == s.requests[r := s'.requests[r]]
    requires s'.requests[r] == Ended || (Holds(s'.requests[r], i) && !s'.requests[r].Discarding?)
    requires s'.files == s.files[i := s'.files[i]] && s'.files[i].place == s.files[i].place && s'.files[i].releases == s.files[i].releases
    requires s'.files[i].readers == s.files[i].readers - if s'.requests[r] == Ended then 1 else 0
    ensures Inv(s')
  {
    hide Holders;
    assert RequestOk(s, r);
    forall k: nat | k < |s'.files| ensures FileOk(s', k) {
      HoldersUpdate(s.requests, r, s'.requests[r], k);
      assert FileOk(s, k);
    }
    forall k: nat | k < |s'.requests| ensures RequestOk(s', k) {
      assert RequestOk(s, k);
    }
  }

  lemma CleanKeepsInv(s: State, stale: set<Slot>)
    requires Inv(s)
    ensures Inv(AfterClean(s, stale))
  {
    hide Holders;
    var s' := AfterClean(s, stale);
    if s.doomed == {} {
      forall i: nat | i < |s'.files| ensures FileOk(s', i) {
        assert FileOk(s, i);
        SweptIs(s, stale, i);
      }
      forall r: nat | r < |s'.requests| ensures RequestOk(s', r) {
        assert RequestOk(s, r);
        forall i: nat | Carries(s'.requests[r], i) ensures i < |s'.files| && s'.files[i].place == ByRequest(r) {
          SweptIs(s, stale, i);
        }
      }
      forall slot | slot in s'.cache ensures s'.cache[slot] < |s'.files| && s'.files[s'.cache[slot]].place == Cached(slot) {
        SweptIs(s, stale, s.cache[slot]);
      }
    }
  }

  // The cleaner sweeps a file exactly when it is pending or its cache entry is stale.
  lemma SweptIs(s: State, stale: set<Slot>, i: nat)
    requires Inv(s) && i < |s.files|
    ensures i in Swept(s, stale) <==> s.files[i].place == Pending || (s.files[i].place.Cached? && s.files[i].place.slot in stale)
  {
    assert FileOk(s, i);
    if s.files[i].place.Cached? && s.files[i].place.slot in stale {
      assert s.cache[s.files[i].place.slot] in Swept(s, stale);
    }
    if i in Swept(s, stale) && i !in s.pending {
      var slot :| slot in s.cache && slot in stale && s.cache[slot] == i;
    }
  }

  lemma ReleaseKeepsInv(s: State, i: nat)
    requires Inv(s) && i in s.doomed && i < |s.files|
    ensures Inv(SetFile(s.(doomed := s.doomed - {i}), i, Released(s.files[i])))
  {
    hide Holders;
    var s' := SetFile(s.(doomed := s.doomed - {i}), i, Released(s.files[i]));
    assert FileOk(s, i);
    forall k: nat | k < |s'.files| ensures FileOk(s', k) {
      assert FileOk(s, k);
    }
    forall r: nat | r < |s'.requests| ensures RequestOk(s', r) {
      assert RequestOk(s, r);
    }
  }

  lemma StepKeepsInv(s: State, step: Step)
    requires Inv(s)
    ensures Inv(Apply(s, step))
  {
    hide AfterLookup, AfterOpen, AfterInsert, AfterDiscard, AfterClean, AfterNewReader, AfterCloseReader, Inv, Released;
    match step {
      case Lookup(slot) => LookupKeepsInv(s, slot);
      case Open(r, ok, big) => OpenKeepsInv(s, r, ok, big);
      case Insert(r) => InsertKeepsInv(s, r);
      case Discard(r) => DiscardKeepsInv(s, r);
      case Clean(stale) => CleanKeepsInv(s, stale);
      case ReleaseOne(i) =>
        if i in s.doomed && i < |s.files| {
          ReleaseKeepsInv(s, i);
        }
      case _ => ReaderKeepsInv(s, step);
    }
  }

  lemma ReaderKeepsInv(s: State, step: Step)
    requires Inv(s) && (step.NotModified? || step.NewReader? || step.CloseReader? || step.FinishClose?)
    ensures Inv(Apply(s, step))
  {
    hide Inv;
    var s' := Apply(s, step);
    if s' != s {
      HolderKeepsInv(s, s', step.r, s.requests[step.r].file);
    }
  }

  lemma {:induction false} RunKeepsInv(steps: seq<Step>)
    ensures Inv(After(steps))
  {
    if steps != [] {
      RunKeepsInv(steps[..|steps| - 1]);
      hide Inv, Apply;
      StepKeepsInv(After(steps[..|steps| - 1]), steps[|steps| - 1]);
    }
  }

  // ---------- reference counts and releases ----------

  /**
    On every interleaving, readersCount is the number of requests that hold the file, so it
    is never negative and a file is released at most once; a released file has no holder, is
    in no cache and in neither cleaner list, and is carried by no request.
   */
  lemma ReleasedFilesAreUnreachable(steps: seq<Step>, i: nat)
    requires i < |After(steps).files|
    ensures var s := After(steps);
            && s.files[i].readers == |Holders(s.requests, i)| && s.files[i].releases <= 1
            && (s.files[i].releases == 1 ==>
                  && Holders(s.requests, i) == {} && i !in s.cache.Values && i !in s.pending && i !in s.doomed
                  && forall r: nat :: r < |s.requests| ==> !Carries(s.requests[r], i))
  {
    RunKeepsInv(steps);
    var s := After(steps);
    assert FileOk(s, i);
    if s.files[i].releases == 1 {
      forall r: nat | r < |s.requests| ensures !Carries(s.requests[r], i) {
        assert RequestOk(s, r);
      }
    }
  }

  lemma {:induction false} ReleasesOnlyGrow(steps: seq<Step>, k: nat, i: nat)
    requires k <= |steps| && i < |After(steps[..k]).files|
    ensures i < |After(steps).files| && After(steps[..k]).files[i].releases <= After(steps).files[i].releases
  {
    if k == |steps| {
      assert steps[..k] == steps;
    } else {
      var rest := steps[..|steps| - 1];
      assert rest[..k] == steps[..k];
      ReleasesOnlyGrow(rest, k, i);
      StepReleases(After(rest), steps[|steps| - 1], i);
    }
  }

  lemma StepReleases(s: State, step: Step, i: nat)
    requires i < |s.files|
    ensures i < |Apply(s, step).files| && s.files[i].releases <= Apply(s, step).files[i].releases
  {
  }

  /** A handle once released can never be held again, however the run goes on. */
  lemma NoUseAfterRelease(steps: seq<Step>, k: nat, i: nat)
    requires k <= |steps| && i < |After(steps[..k]).files| && 0 < After(steps[..k]).files[i].releases
    ensures Holders(After(steps).requests, i) == {} && i !in After(steps).cache.Values
  {
    ReleasesOnlyGrow(steps, k, i);
    ReleasedFilesAreUnreachable(steps, i);
  }

  // ---------- handles of big files ----------

  // Until a file is gone, each handle is in bigFiles, with the one request that reads through
  // it, or closed; afterwards all are closed.
  ghost predicate HandleOk(s: State, i: nat, h: nat)
    requires i < |s.files| && h < |s.files[i].handles|
  {
    match s.files[i].handles[h]
    case Pooled => s.files[i].place != Gone && h in s.files[i].pool
    case With(r) => r < |s.requests| && s.requests[r] == Reading(i, Some(h))
    case Closed => true
  }

  ghost predicate PoolOk(f: File) {
    && (forall k :: 0 <= k < |f.pool| ==> f.pool[k] < |f.handles|)
    && (forall k, l :: 0 <= k < l < |f.pool| ==> f.pool[k] != f.pool[l])
    && (f.place != Gone ==> forall k :: 0 <= k < |f.pool| ==> f.handles[f.pool[k]] == Pooled)
  }

  ghost predicate ReaderOk(s: State, r: nat)
    requires r < |s.requests|
  {
    s.requests[r].Reading? && s.requests[r].handle.Some? ==>
      && s.requests[r].file < |s.files|
      && s.requests[r].handle.value < |s.files[s.requests[r].file].handles|
      && s.files[s.requests[r].file].handles[s.requests[r].handle.value] == With(r)
  }

  ghost predicate HandlesOk(s: State) {
    && (forall i: nat :: i < |s.files| ==> PoolOk(s.files[i]))
    && (forall i: nat, h: nat :: i < |s.files| && h < |s.files[i].handles| ==> HandleOk(s, i, h))
    && (forall r: nat :: r < |s.requests| ==> ReaderOk(s, r))
  }

  predicate SameHandles(f: File, f': File) {
    f'.pool == f.pool && f'.handles == f.handles && (f'.place == Gone <==> f.place == Gone)
  }

  predicate ReadsHandle(q: Request) { q.Reading? && q.handle.Some? }

  // Steps that concern no big-file handle.
  ghost predicate HandlesUntouched(s: State, s': State) {
    && |s.files| <= |s'.files| && |s.requests| <= |s'.requests|
    && (forall i: nat :: i < |s.files| ==> SameHandles(s.files[i], s'.files[i]))
    && (forall i: nat :: |s.files| <= i < |s'.files| ==> s'.files[i].pool == [] && s'.files[i].handles == [])
    && (forall r: nat :: r < |s.requests| ==>
          s'.requests[r] == s.requests[r] || (!ReadsHandle(s.requests[r]) && !ReadsHandle(s'.requests[r])))
    && (forall r: nat :: |s.requests| <= r < |s'.requests| ==> !ReadsHandle(s'.requests[r]))
  }

  lemma UntouchedKeepsHandles(s: State, s': State)
    requires HandlesOk(s) && HandlesUntouched(s, s')
    ensures HandlesOk(s')
  {
    forall i: nat | i < |s'.files| ensures PoolOk(s'.files[i]) {
      assert i < |s.files| ==> PoolOk(s.files[i]) && SameHandles(s.files[i], s'.files[i]);
    }
    forall i: nat, h: nat | i < |s'.files| && h < |s'.files[i].handles| ensures HandleOk(s', i, h) {
      assert SameHandles(s.files[i], s'.files[i]) && HandleOk(s, i, h);
    }
    forall r: nat | r < |s'.requests| ensures ReaderOk(s', r) {
      if r < |s.requests| && ReadsHandle(s'.requests[r]) {
        assert ReaderOk(s, r) && SameHandles(s.files[s.requests[r].file], s'.files[s.requests[r].file]);
      }
    }
  }

  lemma CleanTouchesNoHandle(s: State, stale: set<Slot>)
    requires Inv(s)
    ensures HandlesUntouched(s, AfterClean(s, stale))
  {
    var s' := AfterClean(s, stale);
    forall i: nat | i < |s.files| ensures SameHandles(s.files[i], s'.files[i]) {
      SweptIs(s, stale, i);
    }
  }

  lemma InsertTouchesNoHandle(s: State, r: nat)
    requires Inv(s)
    ensures HandlesUntouched(s, AfterInsert(s, r))
  {
    if AfterInsert(s, r) != s {
      assert RequestOk(s, r) && Carries(s.requests[r], s.requests[r].file);
    }
    hide Inv;
  }

  lemma LookupTouchesNoHandle(s: State, slot: Slot)
    ensures HandlesUntouched(s, AfterLookup(s, slot))
  {
  }

  lemma OpenTouchesNoHandle(s: State, r: nat, ok: bool, big: bool)
    ensures HandlesUntouched(s, AfterOpen(s, r, ok, big))
  {
  }

  lemma DoneTouchesNoHandle(s: State, r: nat, f: nat)
    requires r < |s.requests| && f < |s.files| && !ReadsHandle(s.requests[r])
    ensures HandlesUntouched(s, Done(s, r, f))
  {
  }

  lemma NoReaderKeepsHandles(s: State, step: Step)
    requires Inv(s) && HandlesOk(s)
    requires step.Lookup? || step.Open? || step.Insert? || step.NotModified? || step.FinishClose? || step.Clean?
    ensures HandlesOk(Apply(s, step))
  {
    hide Inv, HandlesOk, AfterClean, AfterInsert, AfterLookup, AfterOpen, Done, HandlesUntouched;
    var s' := Apply(s, step);
    if s' != s {
      if step.Lookup? {
        LookupTouchesNoHandle(s, step.slot);
      } else if step.Open? {
        OpenTouchesNoHandle(s, step.r, step.ok, step.big);
      } else if step.Insert? {
        InsertTouchesNoHandle(s, step.r);
      } else if step.Clean? {
        CleanTouchesNoHandle(s, step.stale);
      } else {
        DoneTouchesNoHandle(s, step.r, s.requests[step.r].file);
      }
      UntouchedKeepsHandles(s, s');
    }
  }

  // Without holders no handle is with a request, so Release closes all that are left.
  lemma ReleaseClosesAll(s: State, i: nat, h: nat)
    requires HandlesOk(s) && i < |s.files| && Holders(s.requests, i) == {} && h < |s.files[i].handles|
    ensures Released(s.files[i]).handles[h] == Closed
  {
    assert HandleOk(s, i, h);
    LentHandleIsHeld(s, i, h);
  }

  lemma LentHandleIsHeld(s: State, i: nat, h: nat)
    requires HandlesOk(s) && i < |s.files| && h < |s.files[i].handles|
    ensures s.files[i].handles[h].With? ==> s.files[i].handles[h].r in Holders(s.requests, i)
  {
    assert HandleOk(s, i, h);
  }

  lemma ReleaseKeepsHandles(s: State, s': State, i: nat)
    requires HandlesOk(s) && i < |s.files| && Holders(s.requests, i) == {}
    requires s'.files == s.files[i := Released(s.files[i])] && |s'.requests| == |s.requests|
    requires forall r: nat :: r < |s.requests| ==>
               s'.requests[r] == s.requests[r] || (!ReadsHandle(s.requests[r]) && !ReadsHandle(s'.requests[r]))
    ensures HandlesOk(s')
  {
    forall k: nat | k < |s'.files| ensures PoolOk(s'.files[k]) {
      assert PoolOk(s.files[k]);
    }
    forall k: nat, h: nat | k < |s'.files| && h < |s'.files[k].handles| ensures HandleOk(s', k, h) {
      assert HandleOk(s, k, h);
      if k == i {
        ReleaseClosesAll(s, i, h);
      }
    }
    forall r: nat | r < |s'.requests| ensures ReaderOk(s', r) {
      assert ReaderOk(s, r);
      assert ReadsHandle(s.requests[r]) ==> r in Holders(s.requests, s.requests[r].file);
    }
  }

  // Request `r` takes handle `h` of file `i`, or gives it back or closes it.
  lemma HandleMoves(s: State, s': State, i: nat, r: nat, h: nat)
    requires HandlesOk(s) && i < |s.files| == |s'.files| && r < |s.requests| == |s'.requests|
    requires s'.files == s.files[i := s'.files[i]] && s'.requests == s.requests[r := s'.requests[r]]
    requires PoolOk(s'.files[i]) && s'.files[i].place == s.files[i].place != Gone && h < |s'.files[i].handles|
    requires forall k: nat :: k < |s'.files[i].handles| && k != h ==>
               && k < |s.files[i].handles| && s'.files[i].handles[k] == s.files[i].handles[k]
               && (k in s.files[i].pool ==> k in s'.files[i].pool)
    requires h <= |s.files[i].handles| <= |s'.files[i].handles|
    requires h < |s.files[i].handles| && s.files[i].handles[h].With? ==> s.files[i].handles[h] == With(r)
    requires ReadsHandle(s.requests[r]) ==> s.requests[r] == Reading(i, Some(h))
    requires if ReadsHandle(s'.requests[r])
             then s'.requests[r] == Reading(i, Some(h)) && s'.files[i].handles[h] == With(r)
             else s'.files[i].handles[h] == Closed || (s'.files[i].handles[h] == Pooled && h in s'.files[i].pool)
    ensures HandlesOk(s')
  {
    forall k: nat | k < |s'.files| ensures PoolOk(s'.files[k]) {
      assert k != i ==> PoolOk(s.files[k]);
    }
    forall k: nat, l: nat | k < |s'.files| && l < |s'.files[k].handles| ensures HandleOk(s', k, l) {
      if k != i {
        assert HandleOk(s, k, l);
      } else if l != h {
        var handle := s'.files[i].handles[l];
        assert handle == s.files[i].handles[l] && HandleOk(s, k, l);
      }
    }
    forall q: nat | q < |s'.requests| ensures ReaderOk(s', q) {
      if q != r {
        assert ReaderOk(s, q);
      }
    }
  }

  lemma PopHandle(f: File, r: nat)
    requires PoolOk(f) && f.pool != [] && f.place != Gone
    ensures var h := f.pool[|f.pool| - 1];
            && h < |f.handles| && f.handles[h] == Pooled
            && PoolOk(f.(pool := f.pool[..|f.pool| - 1], handles := f.handles[h := With(r)]))
            && forall k: nat :: k != h && k in f.pool ==> k in f.pool[..|f.pool| - 1]
  {
    var h := f.pool[|f.pool| - 1];
    assert f.pool == f.pool[..|f.pool| - 1] + [h];
  }

  lemma PooledReaderKeepsHandles(s: State, r: nat, openOk: bool)
    requires HandlesOk(s) && r < |s.requests| && s.requests[r].Holding? && s.requests[r].file < |s.files|
    requires var f := s.files[s.requests[r].file]; f.big && f.pool != [] && f.place != Gone
    ensures HandlesOk(AfterNewReader(s, r, openOk))
  {
    var i := s.requests[r].file;
    var f := s.files[i];
    assert PoolOk(f);
    PopHandle(f, r);
    hide PoolOk, HandlesOk;
    HandleMoves(s, AfterNewReader(s, r, openOk), i, r, f.pool[|f.pool| - 1]);
  }

  lemma FreshReaderKeepsHandles(s: State, r: nat)
    requires HandlesOk(s) && r < |s.requests| && s.requests[r].Holding? && s.requests[r].file < |s.files|
    requires var f := s.files[s.requests[r].file]; f.big && f.pool == [] && f.place != Gone
    ensures HandlesOk(AfterNewReader(s, r, true))
  {
    var i := s.requests[r].file;
    var s' := AfterNewReader(s, r, true);
    assert PoolOk(s'.files[i]);
    hide HandlesOk, PoolOk;
    HandleMoves(s, s', i, r, |s.files[i].handles|);
  }

  lemma NewReaderKeepsHandles(s: State, r: nat, openOk: bool)
    requires Inv(s) && HandlesOk(s)
    ensures HandlesOk(AfterNewReader(s, r, openOk))
  {
    hide Inv, HandlesOk, PoolOk;
    var s' := AfterNewReader(s, r, openOk);
    if s' != s {
      var i := s.requests[r].file;
      HeldIsNotGone(s, r, i);
      if s.files[i].big && s.files[i].pool != [] {
        PooledReaderKeepsHandles(s, r, openOk);
      } else if s.files[i].big && openOk {
        FreshReaderKeepsHandles(s, r);
      } else {
        UntouchedKeepsHandles(s, s');
      }
    }
  }

  lemma HeldIsNotGone(s: State, r: nat, i: nat)
    requires Inv(s) && r < |s.requests| && Holds(s.requests[r], i)
    ensures i < |s.files| && s.files[i].place != Gone
  {
    assert RequestOk(s, r) && FileOk(s, i) && r in Holders(s.requests, i);
  }

  lemma ReturnKeepsHandles(s: State, r: nat, seekOk: bool)
    requires HandlesOk(s) && r < |s.requests| && ReadsHandle(s.requests[r])
    requires s.requests[r].file < |s.files| && s.files[s.requests[r].file].place != Gone
    ensures HandlesOk(AfterCloseReader(s, r, seekOk))
  {
    var i, h := s.requests[r].file, s.requests[r].handle.value;
    var s' := AfterCloseReader(s, r, seekOk);
    assert PoolOk(s.files[i]) && ReaderOk(s, r);
    assert h !in s.files[i].pool;
    assert PoolOk(s'.files[i]);
    hide HandlesOk, PoolOk;
    HandleMoves(s, s', i, r, h);
  }

  lemma CloseReaderKeepsHandles(s: State, r: nat, seekOk: bool)
    requires Inv(s) && HandlesOk(s)
    ensures HandlesOk(AfterCloseReader(s, r, seekOk))
  {
    hide Inv, HandlesOk, PoolOk;
    var s' := AfterCloseReader(s, r, seekOk);
    if s' != s {
      HeldIsNotGone(s, r, s.requests[r].file);
      if s.requests[r].handle == None {
        UntouchedKeepsHandles(s, s');
      } else {
        ReturnKeepsHandles(s, r, seekOk);
      }
    }
  }

  lemma StepKeepsHandles(s: State, step: Step)
    requires Inv(s) && HandlesOk(s)
    ensures HandlesOk(Apply(s, step))
  {
    match step {
      case NewReader(r, openOk) => NewReaderKeepsHandles(s, r, openOk);
      case CloseReader(r, seekOk) => CloseReaderKeepsHandles(s, r, seekOk);
      case Discard(r) => DiscardKeepsHandles(s, r);
      case ReleaseOne(i) =>
        if i in s.doomed && i < |s.files| {
          assert FileOk(s, i);
          hide Released, HandlesOk, Inv;
          ReleaseKeepsHandles(s, Apply(s, step), i);
        }
      case _ => NoReaderKeepsHandles(s, step);
    }
  }

  lemma DiscardKeepsHandles(s: State, r: nat)
    requires Inv(s) && HandlesOk(s)
    ensures HandlesOk(AfterDiscard(s, r))
  {
    var s' := AfterDiscard(s, r);
    if s' != s {
      assert RequestOk(s, r) && Carries(s.requests[r], s.requests[r].drop) && FileOk(s, s.requests[r].drop);
      hide Released, HandlesOk, Inv;
      ReleaseKeepsHandles(s, s', s.requests[r].drop);
    }
  }

  lemma {:induction false} RunKeepsHandles(steps: seq<Step>)
    ensures HandlesOk(After(steps))
  {
    if steps != [] {
      RunKeepsHandles(steps[..|steps| - 1]);
      RunKeepsInv(steps[..|steps| - 1]);
      hide Inv, Apply, HandlesOk;
      StepKeepsHandles(After(steps[..|steps| - 1]), steps[|steps| - 1]);
    }
  }

  /**
    On every interleaving, no handle of a released big file stays open, and no two requests
    ever read through the same handle.
   */
  lemma NoHandleLeaks(steps: seq<Step>, i: nat)
    requires i < |After(steps).files|
    ensures var s := After(steps);
            && (s.files[i].releases == 1 ==> forall h :: 0 <= h < |s.files[i].handles| ==> s.files[i].handles[h] == Closed)
            && (forall q, r, h :: 0 <= q < r < |s.requests| && s.requests[q] == Reading(i, Some(h)) ==> s.requests[r] != Reading(i, Some(h)))
  {
    var s := After(steps);
    RunKeepsInv(steps);
    RunKeepsHandles(steps);
    assert FileOk(s, i);
    hide After;
    if s.files[i].releases == 1 {
      forall h: nat | h < |s.files[i].handles| ensures s.files[i].handles[h] == Closed {
        assert HandleOk(s, i, h);
        LentHandleIsHeld(s, i, h);
      }
    }
    forall q: nat, r: nat, h | q < r < |s.requests| && s.requests[q] == Reading(i, Some(h)) ensures s.requests[r] != Reading(i, Some(h)) {
      assert ReaderOk(s, q) && ReaderOk(s, r);
    }
  }

  // ---------- the right file ----------

  // What a request wants, as its position shows it.
  predicate Wants(s: State, q: Request, slot: Slot) {
    match q
    case Missed(sl) => sl == slot
    case Opened(sl, f) => sl == slot && f < |s.files| && s.files[f].origin == slot
    case Discarding(keep, _) => keep < |s.files| && s.files[keep].origin == slot
    case Holding(f) => f < |s.files| && s.files[f].origin == slot
    case Reading(f, _) => f < |s.files| && s.files[f].origin == slot
    case Closing(f) => f < |s.files| && s.files[f].origin == slot
    case Ended => true
  }

  ghost predicate SlotsOk(s: State) {
    && |s.asked| == |s.requests|
    && (forall r: nat :: r < |s.requests| ==> Wants(s, s.requests[r], s.asked[r]))
    && (forall slot :: slot in s.cache ==> s.cache[slot] < |s.files| && s.files[s.cache[slot]].origin == slot)
  }

  // Files are only added, and keep what they were opened for.
  ghost predicate SameFiles(s: State, s': State) {
    |s.files| <= |s'.files| && forall i: nat :: i < |s.files| ==> s'.files[i].origin == s.files[i].origin
  }

  lemma WantsStill(s: State, s': State, q: Request, slot: Slot)
    requires Wants(s, q, slot) && SameFiles(s, s')
    ensures Wants(s', q, slot)
  {
  }

  // One request moves on, and the others stay where they are.
  lemma MoveKeepsSlots(s: State, s': State, r: nat)
    requires SlotsOk(s) && SameFiles(s, s') && r < |s.requests| == |s'.requests| && s'.asked == s.asked
    requires s'.requests == s.requests[r := s'.requests[r]] && Wants(s', s'.requests[r], s.asked[r])
    requires forall slot :: slot in s'.cache ==> s'.cache[slot] < |s'.files| && s'.files[s'.cache[slot]].origin == slot
    ensures SlotsOk(s')
  {
    hide Wants, SameFiles;
    forall k: nat | k < |s'.requests| ensures Wants(s', s'.requests[k], s'.asked[k]) {
      if k != r {
        WantsStill(s, s', s.requests[k], s.asked[k]);
      }
    }
  }

  lemma LookupKeepsSlots(s: State, slot: Slot)
    requires SlotsOk(s)
    ensures SlotsOk(AfterLookup(s, slot))
  {
    var s' := AfterLookup(s, slot);
    assert SameFiles(s, s') && Wants(s', s'.requests[|s.requests|], slot);
    hide Wants, SameFiles;
    forall k: nat | k < |s'.requests| ensures Wants(s', s'.requests[k], s'.asked[k]) {
      if k < |s.requests| {
        WantsStill(s, s', s.requests[k], s.asked[k]);
      }
    }
  }

  lemma CleanKeepsSlots(s: State, step: Step)
    requires SlotsOk(s) && (step.Clean? || step.ReleaseOne?)
    ensures SlotsOk(Apply(s, step))
  {
    var s' := Apply(s, step);
    assert SameFiles(s, s') && s'.requests == s.requests && s'.asked == s.asked;
    forall k: nat | k < |s'.requests| ensures Wants(s', s'.requests[k], s'.asked[k]) {
      WantsStill(s, s', s.requests[k], s.asked[k]);
    }
  }

  lemma RequestKeepsSlots(s: State, step: Step)
    requires SlotsOk(s) && !step.Lookup? && !step.Clean? && !step.ReleaseOne?
    ensures SlotsOk(Apply(s, step))
  {
    var s' := Apply(s, step);
    if s' != s {
      assert Wants(s, s.requests[step.r], s.asked[step.r]);
      RequestMoves(s, step);
      hide Apply;
      MoveKeepsSlots(s, s', step.r);
    }
  }

  // What request `r` does concerns itself, and keeps to its slot.
  ghost predicate KeepsToSlot(s: State, s': State, r: nat)
    requires r < |s.asked|
  {
    && SameFiles(s, s') && r < |s.requests| == |s'.requests| && s'.asked == s.asked
    && s'.requests == s.requests[r := s'.requests[r]] && Wants(s', s'.requests[r], s.asked[r])
    && (forall slot :: slot in s'.cache ==> s'.cache[slot] < |s'.files| && s'.files[s'.cache[slot]].origin == slot)
  }

  lemma OpenerMoves(s: State, step: Step)
    requires SlotsOk(s) && (step.Open? || step.Insert? || step.Discard?) && Apply(s, step) != s
    requires step.r < |s.requests| && Wants(s, s.requests[step.r], s.asked[step.r])
    ensures KeepsToSlot(s, Apply(s, step), step.r)
  {
  }

  lemma ReaderMoves(s: State, step: Step)
    requires SlotsOk(s) && (step.NotModified? || step.NewReader? || step.CloseReader? || step.FinishClose?) && Apply(s, step) != s
    requires step.r < |s.requests| && Wants(s, s.requests[step.r], s.asked[step.r])
    ensures KeepsToSlot(s, Apply(s, step), step.r)
  {
  }

  lemma RequestMoves(s: State, step: Step)
    requires SlotsOk(s) && !step.Lookup? && !step.Clean? && !step.ReleaseOne? && Apply(s, step) != s
    requires step.r < |s.requests| && Wants(s, s.requests[step.r], s.asked[step.r])
    ensures KeepsToSlot(s, Apply(s, step), step.r)
  {
    hide Apply, KeepsToSlot, Wants;
    if step.Open? || step.Insert? || step.Discard? {
      OpenerMoves(s, step);
    } else {
      ReaderMoves(s, step);
    }
  }

  lemma {:induction false} RunKeepsSlots(steps: seq<Step>)
    ensures SlotsOk(After(steps))
  {
    if steps != [] {
      var rest, last := steps[..|steps| - 1], steps[|steps| - 1];
      RunKeepsSlots(rest);
      hide SlotsOk;
      if last.Lookup? {
        LookupKeepsSlots(After(rest), last.slot);
      } else if last.Clean? || last.ReleaseOne? {
        CleanKeepsSlots(After(rest), last);
      } else {
        RequestKeepsSlots(After(rest), last);
      }
    }
  }

  /**
    On every interleaving, whatever file a request holds, reads or closes was opened for the
    path and encoding that the request asked for, and so is every cached file.
   */
  lemma RequestsGetTheirFile(steps: seq<Step>, r: nat, i: nat, slot: Slot)
    ensures var s := After(steps);
            && |s.asked| == |s.requests|
            && (r < |s.requests| && Holds(s.requests[r], i) ==> i < |s.files| && s.files[i].origin == s.asked[r])
            && (slot in s.cache ==> s.cache[slot] < |s.files| && s.files[s.cache[slot]].origin == slot)
  {
    RunKeepsSlots(steps);
    var s := After(steps);
    assert r < |s.requests| ==> Wants(s, s.requests[r], s.asked[r]);
  }

  /**
    A lookup asks for the slot it is given.  If that is cached, the request holds the cached
    file at once and no file is opened; otherwise it has missed it.
   */
  lemma LookupFinds(steps: seq<Step>, slot: Slot)
    ensures var s, s' := After(steps), After(steps + [Lookup(slot)]);
            var r := |s.requests|;
            && |s'.requests| == |s'.asked| == r + 1 && s'.asked[r] == slot && |s'.files| == |s.files| && s'.cache == s.cache
            && s'.requests[r] == if slot in s.cache then Holding(s.cache[slot]) else Missed(slot)
  {
    RunKeepsSlots(steps);
    assert (steps + [Lookup(slot)])[..|steps|] == steps;
  }

  /** A request that has its file never opens one: no later `Open` of it changes anything. */
  lemma {:induction false} NoSecondOpen(steps: seq<Step>, more: seq<Step>, r: nat, ok: bool, big: bool)
    requires r < |After(steps).requests| && !After(steps).requests[r].Missed?
    ensures var s := After(steps + more);
            r < |s.requests| && !s.requests[r].Missed? && Apply(s, Open(r, ok, big)) == s
  {
    hide After;
    if more == [] {
      assert steps + more == steps;
    } else {
      var rest := more[..|more| - 1];
      assert steps + more == (steps + rest) + [more[|more| - 1]];
      AfterSnoc(steps + rest, more[|more| - 1]);
      NoSecondOpen(steps, rest, r, ok, big);
      StaysFound(After(steps + rest), more[|more| - 1], r);
    }
    OpenNeedsMiss(After(steps + more), r, ok, big);
  }

  lemma AfterSnoc(steps: seq<Step>, step: Step)
    ensures After(steps + [step]) == Apply(After(steps), step)
  {
    assert (steps + [step])[..|steps|] == steps;
  }

  lemma OpenNeedsMiss(s: State, r: nat, ok: bool, big: bool)
    requires r < |s.requests| && !s.requests[r].Missed?
    ensures Apply(s, Open(r, ok, big)) == s
  {
  }

  lemma StaysFound(s: State, step: Step, r: nat)
    requires r < |s.requests| && !s.requests[r].Missed?
    ensures r < |Apply(s, step).requests| && !Apply(s, step).requests[r].Missed?
  {
  }

  /**
    What the other cache steps do: a request that opened a file not cached meanwhile caches it
    and holds it, otherwise it holds the cached one; the cleaner removes exactly the stale
    entries and no other.
   */
  lemma CacheChanges(steps: seq<Step>, r: nat, stale: set<Slot>, slot: Slot)
    ensures var s := After(steps);
            r < |s.requests| && s.requests[r].Opened? ==>
              var s', sl, f := Apply(s, Insert(r)), s.requests[r].slot, s.requests[r].file;
              && sl in s'.cache && r < |s'.requests|
              && (sl !in s.cache ==> s'.cache == s.cache[sl := f] && s'.requests[r] == Holding(f))
              && (sl in s.cache ==> s'.cache == s.cache && s'.requests[r] == Discarding(s.cache[sl], f))
    ensures var s, s' := After(steps), Apply(After(steps), Clean(stale));
            s.doomed == {} ==>
              && (slot in s'.cache <==> slot in s.cache && slot !in stale)
              && (slot in s'.cache ==> s'.cache[slot] == s.cache[slot])
  {
    RunKeepsSlots(steps);
    var s := After(steps);
    assert r < |s.requests| ==> Wants(s, s.requests[r], s.asked[r]);
  }

  /**
    Big-file handles are used again: a reader takes the latest pooled one and opens a new one
    only if there is none, and a reader that closes well gives its handle back.
   */
  lemma HandlesAreReused(steps: seq<Step>, r: nat, ok: bool)
    ensures var s := After(steps);
            r < |s.requests| && s.requests[r].Holding? ==>
              var i := s.requests[r].file;
              && i < |s.files|
              && (s.files[i].big && s.files[i].pool != [] ==>
                    var s', h := Apply(s, NewReader(r, ok)), s.files[i].pool[|s.files[i].pool| - 1];
                    && i < |s'.files| && s'.files[i].pool == s.files[i].pool[..|s.files[i].pool| - 1]
                    && |s'.files[i].handles| == |s.files[i].handles|
                    && r < |s'.requests| && s'.requests[r] == Reading(i, Some(h)))
    ensures var s := After(steps);
            r < |s.requests| && ReadsHandle(s.requests[r]) ==>
              var i, h := s.requests[r].file, s.requests[r].handle.value;
              && i < |s.files|
              && var s' := Apply(s, CloseReader(r, ok));
                 && i < |s'.files| && s'.files[i].pool == s.files[i].pool + (if ok then [h] else [])
                 && r < |s'.requests| && s'.requests[r] == Closing(i)
  {
    hide SlotsOk, HandlesOk, AfterNewReader, AfterCloseReader, Wants, PoolOk, ReaderOk, After;
    RunKeepsSlots(steps);
    RunKeepsHandles(steps);
    var s := After(steps);
    if r < |s.requests| && s.requests[r].Holding? {
      TakesPooled(s, r, ok);
    }
    if r < |s.requests| && ReadsHandle(s.requests[r]) {
      GivesBack(s, r, ok);
    }
  }

  lemma TakesPooled(s: State, r: nat, ok: bool)
    requires SlotsOk(s) && HandlesOk(s) && r < |s.requests| && s.requests[r].Holding?
    ensures var i := s.requests[r].file;
            && i < |s.files|
            && (s.files[i].big && s.files[i].pool != [] ==>
                  var s', h := AfterNewReader(s, r, ok), s.files[i].pool[|s.files[i].pool| - 1];
                  && i < |s'.files| && s'.files[i].pool == s.files[i].pool[..|s.files[i].pool| - 1]
                  && |s'.files[i].handles| == |s.files[i].handles|
                  && r < |s'.requests| && s'.requests[r] == Reading(i, Some(h)))
  {
    assert Wants(s, s.requests[r], s.asked[r]);
    assert PoolOk(s.files[s.requests[r].file]);
    hide SlotsOk, HandlesOk;
  }

  lemma GivesBack(s: State, r: nat, ok: bool)
    requires SlotsOk(s) && HandlesOk(s) && r < |s.requests| && ReadsHandle(s.requests[r])
    ensures var i, h := s.requests[r].file, s.requests[r].handle.value;
            && i < |s.files|
            && var s' := AfterCloseReader(s, r, ok);
               && i < |s'.files| && s'.files[i].pool == s.files[i].pool + (if ok then [h] else [])
               && r < |s'.requests| && s'.requests[r] == Closing(i)
  {
    assert Wants(s, s.requests[r], s.asked[r]) && ReaderOk(s, r);
    hide SlotsOk, HandlesOk;
  }

  /** A request that missed opens a file for what it asked for and carries it. */
  lemma OpenOpens(s: State, r: nat, big: bool)
    requires r < |s.requests| && s.requests[r].Missed?
    ensures var s', i := Apply(s, Open(r, true, big)), |s.files|;
            && |s'.files| == i + 1 && s'.files[..i] == s.files && s'.files[i].origin == s.requests[r].slot && s'.files[i].big == big
            && s'.files[i].readers == 0 && s'.requests == s.requests[r := Opened(s.requests[r].slot, i)] && s'.cache == s.cache
  {
  }

  /**
    Reading starts without a handle of its own for a small file, with a new one for a big file
    without pooled ones, and not at all if that cannot be opened; a small-file reader that
    closes is done at once.
   */
  lemma ReadersStart(s: State, r: nat, ok: bool)
    requires r < |s.requests| && (s.requests[r].Holding? || s.requests[r].Reading?) && s.requests[r].file < |s.files|
    ensures var i := s.requests[r].file;
            s.requests[r].Holding? ==>
              var s' := Apply(s, NewReader(r, ok));
              && (!s.files[i].big ==> s' == SetRequest(s, r, Reading(i, None)))
              && (s.files[i].big && s.files[i].pool == [] ==>
                    if ok then s'.requests == s.requests[r := Reading(i, Some(|s.files[i].handles|))] &&
                               s'.files == s.files[i := s.files[i].(handles := s.files[i].handles + [With(r)])]
                    else s'.requests == s.requests[r := Ended] && s'.files == s.files[i := s.files[i].(readers := s.files[i].readers - 1)])
    ensures var i := s.requests[r].file;
            s.requests[r] == Reading(i, None) ==>
              var s' := Apply(s, CloseReader(r, ok));
              s'.requests == s.requests[r := Ended] && s'.files == s.files[i := s.files[i].(readers := s.files[i].readers - 1)]
  {
  }

  /** However a request leaves its file, it ends and gives up exactly its own hold. */
  lemma RequestsEnd(s: State, r: nat)
    requires r < |s.requests|
    ensures s.requests[r].Holding? && s.requests[r].file < |s.files| ==>
              var s', f := Apply(s, NotModified(r)), s.requests[r].file;
              s'.requests == s.requests[r := Ended] && s'.files == s.files[f := s.files[f].(readers := s.files[f].readers - 1)]
    ensures s.requests[r].Closing? && s.requests[r].file < |s.files| ==>
              var s', f := Apply(s, FinishClose(r)), s.requests[r].file;
              s'.requests == s.requests[r := Ended] && s'.files == s.files[f := s.files[f].(readers := s.files[f].readers - 1)]
    ensures s.requests[r].Missed? ==> Apply(s, Open(r, false, true)).requests == s.requests[r := Ended]
  {
  }

  // ---------- the cleaner's loops ----------

  ghost function Elements(files: seq<nat>): set<nat> { set i | i in files }

  predicate Busy(s: State, i: nat) { i < |s.files| && 0 < s.files[i].readers }
  predicate IdleFile(s: State, i: nat) { i < |s.files| && s.files[i].readers <= 0 }

  // No file is listed twice.
  ghost predicate Once(files: seq<nat>) {
    forall i: nat :: multiset(files)[i] <= 1
  }

  // No file has two cache entries.
  ghost predicate OneEntryEach(cache: map<Slot, nat>) {
    forall a, b :: a in cache && b in cache && a != b ==> cache[a] != cache[b]
  }

  // Files left pending by the previous pass: those still read stay, the others go.
  method SplitPending(s: State, pendingFiles: seq<nat>) returns (remaining: seq<nat>, toRelease: seq<nat>)
    requires forall i :: i in pendingFiles ==> i < |s.files|
    ensures forall i: nat :: i in remaining <==> i in pendingFiles && Busy(s, i)
    ensures forall i: nat :: i in toRelease <==> i in pendingFiles && IdleFile(s, i)
    ensures multiset(remaining) + multiset(toRelease) == multiset(pendingFiles)
  {
    remaining, toRelease := [], [];
    for k := 0 to |pendingFiles|
      invariant forall i: nat :: i in remaining <==> i in pendingFiles[..k] && Busy(s, i)
      invariant forall i: nat :: i in toRelease <==> i in pendingFiles[..k] && IdleFile(s, i)
      invariant multiset(remaining) + multiset(toRelease) == multiset(pendingFiles[..k])
    {
      var ff := pendingFiles[k];
      assert ff in pendingFiles && pendingFiles[..k + 1] == pendingFiles[..k] + [ff];
      if s.files[ff].readers > 0 {
        remaining := remaining + [ff];
      } else {
        toRelease := toRelease + [ff];
      }
    }
    assert pendingFiles[..|pendingFiles|] == pendingFiles;
  }

  // cleanCacheNolock, which visits the entries in any order.
  method SweepEntries(s: State, stale: set<Slot>, pendingFiles: seq<nat>, filesToRelease: seq<nat>)
    returns (cache: map<Slot, nat>, pending: seq<nat>, toRelease: seq<nat>)
    requires OneEntryEach(s.cache) && Once(pendingFiles + filesToRelease)
    requires forall slot :: slot in s.cache ==>
               s.cache[slot] < |s.files| && s.cache[slot] !in pendingFiles && s.cache[slot] !in filesToRelease
    ensures cache == KeptEntries(s, stale, {})
    ensures forall i: nat :: i in pending <==> i in pendingFiles || (Busy(s, i) && Visited(s, stale, {}, i))
    ensures forall i: nat :: i in toRelease <==> i in filesToRelease || (IdleFile(s, i) && Visited(s, stale, {}, i))
    ensures Once(pending + toRelease)
  {
    cache, pending, toRelease := s.cache, pendingFiles, filesToRelease;
    var keys := s.cache.Keys;
    NothingVisited(s, stale, pendingFiles, filesToRelease);
    hide KeptEntries;
    while keys != {}
      invariant keys <= s.cache.Keys && cache == KeptEntries(s, stale, keys)
      invariant Listed(s, stale, keys, pendingFiles, filesToRelease, pending, toRelease)
    {
      var k :| k in keys;
      var ff := s.cache[k];
      KeptStep(s, stale, keys, k);
      ListStep(s, stale, keys, k, pendingFiles, filesToRelease, pending, toRelease);
      hide Listed, OneEntryEach, Once;
      if k in stale {
        if s.files[ff].readers > 0 {
          pending := pending + [ff];
        } else {
          toRelease := toRelease + [ff];
        }
        cache := cache - {k};
      }
      keys := keys - {k};
    }
  }

  // Beside the files listed before, the lists hold those of the stale entries visited so far.
  ghost predicate Listed(s: State, stale: set<Slot>, keys: set<Slot>, pendingFiles: seq<nat>, filesToRelease: seq<nat>,
                         pending: seq<nat>, toRelease: seq<nat>) {
    && (forall i: nat :: i in pending <==> i in pendingFiles || (Busy(s, i) && Visited(s, stale, keys, i)))
    && (forall i: nat :: i in toRelease <==> i in filesToRelease || (IdleFile(s, i) && Visited(s, stale, keys, i)))
    && Once(pending + toRelease)
  }

  // The entries that are not stale or not visited yet.
  function KeptEntries(s: State, stale: set<Slot>, keys: set<Slot>): map<Slot, nat> {
    map slot | slot in s.cache && (slot in keys || slot !in stale) :: s.cache[slot]
  }

  lemma KeptStep(s: State, stale: set<Slot>, keys: set<Slot>, k: Slot)
    requires k in keys
    ensures KeptEntries(s, stale, keys - {k}) == if k in stale then KeptEntries(s, stale, keys) - {k} else KeptEntries(s, stale, keys)
  {
  }

  lemma NothingVisited(s: State, stale: set<Slot>, pendingFiles: seq<nat>, filesToRelease: seq<nat>)
    requires Once(pendingFiles + filesToRelease)
    ensures KeptEntries(s, stale, s.cache.Keys) == s.cache
    ensures Listed(s, stale, s.cache.Keys, pendingFiles, filesToRelease, pendingFiles, filesToRelease)
  {
    hide Once;
  }

  lemma ListStep(s: State, stale: set<Slot>, keys: set<Slot>, k: Slot, pendingFiles: seq<nat>, filesToRelease: seq<nat>,
                 pending: seq<nat>, toRelease: seq<nat>)
    requires OneEntryEach(s.cache) && k in keys && keys <= s.cache.Keys && s.cache[k] < |s.files|
    requires s.cache[k] !in pendingFiles && s.cache[k] !in filesToRelease
    requires Listed(s, stale, keys, pendingFiles, filesToRelease, pending, toRelease)
    ensures var ff := s.cache[k];
            if k !in stale then Listed(s, stale, keys - {k}, pendingFiles, filesToRelease, pending, toRelease)
            else if s.files[ff].readers > 0
            then Listed(s, stale, keys - {k}, pendingFiles, filesToRelease, pending + [ff], toRelease)
            else Listed(s, stale, keys - {k}, pendingFiles, filesToRelease, pending, toRelease + [ff])
  {
    var ff := s.cache[k];
    VisitedStep(s, stale, keys, k);
    assert !Visited(s, stale, keys, ff);
    hide Visited, Once;
    OnceMore(pending, toRelease, ff);
  }

  lemma OnceMore(a: seq<nat>, b: seq<nat>, x: nat)
    requires Once(a + b) && x !in a && x !in b
    ensures Once((a + [x]) + b) && Once(a + (b + [x]))
  {
    assert multiset((a + [x]) + b) == multiset(a + b) + multiset{x};
    assert multiset(a + (b + [x])) == multiset(a + b) + multiset{x};
    assert multiset(a + b)[x] == 0;
  }

  lemma CachedFilesAreApart(s: State)
    requires Inv(s)
    ensures OneEntryEach(s.cache)
    ensures forall slot :: slot in s.cache ==> s.cache[slot] < |s.files| && s.cache[slot] !in s.pending
  {
    forall slot | slot in s.cache ensures s.cache[slot] < |s.files| && s.cache[slot] !in s.pending {
      assert FileOk(s, s.cache[slot]);
    }
  }

  /**
    The locked part of cleanCache performs exactly the cleaner's step: it keeps pending the
    swept files that are still read and collects the others for release, and lists no file
    twice.
   */
  method CleanCache(s: State, stale: set<Slot>, pendingFiles: seq<nat>)
    returns (cache: map<Slot, nat>, pending: seq<nat>, toRelease: seq<nat>)
    requires Inv(s) && s.doomed == {} && Elements(pendingFiles) == s.pending && Once(pendingFiles)
    ensures cache == AfterClean(s, stale).cache
    ensures Elements(pending) == AfterClean(s, stale).pending
    ensures Elements(toRelease) == AfterClean(s, stale).doomed
    ensures Once(pending + toRelease)
  {
    CachedFilesAreApart(s);
    assert CacheOk(s);
    hide Inv;
    assert forall i :: i in pendingFiles <==> i in Elements(pendingFiles);
    pending, toRelease := SplitPending(s, pendingFiles);
    assert multiset(pending + toRelease) == multiset(pendingFiles);
    cache, pending, toRelease := SweepEntries(s, stale, pending, toRelease);
    forall i: nat ensures i in Swept(s, stale) <==> i in s.pending || Visited(s, stale, {}, i) {
    }
    hide Visited, CacheOk, Once;
  }

  /** The unlocked part: every file collected is released exactly once, and no other file. */
  method ReleaseFiles(s: State, filesToRelease: seq<nat>) returns (s': State)
    requires Inv(s) && Elements(filesToRelease) == s.doomed && Once(filesToRelease)
    ensures Inv(s') && s'.doomed == {} && s'.pending == s.pending && s'.cache == s.cache && |s'.files| == |s.files|
    ensures forall i: nat :: i < |s.files| ==>
              s'.files[i].releases == s.files[i].releases + multiset(filesToRelease)[i]
  {
    s' := s;
    assert filesToRelease[0..] == filesToRelease;
    for k := 0 to |filesToRelease|
      invariant Inv(s') && s'.doomed == Elements(filesToRelease[k..])
      invariant s'.pending == s.pending && s'.cache == s.cache && |s'.files| == |s.files|
      invariant forall i: nat :: i < |s.files| ==>
                  s'.files[i].releases + multiset(filesToRelease[k..])[i] == s.files[i].releases + multiset(filesToRelease)[i]
    {
      hide Inv;
      var ff := filesToRelease[k];
      assert filesToRelease[k..] == [ff] + filesToRelease[k + 1..];
      NotAgain(filesToRelease, k);
      DoomedIsFile(s', ff);
      StepKeepsInv(s', ReleaseOne(ff));
      s' := Apply(s', ReleaseOne(ff));
    }
  }

  lemma DoomedIsFile(s: State, i: nat)
    requires Inv(s) && i in s.doomed
    ensures i < |s.files|
  {
  }

  lemma NotAgain(files: seq<nat>, k: nat)
    requires Once(files) && k < |files|
    ensures Elements(files[k + 1..]) == Elements(files[k..]) - {files[k]}
  {
    var x, rest := files[k], files[k + 1..];
    assert files == files[..k] + [x] + rest;
    assert multiset(files)[x] == multiset(files[..k])[x] + 1 + multiset(rest)[x];
    assert x !in rest;
    assert files[k..] == [x] + rest;
    forall y: nat ensures y in files[k..] <==> y == x || y in rest {
    }
  }

  // The stale entry of file `i` is among those already visited.
  ghost predicate Visited(s: State, stale: set<Slot>, keys: set<Slot>, i: nat) {
    exists slot :: slot in s.cache && slot in stale && slot !in keys && s.cache[slot] == i
  }

  lemma VisitedStep(s: State, stale: set<Slot>, keys: set<Slot>, k: Slot)
    requires k in keys && k in s.cache
    ensures forall i: nat :: Visited(s, stale, keys - {k}, i) <==> Visited(s, stale, keys, i) || (k in stale && i == s.cache[k])
  {
    forall i: nat ensures Visited(s, stale, keys - {k}, i) <==> Visited(s, stale, keys, i) || (k in stale && i == s.cache[k]) {
      if Visited(s, stale, keys, i) {
        var slot :| slot in s.cache && slot in stale && slot !in keys && s.cache[slot] == i;
        assert slot !in keys - {k};
      }
      if k in stale && i == s.cache[k] {
        assert k !in keys - {k};
      }
    }
  }
}
