/** Every interleaving of commits, abandoned commits, scans and membership changes around the review
    history cache, with the sorted key locks every commit takes
    (review_history.rs and its callers). A step is one critical section. */
module HistoryProtocol {
  import opened Domain
  import opened ReviewHistory
  import opened Totals

  /** A reopened workflow item and the visit it claims to reopen. */
  datatype Reopened = Reopened(key: WorkflowKey, source: AssignmentId)

  datatype Phase = Locking | Checked | Appended

  /** A transaction on one image: it holds that image's lock and a membership read guard throughout. */
  datatype Commit = Commit(
    previous: Observation,
    next: Observation,
    source: Option<Assignment>,
    reopened: set<Reopened>,
    keys: set<Key>,
    held: set<Key>,
    phase: Phase)

  /** The one caller that holds the refresh lock. */
  datatype Scanner =
    | Idle
    | Holding
    | Started(generation: nat)
    | Scanning(generation: nat, captured: set<ImageId>, scanned: Observations)

  /** A state rebuild holds the membership lock alone from its invalidation until it has written what it replayed. */
  datatype Rebuild = Rebuild(image: ImageId, rebuilt: Observation)

  datatype World = World(
    log: Observations,
    commits: map<ImageId, Commit>,
    members: set<ImageId>,
    cache: History,
    scanner: Scanner,
    rebuild: Option<Rebuild>,
    historyDepth: nat)

  const EMPTY := Observation(0, map[], map[])

  function LatestOf(w: World, image: ImageId): Observation {
    if image in w.log then w.log[image] else EMPTY
  }

  /** The committed history of the current members. */
  function Committed(w: World): Observations {
    map image | image in w.members :: LatestOf(w, image)
  }

  function KeyFor(key: WorkflowKey): Key {
    Key(key.user, key.task)
  }

  /** The keys whose reviews or visits a transition changes. */
  function ChangedKeys(a: Observation, b: Observation): set<Key> {
    (set key | key in a.finished.Keys + b.finished.Keys
               && !(key in a.finished && key in b.finished && a.finished[key] == b.finished[key]))
    + (set key | key in a.workflow.Keys + b.workflow.Keys
                 && !(key in a.workflow && key in b.workflow && a.workflow[key] == b.workflow[key])
         :: KeyFor(key))
  }

  /** The lock set of a commit. */
  function LockSet(previous: Observation, next: Observation, source: Option<Assignment>, reopened: set<Reopened>)
    : set<Key>
  {
    ChangedKeys(previous, next)
    + (set r | r in reopened :: KeyFor(r.key))
    + (if source.Some? then {KeyOf(source.value)} else {})
  }

  predicate KeyLess(a: Key, b: Key) {
    a.user < b.user || (a.user == b.user && a.task < b.task)
  }

  /** `key` is the next lock in sorted order that `commit` has not taken yet. */
  predicate Awaits(commit: Commit, key: Key) {
    && commit.phase == Locking
    && key in commit.keys - commit.held
    && forall other | other in commit.keys - commit.held :: other == key || KeyLess(key, other)
  }

  predicate AllLocked(commit: Commit) {
    commit.phase == Locking && commit.held == commit.keys
  }

  /** Both checks a commit makes once it holds its locks, against a present projection. */
  ghost predicate ChecksPass(w: World, image: ImageId)
    requires image in w.commits
  {
    var c := w.commits[image];
    && (c.source.Some? || c.reopened != {} ==> w.cache.projection.Some?)
    && (c.source.Some? ==> CheckAgainst(w.cache.projection.value, c.source.value) == Passed)
    && (forall r :: r in c.reopened ==>
          InWindow(Visits(w.cache.projection.value, r.key), w.historyDepth + 1, image, r.source))
  }

  datatype Step =
    | StartCommit(image: ImageId, next: Observation, source: Option<Assignment>, reopened: set<Reopened>)
    | Lock(image: ImageId, key: Key)
    | PassChecks(image: ImageId)
    | FailChecks(image: ImageId)
    | Append(image: ImageId)
    | ObserveCommit(image: ImageId)
    | Abandon(image: ImageId)
    | AcquireRefresh
    | StartAttempt
    | CaptureIndex
    | ReadImage(image: ImageId)
    | PublishScan
    | CancelScan
    | ChangeMembers(members: set<ImageId>)
    | StartRebuild(image: ImageId, rebuilt: Observation)
    | FinishRebuild
    | CancelRebuild

  ghost predicate Enabled(w: World, step: Step) {
    match step
    case StartCommit(image, next, source, reopened) =>
      && image !in w.commits && w.rebuild.None?
      && ObservationOk(image, next)
      && (next == LatestOf(w, image) || next.sequence > LatestOf(w, image).sequence)
      && (source.Some? ==> source.value.image == image)
    case Lock(image, key) =>
      && image in w.commits && Awaits(w.commits[image], key)
      && forall other :: other in w.commits ==> key !in w.commits[other].held
    case PassChecks(image) => image in w.commits && AllLocked(w.commits[image]) && ChecksPass(w, image)
    case FailChecks(image) => image in w.commits && AllLocked(w.commits[image]) && !ChecksPass(w, image)
    case Append(image) => image in w.commits && w.commits[image].phase == Checked
    case ObserveCommit(image) => image in w.commits && w.commits[image].phase == Appended
    case Abandon(image) => image in w.commits
    case AcquireRefresh => w.scanner.Idle?
    case StartAttempt => w.scanner.Holding?
    case CaptureIndex => w.scanner.Started?
    case ReadImage(image) =>
      w.scanner.Scanning? && image in w.scanner.captured && image !in w.scanner.scanned
    case PublishScan => w.scanner.Scanning? && w.scanner.scanned.Keys == w.scanner.captured
    case CancelScan => !w.scanner.Idle?
    case ChangeMembers(_) => w.commits == map[] && w.rebuild.None?
    case StartRebuild(image, rebuilt) =>
      && w.commits == map[] && w.rebuild.None?
      && ObservationOk(image, rebuilt) && rebuilt.sequence == LatestOf(w, image).sequence
    case FinishRebuild => w.rebuild.Some?
    case CancelRebuild => w.rebuild.Some?
  }

  ghost function Next(w: World, step: Step): World
    requires Enabled(w, step)
  {
    match step
    case StartCommit(image, next, source, reopened) =>
      var previous := LatestOf(w, image);
      w.(commits := w.commits[image :=
           Commit(previous, next, source, reopened, LockSet(previous, next, source, reopened), {}, Locking)])
    case Lock(image, key) =>
      var commit := w.commits[image];
      w.(commits := w.commits[image := commit.(held := commit.held + {key})])
    case PassChecks(image) => w.(commits := w.commits[image := w.commits[image].(phase := Checked)])
    // A failed check returns before the guard exists, so nothing is invalidated.
    case FailChecks(image) => w.(commits := w.commits - {image})
    case Append(image) =>
      w.(log := w.log[image := w.commits[image].next],
         commits := w.commits[image := w.commits[image].(phase := Appended)])
    case ObserveCommit(image) =>
      w.(cache := Observe(w.cache, image, w.commits[image].next), commits := w.commits - {image})
    case Abandon(image) =>
      var uncertain := w.commits[image].phase != Locking && w.commits[image].held != {};
      w.(cache := if uncertain then Invalidate(w.cache) else w.cache, commits := w.commits - {image})
    case AcquireRefresh => w.(scanner := Holding)
    case StartAttempt =>
      w.(scanner := if w.cache.projection.Some? then Idle else Started(w.cache.generation))
    case CaptureIndex => w.(scanner := Scanning(w.scanner.generation, w.members, map[]))
    case ReadImage(image) =>
      w.(scanner := w.scanner.(scanned := w.scanner.scanned[image := LatestOf(w, image)]))
    case PublishScan =>
      w.(cache := Publish(w.cache, w.scanner.generation, w.scanner.captured, w.scanner.scanned),
         scanner := if w.cache.generation == w.scanner.generation then Idle else Holding)
    case CancelScan => w.(scanner := Idle)
    case ChangeMembers(members) =>
      w.(members := members, cache := if members == w.members then w.cache else Invalidate(w.cache))
    case StartRebuild(image, rebuilt) =>
      w.(cache := Invalidate(w.cache), rebuild := Some(Rebuild(image, rebuilt)))
    case FinishRebuild =>
      w.(log := w.log[w.rebuild.value.image := w.rebuild.value.rebuilt], rebuild := None)
    case CancelRebuild => w.(rebuild := None)
  }

  // ---------------------------------------------------------------------------------------------
  // What every step keeps
  // ---------------------------------------------------------------------------------------------

  predicate CommitterStep(step: Step) {
    step.Lock? || step.PassChecks? || step.FailChecks? || step.Append? || step.ObserveCommit?
  }

  ghost predicate SameHistory(a: Observation, b: Observation) {
    a.finished == b.finished && a.workflow == b.workflow
  }

  ghost predicate SameAt<K, V>(a: map<K, V>, b: map<K, V>, key: K) {
    (key in a <==> key in b) && (key in a && key in b ==> a[key] == b[key])
  }

  /** The two observations agree on everything filed under `key`. */
  ghost predicate SameSlice(a: Observation, b: Observation, key: Key) {
    && SameAt(a.finished, b.finished, key)
    && forall k: WorkflowKey {:trigger SameAt(a.workflow, b.workflow, k)} ::
         KeyFor(k) == key ==> SameAt(a.workflow, b.workflow, k)
  }

  lemma UnchangedKeySameSlice(a: Observation, b: Observation, key: Key)
    requires key !in ChangedKeys(a, b)
    ensures SameSlice(a, b, key)
  {
    assert key in a.finished.Keys + b.finished.Keys ==>
        key in a.finished && key in b.finished && a.finished[key] == b.finished[key];
    forall k: WorkflowKey | KeyFor(k) == key ensures SameAt(a.workflow, b.workflow, k) {
      if k in a.workflow.Keys + b.workflow.Keys {
        assert k in a.workflow && k in b.workflow && a.workflow[k] == b.workflow[k];
      }
    }
  }

  /** A commit's lock set covers everything it changes and everything it checks. */
  ghost predicate LocksCover(c: Commit) {
    && (forall key {:trigger SameSlice(c.previous, c.next, key)} ::
          key !in c.keys ==> SameSlice(c.previous, c.next, key))
    && (c.source.Some? ==> KeyOf(c.source.value) in c.keys)
    && (forall r :: r in c.reopened ==> KeyFor(r.key) in c.keys)
  }

  lemma LockSetCovers(c: Commit)
    requires c.keys == LockSet(c.previous, c.next, c.source, c.reopened)
    ensures LocksCover(c)
  {
    forall key | key !in c.keys ensures SameSlice(c.previous, c.next, key) {
      UnchangedKeySameSlice(c.previous, c.next, key);
    }
    forall r | r in c.reopened ensures KeyFor(r.key) in c.keys { }
  }

  lemma NoLocksSameHistory(c: Commit)
    requires LocksCover(c) && c.keys == {}
    ensures SameHistory(c.previous, c.next)
  {
    forall key ensures SameAt(c.previous.finished, c.next.finished, key) {
      assert SameSlice(c.previous, c.next, key);
    }
    forall k ensures SameAt(c.previous.workflow, c.next.workflow, k) {
      assert SameSlice(c.previous, c.next, KeyFor(k));
    }
    SameMap(c.previous.finished, c.next.finished);
    SameMap(c.previous.workflow, c.next.workflow);
  }

  lemma SameMap<K(!new), V>(a: map<K, V>, b: map<K, V>)
    requires forall key :: SameAt(a, b, key)
    ensures a == b
  {
    forall key ensures key in a <==> key in b { assert SameAt(a, b, key); }
    forall key | key in a ensures a[key] == b[key] { assert SameAt(a, b, key); }
  }

  ghost predicate CommitOk(w: World, image: ImageId) {
    image in w.commits ==>
      var c := w.commits[image];
      && (c.next == c.previous || c.next.sequence > c.previous.sequence)
      && LatestOf(w, image) == (if c.phase == Appended then c.next else c.previous)
      && LocksCover(c)
      && c.held <= c.keys
      && (c.phase != Locking ==> c.held == c.keys)
      && (c.source.Some? ==> c.source.value.image == image)
      && (forall k, k' :: k in c.held && k' in c.keys - c.held ==> KeyLess(k, k'))
  }

  ghost predicate CommitsOk(w: World) {
    && (forall image :: image in w.commits ==> CommitOk(w, image))
    && (forall i, j :: i in w.commits && j in w.commits && i != j ==> w.commits[i].held !! w.commits[j].held)
  }

  /** `entry` records the image's current history; between an append and its observation either side
      of the transition will do. */
  ghost predicate Fresh(w: World, image: ImageId, entry: Observation) {
    && entry.sequence <= LatestOf(w, image).sequence
    && if image in w.commits && w.commits[image].phase == Appended then
         var c := w.commits[image];
         || SameHistory(entry, c.next)
         || (SameHistory(entry, c.previous) && entry.sequence <= c.previous.sequence)
       else SameHistory(entry, LatestOf(w, image))
  }

  ghost predicate Parked(w: World, image: ImageId, entry: Observation) {
    var base := if image in w.commits then w.commits[image].previous else LatestOf(w, image);
    && entry.sequence <= base.sequence
    && (entry.sequence == base.sequence ==> SameHistory(entry, base))
  }

  ghost predicate ProjectionOk(w: World) {
    w.cache.projection.Some? ==>
      var images := w.cache.projection.value;
      && !w.scanner.Started? && !w.scanner.Scanning?
      && images.Keys == w.members
      && forall image :: image in images ==> Fresh(w, image, images[image])
  }

  ghost predicate PendingOk(w: World) {
    forall image :: image in w.cache.pending ==> Parked(w, image, w.cache.pending[image])
  }

  ghost predicate ScanOk(w: World) {
    && ((w.scanner.Started? || w.scanner.Scanning?) ==> w.scanner.generation <= w.cache.generation)
    && (w.scanner.Scanning? && w.scanner.generation == w.cache.generation ==>
          && w.scanner.captured == w.members
          && w.scanner.scanned.Keys <= w.scanner.captured
          && forall image :: image in w.scanner.scanned ==>
               Fresh(w, image, MergedEntry(w.cache.pending, w.scanner.captured, w.scanner.scanned, image)))
  }

  ghost predicate CacheOk(w: World) {
    ProjectionOk(w) && PendingOk(w) && ScanOk(w)
  }

  /** A commit past its checks would still pass them against everything committed: the newest-review
      check through its own observation, the history window until its own append. */
  ghost predicate ChecksHold(w: World) {
    forall image :: image in w.commits && w.commits[image].phase != Locking ==>
      var c := w.commits[image];
      && (c.source.Some? ==> CheckAgainst(Committed(w), c.source.value) == Passed)
      && (c.phase == Checked ==>
            forall r :: r in c.reopened ==>
              InWindow(Visits(Committed(w), r.key), w.historyDepth + 1, image, r.source))
  }

  /** While a rebuild is under way no commit is, and nothing is parked. */
  ghost predicate RebuildOk(w: World) {
    w.rebuild.Some? ==>
      && w.commits == map[] && w.cache.pending == map[]
      && w.rebuild.value.rebuilt.sequence == LatestOf(w, w.rebuild.value.image).sequence
  }

  ghost predicate LocksOk(w: World) {
    CommitsOk(w) && RebuildOk(w)
  }

  ghost predicate Inv(w: World) {
    LocksOk(w) && CacheOk(w) && ChecksHold(w)
  }

  /** A rebuild that changes the history of its image, which a scan begun since its invalidation has already read. */
  ghost predicate Overtaken(w: World) {
    && w.rebuild.Some?
    && var image := w.rebuild.value.image;
       && !SameHistory(w.rebuild.value.rebuilt, LatestOf(w, image))
       && (|| (w.cache.projection.Some? && image in w.cache.projection.value)
           || (w.scanner.Scanning? && w.scanner.generation == w.cache.generation && image in w.scanner.scanned))
  }

  ghost predicate ContentsOk(w: World) {
    && ObservationsOk(w.log)
    && (forall image :: image in w.commits ==> ObservationOk(image, w.commits[image].next))
    && (w.scanner.Scanning? ==> ObservationsOk(w.scanner.scanned))
    && ObservationsOk(w.cache.pending)
    && (w.cache.projection.Some? ==> ObservationsOk(w.cache.projection.value))
    && (w.rebuild.Some? ==> ObservationOk(w.rebuild.value.image, w.rebuild.value.rebuilt))
  }

  // ---- locks --------------------------------------------------------------------------------

  ghost predicate OnlyConcerns(w: World, w': World, image: ImageId) {
    forall other :: other != image ==>
      && LatestOf(w', other) == LatestOf(w, other)
      && (other in w'.commits <==> other in w.commits)
      && (other in w.commits ==> w'.commits[other] == w.commits[other])
  }

  lemma CommitsKept(w: World, w': World, image: ImageId)
    requires CommitsOk(w) && OnlyConcerns(w, w', image) && CommitOk(w', image)
    requires image in w'.commits ==>
               forall other :: other in w.commits && other != image ==>
                 w'.commits[image].held !! w.commits[other].held
    ensures CommitsOk(w')
  {
    forall other | other in w'.commits ensures CommitOk(w', other) {
      if other != image { assert CommitOk(w, other); }
    }
  }

  lemma StartKeepsCommits(w: World, step: Step)
    requires CommitsOk(w) && step.StartCommit? && Enabled(w, step)
    ensures CommitsOk(Next(w, step))
  {
    LockSetCovers(Next(w, step).commits[step.image]);
    CommitsKept(w, Next(w, step), step.image);
  }

  lemma LockKeepsCommits(w: World, image: ImageId, key: Key)
    requires CommitsOk(w) && Enabled(w, Lock(image, key))
    ensures CommitsOk(Next(w, Lock(image, key)))
  {
    var w' := Next(w, Lock(image, key));
    assert CommitOk(w, image);
    assert LocksCover(w'.commits[image]) by {
      forall k | k !in w.commits[image].keys
        ensures SameSlice(w.commits[image].previous, w.commits[image].next, k) { }
    }
    CommitsKept(w, w', image);
  }

  lemma PhaseKeepsCommits(w: World, step: Step)
    requires CommitsOk(w) && Enabled(w, step) && (step.PassChecks? || step.Append?)
    ensures CommitsOk(Next(w, step))
  {
    var w', image := Next(w, step), step.image;
    assert CommitOk(w, image);
    assert LocksCover(w'.commits[image]) by {
      forall k | k !in w.commits[image].keys
        ensures SameSlice(w.commits[image].previous, w.commits[image].next, k) { }
    }
    CommitsKept(w, w', image);
  }

  lemma LeavingKeepsCommits(w: World, step: Step)
    requires CommitsOk(w) && Enabled(w, step) && (step.FailChecks? || step.ObserveCommit? || step.Abandon?)
    ensures CommitsOk(Next(w, step))
  {
    var w' := Next(w, step);
    assert w'.commits == w.commits - {step.image} && w'.log == w.log;
    CommitsKept(w, w', step.image);
  }

  lemma SameCommitsKept(w: World, w': World)
    requires CommitsOk(w) && w'.commits == w.commits && w'.log == w.log
    ensures CommitsOk(w')
  {
    forall image | image in w.commits ensures CommitOk(w', image) { assert CommitOk(w, image); }
  }

  lemma StepKeepsLocks(w: World, step: Step)
    requires LocksOk(w) && Enabled(w, step)
    ensures LocksOk(Next(w, step))
  {
    StepKeepsCommits(w, step);
  }

  lemma StepKeepsCommits(w: World, step: Step)
    requires LocksOk(w) && Enabled(w, step)
    ensures CommitsOk(Next(w, step))
  {
    if step.StartCommit? {
      StartKeepsCommits(w, step);
    } else if step.Lock? {
      LockKeepsCommits(w, step.image, step.key);
    } else if step.PassChecks? || step.Append? {
      PhaseKeepsCommits(w, step);
    } else if step.FailChecks? || step.ObserveCommit? || step.Abandon? {
      LeavingKeepsCommits(w, step);
    } else if !step.FinishRebuild? {
      ElsewhereKeepsCommits(w, step);
    }
  }

  lemma ElsewhereKeepsCommits(w: World, step: Step)
    requires CommitsOk(w) && Enabled(w, step) && !step.StartCommit? && !CommitterStep(step) && !step.Abandon?
    requires !step.FinishRebuild?
    ensures CommitsOk(Next(w, step))
  {
    SameCommitsKept(w, Next(w, step));
  }

  // ---- the cache ----------------------------------------------------------------------------

  lemma OthersUndisturbed(w: World, w': World, image: ImageId, other: ImageId, entry: Observation)
    requires OnlyConcerns(w, w', image) && other != image
    ensures Fresh(w', other, entry) <==> Fresh(w, other, entry)
    ensures Parked(w', other, entry) <==> Parked(w, other, entry)
  {
  }

  /** A step on one image that leaves the cache alone keeps it exact if it keeps it exact there. */
  lemma SameCacheKeeps(w: World, w': World, image: ImageId)
    requires CacheOk(w) && OnlyConcerns(w, w', image)
    requires w'.cache == w.cache && w'.scanner == w.scanner && w'.members == w.members
    requires forall entry :: Fresh(w, image, entry) ==> Fresh(w', image, entry)
    requires forall entry :: Parked(w, image, entry) ==> Parked(w', image, entry)
    ensures CacheOk(w')
  {
    forall other, entry | Fresh(w, other, entry) ensures Fresh(w', other, entry) {
      if other != image { OthersUndisturbed(w, w', image, other, entry); }
    }
    forall other, entry | Parked(w, other, entry) ensures Parked(w', other, entry) {
      if other != image { OthersUndisturbed(w, w', image, other, entry); }
    }
  }

  lemma AbandonKeepsCache(w: World, image: ImageId)
    requires CommitsOk(w) && CacheOk(w) && image in w.commits
    ensures CacheOk(Next(w, Abandon(image)))
  {
    var w', c := Next(w, Abandon(image)), w.commits[image];
    assert CommitOk(w, image);
    if w'.cache == w.cache {
      if c.phase == Appended {
        NoLocksSameHistory(c);
      }
      SameCacheKeeps(w, w', image);
    }
  }

  /** Laying an observed transition over whatever was recorded for its image leaves a fresh entry. */
  lemma OverlaidEntry(w: World, image: ImageId, entry: Observation)
    requires CommitOk(w, image) && image in w.commits && w.commits[image].phase == Appended
    requires Fresh(w, image, entry)
    ensures var next := w.commits[image].next;
            if entry.sequence > next.sequence then false
            else SameHistory(next, LatestOf(w, image))
  {
  }

  lemma ObserveKeepsProjection(w: World, image: ImageId)
    requires CommitsOk(w) && CacheOk(w) && image in w.commits && w.commits[image].phase == Appended
    requires w.cache.projection.Some?
    ensures CacheOk(Next(w, ObserveCommit(image)))
  {
    var w' := Next(w, ObserveCommit(image));
    assert CommitOk(w, image) && OnlyConcerns(w, w', image);
    assert LatestOf(w', image) == w.commits[image].next;
    assert w'.scanner == w.scanner && w'.cache.pending == w.cache.pending;
    var images, images' := w.cache.projection.value, w'.cache.projection.value;
    forall other | other in images' ensures Fresh(w', other, images'[other]) {
      assert Fresh(w, other, images[other]);
      if other != image {
        OthersUndisturbed(w, w', image, other, images[other]);
      } else {
        OverlaidEntry(w, image, images[image]);
      }
    }
    ParkedAfterObserve(w, w', image);
  }

  lemma ParkedAfterObserve(w: World, w': World, image: ImageId)
    requires CommitsOk(w) && PendingOk(w) && image in w.commits && w.commits[image].phase == Appended
    requires OnlyConcerns(w, w', image) && image !in w'.commits && LatestOf(w', image) == w.commits[image].next
    requires w'.cache.pending == w.cache.pending || w'.cache.pending == w.cache.pending[image := w.commits[image].next]
    ensures PendingOk(w')
  {
    var pending, pending' := w.cache.pending, w'.cache.pending;
    assert CommitOk(w, image);
    forall other | other in pending' ensures Parked(w', other, pending'[other]) {
      if other != image {
        OthersUndisturbed(w, w', image, other, pending[other]);
      } else if image in pending {
        assert Parked(w, image, pending[image]);
      }
    }
  }

  lemma ObserveKeepsPending(w: World, image: ImageId)
    requires CommitsOk(w) && CacheOk(w) && image in w.commits && w.commits[image].phase == Appended
    requires w.cache.projection.None?
    ensures CacheOk(Next(w, ObserveCommit(image)))
  {
    var w', next := Next(w, ObserveCommit(image)), w.commits[image].next;
    assert CommitOk(w, image) && OnlyConcerns(w, w', image);
    assert LatestOf(w', image) == next;
    var pending, pending' := w.cache.pending, w'.cache.pending;
    assert pending' == pending[image := next] by {
      if image in pending { assert Parked(w, image, pending[image]); }
    }
    ParkedAfterObserve(w, w', image);
    if w.scanner.Scanning? && w.scanner.generation == w.cache.generation {
      var scanned := w.scanner.scanned;
      forall other | other in scanned
        ensures Fresh(w', other, MergedEntry(pending', w.scanner.captured, scanned, other))
      {
        assert Fresh(w, other, MergedEntry(pending, w.scanner.captured, scanned, other));
        if other != image {
          OthersUndisturbed(w, w', image, other, MergedEntry(pending, w.scanner.captured, scanned, other));
        }
      }
    }
  }

  lemma ReadKeepsCache(w: World, image: ImageId)
    requires CommitsOk(w) && CacheOk(w) && Enabled(w, ReadImage(image))
    ensures CacheOk(Next(w, ReadImage(image)))
  {
    var w' := Next(w, ReadImage(image));
    if image in w.commits { assert CommitOk(w, image); }
    if w.scanner.generation == w.cache.generation {
      forall other | other in w'.scanner.scanned
        ensures Fresh(w', other, MergedEntry(w.cache.pending, w.scanner.captured, w'.scanner.scanned, other))
      {
        if other != image {
          assert Fresh(w, other, MergedEntry(w.cache.pending, w.scanner.captured, w.scanner.scanned, other));
        } else if image in w.cache.pending {
          assert Parked(w, image, w.cache.pending[image]);
        }
      }
    }
  }

  lemma PublishKeepsCache(w: World)
    requires CommitsOk(w) && CacheOk(w) && Enabled(w, PublishScan)
    ensures CacheOk(Next(w, PublishScan))
  {
    var w' := Next(w, PublishScan);
    if w.scanner.generation == w.cache.generation {
      var images := w'.cache.projection.value;
      assert images.Keys == w.members;
      forall image | image in images ensures Fresh(w', image, images[image]) {
        assert images[image] == MergedEntry(w.cache.pending, w.scanner.captured, w.scanner.scanned, image);
        assert Fresh(w, image, images[image]);
      }
    }
  }

  lemma AppendKeepsCache(w: World, image: ImageId)
    requires CommitsOk(w) && CacheOk(w) && Enabled(w, Append(image))
    ensures CacheOk(Next(w, Append(image)))
  {
    assert CommitOk(w, image);
    SameCacheKeeps(w, Next(w, Append(image)), image);
  }

  lemma LockingKeepsCache(w: World, step: Step)
    requires CommitsOk(w) && CacheOk(w) && Enabled(w, step)
    requires step.StartCommit? || step.Lock? || step.PassChecks? || step.FailChecks?
    ensures CacheOk(Next(w, step))
  {
    var w' := Next(w, step);
    assert CommitOk(w, step.image);
    assert LatestOf(w', step.image) == LatestOf(w, step.image);
    SameCacheKeeps(w, w', step.image);
  }

  lemma CommitStepKeepsCache(w: World, step: Step)
    requires CommitsOk(w) && CacheOk(w) && Enabled(w, step)
    requires CommitterStep(step) || step.StartCommit? || step.Abandon?
    ensures CacheOk(Next(w, step))
  {
    if step.Append? {
      AppendKeepsCache(w, step.image);
    } else if step.Abandon? {
      AbandonKeepsCache(w, step.image);
    } else if step.ObserveCommit? {
      ObserveKeepsCache(w, step.image);
    } else {
      LockingKeepsCache(w, step);
    }
  }

  lemma ObserveKeepsCache(w: World, image: ImageId)
    requires CommitsOk(w) && CacheOk(w) && Enabled(w, ObserveCommit(image))
    ensures CacheOk(Next(w, ObserveCommit(image)))
  {
    if w.cache.projection.Some? { ObserveKeepsProjection(w, image); } else { ObserveKeepsPending(w, image); }
  }

  predicate ScannerStep(step: Step) {
    || step.AcquireRefresh? || step.StartAttempt? || step.CaptureIndex? || step.ReadImage? || step.PublishScan?
    || step.CancelScan?
  }

  lemma ScannerStepKeepsCache(w: World, step: Step)
    requires CommitsOk(w) && CacheOk(w) && Enabled(w, step) && ScannerStep(step)
    ensures CacheOk(Next(w, step))
  {
    if step.ReadImage? {
      ReadKeepsCache(w, step.image);
    } else if step.PublishScan? {
      PublishKeepsCache(w);
    } else {
      ScanBoundaryKeepsCache(w, step);
    }
  }

  lemma ScanBoundaryKeepsCache(w: World, step: Step)
    requires CacheOk(w) && Enabled(w, step)
    requires step.AcquireRefresh? || step.StartAttempt? || step.CaptureIndex? || step.CancelScan?
    ensures CacheOk(Next(w, step))
  {
    var w' := Next(w, step);
    forall image, entry | Fresh(w, image, entry) ensures Fresh(w', image, entry) { }
    forall image, entry | Parked(w, image, entry) ensures Parked(w', image, entry) { }
  }

  /** After an invalidation nothing recorded earlier is in use. */
  lemma InvalidatedCacheOk(w: World, w': World)
    requires CacheOk(w) && w'.cache == Invalidate(w.cache) && w'.scanner == w.scanner
    ensures CacheOk(w')
  {
  }

  lemma ExclusiveStepKeepsCache(w: World, step: Step)
    requires CacheOk(w) && Enabled(w, step) && (step.ChangeMembers? || step.StartRebuild? || step.CancelRebuild?)
    ensures CacheOk(Next(w, step))
  {
    var w' := Next(w, step);
    if w'.cache == w.cache {
      forall image, entry | Fresh(w, image, entry) ensures Fresh(w', image, entry) { }
      forall image, entry | Parked(w, image, entry) ensures Parked(w', image, entry) { }
    } else {
      InvalidatedCacheOk(w, w');
    }
  }

  /** Finishing a rebuild keeps the cache exact exactly when no scan has overtaken the rebuild. */
  lemma FinishRebuildExactly(w: World)
    requires RebuildOk(w) && CacheOk(w) && w.rebuild.Some?
    ensures CacheOk(Next(w, FinishRebuild)) <==> !Overtaken(w)
  {
    var w', image := Next(w, FinishRebuild), w.rebuild.value.image;
    assert OnlyConcerns(w, w', image);
    assert LatestOf(w', image) == w.rebuild.value.rebuilt;
    if w.cache.projection.Some? {
      RebuiltProjection(w, w', image);
    }
    if w.scanner.Scanning? && w.scanner.generation == w.cache.generation {
      RebuiltScan(w, w', image);
    }
  }

  lemma RebuiltProjection(w: World, w': World, image: ImageId)
    requires ProjectionOk(w) && OnlyConcerns(w, w', image) && w.commits == w'.commits == map[]
    requires w.cache.projection.Some? && w'.cache == w.cache && w'.scanner == w.scanner && w'.members == w.members
    requires LatestOf(w', image).sequence == LatestOf(w, image).sequence
    ensures ProjectionOk(w') <==>
              SameHistory(LatestOf(w', image), LatestOf(w, image)) || image !in w.cache.projection.value
  {
    var images := w.cache.projection.value;
    forall other | other in images ensures Fresh(w, other, images[other]) { }
    forall other | other in images && other != image ensures Fresh(w', other, images[other]) {
      OthersUndisturbed(w, w', image, other, images[other]);
    }
  }

  lemma RebuiltScan(w: World, w': World, image: ImageId)
    requires ScanOk(w) && OnlyConcerns(w, w', image) && w.commits == w'.commits == map[]
    requires w.cache.pending == map[] && w'.cache == w.cache && w'.scanner == w.scanner && w'.members == w.members
    requires w.scanner.Scanning? && w.scanner.generation == w.cache.generation
    requires LatestOf(w', image).sequence == LatestOf(w, image).sequence
    ensures ScanOk(w') <==>
              SameHistory(LatestOf(w', image), LatestOf(w, image)) || image !in w.scanner.scanned
  {
    var scanned := w.scanner.scanned;
    forall other | other in scanned
      ensures Fresh(w, other, scanned[other])
      ensures MergedEntry(w.cache.pending, w.scanner.captured, scanned, other) == scanned[other] { }
    forall other | other in scanned && other != image ensures Fresh(w', other, scanned[other]) {
      OthersUndisturbed(w, w', image, other, scanned[other]);
    }
  }

  lemma StepKeepsCache(w: World, step: Step)
    requires LocksOk(w) && CacheOk(w) && Enabled(w, step) && !(step.FinishRebuild? && Overtaken(w))
    ensures CacheOk(Next(w, step))
  {
    if CommitterStep(step) || step.StartCommit? || step.Abandon? {
      CommitStepKeepsCache(w, step);
    } else if ScannerStep(step) {
      ScannerStepKeepsCache(w, step);
    } else if step.FinishRebuild? {
      FinishRebuildExactly(w);
    } else {
      ExclusiveStepKeepsCache(w, step);
    }
  }

  // ---- the checks ---------------------------------------------------------------------------

  /** Answers about one key depend only on the slices of that key. */
  lemma AnswersFollowSlices(a: Observations, b: Observations, key: Key)
    requires a.Keys == b.Keys
    requires forall image :: image in a ==> SameSlice(a[image], b[image], key)
    ensures forall source: Assignment :: KeyOf(source) == key ==> CheckAgainst(a, source) == CheckAgainst(b, source)
    ensures forall k: WorkflowKey :: KeyFor(k) == key ==> Visits(a, k) == Visits(b, k)
  {
    forall k: WorkflowKey | KeyFor(k) == key ensures Visits(a, k) == Visits(b, k) {
      forall image | image in a ensures At(a[image].workflow, k) == At(b[image].workflow, k) {
        assert SameSlice(a[image], b[image], key) && SameAt(a[image].workflow, b[image].workflow, k);
      }
    }
  }

  /** While `image` holds `key`, no appended but unobserved commit elsewhere has touched it. */
  lemma HeldKeyIsStable(w: World, image: ImageId, other: ImageId, key: Key)
    requires CommitsOk(w) && image in w.commits && key in w.commits[image].held
    requires other != image && other in w.commits && w.commits[other].phase != Locking
    ensures SameSlice(w.commits[other].previous, w.commits[other].next, key)
  {
    assert CommitOk(w, other) && key !in w.commits[other].held;
  }

  /** What the projection says about a held key is what the committed logs say. */
  lemma HeldKeyExact(w: World, image: ImageId, key: Key)
    requires CommitsOk(w) && CacheOk(w) && w.cache.projection.Some?
    requires image in w.commits && w.commits[image].phase == Locking && key in w.commits[image].held
    ensures forall other :: other in w.members ==>
              SameSlice(w.cache.projection.value[other], LatestOf(w, other), key)
  {
    forall other | other in w.members
      ensures SameSlice(w.cache.projection.value[other], LatestOf(w, other), key)
    {
      assert Fresh(w, other, w.cache.projection.value[other]);
      if other in w.commits && w.commits[other].phase == Appended {
        assert CommitOk(w, other);
        HeldKeyIsStable(w, image, other, key);
      }
    }
  }

  lemma PassKeepsChecks(w: World, image: ImageId)
    requires Inv(w) && Enabled(w, PassChecks(image))
    ensures ChecksHold(Next(w, PassChecks(image)))
  {
    var w', c := Next(w, PassChecks(image)), w.commits[image];
    assert Committed(w') == Committed(w);
    assert CommitOk(w, image);
    if c.source.Some? {
      HeldKeyExact(w, image, KeyOf(c.source.value));
      AnswersFollowSlices(w.cache.projection.value, Committed(w), KeyOf(c.source.value));
    }
    forall r | r in c.reopened
      ensures InWindow(Visits(Committed(w), r.key), w.historyDepth + 1, image, r.source)
    {
      HeldKeyExact(w, image, KeyFor(r.key));
      AnswersFollowSlices(w.cache.projection.value, Committed(w), KeyFor(r.key));
    }
  }

  /** An append elsewhere cannot change an answer about a key someone else holds. */
  lemma ForeignAppend(w: World, w': World, image: ImageId, appender: ImageId, key: Key)
    requires CommitsOk(w) && Enabled(w, Append(appender)) && w' == Next(w, Append(appender))
    requires image != appender && image in w.commits && key in w.commits[image].held
    ensures forall source: Assignment :: KeyOf(source) == key ==>
              CheckAgainst(Committed(w'), source) == CheckAgainst(Committed(w), source)
    ensures forall k: WorkflowKey :: KeyFor(k) == key ==> Visits(Committed(w'), k) == Visits(Committed(w), k)
  {
    HeldKeyIsStable(w, image, appender, key);
    assert CommitOk(w, appender);
    forall other | other in w.members ensures SameSlice(Committed(w)[other], Committed(w')[other], key) { }
    AnswersFollowSlices(Committed(w), Committed(w'), key);
  }

  /** A commit's own append cannot spoil the check of the review it reopens: that check is about
      other images. */
  lemma OwnAppend(w: World, w': World, image: ImageId, source: Assignment)
    requires Enabled(w, Append(image)) && w' == Next(w, Append(image)) && source.image == image
    ensures CheckAgainst(Committed(w'), source) == CheckAgainst(Committed(w), source)
  {
    assert forall other :: other in w.members && other != image ==> Committed(w')[other] == Committed(w)[other];
  }

  lemma AppendKeepsChecks(w: World, appender: ImageId)
    requires Inv(w) && Enabled(w, Append(appender))
    ensures ChecksHold(Next(w, Append(appender)))
  {
    var w' := Next(w, Append(appender));
    forall image | image in w'.commits && w'.commits[image].phase != Locking
      ensures var c := w'.commits[image];
              && (c.source.Some? ==> CheckAgainst(Committed(w'), c.source.value) == Passed)
              && (c.phase == Checked ==>
                    forall r :: r in c.reopened ==>
                      InWindow(Visits(Committed(w'), r.key), w.historyDepth + 1, image, r.source))
    {
      var c := w.commits[image];
      assert CommitOk(w, image);
      if image == appender {
        if c.source.Some? { OwnAppend(w, w', image, c.source.value); }
      } else {
        if c.source.Some? { ForeignAppend(w, w', image, appender, KeyOf(c.source.value)); }
        forall r | r in c.reopened
          ensures Visits(Committed(w'), r.key) == Visits(Committed(w), r.key)
        {
          ForeignAppend(w, w', image, appender, KeyFor(r.key));
        }
      }
    }
  }

  lemma ChecksCarryOver(w: World, w': World)
    requires ChecksHold(w) && Committed(w') == Committed(w) && w'.historyDepth == w.historyDepth
    requires forall image :: image in w'.commits && w'.commits[image].phase != Locking ==>
               image in w.commits && w'.commits[image] == w.commits[image]
    ensures ChecksHold(w')
  {
  }

  lemma CheckedCommitsOnlyLeave(w: World, step: Step)
    requires Enabled(w, step) && !step.PassChecks? && !step.Append? && !step.ChangeMembers? && !step.FinishRebuild?
    ensures var w' := Next(w, step);
            && w'.log == w.log && w'.members == w.members && w'.historyDepth == w.historyDepth
            && forall image :: image in w'.commits && w'.commits[image].phase != Locking ==>
                 image in w.commits && w'.commits[image] == w.commits[image]
  {
  }

  lemma OtherStepsKeepChecks(w: World, w': World, step: Step)
    requires RebuildOk(w) && ChecksHold(w) && Enabled(w, step) && !step.PassChecks? && !step.Append?
    requires w' == Next(w, step)
    ensures ChecksHold(w')
  {
    if !step.ChangeMembers? && !step.FinishRebuild? {
      CheckedCommitsOnlyLeave(w, step);
      assert Committed(w') == Committed(w);
      ChecksCarryOver(w, w');
    }
  }

  lemma StepKeepsInv(w: World, step: Step)
    requires Inv(w) && Enabled(w, step) && !(step.FinishRebuild? && Overtaken(w))
    ensures Inv(Next(w, step))
  {
    StepKeepsLocks(w, step);
    StepKeepsCache(w, step);
    if step.PassChecks? {
      PassKeepsChecks(w, step.image);
    } else if step.Append? {
      AppendKeepsChecks(w, step.image);
    } else {
      OtherStepsKeepChecks(w, Next(w, step), step);
    }
  }

  lemma StepKeepsContents(w: World, step: Step)
    requires ContentsOk(w) && Enabled(w, step)
    ensures ContentsOk(Next(w, step))
  {
    if step.ObserveCommit? {
      ObserveKeepsContents(w, step.image);
    } else if step.PublishScan? {
      PublishKeepsContents(w);
    } else {
      ElsewhereKeepsContents(w, step);
    }
  }

  lemma ElsewhereKeepsContents(w: World, step: Step)
    requires ContentsOk(w) && Enabled(w, step) && !step.ObserveCommit? && !step.PublishScan?
    ensures ContentsOk(Next(w, step))
  {
  }

  lemma PublishKeepsContents(w: World)
    requires ContentsOk(w) && Enabled(w, PublishScan)
    ensures ContentsOk(Next(w, PublishScan))
  {
    MergedOk(w.cache.pending, w.scanner.captured, w.scanner.scanned);
  }

  lemma ObserveKeepsContents(w: World, image: ImageId)
    requires ContentsOk(w) && Enabled(w, ObserveCommit(image))
    ensures ContentsOk(Next(w, ObserveCommit(image)))
  {
  }

  // ---------------------------------------------------------------------------------------------
  // Runs
  // ---------------------------------------------------------------------------------------------

  ghost predicate Start(w: World) {
    && w.commits == map[] && w.scanner == Idle
    && w.cache == History(0, None, map[]) && w.rebuild.None?
    && ObservationsOk(w.log)
  }

  ghost predicate IsRun(w: World, steps: seq<Step>)
    decreases |steps|
  {
    steps == [] || (Enabled(w, steps[0]) && IsRun(Next(w, steps[0]), steps[1..]))
  }

  ghost function Final(w: World, steps: seq<Step>): World
    requires IsRun(w, steps)
    decreases |steps|
  {
    if steps == [] then w else Final(Next(w, steps[0]), steps[1..])
  }

  lemma {:induction false} RunKeepsLocks(w: World, steps: seq<Step>)
    requires LocksOk(w) && ContentsOk(w) && IsRun(w, steps)
    ensures LocksOk(Final(w, steps)) && ContentsOk(Final(w, steps))
    decreases |steps|
  {
    if steps != [] {
      StepKeepsLocks(w, steps[0]);
      StepKeepsContents(w, steps[0]);
      RunKeepsLocks(Next(w, steps[0]), steps[1..]);
    }
  }

  /** Whenever the run finishes a rebuild, no scan has overtaken it. */
  ghost predicate NeverOvertaken(w: World, steps: seq<Step>)
    requires IsRun(w, steps)
    decreases |steps|
  {
    steps == []
    || (!(steps[0].FinishRebuild? && Overtaken(w)) && NeverOvertaken(Next(w, steps[0]), steps[1..]))
  }

  /** The invariant holds at every point of the run. */
  ghost predicate AlwaysInv(w: World, steps: seq<Step>)
    requires IsRun(w, steps)
    decreases |steps|
  {
    Inv(w) && (steps == [] || AlwaysInv(Next(w, steps[0]), steps[1..]))
  }

  /** A run keeps the invariant throughout exactly when none of its rebuilds is overtaken. */
  lemma {:induction false} RunKeepsInvExactly(w: World, steps: seq<Step>)
    requires Inv(w) && IsRun(w, steps)
    ensures AlwaysInv(w, steps) <==> NeverOvertaken(w, steps)
    decreases |steps|
  {
    if steps != [] {
      if steps[0].FinishRebuild? && Overtaken(w) {
        FinishRebuildExactly(w);
      } else {
        StepKeepsInv(w, steps[0]);
        RunKeepsInvExactly(Next(w, steps[0]), steps[1..]);
      }
    }
  }

  lemma {:induction false} RunKeepsInv(w: World, steps: seq<Step>)
    requires Inv(w) && ContentsOk(w) && IsRun(w, steps) && NeverOvertaken(w, steps)
    ensures Inv(Final(w, steps)) && ContentsOk(Final(w, steps))
    decreases |steps|
  {
    if steps != [] {
      StepKeepsInv(w, steps[0]);
      StepKeepsContents(w, steps[0]);
      RunKeepsInv(Next(w, steps[0]), steps[1..]);
    }
  }

  /** In every reachable state, unless a rebuild was overtaken, a present projection covers exactly the membership
      and answers both questions as recomputing over the committed logs would, for every key that no appended but
      unobserved commit holds. */
  lemma ProjectionExact(w: World, steps: seq<Step>, key: Key)
    requires Start(w) && IsRun(w, steps) && NeverOvertaken(w, steps)
    requires var end := Final(w, steps);
             && end.cache.projection.Some?
             && forall image :: image in end.commits && end.commits[image].phase == Appended ==>
                  key !in end.commits[image].held
    ensures var end := Final(w, steps);
            var images := end.cache.projection.value;
            && images.Keys == end.members
            && (forall source: Assignment :: KeyOf(source) == key ==>
                  CheckAgainst(images, source) == CheckAgainst(Committed(end), source))
            && (forall k: WorkflowKey :: KeyFor(k) == key ==> Visits(images, k) == Visits(Committed(end), k))
  {
    RunKeepsInv(w, steps);
    var end := Final(w, steps);
    var images := end.cache.projection.value;
    forall image | image in end.members ensures SameSlice(images[image], Committed(end)[image], key) {
      SliceExact(end, image, key);
    }
    AnswersFollowSlices(images, Committed(end), key);
  }

  lemma SliceExact(w: World, image: ImageId, key: Key)
    requires CommitsOk(w) && ProjectionOk(w) && w.cache.projection.Some? && image in w.members
    requires image in w.commits && w.commits[image].phase == Appended ==> key !in w.commits[image].held
    ensures SameSlice(w.cache.projection.value[image], LatestOf(w, image), key)
  {
    assert Fresh(w, image, w.cache.projection.value[image]);
    if image in w.commits && w.commits[image].phase == Appended {
      assert CommitOk(w, image);
      assert SameSlice(w.commits[image].previous, w.commits[image].next, key);
    }
  }

  /** The review a committer was allowed to reopen is still the newest of its reviewer when the commit
      is observed, whatever ran in between, unless a rebuild was overtaken. */
  lemma PassedCheckStillTrue(w: World, steps: seq<Step>, image: ImageId)
    requires Start(w) && IsRun(w, steps) && NeverOvertaken(w, steps)
    requires image in Final(w, steps).commits && Final(w, steps).commits[image].phase == Appended
    requires Final(w, steps).commits[image].source.Some?
    ensures var end := Final(w, steps);
            var source := end.commits[image].source.value;
            && source.image in end.members
            && !LaterElsewhere(Committed(end), KeyOf(source), image, source.updatedAt)
  {
    RunKeepsInv(w, steps);
  }

  /** The same on replayed states: once a commit was allowed to continue `source`, no other member's state ever has
      a review that supersedes it until the commit is observed. */
  lemma PassedCheckMeans(w: World, steps: seq<Step>, image: ImageId, states: map<ImageId, ImageState>)
    requires Start(w) && IsRun(w, steps) && NeverOvertaken(w, steps)
    requires image in Final(w, steps).commits && Final(w, steps).commits[image].phase == Appended
    requires Final(w, steps).commits[image].source.Some?
    requires ObservesAll(states, Committed(Final(w, steps)))
    ensures var source := Final(w, steps).commits[image].source.value;
            && source.image in states
            && forall other, a :: other in states && other != source.image && a in states[other].assignments ==>
                 !Supersedes(a, source)
  {
    RunKeepsInv(w, steps);
    PreviousMeans(states, Committed(Final(w, steps)), Final(w, steps).commits[image].source.value);
  }

  /** A commit that holds all its locks passes its checks exactly when, over everything committed, the review it
      continues is not superseded elsewhere and each item it reopens is among the newest `historyDepth + 1`. */
  lemma ChecksDecideCommitted(w: World, steps: seq<Step>, image: ImageId)
    requires Start(w) && IsRun(w, steps) && NeverOvertaken(w, steps)
    requires image in Final(w, steps).commits && AllLocked(Final(w, steps).commits[image])
    requires Final(w, steps).cache.projection.Some?
    ensures var end := Final(w, steps);
            var c := end.commits[image];
            Enabled(end, PassChecks(image))
            <==> && (c.source.Some? ==>
                       && image in end.members
                       && !LaterElsewhere(Committed(end), KeyOf(c.source.value), image, c.source.value.updatedAt))
                 && (forall r :: r in c.reopened ==>
                       exists v :: && v in Visits(Committed(end), r.key) && v.image == image && v.assignment == r.source
                                   && |Newer(Visits(Committed(end), r.key), v)| <= end.historyDepth)
  {
    RunKeepsInv(w, steps);
    var end := Final(w, steps);
    var c := end.commits[image];
    assert CommitOk(end, image);
    if c.source.Some? {
      HeldKeyExact(end, image, KeyOf(c.source.value));
      AnswersFollowSlices(end.cache.projection.value, Committed(end), KeyOf(c.source.value));
    }
    forall r | r in c.reopened
      ensures Visits(end.cache.projection.value, r.key) == Visits(Committed(end), r.key)
    {
      HeldKeyExact(end, image, KeyFor(r.key));
      AnswersFollowSlices(end.cache.projection.value, Committed(end), KeyFor(r.key));
    }
  }

  /** An abandoned commit that took locks drops the projection; one that took none changed no answer, and leaves the
      cache alone. */
  lemma AbandonedCommitIsSafe(w: World, steps: seq<Step>, image: ImageId)
    requires Start(w) && IsRun(w, steps) && image in Final(w, steps).commits
    requires Final(w, steps).commits[image].phase == Appended
    ensures var end := Final(w, steps);
            var c := end.commits[image];
            if c.keys != {} then Next(end, Abandon(image)).cache.projection.None?
            else SameHistory(c.previous, c.next) && Next(end, Abandon(image)).cache == end.cache
  {
    RunKeepsLocks(w, steps);
    var end := Final(w, steps);
    assert CommitOk(end, image);
    if end.commits[image].held == {} {
      NoLocksSameHistory(end.commits[image]);
    }
  }

  /** The only steps that lose a projection: giving up a commit that had passed its checks under locks, a change of the
      members, and the start of a rebuild. */
  lemma ProjectionLostExactly(w: World, step: Step)
    requires CommitsOk(w) && w.cache.projection.Some? && Enabled(w, step)
    ensures Next(w, step).cache.projection.None?
            <==> || (step.Abandon? && w.commits[step.image].phase != Locking && w.commits[step.image].keys != {})
                 || (step.ChangeMembers? && step.members != w.members)
                 || step.StartRebuild?
  {
    if step.Abandon? { assert CommitOk(w, step.image); }
  }

  /** A refresh that is not cancelled goes on until there is a projection: one it found, or its own. */
  lemma RefreshDelivers(w: World, step: Step)
    requires Enabled(w, step) && !w.scanner.Idle?
    ensures Next(w, step).scanner.Idle?
            <==> || step.CancelScan?
                 || (step.StartAttempt? && w.cache.projection.Some?)
                 || (step.PublishScan? && w.scanner.generation == w.cache.generation)
    ensures Next(w, step).scanner.Idle? && !step.CancelScan? ==> Next(w, step).cache.projection.Some?
  {
  }

  lemma OneMore(w: World, step: Step, rest: seq<Step>)
    requires Enabled(w, step) && IsRun(Next(w, step), rest)
    ensures IsRun(w, [step] + rest)
    ensures Final(w, [step] + rest) == Final(Next(w, step), rest)
  {
    assert ([step] + rest)[1..] == rest;
  }

  /** Eight steps after which the projection, with nothing left in flight, lets a review pass that the committed
      logs say is superseded: a scan reads and publishes image 1 between the invalidation of its rebuild and the
      write of what the rebuild replayed. */
  lemma OvertakenRebuildMisleads(source: Assignment) returns (w: World, steps: seq<Step>)
    requires source.image == 2
    ensures Start(w) && IsRun(w, steps)
    ensures var end := Final(w, steps);
            && end.commits == map[] && end.scanner.Idle? && end.rebuild.None? && end.cache.projection.Some?
            && CheckAgainst(end.cache.projection.value, source) == Passed
            && CheckAgainst(Committed(end), source) == Superseded
  {
    var rebuilt := Observation(1, map[KeyOf(source) := Mark(source.updatedAt + 1, 0)], map[]);
    w := World(map[1 := STORED], map[], {1, 2}, History(0, None, map[]), Idle, None, 0);
    StaleAnswer(source);
    steps := ScanIsPublished(rebuilt);
    steps := ScanIsRead(rebuilt, steps);
    OneMore(w, StartRebuild(1, rebuilt), steps);
    steps := [StartRebuild(1, rebuilt)] + steps;
  }

  const STORED := Observation(1, map[], map[])

  const SCANNED: Observations := map[1 := STORED, 2 := EMPTY]

  /** Image 1 of two is being rebuilt and its invalidation has gone through. */
  function Rebuilding(rebuilt: Observation): World {
    World(map[1 := STORED], map[], {1, 2}, History(1, None, map[]), Idle, Some(Rebuild(1, rebuilt)), 0)
  }

  function ScanRead(rebuilt: Observation): World {
    Rebuilding(rebuilt).(scanner := Scanning(1, {1, 2}, SCANNED))
  }

  function Misled(rebuilt: Observation): World {
    World(map[1 := rebuilt], map[], {1, 2}, History(1, Some(SCANNED), map[]), Idle, None, 0)
  }

  lemma ScanIsPublished(rebuilt: Observation) returns (steps: seq<Step>)
    ensures IsRun(ScanRead(rebuilt), steps) && Final(ScanRead(rebuilt), steps) == Misled(rebuilt)
  {
    var read := ScanRead(rebuilt);
    var published := Rebuilding(rebuilt).(cache := History(1, Some(SCANNED), map[]));
    assert Next(read, PublishScan) == published by {
      assert MergePending(map[], {1, 2}, SCANNED) == SCANNED;
    }
    assert Next(published, FinishRebuild) == Misled(rebuilt);
    steps := [];
    OneMore(published, FinishRebuild, steps);
    steps := [FinishRebuild] + steps;
    OneMore(read, PublishScan, steps);
    steps := [PublishScan] + steps;
  }

  lemma ScanIsRead(rebuilt: Observation, rest: seq<Step>) returns (steps: seq<Step>)
    requires IsRun(ScanRead(rebuilt), rest)
    ensures IsRun(Rebuilding(rebuilt), steps)
    ensures Final(Rebuilding(rebuilt), steps) == Final(ScanRead(rebuilt), rest)
  {
    var w := Rebuilding(rebuilt);
    var halfway := w.(scanner := Scanning(1, {1, 2}, map[1 := STORED]));
    steps := rest;
    OneMore(halfway, ReadImage(2), steps);
    steps := [ReadImage(2)] + steps;
    OneMore(w.(scanner := Scanning(1, {1, 2}, map[])), ReadImage(1), steps);
    steps := [ReadImage(1)] + steps;
    OneMore(w.(scanner := Started(1)), CaptureIndex, steps);
    steps := [CaptureIndex] + steps;
    OneMore(w.(scanner := Holding), StartAttempt, steps);
    steps := [StartAttempt] + steps;
    OneMore(w, AcquireRefresh, steps);
    steps := [AcquireRefresh] + steps;
  }

  lemma StaleAnswer(source: Assignment)
    requires source.image == 2
    ensures CheckAgainst(SCANNED, source) == Passed
    ensures var rebuilt := Observation(1, map[KeyOf(source) := Mark(source.updatedAt + 1, 0)], map[]);
            CheckAgainst(Committed(Misled(rebuilt)), source) == Superseded
  {
    var rebuilt := Observation(1, map[KeyOf(source) := Mark(source.updatedAt + 1, 0)], map[]);
    var committed := Committed(Misled(rebuilt));
    assert 1 in committed && KeyOf(source) in committed[1].finished;
  }

  // ---------------------------------------------------------------------------------------------
  // No deadlock
  // ---------------------------------------------------------------------------------------------

  lemma {:induction false} LeastKey(keys: set<Key>) returns (least: Key)
    requires keys != {}
    ensures least in keys && forall key :: key in keys ==> key == least || KeyLess(least, key)
    decreases keys
  {
    least :| least in keys;
    if keys != {least} {
      var rest := LeastKey(keys - {least});
      var first := least;
      if KeyLess(rest, least) { least := rest; }
      forall key | key in keys ensures key == least || KeyLess(least, key) {
        if key != first { assert key in keys - {first}; }
      }
    }
  }

  /** Among committers that all wait for a lock, one waits for a key no other waits beyond. */
  lemma {:induction false} FurthestWaiter(w: World, waiting: set<ImageId>) returns (image: ImageId, key: Key)
    requires waiting != {} && waiting <= w.commits.Keys
    requires forall i :: i in waiting ==> w.commits[i].phase == Locking && w.commits[i].keys - w.commits[i].held != {}
    ensures image in waiting && Awaits(w.commits[image], key)
    ensures forall i, k {:trigger Awaits(w.commits[i], k)} ::
              i in waiting && Awaits(w.commits[i], k) ==> k == key || KeyLess(k, key)
    decreases waiting
  {
    var some :| some in waiting;
    var least := LeastKey(w.commits[some].keys - w.commits[some].held);
    image, key := some, least;
    assert forall k :: Awaits(w.commits[some], k) ==> k == least || KeyLess(least, k);
    if waiting != {some} {
      var image', key' := FurthestWaiter(w, waiting - {some});
      if KeyLess(least, key') { image, key := image', key'; }
      forall i, k | i in waiting && Awaits(w.commits[i], k) ensures k == key || KeyLess(k, key) {
        if i == some {
          assert k == least;
        } else {
          assert i in waiting - {some};
          assert k == key' || KeyLess(k, key');
        }
      }
    }
  }

  /** Locks are taken in order, so whoever holds a key waits for a greater one. */
  lemma HolderWaitsBeyond(w: World, holder: ImageId, key: Key) returns (beyond: Key)
    requires holder in w.commits && CommitOk(w, holder) && w.commits[holder].phase == Locking
    requires key in w.commits[holder].held && w.commits[holder].keys - w.commits[holder].held != {}
    ensures Awaits(w.commits[holder], beyond) && KeyLess(key, beyond)
  {
    beyond := LeastKey(w.commits[holder].keys - w.commits[holder].held);
  }

  /** While any commit is unfinished, some committer can take a step. */
  lemma NoDeadlock(w: World) returns (step: Step)
    requires CommitsOk(w) && w.commits != map[]
    ensures CommitterStep(step) && Enabled(w, step)
  {
    var some: ImageId :| some in w.commits;
    if ready: ImageId :| ready in w.commits && w.commits[ready].phase == Checked {
      step := Append(ready);
    } else if ready: ImageId :| ready in w.commits && w.commits[ready].phase == Appended {
      step := ObserveCommit(ready);
    } else if ready: ImageId :| ready in w.commits && w.commits[ready].held == w.commits[ready].keys {
      step := if ChecksPass(w, ready) then PassChecks(ready) else FailChecks(ready);
    } else {
      step := FreeLock(w);
    }
  }

  /** When every commit still waits for a lock, the one that waits for the greatest can have it. */
  lemma FreeLock(w: World) returns (step: Step)
    requires CommitsOk(w) && w.commits != map[]
    requires forall i :: i in w.commits ==> w.commits[i].phase == Locking && w.commits[i].held != w.commits[i].keys
    ensures step.Lock? && Enabled(w, step)
  {
    forall i | i in w.commits ensures w.commits[i].keys - w.commits[i].held != {} {
      assert CommitOk(w, i);
      var k :| k in w.commits[i].keys && k !in w.commits[i].held;
      assert k in w.commits[i].keys - w.commits[i].held;
    }
    var image, key := FurthestWaiter(w, w.commits.Keys);
    step := Lock(image, key);
    forall other | other in w.commits ensures key !in w.commits[other].held {
      if key in w.commits[other].held {
        var beyond := HolderWaitsBeyond(w, other, key);
      }
    }
  }

  /** Steps a commit can still take. */
  function Remaining(c: Commit): nat {
    |c.keys - c.held| + match c.phase case Locking => 3 case Checked => 2 case Appended => 1
  }

  lemma CommitterStepShrinks(w: World, step: Step)
    requires CommitterStep(step) && Enabled(w, step)
    ensures Total(Next(w, step).commits, Remaining) < Total(w.commits, Remaining)
  {
    var a, b, image := w.commits, Next(w, step).commits, step.image;
    assert a - {image} == b - {image};
    if step.Lock? {
      assert b[image].keys - b[image].held == (a[image].keys - a[image].held) - {step.key};
    }
    TotalReplaced(a, b, Remaining, image);
  }

  /** Committers alone finish: no run of their steps is longer than the initial total. */
  lemma {:induction false} CommittersFinish(w: World, steps: seq<Step>)
    requires Inv(w) && IsRun(w, steps) && forall step :: step in steps ==> CommitterStep(step)
    ensures |steps| <= Total(w.commits, Remaining)
    decreases |steps|
  {
    if steps != [] {
      assert steps[0] in steps;
      StepKeepsInv(w, steps[0]);
      CommitterStepShrinks(w, steps[0]);
      CommittersFinish(Next(w, steps[0]), steps[1..]);
    }
  }
}
