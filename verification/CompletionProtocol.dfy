/** Every interleaving of commits, abandoned commits, rebuilds, scans, cancelled scans and
    invalidations around the completion cache (completion_projection.rs and its callers). A step is
    one critical section; a cancelled future is an abandon or cancel step. */
module CompletionProtocol {
  import opened Domain
  import opened Completion

  /** A transaction holding the image lock and the publication guard. */
  datatype Commit = Commit(previous: ImageCompletion, next: ImageCompletion, published: bool)

  /** The one caller that holds the refresh lock. `Ready` has found no counts, `Published` has
      installed its projection but not yet read the counts back. */
  datatype Scanner =
    | Idle
    | Holding
    | Ready
    | Scanning(attempt: nat, generation: nat, captured: set<ImageId>, scanned: map<ImageId, ImageCompletion>)
    | Published

  datatype World = World(
    log: map<ImageId, ImageCompletion>,
    commits: map<ImageId, Commit>,
    members: set<ImageId>,
    cache: Cache,
    scanner: Scanner)

  const EMPTY := ImageCompletion(0, {}, {}, [])

  const INITIAL := Cache(0, 0, None, None)

  /** Progress of the latest committed state; an image without events is at sequence zero. */
  function Latest(w: World, image: ImageId): ImageCompletion {
    if image in w.log then w.log[image] else EMPTY
  }

  datatype Step =
    | StartCommit(image: ImageId, next: ImageCompletion)
    | Append(image: ImageId)
    | ObserveCommit(image: ImageId)
    | Abandon(image: ImageId)
    | Rebuild(image: ImageId, rebuilt: ImageCompletion)
    | AcquireRefresh
    | CheckCounts
    | CaptureIndex
    | ReadImage(image: ImageId)
    | Publish
    | ReadBack
    | CancelScan
    | ChangeMembers(members: set<ImageId>)
    | InvalidateAll

  ghost predicate Enabled(owner: AssignmentId -> ImageId, w: World, step: Step) {
    match step
    case StartCommit(image, next) =>
      && image !in w.commits
      && WellFormed(owner, image, next)
      && (next == Latest(w, image) || next.sequence > Latest(w, image).sequence)
    case Append(image) => image in w.commits && !w.commits[image].published
    case ObserveCommit(image) => image in w.commits && w.commits[image].published
    case Abandon(image) => image in w.commits
    case Rebuild(image, rebuilt) =>
      && image !in w.commits
      && WellFormed(owner, image, rebuilt)
      && rebuilt.sequence == Latest(w, image).sequence
    case AcquireRefresh => w.scanner.Idle?
    case CheckCounts => w.scanner.Holding?
    case CaptureIndex => w.scanner.Ready?
    case ReadImage(image) =>
      w.scanner.Scanning? && image in w.scanner.captured && image !in w.scanner.scanned
    case Publish => w.scanner.Scanning? && w.scanner.scanned.Keys == w.scanner.captured
    case ReadBack => w.scanner.Published?
    case CancelScan => !w.scanner.Idle?
    case ChangeMembers(_) => true
    case InvalidateAll => true
  }

  function Answers(c: Cache): bool {
    c.projection.Some? && c.projection.value.generation == c.generation
  }

  function Next(w: World, step: Step): World {
    match step
    case StartCommit(image, next) => w.(commits := w.commits[image := Commit(Latest(w, image), next, false)])
    case Append(image) =>
      if image !in w.commits then w
      else
        w.(log := w.log[image := w.commits[image].next],
           commits := w.commits[image := w.commits[image].(published := true)])
    case ObserveCommit(image) =>
      if image !in w.commits then w
      else
        w.(cache := ObserveTransition(w.cache, image, w.commits[image].previous, w.commits[image].next),
           commits := w.commits - {image})
    case Abandon(image) => w.(cache := Invalidate(w.cache), commits := w.commits - {image})
    case Rebuild(image, rebuilt) =>
      w.(log := w.log[image := rebuilt], cache := Observe(w.cache, image, rebuilt, true))
    case AcquireRefresh => w.(scanner := Holding)
    case CheckCounts => w.(scanner := if Answers(w.cache) then Idle else Ready)
    case CaptureIndex =>
      var cache := BeginScan(w.cache, w.members);
      w.(cache := cache, scanner := Scanning(cache.attempts, cache.generation, w.members, map[]))
    case ReadImage(image) =>
      if !w.scanner.Scanning? then w
      else w.(scanner := w.scanner.(scanned := w.scanner.scanned[image := Latest(w, image)]))
    case Publish =>
      if !w.scanner.Scanning? then w
      else
        var (cache, installed) :=
          PublishScan(w.cache, w.scanner.attempt, w.scanner.generation, w.scanner.scanned);
        w.(cache := cache, scanner := if installed then Published else Holding)
    case ReadBack => w.(scanner := Idle)
    case CancelScan =>
      w.(scanner := Idle,
         cache := if w.scanner.Scanning? then AbortScan(w.cache, w.scanner.attempt, w.scanner.generation)
                  else w.cache)
    case ChangeMembers(members) => w.(members := members, cache := InvalidateMembership(w.cache))
    case InvalidateAll => w.(cache := Invalidate(w.cache))
  }

  // ---------------------------------------------------------------------------------------------
  // What every step keeps
  // ---------------------------------------------------------------------------------------------

  ghost predicate CommitsOk(w: World) {
    forall image :: image in w.commits ==>
      var commit := w.commits[image];
      && (commit.next == commit.previous || commit.next.sequence > commit.previous.sequence)
      && Latest(w, image) == if commit.published then commit.next else commit.previous
  }

  /** `entry` records the image's current progress; while a commit is between its append and its
      observation, either side of the transition will do. */
  ghost predicate Fresh(w: World, image: ImageId, entry: ImageCompletion) {
    && entry.sequence <= Latest(w, image).sequence
    && if image in w.commits && w.commits[image].published then
         var commit := w.commits[image];
         || SameProgress(entry, commit.next)
         || (SameProgress(entry, commit.previous) && entry.sequence <= commit.previous.sequence)
       else SameProgress(entry, Latest(w, image))
  }

  /** A parked observation is never ahead of the observed transitions of its image. */
  ghost predicate Parked(w: World, image: ImageId, entry: ImageCompletion) {
    var base := if image in w.commits then w.commits[image].previous else Latest(w, image);
    && entry.sequence <= base.sequence
    && (entry.sequence == base.sequence ==> SameProgress(entry, base))
  }

  ghost predicate ProjectionOk(w: World) {
    w.cache.projection.Some? ==>
      var view := w.cache.projection.value;
      && w.cache.scan.None?
      && !w.scanner.Ready? && !w.scanner.Scanning?
      && view.generation == w.cache.generation
      && view.images.Keys == w.members
      && forall image :: image in view.images ==> Fresh(w, image, view.images[image])
  }

  ghost predicate ScanOk(w: World) {
    w.cache.scan.Some? ==>
      var scan := w.cache.scan.value;
      && w.scanner.Scanning?
      && scan.attempt == w.scanner.attempt
      && scan.generation == w.scanner.generation == w.cache.generation
      && scan.indexed == w.scanner.captured == w.members
      && scan.pending.Keys <= scan.indexed
      && w.scanner.scanned.Keys <= w.scanner.captured
      && (forall image :: image in scan.pending ==> Parked(w, image, scan.pending[image]))
      && (forall image :: image in w.scanner.scanned ==>
            Fresh(w, image, MergedEntry(scan, w.scanner.scanned, image)))
  }

  ghost predicate Inv(w: World) {
    CommitsOk(w) && ProjectionOk(w) && ScanOk(w)
  }

  /** Everything stored meets the preconditions of the cache operations. */
  ghost predicate ContentsOk(owner: AssignmentId -> ImageId, w: World) {
    && AllWellFormed(owner, w.log)
    && (forall image :: image in w.commits ==> WellFormed(owner, image, w.commits[image].next))
    && (w.scanner.Scanning? ==> AllWellFormed(owner, w.scanner.scanned))
    && (w.cache.scan.Some? ==> AllWellFormed(owner, w.cache.scan.value.pending))
    && (w.cache.projection.Some? ==> AllWellFormed(owner, w.cache.projection.value.images))
  }

  /** A step that only concerns `image` does not disturb what is known about other images. */
  ghost predicate OnlyConcerns(w: World, w': World, image: ImageId) {
    forall other :: other != image ==>
      && Latest(w', other) == Latest(w, other)
      && (other in w'.commits <==> other in w.commits)
      && (other in w.commits ==> w'.commits[other] == w.commits[other])
  }

  lemma OthersUndisturbed(w: World, w': World, image: ImageId, other: ImageId, entry: ImageCompletion)
    requires OnlyConcerns(w, w', image) && other != image
    ensures Fresh(w', other, entry) <==> Fresh(w, other, entry)
    ensures Parked(w', other, entry) <==> Parked(w, other, entry)
  {
  }

  /** The entry for `image` after an observation in the scan, and what it must satisfy. */
  lemma ScanKeeps(w: World, w': World, image: ImageId)
    requires Inv(w) && CommitsOk(w') && OnlyConcerns(w, w', image)
    requires w.cache.projection.None? && w.cache.scan.Some? && w'.cache.scan.Some?
    requires w' == w.(log := w'.log, commits := w'.commits, cache := w'.cache)
    requires w'.cache == w.cache.(scan := w'.cache.scan)
    requires var scan, scan' := w.cache.scan.value, w'.cache.scan.value;
             && scan' == scan.(pending := scan'.pending)
             && scan'.pending.Keys <= scan.indexed
             && (forall other :: other != image ==> (other in scan'.pending <==> other in scan.pending))
             && (forall other :: other != image && other in scan.pending ==>
                   scan'.pending[other] == scan.pending[other])
             && (image in scan'.pending ==> Parked(w', image, scan'.pending[image]))
             && (image in w.scanner.scanned ==> Fresh(w', image, MergedEntry(scan', w.scanner.scanned, image)))
    ensures Inv(w')
  {
    var scan, scan' := w.cache.scan.value, w'.cache.scan.value;
    var scanned := w.scanner.scanned;
    forall other | other in scan'.pending ensures Parked(w', other, scan'.pending[other]) {
      if other != image {
        OthersUndisturbed(w, w', image, other, scan.pending[other]);
      }
    }
    forall other | other in scanned ensures Fresh(w', other, MergedEntry(scan', scanned, other)) {
      if other != image {
        OthersUndisturbed(w, w', image, other, MergedEntry(scan, scanned, other));
      }
    }
  }

  lemma ViewKeeps(w: World, w': World, image: ImageId)
    requires Inv(w) && CommitsOk(w') && OnlyConcerns(w, w', image)
    requires w.cache.projection.Some? && w'.cache.projection.Some?
    requires w' == w.(log := w'.log, commits := w'.commits, cache := w'.cache)
    requires w'.cache == w.cache.(projection := w'.cache.projection)
    requires var view, view' := w.cache.projection.value, w'.cache.projection.value;
             && view'.generation == view.generation
             && view'.images.Keys == view.images.Keys
             && (forall other :: other != image && other in view.images ==>
                   view'.images[other] == view.images[other])
             && (image in view.images ==> Fresh(w', image, view'.images[image]))
    ensures Inv(w')
  {
    var view, view' := w.cache.projection.value, w'.cache.projection.value;
    forall other | other in view'.images ensures Fresh(w', other, view'.images[other]) {
      if other != image {
        OthersUndisturbed(w, w', image, other, view.images[other]);
      }
    }
  }

  lemma ObserveKeeps(w: World, image: ImageId)
    requires Inv(w) && image in w.commits && w.commits[image].published
    ensures Inv(Next(w, ObserveCommit(image)))
    ensures Next(w, ObserveCommit(image)).cache.projection.Some? == w.cache.projection.Some?
    ensures Next(w, ObserveCommit(image)).cache.scan.Some? == w.cache.scan.Some?
  {
    if w.cache.projection.Some? {
      ObserveKeepsView(w, image);
    } else if w.cache.scan.Some? {
      ObserveKeepsScan(w, image);
    }
  }

  lemma ObserveKeepsView(w: World, image: ImageId)
    requires Inv(w) && image in w.commits && w.commits[image].published && w.cache.projection.Some?
    ensures var w' := Next(w, ObserveCommit(image)); Inv(w') && w'.cache.projection.Some? && w'.cache.scan.None?
  {
    var w' := Next(w, ObserveCommit(image));
    assert OnlyConcerns(w, w', image);
    assert Latest(w', image) == w.commits[image].next;
    var view := w.cache.projection.value;
    if image in view.images {
      assert Fresh(w, image, view.images[image]);
    }
    ViewKeeps(w, w', image);
  }

  lemma ObserveKeepsScan(w: World, image: ImageId)
    requires Inv(w) && image in w.commits && w.commits[image].published
    requires w.cache.projection.None? && w.cache.scan.Some?
    ensures var w' := Next(w, ObserveCommit(image)); Inv(w') && w'.cache.projection.None? && w'.cache.scan.Some?
  {
    var w' := Next(w, ObserveCommit(image));
    assert OnlyConcerns(w, w', image);
    ObservedScanEntry(w, image);
    ScanKeeps(w, w', image);
  }

  lemma ObservedScanEntry(w: World, image: ImageId)
    requires Inv(w) && image in w.commits && w.commits[image].published
    requires w.cache.projection.None? && w.cache.scan.Some?
    ensures var w' := Next(w, ObserveCommit(image));
            && w'.cache.scan.Some?
            && var scan := w'.cache.scan.value;
               && (image in scan.pending ==> Parked(w', image, scan.pending[image]))
               && (image in w.scanner.scanned ==> Fresh(w', image, MergedEntry(scan, w.scanner.scanned, image)))
  {
    var scan := w.cache.scan.value;
    assert Latest(Next(w, ObserveCommit(image)), image) == w.commits[image].next;
    if image in scan.pending {
      assert Parked(w, image, scan.pending[image]);
    }
    if image in w.scanner.scanned {
      assert Fresh(w, image, MergedEntry(scan, w.scanner.scanned, image));
    }
  }

  lemma RebuildKeeps(w: World, image: ImageId, rebuilt: ImageCompletion)
    requires Inv(w) && image !in w.commits && rebuilt.sequence == Latest(w, image).sequence
    ensures Inv(Next(w, Rebuild(image, rebuilt)))
    ensures Next(w, Rebuild(image, rebuilt)).cache.projection.Some? == w.cache.projection.Some?
    ensures Next(w, Rebuild(image, rebuilt)).cache.scan.Some? == w.cache.scan.Some?
  {
    if w.cache.projection.Some? {
      RebuildKeepsView(w, image, rebuilt);
    } else if w.cache.scan.Some? {
      RebuildKeepsScan(w, image, rebuilt);
    }
  }

  lemma RebuildKeepsView(w: World, image: ImageId, rebuilt: ImageCompletion)
    requires Inv(w) && image !in w.commits && rebuilt.sequence == Latest(w, image).sequence
    requires w.cache.projection.Some?
    ensures var w' := Next(w, Rebuild(image, rebuilt));
            Inv(w') && w'.cache.projection.Some? && w'.cache.scan.None?
  {
    var w' := Next(w, Rebuild(image, rebuilt));
    assert OnlyConcerns(w, w', image);
    var view := w.cache.projection.value;
    if image in view.images {
      assert Fresh(w, image, view.images[image]);
    }
    ViewKeeps(w, w', image);
  }

  lemma RebuildKeepsScan(w: World, image: ImageId, rebuilt: ImageCompletion)
    requires Inv(w) && image !in w.commits && rebuilt.sequence == Latest(w, image).sequence
    requires w.cache.projection.None? && w.cache.scan.Some?
    ensures var w' := Next(w, Rebuild(image, rebuilt));
            Inv(w') && w'.cache.projection.None? && w'.cache.scan.Some?
  {
    var w' := Next(w, Rebuild(image, rebuilt));
    assert OnlyConcerns(w, w', image);
    RebuiltScanEntry(w, image, rebuilt);
    ScanKeeps(w, w', image);
  }

  lemma RebuiltScanEntry(w: World, image: ImageId, rebuilt: ImageCompletion)
    requires Inv(w) && image !in w.commits && rebuilt.sequence == Latest(w, image).sequence
    requires w.cache.projection.None? && w.cache.scan.Some?
    ensures var w' := Next(w, Rebuild(image, rebuilt));
            && w'.cache.scan.Some?
            && var scan := w'.cache.scan.value;
               && (image in scan.pending ==> Parked(w', image, scan.pending[image]))
               && (image in w.scanner.scanned ==> Fresh(w', image, MergedEntry(scan, w.scanner.scanned, image)))
  {
    var scan := w.cache.scan.value;
    if image in scan.pending {
      assert Parked(w, image, scan.pending[image]);
    }
    if image in w.scanner.scanned {
      assert Fresh(w, image, MergedEntry(scan, w.scanner.scanned, image));
    }
  }

  lemma AppendKeeps(w: World, image: ImageId)
    requires Inv(w) && image in w.commits && !w.commits[image].published
    ensures Inv(Next(w, Append(image)))
  {
    var w' := Next(w, Append(image));
    assert forall other :: other != image ==> Latest(w', other) == Latest(w, other);
    forall other, entry | Fresh(w, other, entry) ensures Fresh(w', other, entry) { }
    forall other, entry | Parked(w, other, entry) ensures Parked(w', other, entry) { }
  }

  lemma ReadKeeps(w: World, image: ImageId)
    requires Inv(w) && w.scanner.Scanning? && image in w.scanner.captured && image !in w.scanner.scanned
    ensures Inv(Next(w, ReadImage(image)))
  {
    var w' := Next(w, ReadImage(image));
    if w.cache.scan.Some? {
      var scan := w.cache.scan.value;
      forall other | other in w'.scanner.scanned
        ensures Fresh(w', other, MergedEntry(scan, w'.scanner.scanned, other))
      {
        if other != image {
          assert Fresh(w, other, MergedEntry(scan, w.scanner.scanned, other));
          assert MergedEntry(scan, w'.scanner.scanned, other) == MergedEntry(scan, w.scanner.scanned, other);
        } else if image in scan.pending {
          assert Parked(w, image, scan.pending[image]);
        }
      }
    }
  }

  /** An intact scan that has read its whole membership always publishes. */
  lemma PublishKeeps(w: World)
    requires Inv(w) && w.scanner.Scanning? && w.scanner.scanned.Keys == w.scanner.captured
    ensures Inv(Next(w, Publish))
    ensures w.cache.scan.Some? <==> Next(w, Publish).scanner.Published?
    ensures w.cache.scan.Some? <==> Next(w, Publish).cache.projection.Some?
  {
    if w.cache.scan.Some? {
      var scan := w.cache.scan.value;
      var merged := Merge(scan, w.scanner.scanned);
      assert merged.Keys == scan.indexed;
      forall image | image in merged ensures Fresh(w, image, merged[image]) {
        assert merged[image] == MergedEntry(scan, w.scanner.scanned, image);
      }
    }
  }

  lemma StartCommitKeeps(w: World, image: ImageId, next: ImageCompletion)
    requires Inv(w) && image !in w.commits
    requires next == Latest(w, image) || next.sequence > Latest(w, image).sequence
    ensures Inv(Next(w, StartCommit(image, next)))
  {
    var w' := Next(w, StartCommit(image, next));
    forall other, entry | Fresh(w, other, entry) ensures Fresh(w', other, entry) { }
    forall other, entry | Parked(w, other, entry) ensures Parked(w', other, entry) { }
  }

  lemma StepKeepsInv(owner: AssignmentId -> ImageId, w: World, step: Step)
    requires Inv(w) && Enabled(owner, w, step)
    ensures Inv(Next(w, step))
  {
    match step {
      case Append(image) => AppendKeeps(w, image);
      case ObserveCommit(image) => ObserveKeeps(w, image);
      case Rebuild(image, rebuilt) => RebuildKeeps(w, image, rebuilt);
      case ReadImage(image) => ReadKeeps(w, image);
      case Publish => PublishKeeps(w);
      case StartCommit(image, next) => StartCommitKeeps(w, image, next);
      case Abandon(image) =>
        assert forall other :: Latest(Next(w, step), other) == Latest(w, other);
      case _ =>
    }
  }

  lemma StepKeepsContents(owner: AssignmentId -> ImageId, w: World, step: Step)
    requires Inv(w) && ContentsOk(owner, w) && Enabled(owner, w, step)
    ensures ContentsOk(owner, Next(w, step))
  {
    match step {
      case Publish => PublishKeepsContents(owner, w);
      case ObserveCommit(image) => ObserveKeepsContents(owner, w, image);
      case _ =>
    }
  }

  lemma PublishKeepsContents(owner: AssignmentId -> ImageId, w: World)
    requires Inv(w) && ContentsOk(owner, w)
    requires w.scanner.Scanning? && w.scanner.scanned.Keys == w.scanner.captured
    ensures ContentsOk(owner, Next(w, Publish))
  {
    if w.cache.scan.Some? {
      var merged := Merge(w.cache.scan.value, w.scanner.scanned);
      assert AllWellFormed(owner, merged);
    }
  }

  lemma ObserveKeepsContents(owner: AssignmentId -> ImageId, w: World, image: ImageId)
    requires ContentsOk(owner, w) && image in w.commits
    ensures ContentsOk(owner, Next(w, ObserveCommit(image)))
  {
  }

  // ---------------------------------------------------------------------------------------------
  // Runs
  // ---------------------------------------------------------------------------------------------

  ghost predicate IsRun(owner: AssignmentId -> ImageId, w: World, steps: seq<Step>)
    decreases |steps|
  {
    steps == [] || (Enabled(owner, w, steps[0]) && IsRun(owner, Next(w, steps[0]), steps[1..]))
  }

  function Final(w: World, steps: seq<Step>): World
    decreases |steps|
  {
    if steps == [] then w else Final(Next(w, steps[0]), steps[1..])
  }

  /** A process starts with an empty cache over whatever logs and index are on disk. */
  ghost predicate Start(owner: AssignmentId -> ImageId, w: World) {
    w.commits == map[] && w.cache == INITIAL && w.scanner == Idle && AllWellFormed(owner, w.log)
  }

  lemma {:induction false} RunKeepsInv(owner: AssignmentId -> ImageId, w: World, steps: seq<Step>)
    requires Inv(w) && ContentsOk(owner, w) && IsRun(owner, w, steps)
    ensures Inv(Final(w, steps)) && ContentsOk(owner, Final(w, steps))
    decreases |steps|
  {
    if steps != [] {
      StepKeepsInv(owner, w, steps[0]);
      StepKeepsContents(owner, w, steps[0]);
      RunKeepsInv(owner, Next(w, steps[0]), steps[1..]);
    }
  }

  /** The committed progress of the current members. */
  function Committed(w: World): map<ImageId, ImageCompletion> {
    map image | image in w.members :: Latest(w, image)
  }

  /** In every reachable state a present projection answers, covers exactly the membership, and is
      exact on every image without a commit in flight. */
  lemma ProjectionExact(owner: AssignmentId -> ImageId, w: World, steps: seq<Step>)
    requires Start(owner, w) && IsRun(owner, w, steps)
    ensures var end := Final(w, steps);
            end.cache.projection.Some? ==>
              && Answers(end.cache)
              && end.cache.scan.None?
              && end.cache.projection.value.images.Keys == end.members
              && forall image :: image in end.members && image !in end.commits ==>
                   SameProgress(end.cache.projection.value.images[image], Latest(end, image))
  {
    RunKeepsInv(owner, w, steps);
  }

  /** With no commit in flight, the counts the cache returns are those of recounting every member's
      latest committed state, and its open reservations are the same too. */
  lemma QuiescentAnswersExact(owner: AssignmentId -> ImageId, w: World, steps: seq<Step>,
                              kind: AssignmentKind, now: Timestamp, r: Assignment)
    requires Start(owner, w) && IsRun(owner, w, steps)
    requires Final(w, steps).commits == map[] && Final(w, steps).cache.projection.Some?
    ensures var end := Final(w, steps);
            var images := end.cache.projection.value.images;
            && AnnotationSets(images) == AnnotationSets(Committed(end))
            && CompletedSets(images) == CompletedSets(Committed(end))
            && (Outstanding(images, kind, now, r) <==> Outstanding(Committed(end), kind, now, r))
  {
    ProjectionExact(owner, w, steps);
    var end := Final(w, steps);
    var images := end.cache.projection.value.images;
    var committed := Committed(end);
    assert images.Keys == committed.Keys;
    forall image | image in images ensures SameProgress(images[image], committed[image]) { }
    if Reserved(images, r) {
      var image :| image in images && r in images[image].reservations;
      assert image in committed && r in committed[image].reservations;
    }
    if Reserved(committed, r) {
      var image :| image in committed && r in committed[image].reservations;
      assert image in images && r in images[image].reservations;
    }
  }

  /** In terms of the replayed states of the members: with no commit in flight, each count is the number of images on
      which the task is completed (or annotated), and the open reservations are the active assignments whose work is
      open and whose lease runs. */
  lemma QuiescentAnswersMean(owner: AssignmentId -> ImageId, w: World, steps: seq<Step>,
                             states: map<ImageId, ImageState>, counts: map<TaskId, nat>, task: TaskId,
                             kind: AssignmentKind, now: Timestamp, r: Assignment)
    requires Start(owner, w) && IsRun(owner, w, steps)
    requires Final(w, steps).commits == map[] && Final(w, steps).cache.projection.Some?
    requires Committed(Final(w, steps)) == Projected(states)
    requires forall image, a :: image in states && a in states[image].assignments ==> a.image == image
    ensures var images := Final(w, steps).cache.projection.value.images;
            && (IsRecount(counts, CompletedSets(images)) ==> CountsImages(counts, task, CompletedOn(states, task)))
            && (IsRecount(counts, AnnotationSets(images)) ==> CountsImages(counts, task, AnnotatedOn(states, task)))
            && (Outstanding(images, kind, now, r)
                <==> && r.image in states && r in states[r.image].assignments
                     && r.status == Active && r.kind == kind && Open(states[r.image], kind, r.task)
                     && now < (if r.expiresAt.Some? then r.expiresAt.value else r.updatedAt + 1800))
  {
    QuiescentAnswersExact(owner, w, steps, kind, now, r);
    OutstandingMeans(states, kind, now, r);
    var images := Final(w, steps).cache.projection.value.images;
    if IsRecount(counts, CompletedSets(images)) { CompletedCountMeans(states, counts, task); }
    if IsRecount(counts, AnnotationSets(images)) { AnnotatedCountMeans(states, counts, task); }
  }

  /** In every reachable state, observing a commit or a rebuild never contradicts what is stored, so
      neither a projection nor a scan is ever dropped for an equal-sequence mismatch. */
  lemma MismatchUnreachable(owner: AssignmentId -> ImageId, w: World, steps: seq<Step>, step: Step)
    requires Start(owner, w) && IsRun(owner, w, steps)
    requires Enabled(owner, Final(w, steps), step) && (step.ObserveCommit? || step.Rebuild?)
    ensures var end := Final(w, steps);
            && Next(end, step).cache.projection.Some? == end.cache.projection.Some?
            && Next(end, step).cache.scan.Some? == end.cache.scan.Some?
  {
    RunKeepsInv(owner, w, steps);
    if step.ObserveCommit? {
      ObserveKeeps(Final(w, steps), step.image);
    } else {
      RebuildKeeps(Final(w, steps), step.image, step.rebuilt);
    }
  }

  // ---------------------------------------------------------------------------------------------
  // Reading the counts back after publishing
  // ---------------------------------------------------------------------------------------------

  predicate Invalidating(step: Step) {
    step.Abandon? || step.ChangeMembers? || step.InvalidateAll?
  }

  /** The caller is still between publishing and reading back. */
  predicate KeepsReader(steps: seq<Step>) {
    forall step | step in steps :: !step.ReadBack? && !step.CancelScan?
  }

  /** A caller that asked for submitted counts publishes under one lock and reads the counts back under
      another, expecting them to be there. They are, exactly when no abandoned commit, membership
      change or invalidation fell in between. */
  lemma {:induction false} ReadBackFindsCounts(owner: AssignmentId -> ImageId, w: World, steps: seq<Step>)
    requires Inv(w) && ContentsOk(owner, w) && IsRun(owner, w, steps) && KeepsReader(steps)
    requires w.scanner.Published? && w.cache.scan.None?
    ensures Final(w, steps).scanner.Published?
    ensures Answers(Final(w, steps).cache) <==>
              w.cache.projection.Some? && forall step :: step in steps ==> !Invalidating(step)
    decreases |steps|
  {
    if steps != [] {
      var step, w' := steps[0], Next(w, steps[0]);
      assert step in steps;
      StepKeepsInv(owner, w, step);
      StepKeepsContents(owner, w, step);
      if step.ObserveCommit? { ObserveKeeps(w, step.image); }
      if step.Rebuild? { RebuildKeeps(w, step.image, step.rebuilt); }
      forall s | s in steps[1..] ensures s in steps { }
      ReadBackFindsCounts(owner, w', steps[1..]);
      assert steps == [step] + steps[1..];
    }
  }

  /** A refresh that is not cancelled ends by finding counts or by reading back after installing its own; until then
      it starts over. */
  lemma RefreshDelivers(owner: AssignmentId -> ImageId, w: World, step: Step)
    requires Enabled(owner, w, step) && !w.scanner.Idle?
    ensures Next(w, step).scanner.Idle?
            <==> step.CancelScan? || step.ReadBack? || (step.CheckCounts? && Answers(w.cache))
    ensures !w.scanner.Published? && Next(w, step).scanner.Published? ==> Answers(Next(w, step).cache)
  {
  }

  lemma OneMore(owner: AssignmentId -> ImageId, w: World, step: Step, rest: seq<Step>)
    requires Enabled(owner, w, step) && IsRun(owner, Next(w, step), rest)
    ensures IsRun(owner, w, [step] + rest)
    ensures Final(w, [step] + rest) == Final(Next(w, step), rest)
  {
    assert ([step] + rest)[1..] == rest;
  }

  /** Eight steps after which the counts have vanished by the time they are read back: a commit that was
      appended is abandoned before its observation, right after its image was scanned and published. */
  lemma ReadBackCanFail(owner: AssignmentId -> ImageId, next: ImageCompletion)
    returns (w: World, steps: seq<Step>)
    requires WellFormed(owner, 1, next) && next.sequence > 0
    ensures Start(owner, w) && IsRun(owner, w, steps) && w.members == {1}
    ensures Final(w, steps).scanner.Published? && !Answers(Final(w, steps).cache)
    ensures Final(w, steps).log == map[1 := next]
  {
    w := World(map[], map[], {1}, INITIAL, Idle);
    steps := PublishedThenAbandoned(owner, next);
    var scanning := FIRST_READ.(scanner := Scanning(1, 0, {1}, map[]));
    OneMore(owner, scanning, ReadImage(1), steps);
    steps := [ReadImage(1)] + steps;
    OneMore(owner, w.(scanner := Ready), CaptureIndex, steps);
    steps := [CaptureIndex] + steps;
    OneMore(owner, w.(scanner := Holding), CheckCounts, steps);
    steps := [CheckCounts] + steps;
    OneMore(owner, w, AcquireRefresh, steps);
    steps := [AcquireRefresh] + steps;
  }

  /** The first scan has read image 1, the only member. */
  const FIRST_READ := World(map[], map[], {1}, Cache(0, 1, None, Some(ActiveScan(1, 0, {1}, map[]))),
                            Scanning(1, 0, {1}, map[1 := EMPTY]))

  lemma PublishedThenAbandoned(owner: AssignmentId -> ImageId, next: ImageCompletion) returns (steps: seq<Step>)
    requires WellFormed(owner, 1, next) && next.sequence > 0
    ensures IsRun(owner, FIRST_READ, steps)
    ensures Final(FIRST_READ, steps).scanner.Published? && !Answers(Final(FIRST_READ, steps).cache)
    ensures Final(FIRST_READ, steps).log == map[1 := next]
  {
    var published := World(map[], map[], {1}, Cache(0, 1, Some(View(0, map[1 := EMPTY])), None), Published);
    assert Next(FIRST_READ, Publish) == published by {
      assert Merge(FIRST_READ.cache.scan.value, map[1 := EMPTY]) == map[1 := EMPTY];
    }
    var started := published.(commits := map[1 := Commit(EMPTY, next, false)]);
    var appended := published.(log := map[1 := next], commits := map[1 := Commit(EMPTY, next, true)]);
    steps := [];
    OneMore(owner, appended, Abandon(1), steps);
    steps := [Abandon(1)] + steps;
    OneMore(owner, started, Append(1), steps);
    steps := [Append(1)] + steps;
    OneMore(owner, published, StartCommit(1, next), steps);
    steps := [StartCommit(1, next)] + steps;
    OneMore(owner, FIRST_READ, Publish, steps);
    steps := [Publish] + steps;
  }
}
