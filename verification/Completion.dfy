/** The task completion projection: per-image progress, incrementally maintained task counts and
    open reservations, and the cache that swaps projections and scans
    (crates/labello-storage/src/completion_projection.rs). */
module Completion {
  import opened Domain

  datatype ImageCompletion = ImageCompletion(
    sequence: nat,
    annotationCompleted: set<TaskId>,
    completed: set<TaskId>,
    reservations: seq<Assignment>)

  predicate SameProgress(a: ImageCompletion, b: ImageCompletion) {
    && a.annotationCompleted == b.annotationCompleted
    && a.completed == b.completed
    && a.reservations == b.reservations
  }

  // ---------------------------------------------------------------------------------------------
  // Progress of one image
  // ---------------------------------------------------------------------------------------------

  predicate Reserves(state: ImageState, a: Assignment) {
    && a.status == Active
    && state.IncludedInDenominator(a.task)
    && match a.kind
       case Annotation => state.AssignmentEligible(a.task)
       case Review => a.task in state.taskStates && state.taskStates[a.task] == TaskSubmitted
       case LegacyAdjudication => false
  }

  function ReservationsOf(state: ImageState, assignments: seq<Assignment>): seq<Assignment> {
    if assignments == [] then []
    else
      (if Reserves(state, assignments[0]) then [assignments[0]] else [])
      + ReservationsOf(state, assignments[1..])
  }

  function FromState(state: ImageState): ImageCompletion {
    ImageCompletion(
      state.sequence,
      (set task | task in state.taskStates
                  && state.taskStates[task] in {TaskSubmitted, TaskCompleted}
                  && state.IncludedInDenominator(task)),
      (set task | task in state.taskStates
                  && state.taskStates[task] == TaskCompleted
                  && state.IncludedInDenominator(task)),
      ReservationsOf(state, state.assignments))
  }

  lemma {:induction false} ReservationsOfMembers(state: ImageState, assignments: seq<Assignment>)
    ensures forall a :: a in ReservationsOf(state, assignments) <==> a in assignments && Reserves(state, a)
  {
    if assignments != [] {
      ReservationsOfMembers(state, assignments[1..]);
      assert assignments == [assignments[0]] + assignments[1..];
    }
  }

  lemma {:induction false} ReservationsOfDistinct(state: ImageState, assignments: seq<Assignment>)
    requires forall j, k :: 0 <= j < k < |assignments| ==> assignments[j].id != assignments[k].id
    ensures DistinctIds(ReservationsOf(state, assignments))
  {
    if assignments != [] {
      ReservationsOfDistinct(state, assignments[1..]);
      ReservationsOfMembers(state, assignments[1..]);
      var rest := ReservationsOf(state, assignments[1..]);
      forall k | 0 <= k < |rest| ensures rest[k].id != assignments[0].id {
        assert rest[k] in assignments[1..];
      }
    }
  }

  ghost predicate DistinctIds(reservations: seq<Assignment>) {
    forall j, k :: 0 <= j < k < |reservations| ==> reservations[j].id != reservations[k].id
  }

  /** Assignment ids are unique across images: `owner` names the image each id belongs to. */
  ghost predicate WellFormed(owner: AssignmentId -> ImageId, image: ImageId, completion: ImageCompletion) {
    && DistinctIds(completion.reservations)
    && completion.completed <= completion.annotationCompleted
    && forall r :: r in completion.reservations ==> r.image == image && owner(r.id) == image
  }

  /** Progress derived from a replayed state is well formed, and its reservations are for work that
      is still open for their kind: an annotation reservation's task is not yet submitted, a review
      reservation's task is submitted but not completed. */
  lemma FromStateWellFormed(owner: AssignmentId -> ImageId, state: ImageState)
    requires state.OwnsItsAssignments()
    requires forall a :: a in state.assignments ==> owner(a.id) == state.image
    ensures WellFormed(owner, state.image, FromState(state)) && FromState(state).sequence == state.sequence
    ensures forall r :: r in FromState(state).reservations ==>
              && r.status == Active
              && (r.kind == Annotation ==> r.task !in FromState(state).annotationCompleted)
              && (r.kind == Review ==> r.task in FromState(state).annotationCompleted
                                       && r.task !in FromState(state).completed)
              && r.kind != LegacyAdjudication
  {
    ReservationsOfMembers(state, state.assignments);
    ReservationsOfDistinct(state, state.assignments);
  }

  // ---------------------------------------------------------------------------------------------
  // Counting from scratch
  // ---------------------------------------------------------------------------------------------

  /** The images whose set contains `task`. */
  function Holders(sets: map<ImageId, set<TaskId>>, task: TaskId): set<ImageId> {
    set image | image in sets && task in sets[image]
  }

  /** `counts` is what counting every image again would give, without zero entries. */
  ghost predicate IsRecount(counts: map<TaskId, nat>, sets: map<ImageId, set<TaskId>>) {
    forall task ::
      && (task in counts <==> Holders(sets, task) != {})
      && (task in counts ==> counts[task] == |Holders(sets, task)|)
  }

  function AnnotationSets(images: map<ImageId, ImageCompletion>): map<ImageId, set<TaskId>> {
    map image | image in images :: images[image].annotationCompleted
  }

  function CompletedSets(images: map<ImageId, ImageCompletion>): map<ImageId, set<TaskId>> {
    map image | image in images :: images[image].completed
  }

  lemma RecountUnique(a: map<TaskId, nat>, b: map<TaskId, nat>, sets: map<ImageId, set<TaskId>>)
    requires IsRecount(a, sets) && IsRecount(b, sets)
    ensures a == b
  {
    assert forall task :: task in a <==> Holders(sets, task) != {};
    assert forall task :: task in b <==> Holders(sets, task) != {};
  }

  lemma HoldersUpdate(sets: map<ImageId, set<TaskId>>, image: ImageId, next: set<TaskId>, task: TaskId)
    ensures Holders(sets[image := next], task)
         == (Holders(sets, task) - {image}) + (if task in next then {image} else {})
  {
  }

  /** What one call of `ApplyTaskDelta` must leave behind. */
  ghost predicate DeltaApplied(counts: map<TaskId, nat>, previous: set<TaskId>, next: set<TaskId>,
                               result: map<TaskId, nat>)
  {
    && (forall task :: task in previous - next ==>
          && task in counts && counts[task] >= 1
          && (task in result <==> counts[task] > 1)
          && (task in result ==> result[task] == counts[task] - 1))
    && (forall task :: task in next - previous ==>
          && task in result
          && result[task] == (if task in counts then counts[task] else 0) + 1)
    && (forall task :: task !in previous - next && task !in next - previous ==>
          && (task in result <==> task in counts)
          && (task in result ==> result[task] == counts[task]))
  }

  predicate DeltaPossible(counts: map<TaskId, nat>, previous: set<TaskId>, next: set<TaskId>) {
    forall task | task in previous - next :: task in counts && counts[task] >= 1
  }

  /** The in-place update of a count map: it reports an underflow exactly when some removed task is
      absent or already zero. */
  method ApplyTaskDelta(counts: map<TaskId, nat>, previous: set<TaskId>, next: set<TaskId>)
    returns (ok: bool, result: map<TaskId, nat>)
    ensures ok <==> DeltaPossible(counts, previous, next)
    ensures ok ==> DeltaApplied(counts, previous, next, result)
  {
    result := counts;
    var removals := previous - next;
    while removals != {}
      invariant removals <= previous - next
      invariant forall task :: task in (previous - next) - removals ==>
                  && task in counts && counts[task] >= 1
                  && (task in result <==> counts[task] > 1)
                  && (task in result ==> result[task] == counts[task] - 1)
      invariant forall task :: task !in (previous - next) - removals ==>
                  && (task in result <==> task in counts)
                  && (task in result ==> result[task] == counts[task])
      decreases removals
    {
      var task :| task in removals;
      removals := removals - {task};
      if task !in result || result[task] == 0 {
        return false, result;
      }
      if result[task] == 1 {
        result := result - {task};
      } else {
        result := result[task := result[task] - 1];
      }
    }
    var additions := next - previous;
    while additions != {}
      invariant additions <= next - previous
      invariant forall task :: task in previous - next ==>
                  && task in counts && counts[task] >= 1
                  && (task in result <==> counts[task] > 1)
                  && (task in result ==> result[task] == counts[task] - 1)
      invariant forall task :: task in (next - previous) - additions ==>
                  && task in result
                  && result[task] == (if task in counts then counts[task] else 0) + 1
      invariant forall task :: task !in previous - next && task !in (next - previous) - additions ==>
                  && (task in result <==> task in counts)
                  && (task in result ==> result[task] == counts[task])
      decreases additions
    {
      var task :| task in additions;
      additions := additions - {task};
      result := result[task := (if task in result then result[task] else 0) + 1];
    }
    ok := true;
  }

  /** One task's entry after a delta on exact counts. */
  lemma DeltaCountsTask(counts: map<TaskId, nat>, sets: map<ImageId, set<TaskId>>, image: ImageId,
                        next: set<TaskId>, result: map<TaskId, nat>, task: TaskId)
    requires IsRecount(counts, sets) && image in sets && DeltaApplied(counts, sets[image], next, result)
    ensures task in result <==> Holders(sets[image := next], task) != {}
    ensures task in result ==> result[task] == |Holders(sets[image := next], task)|
  {
    var before := Holders(sets, task);
    HoldersUpdate(sets, image, next, task);
    assert task in counts <==> before != {};
    assert image in before <==> task in sets[image];
    if task in sets[image] - next {
      assert |before - {image}| == |before| - 1;
    } else if task in next && image in before {
      assert (before - {image}) + {image} == before;
    } else {
      assert before - {image} == before;
    }
  }

  /** A delta on exact counts never underflows and yields the exact counts of the updated images. */
  lemma DeltaRefinesRecount(counts: map<TaskId, nat>, sets: map<ImageId, set<TaskId>>, image: ImageId,
                            next: set<TaskId>, result: map<TaskId, nat>)
    requires IsRecount(counts, sets) && image in sets
    ensures DeltaPossible(counts, sets[image], next)
    ensures DeltaApplied(counts, sets[image], next, result) ==> IsRecount(result, sets[image := next])
  {
    forall task | task in sets[image] - next ensures task in counts && counts[task] >= 1 {
      assert image in Holders(sets, task);
    }
    if DeltaApplied(counts, sets[image], next, result) {
      forall task
        ensures task in result <==> Holders(sets[image := next], task) != {}
        ensures task in result ==> result[task] == |Holders(sets[image := next], task)|
      {
        DeltaCountsTask(counts, sets, image, next, result, task);
      }
    }
  }

  /** Submitted-or-completed counts dominate completed counts for every task. */
  lemma CompletedNeverExceedsAnnotated(images: map<ImageId, ImageCompletion>,
                                       annotated: map<TaskId, nat>, completed: map<TaskId, nat>, task: TaskId)
    requires forall image :: image in images ==>
               images[image].completed <= images[image].annotationCompleted
    requires IsRecount(annotated, AnnotationSets(images)) && IsRecount(completed, CompletedSets(images))
    requires task in completed
    ensures task in annotated && completed[task] <= annotated[task]
  {
    var inner := Holders(CompletedSets(images), task);
    var outer := Holders(AnnotationSets(images), task);
    assert inner != {} && inner <= outer;
    SubsetCardinality(inner, outer);
  }

  // ---------------------------------------------------------------------------------------------
  // Reservations
  // ---------------------------------------------------------------------------------------------

  /** `assignment` is an active reservation of some image. */
  ghost predicate Reserved(images: map<ImageId, ImageCompletion>, assignment: Assignment) {
    exists image :: image in images && assignment in images[image].reservations
  }

  /** `served` holds, per image, the latest time of a read since the image's progress was last taken over. Such a
      read has dropped what had expired by then. */
  ghost predicate Gone(served: map<ImageId, Timestamp>, r: Assignment) {
    r.image in served && Expired(r, served[r.image])
  }

  /** The stored reservations are exactly those of the images that no read has dropped. */
  ghost predicate ReservationsExact(reservations: map<AssignmentId, Assignment>,
                                    images: map<ImageId, ImageCompletion>, served: map<ImageId, Timestamp>)
  {
    && (forall id :: id in reservations ==>
          && reservations[id].id == id
          && Reserved(images, reservations[id]) && !Gone(served, reservations[id]))
    && (forall image, r :: image in images && r in images[image].reservations && !Gone(served, r) ==>
          r.id in reservations && reservations[r.id] == r)
  }

  /** A read at `now` is served for every image. */
  ghost function ServedAt(served: map<ImageId, Timestamp>, images: map<ImageId, ImageCompletion>, now: Timestamp)
    : map<ImageId, Timestamp>
  {
    map image | image in images :: if image in served && served[image] > now then served[image] else now
  }

  ghost predicate AllWellFormed(owner: AssignmentId -> ImageId, images: map<ImageId, ImageCompletion>) {
    forall image :: image in images ==> WellFormed(owner, image, images[image])
  }

  predicate Unfinished(images: map<ImageId, ImageCompletion>, kind: AssignmentKind, r: Assignment) {
    && r.image in images
    && r.task !in (if kind == Annotation then images[r.image].annotationCompleted
                   else images[r.image].completed)
  }

  /** The reservations a fresh recomputation would report at `now`. */
  ghost predicate Outstanding(images: map<ImageId, ImageCompletion>, kind: AssignmentKind, now: Timestamp,
                              r: Assignment)
  {
    Reserved(images, r) && r.kind == kind && !Expired(r, now) && Unfinished(images, kind, r)
  }

  predicate Before(a: Assignment, b: Assignment) {
    a.createdAt < b.createdAt || (a.createdAt == b.createdAt && a.id < b.id)
  }

  ghost predicate StrictlySorted(rs: seq<Assignment>) {
    forall j, k :: 0 <= j < k < |rs| ==> Before(rs[j], rs[k])
  }

  /** A strictly sorted listing is determined by its members. */
  lemma {:induction false} ListingUnique(a: seq<Assignment>, b: seq<Assignment>)
    requires StrictlySorted(a) && StrictlySorted(b)
    requires forall r :: r in a <==> r in b
    ensures a == b
  {
    assert a != [] ==> a[0] in a && a[0] in b;
    assert b != [] ==> b[0] in b && b[0] in a;
    if a != [] && b != [] {
      assert a[0] == b[0];
      forall r ensures r in a[1..] <==> r in b[1..] {
        if r in a[1..] { assert r in a; assert r != a[0]; }
        if r in b[1..] { assert r in b; assert r != b[0]; }
      }
      ListingUnique(a[1..], b[1..]);
      assert a == [a[0]] + a[1..] && b == [b[0]] + b[1..];
    }
  }

  method InsertSorted(rs: seq<Assignment>, r: Assignment) returns (result: seq<Assignment>)
    requires StrictlySorted(rs)
    requires forall s :: s in rs ==> s.id != r.id
    ensures StrictlySorted(result)
    ensures forall s :: s in result <==> s in rs || s == r
  {
    var i := 0;
    while i < |rs| && Before(rs[i], r)
      invariant 0 <= i <= |rs|
      invariant forall j :: 0 <= j < i ==> Before(rs[j], r)
    {
      i := i + 1;
    }
    result := rs[..i] + [r] + rs[i..];
    assert rs == rs[..i] + rs[i..];
    if i < |rs| { assert rs[i] in rs; }
    InsertedSorted(rs, i, r);
  }

  lemma InsertedSorted(rs: seq<Assignment>, i: nat, r: Assignment)
    requires StrictlySorted(rs) && i <= |rs|
    requires forall j :: 0 <= j < i ==> Before(rs[j], r)
    requires i < |rs| ==> Before(r, rs[i])
    ensures StrictlySorted(rs[..i] + [r] + rs[i..])
  {
    var result := rs[..i] + [r] + rs[i..];
    forall j | i <= j < |rs| ensures Before(r, rs[j]) {
      assert j == i || Before(rs[i], rs[j]);
    }
    forall a, b | 0 <= a < b < |result| ensures Before(result[a], result[b]) {
      assert result[a] == if a < i then rs[a] else if a == i then r else rs[a - 1];
      assert result[b] == if b < i then rs[b] else if b == i then r else rs[b - 1];
    }
  }

  // ---------------------------------------------------------------------------------------------
  // The projection
  // ---------------------------------------------------------------------------------------------

  datatype ObserveResult = Observed | EqualSequenceMismatch | Underflow

  /** Whether an observation of an indexed image is taken over, ignored, or contradicts what is stored. */
  datatype Verdict = Ignore | Take | Mismatch

  function Compare(current: ImageCompletion, observation: ImageCompletion, authoritative: bool): Verdict {
    if observation.sequence < current.sequence then Ignore
    else if observation.sequence == current.sequence then
      if SameProgress(observation, current) then Ignore
      else if authoritative then Take
      else Mismatch
    else Take
  }

  lemma AnnotationDelta(images: map<ImageId, ImageCompletion>, image: ImageId, next: ImageCompletion,
                        counts: map<TaskId, nat>, result: map<TaskId, nat>)
    requires IsRecount(counts, AnnotationSets(images)) && image in images
    ensures var previous := images[image].annotationCompleted;
            && DeltaPossible(counts, previous, next.annotationCompleted)
            && (DeltaApplied(counts, previous, next.annotationCompleted, result) ==>
                  IsRecount(result, AnnotationSets(images[image := next])))
  {
    DeltaRefinesRecount(counts, AnnotationSets(images), image, next.annotationCompleted, result);
    assert AnnotationSets(images[image := next]) == AnnotationSets(images)[image := next.annotationCompleted];
  }

  lemma CompletedDelta(images: map<ImageId, ImageCompletion>, image: ImageId, next: ImageCompletion,
                       counts: map<TaskId, nat>, result: map<TaskId, nat>)
    requires IsRecount(counts, CompletedSets(images)) && image in images
    ensures var previous := images[image].completed;
            && DeltaPossible(counts, previous, next.completed)
            && (DeltaApplied(counts, previous, next.completed, result) ==>
                  IsRecount(result, CompletedSets(images[image := next])))
  {
    DeltaRefinesRecount(counts, CompletedSets(images), image, next.completed, result);
    assert CompletedSets(images[image := next]) == CompletedSets(images)[image := next.completed];
  }

  class TaskCompletionProjection {
    ghost const owner: AssignmentId -> ImageId
    const membershipGeneration: nat
    var perImage: map<ImageId, ImageCompletion>
    var perAnnotationTask: map<TaskId, nat>
    var perTask: map<TaskId, nat>
    var reservations: map<AssignmentId, Assignment>
    ghost var served: map<ImageId, Timestamp>

    ghost predicate Valid() reads this {
      && AllWellFormed(owner, perImage)
      && IsRecount(perAnnotationTask, AnnotationSets(perImage))
      && IsRecount(perTask, CompletedSets(perImage))
      && ReservationsExact(reservations, perImage, served)
    }

    constructor FromImages(ghost owner: AssignmentId -> ImageId, membershipGeneration: nat,
                           images: map<ImageId, ImageCompletion>)
      requires AllWellFormed(owner, images)
      ensures Valid() && served == map[] && this.owner == owner
      ensures this.membershipGeneration == membershipGeneration && perImage == images
    {
      this.owner := owner;
      this.membershipGeneration := membershipGeneration;
      perImage := images;
      served := map[];
      var annotated, completed, reserved := CountImages(owner, images);
      perAnnotationTask := annotated;
      perTask := completed;
      reservations := reserved;
    }

    method Observe(image: ImageId, observation: ImageCompletion, authoritative: bool)
      returns (result: ObserveResult)
      requires Valid() && WellFormed(owner, image, observation)
      modifies this
      ensures result == if image in old(perImage)
                           && Compare(old(perImage)[image], observation, authoritative) == Mismatch
                        then EqualSequenceMismatch else Observed
      ensures result == Observed ==> Valid()
      ensures perImage == if image in old(perImage)
                             && Compare(old(perImage)[image], observation, authoritative) == Take
                          then old(perImage)[image := observation] else old(perImage)
      ensures served == if perImage == old(perImage) then old(served) else old(served) - {image}
    {
      if image !in perImage {
        return Observed;
      }
      var current := perImage[image];
      match Compare(current, observation, authoritative) {
        case Ignore => return Observed;
        case Mismatch => return EqualSequenceMismatch;
        case Take =>
      }
      result := TakeOver(image, observation);
    }

    /** Moves the totals and reservations from the stored progress of a member to its new progress. */
    method TakeOver(image: ImageId, observation: ImageCompletion) returns (result: ObserveResult)
      requires Valid() && image in perImage && WellFormed(owner, image, observation)
      modifies this
      ensures Valid() && result == Observed
      ensures perImage == old(perImage)[image := observation] && served == old(served) - {image}
    {
      var current := perImage[image];
      var okAnnotated, annotated := ApplyTaskDelta(perAnnotationTask, current.annotationCompleted,
                                                   observation.annotationCompleted);
      AnnotationDelta(perImage, image, observation, perAnnotationTask, annotated);
      if !okAnnotated {
        return Underflow;
      }
      perAnnotationTask := annotated;
      var okCompleted, completed := ApplyTaskDelta(perTask, current.completed, observation.completed);
      CompletedDelta(perImage, image, observation, perTask, completed);
      if !okCompleted {
        return Underflow;
      }
      perTask := completed;
      reservations := SwapReservations(owner, perImage, image, observation, served, reservations);
      perImage, served := perImage[image := observation], served - {image};
      result := Observed;
    }

    /** Drops expired reservations for good, so a read reports exactly the reservations a recomputation at `now`
        would, except those an overtaking later read has dropped. */
    method AssignmentProgress(kind: AssignmentKind, now: Timestamp)
      returns (counts: map<TaskId, nat>, listing: seq<Assignment>)
      requires Valid()
      modifies `reservations, `served
      ensures Valid() && served == ServedAt(old(served), perImage, now)
      ensures IsRecount(counts, if kind == Annotation then AnnotationSets(perImage) else CompletedSets(perImage))
      ensures StrictlySorted(listing)
      ensures forall r :: r in listing <==> Outstanding(perImage, kind, now, r) && !Gone(old(served), r)
    {
      var live := map id | id in reservations && !Expired(reservations[id], now) :: reservations[id];
      DroppingExpired(owner, reservations, perImage, served, now, live);
      counts := if kind == Annotation then perAnnotationTask else perTask;
      listing := ListUnfinished(owner, perImage, kind, live);
      forall r ensures r in listing <==> Outstanding(perImage, kind, now, r) && !Gone(served, r) {
        if Outstanding(perImage, kind, now, r) && !Gone(served, r) {
          assert r.id in live && live[r.id] == r;
        }
      }
      reservations := live;
      served := ServedAt(served, perImage, now);
    }
  }

  /** A read is exact exactly when no reservation still running at its time had run out at the time of a read
      already served. */
  lemma ReadExactly(images: map<ImageId, ImageCompletion>, served: map<ImageId, Timestamp>, kind: AssignmentKind,
                    now: Timestamp, listing: seq<Assignment>)
    requires forall r :: r in listing <==> Outstanding(images, kind, now, r) && !Gone(served, r)
    ensures (forall r :: r in listing <==> Outstanding(images, kind, now, r))
            <==> forall r :: Outstanding(images, kind, now, r) && r.image in served ==> served[r.image] < LeaseEnd(r)
  {
    if forall r :: Outstanding(images, kind, now, r) && r.image in served ==> served[r.image] < LeaseEnd(r) {
      forall r ensures r in listing <==> Outstanding(images, kind, now, r) { }
    } else {
      var r :| Outstanding(images, kind, now, r) && r.image in served && served[r.image] >= LeaseEnd(r);
      assert Gone(served, r) && r !in listing;
    }
  }

  /** In particular a read that no later read overtook is exact. */
  lemma InOrderReadExact(images: map<ImageId, ImageCompletion>, served: map<ImageId, Timestamp>,
                         kind: AssignmentKind, now: Timestamp, r: Assignment)
    requires forall image :: image in served ==> served[image] <= now
    ensures Outstanding(images, kind, now, r) && !Gone(served, r) <==> Outstanding(images, kind, now, r)
  {
  }

  /** Two callers that take the time before the lock can be served in reverse: the one whose time is earlier then
      misses a reservation that was still running. */
  method OvertakenRead(r: Assignment, now: Timestamp)
    returns (images: map<ImageId, ImageCompletion>, listing: seq<Assignment>)
    requires r.kind == Annotation && now < LeaseEnd(r)
    ensures Outstanding(images, Annotation, now, r) && r !in listing
  {
    ghost var owner := (id: AssignmentId) => r.image;
    images := map[r.image := ImageCompletion(0, {}, {}, [r])];
    var projection := new TaskCompletionProjection.FromImages(owner, 0, images);
    assert r in images[r.image].reservations && Reserved(images, r);
    var counts, first := projection.AssignmentProgress(Annotation, LeaseEnd(r));
    counts, listing := projection.AssignmentProgress(Annotation, now);
  }

  /** The stored reservations of one kind whose task is not finished yet, oldest first. */
  method ListUnfinished(ghost owner: AssignmentId -> ImageId, images: map<ImageId, ImageCompletion>,
                        kind: AssignmentKind, live: map<AssignmentId, Assignment>)
    returns (listing: seq<Assignment>)
    requires AllWellFormed(owner, images)
    requires forall id :: id in live ==> live[id].id == id && Reserved(images, live[id])
    ensures StrictlySorted(listing)
    ensures forall r :: r in listing <==>
              r.id in live && live[r.id] == r && r.kind == kind && Unfinished(images, kind, r)
  {
    listing := [];
    var todo := live.Keys;
    while todo != {}
      invariant todo <= live.Keys
      invariant StrictlySorted(listing)
      invariant forall r :: r in listing <==>
                  r.id in live.Keys - todo && live[r.id] == r && r.kind == kind && Unfinished(images, kind, r)
      decreases todo
    {
      var id :| id in todo;
      todo := todo - {id};
      var r := live[id];
      if r.kind == kind {
        assert Reserved(images, r);
        var progress := images[r.image];
        var finished := if kind == Annotation then progress.annotationCompleted else progress.completed;
        if r.task !in finished {
          listing := InsertSorted(listing, r);
        }
      }
    }
  }

  lemma DroppingExpired(owner: AssignmentId -> ImageId, reservations: map<AssignmentId, Assignment>,
                        images: map<ImageId, ImageCompletion>, served: map<ImageId, Timestamp>, now: Timestamp,
                        live: map<AssignmentId, Assignment>)
    requires AllWellFormed(owner, images) && ReservationsExact(reservations, images, served)
    requires forall id :: id in live <==> id in reservations && !Expired(reservations[id], now)
    requires forall id :: id in live ==> live[id] == reservations[id]
    ensures ReservationsExact(live, images, ServedAt(served, images, now))
  {
    var later := ServedAt(served, images, now);
    forall image, r | image in images && r in images[image].reservations
      ensures Gone(later, r) <==> Gone(served, r) || Expired(r, now)
    {
      assert r.image == image;
    }
  }

  /** The three totals `from_images` builds, image by image. */
  method CountImages(ghost owner: AssignmentId -> ImageId, images: map<ImageId, ImageCompletion>)
    returns (annotated: map<TaskId, nat>, completed: map<TaskId, nat>, reserved: map<AssignmentId, Assignment>)
    requires AllWellFormed(owner, images)
    ensures IsRecount(annotated, AnnotationSets(images))
    ensures IsRecount(completed, CompletedSets(images))
    ensures ReservationsExact(reserved, images, map[])
  {
    annotated, completed, reserved := map[], map[], map[];
    var todo := images.Keys;
    ghost var done: map<ImageId, ImageCompletion> := map[];
    while todo != {}
      invariant todo <= images.Keys
      invariant done.Keys == images.Keys - todo
      invariant forall image :: image in done ==> done[image] == images[image]
      invariant IsRecount(annotated, AnnotationSets(done))
      invariant IsRecount(completed, CompletedSets(done))
      invariant ReservationsExact(reserved, done, map[])
      decreases todo
    {
      var image :| image in todo;
      todo := todo - {image};
      var completion := images[image];
      ghost var next := done[image := completion];
      reserved := AddReservations(owner, done, image, completion, reserved);
      var annotated', completed' := annotated, completed;
      annotated := Increment(annotated, completion.annotationCompleted);
      completed := Increment(completed, completion.completed);
      AddedImageCounts(done, image, completion, annotated', completed', annotated, completed);
      done := next;
    }
    assert done == images;
  }

  lemma AddedImageCounts(images: map<ImageId, ImageCompletion>, image: ImageId, completion: ImageCompletion,
                         annotated: map<TaskId, nat>, completed: map<TaskId, nat>,
                         annotated': map<TaskId, nat>, completed': map<TaskId, nat>)
    requires image !in images
    requires IsRecount(annotated, AnnotationSets(images)) && IsRecount(completed, CompletedSets(images))
    requires DeltaApplied(annotated, {}, completion.annotationCompleted, annotated')
    requires DeltaApplied(completed, {}, completion.completed, completed')
    ensures IsRecount(annotated', AnnotationSets(images[image := completion]))
    ensures IsRecount(completed', CompletedSets(images[image := completion]))
  {
    var next := images[image := completion];
    AddedImageRecount(annotated, AnnotationSets(images), image, completion.annotationCompleted, annotated');
    AddedImageRecount(completed, CompletedSets(images), image, completion.completed, completed');
    assert AnnotationSets(next) == AnnotationSets(images)[image := completion.annotationCompleted];
    assert CompletedSets(next) == CompletedSets(images)[image := completion.completed];
  }

  method Increment(counts: map<TaskId, nat>, tasks: set<TaskId>) returns (result: map<TaskId, nat>)
    ensures DeltaApplied(counts, {}, tasks, result)
  {
    var ok;
    ok, result := ApplyTaskDelta(counts, {}, tasks);
  }

  lemma AddedImageRecount(counts: map<TaskId, nat>, sets: map<ImageId, set<TaskId>>,
                          image: ImageId, added: set<TaskId>, result: map<TaskId, nat>)
    requires IsRecount(counts, sets) && image !in sets && DeltaApplied(counts, {}, added, result)
    ensures IsRecount(result, sets[image := added])
  {
    var empty := sets[image := {}];
    forall task ensures Holders(empty, task) == Holders(sets, task) { }
    assert IsRecount(counts, empty) by {
      forall task
        ensures task in counts <==> Holders(empty, task) != {}
        ensures task in counts ==> counts[task] == |Holders(empty, task)|
      {
        assert Holders(empty, task) == Holders(sets, task);
      }
    }
    DeltaRefinesRecount(counts, empty, image, added, result);
    assert empty[image := added] == sets[image := added];
  }

  method AddReservations(ghost owner: AssignmentId -> ImageId, ghost images: map<ImageId, ImageCompletion>,
                         image: ImageId, completion: ImageCompletion, reserved: map<AssignmentId, Assignment>)
    returns (result: map<AssignmentId, Assignment>)
    requires AllWellFormed(owner, images) && image !in images && WellFormed(owner, image, completion)
    requires ReservationsExact(reserved, images, map[])
    ensures ReservationsExact(result, images[image := completion], map[])
  {
    result := InsertAll(reserved, completion.reservations);
    OtherReservations(owner, images, image, completion, map[], reserved, result);
  }

  /** Replaces the reservations of one image by those of its new progress, expired ones included. */
  method SwapReservations(ghost owner: AssignmentId -> ImageId, images: map<ImageId, ImageCompletion>,
                          image: ImageId, observation: ImageCompletion, ghost served: map<ImageId, Timestamp>,
                          reserved: map<AssignmentId, Assignment>)
    returns (result: map<AssignmentId, Assignment>)
    requires AllWellFormed(owner, images) && image in images && WellFormed(owner, image, observation)
    requires ReservationsExact(reserved, images, served)
    ensures ReservationsExact(result, images[image := observation], served - {image})
  {
    var kept := RemoveAll(reserved, images[image].reservations);
    ghost var others := images - {image};
    OnlyOthersLeft(owner, images, image, served, reserved, kept);
    result := InsertAll(kept, observation.reservations);
    OtherReservations(owner, others, image, observation, served - {image}, kept, result);
    assert others[image := observation] == images[image := observation];
  }

  method RemoveAll(reserved: map<AssignmentId, Assignment>, removed: seq<Assignment>)
    returns (result: map<AssignmentId, Assignment>)
    ensures forall id :: id in result <==> id in reserved && forall r :: r in removed ==> r.id != id
    ensures forall id :: id in result ==> result[id] == reserved[id]
  {
    result := reserved;
    for i := 0 to |removed|
      invariant forall id :: id in result <==> id in reserved && forall r :: r in removed[..i] ==> r.id != id
      invariant forall id :: id in result ==> result[id] == reserved[id]
    {
      result := result - {removed[i].id};
      assert removed[..i + 1] == removed[..i] + [removed[i]];
    }
    assert removed[..|removed|] == removed;
  }

  lemma OnlyOthersLeft(owner: AssignmentId -> ImageId, images: map<ImageId, ImageCompletion>, image: ImageId,
                       served: map<ImageId, Timestamp>, reserved: map<AssignmentId, Assignment>,
                       kept: map<AssignmentId, Assignment>)
    requires AllWellFormed(owner, images) && image in images
    requires ReservationsExact(reserved, images, served)
    requires forall id :: id in kept <==>
               id in reserved && forall r :: r in images[image].reservations ==> r.id != id
    requires forall id :: id in kept ==> kept[id] == reserved[id]
    ensures ReservationsExact(kept, images - {image}, served - {image})
  {
    var others := images - {image};
    forall id | id in kept
      ensures kept[id].id == id && Reserved(others, kept[id]) && !Gone(served - {image}, kept[id])
    {
      assert !Gone(served, reserved[id]);
      var home :| home in images && kept[id] in images[home].reservations;
      assert home != image;
      assert home in others && kept[id] in others[home].reservations;
    }
    forall home, r | home in others && r in others[home].reservations && !Gone(served - {image}, r)
      ensures r.id in kept && kept[r.id] == r
    {
      assert home in images && r in images[home].reservations && r.image == home;
      assert !Gone(served, r);
    }
  }

  method InsertAll(reserved: map<AssignmentId, Assignment>, added: seq<Assignment>)
    returns (result: map<AssignmentId, Assignment>)
    requires DistinctIds(added)
    ensures forall r :: r in added ==> r.id in result && result[r.id] == r
    ensures forall id :: id in result ==>
              || (exists r :: r in added && r.id == id && result[id] == r)
              || (id in reserved && result[id] == reserved[id])
    ensures forall id :: id in reserved && (forall r :: r in added ==> r.id != id) ==>
              id in result && result[id] == reserved[id]
  {
    result := reserved;
    for i := 0 to |added|
      invariant forall j :: 0 <= j < i ==> added[j].id in result && result[added[j].id] == added[j]
      invariant forall id :: id in result ==>
                  (exists r :: r in added && r.id == id && result[id] == r)
                  || (id in reserved && result[id] == reserved[id])
      invariant forall id :: id in reserved && (forall r :: r in added ==> r.id != id) ==>
                  id in result && result[id] == reserved[id]
    {
      assert added[i] in added;
      result := result[added[i].id := added[i]];
    }
  }

  lemma OtherReservations(owner: AssignmentId -> ImageId, images: map<ImageId, ImageCompletion>,
                          image: ImageId, completion: ImageCompletion, served: map<ImageId, Timestamp>,
                          before: map<AssignmentId, Assignment>, after: map<AssignmentId, Assignment>)
    requires AllWellFormed(owner, images) && image !in images && WellFormed(owner, image, completion)
    requires image !in served && ReservationsExact(before, images, served)
    requires forall r :: r in completion.reservations ==> r.id in after && after[r.id] == r
    requires forall id :: id in after ==>
               (exists r :: r in completion.reservations && r.id == id && after[id] == r)
               || (id in before && after[id] == before[id])
    requires forall id :: id in before && (forall r :: r in completion.reservations ==> r.id != id) ==>
               id in after && after[id] == before[id]
    ensures ReservationsExact(after, images[image := completion], served)
  {
    var next := images[image := completion];
    forall id | id in after ensures after[id].id == id && Reserved(next, after[id]) && !Gone(served, after[id]) {
      if r :| r in completion.reservations && r.id == id && after[id] == r {
        assert image in next && r in next[image].reservations;
      } else {
        var home :| home in images && before[id] in images[home].reservations;
        assert home in next && after[id] in next[home].reservations;
      }
    }
    forall home, r | home in next && r in next[home].reservations && !Gone(served, r)
      ensures r.id in after && after[r.id] == r
    {
      if home != image {
        assert home in images && r in images[home].reservations;
      }
    }
  }

  // ---------------------------------------------------------------------------------------------
  // What the answers mean on replayed states
  // ---------------------------------------------------------------------------------------------

  function Projected(states: map<ImageId, ImageState>): map<ImageId, ImageCompletion> {
    map image | image in states :: FromState(states[image])
  }

  /** The images on which the task is completed and in the denominator, which an excluded import leaves unless the
      task was included again. */
  function CompletedOn(states: map<ImageId, ImageState>, task: TaskId): set<ImageId> {
    set image | && image in states && task in states[image].taskStates
                && states[image].taskStates[task] == TaskCompleted
                && (task in states[image].excludedImports ==> task in states[image].includedImports)
  }

  /** Annotated work is completed, or submitted and waiting for its review. */
  function AnnotatedOn(states: map<ImageId, ImageState>, task: TaskId): set<ImageId> {
    CompletedOn(states, task)
    + set image | && image in states && task in states[image].taskStates
                  && states[image].taskStates[task] == TaskSubmitted
                  && (task in states[image].excludedImports ==> task in states[image].includedImports)
  }

  ghost predicate CountsImages(counts: map<TaskId, nat>, task: TaskId, images: set<ImageId>) {
    && (task in counts <==> images != {})
    && (task in counts ==> counts[task] == |images|)
  }

  lemma CompletedCountMeans(states: map<ImageId, ImageState>, counts: map<TaskId, nat>, task: TaskId)
    requires IsRecount(counts, CompletedSets(Projected(states)))
    ensures CountsImages(counts, task, CompletedOn(states, task))
  {
    assert Holders(CompletedSets(Projected(states)), task) == CompletedOn(states, task);
  }

  lemma AnnotatedCountMeans(states: map<ImageId, ImageState>, counts: map<TaskId, nat>, task: TaskId)
    requires IsRecount(counts, AnnotationSets(Projected(states)))
    ensures CountsImages(counts, task, AnnotatedOn(states, task))
  {
    assert Holders(AnnotationSets(Projected(states)), task) == AnnotatedOn(states, task);
  }

  /** Work for an assignment of this kind is open on a task: an annotation may still be made, or a submitted
      annotation waits for its review. */
  predicate Open(state: ImageState, kind: AssignmentKind, task: TaskId) {
    && (task in state.excludedImports ==> task in state.includedImports)
    && match kind
       case Annotation =>
         task !in state.taskStates
         || state.taskStates[task] == TaskPending
         || state.taskStates[task] == TaskInProgress
         || state.taskStates[task] == TaskNeedsCorrection
       case Review => task in state.taskStates && state.taskStates[task] == TaskSubmitted
       case LegacyAdjudication => false
  }

  lemma ReservedExactly(state: ImageState, a: Assignment)
    ensures a in FromState(state).reservations
            <==> a in state.assignments && a.status == Active && Open(state, a.kind, a.task)
  {
    ReservationsOfMembers(state, state.assignments);
  }

  /** A recomputation at `now` reports an assignment exactly when its image's state has it, active, with its work
      still open and its lease running: until the recorded expiry, or else for half an hour. */
  lemma OutstandingMeans(states: map<ImageId, ImageState>, kind: AssignmentKind, now: Timestamp, r: Assignment)
    requires forall image, a :: image in states && a in states[image].assignments ==> a.image == image
    ensures Outstanding(Projected(states), kind, now, r)
            <==> && r.image in states && r in states[r.image].assignments
                 && r.status == Active && r.kind == kind && Open(states[r.image], kind, r.task)
                 && now < (if r.expiresAt.Some? then r.expiresAt.value else r.updatedAt + 1800)
  {
    var images := Projected(states);
    if r.image in states {
      ReservedExactly(states[r.image], r);
      assert r in images[r.image].reservations ==> Reserved(images, r);
    }
    if Reserved(images, r) {
      var image :| image in images && r in images[image].reservations;
      ReservedExactly(states[image], r);
      assert r in states[image].assignments;
    }
  }

  /** Older assignments are listed first, and of equally old ones the smaller id. */
  lemma ListedOldestFirst(listing: seq<Assignment>, j: nat, k: nat)
    requires StrictlySorted(listing) && j < k < |listing|
    ensures listing[j].createdAt <= listing[k].createdAt
    ensures listing[j].createdAt == listing[k].createdAt ==> listing[j].id < listing[k].id
  {
    assert Before(listing[j], listing[k]);
  }

  // ---------------------------------------------------------------------------------------------
  // The cache
  // ---------------------------------------------------------------------------------------------

  datatype ActiveScan = ActiveScan(
    attempt: nat,
    generation: nat,
    indexed: set<ImageId>,
    pending: map<ImageId, ImageCompletion>)

  /** The part of a projection the cache logic depends on; counts are a function of `images`. */
  datatype View = View(generation: nat, images: map<ImageId, ImageCompletion>)

  datatype Cache = Cache(generation: nat, attempts: nat, projection: Option<View>, scan: Option<ActiveScan>)

  function BeginScan(c: Cache, indexed: set<ImageId>): Cache {
    c.(attempts := c.attempts + 1,
       scan := Some(ActiveScan(c.attempts + 1, c.generation, indexed, map[])))
  }

  /** The parked observation of a captured image, unless the scan read a later one. */
  function MergedEntry(scan: ActiveScan, scanned: map<ImageId, ImageCompletion>, image: ImageId): ImageCompletion
    requires image in scanned || (image in scan.pending && image in scan.indexed)
  {
    if image in scan.pending && image in scan.indexed
       && (image in scanned ==> scan.pending[image].sequence >= scanned[image].sequence)
    then scan.pending[image] else scanned[image]
  }

  /** The scanned images with every at-least-as-recent pending observation laid over them. */
  function Merge(scan: ActiveScan, scanned: map<ImageId, ImageCompletion>): map<ImageId, ImageCompletion> {
    map image | image in scanned.Keys + (scan.pending.Keys * scan.indexed) :: MergedEntry(scan, scanned, image)
  }

  function PublishScan(c: Cache, attempt: nat, generation: nat, scanned: map<ImageId, ImageCompletion>)
    : (r: (Cache, bool))
  {
    match c.scan
    case None => (c, false)
    case Some(scan) =>
      var c' := c.(scan := None);
      if scan.attempt != attempt || scan.generation != generation || c.generation != generation then (c', false)
      else
        var merged := Merge(scan, scanned);
        if merged.Keys != scan.indexed then (c', false)
        else (c'.(projection := Some(View(generation, merged))), true)
  }

  function AbortScan(c: Cache, attempt: nat, generation: nat): Cache {
    if c.scan.Some? && c.scan.value.attempt == attempt && c.scan.value.generation == generation
    then c.(scan := None)
    else c
  }

  function Observe(c: Cache, image: ImageId, observation: ImageCompletion, authoritative: bool): Cache {
    match c.projection
    case Some(view) =>
      if image !in view.images then c
      else (
        match Compare(view.images[image], observation, authoritative)
        case Ignore => c
        case Take => c.(projection := Some(view.(images := view.images[image := observation])))
        case Mismatch => c.(projection := None))
    case None =>
      match c.scan
      case None => c
      case Some(scan) =>
        if image !in scan.indexed then c
        else if image !in scan.pending then
          c.(scan := Some(scan.(pending := scan.pending[image := observation])))
        else
          match Compare(scan.pending[image], observation, authoritative)
          case Ignore => c
          case Take => c.(scan := Some(scan.(pending := scan.pending[image := observation])))
          case Mismatch => c.(scan := None)
  }

  function ObserveTransition(c: Cache, image: ImageId, previous: ImageCompletion, next: ImageCompletion): Cache {
    if SameProgress(previous, next) then c else Observe(c, image, next, false)
  }

  function InvalidateMembership(c: Cache): Cache {
    c.(generation := c.generation + 1, projection := None, scan := None)
  }

  function Invalidate(c: Cache): Cache {
    c.(projection := None, scan := None)
  }

  method MergePending(scan: ActiveScan, scanned: map<ImageId, ImageCompletion>)
    returns (merged: map<ImageId, ImageCompletion>)
    ensures merged == Merge(scan, scanned)
  {
    merged := scanned;
    var todo := scan.pending.Keys;
    while todo != {}
      invariant todo <= scan.pending.Keys
      invariant merged.Keys == scanned.Keys + ((scan.pending.Keys - todo) * scan.indexed)
      invariant forall image :: image in merged && image in scan.pending.Keys - todo ==>
                  merged[image] == MergedEntry(scan, scanned, image)
      invariant forall image :: image in merged && image !in scan.pending.Keys - todo ==>
                  merged[image] == scanned[image]
      decreases todo
    {
      var image :| image in todo;
      todo := todo - {image};
      var observation := scan.pending[image];
      if image in scan.indexed && (image !in merged || observation.sequence >= merged[image].sequence) {
        merged := merged[image := observation];
      }
    }
  }

  class TaskCompletionCache {
    ghost const owner: AssignmentId -> ImageId
    var membershipGeneration: nat
    var nextAttemptId: nat
    var projection: TaskCompletionProjection?
    var activeScan: Option<ActiveScan>

    ghost predicate Valid() reads this, projection {
      && (projection != null ==> projection.Valid() && projection.owner == owner)
      && (activeScan.Some? ==> AllWellFormed(owner, activeScan.value.pending))
    }

    ghost function State(): Cache reads this, projection {
      Cache(membershipGeneration, nextAttemptId,
            if projection == null then None
            else Some(View(projection.membershipGeneration, projection.perImage)),
            activeScan)
    }

    constructor (ghost owner: AssignmentId -> ImageId)
      ensures Valid() && State() == Cache(0, 0, None, None)
    {
      this.owner := owner;
      membershipGeneration, nextAttemptId, projection, activeScan := 0, 0, null, None;
    }

    method Counts(includeSubmitted: bool) returns (counts: Option<map<TaskId, nat>>)
      requires Valid()
      ensures counts.Some? <==> State().projection.Some? && State().projection.value.generation == State().generation
      ensures counts.Some? ==>
                var images := State().projection.value.images;
                IsRecount(counts.value, if includeSubmitted then AnnotationSets(images) else CompletedSets(images))
    {
      if projection == null || projection.membershipGeneration != membershipGeneration {
        return None;
      }
      counts := Some(if includeSubmitted then projection.perAnnotationTask else projection.perTask);
    }

    method AssignmentProgress(kind: AssignmentKind, now: Timestamp)
      returns (progress: Option<(map<TaskId, nat>, seq<Assignment>)>)
      requires Valid()
      modifies projection
      ensures Valid() && State() == old(State())
      ensures projection != null ==>
                projection.served == if progress.Some? then ServedAt(old(projection.served), projection.perImage, now)
                                     else old(projection.served)
      ensures progress.Some? <==> State().projection.Some? && State().projection.value.generation == State().generation
      ensures progress.Some? ==>
                var images := State().projection.value.images;
                && IsRecount(progress.value.0,
                             if kind == Annotation then AnnotationSets(images) else CompletedSets(images))
                && StrictlySorted(progress.value.1)
                && forall r :: r in progress.value.1 <==>
                     Outstanding(images, kind, now, r) && !Gone(old(projection.served), r)
    {
      if projection == null || projection.membershipGeneration != membershipGeneration {
        return None;
      }
      var counts, listing := projection.AssignmentProgress(kind, now);
      progress := Some((counts, listing));
    }

    method Begin(indexed: set<ImageId>) returns (attempt: nat, generation: nat)
      requires Valid()
      modifies this
      ensures Valid() && State() == BeginScan(old(State()), indexed)
      ensures attempt == State().scan.value.attempt && generation == State().scan.value.generation
      ensures projection == old(projection)
    {
      nextAttemptId := nextAttemptId + 1;
      attempt, generation := nextAttemptId, membershipGeneration;
      activeScan := Some(ActiveScan(attempt, generation, indexed, map[]));
    }

    method Publish(attempt: nat, generation: nat, scanned: map<ImageId, ImageCompletion>)
      returns (counts: Option<map<TaskId, nat>>)
      requires Valid() && AllWellFormed(owner, scanned)
      modifies this
      ensures Valid() && State() == PublishScan(old(State()), attempt, generation, scanned).0
      ensures counts.Some? <==> PublishScan(old(State()), attempt, generation, scanned).1
      ensures counts.Some? ==> IsRecount(counts.value, CompletedSets(State().projection.value.images))
    {
      if activeScan.None? {
        return None;
      }
      var active := activeScan.value;
      activeScan := None;
      if active.attempt != attempt || active.generation != generation || membershipGeneration != generation {
        return None;
      }
      var merged := MergePending(active, scanned);
      if merged.Keys != active.indexed {
        return None;
      }
      projection := new TaskCompletionProjection.FromImages(owner, generation, merged);
      counts := Some(projection.perTask);
    }

    method Abort(attempt: nat, generation: nat)
      requires Valid()
      modifies `activeScan
      ensures Valid() && State() == AbortScan(old(State()), attempt, generation)
    {
      if activeScan.Some? && activeScan.value.attempt == attempt && activeScan.value.generation == generation {
        activeScan := None;
      }
    }

    method ObserveImage(image: ImageId, observation: ImageCompletion, authoritative: bool)
      requires Valid() && WellFormed(owner, image, observation)
      modifies this, projection
      ensures Valid() && State() == Observe(old(State()), image, observation, authoritative)
    {
      if projection != null {
        var current := projection;
        var result := current.Observe(image, observation, authoritative);
        if result != Observed {
          projection := null;
        }
        return;
      }
      if activeScan.None? || image !in activeScan.value.indexed {
        return;
      }
      var active := activeScan.value;
      if image !in active.pending {
        activeScan := Some(active.(pending := active.pending[image := observation]));
        return;
      }
      match Compare(active.pending[image], observation, authoritative) {
        case Ignore =>
        case Take => activeScan := Some(active.(pending := active.pending[image := observation]));
        case Mismatch => activeScan := None;
      }
    }

    method ObserveCommit(image: ImageId, previous: ImageCompletion, next: ImageCompletion)
      requires Valid() && WellFormed(owner, image, next)
      modifies this, projection
      ensures Valid() && State() == ObserveTransition(old(State()), image, previous, next)
    {
      if SameProgress(previous, next) {
        return;
      }
      ObserveImage(image, next, false);
    }

    method DropMembership()
      modifies this
      ensures Valid() && State() == InvalidateMembership(old(State()))
    {
      membershipGeneration := membershipGeneration + 1;
      projection, activeScan := null, None;
    }

    method Drop()
      modifies this
      ensures Valid() && State() == Invalidate(old(State()))
    {
      projection, activeScan := null, None;
    }
  }
}
