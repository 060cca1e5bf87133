/** The review history index: per user and task the newest finished reviews, per workflow the seen
    visits, both maintained incrementally from per-image observations
    (crates/labello-storage/src/review_history.rs). */
module ReviewHistory {
  import opened Domain

  datatype Key = Key(user: UserId, task: TaskId)

  datatype Mark = Mark(timestamp: Timestamp, assignment: AssignmentId)

  datatype Entry = Entry(timestamp: Timestamp, image: ImageId, assignment: AssignmentId)

  datatype WorkflowKey = WorkflowKey(user: UserId, task: TaskId, review: bool, variant: WorkflowVariant)

  datatype Visit = Visit(timestamp: Timestamp, event: EventId, image: ImageId, assignment: AssignmentId)

  datatype Observation = Observation(
    sequence: nat,
    finished: map<Key, Mark>,
    workflow: map<WorkflowKey, set<Visit>>)

  type Observations = map<ImageId, Observation>

  // ---------------------------------------------------------------------------------------------
  // What one image contributes
  // ---------------------------------------------------------------------------------------------

  predicate MarkLess(a: Mark, b: Mark) {
    a.timestamp < b.timestamp || (a.timestamp == b.timestamp && a.assignment < b.assignment)
  }

  predicate FinishedReview(a: Assignment) {
    && a.kind == Review
    && (a.status == Completed
        || (a.status == Cancelled
            && (match a.expiresAt case None => true case Some(expiry) => expiry > a.updatedAt)))
  }

  function KeyOf(a: Assignment): Key {
    Key(a.assignedTo, a.task)
  }

  function MarkOf(a: Assignment): Mark {
    Mark(a.updatedAt, a.id)
  }

  predicate Visited(state: ImageState, a: Assignment) {
    && a.id in state.workflowAssignments
    && state.workflowAssignments[a.id].source.None?
    && a.id in state.workflowSeen
  }

  function WorkflowKeyOf(state: ImageState, a: Assignment): WorkflowKey
    requires Visited(state, a)
  {
    WorkflowKey(a.assignedTo, a.task, a.kind == Review, state.workflowAssignments[a.id].variant)
  }

  function VisitOf(state: ImageState, a: Assignment): Visit
    requires Visited(state, a)
  {
    var seen := state.workflowSeen[a.id];
    Visit(seen.timestamp, seen.event, state.image, a.id)
  }

  /** `finished` holds, for every user and task, the newest finished review among `assignments`. */
  ghost predicate NewestFinished(assignments: seq<Assignment>, finished: map<Key, Mark>) {
    && (forall a :: a in assignments && FinishedReview(a) ==>
          KeyOf(a) in finished && !MarkLess(finished[KeyOf(a)], MarkOf(a)))
    && (forall key :: key in finished ==>
          exists a :: a in assignments && FinishedReview(a) && KeyOf(a) == key && MarkOf(a) == finished[key])
  }

  /** `workflow` holds exactly the visits of the seen, unreopened workflow items. */
  ghost predicate SeenVisits(state: ImageState, assignments: seq<Assignment>,
                             workflow: map<WorkflowKey, set<Visit>>)
  {
    && NoEmpty(workflow)
    && (forall a :: a in assignments && Visited(state, a) ==>
          VisitOf(state, a) in At(workflow, WorkflowKeyOf(state, a)))
    && (forall key, visit :: key in workflow && visit in workflow[key] ==>
          exists a :: a in assignments && Visited(state, a)
                      && WorkflowKeyOf(state, a) == key && VisitOf(state, a) == visit)
  }

  method FromState(state: ImageState) returns (o: Observation)
    ensures o.sequence == state.sequence
    ensures NewestFinished(state.assignments, o.finished)
    ensures SeenVisits(state, state.assignments, o.workflow)
    ensures ObservationOk(state.image, o)
  {
    var finished: map<Key, Mark> := map[];
    var workflow: map<WorkflowKey, set<Visit>> := map[];
    for i := 0 to |state.assignments|
      invariant NewestFinished(state.assignments[..i], finished)
      invariant SeenVisits(state, state.assignments[..i], workflow)
    {
      var a := state.assignments[i];
      ghost var before := state.assignments[..i];
      assert state.assignments[..i + 1] == before + [a];
      finished := AddFinished(before, a, finished);
      workflow := AddVisit(state, before, a, workflow);
    }
    assert state.assignments[..|state.assignments|] == state.assignments;
    o := Observation(state.sequence, finished, workflow);
  }

  method AddFinished(ghost before: seq<Assignment>, a: Assignment, finished: map<Key, Mark>)
    returns (result: map<Key, Mark>)
    requires NewestFinished(before, finished)
    ensures NewestFinished(before + [a], result)
  {
    result := finished;
    if FinishedReview(a) {
      var key, mark := KeyOf(a), MarkOf(a);
      if key !in finished || MarkLess(finished[key], mark) {
        result := finished[key := mark];
      }
    }
    forall key | key in result
      ensures exists b :: b in before + [a] && FinishedReview(b) && KeyOf(b) == key && MarkOf(b) == result[key]
    {
      if key in finished && result[key] == finished[key] {
        var b :| b in before && FinishedReview(b) && KeyOf(b) == key && MarkOf(b) == finished[key];
        assert b in before + [a];
      } else {
        assert a in before + [a];
      }
    }
  }

  method AddVisit(state: ImageState, ghost before: seq<Assignment>, a: Assignment,
                  workflow: map<WorkflowKey, set<Visit>>)
    returns (result: map<WorkflowKey, set<Visit>>)
    requires SeenVisits(state, before, workflow)
    ensures SeenVisits(state, before + [a], result)
  {
    result := workflow;
    if Visited(state, a) {
      var key := WorkflowKeyOf(state, a);
      result := workflow[key := At(workflow, key) + {VisitOf(state, a)}];
    }
    forall key, visit | key in result && visit in result[key]
      ensures exists b :: b in before + [a] && Visited(state, b)
                          && WorkflowKeyOf(state, b) == key && VisitOf(state, b) == visit
    {
      if key in workflow && visit in workflow[key] {
        var b :| b in before && Visited(state, b) && WorkflowKeyOf(state, b) == key && VisitOf(state, b) == visit;
        assert b in before + [a];
      } else {
        assert a in before + [a];
      }
    }
  }

  // ---------------------------------------------------------------------------------------------
  // Recomputing from scratch
  // ---------------------------------------------------------------------------------------------

  function At<K(==), V>(m: map<K, set<V>>, key: K): set<V> {
    if key in m then m[key] else {}
  }

  ghost predicate NoEmpty<K(!new), V>(m: map<K, set<V>>) {
    forall key :: key in m ==> m[key] != {}
  }

  ghost predicate ObservationOk(image: ImageId, o: Observation) {
    && NoEmpty(o.workflow)
    && forall key, visit :: key in o.workflow && visit in o.workflow[key] ==> visit.image == image
  }

  ghost predicate ObservationsOk(images: Observations) {
    forall image :: image in images ==> ObservationOk(image, images[image])
  }

  function Own(image: ImageId, finished: map<Key, Mark>, key: Key): set<Entry> {
    if key in finished then {Entry(finished[key].timestamp, image, finished[key].assignment)} else {}
  }

  /** All finished reviews of one user and task, one per image. */
  function Entries(images: Observations, key: Key): set<Entry> {
    set image | image in images && key in images[image].finished ::
      Entry(images[image].finished[key].timestamp, image, images[image].finished[key].assignment)
  }

  function Visits(images: Observations, key: WorkflowKey): set<Visit> {
    set image, visit | image in images && visit in At(images[image].workflow, key) :: visit
  }

  lemma EntriesWithout(images: Observations, image: ImageId, key: Key)
    requires image in images
    ensures Entries(images - {image}, key) == Entries(images, key) - Own(image, images[image].finished, key)
  {
    var rest := images - {image};
    forall e | e in Entries(images, key) && e !in Own(image, images[image].finished, key)
      ensures e in Entries(rest, key)
    {
      assert e.image in images && e.image in rest && rest[e.image] == images[e.image];
    }
    forall e | e in Entries(rest, key)
      ensures e in Entries(images, key) && e !in Own(image, images[image].finished, key)
    {
      assert e.image in rest && e.image in images && rest[e.image] == images[e.image];
    }
  }

  lemma EntriesWith(images: Observations, image: ImageId, o: Observation, key: Key)
    requires image !in images
    ensures Entries(images[image := o], key) == Entries(images, key) + Own(image, o.finished, key)
  {
    var next := images[image := o];
    forall e | e in Own(image, o.finished, key) ensures e in Entries(next, key) {
      assert image in next && key in next[image].finished;
    }
    forall e | e in Entries(images, key) ensures e in Entries(next, key) {
      assert e.image in images && e.image in next && next[e.image] == images[e.image];
    }
  }

  lemma VisitsWithout(images: Observations, image: ImageId, key: WorkflowKey)
    requires image in images && ObservationsOk(images)
    ensures Visits(images - {image}, key) == Visits(images, key) - At(images[image].workflow, key)
  {
    var rest := images - {image};
    forall v | v in Visits(rest, key) ensures v in Visits(images, key) && v !in At(images[image].workflow, key) {
      var home :| home in rest && v in At(rest[home].workflow, key);
      assert home in images && v in At(images[home].workflow, key);
      assert ObservationOk(home, images[home]) && ObservationOk(image, images[image]);
      assert v.image == home;
    }
    forall v | v in Visits(images, key) && v !in At(images[image].workflow, key) ensures v in Visits(rest, key) {
      var home :| home in images && v in At(images[home].workflow, key);
      assert home in rest && v in At(rest[home].workflow, key);
    }
  }

  lemma VisitsWith(images: Observations, image: ImageId, o: Observation, key: WorkflowKey)
    requires image !in images
    ensures Visits(images[image := o], key) == Visits(images, key) + At(o.workflow, key)
  {
    var next := images[image := o];
    forall v | v in Visits(images, key) ensures v in Visits(next, key) {
      var home :| home in images && v in At(images[home].workflow, key);
      assert home in next && v in At(next[home].workflow, key);
    }
    forall v | v in At(o.workflow, key) ensures v in Visits(next, key) {
      assert image in next && v in At(next[image].workflow, key);
    }
  }

  // ---------------------------------------------------------------------------------------------
  // The two newest entries
  // ---------------------------------------------------------------------------------------------

  predicate EntryLess(a: Entry, b: Entry) {
    || a.timestamp < b.timestamp
    || (a.timestamp == b.timestamp && a.image < b.image)
    || (a.timestamp == b.timestamp && a.image == b.image && a.assignment < b.assignment)
  }

  ghost predicate IsNewest(entries: set<Entry>, newest: Option<Entry>) {
    match newest
    case None => entries == {}
    case Some(e) => e in entries && forall other :: other in entries && other != e ==> EntryLess(other, e)
  }

  datatype Latest = Latest(entries: set<Entry>, first: Option<Entry>, second: Option<Entry>)

  ghost predicate LatestOk(latest: Latest) {
    && IsNewest(latest.entries, latest.first)
    && match latest.first
       case None => latest.second.None?
       case Some(e) => IsNewest(latest.entries - {e}, latest.second)
  }

  method Newest(entries: set<Entry>) returns (newest: Option<Entry>)
    ensures IsNewest(entries, newest)
  {
    newest := None;
    var todo := entries;
    ghost var seen: set<Entry> := {};
    while todo != {}
      invariant todo <= entries && seen == entries - todo
      invariant IsNewest(seen, newest)
      decreases todo
    {
      var e :| e in todo;
      todo := todo - {e};
      seen := seen + {e};
      if newest.None? || EntryLess(newest.value, e) {
        newest := Some(e);
      }
    }
    assert seen == entries;
  }

  method Refresh(entries: set<Entry>) returns (latest: Latest)
    ensures latest.entries == entries && LatestOk(latest)
  {
    var first := Newest(entries);
    var second := None;
    if first.Some? {
      second := Newest(entries - {first.value});
    }
    latest := Latest(entries, first, second);
  }

  /** Some image other than `image` finished a review of the same user and task after `after`. */
  ghost predicate LaterElsewhere(images: Observations, key: Key, image: ImageId, after: Timestamp) {
    exists other :: other in images && other != image
                    && key in images[other].finished && images[other].finished[key].timestamp > after
  }

  /** The entry the check compares with: the newest, unless that belongs to `image`. */
  function NewestOther(latest: Latest, image: ImageId): Option<Entry> {
    if latest.first.Some? && latest.first.value.image != image then latest.first else latest.second
  }

  /** The cached pair decides the question a search over every image would: since an image contributes
      at most one entry, the two newest entries are of different images. */
  lemma TopTwoDecide(images: Observations, key: Key, latest: Latest, image: ImageId, after: Timestamp)
    requires LatestOk(latest) && latest.entries == Entries(images, key)
    ensures (NewestOther(latest, image).Some? && NewestOther(latest, image).value.timestamp > after)
            <==> LaterElsewhere(images, key, image, after)
  {
    var best := NewestOther(latest, image);
    if best.Some? && best.value.timestamp > after {
      var e := best.value;
      assert e in latest.entries;
      assert e.image in images && key in images[e.image].finished;
      assert latest.first.Some? && (e == latest.first.value || e != latest.first.value);
    }
    if LaterElsewhere(images, key, image, after) {
      var other :| other in images && other != image
                   && key in images[other].finished && images[other].finished[key].timestamp > after;
      var e := Entry(images[other].finished[key].timestamp, other, images[other].finished[key].assignment);
      assert e in latest.entries;
      if latest.first.value.image == image {
        assert e in latest.entries - {latest.first.value};
      }
    }
  }

  // ---------------------------------------------------------------------------------------------
  // The index
  // ---------------------------------------------------------------------------------------------

  function LatestAt(latest: map<Key, Latest>, key: Key): set<Entry> {
    if key in latest then latest[key].entries else {}
  }

  ghost predicate LatestMapOk(latest: map<Key, Latest>) {
    forall key :: key in latest ==> latest[key].entries != {} && LatestOk(latest[key])
  }

  class Projection {
    var images: Observations
    var latest: map<Key, Latest>
    var workflow: map<WorkflowKey, set<Visit>>

    ghost predicate Valid() reads this {
      && ObservationsOk(images)
      && LatestMapOk(latest) && NoEmpty(workflow)
      && (forall key :: LatestAt(latest, key) == Entries(images, key))
      && (forall key :: At(workflow, key) == Visits(images, key))
    }

    constructor ()
      ensures Valid() && images == map[]
    {
      images, latest, workflow := map[], map[], map[];
      new;
      forall key ensures Entries(images, key) == {} { }
      forall key ensures Visits(images, key) == {} { }
    }

    method Observe(image: ImageId, observation: Observation)
      requires Valid() && ObservationOk(image, observation)
      modifies this
      ensures Valid()
      ensures images == if image in old(images) && old(images)[image].sequence > observation.sequence
                        then old(images) else old(images)[image := observation]
    {
      if image in images && images[image].sequence > observation.sequence {
        return;
      }
      if image in images {
        var previous := images[image];
        workflow := WithdrawVisits(workflow, previous.workflow);
        latest := WithdrawMarks(latest, image, previous.finished);
        forall key ensures LatestAt(latest, key) == Entries(images - {image}, key) {
          EntriesWithout(images, image, key);
        }
        forall key ensures At(workflow, key) == Visits(images - {image}, key) {
          VisitsWithout(images, image, key);
        }
        images := images - {image};
      }
      latest := AddMarks(latest, image, observation.finished);
      workflow := AddVisits(workflow, observation.workflow);
      forall key ensures LatestAt(latest, key) == Entries(images[image := observation], key) {
        EntriesWith(images, image, observation, key);
      }
      forall key ensures At(workflow, key) == Visits(images[image := observation], key) {
        VisitsWith(images, image, observation, key);
      }
      images := images[image := observation];
    }

    method CheckPrevious(source: Assignment) returns (result: CheckResult)
      requires Valid()
      ensures result == CheckAgainst(images, source)
    {
      if source.image !in images {
        return NotInDataset;
      }
      var key := KeyOf(source);
      assert LatestAt(latest, key) == Entries(images, key);
      if key in latest {
        TopTwoDecide(images, key, latest[key], source.image, source.updatedAt);
        var other := NewestOther(latest[key], source.image);
        if other.Some? && other.value.timestamp > source.updatedAt {
          return Superseded;
        }
      } else {
        TopTwoDecide(images, key, Latest({}, None, None), source.image, source.updatedAt);
      }
      result := Passed;
    }

    /** The newest `depth + 1` visits, newest first. */
    method WorkflowHistory(key: WorkflowKey, depth: nat) returns (window: seq<Visit>)
      requires Valid()
      ensures IsWindow(Visits(images, key), depth + 1, window)
    {
      window := NewestVisits(At(workflow, key), depth + 1);
    }
  }

  method WithdrawVisits(workflow: map<WorkflowKey, set<Visit>>, previous: map<WorkflowKey, set<Visit>>)
    returns (result: map<WorkflowKey, set<Visit>>)
    requires NoEmpty(workflow)
    ensures NoEmpty(result)
    ensures forall key :: At(result, key) == At(workflow, key) - At(previous, key)
  {
    result := workflow;
    var todo := previous.Keys;
    while todo != {}
      invariant todo <= previous.Keys
      invariant NoEmpty(result)
      invariant forall key :: At(result, key) == At(workflow, key) - (if key in todo then {} else At(previous, key))
      decreases todo
    {
      var key :| key in todo;
      todo := todo - {key};
      assert At(result, key) == At(workflow, key);
      if key in result {
        var entries := result[key] - previous[key];
        result := if entries == {} then result - {key} else result[key := entries];
      }
    }
  }

  method AddVisits(workflow: map<WorkflowKey, set<Visit>>, added: map<WorkflowKey, set<Visit>>)
    returns (result: map<WorkflowKey, set<Visit>>)
    requires NoEmpty(workflow) && NoEmpty(added)
    ensures NoEmpty(result)
    ensures forall key :: At(result, key) == At(workflow, key) + At(added, key)
  {
    result := workflow;
    var todo := added.Keys;
    while todo != {}
      invariant todo <= added.Keys
      invariant NoEmpty(result)
      invariant forall key :: At(result, key) == At(workflow, key) + (if key in todo then {} else At(added, key))
      decreases todo
    {
      var key :| key in todo;
      todo := todo - {key};
      assert At(result, key) == At(workflow, key);
      result := result[key := At(result, key) + added[key]];
    }
  }

  method WithdrawMarks(latest: map<Key, Latest>, image: ImageId, finished: map<Key, Mark>)
    returns (result: map<Key, Latest>)
    requires LatestMapOk(latest)
    ensures LatestMapOk(result)
    ensures forall key :: LatestAt(result, key) == LatestAt(latest, key) - Own(image, finished, key)
  {
    result := latest;
    var todo := finished.Keys;
    while todo != {}
      invariant todo <= finished.Keys
      invariant LatestMapOk(result)
      invariant forall key ::
                  LatestAt(result, key)
                  == LatestAt(latest, key) - (if key in todo then {} else Own(image, finished, key))
      decreases todo
    {
      var key :| key in todo;
      todo := todo - {key};
      assert LatestAt(result, key) == LatestAt(latest, key);
      if key in result {
        var mark := finished[key];
        var refreshed := Refresh(result[key].entries - {Entry(mark.timestamp, image, mark.assignment)});
        result := if refreshed.entries == {} then result - {key} else result[key := refreshed];
      }
    }
  }

  method AddMarks(latest: map<Key, Latest>, image: ImageId, finished: map<Key, Mark>)
    returns (result: map<Key, Latest>)
    requires LatestMapOk(latest)
    ensures LatestMapOk(result)
    ensures forall key :: LatestAt(result, key) == LatestAt(latest, key) + Own(image, finished, key)
  {
    result := latest;
    var todo := finished.Keys;
    while todo != {}
      invariant todo <= finished.Keys
      invariant LatestMapOk(result)
      invariant forall key ::
                  LatestAt(result, key)
                  == LatestAt(latest, key) + (if key in todo then {} else Own(image, finished, key))
      decreases todo
    {
      var key :| key in todo;
      todo := todo - {key};
      assert LatestAt(result, key) == LatestAt(latest, key);
      var mark := finished[key];
      var refreshed := Refresh(LatestAt(result, key) + {Entry(mark.timestamp, image, mark.assignment)});
      result := result[key := refreshed];
    }
  }

  // ---------------------------------------------------------------------------------------------
  // Answers
  // ---------------------------------------------------------------------------------------------

  datatype CheckResult = Passed | Refreshing | NotInDataset | Superseded

  ghost function CheckAgainst(images: Observations, source: Assignment): CheckResult {
    if source.image !in images then NotInDataset
    else if LaterElsewhere(images, KeyOf(source), source.image, source.updatedAt) then Superseded
    else Passed
  }

  predicate VisitLess(a: Visit, b: Visit) {
    || a.timestamp < b.timestamp
    || (a.timestamp == b.timestamp && a.event < b.event)
    || (a.timestamp == b.timestamp && a.event == b.event && a.image < b.image)
    || (a.timestamp == b.timestamp && a.event == b.event && a.image == b.image && a.assignment < b.assignment)
  }

  /** `window` lists the `size` greatest visits, greatest first. */
  ghost predicate IsWindow(visits: set<Visit>, size: nat, window: seq<Visit>) {
    && (forall j, k :: 0 <= j < k < |window| ==> VisitLess(window[k], window[j]))
    && (forall v :: v in window ==> v in visits)
    && |window| <= size
    && (forall v, k :: v in visits && v !in window && 0 <= k < |window| ==> VisitLess(v, window[k]))
    && ((exists v :: v in visits && v !in window) ==> |window| == size)
  }

  function Newer(visits: set<Visit>, visit: Visit): set<Visit> {
    set v | v in visits && VisitLess(visit, v)
  }

  /** A visit of `source` on `image` has fewer than `size` newer ones beside it. */
  predicate InWindow(visits: set<Visit>, size: nat, image: ImageId, source: AssignmentId) {
    exists visit | visit in visits ::
      visit.image == image && visit.assignment == source && |Newer(visits, visit)| < size
  }

  lemma {:induction false} PrefixAsSet(window: seq<Visit>)
    requires forall j, k :: 0 <= j < k < |window| ==> VisitLess(window[k], window[j])
    ensures |set v | v in window| == |window|
  {
    if window != [] {
      var init, last := window[..|window| - 1], window[|window| - 1];
      PrefixAsSet(init);
      assert window == init + [last];
      assert (set v | v in window) == (set v | v in init) + {last};
    }
  }

  /** Looking an item up in the reported window asks how many newer visits there are. */
  lemma WindowLookup(visits: set<Visit>, size: nat, window: seq<Visit>, image: ImageId, source: AssignmentId)
    requires IsWindow(visits, size, window)
    ensures (exists v :: v in window && v.image == image && v.assignment == source)
            <==> InWindow(visits, size, image, source)
  {
    forall k | 0 <= k < |window| ensures |Newer(visits, window[k])| < size {
      var v := window[k];
      assert Newer(visits, v) == set u | u in window[..k];
      PrefixAsSet(window[..k]);
    }
    forall v | v in visits && v !in window ensures |Newer(visits, v)| >= size {
      PrefixAsSet(window);
      SubsetCardinality((set u | u in window), Newer(visits, v));
    }
  }

  lemma WindowHead(visits: set<Visit>, size: nat, window: seq<Visit>)
    requires IsWindow(visits, size, window) && visits != {} && size > 0
    ensures window != [] && window[0] in visits
    ensures forall v :: v in visits && v != window[0] ==> VisitLess(v, window[0])
    ensures IsWindow(visits - {window[0]}, size - 1, window[1..])
  {
    var some :| some in visits;
    assert window != [];
    var rest := window[1..];
    forall v | v in visits && v != window[0] ensures VisitLess(v, window[0]) {
      if v in window { var k :| 0 <= k < |window| && window[k] == v; }
    }
    assert window == [window[0]] + rest;
    forall v | v in rest ensures v in visits - {window[0]} {
      var k :| 0 <= k < |rest| && rest[k] == v;
      assert VisitLess(window[k + 1], window[0]);
    }
  }

  lemma WindowEmpty(visits: set<Visit>, size: nat, window: seq<Visit>)
    requires IsWindow(visits, size, window) && (visits == {} || size == 0)
    ensures window == []
  {
    FirstListed(window);
  }

  lemma FirstListed(window: seq<Visit>)
    ensures window == [] || window[0] in window
  {
  }

  /** The visits and the size determine the window. */
  lemma {:induction false} WindowUnique(visits: set<Visit>, size: nat, a: seq<Visit>, b: seq<Visit>)
    requires IsWindow(visits, size, a) && IsWindow(visits, size, b)
    ensures a == b
    decreases size
  {
    if visits == {} || size == 0 {
      WindowEmpty(visits, size, a);
      WindowEmpty(visits, size, b);
    } else {
      WindowHead(visits, size, a);
      WindowHead(visits, size, b);
      assert a[0] == b[0];
      WindowUnique(visits - {a[0]}, size - 1, a[1..], b[1..]);
      assert a == [a[0]] + a[1..] && b == [b[0]] + b[1..];
    }
  }

  method NewestVisits(visits: set<Visit>, size: nat) returns (window: seq<Visit>)
    ensures IsWindow(visits, size, window)
  {
    window := [];
    var rest := visits;
    while rest != {} && |window| < size
      invariant rest <= visits
      invariant |window| <= size
      invariant forall v :: v in visits <==> v in rest || v in window
      invariant forall v :: v in window ==> v !in rest
      invariant forall j, k :: 0 <= j < k < |window| ==> VisitLess(window[k], window[j])
      invariant forall v, k :: v in rest && 0 <= k < |window| ==> VisitLess(v, window[k])
      decreases rest
    {
      var top := GreatestVisit(rest);
      rest := rest - {top};
      window := window + [top];
    }
  }

  method GreatestVisit(visits: set<Visit>) returns (top: Visit)
    requires visits != {}
    ensures top in visits && forall v :: v in visits && v != top ==> VisitLess(v, top)
  {
    top :| top in visits;
    var todo := visits - {top};
    while todo != {}
      invariant todo <= visits && top in visits
      invariant forall v :: v in visits && v !in todo && v != top ==> VisitLess(v, top)
      decreases todo
    {
      var v :| v in todo;
      todo := todo - {v};
      if VisitLess(top, v) {
        top := v;
      }
    }
  }

  // ---------------------------------------------------------------------------------------------
  // What the answers mean on replayed states
  // ---------------------------------------------------------------------------------------------

  ghost predicate Observes(state: ImageState, o: Observation) {
    && o.sequence == state.sequence
    && NewestFinished(state.assignments, o.finished)
    && SeenVisits(state, state.assignments, o.workflow)
  }

  /** Every stored observation is that of its image's state. */
  ghost predicate ObservesAll(states: map<ImageId, ImageState>, images: Observations) {
    && images.Keys == states.Keys
    && forall image :: image in images ==> states[image].image == image && Observes(states[image], images[image])
  }

  /** `a` ended a review that supersedes `source`: the same user was done with the same task later, by completing the
      review or by giving it up before it ran out. */
  predicate Supersedes(a: Assignment, source: Assignment) {
    && a.kind == Review && a.assignedTo == source.assignedTo && a.task == source.task
    && (a.status == Completed
        || (a.status == Cancelled && (a.expiresAt.Some? ==> a.updatedAt < a.expiresAt.value)))
    && a.updatedAt > source.updatedAt
  }

  lemma LaterMeans(state: ImageState, o: Observation, source: Assignment)
    requires Observes(state, o)
    ensures KeyOf(source) in o.finished && o.finished[KeyOf(source)].timestamp > source.updatedAt
            <==> exists a :: a in state.assignments && Supersedes(a, source)
  {
    var key := KeyOf(source);
    if key in o.finished && o.finished[key].timestamp > source.updatedAt {
      var a :| a in state.assignments && FinishedReview(a) && KeyOf(a) == key && MarkOf(a) == o.finished[key];
      assert Supersedes(a, source);
    }
    if a :| a in state.assignments && Supersedes(a, source) {
      assert FinishedReview(a) && KeyOf(a) == key && !MarkLess(o.finished[key], MarkOf(a));
    }
  }

  /** The check of a previous review answers from the replayed states: it turns the review away exactly when another
      image has one that supersedes it. */
  lemma PreviousMeans(states: map<ImageId, ImageState>, images: Observations, source: Assignment)
    requires ObservesAll(states, images)
    ensures CheckAgainst(images, source) == NotInDataset <==> source.image !in states
    ensures CheckAgainst(images, source) == Superseded
            <==> source.image in states
                 && exists other, a :: other in states && other != source.image
                                       && a in states[other].assignments && Supersedes(a, source)
  {
    var key := KeyOf(source);
    if LaterElsewhere(images, key, source.image, source.updatedAt) {
      var other :| other in images && other != source.image
                   && key in images[other].finished && images[other].finished[key].timestamp > source.updatedAt;
      LaterMeans(states[other], images[other], source);
    }
    if other, a :| other in states && other != source.image
                   && a in states[other].assignments && Supersedes(a, source) {
      LaterMeans(states[other], images[other], source);
    }
  }

  /** `a` was taken up in the workflow, not to reopen an earlier assignment, and `visit` records that its item was
      seen. */
  predicate VisitBy(state: ImageState, a: Assignment, visit: Visit) {
    && a.id in state.workflowAssignments && state.workflowAssignments[a.id].source == None
    && a.id in state.workflowSeen
    && visit == Visit(state.workflowSeen[a.id].timestamp, state.workflowSeen[a.id].event, state.image, a.id)
  }

  predicate OfWorkflow(state: ImageState, a: Assignment, key: WorkflowKey)
    requires a.id in state.workflowAssignments
  {
    && a.assignedTo == key.user && a.task == key.task
    && (key.review <==> a.kind == Review)
    && state.workflowAssignments[a.id].variant == key.variant
  }

  /** Some image's state records `visit` as a seen item of the workflow. */
  ghost predicate SeenItem(states: map<ImageId, ImageState>, key: WorkflowKey, visit: Visit) {
    exists image, a :: image in states && a in states[image].assignments
                       && VisitBy(states[image], a, visit) && OfWorkflow(states[image], a, key)
  }

  lemma VisitsMean(states: map<ImageId, ImageState>, images: Observations, key: WorkflowKey, visit: Visit)
    requires ObservesAll(states, images)
    ensures visit in Visits(images, key) <==> SeenItem(states, key, visit)
  {
    if visit in Visits(images, key) {
      var image :| image in images && visit in At(images[image].workflow, key);
      var state := states[image];
      var a :| a in state.assignments && Visited(state, a) && WorkflowKeyOf(state, a) == key
               && VisitOf(state, a) == visit;
      assert VisitBy(state, a, visit) && OfWorkflow(state, a, key);
    }
    if image, a :| image in states && a in states[image].assignments
                   && VisitBy(states[image], a, visit) && OfWorkflow(states[image], a, key) {
      assert Visited(states[image], a) && WorkflowKeyOf(states[image], a) == key;
      assert visit in At(images[image].workflow, key);
    }
  }

  /** The reported history of a workflow lists seen items of the replayed states, latest first and at one time the
      greater event first; it misses one only for `depth + 1` others seen no earlier. */
  lemma HistoryMeans(states: map<ImageId, ImageState>, images: Observations, key: WorkflowKey, depth: nat,
                     window: seq<Visit>, visit: Visit)
    requires ObservesAll(states, images) && IsWindow(Visits(images, key), depth + 1, window)
    ensures forall k :: 0 <= k < |window| ==> SeenItem(states, key, window[k])
    ensures forall j, k :: 0 <= j < k < |window| ==>
              && window[k].timestamp <= window[j].timestamp
              && (window[k].timestamp == window[j].timestamp ==> window[k].event <= window[j].event)
    ensures |window| <= depth + 1
    ensures SeenItem(states, key, visit) && visit !in window ==>
              |window| == depth + 1 && forall k :: 0 <= k < |window| ==> visit.timestamp <= window[k].timestamp
  {
    forall k | 0 <= k < |window| ensures SeenItem(states, key, window[k]) {
      assert window[k] in window;
      VisitsMean(states, images, key, window[k]);
    }
    forall j, k | 0 <= j < k < |window| ensures VisitLess(window[k], window[j]) { }
    VisitsMean(states, images, key, visit);
  }

  // ---------------------------------------------------------------------------------------------
  // The cache
  // ---------------------------------------------------------------------------------------------

  datatype History = History(generation: nat, projection: Option<Observations>, pending: Observations)

  function Invalidate(h: History): History {
    History(h.generation + 1, None, map[])
  }

  /** The newer of two observations of one image; at equal sequence the incoming one. */
  function Overlay(images: Observations, image: ImageId, observation: Observation): Observations {
    if image in images && images[image].sequence > observation.sequence then images
    else images[image := observation]
  }

  function Observe(h: History, image: ImageId, observation: Observation): History {
    match h.projection
    case Some(images) =>
      if image in images then h.(projection := Some(Overlay(images, image, observation))) else h
    case None => h.(pending := Overlay(h.pending, image, observation))
  }

  /** The parked observation of a captured image, unless the scan read a later one. */
  function MergedEntry(pending: Observations, captured: set<ImageId>, scanned: Observations, image: ImageId)
    : Observation
    requires image in scanned || (image in pending && image in captured)
  {
    if image in pending && image in captured
       && (image in scanned ==> scanned[image].sequence <= pending[image].sequence)
    then pending[image] else scanned[image]
  }

  function MergePending(pending: Observations, captured: set<ImageId>, scanned: Observations): Observations {
    map image | image in scanned.Keys + (pending.Keys * captured) :: MergedEntry(pending, captured, scanned, image)
  }

  function Publish(h: History, generation: nat, captured: set<ImageId>, scanned: Observations): History {
    if h.generation != generation then h
    else h.(projection := Some(MergePending(h.pending, captured, scanned)), pending := map[])
  }

  class ReviewHistoryCache {
    var generation: nat
    var projection: Projection?
    var pending: Observations

    ghost predicate Valid() reads this, projection {
      (projection != null ==> projection.Valid()) && ObservationsOk(pending)
    }

    ghost function State(): History reads this, projection {
      History(generation, if projection == null then None else Some(projection.images), pending)
    }

    constructor ()
      ensures Valid() && State() == History(0, None, map[])
    {
      generation, projection, pending := 0, null, map[];
    }

    method Drop()
      modifies this
      ensures Valid() && State() == Invalidate(old(State()))
    {
      generation := generation + 1;
      projection, pending := null, map[];
    }

    method ObserveImage(image: ImageId, observation: Observation)
      requires Valid() && ObservationOk(image, observation)
      modifies this, projection
      ensures Valid() && State() == Observe(old(State()), image, observation)
    {
      if projection != null {
        var current := projection;
        if image in current.images {
          current.Observe(image, observation);
        }
      } else if image !in pending || pending[image].sequence <= observation.sequence {
        pending := pending[image := observation];
      }
    }

    method CheckPrevious(source: Assignment) returns (result: CheckResult)
      requires Valid()
      ensures result == match State().projection
                        case None => Refreshing
                        case Some(images) => CheckAgainst(images, source)
    {
      if projection == null {
        return Refreshing;
      }
      result := projection.CheckPrevious(source);
    }

    method WorkflowHistory(key: WorkflowKey, depth: nat) returns (window: Option<seq<Visit>>)
      requires Valid()
      ensures window.Some? <==> State().projection.Some?
      ensures window.Some? ==> IsWindow(Visits(State().projection.value, key), depth + 1, window.value)
    {
      if projection == null {
        return None;
      }
      var visits := projection.WorkflowHistory(key, depth);
      window := Some(visits);
    }

    /** The last critical section of a scan: a scan of an older generation leaves everything alone. */
    method PublishScan(scanGeneration: nat, captured: set<ImageId>, scanned: Observations) returns (done: bool)
      requires Valid() && ObservationsOk(scanned)
      modifies this
      ensures Valid() && State() == Publish(old(State()), scanGeneration, captured, scanned)
      ensures done <==> old(generation) == scanGeneration
    {
      if generation != scanGeneration {
        return false;
      }
      var merged := MergeScanned(pending, captured, scanned);
      MergedOk(pending, captured, scanned);
      pending := map[];
      var rebuilt := BuildProjection(merged);
      projection := rebuilt;
      done := true;
    }
  }

  method MergeScanned(pending: Observations, captured: set<ImageId>, scanned: Observations)
    returns (merged: Observations)
    ensures merged == MergePending(pending, captured, scanned)
  {
    merged := scanned;
    var todo := pending.Keys;
    while todo != {}
      invariant todo <= pending.Keys
      invariant merged.Keys == scanned.Keys + ((pending.Keys - todo) * captured)
      invariant forall image :: image in merged && image in pending.Keys - todo ==>
                  merged[image] == MergedEntry(pending, captured, scanned, image)
      invariant forall image :: image in merged && image !in pending.Keys - todo ==> merged[image] == scanned[image]
      decreases todo
    {
      var image :| image in todo;
      todo := todo - {image};
      var observation := pending[image];
      if image in captured && (image !in merged || merged[image].sequence <= observation.sequence) {
        merged := merged[image := observation];
      }
    }
  }

  lemma MergedOk(pending: Observations, captured: set<ImageId>, scanned: Observations)
    requires ObservationsOk(pending) && ObservationsOk(scanned)
    ensures ObservationsOk(MergePending(pending, captured, scanned))
  {
  }

  method BuildProjection(scanned: Observations) returns (projection: Projection)
    requires ObservationsOk(scanned)
    ensures fresh(projection) && projection.Valid() && projection.images == scanned
  {
    projection := new Projection();
    var todo := scanned.Keys;
    while todo != {}
      invariant fresh(projection) && projection.Valid()
      invariant todo <= scanned.Keys
      invariant projection.images == map image | image in scanned && image !in todo :: scanned[image]
      decreases todo
    {
      var image :| image in todo;
      todo := todo - {image};
      projection.Observe(image, scanned[image]);
    }
  }
}
