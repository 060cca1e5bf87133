/** The shared domain values: identifiers, assignments and the replayed state of one image.
    Identifiers are opaque tokens with a total order; every uniqueness assumption about them
    is stated where it is used. */
module Domain {
  type ImageId = nat
  type TaskId = nat
  type UserId = nat
  type AssignmentId = nat
  type EventId = nat
  type Timestamp = nat

  datatype Option<+T> = None | Some(value: T)

  datatype AssignmentKind = Annotation | Review | LegacyAdjudication

  datatype AssignmentStatus = Active | Submitted | Completed | Cancelled

  datatype TaskStatus =
    | TaskPending
    | TaskInProgress
    | TaskSubmitted
    | TaskCompleted
    | TaskNeedsCorrection
    | TaskLegacyAdjudicationRequired

  datatype Assignment = Assignment(
    id: AssignmentId,
    image: ImageId,
    task: TaskId,
    assignedTo: UserId,
    kind: AssignmentKind,
    status: AssignmentStatus,
    expiresAt: Option<Timestamp>,
    createdAt: Timestamp,
    updatedAt: Timestamp)

  /** The lease of an assignment that records no expiry, in seconds. */
  const LEASE_SECONDS: nat := 1800

  function LeaseEnd(assignment: Assignment): Timestamp {
    match assignment.expiresAt
    case Some(expiry) => expiry
    case None => assignment.updatedAt + LEASE_SECONDS
  }

  predicate Expired(assignment: Assignment, now: Timestamp) {
    LeaseEnd(assignment) <= now
  }

  datatype WorkflowVariant = Objects | Overview

  datatype WorkflowContext = WorkflowContext(variant: WorkflowVariant, source: Option<AssignmentId>)

  datatype WorkflowSeen = WorkflowSeen(timestamp: Timestamp, event: EventId)

  /** What replaying one image's event log yields, restricted to the fields the two caches read. */
  datatype ImageState = ImageState(
    image: ImageId,
    sequence: nat,
    taskStates: map<TaskId, TaskStatus>,
    excludedImports: set<TaskId>,
    includedImports: set<TaskId>,
    assignments: seq<Assignment>,
    workflowAssignments: map<AssignmentId, WorkflowContext>,
    workflowSeen: map<AssignmentId, WorkflowSeen>)
  {
    predicate IncludedInDenominator(task: TaskId) {
      task !in excludedImports || task in includedImports
    }

    predicate AssignmentEligible(task: TaskId) {
      && IncludedInDenominator(task)
      && (task in taskStates ==>
            taskStates[task] in {TaskPending, TaskInProgress, TaskNeedsCorrection})
    }

    /** Assignments belong to the image whose log records them, and no id occurs twice. */
    ghost predicate OwnsItsAssignments() {
      && (forall a :: a in assignments ==> a.image == image)
      && (forall j, k :: 0 <= j < k < |assignments| ==> assignments[j].id != assignments[k].id)
    }
  }

  lemma {:induction false} SubsetCardinality<T>(a: set<T>, b: set<T>)
    requires a <= b
    ensures |a| <= |b|
    decreases a
  {
    if a != {} {
      var x :| x in a;
      SubsetCardinality(a - {x}, b - {x});
    }
  }
}
