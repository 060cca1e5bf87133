/** Sequences of operations on the completion cache, whoever calls them: what one observation does to what is stored,
    and when a scan is installed (crates/labello-storage/src/completion_projection.rs). */
module CompletionOps {
  import opened Domain
  import opened Completion

  // ---- one observation ------------------------------------------------------------------------

  predicate Differ(a: ImageCompletion, b: ImageCompletion) {
    a.annotationCompleted != b.annotationCompleted || a.completed != b.completed || a.reservations != b.reservations
  }

  /** A commit that changed nothing is not looked at. One that did replaces an older entry of a projection, is ignored
      by a newer one, and drops the projection if it contradicts an entry of the same sequence. */
  lemma CommitObserved(c: Cache, image: ImageId, previous: ImageCompletion, next: ImageCompletion)
    requires c.projection.Some? && image in c.projection.value.images
    ensures var images, after := c.projection.value.images, ObserveTransition(c, image, previous, next);
            var stored := images[image];
            && after == c.(projection := after.projection)
            && (after.projection.None?
                <==> Differ(previous, next) && next.sequence == stored.sequence && Differ(next, stored))
            && (after.projection.Some? ==>
                  after.projection.value
                  == View(c.projection.value.generation,
                          if Differ(previous, next) && next.sequence > stored.sequence then images[image := next]
                          else images))
  {
  }

  /** A rebuild replaces an entry of the same sequence and never drops a projection. */
  lemma RebuildObserved(c: Cache, image: ImageId, rebuilt: ImageCompletion)
    requires c.projection.Some? && image in c.projection.value.images
    ensures var images, after := c.projection.value.images, Observe(c, image, rebuilt, true);
            && after == c.(projection := after.projection)
            && after.projection.Some? && after.projection.value.generation == c.projection.value.generation
            && (forall other :: other != image ==>
                  && (other in after.projection.value.images <==> other in images)
                  && (other in images ==> after.projection.value.images[other] == images[other]))
            && image in after.projection.value.images
            && if rebuilt.sequence >= images[image].sequence
               then !Differ(after.projection.value.images[image], rebuilt)
               else after.projection.value.images[image] == images[image]
  {
  }

  // ---- one scan -------------------------------------------------------------------------------

  datatype Op =
    | BeginOp(indexed: set<ImageId>)
    | PublishOp(attempt: nat, generation: nat, scanned: map<ImageId, ImageCompletion>)
    | AbortOp(attempt: nat, generation: nat)
    | ObserveOp(image: ImageId, observation: ImageCompletion, authoritative: bool)
    | MembersOp
    | DropOp

  function Apply(c: Cache, op: Op): Cache {
    match op
    case BeginOp(indexed) => BeginScan(c, indexed)
    case PublishOp(attempt, generation, scanned) => PublishScan(c, attempt, generation, scanned).0
    case AbortOp(attempt, generation) => AbortScan(c, attempt, generation)
    case ObserveOp(image, observation, authoritative) => Observe(c, image, observation, authoritative)
    case MembersOp => InvalidateMembership(c)
    case DropOp => Invalidate(c)
  }

  function ApplyAll(c: Cache, ops: seq<Op>): Cache {
    if ops == [] then c else Apply(ApplyAll(c, ops[..|ops| - 1]), ops[|ops| - 1])
  }

  function Occurrences(ops: seq<Op>, which: Op -> bool): nat {
    if ops == [] then 0
    else Occurrences(ops[..|ops| - 1], which) + if which(ops[|ops| - 1]) then 1 else 0
  }

  /** The generation counts the changes of membership and the attempt number the scans begun; nothing else moves
      them. */
  lemma {:induction false} NumbersCount(c: Cache, ops: seq<Op>)
    ensures ApplyAll(c, ops).generation == c.generation + Occurrences(ops, (op: Op) => op.MembersOp?)
    ensures ApplyAll(c, ops).attempts == c.attempts + Occurrences(ops, (op: Op) => op.BeginOp?)
  {
    if ops != [] { NumbersCount(c, ops[..|ops| - 1]); }
  }

  /** What ends the scan of one attempt. */
  predicate Ends(op: Op, attempt: nat, generation: nat) {
    op.BeginOp? || op.PublishOp? || op.MembersOp? || op.DropOp? || op == AbortOp(attempt, generation)
  }

  /** No observation contradicts another of the same sequence, unless it is authoritative. */
  ghost predicate Agreeing(ops: seq<Op>) {
    forall j, k :: 0 <= j < k < |ops| && ops[j].ObserveOp? && ops[k].ObserveOp? && ops[j].image == ops[k].image
                   && ops[j].observation.sequence == ops[k].observation.sequence ==>
      ops[k].authoritative || !Differ(ops[j].observation, ops[k].observation)
  }

  function Observed(ops: seq<Op>): set<ImageId> {
    set op | op in ops && op.ObserveOp? :: op.image
  }

  ghost predicate Ended(ops: seq<Op>, attempt: nat, generation: nat) {
    exists op :: op in ops && Ends(op, attempt, generation)
  }

  /** Every parked observation is one that was made. */
  ghost predicate Came(ops: seq<Op>, pending: map<ImageId, ImageCompletion>) {
    forall image :: image in pending ==>
      exists op :: op in ops && op.ObserveOp? && op.image == image && op.observation == pending[image]
  }

  /** The scan still runs and has parked what was observed, or it is over for good. */
  ghost predicate ScanStands(c: Cache, ops: seq<Op>, attempt: nat, generation: nat, indexed: set<ImageId>) {
    && attempt <= c.attempts
    && (c.scan.Some? ==> c.scan.value.attempt <= c.attempts)
    && if Ended(ops, attempt, generation) then c.scan.Some? ==> c.scan.value.attempt > attempt
       else
         && c.projection.None? && c.generation == generation && c.scan.Some?
         && c.scan.value == ActiveScan(attempt, generation, indexed, c.scan.value.pending)
         && c.scan.value.pending.Keys == Observed(ops) * indexed
         && Came(ops, c.scan.value.pending)
  }

  lemma EndedAfter(ops: seq<Op>, last: Op, attempt: nat, generation: nat)
    ensures Ended(ops + [last], attempt, generation)
            <==> Ended(ops, attempt, generation) || Ends(last, attempt, generation)
    ensures Observed(ops + [last]) == Observed(ops) + if last.ObserveOp? then {last.image} else {}
  {
    assert last in ops + [last];
    forall op | op in ops ensures op in ops + [last] { }
  }

  lemma ObserveParks(c: Cache, ops: seq<Op>, last: Op, attempt: nat, generation: nat, indexed: set<ImageId>)
    requires ScanStands(c, ops, attempt, generation, indexed) && Agreeing(ops + [last])
    requires !Ended(ops, attempt, generation) && last.ObserveOp?
    ensures var c' := Apply(c, last);
            && c' == c.(scan := c'.scan) && c'.scan.Some?
            && c'.scan.value == c.scan.value.(pending := c'.scan.value.pending)
            && c'.scan.value.pending.Keys == c.scan.value.pending.Keys + ({last.image} * indexed)
            && Came(ops + [last], c'.scan.value.pending)
  {
    var all, pending := ops + [last], c.scan.value.pending;
    assert all[|ops|] == last && last in all;
    if last.image in pending {
      var op :| op in ops && op.ObserveOp? && op.image == last.image && op.observation == pending[last.image];
      var j :| 0 <= j < |ops| && ops[j] == op;
      assert all[j] == op;
    }
    forall image | image in pending
      ensures exists op :: op in all && op.ObserveOp? && op.image == image && op.observation == pending[image]
    {
      var op :| op in ops && op.ObserveOp? && op.image == image && op.observation == pending[image];
      assert op in all;
    }
  }

  lemma OpStands(c: Cache, ops: seq<Op>, last: Op, attempt: nat, generation: nat, indexed: set<ImageId>)
    requires ScanStands(c, ops, attempt, generation, indexed) && Agreeing(ops + [last])
    ensures ScanStands(Apply(c, last), ops + [last], attempt, generation, indexed)
  {
    EndedAfter(ops, last, attempt, generation);
    if Ended(ops, attempt, generation) || Ends(last, attempt, generation) {
    } else if last.ObserveOp? {
      ObserveParks(c, ops, last, attempt, generation, indexed);
    } else {
      assert Apply(c, last) == c;
      forall image | image in c.scan.value.pending
        ensures exists op :: op in ops + [last] && op.ObserveOp? && op.image == image
                             && op.observation == c.scan.value.pending[image]
      {
        var op :| op in ops && op.ObserveOp? && op.image == image && op.observation == c.scan.value.pending[image];
        assert op in ops + [last];
      }
    }
  }

  lemma {:induction false} ScanRuns(c: Cache, indexed: set<ImageId>, ops: seq<Op>)
    requires Agreeing(ops) && c.projection.None?
    ensures var begun := BeginScan(c, indexed);
            ScanStands(ApplyAll(begun, ops), ops, begun.attempts, begun.generation, indexed)
  {
    var begun := BeginScan(c, indexed);
    if ops != [] {
      var init, last := ops[..|ops| - 1], ops[|ops| - 1];
      assert ops == init + [last];
      ScanRuns(c, indexed, init);
      OpStands(ApplyAll(begun, init), init, last, begun.attempts, begun.generation, indexed);
    }
  }

  /** A scan is installed exactly when nothing ended it since it began - a later scan, a publication of any attempt, an
      invalidation or an abort of its own - and the images it read, with those observed meanwhile, are the ones it
      captured. An abort of another attempt leaves it alone. */
  lemma PublishInstallsExactly(c: Cache, indexed: set<ImageId>, ops: seq<Op>, scanned: map<ImageId, ImageCompletion>)
    requires Agreeing(ops) && c.projection.None?
    ensures var begun := BeginScan(c, indexed);
            PublishScan(ApplyAll(begun, ops), begun.attempts, begun.generation, scanned).1
            <==> && (forall op :: op in ops ==> !Ends(op, begun.attempts, begun.generation))
                 && scanned.Keys + (Observed(ops) * indexed) == indexed
  {
    ScanRuns(c, indexed, ops);
    var begun := BeginScan(c, indexed);
    var after := ApplyAll(begun, ops);
    if !Ended(ops, begun.attempts, begun.generation) {
      var scan := after.scan.value;
      assert Merge(scan, scanned).Keys == scanned.Keys + (scan.pending.Keys * scan.indexed);
      assert Observed(ops) * indexed * indexed == Observed(ops) * indexed;
    }
  }
}
