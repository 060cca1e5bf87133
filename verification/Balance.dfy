/** Balance gating between the enabled tasks of a dataset (crates/labello-domain/src/dataset.rs).

    A task whose count runs too far ahead of its least advanced enabled peer is blocked. `RunKeepsSpread` and
    `SpreadBoundReached` say how far the counts can drift apart over any run of gated completions. */
module Balance {
  import opened Domain

  type Counts = map<TaskId, nat>

  function CountOf(counts: Counts, task: TaskId): nat {
    if task in counts then counts[task] else 0
  }

  /** Subtraction that stops at zero. */
  function Excess(selected: nat, minimum: nat): nat {
    if selected >= minimum then selected - minimum else 0
  }

  predicate BlocksCount(maxDifference: nat, selected: nat, minimumPeer: nat) {
    Excess(selected, minimumPeer) > maxDifference
  }

  // ---- what blocking means ------------------------------------------------------------------

  /** A task is blocked when it is ahead of some other enabled task by more than the allowed difference. */
  ghost predicate Blocked(enabled: seq<TaskId>, counts: Counts, maxDifference: nat, task: TaskId) {
    && task in enabled
    && exists peer :: peer in enabled && peer != task && CountOf(counts, task) > CountOf(counts, peer) + maxDifference
  }

  ghost predicate HasPeer(enabled: seq<TaskId>, task: TaskId) {
    exists peer :: peer in enabled && peer != task
  }

  ghost predicate IsMinimumPeer(enabled: seq<TaskId>, counts: Counts, task: TaskId, minimum: nat) {
    && (exists peer :: peer in enabled && peer != task && CountOf(counts, peer) == minimum)
    && forall peer :: peer in enabled && peer != task ==> minimum <= CountOf(counts, peer)
  }

  /** The least count among the other enabled tasks, if there are any. */
  method MinimumPeer(enabled: seq<TaskId>, counts: Counts, task: TaskId) returns (minimum: Option<nat>)
    ensures minimum.None? <==> !HasPeer(enabled, task)
    ensures minimum.Some? ==> IsMinimumPeer(enabled, counts, task, minimum.value)
  {
    minimum := None;
    for i := 0 to |enabled|
      invariant minimum.None? ==> forall k :: 0 <= k < i ==> enabled[k] == task
      invariant minimum.Some? ==>
                  && (exists peer :: peer in enabled && peer != task && CountOf(counts, peer) == minimum.value)
                  && forall k :: 0 <= k < i && enabled[k] != task ==> minimum.value <= CountOf(counts, enabled[k])
    {
      if enabled[i] != task && (minimum.None? || CountOf(counts, enabled[i]) < minimum.value) {
        minimum := Some(CountOf(counts, enabled[i]));
      }
    }
  }

  datatype Outcome = Tasks(blocked: set<TaskId>) | NoPeer

  /** The blocked tasks. The missing-peer panic happens exactly when one task is listed twice and no other is
      enabled. */
  method BlockedTasks(enabled: seq<TaskId>, counts: Counts, maxDifference: nat) returns (outcome: Outcome)
    ensures outcome.NoPeer? <==> |enabled| >= 2 && forall i :: 0 <= i < |enabled| ==> enabled[i] == enabled[0]
    ensures outcome.Tasks? ==> forall task :: task in outcome.blocked <==> Blocked(enabled, counts, maxDifference, task)
  {
    if |enabled| < 2 {
      return Tasks({});
    }
    var blocked: set<TaskId> := {};
    for i := 0 to |enabled|
      invariant i > 0 ==> HasPeer(enabled, enabled[0])
      invariant forall task :: task in blocked <==>
                  task in enabled[..i] && Blocked(enabled, counts, maxDifference, task)
    {
      var minimum := MinimumPeer(enabled, counts, enabled[i]);
      if minimum.None? {
        assert forall k :: 0 <= k < |enabled| ==> enabled[k] in enabled;
        return NoPeer;
      }
      BlockedByMinimum(enabled, counts, maxDifference, enabled[i], minimum.value);
      if BlocksCount(maxDifference, CountOf(counts, enabled[i]), minimum.value) {
        blocked := blocked + {enabled[i]};
      }
    }
    assert enabled[..|enabled|] == enabled;
    outcome := Tasks(blocked);
  }

  lemma BlockedByMinimum(enabled: seq<TaskId>, counts: Counts, maxDifference: nat, task: TaskId, minimum: nat)
    requires task in enabled && IsMinimumPeer(enabled, counts, task, minimum)
    ensures Blocked(enabled, counts, maxDifference, task) <==>
              BlocksCount(maxDifference, CountOf(counts, task), minimum)
  {
  }

  // ---- runs ---------------------------------------------------------------------------------

  /** A task with the least count is never blocked, so work can always go on. */
  lemma LeastNeverBlocked(enabled: seq<TaskId>, counts: Counts, maxDifference: nat, task: TaskId)
    requires task in enabled
    requires forall peer :: peer in enabled ==> CountOf(counts, task) <= CountOf(counts, peer)
    ensures !Blocked(enabled, counts, maxDifference, task)
  {
  }

  lemma {:induction false} LeastExists(enabled: seq<TaskId>, counts: Counts) returns (task: TaskId)
    requires enabled != []
    ensures task in enabled && forall peer :: peer in enabled ==> CountOf(counts, task) <= CountOf(counts, peer)
  {
    task := enabled[0];
    if |enabled| > 1 {
      var rest := LeastExists(enabled[1..], counts);
      if CountOf(counts, rest) < CountOf(counts, task) { task := rest; }
      assert enabled == [enabled[0]] + enabled[1..];
    }
  }

  /** Some enabled task is always free to be worked on. */
  lemma SomeTaskFree(enabled: seq<TaskId>, counts: Counts, maxDifference: nat)
    requires enabled != []
    ensures exists task :: task in enabled && !Blocked(enabled, counts, maxDifference, task)
  {
    var task := LeastExists(enabled, counts);
    LeastNeverBlocked(enabled, counts, maxDifference, task);
  }

  /** No enabled task is ahead of another by more than `bound`. */
  ghost predicate SpreadWithin(enabled: seq<TaskId>, counts: Counts, bound: nat) {
    forall a, b :: a in enabled && b in enabled ==> CountOf(counts, a) <= CountOf(counts, b) + bound
  }

  function Complete(counts: Counts, task: TaskId): Counts {
    counts[task := CountOf(counts, task) + 1]
  }

  ghost function Run(counts: Counts, completed: seq<TaskId>): Counts {
    if completed == [] then counts
    else Complete(Run(counts, completed[..|completed| - 1]), completed[|completed| - 1])
  }

  /** Every completion is of an enabled task that is not blocked at that moment. */
  ghost predicate Respects(enabled: seq<TaskId>, counts: Counts, maxDifference: nat, completed: seq<TaskId>) {
    completed != [] ==>
      var init, last := completed[..|completed| - 1], completed[|completed| - 1];
      && Respects(enabled, counts, maxDifference, init)
      && last in enabled && !Blocked(enabled, Run(counts, init), maxDifference, last)
  }

  /** A gated run keeps every spread bound from one above the allowed difference upwards. */
  lemma {:induction false} RunKeepsSpread(enabled: seq<TaskId>, counts: Counts, maxDifference: nat,
                                          completed: seq<TaskId>, bound: nat)
    requires Respects(enabled, counts, maxDifference, completed)
    requires bound > maxDifference && SpreadWithin(enabled, counts, bound)
    ensures SpreadWithin(enabled, Run(counts, completed), bound)
  {
    if completed != [] {
      var init, last := completed[..|completed| - 1], completed[|completed| - 1];
      RunKeepsSpread(enabled, counts, maxDifference, init, bound);
      var before, after := Run(counts, init), Run(counts, completed);
      forall a, b | a in enabled && b in enabled ensures CountOf(after, a) <= CountOf(after, b) + bound {
        if a == last && b != last {
          assert CountOf(before, last) <= CountOf(before, b) + maxDifference;
        }
      }
    }
  }

  lemma RunNext(enabled: seq<TaskId>, counts: Counts, maxDifference: nat, completed: seq<TaskId>, task: TaskId)
    ensures Run(counts, completed + [task]) == Complete(Run(counts, completed), task)
    ensures Respects(enabled, counts, maxDifference, completed + [task]) <==>
              && Respects(enabled, counts, maxDifference, completed)
              && task in enabled && !Blocked(enabled, Run(counts, completed), maxDifference, task)
  {
    assert (completed + [task])[..|completed|] == completed;
  }

  /** Gating stops a spread at exactly one above the allowed difference: a level pair of tasks reaches it by
      completing one of them, and there that task is blocked. */
  lemma {:induction false} SpreadBoundReached(enabled: seq<TaskId>, a: TaskId, b: TaskId, maxDifference: nat,
                                              ahead: nat)
    returns (completed: seq<TaskId>)
    requires a != b && (forall task :: task in enabled <==> task == a || task == b)
    requires ahead <= maxDifference + 1
    ensures Respects(enabled, map[], maxDifference, completed)
    ensures CountOf(Run(map[], completed), a) == ahead && CountOf(Run(map[], completed), b) == 0
    ensures Blocked(enabled, Run(map[], completed), maxDifference, a) <==> ahead == maxDifference + 1
  {
    if ahead == 0 {
      completed := [];
    } else {
      var before := SpreadBoundReached(enabled, a, b, maxDifference, ahead - 1);
      RunNext(enabled, map[], maxDifference, before, a);
      completed := before + [a];
      assert b in enabled;
    }
  }
}
