/** Sequences of operations on the review history cache: which of several observations of an image is kept, and what a
    scan installs (crates/labello-storage/src/review_history.rs). */
module HistoryOps {
  import opened Domain
  import opened ReviewHistory

  function ObserveEach(h: History, image: ImageId, observations: seq<Observation>): History {
    if observations == [] then h
    else
      var last := |observations| - 1;
      Observe(ObserveEach(h, image, observations[..last]), image, observations[last])
  }

  /** `kept` is the last of those with the greatest sequence number. */
  ghost predicate LastGreatest(observations: seq<Observation>, kept: Observation) {
    exists i :: 0 <= i < |observations| && observations[i] == kept
                && (forall j :: 0 <= j < |observations| ==> observations[j].sequence <= kept.sequence)
                && (forall j :: i < j < |observations| ==> observations[j].sequence < kept.sequence)
  }

  lemma KeepsLastGreatest(observations: seq<Observation>, kept: Observation, next: Observation)
    requires LastGreatest(observations, kept)
    ensures LastGreatest(observations + [next], if kept.sequence > next.sequence then kept else next)
  {
    var all := observations + [next];
    var i :| 0 <= i < |observations| && observations[i] == kept
             && (forall j :: 0 <= j < |observations| ==> observations[j].sequence <= kept.sequence)
             && (forall j :: i < j < |observations| ==> observations[j].sequence < kept.sequence);
    assert all[i] == kept && all[|observations|] == next;
    forall j | 0 <= j < |observations| ensures all[j].sequence <= kept.sequence { assert all[j] == observations[j]; }
  }

  /** A projection keeps of each member the last observation with the greatest sequence, the stored one being the
      first; it takes in no others, and leaves everything else alone. */
  lemma {:induction false} ProjectionKeeps(h: History, image: ImageId, observations: seq<Observation>)
    requires h.projection.Some?
    ensures var images, after := h.projection.value, ObserveEach(h, image, observations);
            && after.projection.Some? && after == h.(projection := after.projection)
            && if image !in images then after == h
               else
                 && image in after.projection.value
                 && after.projection.value == images[image := after.projection.value[image]]
                 && LastGreatest([images[image]] + observations, after.projection.value[image])
  {
    var images := h.projection.value;
    if observations == [] {
      if image in images {
        assert ([images[image]] + observations)[0] == images[image];
        assert images == images[image := images[image]];
      }
    } else {
      var init, next := observations[..|observations| - 1], observations[|observations| - 1];
      ProjectionKeeps(h, image, init);
      if image in images {
        var before, whole := ObserveEach(h, image, init).projection.value, [images[image]] + init;
        KeepsLastGreatest(whole, before[image], next);
        assert whole + [next] == [images[image]] + observations;
        assert ObserveEach(h, image, observations).projection.value == Overlay(before, image, next);
      }
    }
  }

  /** Without a projection the last observation with the greatest sequence is parked, whatever image it is of. */
  lemma {:induction false} ParkingKeeps(h: History, image: ImageId, observations: seq<Observation>)
    requires h.projection.None? && image !in h.pending && observations != []
    ensures var after := ObserveEach(h, image, observations);
            && image in after.pending && LastGreatest(observations, after.pending[image])
            && after == h.(pending := h.pending[image := after.pending[image]])
  {
    var init, next := observations[..|observations| - 1], observations[|observations| - 1];
    assert observations == init + [next];
    if init == [] {
      assert observations[0] == next;
    } else {
      ParkingKeeps(h, image, init);
      KeepsLastGreatest(init, ObserveEach(h, image, init).pending[image], next);
    }
  }

  /** A scan of the current generation installs, for each image it captured and read, what it read or what was parked
      since, whichever has the greater sequence, and at equal sequence what was parked; nothing stays parked. A scan of
      another generation changes nothing. */
  lemma PublishInstalls(h: History, generation: nat, captured: set<ImageId>, scanned: Observations, image: ImageId)
    requires scanned.Keys == captured
    ensures var after := Publish(h, generation, captured, scanned);
            if generation != h.generation then after == h
            else
              && after == History(h.generation, after.projection, map[])
              && after.projection.Some? && after.projection.value.Keys == captured
              && (image in captured ==>
                    LastGreatest([scanned[image]] + if image in h.pending then [h.pending[image]] else [],
                                 after.projection.value[image]))
  {
    if image in captured {
      assert [scanned[image]][0] == scanned[image];
      assert LastGreatest([scanned[image]], scanned[image]);
      assert [scanned[image]] + [] == [scanned[image]];
      if image in h.pending { KeepsLastGreatest([scanned[image]], scanned[image], h.pending[image]); }
    }
  }
}
