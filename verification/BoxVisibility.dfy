/** Greedy suppression of overlapping boxes for presentation
    (crates/labello-domain/src/box_visibility.rs).

    `ExclusionsUnique` is the independent definition of the result: which boxes are hidden, and by which box,
    depends on the boxes and the overlap relation alone. */
module BoxVisibility {
  import opened Domain
  import opened Geometry

  type AnnotationId = nat
  type ClassId = nat

  datatype Shape = Box(bounds: BoundingBox) | Other

  /** `rank` is the review rank the caller's image state gives this annotation. */
  datatype Annotation = Annotation(id: AnnotationId, class_: ClassId, deleted: bool, rank: nat, shape: Shape)

  datatype Outcome = InvalidThreshold | Excluded(winners: map<AnnotationId, AnnotationId>)

  predicate IsCandidate(a: Annotation) {
    !a.deleted && a.shape.Box?
  }

  /** Higher review ranks come first; equal ranks are ordered by id. */
  predicate Precedes(a: Annotation, b: Annotation) {
    a.rank > b.rank || (a.rank == b.rank && a.id < b.id)
  }

  predicate Overlaps(threshold: real, a: Annotation, b: Annotation) {
    && IsCandidate(a) && IsCandidate(b)
    && a.shape.bounds.Iou(b.shape.bounds) > threshold
  }

  /** The overlap test as a relation: the greedy pass needs nothing else about geometry. */
  type Relation = (Annotation, Annotation) -> bool

  function Above(threshold: real): Relation {
    (a, b) => Overlaps(threshold, a, b)
  }

  // ---- what an exclusion map is -------------------------------------------------------------

  /** `winner` is kept, ranked before `a`, of its class, and overlaps it too much. */
  ghost predicate Excludes(overlap: Relation, m: map<AnnotationId, AnnotationId>, winner: Annotation, a: Annotation) {
    winner.id !in m && Precedes(winner, a) && winner.class_ == a.class_ && overlap(a, winner)
  }

  ghost function Excluders(overlap: Relation, boxes: set<Annotation>, m: map<AnnotationId, AnnotationId>,
                           a: Annotation): set<Annotation>
  {
    set b | b in boxes && Excludes(overlap, m, b, a)
  }

  ghost predicate IsFirst(boxes: set<Annotation>, first: Annotation) {
    first in boxes && forall b :: b in boxes ==> b == first || Precedes(first, b)
  }

  ghost predicate Decided(overlap: Relation, boxes: set<Annotation>, m: map<AnnotationId, AnnotationId>,
                          a: Annotation)
  {
    var excluders := Excluders(overlap, boxes, m, a);
    if a.id in m then exists first :: IsFirst(excluders, first) && m[a.id] == first.id else excluders == {}
  }

  /** `m` sends exactly the boxes that some kept, earlier box excludes to the earliest such box. */
  ghost predicate IsExclusions(overlap: Relation, boxes: set<Annotation>, m: map<AnnotationId, AnnotationId>) {
    && (forall id :: id in m ==> exists a :: a in boxes && a.id == id)
    && (forall a :: a in boxes ==> Decided(overlap, boxes, m, a))
  }

  ghost predicate UniqueIds(boxes: set<Annotation>) {
    forall a, b :: a in boxes && b in boxes && a.id == b.id ==> a == b
  }

  ghost function Earlier(boxes: set<Annotation>, a: Annotation): set<Annotation> {
    set b | b in boxes && Precedes(b, a)
  }

  lemma EarlierShrinks(boxes: set<Annotation>, b: Annotation, a: Annotation)
    requires b in boxes && Precedes(b, a)
    ensures |Earlier(boxes, b)| < |Earlier(boxes, a)|
  {
    assert Earlier(boxes, b) <= Earlier(boxes, a) - {b};
    SubsetCardinality(Earlier(boxes, b), Earlier(boxes, a) - {b});
  }

  lemma {:induction false} Agree(overlap: Relation, boxes: set<Annotation>, m: map<AnnotationId, AnnotationId>,
                                 n: map<AnnotationId, AnnotationId>, a: Annotation)
    requires a in boxes && IsExclusions(overlap, boxes, m) && IsExclusions(overlap, boxes, n)
    ensures a.id in m <==> a.id in n
    ensures a.id in m ==> m[a.id] == n[a.id]
    decreases |Earlier(boxes, a)|
  {
    forall b | b in boxes && Precedes(b, a) ensures b.id in m <==> b.id in n {
      EarlierShrinks(boxes, b, a);
      Agree(overlap, boxes, m, n, b);
    }
    assert Excluders(overlap, boxes, m, a) == Excluders(overlap, boxes, n, a);
    SameExcludersAgree(overlap, boxes, m, n, a);
  }

  lemma SameExcludersAgree(overlap: Relation, boxes: set<Annotation>, m: map<AnnotationId, AnnotationId>,
                           n: map<AnnotationId, AnnotationId>, a: Annotation)
    requires Decided(overlap, boxes, m, a) && Decided(overlap, boxes, n, a)
    requires Excluders(overlap, boxes, m, a) == Excluders(overlap, boxes, n, a)
    ensures a.id in m <==> a.id in n
    ensures a.id in m ==> m[a.id] == n[a.id]
  {
    var excluders := Excluders(overlap, boxes, m, a);
    if a.id in m && a.id in n {
      var v :| IsFirst(excluders, v) && m[a.id] == v.id;
      var w :| IsFirst(excluders, w) && n[a.id] == w.id;
    }
  }

  /** With unique ids the boxes alone determine the map, so no order of the input matters. */
  lemma ExclusionsUnique(overlap: Relation, boxes: set<Annotation>, m: map<AnnotationId, AnnotationId>,
                         n: map<AnnotationId, AnnotationId>)
    requires IsExclusions(overlap, boxes, m) && IsExclusions(overlap, boxes, n)
    ensures m == n
  {
    forall id | id in m || id in n ensures id in m && id in n && m[id] == n[id] {
      var a :| a in boxes && a.id == id;
      Agree(overlap, boxes, m, n, a);
    }
    assert m.Keys == n.Keys;
  }

  /** Every permutation of the input has the same exclusion map. */
  lemma PermutationIndependent(overlap: Relation, s: seq<Annotation>, t: seq<Annotation>,
                               m: map<AnnotationId, AnnotationId>, n: map<AnnotationId, AnnotationId>)
    requires multiset(s) == multiset(t)
    requires IsExclusions(overlap, CandidatesOf(s), m) && IsExclusions(overlap, CandidatesOf(t), n)
    ensures m == n
  {
    forall a ensures a in s <==> a in t {
      assert a in multiset(s) <==> a in multiset(t);
    }
    assert CandidatesOf(s) == CandidatesOf(t);
    ExclusionsUnique(overlap, CandidatesOf(s), m, n);
  }

  /** No two kept boxes of a class overlap above the threshold. */
  lemma KeptBoxesApart(threshold: real, boxes: set<Annotation>, m: map<AnnotationId, AnnotationId>,
                       a: Annotation, b: Annotation)
    requires IsExclusions(Above(threshold), boxes, m) && a in boxes && b in boxes && a.id != b.id
    requires a.id !in m && b.id !in m && a.class_ == b.class_
    ensures !Overlaps(threshold, a, b)
  {
    var overlap := Above(threshold);
    assert Decided(overlap, boxes, m, a) && Decided(overlap, boxes, m, b);
    assert b !in Excluders(overlap, boxes, m, a) && a !in Excluders(overlap, boxes, m, b);
    OverlapsSymmetric(threshold, a, b);
  }

  lemma OverlapsSymmetric(threshold: real, a: Annotation, b: Annotation)
    ensures Overlaps(threshold, a, b) <==> Overlaps(threshold, b, a)
    ensures Overlaps(threshold, a, b) ==> threshold < 1.0
  {
    if IsCandidate(a) && IsCandidate(b) { IouBounded(a.shape.bounds, b.shape.bounds); }
  }

  /** Every excluded box is sent to a kept, earlier-ranked box of its class that overlaps it above the threshold. */
  lemma WinnerIsKept(overlap: Relation, boxes: set<Annotation>, m: map<AnnotationId, AnnotationId>, a: Annotation)
    returns (winner: Annotation)
    requires IsExclusions(overlap, boxes, m) && a in boxes && a.id in m
    ensures winner in boxes && winner.id == m[a.id] && winner.id !in m
    ensures Precedes(winner, a) && winner.class_ == a.class_ && overlap(a, winner)
  {
    assert Decided(overlap, boxes, m, a);
    winner :| IsFirst(Excluders(overlap, boxes, m, a), winner) && m[a.id] == winner.id;
  }

  /** `winner` hides `a`: both are boxes that stand, of one class, the winner is ranked higher or equal with the smaller
      id, and they overlap by more than the threshold. */
  predicate Hides(threshold: real, winner: Annotation, a: Annotation) {
    && !a.deleted && !winner.deleted && a.shape.Box? && winner.shape.Box? && winner.class_ == a.class_
    && (if winner.rank == a.rank then winner.id < a.id else winner.rank > a.rank)
    && a.shape.bounds.Iou(winner.shape.bounds) > threshold
  }

  /** An annotation is hidden exactly when some annotation that is not hidden hides it, and then the map names the
      first of those: no other is ranked above it, and none of its rank has a smaller id. */
  lemma HiddenExactly(threshold: real, annotations: seq<Annotation>, m: map<AnnotationId, AnnotationId>, a: Annotation)
    requires DistinctIds(annotations) && IsExclusions(Above(threshold), CandidatesOf(annotations), m)
    requires a in annotations
    ensures a.id in m <==> exists w :: w in annotations && w.id !in m && Hides(threshold, w, a)
    ensures a.id in m ==>
              exists w :: && w in annotations && w.id == m[a.id] && w.id !in m && Hides(threshold, w, a)
                          && forall v :: v in annotations && v.id !in m && Hides(threshold, v, a) ==>
                               v.rank < w.rank || (v.rank == w.rank && w.id <= v.id)
  {
    var overlap, boxes := Above(threshold), CandidatesOf(annotations);
    forall w | w in annotations && w.id !in m
      ensures Hides(threshold, w, a) <==> IsCandidate(a) && w in Excluders(overlap, boxes, m, a)
    {
    }
    if a in boxes {
      assert Decided(overlap, boxes, m, a);
      if a.id in m {
        var w :| IsFirst(Excluders(overlap, boxes, m, a), w) && m[a.id] == w.id;
        assert w in annotations && Hides(threshold, w, a);
      }
    } else if a.id in m {
      NotAnother(annotations, a);
    }
  }

  /** An id belongs to one annotation only. */
  lemma NotAnother(annotations: seq<Annotation>, a: Annotation)
    requires DistinctIds(annotations) && a in annotations
    ensures forall b :: b in annotations && b.id == a.id ==> b == a
  {
  }

  /** Deleting an excluded box changes no other decision. */
  lemma DeletingExcludedChangesNothing(overlap: Relation, boxes: set<Annotation>,
                                       m: map<AnnotationId, AnnotationId>, a: Annotation)
    requires UniqueIds(boxes) && IsExclusions(overlap, boxes, m) && a in boxes && a.id in m
    ensures IsExclusions(overlap, boxes - {a}, m - {a.id})
  {
    var rest, n := boxes - {a}, m - {a.id};
    forall b | b in rest ensures Decided(overlap, rest, n, b) {
      assert Decided(overlap, boxes, m, b) && b.id != a.id;
      assert Excluders(overlap, rest, n, b) == Excluders(overlap, boxes, m, b);
    }
    forall id | id in n ensures exists b :: b in rest && b.id == id {
      var b :| b in boxes && b.id == id;
      assert b in rest;
    }
  }

  /** A threshold of 1 excludes nothing, because no overlap exceeds 1. */
  lemma FullThresholdExcludesNothing(threshold: real, boxes: set<Annotation>, m: map<AnnotationId, AnnotationId>)
    requires threshold >= 1.0 && IsExclusions(Above(threshold), boxes, m)
    ensures m == map[]
  {
    if id :| id in m {
      var a :| a in boxes && a.id == id;
      var winner := WinnerIsKept(Above(threshold), boxes, m, a);
      OverlapsSymmetric(threshold, a, winner);
    }
  }

  // ---- the greedy pass ----------------------------------------------------------------------

  ghost predicate InRankOrder(s: seq<Annotation>) {
    forall i, j :: 0 <= i < j < |s| ==> Precedes(s[i], s[j])
  }

  ghost predicate DistinctIds(s: seq<Annotation>) {
    forall i, j :: 0 <= i < j < |s| ==> s[i].id != s[j].id
  }

  ghost function Members(s: seq<Annotation>): set<Annotation> {
    set a | a in s
  }

  ghost function CandidatesOf(annotations: seq<Annotation>): set<Annotation> {
    set a | a in annotations && IsCandidate(a)
  }

  /** Inserts `a` before the first element it precedes. */
  function Insert(a: Annotation, s: seq<Annotation>): (r: seq<Annotation>)
    requires InRankOrder(s) && forall b :: b in s ==> b.id != a.id
    ensures InRankOrder(r)
    ensures forall b :: b in r <==> b == a || b in s
  {
    if s == [] then [a]
    else if Precedes(a, s[0]) then [a] + s
    else
      assert Precedes(s[0], a);
      var rest := Insert(a, s[1..]);
      assert forall k :: 0 <= k < |rest| ==> rest[k] in rest;
      assert forall k :: 0 < k < |s| ==> s[k] in s[1..];
      [s[0]] + rest
  }

  /** The candidates in rank order. */
  function Sorted(annotations: seq<Annotation>): (r: seq<Annotation>)
    requires DistinctIds(annotations)
    ensures InRankOrder(r)
    ensures forall b :: b in r <==> b in annotations && IsCandidate(b)
  {
    if annotations == [] then []
    else
      var last, init := annotations[|annotations| - 1], annotations[..|annotations| - 1];
      assert annotations == init + [last];
      if IsCandidate(last) then Insert(last, Sorted(init)) else Sorted(init)
  }

  method FirstOverlap(overlap: Relation, kept: seq<Annotation>, a: Annotation) returns (winner: Option<Annotation>)
    ensures IsFirstOverlap(overlap, kept, a, winner)
  {
    for k := 0 to |kept|
      invariant forall j :: 0 <= j < k ==> !overlap(a, kept[j])
    {
      if overlap(a, kept[k]) {
        return Some(kept[k]);
      }
    }
    winner := None;
  }

  ghost predicate IsFirstOverlap(overlap: Relation, kept: seq<Annotation>, a: Annotation, winner: Option<Annotation>) {
    match winner
    case None => forall k :: 0 <= k < |kept| ==> !overlap(a, kept[k])
    case Some(w) =>
      exists k :: 0 <= k < |kept| && kept[k] == w && overlap(a, w) && forall j :: 0 <= j < k ==> !overlap(a, kept[j])
  }

  /** The retained lists hold exactly the kept boxes, by class and in rank order. */
  ghost predicate RetainedOk(retained: map<ClassId, seq<Annotation>>, boxes: set<Annotation>,
                             m: map<AnnotationId, AnnotationId>)
  {
    && (forall c :: c in retained ==> InRankOrder(retained[c]))
    && (forall c, a :: c in retained && a in retained[c] ==> a in boxes && a.class_ == c && a.id !in m)
    && (forall a :: a in boxes && a.id !in m ==> a.class_ in retained && a in retained[a.class_])
  }

  ghost predicate AllPrecede(boxes: set<Annotation>, a: Annotation) {
    forall b :: b in boxes ==> Precedes(b, a) && b.id != a.id
  }

  lemma SortedDistinct(annotations: seq<Annotation>)
    requires DistinctIds(annotations)
    ensures DistinctIds(Sorted(annotations))
  {
    var r := Sorted(annotations);
    forall i, j | 0 <= i < j < |r| ensures r[i].id != r[j].id {
      assert r[i] in r && r[j] in r && Precedes(r[i], r[j]);
    }
  }

  /** Deciding a box that comes last leaves every earlier decision alone. */
  lemma AppendLast(overlap: Relation, boxes: set<Annotation>, m: map<AnnotationId, AnnotationId>, a: Annotation,
                   n: map<AnnotationId, AnnotationId>)
    requires IsExclusions(overlap, boxes, m) && AllPrecede(boxes, a)
    requires n - {a.id} == m
    requires Decided(overlap, boxes, n, a)
    ensures IsExclusions(overlap, boxes + {a}, n)
  {
    var all := boxes + {a};
    LastDecided(overlap, boxes, n, a);
    forall b | b in all ensures Decided(overlap, all, n, b) {
      if b in boxes { EarlierStays(overlap, boxes, m, a, n, b); }
    }
    forall id | id in n ensures exists b :: b in all && b.id == id {
      if id != a.id {
        assert id in m;
        var b :| b in boxes && b.id == id;
        assert b in all;
      }
    }
  }

  lemma LastDecided(overlap: Relation, boxes: set<Annotation>, n: map<AnnotationId, AnnotationId>, a: Annotation)
    requires Decided(overlap, boxes, n, a)
    ensures Decided(overlap, boxes + {a}, n, a)
  {
    assert Excluders(overlap, boxes + {a}, n, a) == Excluders(overlap, boxes, n, a);
  }

  lemma EarlierStays(overlap: Relation, boxes: set<Annotation>, m: map<AnnotationId, AnnotationId>, a: Annotation,
                     n: map<AnnotationId, AnnotationId>, b: Annotation)
    requires IsExclusions(overlap, boxes, m) && AllPrecede(boxes, a) && b in boxes
    requires n - {a.id} == m
    ensures Decided(overlap, boxes + {a}, n, b)
  {
    assert Decided(overlap, boxes, m, b);
    assert forall id :: id != a.id ==> (id in n <==> id in m) && (id in m ==> n[id] == m[id]);
    assert Excluders(overlap, boxes + {a}, n, b) == Excluders(overlap, boxes, m, b);
  }

  lemma PrefixPrecedes(candidates: seq<Annotation>, i: nat)
    requires InRankOrder(candidates) && i < |candidates| && DistinctIds(candidates)
    ensures AllPrecede(Members(candidates[..i]), candidates[i])
    ensures Members(candidates[..i + 1]) == Members(candidates[..i]) + {candidates[i]}
  {
    assert candidates[..i + 1] == candidates[..i] + [candidates[i]];
  }

  /** The first overlapping entry of the class list is the earliest kept box that excludes `a`. */
  lemma Decide(overlap: Relation, boxes: set<Annotation>, m: map<AnnotationId, AnnotationId>,
               retained: map<ClassId, seq<Annotation>>, kept: seq<Annotation>, a: Annotation,
               winner: Option<Annotation>)
    requires RetainedOk(retained, boxes, m) && AllPrecede(boxes, a) && a.id !in m
    requires kept == if a.class_ in retained then retained[a.class_] else []
    requires IsFirstOverlap(overlap, kept, a, winner)
    ensures winner.None? ==> Decided(overlap, boxes, m, a)
    ensures winner.Some? ==> Decided(overlap, boxes, m[a.id := winner.value.id], a)
  {
    forall b | b in Excluders(overlap, boxes, m, a) ensures b in kept && overlap(a, b) { }
    match winner
    case None =>
    case Some(w) =>
      var n := m[a.id := w.id];
      var k :| 0 <= k < |kept| && kept[k] == w && overlap(a, w) && forall j :: 0 <= j < k ==> !overlap(a, kept[j]);
      assert w in kept;
      assert Excluders(overlap, boxes, n, a) == Excluders(overlap, boxes, m, a);
      assert IsFirst(Excluders(overlap, boxes, n, a), w);
  }

  lemma RetainedKeeps(retained: map<ClassId, seq<Annotation>>, boxes: set<Annotation>,
                      m: map<AnnotationId, AnnotationId>, a: Annotation, winner: AnnotationId)
    requires RetainedOk(retained, boxes, m) && AllPrecede(boxes, a)
    ensures RetainedOk(retained, boxes + {a}, m[a.id := winner])
  {
  }

  lemma RetainedGrows(retained: map<ClassId, seq<Annotation>>, boxes: set<Annotation>,
                      m: map<AnnotationId, AnnotationId>, a: Annotation, kept: seq<Annotation>)
    requires RetainedOk(retained, boxes, m) && AllPrecede(boxes, a) && a.id !in m
    requires kept == if a.class_ in retained then retained[a.class_] else []
    ensures RetainedOk(retained[a.class_ := kept + [a]], boxes + {a}, m)
  {
    var grown := kept + [a];
    forall i, j | 0 <= i < j < |grown| ensures Precedes(grown[i], grown[j]) {
      if j == |kept| { assert kept[i] in kept; }
    }
    forall b | b in grown ensures b == a || b in kept { }
    assert grown[|kept|] == a;
    forall b | b in kept ensures b in grown { }
  }

  lemma FreshId(overlap: Relation, boxes: set<Annotation>, m: map<AnnotationId, AnnotationId>, a: Annotation)
    requires IsExclusions(overlap, boxes, m) && AllPrecede(boxes, a)
    ensures a.id !in m && m - {a.id} == m
  {
  }

  /** Deciding the next box in rank order keeps both the exclusion map and the retained lists right. */
  lemma Advance(overlap: Relation, boxes: set<Annotation>, m: map<AnnotationId, AnnotationId>,
                retained: map<ClassId, seq<Annotation>>, kept: seq<Annotation>, a: Annotation,
                winner: Option<Annotation>)
    requires IsExclusions(overlap, boxes, m) && RetainedOk(retained, boxes, m) && AllPrecede(boxes, a)
    requires kept == if a.class_ in retained then retained[a.class_] else []
    requires IsFirstOverlap(overlap, kept, a, winner)
    ensures winner.Some? ==>
              var n := m[a.id := winner.value.id];
              IsExclusions(overlap, boxes + {a}, n) && RetainedOk(retained, boxes + {a}, n)
    ensures winner.None? ==>
              IsExclusions(overlap, boxes + {a}, m) && RetainedOk(retained[a.class_ := kept + [a]], boxes + {a}, m)
  {
    FreshId(overlap, boxes, m, a);
    Decide(overlap, boxes, m, retained, kept, a, winner);
    match winner
    case None =>
      AppendLast(overlap, boxes, m, a, m);
      RetainedGrows(retained, boxes, m, a, kept);
    case Some(w) =>
      AppendLast(overlap, boxes, m, a, m[a.id := w.id]);
      RetainedKeeps(retained, boxes, m, a, w.id);
  }

  /** The greedy pass over candidates in rank order. */
  method Suppress(overlap: Relation, candidates: seq<Annotation>)
    returns (excluded: map<AnnotationId, AnnotationId>)
    requires InRankOrder(candidates) && DistinctIds(candidates)
    ensures IsExclusions(overlap, Members(candidates), excluded)
  {
    var retained: map<ClassId, seq<Annotation>> := map[];
    excluded := map[];
    for i := 0 to |candidates|
      invariant IsExclusions(overlap, Members(candidates[..i]), excluded)
      invariant RetainedOk(retained, Members(candidates[..i]), excluded)
    {
      var a := candidates[i];
      PrefixPrecedes(candidates, i);
      var kept := if a.class_ in retained then retained[a.class_] else [];
      var winner := FirstOverlap(overlap, kept, a);
      Advance(overlap, Members(candidates[..i]), excluded, retained, kept, a, winner);
      if winner.Some? {
        excluded := excluded[a.id := winner.value.id];
      } else {
        retained := retained[a.class_ := kept + [a]];
      }
    }
    assert candidates[..|candidates|] == candidates;
  }

  /** Computes the exclusion map of the candidates, or rejects the threshold. */
  method Exclusions(threshold: real, annotations: seq<Annotation>) returns (outcome: Outcome)
    requires DistinctIds(annotations)
    ensures outcome.InvalidThreshold? <==> !(0.0 <= threshold <= 1.0)
    ensures outcome.Excluded? ==> IsExclusions(Above(threshold), CandidatesOf(annotations), outcome.winners)
  {
    if !(0.0 <= threshold <= 1.0) {
      return InvalidThreshold;
    }
    var candidates := Sorted(annotations);
    SortedDistinct(annotations);
    var excluded := Suppress(Above(threshold), candidates);
    assert Members(candidates) == CandidatesOf(annotations);
    outcome := Excluded(excluded);
  }
}
