/** Keybinding normalization: a greedy allocation of chords over a conflict relation that is symmetric
    but not transitive (crates/labello-domain/src/keybindings.rs). */
module Keybindings {
  import opened Domain
  import opened KeyChords

  // ---------------------------------------------------------------------------------------------
  // The allocator
  // ---------------------------------------------------------------------------------------------

  datatype Binding = Binding(action: UserAction, chord: KeyChord)

  predicate Clash(action: UserAction, chord: KeyChord, other: Binding) {
    CanConflict(action, other.action) && Normalized(chord) == Normalized(other.chord)
  }

  predicate Available(action: UserAction, candidate: KeyChord, occupied: seq<Binding>) {
    forall i | 0 <= i < |occupied| :: !Clash(action, candidate, occupied[i])
  }

  function Digit(d: nat): char
    requires d < 10
  {
    (48 + d) as char
  }

  function FunctionKey(number: nat): string
    requires number < 100
  {
    if number < 10 then ['F', Digit(number)] else ['F', Digit(number / 10), Digit(number % 10)]
  }

  function WithMask(chord: KeyChord, mask: nat): KeyChord {
    chord.(command := chord.command || mask % 2 == 1,
           shift := chord.shift || mask / 2 % 2 == 1,
           alt := chord.alt || mask / 4 % 2 == 1)
  }

  /** The candidates in the order they are tried: the preferred key under eight modifier masks, then
      thirty-five function keys under the same masks. */
  const CANDIDATES := 288

  function Candidate(preferred: KeyChord, i: nat): KeyChord
    requires i < CANDIDATES
  {
    if i < 8 then WithMask(preferred, i)
    else WithMask(Plain(FunctionKey((i - 8) / 8 + 1)), (i - 8) % 8)
  }

  function Candidates(preferred: KeyChord): (candidates: seq<KeyChord>) {
    seq(CANDIDATES, i requires 0 <= i < CANDIDATES => Candidate(preferred, i))
  }

  /** The first available candidate from `i` on, or the fallback when there is none. */
  function FirstFree(available: KeyChord -> bool, candidates: seq<KeyChord>, fallback: KeyChord, i: nat): KeyChord
    requires i <= |candidates|
    decreases |candidates| - i
  {
    if i == |candidates| then fallback
    else if available(candidates[i]) then candidates[i]
    else FirstFree(available, candidates, fallback, i + 1)
  }

  function AvailableTo(action: UserAction, occupied: seq<Binding>): KeyChord -> bool {
    candidate => Available(action, candidate, occupied)
  }

  function FirstAvailable(action: UserAction, preferred: KeyChord, occupied: seq<Binding>): KeyChord {
    FirstFree(AvailableTo(action, occupied), Candidates(preferred), preferred, 0)
  }

  lemma FunctionCandidateAt(preferred: KeyChord, number: nat, mask: nat)
    requires 1 <= number <= 35 && mask < 8
    ensures 8 * number + mask < CANDIDATES
    ensures Candidates(preferred)[8 * number + mask] == WithMask(Plain(FunctionKey(number)), mask)
  {
    var i := 8 * number + mask;
    assert (i - 8) / 8 == number - 1 && (i - 8) % 8 == mask;
  }

  method AvailableChord(action: UserAction, preferred: KeyChord, occupied: seq<Binding>) returns (chord: KeyChord)
    ensures chord == FirstAvailable(action, preferred, occupied)
  {
    var available := AvailableTo(action, occupied);
    chord := TryCandidates(available, preferred);
  }

  method TryCandidates(available: KeyChord -> bool, preferred: KeyChord) returns (chord: KeyChord)
    ensures chord == FirstFree(available, Candidates(preferred), preferred, 0)
  {
    ghost var candidates := Candidates(preferred);
    ghost var goal := FirstFree(available, candidates, preferred, 0);
    for mask := 0 to 8
      invariant goal == FirstFree(available, candidates, preferred, mask)
    {
      var candidate := WithMask(preferred, mask);
      assert candidate == candidates[mask];
      if available(candidate) {
        return candidate;
      }
    }
    for number := 1 to 36
      invariant goal == FirstFree(available, candidates, preferred, 8 * number)
    {
      for mask := 0 to 8
        invariant goal == FirstFree(available, candidates, preferred, 8 * number + mask)
      {
        FunctionCandidateAt(preferred, number, mask);
        var candidate := WithMask(Plain(FunctionKey(number)), mask);
        if available(candidate) {
          return candidate;
        }
      }
    }
    chord := preferred;
  }

  // ---- the fallback is dead -----------------------------------------------------------------

  lemma FunctionKeyProper(number: nat)
    requires 1 <= number < 100
    ensures Canonical(Plain(FunctionKey(number)))
    ensures forall other: nat :: other < 100 && FunctionKey(other) == FunctionKey(number) ==> other == number
  {
    var key := FunctionKey(number);
    Utf8LenBounds(key);
    assert TrimStart(key) == key;
    assert TrimEnd(key) == key;
    assert key[0] == 'F' && key[1] == if number < 10 then Digit(number) else Digit(number / 10);
  }

  lemma MaskKeepsCanonical(chord: KeyChord, mask: nat)
    requires Canonical(chord)
    ensures Canonical(WithMask(chord, mask))
  {
  }

  lemma FunctionCandidateProper(preferred: KeyChord, i: nat)
    requires 8 <= i < CANDIDATES
    ensures Canonical(Candidate(preferred, i))
  {
    FunctionKeyProper((i - 8) / 8 + 1);
    MaskKeepsCanonical(Plain(FunctionKey((i - 8) / 8 + 1)), (i - 8) % 8);
  }

  lemma MaskDistinct(chord: KeyChord, a: nat, b: nat)
    requires a < 8 && b < 8 && !chord.command && !chord.shift && !chord.alt
    requires WithMask(chord, a) == WithMask(chord, b)
    ensures a == b
  {
  }

  lemma FunctionCandidatesDistinct(preferred: KeyChord, i: nat, j: nat)
    requires 8 <= i < CANDIDATES && 8 <= j < CANDIDATES && Candidate(preferred, i) == Candidate(preferred, j)
    ensures i == j
  {
    var n, m := (i - 8) / 8 + 1, (j - 8) / 8 + 1;
    FunctionKeyProper(n);
    assert FunctionKey(m) == FunctionKey(n);
    MaskDistinct(Plain(FunctionKey(n)), (i - 8) % 8, (j - 8) % 8);
  }

  function FunctionCandidates(preferred: KeyChord, n: nat): set<KeyChord>
    requires n <= CANDIDATES
  {
    set i | 8 <= i < n :: Candidate(preferred, i)
  }

  lemma {:induction false} FunctionCandidatesCount(preferred: KeyChord, n: nat)
    requires 8 <= n <= CANDIDATES
    ensures |FunctionCandidates(preferred, n)| == n - 8
  {
    if n == 8 {
      assert FunctionCandidates(preferred, n) == {};
    } else {
      FunctionCandidatesCount(preferred, n - 1);
      var last, before := Candidate(preferred, n - 1), FunctionCandidates(preferred, n - 1);
      if last in before {
        var i :| 8 <= i < n - 1 && Candidate(preferred, i) == last;
        FunctionCandidatesDistinct(preferred, i, n - 1);
      }
      assert FunctionCandidates(preferred, n) == before + {last};
    }
  }

  function Taken(occupied: seq<Binding>): set<KeyChord> {
    if occupied == [] then {}
    else Taken(occupied[..|occupied| - 1]) + {Normalized(occupied[|occupied| - 1].chord)}
  }

  lemma {:induction false} TakenCount(occupied: seq<Binding>)
    ensures |Taken(occupied)| <= |occupied|
  {
    if occupied != [] { TakenCount(occupied[..|occupied| - 1]); }
  }

  lemma {:induction false} TakenHas(occupied: seq<Binding>, i: nat)
    requires i < |occupied|
    ensures Normalized(occupied[i].chord) in Taken(occupied)
  {
    if i < |occupied| - 1 {
      var init := occupied[..|occupied| - 1];
      TakenHas(init, i);
      assert init[i] == occupied[i];
    }
  }

  lemma BlockedIsTaken(action: UserAction, preferred: KeyChord, occupied: seq<Binding>, i: nat)
    requires 8 <= i < CANDIDATES && !Available(action, Candidate(preferred, i), occupied)
    ensures Candidate(preferred, i) in Taken(occupied)
  {
    FunctionCandidateProper(preferred, i);
    var k: nat :| k < |occupied| && Clash(action, Candidate(preferred, i), occupied[k]);
    TakenHas(occupied, k);
  }

  /** Fewer than 280 occupied chords cannot block the 280 distinct function-key chords. */
  lemma SomeCandidateAvailable(action: UserAction, preferred: KeyChord, occupied: seq<Binding>)
    requires |occupied| < 280
    ensures exists i: nat :: i < CANDIDATES && Available(action, Candidate(preferred, i), occupied)
  {
    var tried := FunctionCandidates(preferred, CANDIDATES);
    FunctionCandidatesCount(preferred, CANDIDATES);
    TakenCount(occupied);
    if tried <= Taken(occupied) {
      SubsetCardinality(tried, Taken(occupied));
    } else {
      var chord :| chord in tried && chord !in Taken(occupied);
      var i: nat :| 8 <= i < CANDIDATES && chord == Candidate(preferred, i);
      if !Available(action, Candidate(preferred, i), occupied) { BlockedIsTaken(action, preferred, occupied, i); }
    }
  }

  lemma {:induction false} FirstFreeBelow(available: KeyChord -> bool, candidates: seq<KeyChord>,
                                          fallback: KeyChord, i: nat, bound: nat)
    requires i <= bound <= |candidates|
    requires exists k: nat :: i <= k < bound && available(candidates[k])
    ensures var chosen := FirstFree(available, candidates, fallback, i);
            available(chosen) && chosen in candidates[..bound]
    decreases bound - i
  {
    if !available(candidates[i]) {
      FirstFreeBelow(available, candidates, fallback, i + 1, bound);
    }
  }

  /** The final fallback is never reached: what the allocator returns is an available candidate. */
  lemma ChosenIsAvailable(action: UserAction, preferred: KeyChord, occupied: seq<Binding>)
    requires |occupied| < 280
    ensures var chosen := FirstAvailable(action, preferred, occupied);
            && Available(action, chosen, occupied)
            && exists k: nat :: k < CANDIDATES && chosen == Candidate(preferred, k)
  {
    var candidates := Candidates(preferred);
    SomeCandidateAvailable(action, preferred, occupied);
    var k: nat :| k < CANDIDATES && Available(action, Candidate(preferred, k), occupied);
    assert candidates[k] == Candidate(preferred, k);
    assert AvailableTo(action, occupied)(candidates[k]);
    FirstFreeBelow(AvailableTo(action, occupied), candidates, preferred, 0, CANDIDATES);
  }

  // ---- the order of preference ----------------------------------------------------------------

  /** A chord with modifiers added: command first, then shift, then both, and the same again with alt. */
  function Variants(chord: KeyChord): (variants: seq<KeyChord>)
    ensures |variants| == 8
  {
    [chord,
     chord.(command := true),
     chord.(shift := true),
     chord.(command := true, shift := true),
     chord.(alt := true),
     chord.(command := true, alt := true),
     chord.(shift := true, alt := true),
     chord.(command := true, shift := true, alt := true)]
  }

  function Decimal(n: nat): string {
    (if n < 10 then "" else Decimal(n / 10)) + ["0123456789"[n % 10]]
  }

  /** The variants of the preferred chord are tried first, then those of F1, of F2 and so on. */
  function Choice(preferred: KeyChord, number: nat, mask: nat): KeyChord
    requires mask < 8
  {
    Variants(if number == 0 then preferred else Plain("F" + Decimal(number)))[mask]
  }

  lemma CandidateIsChoice(preferred: KeyChord, number: nat, mask: nat)
    requires number <= 35 && mask < 8
    ensures Candidate(preferred, 8 * number + mask) == Choice(preferred, number, mask)
  {
    if number > 0 {
      assert (8 * number + mask - 8) / 8 == number - 1 && (8 * number + mask - 8) % 8 == mask;
      FunctionKeyDecimal(number);
    }
    MaskIsVariant(if number == 0 then preferred else Plain("F" + Decimal(number)), mask);
  }

  lemma FunctionKeyDecimal(number: nat)
    requires number <= 35
    ensures FunctionKey(number) == "F" + Decimal(number)
  {
    assert Digit(number % 10) == "0123456789"[number % 10];
    if number >= 10 { assert Digit(number / 10) == "0123456789"[number / 10] && number / 10 < 10; }
  }

  lemma MaskIsVariant(chord: KeyChord, mask: nat)
    requires mask < 8
    ensures WithMask(chord, mask) == Variants(chord)[mask]
  {
  }

  lemma {:induction false} FirstFreeIsFirst(available: KeyChord -> bool, candidates: seq<KeyChord>,
                                            fallback: KeyChord, i: nat, k: nat)
    requires i <= k < |candidates| && available(candidates[k])
    requires forall j :: i <= j < k ==> !available(candidates[j])
    ensures FirstFree(available, candidates, fallback, i) == candidates[k]
    decreases k - i
  {
    if i < k { FirstFreeIsFirst(available, candidates, fallback, i + 1, k); }
  }

  /** An action whose chord is taken keeps the key if it can: it gets the first of its variants that is free, so with
      command added whenever that is free. Only then does it move to the function keys, from F1 up. */
  lemma ReplacementKeepsKey(action: UserAction, preferred: KeyChord, occupied: seq<Binding>, number: nat, mask: nat)
    requires number <= 35 && mask < 8 && Available(action, Choice(preferred, number, mask), occupied)
    requires forall n: nat, m: nat :: n <= number && m < 8 && (n < number || m < mask) ==>
               !Available(action, Choice(preferred, n, m), occupied)
    ensures FirstAvailable(action, preferred, occupied) == Choice(preferred, number, mask)
  {
    var candidates, k := Candidates(preferred), 8 * number + mask;
    CandidateIsChoice(preferred, number, mask);
    forall j: nat | j < k ensures !Available(action, candidates[j], occupied) {
      CandidateIsChoice(preferred, j / 8, j % 8);
      assert !Available(action, Choice(preferred, j / 8, j % 8), occupied);
    }
    FirstFreeIsFirst(AvailableTo(action, occupied), candidates, preferred, 0, k);
  }

  /** The first steps of that order written out. */
  lemma TakenGetsCommand(action: UserAction, preferred: KeyChord, occupied: seq<Binding>)
    ensures Available(action, preferred, occupied) ==> FirstAvailable(action, preferred, occupied) == preferred
    ensures !Available(action, preferred, occupied) && Available(action, preferred.(command := true), occupied) ==>
              FirstAvailable(action, preferred, occupied) == preferred.(command := true)
    ensures !Available(action, preferred, occupied) && !Available(action, preferred.(command := true), occupied)
            && Available(action, preferred.(shift := true), occupied) ==>
              FirstAvailable(action, preferred, occupied) == preferred.(shift := true)
  {
    var variants := Variants(preferred);
    forall mask: nat | mask < 3 && Available(action, variants[mask], occupied)
                       && (forall m: nat :: m < mask ==> !Available(action, Choice(preferred, 0, m), occupied))
      ensures FirstAvailable(action, preferred, occupied) == variants[mask]
    {
      ReplacementKeepsKey(action, preferred, occupied, 0, mask);
    }
    assert variants[0] == preferred && variants[1] == preferred.(command := true)
        && variants[2] == preferred.(shift := true);
  }

  // ---------------------------------------------------------------------------------------------
  // Normalization
  // ---------------------------------------------------------------------------------------------

  type Bindings = map<UserAction, KeyChord>

  function DefaultChord(action: UserAction): KeyChord {
    match action
    case NextImage => Plain("Space")
    case PreviousImage => Plain("ArrowLeft")
    case UndoEdit => Primary("Z")
    case RedoEdit => Primary("Z").(shift := true)
    case SaveAnnotations => Primary("S")
    case SkipAssignment => Plain("X")
    case DeleteAnnotation => Plain("Delete")
    case OpenTutorial => Plain("?")
    case ToggleWorkflowPanel => Plain("W")
    case ToggleInspectorPanel => Plain("I")
    case OpenSettings => Primary(",")
    case SelectPreviousWorkflow => Plain("[")
    case SelectNextWorkflow => Plain("]")
    case SelectPreviousObject => Plain("ArrowUp")
    case SelectNextObject => Plain("ArrowDown")
    case SelectPreviousPrelabel => Plain("ArrowUp").(shift := true)
    case SelectNextPrelabel => Plain("ArrowDown").(shift := true)
    case AcceptPrelabel => Plain("A")
    case DiscardPrelabel => Plain("D")
    case ToggleKeypointHidden => Plain("H")
    case MarkKeypointAbsent => Plain("N")
    case AddMissingObject => Plain("M")
    case RetryImageLoad => Plain("R")
    case TogglePanMode => Plain("P")
    case ZoomIn => Plain("+")
    case ZoomOut => Plain("-")
    case FitImage => Plain("0")
    case RefocusObject => Plain("R")
    case AcceptReviewObject => Plain("Y")
    case RejectReviewObject => Plain("N")
    case _ => Plain("")
  }

  function Defaults(): Bindings {
    map action: UserAction | IsActive(action) :: DefaultChord(action)
  }

  predicate Bound(occupied: seq<Binding>, action: UserAction) {
    exists i | 0 <= i < |occupied| :: occupied[i].action == action
  }

  /** Gives a wanted action that is not bound yet its first available chord. */
  function Grant(wanted: Bindings, action: UserAction, occupied: seq<Binding>): seq<Binding> {
    if action in wanted && !Bound(occupied, action)
    then occupied + [Binding(action, FirstAvailable(action, wanted[action], occupied))]
    else occupied
  }

  /** Grants the wanted actions of rank below `k` in order. */
  ghost function Walk(wanted: Bindings, k: nat, occupied: seq<Binding>): seq<Binding>
    requires k <= ACTIONS
  {
    if k == 0 then occupied else Grant(wanted, ActionAt(k - 1), Walk(wanted, k - 1, occupied))
  }

  function Wanted(bindings: Bindings): Bindings {
    map action | action in bindings && IsActive(action) :: Normalized(bindings[action])
  }

  ghost function Allocation(bindings: Bindings): seq<Binding> {
    Walk(Defaults(), ACTIONS, Walk(Wanted(bindings), ACTIONS, []))
  }

  function ToMap(occupied: seq<Binding>): Bindings {
    if occupied == [] then map[]
    else ToMap(occupied[..|occupied| - 1])[occupied[|occupied| - 1].action := occupied[|occupied| - 1].chord]
  }

  ghost function NormalizedBindings(bindings: Bindings): Bindings {
    ToMap(Allocation(bindings))
  }

  /** Actions are bound once, are active, and no two that can conflict share a chord. */
  ghost predicate AllocationOk(occupied: seq<Binding>) {
    && (forall i :: 0 <= i < |occupied| ==> IsActive(occupied[i].action))
    && (forall i, j :: 0 <= i < j < |occupied| ==>
          occupied[i].action != occupied[j].action
          && !Clash(occupied[j].action, occupied[j].chord, occupied[i]))
  }

  lemma GrantOk(wanted: Bindings, action: UserAction, occupied: seq<Binding>)
    requires AllocationOk(occupied) && |occupied| < 280
    requires action in wanted ==> IsActive(action)
    ensures AllocationOk(Grant(wanted, action, occupied))
  {
    if action in wanted && !Bound(occupied, action) {
      ChosenIsAvailable(action, wanted[action], occupied);
    }
  }

  lemma BoundAfter(occupied: seq<Binding>, binding: Binding, action: UserAction)
    ensures Bound(occupied + [binding], action) <==> Bound(occupied, action) || action == binding.action
  {
    var next := occupied + [binding];
    assert next[|occupied|] == binding;
    if Bound(occupied, action) {
      var i :| 0 <= i < |occupied| && occupied[i].action == action;
      assert next[i].action == action;
    }
  }

  lemma {:induction false} WalkOk(wanted: Bindings, k: nat, occupied: seq<Binding>)
    requires k <= ACTIONS && AllocationOk(occupied) && |occupied| + k < 280
    requires forall action :: action in wanted ==> IsActive(action)
    ensures AllocationOk(Walk(wanted, k, occupied))
    ensures |Walk(wanted, k, occupied)| <= |occupied| + k
  {
    if k > 0 {
      WalkOk(wanted, k - 1, occupied);
      GrantOk(wanted, ActionAt(k - 1), Walk(wanted, k - 1, occupied));
    }
  }

  lemma GrantBinds(wanted: Bindings, next: UserAction, occupied: seq<Binding>, action: UserAction)
    ensures Bound(Grant(wanted, next, occupied), action) <==>
              Bound(occupied, action) || (action == next && action in wanted)
  {
    if next in wanted && !Bound(occupied, next) {
      BoundAfter(occupied, Binding(next, FirstAvailable(next, wanted[next], occupied)), action);
    }
  }

  lemma {:induction false} WalkBinds(wanted: Bindings, k: nat, occupied: seq<Binding>, action: UserAction)
    requires k <= ACTIONS
    ensures Bound(Walk(wanted, k, occupied), action) <==>
              Bound(occupied, action) || (action in wanted && Rank(action) < k)
  {
    if k > 0 {
      var next := ActionAt(k - 1);
      WalkBinds(wanted, k - 1, occupied, action);
      GrantBinds(wanted, next, Walk(wanted, k - 1, occupied), action);
      if Rank(action) == k - 1 { RankInjective(action, next); }
    }
  }

  lemma {:induction false} WalkExtends(wanted: Bindings, j: nat, k: nat, occupied: seq<Binding>)
    requires j <= k <= ACTIONS
    ensures Walk(wanted, j, occupied) <= Walk(wanted, k, occupied)
    decreases k
  {
    if j < k { WalkExtends(wanted, j, k - 1, occupied); }
  }

  lemma {:induction false} ToMapProper(occupied: seq<Binding>, action: UserAction)
    ensures action in ToMap(occupied) <==> Bound(occupied, action)
  {
    if occupied != [] {
      var init, last := occupied[..|occupied| - 1], occupied[|occupied| - 1];
      ToMapProper(init, action);
      assert occupied == init + [last];
      BoundAfter(init, last, action);
    }
  }

  lemma {:induction false} ToMapAt(occupied: seq<Binding>, i: nat)
    requires AllocationOk(occupied) && i < |occupied|
    ensures occupied[i].action in ToMap(occupied)
    ensures ToMap(occupied)[occupied[i].action] == occupied[i].chord
  {
    var init := occupied[..|occupied| - 1];
    if i < |occupied| - 1 {
      ToMapAt(init, i);
      assert init[i] == occupied[i];
    }
  }

  lemma AllocationProper(bindings: Bindings)
    ensures AllocationOk(Walk(Wanted(bindings), ACTIONS, []))
    ensures AllocationOk(Allocation(bindings))
    ensures forall action :: Bound(Allocation(bindings), action) <==> IsActive(action)
    ensures forall action :: action in NormalizedBindings(bindings) <==> IsActive(action)
  {
    var first := Walk(Wanted(bindings), ACTIONS, []);
    WalkOk(Wanted(bindings), ACTIONS, []);
    WalkOk(Defaults(), ACTIONS, first);
    forall action ensures Bound(Allocation(bindings), action) <==> IsActive(action) {
      WalkBinds(Wanted(bindings), ACTIONS, [], action);
      WalkBinds(Defaults(), ACTIONS, first, action);
    }
    forall action ensures action in NormalizedBindings(bindings) <==> IsActive(action) {
      ToMapProper(Allocation(bindings), action);
    }
  }

  ghost predicate ConflictFree(bindings: Bindings) {
    forall a, b :: a in bindings && b in bindings && a != b && IsActive(a) && IsActive(b) && CanConflict(a, b) ==>
      Normalized(bindings[a]) != Normalized(bindings[b])
  }

  /** Whatever the bindings were, normalization binds exactly the active actions, without conflicts. */
  lemma NormalizeResolves(bindings: Bindings)
    ensures forall action :: action in NormalizedBindings(bindings) <==> IsActive(action)
    ensures ConflictFree(NormalizedBindings(bindings))
  {
    var occupied, result := Allocation(bindings), NormalizedBindings(bindings);
    AllocationProper(bindings);
    forall a, b | a in result && b in result && a != b && CanConflict(a, b)
      ensures Normalized(result[a]) != Normalized(result[b])
    {
      var i: nat :| i < |occupied| && occupied[i].action == a;
      var j: nat :| j < |occupied| && occupied[j].action == b;
      ToMapAt(occupied, i);
      ToMapAt(occupied, j);
      ConflictSymmetric(a, b);
      if i < j {
        assert !Clash(occupied[j].action, occupied[j].chord, occupied[i]);
      } else {
        assert !Clash(occupied[i].action, occupied[i].chord, occupied[j]);
      }
    }
  }

  /** What is occupied when an action's turn comes: everything granted to wanted actions before it. */
  ghost function Before(bindings: Bindings, action: UserAction): seq<Binding> {
    Walk(Wanted(bindings), Rank(action), [])
  }

  /** A wanted action that is not bound before the walk is granted its first available chord at its turn. */
  lemma TurnOf(wanted: Bindings, action: UserAction, occupied: seq<Binding>)
    requires action in wanted && !Bound(occupied, action)
    ensures var before := Walk(wanted, Rank(action), occupied);
            && before + [Binding(action, FirstAvailable(action, wanted[action], before))]
               <= Walk(wanted, ACTIONS, occupied)
  {
    var rank := Rank(action);
    RankInjective(ActionAt(rank), action);
    WalkBinds(wanted, rank, occupied, action);
    WalkExtends(wanted, rank + 1, ACTIONS, occupied);
  }

  lemma GrantedInAllocation(bindings: Bindings, before: seq<Binding>, binding: Binding)
    requires before + [binding] <= Allocation(bindings)
    ensures binding.action in NormalizedBindings(bindings)
    ensures NormalizedBindings(bindings)[binding.action] == binding.chord
  {
    AllocationProper(bindings);
    assert (before + [binding])[|before|] == binding;
    ToMapAt(Allocation(bindings), |before|);
  }

  /** An active binding ends with the first chord that is available at its turn. */
  lemma WantedGetsFirstAvailable(bindings: Bindings, action: UserAction)
    requires action in bindings && IsActive(action)
    ensures action in NormalizedBindings(bindings)
    ensures NormalizedBindings(bindings)[action]
         == FirstAvailable(action, Normalized(bindings[action]), Before(bindings, action))
  {
    var before := Before(bindings, action);
    TurnOf(Wanted(bindings), action, []);
    WalkExtends(Defaults(), 0, ACTIONS, Walk(Wanted(bindings), ACTIONS, []));
    GrantedInAllocation(bindings, before,
                        Binding(action, FirstAvailable(action, Normalized(bindings[action]), before)));
  }

  /** An active action without a binding gets the first chord available after everything bound before it. */
  lemma MissingGetsFirstAvailable(bindings: Bindings, action: UserAction)
    requires action !in bindings && IsActive(action)
    ensures action in NormalizedBindings(bindings)
    ensures NormalizedBindings(bindings)[action]
         == FirstAvailable(action, DefaultChord(action),
                           Walk(Defaults(), Rank(action), Walk(Wanted(bindings), ACTIONS, [])))
  {
    var first := Walk(Wanted(bindings), ACTIONS, []);
    var before := Walk(Defaults(), Rank(action), first);
    WalkBinds(Wanted(bindings), ACTIONS, [], action);
    TurnOf(Defaults(), action, first);
    GrantedInAllocation(bindings, before,
                        Binding(action, FirstAvailable(action, DefaultChord(action), before)));
  }

  /** Every resulting chord is a candidate for what its action wanted, or for its default. */
  lemma ResultIsCandidate(bindings: Bindings, action: UserAction) returns (preferred: KeyChord, k: nat)
    requires IsActive(action)
    ensures action in NormalizedBindings(bindings) && k < CANDIDATES
    ensures NormalizedBindings(bindings)[action] == Candidate(preferred, k)
    ensures preferred == if action in bindings then Normalized(bindings[action]) else DefaultChord(action)
  {
    var first := Walk(Wanted(bindings), ACTIONS, []);
    var occupied;
    if action in bindings {
      WantedGetsFirstAvailable(bindings, action);
      preferred, occupied := Normalized(bindings[action]), Before(bindings, action);
      WalkOk(Wanted(bindings), Rank(action), []);
    } else {
      MissingGetsFirstAvailable(bindings, action);
      preferred, occupied := DefaultChord(action), Walk(Defaults(), Rank(action), first);
      WalkOk(Wanted(bindings), ACTIONS, []);
      WalkOk(Defaults(), Rank(action), first);
    }
    ChosenIsAvailable(action, preferred, occupied);
    k :| k < CANDIDATES && NormalizedBindings(bindings)[action] == Candidate(preferred, k);
  }

  // ---------------------------------------------------------------------------------------------
  // Idempotence
  // ---------------------------------------------------------------------------------------------

  /** Chords that can all be granted as they are. */
  ghost predicate Apart(wanted: Bindings) {
    forall a, b :: a in wanted && b in wanted && a != b && CanConflict(a, b) ==>
      Normalized(wanted[a]) != Normalized(wanted[b])
  }

  lemma {:induction false} WalkVerbatim(wanted: Bindings, k: nat)
    requires k <= ACTIONS && Apart(wanted)
    ensures forall b :: b in Walk(wanted, k, []) ==>
              b.action in wanted && b.chord == wanted[b.action] && Rank(b.action) < k
  {
    if k > 0 {
      WalkVerbatim(wanted, k - 1);
      var before, last := Walk(wanted, k - 1, []), ActionAt(k - 1);
      if last in wanted {
        assert Candidates(wanted[last])[0] == wanted[last];
        forall i | 0 <= i < |before| ensures !Clash(last, wanted[last], before[i]) {
          assert before[i] in before;
        }
        assert Available(last, wanted[last], before);
      }
    }
  }

  lemma {:induction false} WalkNothing(wanted: Bindings, k: nat, occupied: seq<Binding>)
    requires k <= ACTIONS
    requires forall action :: action in wanted ==> Bound(occupied, action)
    ensures Walk(wanted, k, occupied) == occupied
  {
    if k > 0 { WalkNothing(wanted, k - 1, occupied); }
  }

  /** A complete, conflict-free set whose chords normalize cleanly only has its chords canonicalized and
      its inactive actions dropped. */
  lemma NormalizeKeepsValid(bindings: Bindings)
    requires forall action :: IsActive(action) ==> action in bindings && !Loose(bindings[action].key)
    requires ConflictFree(bindings)
    ensures NormalizedBindings(bindings) == Wanted(bindings)
  {
    CleanWanted(bindings);
    GrantedVerbatim(bindings);
  }

  lemma GrantedVerbatim(bindings: Bindings)
    requires forall action :: IsActive(action) ==> action in Wanted(bindings)
    requires Apart(Wanted(bindings))
    ensures NormalizedBindings(bindings) == Wanted(bindings)
  {
    var wanted := Wanted(bindings);
    WalkVerbatim(wanted, ACTIONS);
    var occupied := Walk(wanted, ACTIONS, []);
    forall action | IsActive(action) ensures Bound(occupied, action) { WalkBinds(wanted, ACTIONS, [], action); }
    WalkNothing(Defaults(), ACTIONS, occupied);
    AllocationProper(bindings);
    VerbatimMap(occupied, wanted);
  }

  lemma VerbatimMap(occupied: seq<Binding>, wanted: Bindings)
    requires AllocationOk(occupied)
    requires forall action :: Bound(occupied, action) <==> action in wanted
    requires forall b :: b in occupied ==> b.action in wanted && b.chord == wanted[b.action]
    ensures ToMap(occupied) == wanted
  {
    var result := ToMap(occupied);
    forall action ensures action in result <==> action in wanted { ToMapProper(occupied, action); }
    forall action | action in wanted ensures result[action] == wanted[action] {
      var i: nat :| i < |occupied| && occupied[i].action == action;
      assert occupied[i] in occupied;
      ToMapAt(occupied, i);
    }
    assert result.Keys == wanted.Keys;
  }

  lemma CleanWanted(bindings: Bindings)
    requires forall action :: action in bindings && IsActive(action) ==> !Loose(bindings[action].key)
    requires ConflictFree(bindings)
    ensures Apart(Wanted(bindings))
  {
    var wanted := Wanted(bindings);
    forall a | a in wanted ensures Normalized(wanted[a]) == Normalized(bindings[a]) {
      NormalizedIdempotentExactly(bindings[a]);
    }
  }

  lemma DefaultsCanonical(action: UserAction)
    requires IsActive(action)
    ensures Canonical(DefaultChord(action))
  {
    DefaultKeyEnds(action);
    BareIsCanonical(DefaultChord(action));
  }

  lemma DefaultKeyEnds(action: UserAction)
    requires IsActive(action)
    ensures !DefaultChord(action).ctrl
    ensures var key := DefaultChord(action).key;
            key != [] && 0x21 <= key[0] as int <= 0x7E && 0x21 <= key[|key| - 1] as int <= 0x7E
            && (|key| == 1 ==> !IsLower(key[0]))
  {
  }

  /** A number that tells the default chords apart. */
  function ChordCode(chord: KeyChord): int {
    var n := |chord.key|;
    (if n == 0 then 0 else 10 * (chord.key[n - 1] as int) + n)
    + (if chord.command then 10_000 else 0) + (if chord.shift then 20_000 else 0)
  }

  function DefaultCode(action: UserAction): int {
    match action
    case NextImage => 1015 case PreviousImage => 1169 case UndoEdit => 10901 case RedoEdit => 30901
    case SaveAnnotations => 10831 case SkipAssignment => 881 case DeleteAnnotation => 1016
    case OpenTutorial => 631 case ToggleWorkflowPanel => 871 case ToggleInspectorPanel => 731
    case OpenSettings => 10441 case SelectPreviousWorkflow => 911 case SelectNextWorkflow => 931
    case SelectPreviousObject => 1127 case SelectNextObject => 1109 case SelectPreviousPrelabel => 21127
    case SelectNextPrelabel => 21109 case AcceptPrelabel => 651 case DiscardPrelabel => 681
    case ToggleKeypointHidden => 721 case MarkKeypointAbsent => 781 case AddMissingObject => 771
    case RetryImageLoad => 821 case TogglePanMode => 801 case ZoomIn => 431 case ZoomOut => 451
    case FitImage => 481 case RefocusObject => 821 case AcceptReviewObject => 891 case RejectReviewObject => 781
    case _ => 0
  }

  lemma DefaultCoded(action: UserAction)
    requires IsActive(action)
    ensures ChordCode(DefaultChord(action)) == DefaultCode(action)
  {
  }

  lemma EarlyCodesDiffer(a: UserAction, b: UserAction)
    requires IsActive(a) && IsActive(b) && Rank(a) < Rank(b) && Rank(a) < 12
    ensures DefaultCode(a) != DefaultCode(b)
  {
  }

  lemma LateCodesShared(a: UserAction, b: UserAction)
    requires IsActive(a) && IsActive(b) && 12 <= Rank(a) < Rank(b) && DefaultCode(a) == DefaultCode(b)
    ensures (a == RetryImageLoad && b == RefocusObject) || (a == MarkKeypointAbsent && b == RejectReviewObject)
  {
  }

  lemma CodesShared(a: UserAction, b: UserAction)
    requires IsActive(a) && IsActive(b) && Rank(a) < Rank(b) && DefaultCode(a) == DefaultCode(b)
    ensures (a == RetryImageLoad && b == RefocusObject) || (a == MarkKeypointAbsent && b == RejectReviewObject)
  {
    if Rank(a) < 12 { EarlyCodesDiffer(a, b); } else { LateCodesShared(a, b); }
  }

  lemma CodesApart(a: UserAction, b: UserAction)
    requires IsActive(a) && IsActive(b) && a != b && CanConflict(a, b)
    ensures DefaultCode(a) != DefaultCode(b)
  {
    ConflictSymmetric(a, b);
    if DefaultCode(a) == DefaultCode(b) {
      if Rank(a) == Rank(b) { RankInjective(a, b); }
      else if Rank(a) < Rank(b) { CodesShared(a, b); } else { CodesShared(b, a); }
    }
  }

  /** The default chords do not conflict, although some are shared between contexts. */
  lemma DefaultsApart()
    ensures Apart(Defaults()) && ConflictFree(Defaults())
    ensures DefaultChord(MarkKeypointAbsent) == DefaultChord(RejectReviewObject)
  {
    forall a, b | a in Defaults() && b in Defaults() && a != b && CanConflict(a, b)
      ensures Normalized(Defaults()[a]) != Normalized(Defaults()[b])
    {
      DefaultsCanonical(a);
      DefaultsCanonical(b);
      DefaultCoded(a);
      DefaultCoded(b);
      CodesApart(a, b);
    }
  }

  /** Normalizing a set without bindings gives the defaults, and the defaults normalize to themselves. */
  lemma DefaultsAreNormal()
    ensures NormalizedBindings(map[]) == Defaults()
    ensures NormalizedBindings(Defaults()) == Defaults()
  {
    DefaultsApart();
    forall action | IsActive(action) ensures !Loose(DefaultChord(action).key) {
      DefaultsCanonical(action);
      NormalizedIdempotentExactly(DefaultChord(action));
    }
    forall action | IsActive(action) ensures Normalized(Defaults()[action]) == Defaults()[action] {
      DefaultsCanonical(action);
    }
    NormalizeKeepsValid(Defaults());
    assert Wanted(Defaults()) == Defaults();
    NothingBoundGivesDefaults();
  }

  lemma NothingBoundGivesDefaults()
    requires Apart(Defaults())
    ensures NormalizedBindings(map[]) == Defaults()
  {
    var none: Bindings := map[];
    assert Wanted(none) == map[];
    WalkNothing(Wanted(none), ACTIONS, []);
    assert Allocation(none) == Walk(Defaults(), ACTIONS, []);
    WalkVerbatim(Defaults(), ACTIONS);
    AllocationProper(none);
    VerbatimMap(Allocation(none), Defaults());
  }

  /** The second pass leaves a chord alone only if the chord is canonical. */
  lemma FixedPointIsCanonical(bindings: Bindings, action: UserAction)
    requires action in bindings && IsActive(action)
    requires NormalizedBindings(bindings) == bindings
    ensures Canonical(bindings[action])
  {
    var preferred, k := ResultIsCandidate(bindings, action);
    if k >= 8 {
      FunctionCandidateProper(preferred, k);
    }
  }

  /** A loose binding keeps its stray lowercase letter unless every modifier mask of it is taken at its turn. */
  ghost predicate StaysLoose(bindings: Bindings, action: UserAction)
    requires action in bindings
  {
    && Loose(bindings[action].key)
    && exists mask: nat :: mask < 8
         && Available(action, WithMask(Normalized(bindings[action]), mask), Before(bindings, action))
  }

  lemma LooseSurvives(bindings: Bindings, action: UserAction)
    requires action in bindings && IsActive(action) && StaysLoose(bindings, action)
    ensures action in NormalizedBindings(bindings) && !Canonical(NormalizedBindings(bindings)[action])
  {
    var preferred, before := Normalized(bindings[action]), Before(bindings, action);
    WantedGetsFirstAvailable(bindings, action);
    var mask: nat :| mask < 8 && Available(action, WithMask(preferred, mask), before);
    assert Candidates(preferred)[mask] == WithMask(preferred, mask);
    assert AvailableTo(action, before)(Candidates(preferred)[mask]);
    FirstFreeBelow(AvailableTo(action, before), Candidates(preferred), preferred, 0, 8);
    Utf8LenBounds(bindings[action].key);
  }

  lemma OtherwiseCanonical(bindings: Bindings, action: UserAction)
    requires IsActive(action)
    requires action in bindings ==> !StaysLoose(bindings, action)
    ensures action in NormalizedBindings(bindings) && Canonical(NormalizedBindings(bindings)[action])
  {
    var preferred, k := ResultIsCandidate(bindings, action);
    if k >= 8 {
      FunctionCandidateProper(preferred, k);
    } else if action !in bindings {
      DefaultsCanonical(action);
      MaskKeepsCanonical(preferred, k);
    } else if Loose(bindings[action].key) {
      LooseIsReplaced(bindings, action);
    } else {
      NormalizedIdempotentExactly(bindings[action]);
      MaskKeepsCanonical(preferred, k);
    }
  }

  lemma LooseIsReplaced(bindings: Bindings, action: UserAction)
    requires action in bindings && IsActive(action) && Loose(bindings[action].key)
    ensures action in NormalizedBindings(bindings)
    ensures !StaysLoose(bindings, action) ==> Canonical(NormalizedBindings(bindings)[action])
  {
    var preferred, before := Normalized(bindings[action]), Before(bindings, action);
    WantedGetsFirstAvailable(bindings, action);
    AllocationProper(bindings);
    WalkOk(Wanted(bindings), Rank(action), []);
    ChosenIsAvailable(action, preferred, before);
    var k: nat :| k < CANDIDATES && NormalizedBindings(bindings)[action] == Candidate(preferred, k);
    if k >= 8 {
      FunctionCandidateProper(preferred, k);
    } else {
      assert Candidate(preferred, k) == WithMask(preferred, k);
    }
  }

  /** Normalizing twice equals normalizing once exactly when no loose binding finds one of its own eight
      masks available at its turn. */
  lemma NormalizeIdempotentExactly(bindings: Bindings)
    ensures NormalizedBindings(NormalizedBindings(bindings)) == NormalizedBindings(bindings)
       <==> forall action :: action in bindings && IsActive(action) ==> !StaysLoose(bindings, action)
  {
    var once := NormalizedBindings(bindings);
    NormalizeResolves(bindings);
    if action :| action in bindings && IsActive(action) && StaysLoose(bindings, action) {
      LooseSurvives(bindings, action);
      if NormalizedBindings(once) == once { FixedPointIsCanonical(once, action); }
    } else {
      forall action | IsActive(action) ensures Canonical(once[action]) && !Loose(once[action].key) {
        OtherwiseCanonical(bindings, action);
        NormalizedIdempotentExactly(once[action]);
      }
      NormalizeKeepsValid(once);
      assert Wanted(once) == once;
    }
  }

  /** In particular, without loose keys among the active bindings a second pass changes nothing. */
  lemma NormalizeIdempotent(bindings: Bindings)
    requires forall action :: action in bindings && IsActive(action) ==> !Loose(bindings[action].key)
    ensures NormalizedBindings(NormalizedBindings(bindings)) == NormalizedBindings(bindings)
  {
    NormalizeIdempotentExactly(bindings);
  }

  /** The first action in order always keeps a loose key, whatever else is bound. */
  lemma LooseFirstKeyNotIdempotent(bindings: Bindings)
    requires NextImage in bindings && Loose(bindings[NextImage].key)
    ensures NormalizedBindings(NormalizedBindings(bindings)) != NormalizedBindings(bindings)
  {
    assert Before(bindings, NextImage) == [];
    assert Available(NextImage, WithMask(Normalized(bindings[NextImage]), 0), []);
    assert StaysLoose(bindings, NextImage);
    NormalizeIdempotentExactly(bindings);
  }

  /** Binding the first action alone to a spaced letter already shows it. */
  lemma SpacedLetterNotIdempotent()
    ensures var bindings: Bindings := map[NextImage := Plain(" a")];
            NormalizedBindings(NormalizedBindings(bindings)) != NormalizedBindings(bindings)
  {
    SpacedLetterIsLoose();
    LooseFirstKeyNotIdempotent(map[NextImage := Plain(" a")]);
  }

  // ---------------------------------------------------------------------------------------------
  // Validation
  // ---------------------------------------------------------------------------------------------

  const SCHEMA_VERSION: nat := 3

  predicate IsDigit(c: char) { 48 <= c as int <= 57 }
  predicate IsUpper(c: char) { 65 <= c as int <= 90 }

  function DigitsValue(text: string): nat
    requires forall i :: 0 <= i < |text| ==> IsDigit(text[i])
  {
    if text == [] then 0
    else
      assert IsDigit(text[|text| - 1]);
      DigitsValue(text[..|text| - 1]) * 10 + (text[|text| - 1] as int - 48)
  }

  /** Parses an unsigned byte; one leading plus sign and leading zeros are accepted. */
  function ParseU8(text: string): Option<nat> {
    var digits := if |text| > 1 && text[0] == '+' then text[1..] else text;
    if digits == [] || exists i :: 0 <= i < |digits| && !IsDigit(digits[i]) then None
    else if DigitsValue(digits) > 255 then None
    else Some(DigitsValue(digits))
  }

  const PUNCTUATION := ":,\\/|?![]{}`-.+=;'"

  const NAMED: set<string> :=
    {"MouseRight", "MouseExtra1", "MouseExtra2", "ArrowDown", "ArrowLeft", "ArrowRight", "ArrowUp", "Escape",
     "Tab", "Backspace", "Enter", "Space", "Insert", "Delete", "Home", "End", "PageUp", "PageDown"}

  predicate SupportedKeyName(key: string) {
    if Utf8Len(key) == 1 then
      IsDigit(key[0]) || IsLower(key[0]) || IsUpper(key[0]) || key[0] in PUNCTUATION
    else
      || key in NAMED
      || (key != [] && key[0] == 'F' && ParseU8(key[1..]).Some? && 1 <= ParseU8(key[1..]).value <= 35)
  }

  predicate SupportedKey(key: string) {
    Trim(key) != [] && Utf8Len(Trim(key)) <= 32 && SupportedKeyName(Trim(key))
  }

  /** Normalizing a supported key leaves a supported key. */
  lemma NormalizedStaysSupported(chord: KeyChord)
    requires SupportedKey(chord.key)
    ensures SupportedKey(Normalized(chord).key)
  {
    var key := chord.key;
    Utf8LenBounds(key);
    TrimIdempotent(key);
    if Utf8Len(key) == 1 {
      TrimSingle(key);
      var upper := [Upper(key[0])];
      Utf8LenBounds(upper);
      TrimSingle(upper);
    }
  }

  /** A key of ASCII letters and digits is its own trimmed form. */
  ghost predicate IsWord(key: string) {
    key != [] && forall i :: 0 <= i < |key| ==> IsDigit(key[i]) || IsLower(key[i]) || IsUpper(key[i])
  }

  lemma {:induction false} WordLen(key: string)
    requires IsWord(key)
    ensures Utf8Len(key) == |key|
  {
    if |key| > 1 { WordLen(key[1..]); } else { assert key[1..] == []; }
  }

  lemma WordTrim(key: string)
    requires IsWord(key)
    ensures Trim(key) == key
  {
    TrimBare(key);
  }

  lemma ParseDigits(number: nat)
    requires number < 100
    ensures ParseU8(FunctionKey(number)[1..]) == Some(number)
  {
    if number < 10 {
      var text := [Digit(number)];
      assert FunctionKey(number)[1..] == text;
      assert text[..0] == [] && DigitsValue(text[..0]) == 0 && IsDigit(text[0]);
      assert DigitsValue(text) == number;
    } else {
      var tens, text := [Digit(number / 10)], [Digit(number / 10), Digit(number % 10)];
      assert FunctionKey(number)[1..] == text;
      assert text[..1] == tens && tens[..0] == [] && DigitsValue(tens[..0]) == 0;
      assert DigitsValue(tens) == number / 10;
      assert IsDigit(text[0]) && IsDigit(text[1]);
      assert DigitsValue(text) == number;
    }
  }

  lemma FunctionKeySupported(number: nat)
    requires 1 <= number <= 35
    ensures SupportedKey(FunctionKey(number))
  {
    WordLen(FunctionKey(number));
    WordTrim(FunctionKey(number));
    ParseDigits(number);
  }

  /** Of the function keys exactly F1 to F35 are supported; those are the ones the allocator falls back to. */
  lemma FunctionKeySupportedExactly(number: nat)
    requires number < 100
    ensures SupportedKey(FunctionKey(number)) <==> 1 <= number <= 35
  {
    WordLen(FunctionKey(number));
    WordTrim(FunctionKey(number));
    ParseDigits(number);
    assert FunctionKey(number)[0] == 'F' && |FunctionKey(number)| <= 3;
  }

  lemma DefaultKeySupported(action: UserAction)
    requires IsActive(action)
    ensures SupportedKey(DefaultChord(action).key)
  {
    if |DefaultChord(action).key| == 1 {
      SingleDefaultSupported(action);
      SingleSupported(DefaultChord(action).key);
    } else {
      DefaultKeyEnds(action);
      LongDefaultSupported(action);
      NamedSupported(DefaultChord(action).key);
    }
  }

  lemma SingleSupported(key: string)
    requires |key| == 1 && (IsDigit(key[0]) || IsUpper(key[0]) || (key[0] in PUNCTUATION && key[0] as int < 0x7F))
    requires 0x21 <= key[0] as int
    ensures SupportedKey(key)
  {
    Utf8LenBounds(key);
    TrimSingle(key);
  }

  lemma NamedSupported(key: string)
    requires IsWord(key) && 1 < |key| <= 32 && key in NAMED
    ensures SupportedKey(key)
  {
    WordLen(key);
    WordTrim(key);
  }

  lemma SingleDefaultSupported(action: UserAction)
    requires IsActive(action) && |DefaultChord(action).key| == 1
    ensures var c := DefaultChord(action).key[0];
            0x21 <= c as int < 0x7F && (IsDigit(c) || IsUpper(c) || c in PUNCTUATION)
  {
    var c := DefaultChord(action).key[0];
    assert PUNCTUATION[1] == ',' && PUNCTUATION[5] == '?' && PUNCTUATION[7] == '[' && PUNCTUATION[8] == ']'
        && PUNCTUATION[12] == '-' && PUNCTUATION[14] == '+';
  }

  lemma LongDefaultSupported(action: UserAction)
    requires IsActive(action) && |DefaultChord(action).key| > 1
    ensures var key := DefaultChord(action).key; IsWord(key) && |key| <= 9 && key in NAMED
  {
  }

  datatype Validation =
    | Valid
    | UnsupportedSchema
    | MissingActions(missing: seq<UserAction>)
    | UnsupportedKey(action: UserAction)
    | Conflict(chord: KeyChord, actions: seq<UserAction>)

  /** If every active binding has a supported key, the normalized set uses supported keys only. */
  lemma NormalizeKeepsSupported(bindings: Bindings)
    requires forall action :: action in bindings && IsActive(action) ==> SupportedKey(bindings[action].key)
    ensures forall action :: action in NormalizedBindings(bindings) ==>
              SupportedKey(NormalizedBindings(bindings)[action].key)
  {
    var once := NormalizedBindings(bindings);
    NormalizeResolves(bindings);
    forall action | action in once ensures SupportedKey(once[action].key) {
      var preferred, k := ResultIsCandidate(bindings, action);
      if k >= 8 {
        FunctionKeySupported((k - 8) / 8 + 1);
      } else if action !in bindings {
        DefaultKeySupported(action);
      } else {
        NormalizedStaysSupported(bindings[action]);
      }
    }
  }

  // ---- reporting conflicts ------------------------------------------------------------------

  /** The active bindings of rank below `k` in declaration order. */
  ghost function Listed(bindings: Bindings, k: nat): seq<Binding>
    requires k <= ACTIONS
  {
    if k == 0 then []
    else
      Listed(bindings, k - 1)
      + if ActionAt(k - 1) in bindings && IsActive(ActionAt(k - 1))
        then [Binding(ActionAt(k - 1), bindings[ActionAt(k - 1)])] else []
  }

  /** The actions listed after `i` and before `j` that clash with it. */
  function Rivals(listed: seq<Binding>, i: nat, j: nat): seq<UserAction>
    requires i < j <= |listed|
  {
    if j == i + 1 then []
    else
      Rivals(listed, i, j - 1)
      + if Clash(listed[i].action, listed[i].chord, listed[j - 1]) then [listed[j - 1].action] else []
  }

  /** For each listed action, its chord and the action followed by its rivals. */
  function Groups(listed: seq<Binding>): (groups: seq<(KeyChord, seq<UserAction>)>)
    ensures |groups| == |listed|
  {
    seq(|listed|, i requires 0 <= i < |listed| =>
      (Normalized(listed[i].chord), [listed[i].action] + Rivals(listed, i, |listed|)))
  }

  function Crowded(groups: seq<(KeyChord, seq<UserAction>)>): seq<(KeyChord, seq<UserAction>)> {
    if groups == [] then []
    else
      Crowded(groups[..|groups| - 1])
      + if |groups[|groups| - 1].1| > 1 then [groups[|groups| - 1]] else []
  }

  lemma {:induction false} NoneCrowded(groups: seq<(KeyChord, seq<UserAction>)>)
    ensures Crowded(groups) == [] <==> forall i :: 0 <= i < |groups| ==> |groups[i].1| <= 1
  {
    if groups != [] {
      var init := groups[..|groups| - 1];
      NoneCrowded(init);
      assert forall i :: 0 <= i < |init| ==> init[i] == groups[i];
    }
  }

  lemma CrowdedNext(groups: seq<(KeyChord, seq<UserAction>)>, i: nat)
    requires i < |groups|
    ensures Crowded(groups[..i + 1]) == Crowded(groups[..i]) + if |groups[i].1| > 1 then [groups[i]] else []
  {
    assert groups[..i + 1][..i] == groups[..i];
  }

  ghost function Reported(bindings: Bindings): seq<(KeyChord, seq<UserAction>)> {
    Crowded(Groups(Listed(bindings, ACTIONS)))
  }

  lemma {:induction false} ListedProper(bindings: Bindings, k: nat)
    requires k <= ACTIONS
    ensures forall i :: 0 <= i < |Listed(bindings, k)| ==>
              var b := Listed(bindings, k)[i];
              b.action in bindings && IsActive(b.action) && b.chord == bindings[b.action] && Rank(b.action) < k
    ensures forall i, j :: 0 <= i < j < |Listed(bindings, k)| ==>
              Rank(Listed(bindings, k)[i].action) < Rank(Listed(bindings, k)[j].action)
  {
    if k > 0 { ListedProper(bindings, k - 1); }
  }

  lemma {:induction false} ListedComplete(bindings: Bindings, k: nat, action: UserAction)
    requires k <= ACTIONS && action in bindings && IsActive(action) && Rank(action) < k
    ensures Bound(Listed(bindings, k), action)
  {
    var before, last := Listed(bindings, k - 1), ActionAt(k - 1);
    if Rank(action) == k - 1 {
      RankInjective(action, last);
    } else {
      ListedComplete(bindings, k - 1, action);
    }
    if last in bindings && IsActive(last) {
      BoundAfter(before, Binding(last, bindings[last]), action);
    } else {
      assert Listed(bindings, k) == before;
    }
  }

  lemma {:induction false} NoRivals(listed: seq<Binding>, i: nat, j: nat, k: nat)
    requires i < k < j <= |listed| && Rivals(listed, i, j) == []
    ensures !Clash(listed[i].action, listed[i].chord, listed[k])
  {
    if k < j - 1 { NoRivals(listed, i, j - 1, k); }
  }

  lemma {:induction false} SomeRival(listed: seq<Binding>, i: nat, j: nat) returns (k: nat)
    requires i < j <= |listed| && Rivals(listed, i, j) != []
    ensures i < k < j && Clash(listed[i].action, listed[i].chord, listed[k])
  {
    if Clash(listed[i].action, listed[i].chord, listed[j - 1]) {
      k := j - 1;
    } else {
      k := SomeRival(listed, i, j - 1);
    }
  }

  /** No conflict is reported exactly when no two active bindings that can conflict share a chord. */
  lemma NothingReportedExactly(bindings: Bindings)
    ensures Reported(bindings) == [] <==> ConflictFree(bindings)
  {
    var listed := Listed(bindings, ACTIONS);
    var n, groups := |listed|, Groups(listed);
    NoneCrowded(groups);
    if Reported(bindings) == [] {
      forall i: nat | i < n ensures Rivals(listed, i, n) == [] { assert |groups[i].1| <= 1; }
      forall a, b | a in bindings && b in bindings && a != b && IsActive(a) && IsActive(b) && CanConflict(a, b)
        ensures Normalized(bindings[a]) != Normalized(bindings[b])
      {
        ApartWithoutRivals(bindings, listed, a, b);
      }
    } else {
      var i: nat :| i < n && |groups[i].1| > 1;
      RivalMeansConflict(bindings, i);
    }
  }

  lemma ApartWithoutRivals(bindings: Bindings, listed: seq<Binding>, a: UserAction, b: UserAction)
    requires a in bindings && b in bindings && a != b && IsActive(a) && IsActive(b) && CanConflict(a, b)
    requires listed == Listed(bindings, ACTIONS)
    requires forall i: nat :: i < |listed| ==> Rivals(listed, i, |listed|) == []
    ensures Normalized(bindings[a]) != Normalized(bindings[b])
  {
    ListedProper(bindings, ACTIONS);
    ListedComplete(bindings, ACTIONS, a);
    ListedComplete(bindings, ACTIONS, b);
    var i: nat :| i < |listed| && listed[i].action == a;
    var j: nat :| j < |listed| && listed[j].action == b;
    ConflictSymmetric(a, b);
    if i < j { NoRivalsApart(listed, i, j); } else { NoRivalsApart(listed, j, i); }
  }

  lemma NoRivalsApart(listed: seq<Binding>, i: nat, j: nat)
    requires i < j < |listed| && Rivals(listed, i, |listed|) == []
    requires CanConflict(listed[i].action, listed[j].action)
    ensures Normalized(listed[i].chord) != Normalized(listed[j].chord)
  {
    NoRivals(listed, i, |listed|, j);
  }

  lemma RivalMeansConflict(bindings: Bindings, i: nat)
    requires var listed := Listed(bindings, ACTIONS); i < |listed| && Rivals(listed, i, |listed|) != []
    ensures !ConflictFree(bindings)
  {
    var listed := Listed(bindings, ACTIONS);
    ListedProper(bindings, ACTIONS);
    var k := SomeRival(listed, i, |listed|);
    assert Rank(listed[i].action) < Rank(listed[k].action);
  }

  predicate IsRival(listed: seq<Binding>, i: nat, k: nat, action: UserAction)
    requires i < |listed| && k < |listed|
  {
    listed[k].action == action && Clash(listed[i].action, listed[i].chord, listed[k])
  }

  lemma {:induction false} RivalsMean(listed: seq<Binding>, i: nat, j: nat, action: UserAction)
    requires i < j <= |listed|
    ensures action in Rivals(listed, i, j) <==> exists k: nat :: i < k < j && IsRival(listed, i, k, action)
  {
    if j > i + 1 {
      RivalsMean(listed, i, j - 1, action);
      assert action in Rivals(listed, i, j) <==>
             action in Rivals(listed, i, j - 1) || IsRival(listed, i, j - 1, action);
    }
  }

  lemma {:induction false} CrowdedMean(groups: seq<(KeyChord, seq<UserAction>)>, group: (KeyChord, seq<UserAction>))
    ensures group in Crowded(groups) <==> group in groups && |group.1| > 1
  {
    if groups != [] {
      CrowdedMean(groups[..|groups| - 1], group);
      assert groups == groups[..|groups| - 1] + [groups[|groups| - 1]];
    }
  }

  lemma RivalIsListed(bindings: Bindings, listed: seq<Binding>, i: nat, other: UserAction)
    requires listed == Listed(bindings, ACTIONS) && i < |listed| && other in Rivals(listed, i, |listed|)
    ensures other in bindings && IsActive(other) && Rank(listed[i].action) < Rank(other)
    ensures Clash(listed[i].action, listed[i].chord, Binding(other, bindings[other]))
  {
    ListedProper(bindings, ACTIONS);
    RivalsMean(listed, i, |listed|, other);
    var k: nat :| i < k < |listed| && IsRival(listed, i, k, other);
    assert listed[k] == Binding(other, bindings[other]);
  }

  lemma ListedLater(bindings: Bindings, listed: seq<Binding>, i: nat, other: UserAction) returns (k: nat)
    requires listed == Listed(bindings, ACTIONS) && i < |listed|
    requires other in bindings && IsActive(other) && Rank(listed[i].action) < Rank(other)
    ensures i < k < |listed| && listed[k] == Binding(other, bindings[other])
  {
    ListedProper(bindings, ACTIONS);
    ListedComplete(bindings, ACTIONS, other);
    k :| 0 <= k < |listed| && listed[k].action == other;
  }

  lemma LaterIsRival(bindings: Bindings, listed: seq<Binding>, i: nat, other: UserAction)
    requires listed == Listed(bindings, ACTIONS) && i < |listed|
    requires other in bindings && IsActive(other) && Rank(listed[i].action) < Rank(other)
    requires Clash(listed[i].action, listed[i].chord, Binding(other, bindings[other]))
    ensures other in Rivals(listed, i, |listed|)
  {
    var k := ListedLater(bindings, listed, i, other);
    assert IsRival(listed, i, k, other);
    RivalsMean(listed, i, |listed|, other);
  }

  /** The rivals of a listed action are the active ones later in declaration order that ask for its chord and can
      conflict with it. */
  lemma RivalExactly(bindings: Bindings, listed: seq<Binding>, i: nat, other: UserAction)
    requires listed == Listed(bindings, ACTIONS) && i < |listed|
    ensures other in Rivals(listed, i, |listed|)
            <==> && other in bindings && IsActive(other) && Rank(listed[i].action) < Rank(other)
                 && Clash(listed[i].action, listed[i].chord, Binding(other, bindings[other]))
  {
    if other in Rivals(listed, i, |listed|) {
      RivalIsListed(bindings, listed, i, other);
    } else if other in bindings && IsActive(other) && Rank(listed[i].action) < Rank(other)
              && Clash(listed[i].action, listed[i].chord, Binding(other, bindings[other])) {
      LaterIsRival(bindings, listed, i, other);
    }
  }

  /** What an entry of the report says: its chord is that of its first action, and the other actions are exactly that
      action's rivals. */
  lemma ReportedMeans(bindings: Bindings, group: (KeyChord, seq<UserAction>), other: UserAction)
    requires group in Reported(bindings)
    ensures |group.1| > 1
    ensures var first := group.1[0];
            && first in bindings && IsActive(first) && group.0 == Normalized(bindings[first])
            && (other in group.1[1..]
                <==> && other in bindings && IsActive(other) && Rank(first) < Rank(other)
                     && CanConflict(first, other) && group.0 == Normalized(bindings[other]))
  {
    var listed := Listed(bindings, ACTIONS);
    CrowdedMean(Groups(listed), group);
    var i: nat :| i < |listed| && Groups(listed)[i] == group;
    ListedProper(bindings, ACTIONS);
    assert group.1 == [listed[i].action] + Rivals(listed, i, |listed|);
    RivalExactly(bindings, listed, i, other);
  }

  method ListActive(bindings: Bindings) returns (listed: seq<Binding>)
    ensures listed == Listed(bindings, ACTIONS)
  {
    listed := [];
    for i := 0 to ACTIONS
      invariant listed == Listed(bindings, i)
    {
      var action := InOrder(i);
      if action in bindings && IsActive(action) {
        listed := listed + [Binding(action, bindings[action])];
      }
    }
  }

  method ClashesFrom(listed: seq<Binding>, i: nat) returns (actions: seq<UserAction>)
    requires i < |listed|
    ensures actions == [listed[i].action] + Rivals(listed, i, |listed|)
  {
    var chord := Normalized(listed[i].chord);
    actions := [listed[i].action];
    for j := i + 1 to |listed|
      invariant actions == [listed[i].action] + Rivals(listed, i, j)
    {
      assert Rivals(listed, i, j + 1) == Rivals(listed, i, j)
        + if Clash(listed[i].action, listed[i].chord, listed[j]) then [listed[j].action] else [];
      if CanConflict(listed[i].action, listed[j].action) && chord == Normalized(listed[j].chord) {
        actions := actions + [listed[j].action];
      }
    }
  }

  method ActiveActions() returns (active: seq<UserAction>)
    ensures forall action :: action in active <==> IsActive(action)
  {
    active :=
      [NextImage, PreviousImage, UndoEdit, RedoEdit, SaveAnnotations, SkipAssignment, DeleteAnnotation,
       OpenTutorial, ToggleWorkflowPanel, ToggleInspectorPanel, OpenSettings, SelectPreviousWorkflow,
       SelectNextWorkflow, SelectPreviousObject, SelectNextObject, SelectPreviousPrelabel, SelectNextPrelabel,
       AcceptPrelabel, DiscardPrelabel, ToggleKeypointHidden, MarkKeypointAbsent, AddMissingObject,
       RetryImageLoad, TogglePanMode, ZoomIn, ZoomOut, FitImage, RefocusObject, AcceptReviewObject,
       RejectReviewObject];
  }

  method Missing(bindings: Bindings) returns (missing: seq<UserAction>)
    ensures forall action :: action in missing <==> IsActive(action) && action !in bindings
  {
    var active := ActiveActions();
    missing := [];
    for i := 0 to |active|
      invariant forall action :: action in missing <==> action in active[..i] && action !in bindings
    {
      if active[i] !in bindings {
        missing := missing + [active[i]];
      }
    }
  }

  /** Adds the defaults of the active actions that are still unbound. */
  method FillDefaults(normalized: Bindings, taken: seq<Binding>) returns (filled: Bindings)
    requires normalized == ToMap(taken)
    ensures filled == ToMap(Walk(Defaults(), ACTIONS, taken))
  {
    filled := normalized;
    var occupied := taken;
    for i := 0 to ACTIONS
      invariant filled == ToMap(occupied)
      invariant occupied == Walk(Defaults(), i, taken)
    {
      var action := InOrder(i);
      ToMapProper(occupied, action);
      if IsActive(action) && action !in filled {
        var chord := AvailableChord(action, DefaultChord(action), occupied);
        assert (occupied + [Binding(action, chord)])[..|occupied|] == occupied;
        occupied := occupied + [Binding(action, chord)];
        filled := filled[action := chord];
      }
    }
  }

  class KeybindingSet {
    var schemaVersion: nat
    const userId: UserId
    var bindings: Bindings

    constructor DefaultsFor(userId: UserId)
      ensures schemaVersion == SCHEMA_VERSION && bindings == Defaults()
    {
      this.userId := userId;
      schemaVersion := SCHEMA_VERSION;
      bindings := Defaults();
    }

    method Normalize()
      modifies `bindings
      ensures bindings == NormalizedBindings(old(bindings))
    {
      var taken := bindings;
      var normalized: Bindings := map[];
      var occupied: seq<Binding> := [];
      for i := 0 to ACTIONS
        invariant normalized == ToMap(occupied)
        invariant occupied == Walk(Wanted(taken), i, [])
      {
        var action := InOrder(i);
        WalkBinds(Wanted(taken), i, [], action);
        if action in taken && IsActive(action) {
          var chord := AvailableChord(action, Normalized(taken[action]), occupied);
          assert (occupied + [Binding(action, chord)])[..|occupied|] == occupied;
          occupied := occupied + [Binding(action, chord)];
          normalized := normalized[action := chord];
        }
      }
      bindings := FillDefaults(normalized, occupied);
    }

    /** All conflicts, each reported at its first action. */
    method Conflicts() returns (conflicts: seq<(KeyChord, seq<UserAction>)>)
      ensures conflicts == Reported(bindings)
    {
      var listed := ListActive(bindings);
      ghost var groups := Groups(listed);
      conflicts := [];
      for i := 0 to |listed|
        invariant conflicts == Crowded(groups[..i])
      {
        var chord := Normalized(listed[i].chord);
        var actions := ClashesFrom(listed, i);
        CrowdedNext(groups, i);
        if |actions| > 1 {
          conflicts := conflicts + [(chord, actions)];
        }
      }
      assert groups[..|listed|] == groups;
    }

    /** The first failing test decides the outcome; a set passes exactly when all four hold. */
    method Validate() returns (result: Validation)
      ensures result == Valid <==>
                && schemaVersion == SCHEMA_VERSION
                && (forall action :: IsActive(action) ==> action in bindings)
                && (forall action :: action in bindings ==> SupportedKey(bindings[action].key))
                && ConflictFree(bindings)
      ensures result.UnsupportedSchema? <==> schemaVersion != SCHEMA_VERSION
      ensures result.MissingActions? ==>
                result.missing != []
                && forall action :: action in result.missing <==> IsActive(action) && action !in bindings
      ensures result.UnsupportedKey? ==>
                && (forall action :: IsActive(action) ==> action in bindings)
                && result.action in bindings && !SupportedKey(bindings[result.action].key)
                && forall other :: other in bindings && Rank(other) < Rank(result.action) ==>
                     SupportedKey(bindings[other].key)
      ensures result.Conflict? ==>
                && (forall action :: action in bindings ==> SupportedKey(bindings[action].key))
                && |Reported(bindings)| > 0
                && (result.chord, result.actions) == Reported(bindings)[0]
    {
      if schemaVersion != SCHEMA_VERSION {
        return UnsupportedSchema;
      }
      var missing := Missing(bindings);
      if missing != [] {
        assert IsActive(missing[0]) && missing[0] !in bindings by { assert missing[0] in missing; }
        return MissingActions(missing);
      }
      for i := 0 to ACTIONS
        invariant forall action :: action in bindings && Rank(action) < i ==> SupportedKey(bindings[action].key)
      {
        var next := InOrder(i);
        forall action | Rank(action) == i ensures action == next { RankInjective(action, next); }
        if next in bindings && !SupportedKey(bindings[next].key) {
          return UnsupportedKey(next);
        }
      }
      var conflicts := Conflicts();
      NothingReportedExactly(bindings);
      if conflicts != [] {
        return Conflict(conflicts[0].0, conflicts[0].1);
      }
      result := Valid;
    }

    /** Normalizing a set with the current schema and supported keys always yields a valid one. */
    method NormalizeThenValidate() returns (result: Validation)
      requires schemaVersion == SCHEMA_VERSION
      requires forall action :: action in bindings && IsActive(action) ==> SupportedKey(bindings[action].key)
      modifies `bindings
      ensures result == Valid && bindings == NormalizedBindings(old(bindings))
    {
      NormalizeResolves(bindings);
      NormalizeKeepsSupported(bindings);
      Normalize();
      result := Validate();
    }
  }

}
