/** Key chords and the contexts in which two user actions can conflict
    (crates/labello-domain/src/keybindings.rs). */
module KeyChords {
  datatype UserAction =
    | NextImage | UndoEdit | RedoEdit | SkipAssignment | ToggleWorkflowPanel | ToggleInspectorPanel
    | OpenSettings | SelectPreviousWorkflow | SelectNextWorkflow | SelectPreviousObject | SelectNextObject
    | SelectPreviousPrelabel | SelectNextPrelabel | AcceptPrelabel | DiscardPrelabel | ToggleKeypointHidden
    | MarkKeypointAbsent | AddMissingObject | RetryImageLoad | TogglePanMode | ZoomIn | ZoomOut | FitImage
    | RefocusObject | PreviousImage | SaveAnnotations | DeleteAnnotation | SelectBoundingBoxTool
    | SelectKeypointTool | AcceptReviewObject | RejectReviewObject | OpenTutorial | ToggleOfflineMode

  const ACTIONS := 33

  /** Position in declaration order, the order in which a binding map is walked. */
  function Rank(action: UserAction): (rank: nat)
    ensures rank < ACTIONS
  {
    match action
    case NextImage => 0 case UndoEdit => 1 case RedoEdit => 2 case SkipAssignment => 3
    case ToggleWorkflowPanel => 4 case ToggleInspectorPanel => 5 case OpenSettings => 6
    case SelectPreviousWorkflow => 7 case SelectNextWorkflow => 8 case SelectPreviousObject => 9
    case SelectNextObject => 10 case SelectPreviousPrelabel => 11 case SelectNextPrelabel => 12
    case AcceptPrelabel => 13 case DiscardPrelabel => 14 case ToggleKeypointHidden => 15
    case MarkKeypointAbsent => 16 case AddMissingObject => 17 case RetryImageLoad => 18
    case TogglePanMode => 19 case ZoomIn => 20 case ZoomOut => 21 case FitImage => 22
    case RefocusObject => 23 case PreviousImage => 24 case SaveAnnotations => 25
    case DeleteAnnotation => 26 case SelectBoundingBoxTool => 27 case SelectKeypointTool => 28
    case AcceptReviewObject => 29 case RejectReviewObject => 30 case OpenTutorial => 31
    case ToggleOfflineMode => 32
  }

  lemma RankInjective(a: UserAction, b: UserAction)
    requires Rank(a) == Rank(b)
    ensures a == b
  {
  }

  function AtRank(k: nat): (action: UserAction)
    requires k < ACTIONS
    ensures Rank(action) == k
  {
    if k == 0 then NextImage else if k == 1 then UndoEdit else if k == 2 then RedoEdit else
    if k == 3 then SkipAssignment else if k == 4 then ToggleWorkflowPanel else
    if k == 5 then ToggleInspectorPanel else if k == 6 then OpenSettings else
    if k == 7 then SelectPreviousWorkflow else if k == 8 then SelectNextWorkflow else
    if k == 9 then SelectPreviousObject else if k == 10 then SelectNextObject else
    if k == 11 then SelectPreviousPrelabel else if k == 12 then SelectNextPrelabel else
    if k == 13 then AcceptPrelabel else if k == 14 then DiscardPrelabel else
    if k == 15 then ToggleKeypointHidden else if k == 16 then MarkKeypointAbsent else
    if k == 17 then AddMissingObject else if k == 18 then RetryImageLoad else
    if k == 19 then TogglePanMode else if k == 20 then ZoomIn else if k == 21 then ZoomOut else
    if k == 22 then FitImage else if k == 23 then RefocusObject else if k == 24 then PreviousImage else
    if k == 25 then SaveAnnotations else if k == 26 then DeleteAnnotation else
    if k == 27 then SelectBoundingBoxTool else if k == 28 then SelectKeypointTool else
    if k == 29 then AcceptReviewObject else if k == 30 then RejectReviewObject else
    if k == 31 then OpenTutorial else ToggleOfflineMode
  }

  /** The action of rank `k`, without the table behind it. */
  ghost function ActionAt(k: nat): (action: UserAction)
    requires k < ACTIONS
    ensures Rank(action) == k
  {
    assert Rank(AtRank(k)) == k;
    var action :| Rank(action) == k;
    action
  }

  method InOrder(k: nat) returns (action: UserAction)
    requires k < ACTIONS
    ensures action == ActionAt(k)
  {
    action := AtRank(k);
    RankInjective(action, ActionAt(k));
  }

  datatype ActionContext =
    | WorkWorkspace | WorkImage | AnnotateWorkspace | AnnotateImage | AnnotateNoImage | InReview | Legacy

  predicate IsActive(action: UserAction) {
    !action.SelectBoundingBoxTool? && !action.SelectKeypointTool? && !action.ToggleOfflineMode?
  }

  function Context(action: UserAction): ActionContext {
    match action
    case OpenTutorial | ToggleWorkflowPanel | ToggleInspectorPanel | OpenSettings | PreviousImage
       | SkipAssignment => WorkWorkspace
    case NextImage | DeleteAnnotation | ToggleKeypointHidden | TogglePanMode | ZoomIn | ZoomOut | FitImage
       | RefocusObject => WorkImage
    case SelectPreviousWorkflow | SelectNextWorkflow => AnnotateWorkspace
    case RetryImageLoad => AnnotateNoImage
    case UndoEdit | RedoEdit | SaveAnnotations | SelectPreviousObject | SelectNextObject
       | SelectPreviousPrelabel | SelectNextPrelabel | AcceptPrelabel | DiscardPrelabel | MarkKeypointAbsent
       | AddMissingObject => AnnotateImage
    case AcceptReviewObject | RejectReviewObject => InReview
    case SelectBoundingBoxTool | SelectKeypointTool | ToggleOfflineMode => Legacy
  }

  predicate ContextsConflict(a: ActionContext, b: ActionContext) {
    match a
    case WorkWorkspace => !b.Legacy?
    case WorkImage => !b.AnnotateNoImage? && !b.Legacy?
    case AnnotateWorkspace => !b.InReview? && !b.Legacy?
    case AnnotateImage => b.WorkWorkspace? || b.WorkImage? || b.AnnotateWorkspace? || b.AnnotateImage?
    case AnnotateNoImage => b.WorkWorkspace? || b.AnnotateWorkspace? || b.AnnotateNoImage?
    case InReview => b.WorkWorkspace? || b.WorkImage? || b.InReview?
    case Legacy => b.Legacy?
  }

  predicate CanConflict(a: UserAction, b: UserAction) {
    ContextsConflict(Context(a), Context(b))
  }

  /** The screens on which shortcuts are looked up. Review may be open with or without an image. */
  datatype Screen = Annotating(image: bool) | Reviewing(image: bool)

  predicate Heard(context: ActionContext, screen: Screen) {
    match context
    case WorkWorkspace => true
    case WorkImage => screen.image
    case AnnotateWorkspace => screen.Annotating?
    case AnnotateImage => screen == Annotating(true)
    case AnnotateNoImage => screen == Annotating(false)
    case InReview => screen.Reviewing?
    case Legacy => false
  }

  lemma ContextsConflictMeans(a: ActionContext, b: ActionContext)
    ensures ContextsConflict(a, b)
            <==> (exists screen :: Heard(a, screen) && Heard(b, screen)) || (a.Legacy? && b.Legacy?)
  {
    if ContextsConflict(a, b) && !a.Legacy? {
      assert || (Heard(a, Annotating(true)) && Heard(b, Annotating(true)))
             || (Heard(a, Annotating(false)) && Heard(b, Annotating(false)))
             || (Heard(a, Reviewing(true)) && Heard(b, Reviewing(true)));
    }
  }

  /** Two actions can conflict exactly when some screen hears both; the retired ones, which none hears, are kept apart
      among themselves. */
  lemma ConflictMeans(a: UserAction, b: UserAction)
    ensures CanConflict(a, b)
            <==> || (exists screen :: Heard(Context(a), screen) && Heard(Context(b), screen))
                 || (!IsActive(a) && !IsActive(b))
  {
    ContextsConflictMeans(Context(a), Context(b));
    OnlyRetiredAreLegacy(a);
    OnlyRetiredAreLegacy(b);
  }

  lemma OnlyRetiredAreLegacy(action: UserAction)
    ensures Context(action).Legacy? <==> !IsActive(action)
  {
  }

  lemma ContextsConflictSymmetric(a: ActionContext, b: ActionContext)
    ensures ContextsConflict(a, b) <==> ContextsConflict(b, a)
  {
  }

  lemma ConflictSymmetric(a: UserAction, b: UserAction)
    ensures CanConflict(a, b) <==> CanConflict(b, a)
  {
    ContextsConflictSymmetric(Context(a), Context(b));
  }

  /** Conflict is not transitive: two actions that each clash with a third may share a chord. */
  lemma ConflictNotTransitive()
    ensures CanConflict(MarkKeypointAbsent, NextImage) && CanConflict(NextImage, RejectReviewObject)
    ensures !CanConflict(MarkKeypointAbsent, RejectReviewObject)
  {
  }

  // ---------------------------------------------------------------------------------------------
  // Chords
  // ---------------------------------------------------------------------------------------------

  datatype KeyChord = KeyChord(key: string, ctrl: bool, shift: bool, alt: bool, command: bool)

  function Plain(key: string): KeyChord { KeyChord(key, false, false, false, false) }
  function Primary(key: string): KeyChord { KeyChord(key, false, false, false, true) }

  /** Length in UTF-8 bytes, which is what the key length tests count. */
  function Utf8Len(key: string): nat {
    if key == [] then 0
    else
      (var c := key[0] as int;
       if c < 0x80 then 1 else if c < 0x800 then 2 else if c < 0x1_0000 then 3 else 4)
      + Utf8Len(key[1..])
  }

  predicate IsWhitespace(c: char) {
    var code := c as int;
    || 0x09 <= code <= 0x0D || code == 0x20 || code == 0x85 || code == 0xA0 || code == 0x1680
    || 0x2000 <= code <= 0x200A || code == 0x2028 || code == 0x2029 || code == 0x202F || code == 0x205F
    || code == 0x3000
  }

  function TrimStart(key: string): string {
    if key != [] && IsWhitespace(key[0]) then TrimStart(key[1..]) else key
  }

  function TrimEnd(key: string): string {
    if key != [] && IsWhitespace(key[|key| - 1]) then TrimEnd(key[..|key| - 1]) else key
  }

  function Trim(key: string): string {
    TrimEnd(TrimStart(key))
  }

  predicate IsLower(c: char) { 97 <= c as int <= 122 }

  function Upper(c: char): char {
    if IsLower(c) then (c as int - 32) as char else c
  }

  function Normalized(chord: KeyChord): KeyChord {
    KeyChord(if Utf8Len(chord.key) == 1 then [Upper(chord.key[0])] else Trim(chord.key),
             false, chord.shift, chord.alt, chord.ctrl || chord.command)
  }

  predicate Canonical(chord: KeyChord) {
    Normalized(chord) == chord
  }

  /** Whitespace around a single lowercase letter: one normalization leaves the letter lowercase. */
  predicate Loose(key: string) {
    Utf8Len(key) != 1 && Utf8Len(Trim(key)) == 1 && IsLower(Trim(key)[0])
  }

  lemma {:induction false} Utf8LenBounds(key: string)
    ensures Utf8Len(key) >= |key|
    ensures key != [] ==> Utf8Len(key) >= 1
    ensures Utf8Len(key) == 1 <==> |key| == 1 && key[0] as int < 0x80
  {
    if key != [] { Utf8LenBounds(key[1..]); }
  }

  lemma {:induction false} TrimStartProper(key: string)
    ensures TrimStart(key) == [] || !IsWhitespace(TrimStart(key)[0])
    ensures exists k :: 0 <= k <= |key| && TrimStart(key) == key[k..]
  {
    if key != [] && IsWhitespace(key[0]) {
      TrimStartProper(key[1..]);
      var k :| 0 <= k <= |key[1..]| && TrimStart(key[1..]) == key[1..][k..];
      assert key[1..][k..] == key[k + 1..];
    } else {
      assert key == key[0..];
    }
  }

  lemma {:induction false} TrimEndProper(key: string)
    ensures TrimEnd(key) == [] || !IsWhitespace(TrimEnd(key)[|TrimEnd(key)| - 1])
    ensures TrimEnd(key) <= key
  {
    if key != [] && IsWhitespace(key[|key| - 1]) {
      TrimEndProper(key[..|key| - 1]);
    }
  }

  lemma TrimIdempotent(key: string)
    ensures Trim(Trim(key)) == Trim(key)
    ensures |Trim(key)| <= |key|
  {
    TrimStartProper(key);
    TrimEndProper(TrimStart(key));
  }

  lemma TrimBare(key: string)
    requires key != [] && !IsWhitespace(key[0]) && !IsWhitespace(key[|key| - 1])
    ensures Trim(key) == key
  {
  }

  lemma TrimSingle(key: string)
    requires |key| == 1
    ensures Trim(key) == if IsWhitespace(key[0]) then [] else key
  {
    assert key[1..] == [] && TrimStart(key[1..]) == [];
    if !IsWhitespace(key[0]) { TrimBare(key); }
  }

  lemma BareIsCanonical(chord: KeyChord)
    requires var key := chord.key; key != [] && !IsWhitespace(key[0]) && !IsWhitespace(key[|key| - 1])
    requires !chord.ctrl && (|chord.key| == 1 ==> !IsLower(chord.key[0]))
    ensures Canonical(chord)
  {
    Utf8LenBounds(chord.key);
    TrimBare(chord.key);
    if Utf8Len(chord.key) == 1 { assert [Upper(chord.key[0])] == chord.key; }
  }

  /** The key without the whitespace around it. */
  ghost predicate Stripped(key: string, inner: string) {
    && (inner == [] || (!IsWhitespace(inner[0]) && !IsWhitespace(inner[|inner| - 1])))
    && exists before, after :: key == before + inner + after
                               && (forall c :: c in before + after ==> IsWhitespace(c))
  }

  lemma {:induction false} TrimStartSplits(key: string) returns (before: string)
    ensures key == before + TrimStart(key) && forall c :: c in before ==> IsWhitespace(c)
  {
    if key != [] && IsWhitespace(key[0]) {
      before := TrimStartSplits(key[1..]);
      before := [key[0]] + before;
    } else {
      before := [];
    }
  }

  lemma {:induction false} TrimEndSplits(key: string) returns (after: string)
    ensures key == TrimEnd(key) + after && forall c :: c in after ==> IsWhitespace(c)
  {
    if key != [] && IsWhitespace(key[|key| - 1]) {
      after := TrimEndSplits(key[..|key| - 1]);
      after := after + [key[|key| - 1]];
    } else {
      after := [];
    }
  }

  lemma TrimStrips(key: string)
    ensures Stripped(key, Trim(key))
  {
    var before := TrimStartSplits(key);
    var after := TrimEndSplits(TrimStart(key));
    TrimStartProper(key);
    TrimEndProper(TrimStart(key));
    assert key == before + Trim(key) + after;
  }

  lemma {:induction false} TrimStartOff(before: string, rest: string)
    requires forall c :: c in before ==> IsWhitespace(c)
    ensures TrimStart(before + rest) == TrimStart(rest)
  {
    if before == [] {
      assert before + rest == rest;
    } else {
      assert (before + rest)[1..] == before[1..] + rest;
      TrimStartOff(before[1..], rest);
    }
  }

  lemma {:induction false} TrimEndOff(rest: string, after: string)
    requires forall c :: c in after ==> IsWhitespace(c)
    ensures TrimEnd(rest + after) == TrimEnd(rest)
  {
    if after == [] {
      assert rest + after == rest;
    } else {
      assert (rest + after)[..|rest + after| - 1] == rest + after[..|after| - 1];
      TrimEndOff(rest, after[..|after| - 1]);
    }
  }

  lemma StrippedIsTrim(key: string, inner: string)
    requires Stripped(key, inner)
    ensures inner == Trim(key)
  {
    var before, after :| key == before + inner + after && forall c :: c in before + after ==> IsWhitespace(c);
    assert key == before + (inner + after);
    forall c | c in before ensures IsWhitespace(c) { assert c in before + after; }
    forall c | c in after ensures IsWhitespace(c) { assert c in before + after; }
    TrimStartOff(before, inner + after);
    if inner == [] {
      assert inner + after == after + [];
      TrimStartOff(after, []);
    } else {
      assert TrimStart(inner + after) == inner + after;
      TrimEndOff(inner, after);
    }
  }

  predicate OneByte(key: string) { |key| == 1 && key[0] as int < 0x80 }

  /** The same letter, in either case. */
  predicate SameLetter(a: char, b: char) {
    || a == b
    || ('a' <= a <= 'z' && a as int == b as int + 32)
    || ('a' <= b <= 'z' && b as int == a as int + 32)
  }

  /** Keys that name the same key: one byte each and the same but for case, or the same with the whitespace around them
      off. A byte in capitals also matches itself between whitespace. */
  ghost predicate SameKey(a: string, b: string) {
    if OneByte(a) && OneByte(b) then SameLetter(a[0], b[0])
    else if OneByte(a) then exists c: char :: Stripped(b, [c]) && SameLetter(a[0], c) && !('a' <= c <= 'z')
    else if OneByte(b) then exists c: char :: Stripped(a, [c]) && SameLetter(b[0], c) && !('a' <= c <= 'z')
    else exists inner :: Stripped(a, inner) && Stripped(b, inner)
  }

  /** What normalizing does to the modifiers: control and command are one, shift and alt stay. */
  lemma NormalizedModifiers(chord: KeyChord)
    ensures var n := Normalized(chord);
            && !n.ctrl && (n.command <==> chord.ctrl || chord.command)
            && (n.shift <==> chord.shift) && (n.alt <==> chord.alt)
            && (OneByte(chord.key) ==> |n.key| == 1 && SameLetter(n.key[0], chord.key[0]) && !('a' <= n.key[0] <= 'z'))
            && (!OneByte(chord.key) ==> Stripped(chord.key, n.key))
  {
    Utf8LenBounds(chord.key);
    TrimStrips(chord.key);
  }

  /** Two chords normalize alike exactly when they ask for the same key with shift and alt alike and either of
      control and command in both or neither. */
  lemma NormalizedAlikeExactly(a: KeyChord, b: KeyChord)
    ensures Normalized(a) == Normalized(b)
            <==> && a.shift == b.shift && a.alt == b.alt
                 && (a.ctrl || a.command) == (b.ctrl || b.command)
                 && SameKey(a.key, b.key)
  {
    SameNormalizedKey(a, b);
  }

  lemma SameNormalizedKey(a: KeyChord, b: KeyChord)
    ensures Normalized(a).key == Normalized(b).key <==> SameKey(a.key, b.key)
  {
    NormalizedModifiers(a);
    NormalizedModifiers(b);
    if OneByte(a.key) && OneByte(b.key) {
      Utf8LenBounds(a.key);
      Utf8LenBounds(b.key);
    } else if OneByte(a.key) {
      OneByteAlike(a.key, b.key);
    } else if OneByte(b.key) {
      OneByteAlike(b.key, a.key);
    } else {
      Utf8LenBounds(a.key);
      Utf8LenBounds(b.key);
      TrimStrips(a.key);
      forall inner | Stripped(a.key, inner) && Stripped(b.key, inner) ensures Trim(a.key) == Trim(b.key) {
        StrippedIsTrim(a.key, inner);
        StrippedIsTrim(b.key, inner);
      }
    }
  }

  lemma OneByteAlike(single: string, other: string)
    requires OneByte(single) && !OneByte(other)
    ensures Normalized(Plain(single)).key == Normalized(Plain(other)).key <==> SameKey(single, other)
    ensures SameKey(single, other) <==> SameKey(other, single)
  {
    Utf8LenBounds(single);
    Utf8LenBounds(other);
    TrimStrips(other);
    var raised := Upper(single[0]);
    if Trim(other) == [raised] {
      assert Stripped(other, [raised]) && SameLetter(single[0], raised);
    }
    forall c: char | Stripped(other, [c]) && SameLetter(single[0], c) && !('a' <= c <= 'z')
      ensures Trim(other) == [raised]
    {
      StrippedIsTrim(other, [c]);
    }
  }

  /** Normalizing twice differs from normalizing once exactly for loose keys. */
  lemma NormalizedIdempotentExactly(chord: KeyChord)
    ensures Canonical(Normalized(chord)) <==> !Loose(chord.key)
  {
    Utf8LenBounds(chord.key);
    TrimIdempotent(chord.key);
    Utf8LenBounds(Trim(chord.key));
    if Utf8Len(chord.key) == 1 {
      Utf8LenBounds([Upper(chord.key[0])]);
    }
  }

  /** A space before a lowercase letter is such a key: the first pass leaves the letter, the second raises it. */
  lemma SpacedLetterIsLoose()
    ensures Loose(" a")
    ensures Normalized(Plain(" a")) == Plain("a") && Normalized(Plain("a")) == Plain("A")
  {
    Utf8LenBounds(" a");
    Utf8LenBounds("a");
    assert " a"[1..] == "a";
    assert TrimStart(" a") == TrimStart("a") == "a";
    TrimBare("a");
    assert Trim(" a") == "a";
    assert [Upper('a')] == "A";
  }
}
