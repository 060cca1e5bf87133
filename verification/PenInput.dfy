/** The pen and touch input machine in front of the canvas: browser events go in, pointer and finger events
    come out (apps/labello-wasm/src/pen_input.rs).

    What comes out is a trace. `EveryTraceWellFormed` says how its events may follow one another, `HistoryTells` what
    the events that went in amount to, and the lemmas on strokes join the two: when a touch or a pen presses, where
    the pointer goes, and how a stroke ends. */
module PenInput {
  import opened Domain

  datatype Pos = Pos(x: real, y: real)

  /** Keyboard modifiers of a pen event; `NO_MODIFIERS` is the empty set of them. */
  type Modifiers = nat
  const NO_MODIFIERS: Modifiers := 0

  /** A touch identifier, ordered by its number. */
  datatype FingerId = FingerId(number: int)

  datatype PointerKind = Pen | MousePointer | TouchPointer | OtherPointer

  datatype PointerName = Down | Moving | Up | Cancelled | LostCapture

  datatype Phase = Start | Move | End | Cancel

  /** `free` says that no other widget covers the canvas at this position. */
  datatype Contact = Contact(id: FingerId, stylus: bool, position: Pos, free: bool)

  datatype Event =
    | Blur
    | Pointer(kind: PointerKind, name: PointerName, id: int, primary: bool, button: int, buttons: nat,
              position: Pos, modifiers: Modifiers, onCanvas: bool)
    | Touch(phase: Phase, contacts: seq<Contact>, onCanvas: bool)
    | Mouse

  datatype Out =
    | Moved(pos: Pos)
    | Button(pos: Pos, pressed: bool, modifiers: Modifiers)
    | Gone
    | Finger(id: FingerId, pos: Pos, phase: Phase)

  /** `uiPen` is the pen flag the user interface was last given. */
  datatype State = State(
    active: Option<int>,
    lastPen: bool,
    mouseDown: bool,
    penSeen: bool,
    touches: map<FingerId, Pos>,
    touchPointer: Option<FingerId>,
    position: Pos,
    events: seq<Out>,
    uiPen: bool
  )

  function Initial(): State {
    State(None, false, false, false, map[], None, Pos(0.0, 0.0), [], false)
  }

  // ---- transition function ------------------------------------------------------------------

  function Push(s: State, e: Out): State {
    s.(events := s.events + [e])
  }

  /** Records a pointer position, overwriting a move that is still the newest queued event. */
  function MoveTo(s: State, position: Pos): State {
    var last := |s.events| - 1;
    s.(position := position,
       events := if s.events != [] && s.events[last].Moved? then s.events[last := Moved(position)]
                 else s.events + [Moved(position)])
  }

  function Press(s: State, pressed: bool, modifiers: Modifiers): State {
    Push(s, Button(s.position, pressed, modifiers))
  }

  function CancelPen(s: State): State {
    if s.active.None? then s else Push(Press(s.(active := None), false, NO_MODIFIERS), Gone)
  }

  /** Gives up the pointer a finger holds. */
  function DropTouchPointer(s: State): State {
    if s.touchPointer.None? then s else Push(Press(s.(touchPointer := None), false, NO_MODIFIERS), Gone)
  }

  ghost predicate IsLeast(id: FingerId, touches: map<FingerId, Pos>) {
    id in touches && forall other :: other in touches ==> id.number <= other.number
  }

  ghost function LeastOf(touches: map<FingerId, Pos>): (id: FingerId)
    requires touches != map[]
    ensures IsLeast(id, touches)
  {
    LeastExists(touches);
    var id :| IsLeast(id, touches);
    id
  }

  /** One cancellation per finger, in order of ids. */
  ghost function CancelFingers(touches: map<FingerId, Pos>): seq<Out>
    decreases |touches|
  {
    if touches == map[] then []
    else
      var id := LeastOf(touches);
      [Finger(id, touches[id], Cancel)] + CancelFingers(touches - {id})
  }

  lemma LeastExists(touches: map<FingerId, Pos>)
    requires touches != map[]
    ensures exists id :: IsLeast(id, touches)
    decreases |touches|
  {
    assert touches.Keys != {};
    var id :| id in touches.Keys;
    var rest := touches - {id};
    assert forall other :: other in touches ==> other == id || other in rest;
    if rest == map[] {
      assert IsLeast(id, touches);
    } else {
      LeastExists(rest);
      var least :| IsLeast(least, rest);
      assert IsLeast(if id.number < least.number then id else least, touches);
    }
  }

  lemma CancelFingersFrom(touches: map<FingerId, Pos>, id: FingerId)
    requires IsLeast(id, touches)
    ensures CancelFingers(touches) == [Finger(id, touches[id], Cancel)] + CancelFingers(touches - {id})
  {
    assert LeastOf(touches).number == id.number;
  }

  ghost function OnBlur(s: State): State {
    var released := DropTouchPointer(CancelPen(s).(mouseDown := false));
    released.(touches := map[], events := released.events + CancelFingers(released.touches))
  }

  function OnOtherPointer(s: State, e: Event): State
    requires e.Pointer?
  {
    if s.active.Some? || !e.kind.MousePointer? then s
    else
      s.(lastPen := false, uiPen := false,
         mouseDown := if e.name.Down? && e.onCanvas then true
                      else if e.name.Up? || e.name.Cancelled? then false
                      else s.mouseDown)
  }

  function OnPen(s: State, e: Event): State
    requires e.Pointer?
  {
    if !e.onCanvas && s.active != Some(e.id) then s
    else
      var owned := DropTouchPointer(s.(lastPen := true, penSeen := true, uiPen := true));
      if e.name.Down? && owned.active.None? && !owned.mouseDown && e.primary && e.button == 0 && e.buttons == 1 then
        Press(MoveTo(owned.(active := Some(e.id)), e.position), true, e.modifiers)
      else if e.name.Moving? && owned.active == Some(e.id) && e.buttons != 1 then CancelPen(owned)
      else if e.name.Moving?
              && (owned.active == Some(e.id) || (owned.active.None? && e.buttons == 0 && !owned.mouseDown)) then
        MoveTo(owned, e.position)
      else if e.name.Up? && owned.active == Some(e.id) then
        Press(MoveTo(owned, e.position), false, e.modifiers).(active := None)
      else if (e.name.Cancelled? || e.name.LostCapture?) && owned.active == Some(e.id) then CancelPen(owned)
      else owned
  }

  function OnStart(s: State, c: Contact): State {
    var started :=
      if s.touches == map[] && s.active.None? && !s.mouseDown then
        var moved := MoveTo(s, c.position);
        if !moved.penSeen || !c.free then
          Press(moved.(touchPointer := Some(c.id), lastPen := false, uiPen := false), true, NO_MODIFIERS)
        else moved
      else s;
    started.(touches := started.touches[c.id := c.position])
  }

  function OnMove(s: State, c: Contact): State {
    var moved := s.(touches := s.touches[c.id := c.position]);
    if moved.touchPointer == Some(c.id) then MoveTo(moved, c.position) else moved
  }

  function OnLift(s: State, c: Contact, cancelled: bool): State {
    var lifted := s.(touches := s.touches - {c.id});
    if lifted.touchPointer == Some(c.id) then
      var released := Press(MoveTo(lifted, c.position), false, NO_MODIFIERS);
      (if cancelled then Push(released, Gone) else released).(touchPointer := None)
    else lifted
  }

  function OnContact(s: State, phase: Phase, c: Contact): State {
    if c.stylus then s
    else
      var seen := Push(s, Finger(c.id, c.position, phase));
      match phase
      case Start => OnStart(seen, c)
      case Move => OnMove(seen, c)
      case End => OnLift(seen, c, false)
      case Cancel => OnLift(seen, c, true)
  }

  function OnContacts(s: State, phase: Phase, contacts: seq<Contact>): State {
    if contacts == [] then s
    else OnContact(OnContacts(s, phase, contacts[..|contacts| - 1]), phase, contacts[|contacts| - 1])
  }

  ghost function Handle(s: State, e: Event): State {
    match e
    case Blur => OnBlur(s)
    case Pointer(kind, _, _, _, _, _, _, _, _) => if kind.Pen? then OnPen(s, e) else OnOtherPointer(s, e)
    case Touch(phase, contacts, onCanvas) =>
      if !onCanvas && s.touches == map[] then s else OnContacts(s, phase, contacts)
    case Mouse => s
  }

  /** Whether the browser's own handling and later listeners are suppressed. */
  function Consumes(s: State, e: Event): bool {
    match e
    case Blur => false
    case Pointer(kind, _, id, _, _, _, _, _, onCanvas) =>
      if kind.Pen? then onCanvas || s.active == Some(id)
      else s.active.Some? || kind.TouchPointer?
    case Touch(_, _, onCanvas) => onCanvas || s.touches != map[]
    case Mouse => s.lastPen || s.active.Some?
  }

  // ---- what a trace says --------------------------------------------------------------------

  /** Whether the primary button is down after a trace. */
  function Held(trace: seq<Out>): bool {
    if trace == [] then false
    else
      var last := trace[|trace| - 1];
      if last.Button? then last.pressed else Held(trace[..|trace| - 1])
  }

  /** The newest pointer position a trace reports. */
  function LastMove(trace: seq<Out>): Option<Pos> {
    if trace == [] then None
    else
      var last := trace[|trace| - 1];
      if last.Moved? then Some(last.pos) else LastMove(trace[..|trace| - 1])
  }

  /** The fingers a trace leaves down, with their newest positions. */
  function Fingers(trace: seq<Out>): map<FingerId, Pos> {
    if trace == [] then map[]
    else
      var last, before := trace[|trace| - 1], Fingers(trace[..|trace| - 1]);
      if !last.Finger? then before
      else if last.phase.Start? || last.phase.Move? then before[last.id := last.pos]
      else before - {last.id}
  }

  /** What may follow a trace: presses and releases alternate and happen at the newest reported position,
      and the pointer never disappears while the button is down. */
  predicate MayFollow(trace: seq<Out>, e: Out) {
    match e
    case Button(pos, pressed, _) => Held(trace) == !pressed && LastMove(trace) == Some(pos)
    case Gone => !Held(trace)
    case _ => true
  }

  predicate WellFormed(trace: seq<Out>) {
    trace == [] || (WellFormed(trace[..|trace| - 1]) && MayFollow(trace[..|trace| - 1], trace[|trace| - 1]))
  }

  lemma {:induction false} WellFormedAt(trace: seq<Out>, i: nat)
    requires WellFormed(trace) && i < |trace|
    ensures MayFollow(trace[..i], trace[i])
  {
    if i < |trace| - 1 {
      WellFormedAt(trace[..|trace| - 1], i);
      assert trace[..|trace| - 1][..i] == trace[..i];
    }
  }

  lemma {:induction false} HeldChanges(trace: seq<Out>, i: nat, j: nat)
    requires i <= j <= |trace| && Held(trace[..i]) != Held(trace[..j])
    ensures exists k :: i <= k < j && trace[k].Button? && trace[k].pressed == Held(trace[..j])
    decreases j
  {
    assert trace[..j][..j - 1] == trace[..j - 1];
    if !trace[j - 1].Button? { HeldChanges(trace, i, j - 1); }
  }

  /** Between two presses there is a release, and between two releases a press. */
  lemma PressesAlternate(trace: seq<Out>, i: nat, j: nat)
    requires WellFormed(trace) && i < j < |trace|
    requires trace[i].Button? && trace[j].Button? && trace[i].pressed == trace[j].pressed
    ensures exists k :: i < k < j && trace[k].Button? && trace[k].pressed != trace[i].pressed
  {
    WellFormedAt(trace, j);
    assert trace[..i + 1][..i] == trace[..i];
    assert Held(trace[..i + 1]) == trace[i].pressed;
    HeldChanges(trace, i + 1, j);
  }

  // ---- the invariant ------------------------------------------------------------------------

  /** The state agrees with everything emitted so far: what was drained and what is still queued. */
  ghost predicate Inv(drained: seq<Out>, s: State) {
    Behind(drained, s, s.touches)
  }

  /** The invariant while `touches` may still lag behind the reported fingers. */
  ghost predicate Behind(drained: seq<Out>, s: State, fingers: map<FingerId, Pos>) {
    var trace := drained + s.events;
    && WellFormed(trace)
    && (Held(trace) <==> s.active.Some? || s.touchPointer.Some?)
    && !(s.active.Some? && s.touchPointer.Some?)
    && !(s.active.Some? && s.mouseDown)
    && (s.touchPointer.Some? ==> s.touchPointer.value in s.touches)
    && (Held(trace) ==> LastMove(trace) == Some(s.position))
    && Fingers(trace) == fingers
    && s.uiPen == s.lastPen
  }

  lemma Appended(trace: seq<Out>, e: Out)
    ensures var next := trace + [e];
            && Held(next) == (if e.Button? then e.pressed else Held(trace))
            && LastMove(next) == (if e.Moved? then Some(e.pos) else LastMove(trace))
            && Fingers(next) == (if !e.Finger? then Fingers(trace)
                                 else if e.phase.Start? || e.phase.Move? then Fingers(trace)[e.id := e.pos]
                                 else Fingers(trace) - {e.id})
            && (WellFormed(next) <==> WellFormed(trace) && MayFollow(trace, e))
  {
    assert (trace + [e])[..|trace|] == trace;
  }

  lemma PushTrace(drained: seq<Out>, s: State, e: Out)
    ensures var trace := drained + s.events;
            var next := drained + Push(s, e).events;
            && Held(next) == (if e.Button? then e.pressed else Held(trace))
            && LastMove(next) == (if e.Moved? then Some(e.pos) else LastMove(trace))
            && Fingers(next) == (if !e.Finger? then Fingers(trace)
                                 else if e.phase.Start? || e.phase.Move? then Fingers(trace)[e.id := e.pos]
                                 else Fingers(trace) - {e.id})
            && (WellFormed(next) <==> WellFormed(trace) && MayFollow(trace, e))
  {
    Appended(drained + s.events, e);
    assert drained + Push(s, e).events == drained + s.events + [e];
  }

  lemma MoveTrace(drained: seq<Out>, s: State, position: Pos)
    requires WellFormed(drained + s.events)
    ensures var trace := drained + s.events;
            var next := drained + MoveTo(s, position).events;
            && Held(next) == Held(trace) && LastMove(next) == Some(position)
            && Fingers(next) == Fingers(trace) && WellFormed(next)
  {
    var n := |s.events|;
    if s.events != [] && s.events[n - 1].Moved? {
      var short := s.(events := s.events[..n - 1]);
      PushTrace(drained, short, s.events[n - 1]);
      PushTrace(drained, short, Moved(position));
      assert Push(short, s.events[n - 1]).events == s.events;
      assert Push(short, Moved(position)).events == MoveTo(s, position).events;
    } else {
      PushTrace(drained, s, Moved(position));
      assert Push(s, Moved(position)).events == MoveTo(s, position).events;
    }
  }

  lemma CancelPenKeepsInv(drained: seq<Out>, s: State)
    requires Inv(drained, s)
    ensures Inv(drained, CancelPen(s))
  {
    if s.active.Some? {
      var idle := s.(active := None);
      PushTrace(drained, idle, Button(s.position, false, NO_MODIFIERS));
      PushTrace(drained, Press(idle, false, NO_MODIFIERS), Gone);
    }
  }

  lemma DropTouchPointerKeepsInv(drained: seq<Out>, s: State)
    requires Inv(drained, s)
    ensures Inv(drained, DropTouchPointer(s))
  {
    if s.touchPointer.Some? {
      var idle := s.(touchPointer := None);
      PushTrace(drained, idle, Button(s.position, false, NO_MODIFIERS));
      PushTrace(drained, Press(idle, false, NO_MODIFIERS), Gone);
    }
  }

  ghost predicate Cancellations(events: seq<Out>) {
    forall i :: 0 <= i < |events| ==> events[i].Finger? && events[i].phase.Cancel?
  }

  ghost function Cancelled(events: seq<Out>): set<FingerId> {
    set e | e in events && e.Finger? :: e.id
  }

  lemma {:induction false} CancellationsTrace(trace: seq<Out>, events: seq<Out>)
    requires WellFormed(trace) && Cancellations(events)
    ensures var next := trace + events;
            WellFormed(next) && Held(next) == Held(trace) && LastMove(next) == LastMove(trace)
  {
    if events == [] {
      assert trace + events == trace;
    } else {
      var init, last := events[..|events| - 1], events[|events| - 1];
      CancellationsTrace(trace, init);
      Appended(trace + init, last);
      assert trace + events == (trace + init) + [last];
    }
  }

  lemma {:induction false} CancellationsFingers(trace: seq<Out>, events: seq<Out>)
    requires Cancellations(events)
    ensures Fingers(trace + events) == Fingers(trace) - Cancelled(events)
  {
    if events == [] {
      assert trace + events == trace;
    } else {
      var init, last := events[..|events| - 1], events[|events| - 1];
      CancellationsFingers(trace, init);
      assert events == init + [last] && trace + events == (trace + init) + [last];
      Appended(trace + init, last);
      assert Cancelled(events) == Cancelled(init) + {last.id};
    }
  }

  lemma {:induction false} CancelFingersCancels(touches: map<FingerId, Pos>)
    ensures Cancellations(CancelFingers(touches)) && Cancelled(CancelFingers(touches)) == touches.Keys
    decreases |touches|
  {
    if touches != map[] {
      var id := LeastOf(touches);
      CancelFingersCancels(touches - {id});
      CancelsOneMore(Finger(id, touches[id], Cancel), CancelFingers(touches - {id}));
    }
  }

  lemma CancelsOneMore(first: Out, rest: seq<Out>)
    requires first.Finger?
    ensures Cancelled([first] + rest) == {first.id} + Cancelled(rest)
  {
    assert first in [first] + rest;
    forall e | e in rest ensures e in [first] + rest { }
  }

  lemma CancelFingersTrace(trace: seq<Out>, touches: map<FingerId, Pos>)
    requires WellFormed(trace) && Fingers(trace) == touches
    ensures var next := trace + CancelFingers(touches);
            && WellFormed(next) && Held(next) == Held(trace) && LastMove(next) == LastMove(trace)
            && Fingers(next) == map[]
  {
    CancelFingersCancels(touches);
    CancellationsTrace(trace, CancelFingers(touches));
    CancellationsFingers(trace, CancelFingers(touches));
  }

  lemma DropFingersKeepsInv(drained: seq<Out>, s: State)
    requires Inv(drained, s) && s.touchPointer.None?
    ensures var after := s.(touches := map[], events := s.events + CancelFingers(s.touches));
            Inv(drained, after) && Fingers(drained + after.events) == map[]
            && Held(drained + after.events) == Held(drained + s.events)
  {
    CancelFingersTrace(drained + s.events, s.touches);
    assert drained + (s.events + CancelFingers(s.touches)) == drained + s.events + CancelFingers(s.touches);
  }

  lemma BlurKeepsInv(drained: seq<Out>, s: State)
    requires Inv(drained, s)
    ensures var after := OnBlur(s);
            && Inv(drained, after) && !Held(drained + after.events) && Fingers(drained + after.events) == map[]
            && !after.mouseDown
  {
    CancelPenKeepsInv(drained, s);
    var idle := CancelPen(s).(mouseDown := false);
    DropTouchPointerKeepsInv(drained, idle);
    DropFingersKeepsInv(drained, DropTouchPointer(idle));
  }

  lemma PressKeepsInv(drained: seq<Out>, s: State, pointer: int, position: Pos, modifiers: Modifiers)
    requires Inv(drained, s) && s.active.None? && s.touchPointer.None? && !s.mouseDown
    ensures Inv(drained, Press(MoveTo(s.(active := Some(pointer)), position), true, modifiers))
  {
    var owned := s.(active := Some(pointer));
    MoveTrace(drained, owned, position);
    PushTrace(drained, MoveTo(owned, position), Button(position, true, modifiers));
  }

  lemma ReleaseKeepsInv(drained: seq<Out>, s: State, position: Pos, modifiers: Modifiers)
    requires Inv(drained, s) && s.active.Some?
    ensures Inv(drained, Press(MoveTo(s, position), false, modifiers).(active := None))
  {
    MoveTrace(drained, s, position);
    PushTrace(drained, MoveTo(s, position), Button(position, false, modifiers));
  }

  lemma PenKeepsInv(drained: seq<Out>, s: State, e: Event)
    requires Inv(drained, s) && e.Pointer?
    ensures Inv(drained, OnPen(s, e))
  {
    var marked := s.(lastPen := true, penSeen := true, uiPen := true);
    DropTouchPointerKeepsInv(drained, marked);
    var owned := DropTouchPointer(marked);
    CancelPenKeepsInv(drained, owned);
    match e.name
    case Down =>
      if owned.active.None? && !owned.mouseDown { PressKeepsInv(drained, owned, e.id, e.position, e.modifiers); }
    case Moving => MoveTrace(drained, owned, e.position);
    case Up => if owned.active.Some? { ReleaseKeepsInv(drained, owned, e.position, e.modifiers); }
    case _ =>
  }

  lemma StartKeepsInv(drained: seq<Out>, s: State, c: Contact)
    requires Behind(drained, s, s.touches[c.id := c.position])
    ensures Inv(drained, OnStart(s, c))
  {
    MoveTrace(drained, s, c.position);
    PushTrace(drained, MoveTo(s, c.position), Button(c.position, true, NO_MODIFIERS));
  }

  lemma MoveKeepsInv(drained: seq<Out>, s: State, c: Contact)
    requires Behind(drained, s, s.touches[c.id := c.position])
    ensures Inv(drained, OnMove(s, c))
  {
    MoveTrace(drained, s, c.position);
  }

  lemma LiftKeepsInv(drained: seq<Out>, s: State, c: Contact, cancelled: bool)
    requires Behind(drained, s, s.touches - {c.id})
    ensures Inv(drained, OnLift(s, c, cancelled))
  {
    var moved, release := MoveTo(s, c.position), Button(c.position, false, NO_MODIFIERS);
    MoveTrace(drained, s, c.position);
    PushTrace(drained, moved, release);
    PushTrace(drained, Push(moved, release), Gone);
  }

  lemma ContactKeepsInv(drained: seq<Out>, s: State, phase: Phase, c: Contact)
    requires Inv(drained, s)
    ensures Inv(drained, OnContact(s, phase, c))
  {
    if !c.stylus {
      var seen := Push(s, Finger(c.id, c.position, phase));
      PushTrace(drained, s, Finger(c.id, c.position, phase));
      match phase
      case Start => StartKeepsInv(drained, seen, c);
      case Move => MoveKeepsInv(drained, seen, c);
      case End => LiftKeepsInv(drained, seen, c, false);
      case Cancel => LiftKeepsInv(drained, seen, c, true);
    }
  }

  lemma {:induction false} ContactsKeepInv(drained: seq<Out>, s: State, phase: Phase, contacts: seq<Contact>)
    requires Inv(drained, s)
    ensures Inv(drained, OnContacts(s, phase, contacts))
  {
    if contacts != [] {
      var init := contacts[..|contacts| - 1];
      ContactsKeepInv(drained, s, phase, init);
      ContactKeepsInv(drained, OnContacts(s, phase, init), phase, contacts[|contacts| - 1]);
    }
  }

  lemma HandleKeepsInv(drained: seq<Out>, s: State, e: Event)
    requires Inv(drained, s)
    ensures Inv(drained, Handle(s, e))
  {
    match e
    case Blur => BlurKeepsInv(drained, s);
    case Pointer(kind, _, _, _, _, _, _, _, _) => if kind.Pen? { PenKeepsInv(drained, s, e); }
    case Touch(phase, contacts, _) => ContactsKeepInv(drained, s, phase, contacts);
    case Mouse =>
  }

  // ---- runs ---------------------------------------------------------------------------------

  /** A frame drains the queue; everything else is a browser event. */
  datatype Step = Deliver(event: Event) | Drain

  datatype World = World(drained: seq<Out>, state: State) {
    function Trace(): seq<Out> { drained + state.events }
  }

  ghost function Next(w: World, step: Step): World {
    match step
    case Deliver(event) => w.(state := Handle(w.state, event))
    case Drain => World(w.drained + w.state.events, w.state.(events := []))
  }

  ghost function Run(w: World, steps: seq<Step>): World {
    if steps == [] then w else Next(Run(w, steps[..|steps| - 1]), steps[|steps| - 1])
  }

  lemma {:induction false} RunKeepsInv(w: World, steps: seq<Step>)
    requires Inv(w.drained, w.state)
    ensures var end := Run(w, steps); Inv(end.drained, end.state)
  {
    if steps != [] {
      var init, last := steps[..|steps| - 1], steps[|steps| - 1];
      RunKeepsInv(w, init);
      var before := Run(w, init);
      match last
      case Deliver(event) => HandleKeepsInv(before.drained, before.state, event);
      case Drain =>
        assert before.drained + before.state.events + [] == before.drained + before.state.events;
    }
  }

  /** For every sequence of browser events and frames, everything emitted is well formed and agrees with the
      state that is left. */
  lemma EveryTraceWellFormed(steps: seq<Step>)
    ensures var end := Run(World([], Initial()), steps);
            && WellFormed(end.Trace())
            && (Held(end.Trace()) <==> end.state.active.Some? || end.state.touchPointer.Some?)
            && !(end.state.active.Some? && end.state.touchPointer.Some?)
            && !(end.state.active.Some? && end.state.mouseDown)
            && (end.state.touchPointer.Some? ==> end.state.touchPointer.value in end.state.touches)
            && Fingers(end.Trace()) == end.state.touches
            && end.state.uiPen == end.state.lastPen
  {
    RunKeepsInv(World([], Initial()), steps);
  }

  /** Losing focus at any point of any run leaves no button and no finger down. */
  lemma BlurReleasesEverything(steps: seq<Step>)
    ensures var end := Run(World([], Initial()), steps + [Deliver(Blur)]);
            !Held(end.Trace()) && Fingers(end.Trace()) == map[] && !end.state.mouseDown
  {
    assert (steps + [Deliver(Blur)])[..|steps|] == steps;
    RunKeepsInv(World([], Initial()), steps);
    var before := Run(World([], Initial()), steps);
    BlurKeepsInv(before.drained, before.state);
  }

  /** A stylus that is also reported as touch contacts, or as a touch pointer, is handled once. */
  lemma {:induction false} StylusContactsInert(s: State, phase: Phase, contacts: seq<Contact>)
    requires forall i :: 0 <= i < |contacts| ==> contacts[i].stylus
    ensures OnContacts(s, phase, contacts) == s
  {
    if contacts != [] { StylusContactsInert(s, phase, contacts[..|contacts| - 1]); }
  }

  // ---- what the history says ----------------------------------------------------------------

  /** What a history of events amounts to: the pen that draws, the finger that presses, whether a mouse button is held,
      and whether the latest input that counted was a pen. */
  datatype Tally = Tally(pen: Option<int>, finger: Option<FingerId>, mouse: bool, penLast: bool)

  /** A pen draws from touching the canvas, primary, with its tip alone and while no mouse button is held, until it is
      lifted, lost or reports other buttons, or the window loses focus. */
  function PenAfter(t: Tally, e: Event): Option<int> {
    match e
    case Blur => None
    case Pointer(Pen, Down, id, primary, button, buttons, _, _, onCanvas) =>
      if t.pen == None && onCanvas && !t.mouse && primary && button == 0 && buttons == 1 then Some(id) else t.pen
    case Pointer(Pen, Moving, id, _, _, buttons, _, _, _) => if t.pen == Some(id) && buttons != 1 then None else t.pen
    case Pointer(Pen, _, id, _, _, _, _, _, _) => if t.pen == Some(id) then None else t.pen
    case _ => t.pen
  }

  /** A mouse button is held from going down on the canvas until it comes up; while a pen draws no mouse is heard. */
  function MouseAfter(t: Tally, e: Event): bool {
    match e
    case Blur => false
    case Pointer(MousePointer, name, _, _, _, _, _, _, onCanvas) =>
      if t.pen.Some? then t.mouse else (name.Down? && onCanvas) || (t.mouse && !name.Up? && !name.Cancelled?)
    case _ => t.mouse
  }

  function FirstFinger(contacts: seq<Contact>): Option<Contact> {
    if contacts == [] then None
    else
      var before, last := FirstFinger(contacts[..|contacts| - 1]), contacts[|contacts| - 1];
      if before.Some? || last.stylus then before else Some(last)
  }

  /** A touch presses when it is the first finger on the canvas, nothing else is pressed there, and the finger may
      draw: no pen has been seen on the canvas, or the finger is on something that lies over it. */
  predicate MayPress(t: Tally, penSeen: bool, fingers: map<FingerId, Pos>, e: Event) {
    && e.Touch? && e.phase.Start? && e.onCanvas && FirstFinger(e.contacts).Some?
    && fingers == map[] && t.pen.None? && !t.mouse
    && (!penSeen || !FirstFinger(e.contacts).value.free)
  }

  function PenLastAfter(t: Tally, penSeen: bool, fingers: map<FingerId, Pos>, e: Event): bool {
    match e
    case Pointer(Pen, _, id, _, _, _, _, _, onCanvas) => t.penLast || onCanvas || t.pen == Some(id)
    case Pointer(MousePointer, _, _, _, _, _, _, _, _) => t.penLast && t.pen.Some?
    case Touch(_, _, _) => t.penLast && !MayPress(t, penSeen, fingers, e)
    case _ => t.penLast
  }

  predicate Lifts(contacts: seq<Contact>, finger: FingerId) {
    exists c | c in contacts :: !c.stylus && c.id == finger
  }

  /** A finger presses until it is lifted, a pen comes in or the window loses focus. */
  function FingerAfter(t: Tally, penSeen: bool, fingers: map<FingerId, Pos>, e: Event): Option<FingerId> {
    match e
    case Blur => None
    case Pointer(Pen, _, id, _, _, _, _, _, onCanvas) => if onCanvas || t.pen == Some(id) then None else t.finger
    case Touch(Start, contacts, _) =>
      if MayPress(t, penSeen, fingers, e) then Some(FirstFinger(contacts).value.id) else t.finger
    case Touch(Move, _, _) => t.finger
    case Touch(_, contacts, _) => if t.finger.Some? && Lifts(contacts, t.finger.value) then None else t.finger
    case _ => t.finger
  }

  function TallyAfter(t: Tally, penSeen: bool, fingers: map<FingerId, Pos>, e: Event): Tally {
    Tally(PenAfter(t, e), FingerAfter(t, penSeen, fingers, e), MouseAfter(t, e), PenLastAfter(t, penSeen, fingers, e))
  }

  predicate PenOnCanvas(step: Step) {
    step.Deliver? && step.event.Pointer? && step.event.kind.Pen? && step.event.onCanvas
  }

  predicate PenSeen(steps: seq<Step>) {
    exists step | step in steps :: PenOnCanvas(step)
  }

  ghost function Ran(steps: seq<Step>): World {
    Run(World([], Initial()), steps)
  }

  ghost function Tallied(steps: seq<Step>): Tally {
    if steps == [] then Tally(None, None, false, false)
    else
      var init, last := steps[..|steps| - 1], steps[|steps| - 1];
      if last.Drain? then Tallied(init)
      else TallyAfter(Tallied(init), PenSeen(init), Fingers(Ran(init).Trace()), last.event)
  }

  // ---- one event ----------------------------------------------------------------------------

  /** What starting the contacts of one event does to the flags. */
  lemma {:induction false} StartsTell(s: State, contacts: seq<Contact>)
    requires s.touchPointer.Some? ==> s.touches != map[]
    ensures var first := FirstFinger(contacts);
            var pressed := && first.Some? && s.touches == map[] && s.active.None? && !s.mouseDown
                           && (!s.penSeen || !first.value.free);
            var r := OnContacts(s, Start, contacts);
            && r.active == s.active && r.mouseDown == s.mouseDown && r.penSeen == s.penSeen
            && (r.touches == map[] <==> s.touches == map[] && first.None?)
            && r.lastPen == (s.lastPen && !pressed)
            && r.touchPointer == if pressed then Some(first.value.id) else s.touchPointer
  {
    if contacts != [] {
      var last := contacts[|contacts| - 1];
      StartsTell(s, contacts[..|contacts| - 1]);
      if !last.stylus { assert last.id in OnContacts(s, Start, contacts).touches; }
    }
  }

  lemma {:induction false} OthersTell(s: State, phase: Phase, contacts: seq<Contact>)
    requires !phase.Start?
    ensures var r := OnContacts(s, phase, contacts);
            && r.active == s.active && r.mouseDown == s.mouseDown && r.penSeen == s.penSeen
            && r.lastPen == s.lastPen
            && r.touchPointer == if !phase.Move? && s.touchPointer.Some? && Lifts(contacts, s.touchPointer.value)
                                 then None else s.touchPointer
  {
    if contacts != [] {
      var init, last := contacts[..|contacts| - 1], contacts[|contacts| - 1];
      OthersTell(s, phase, init);
      if s.touchPointer.Some? { LiftsMore(init, last, s.touchPointer.value); }
      assert contacts == init + [last];
    }
  }

  lemma LiftsMore(contacts: seq<Contact>, last: Contact, finger: FingerId)
    ensures Lifts(contacts + [last], finger) <==> Lifts(contacts, finger) || (!last.stylus && last.id == finger)
  {
    var all := contacts + [last];
    assert last in all;
    if Lifts(contacts, finger) {
      var c :| c in contacts && !c.stylus && c.id == finger;
      assert c in all;
    }
  }

  function TallyOf(s: State): Tally {
    Tally(s.active, s.touchPointer, s.mouseDown, s.lastPen)
  }

  lemma TouchTells(s: State, e: Event)
    requires e.Touch? && (s.touchPointer.Some? ==> s.touches != map[])
    ensures var r := Handle(s, e);
            TallyOf(r) == TallyAfter(TallyOf(s), s.penSeen, s.touches, e) && r.penSeen == s.penSeen
  {
    if e.phase.Start? {
      StartsTell(s, e.contacts);
    } else {
      OthersTell(s, e.phase, e.contacts);
    }
  }

  lemma PenTellsPen(s: State, e: Event)
    requires e.Pointer? && e.kind.Pen?
    ensures OnPen(s, e).active == PenAfter(TallyOf(s), e)
    ensures OnPen(s, e).active.Some? ==> s.active.Some? || e.onCanvas
  {
    var owned := DropTouchPointer(s.(lastPen := true, penSeen := true, uiPen := true));
    assert owned.active == s.active && owned.mouseDown == s.mouseDown;
    assert CancelPen(owned).active == None;
  }

  lemma PenTellsRest(s: State, e: Event)
    requires e.Pointer? && e.kind.Pen? && (s.active.Some? ==> s.penSeen)
    ensures var r, t := OnPen(s, e), TallyOf(s);
            && r.touchPointer == FingerAfter(t, s.penSeen, s.touches, e)
            && r.mouseDown == MouseAfter(t, e) && r.lastPen == PenLastAfter(t, s.penSeen, s.touches, e)
            && r.penSeen == (s.penSeen || e.onCanvas)
  {
  }

  lemma PenTells(s: State, e: Event)
    requires e.Pointer? && e.kind.Pen? && (s.active.Some? ==> s.penSeen)
    ensures var r := OnPen(s, e);
            && TallyOf(r) == TallyAfter(TallyOf(s), s.penSeen, s.touches, e)
            && r.penSeen == (s.penSeen || e.onCanvas)
            && (r.active.Some? ==> r.penSeen)
  {
    PenTellsPen(s, e);
    PenTellsRest(s, e);
  }

  lemma RestTells(s: State, e: Event)
    requires !e.Touch? && !(e.Pointer? && e.kind.Pen?)
    ensures var r := Handle(s, e);
            && TallyOf(r) == TallyAfter(TallyOf(s), s.penSeen, s.touches, e)
            && r.penSeen == s.penSeen && (r.active.Some? ==> s.active.Some?)
  {
  }

  lemma EventTells(s: State, e: Event)
    requires (s.touchPointer.Some? ==> s.touches != map[]) && (s.active.Some? ==> s.penSeen)
    ensures var r := Handle(s, e);
            && TallyOf(r) == TallyAfter(TallyOf(s), s.penSeen, s.touches, e)
            && r.penSeen == (s.penSeen || PenOnCanvas(Deliver(e))) && (r.active.Some? ==> r.penSeen)
  {
    if e.Touch? {
      TouchTells(s, e);
    } else if e.Pointer? && e.kind.Pen? {
      PenTells(s, e);
    } else {
      RestTells(s, e);
    }
  }

  lemma SeenAfter(steps: seq<Step>, last: Step)
    ensures PenSeen(steps + [last]) <==> PenSeen(steps) || PenOnCanvas(last)
  {
    if PenSeen(steps) {
      var step :| step in steps && PenOnCanvas(step);
      assert step in steps + [last];
    }
    assert last in steps + [last];
  }

  /** The fields of the machine are what its history amounts to. */
  lemma {:induction false} HistoryTells(steps: seq<Step>)
    ensures var s := Ran(steps).state;
            TallyOf(s) == Tallied(steps) && s.penSeen == PenSeen(steps) && (s.active.Some? ==> s.penSeen)
  {
    if steps != [] {
      var init, last := steps[..|steps| - 1], steps[|steps| - 1];
      HistoryTells(init);
      RunKeepsInv(World([], Initial()), init);
      assert steps == init + [last];
      SeenAfter(init, last);
      if last.Deliver? {
        EventTells(Ran(init).state, last.event);
      }
    }
  }

  /** The primary button goes down at a touch exactly when the touch may press. */
  lemma TouchPressesExactly(steps: seq<Step>, e: Event)
    requires e.Touch?
    ensures var before, after := Ran(steps).Trace(), Ran(steps + [Deliver(e)]).Trace();
            !Held(before) && Held(after) <==> MayPress(Tallied(steps), PenSeen(steps), Fingers(before), e)
  {
    AfterOne(steps, e);
    EventTells(Ran(steps).state, e);
  }

  lemma AfterOne(steps: seq<Step>, e: Event)
    ensures Ran(steps + [Deliver(e)]) == Next(Ran(steps), Deliver(e))
    ensures Inv(Ran(steps).drained, Ran(steps).state)
    ensures Inv(Ran(steps).drained, Handle(Ran(steps).state, e))
    ensures TallyOf(Ran(steps).state) == Tallied(steps) && Ran(steps).state.penSeen == PenSeen(steps)
    ensures Ran(steps).state.active.Some? ==> PenSeen(steps)
  {
    assert (steps + [Deliver(e)])[..|steps|] == steps;
    HistoryTells(steps);
    RunKeepsInv(World([], Initial()), steps);
    RunKeepsInv(World([], Initial()), steps + [Deliver(e)]);
  }

  // ---- strokes ------------------------------------------------------------------------------

  /** A stroke starts with a press under the pen. It ends with a release under the pen when the pen is lifted, and
      otherwise with a release after which the pointer is gone, which discards what was drawn. */
  lemma PenStroke(steps: seq<Step>, e: Event)
    requires e.Pointer? && e.kind.Pen?
    ensures var pen, pen' := Tallied(steps).pen, Tallied(steps + [Deliver(e)]).pen;
            var after := Ran(steps + [Deliver(e)]).Trace();
            && (pen == None && pen' == Some(e.id) ==>
                  EndsWith(after, Button(e.position, true, e.modifiers)))
            && (pen == Some(e.id) && e.name.Up? ==> EndsWith(after, Button(e.position, false, e.modifiers)))
            && (pen == Some(e.id) && pen' == None && !e.name.Up? ==>
                  EndsWith(after, Gone) && Held(Ran(steps).Trace()) && !Held(after))
  {
    AfterOne(steps, e);
    HistoryTells(steps + [Deliver(e)]);
    OwnPen(Ran(steps).state, e);
  }

  predicate EndsWith(trace: seq<Out>, e: Out) {
    trace != [] && trace[|trace| - 1] == e
  }

  lemma OwnPen(s: State, e: Event)
    requires e.Pointer? && e.kind.Pen?
    ensures var r := OnPen(s, e);
            && (s.active == None && r.active == Some(e.id) ==>
                  EndsWith(r.events, Button(e.position, true, e.modifiers)))
            && (s.active == Some(e.id) && e.name.Up? ==> EndsWith(r.events, Button(e.position, false, e.modifiers)))
            && (s.active == Some(e.id) && r.active == None && !e.name.Up? ==> EndsWith(r.events, Gone))
  {
  }

  /** The release of a pointer that was not lifted: where it was last, and then the pointer is gone. */
  function Dropped(trace: seq<Out>): seq<Out>
    requires LastMove(trace).Some?
  {
    [Button(LastMove(trace).value, false, NO_MODIFIERS), Gone]
  }

  lemma PressedMoved(steps: seq<Step>)
    requires Tallied(steps).pen.Some? || Tallied(steps).finger.Some?
    ensures LastMove(Ran(steps).Trace()) == Some(Ran(steps).state.position)
  {
    AfterOne(steps, Blur);
  }

  /** A pen that comes in takes the pointer from a finger that presses before it does anything else. */
  lemma PenTakesPointer(steps: seq<Step>, e: Event)
    requires e.Pointer? && e.kind.Pen? && e.onCanvas && Tallied(steps).finger.Some?
    ensures var before, after := Ran(steps).Trace(), Ran(steps + [Deliver(e)]).Trace();
            LastMove(before).Some? && before + Dropped(before) <= after
  {
    AfterOne(steps, e);
    PressedMoved(steps);
    var w := Ran(steps);
    PenDropsFirst(w.state, e);
    assert w.drained + (w.state.events + Dropped(w.Trace())) == w.Trace() + Dropped(w.Trace());
  }

  lemma PenDropsFirst(s: State, e: Event)
    requires e.Pointer? && e.kind.Pen? && e.onCanvas && s.touchPointer.Some?
    ensures s.events + [Button(s.position, false, NO_MODIFIERS), Gone] <= OnPen(s, e).events
  {
    var owned := DropTouchPointer(s.(lastPen := true, penSeen := true, uiPen := true));
    assert owned.events == s.events + [Button(s.position, false, NO_MODIFIERS), Gone];
    MoveExtends(owned, e.position);
    MoveExtends(owned.(active := Some(e.id)), e.position);
  }

  lemma MoveExtends(s: State, position: Pos)
    requires s.events != [] && !s.events[|s.events| - 1].Moved?
    ensures MoveTo(s, position).events == s.events + [Moved(position)]
  {
  }

  lemma BlurDrops(s: State)
    requires !(s.active.Some? && s.touchPointer.Some?)
    ensures OnBlur(s).events
         == s.events
            + ((if s.active.Some? || s.touchPointer.Some? then [Button(s.position, false, NO_MODIFIERS), Gone] else [])
               + CancelFingers(s.touches))
  {
    var quiet := CancelPen(s).(mouseDown := false);
    var released := DropTouchPointer(quiet);
    assert released.touches == s.touches;
    assert released.events
        == s.events + if s.active.Some? || s.touchPointer.Some?
                      then [Button(s.position, false, NO_MODIFIERS), Gone] else [];
  }

  /** What losing focus emits: whatever presses is dropped, and every finger that is down is cancelled. */
  lemma BlurEmits(steps: seq<Step>)
    ensures var before, after, t := Ran(steps).Trace(), Ran(steps + [Deliver(Blur)]).Trace(), Tallied(steps);
            && (t.pen.Some? || t.finger.Some? ==> LastMove(before).Some?)
            && after == before + ((if t.pen.Some? || t.finger.Some? then Dropped(before) else [])
                                  + CancelFingers(Fingers(before)))
  {
    AfterOne(steps, Blur);
    if Tallied(steps).pen.Some? || Tallied(steps).finger.Some? { PressedMoved(steps); }
    BlurDrops(Ran(steps).state);
    AppendedOnce(Ran(steps).drained, Ran(steps).state.events, OnBlur(Ran(steps).state).events);
  }

  lemma AppendedOnce(drained: seq<Out>, events: seq<Out>, longer: seq<Out>)
    requires events <= longer
    ensures drained + longer == (drained + events) + longer[|events|..]
  {
  }

  /** The pointer follows a pen that draws with its tip, and one that hovers over the canvas while nothing is
      pressed. */
  lemma PenMoves(steps: seq<Step>, e: Event)
    requires e.Pointer? && e.kind.Pen? && e.name.Moving?
    ensures var t := Tallied(steps);
            var before, after := LastMove(Ran(steps).Trace()), LastMove(Ran(steps + [Deliver(e)]).Trace());
            after == if || (t.pen == Some(e.id) && e.buttons == 1)
                        || (t.pen == None && e.onCanvas && e.buttons == 0 && !t.mouse)
                     then Some(e.position) else before
  {
    AfterOne(steps, e);
    var w := Ran(steps);
    var s := w.state;
    if e.onCanvas || s.active == Some(e.id) {
      var owned := DropTouchPointer(s.(lastPen := true, penSeen := true, uiPen := true));
      DropKeepsMove(w.drained, s.(lastPen := true, penSeen := true, uiPen := true));
      CancelKeepsMove(w.drained, owned);
      MoveMoves(w.drained, owned, e.position);
    }
  }

  lemma DropKeepsMove(drained: seq<Out>, s: State)
    ensures LastMove(drained + DropTouchPointer(s).events) == LastMove(drained + s.events)
  {
    if s.touchPointer.Some? {
      var released := Press(s.(touchPointer := None), false, NO_MODIFIERS);
      PushTrace(drained, s.(touchPointer := None), Button(s.position, false, NO_MODIFIERS));
      PushTrace(drained, released, Gone);
    }
  }

  lemma CancelKeepsMove(drained: seq<Out>, s: State)
    ensures LastMove(drained + CancelPen(s).events) == LastMove(drained + s.events)
  {
    if s.active.Some? {
      var released := Press(s.(active := None), false, NO_MODIFIERS);
      PushTrace(drained, s.(active := None), Button(s.position, false, NO_MODIFIERS));
      PushTrace(drained, released, Gone);
    }
  }

  lemma MoveMoves(drained: seq<Out>, s: State, position: Pos)
    ensures LastMove(drained + MoveTo(s, position).events) == Some(position)
  {
    var trace := drained + MoveTo(s, position).events;
    assert trace[|trace| - 1] == Moved(position);
  }

  /** The pointer of a finger: a press under it, moves with it, and a release under it, after which the pointer is gone
      only when the touch was cancelled. */
  lemma FingerStroke(steps: seq<Step>, e: Event, c: Contact)
    requires e.Touch? && e.contacts == [c] && !c.stylus
    ensures var before, after := Ran(steps).Trace(), Ran(steps + [Deliver(e)]).Trace();
            && (MayPress(Tallied(steps), PenSeen(steps), Fingers(before), e) ==>
                  EndsWith(after, Button(c.position, true, NO_MODIFIERS)))
            && (Tallied(steps).finger == Some(c.id) && e.phase.Move? ==> EndsWith(after, Moved(c.position)))
            && (Tallied(steps).finger == Some(c.id) && e.phase.End? ==>
                  EndsWith(after, Button(c.position, false, NO_MODIFIERS)))
            && (Tallied(steps).finger == Some(c.id) && e.phase.Cancel? ==>
                  EndsWith(after, Gone) && LastMove(after) == Some(c.position))
  {
    AfterOne(steps, e);
    OneContact(Ran(steps).state, e.phase, c);
    OneFinger(Ran(steps).state, e.phase, c);
    if Tallied(steps).finger == Some(c.id) && e.phase.Cancel? {
      EndsMoved(Ran(steps).drained, Handle(Ran(steps).state, e).events, c.position);
    }
  }

  lemma EndsMoved(drained: seq<Out>, events: seq<Out>, position: Pos)
    requires |events| >= 3 && events[|events| - 3] == Moved(position)
    requires !events[|events| - 2].Moved? && !events[|events| - 1].Moved?
    ensures LastMove(drained + events) == Some(position)
  {
    LastMoveAt(drained + events, |drained| + |events| - 3);
  }

  lemma OneContact(s: State, phase: Phase, c: Contact)
    ensures OnContacts(s, phase, [c]) == OnContact(s, phase, c)
    ensures FirstFinger([c]) == if c.stylus then None else Some(c)
  {
    assert [c][..0] == [];
  }

  lemma OneFinger(s: State, phase: Phase, c: Contact)
    requires !c.stylus
    ensures var r := OnContact(s, phase, c);
            && (phase.Start? && s.touches == map[] && s.active.None? && !s.mouseDown && (!s.penSeen || !c.free) ==>
                  EndsWith(r.events, Button(c.position, true, NO_MODIFIERS)))
            && (s.touchPointer == Some(c.id) && phase.Move? ==> EndsWith(r.events, Moved(c.position)))
            && (s.touchPointer == Some(c.id) && phase.End? ==>
                  EndsWith(r.events, Button(c.position, false, NO_MODIFIERS)))
            && (s.touchPointer == Some(c.id) && phase.Cancel? ==>
                  && |r.events| >= 3 && EndsWith(r.events, Gone)
                  && r.events[|r.events| - 3] == Moved(c.position)
                  && r.events[|r.events| - 2] == Button(c.position, false, NO_MODIFIERS))
  {
  }

  lemma LastMoveAt(trace: seq<Out>, i: nat)
    requires i + 3 == |trace| && trace[i].Moved? && !trace[i + 1].Moved? && !trace[i + 2].Moved?
    ensures LastMove(trace) == Some(trace[i].pos)
  {
    var one, two := trace[..i + 1], trace[..i + 2];
    assert two[..i + 1] == one && LastMove(one) == Some(trace[i].pos) && LastMove(two) == LastMove(one);
  }

  /** Which events are kept from the browser: those of a pen on the canvas or of the pen that draws, every touch
      pointer, other pointers while a pen draws, touches on the canvas or beside a finger that is down, and the mouse
      events that repeat a pen's. */
  lemma ConsumedExactly(steps: seq<Step>, e: Event)
    ensures var t := Tallied(steps);
            Consumes(Ran(steps).state, e)
            <==> match e
                 case Blur => false
                 case Pointer(Pen, _, id, _, _, _, _, _, onCanvas) => onCanvas || t.pen == Some(id)
                 case Pointer(TouchPointer, _, _, _, _, _, _, _, _) => true
                 case Pointer(_, _, _, _, _, _, _, _, _) => t.pen.Some?
                 case Touch(_, _, onCanvas) => onCanvas || Fingers(Ran(steps).Trace()) != map[]
                 case Mouse => t.penLast || t.pen.Some?
  {
    AfterOne(steps, e);
  }

  // ---- the machine --------------------------------------------------------------------------

  class Input {
    var active: Option<int>
    var lastPen: bool
    var mouseDown: bool
    var penSeen: bool
    var touches: map<FingerId, Pos>
    var touchPointer: Option<FingerId>
    var position: Pos
    var events: seq<Out>
    var uiPen: bool

    ghost function Value(): State
      reads this
    {
      State(active, lastPen, mouseDown, penSeen, touches, touchPointer, position, events, uiPen)
    }

    constructor ()
      ensures Value() == Initial()
    {
      active, lastPen, mouseDown, penSeen := None, false, false, false;
      touches, touchPointer, position, events, uiPen := map[], None, Pos(0.0, 0.0), [], false;
    }

    method Moved(position: Pos)
      modifies this
      ensures Value() == MoveTo(old(Value()), position)
    {
      this.position := position;
      var last := |events| - 1;
      if events != [] && events[last].Moved? {
        events := events[last := Out.Moved(position)];
      } else {
        events := events + [Out.Moved(position)];
      }
    }

    method Button(pressed: bool, modifiers: Modifiers)
      modifies `events
      ensures Value() == Press(old(Value()), pressed, modifiers)
    {
      events := events + [Out.Button(position, pressed, modifiers)];
    }

    method Cancel()
      modifies this
      ensures Value() == CancelPen(old(Value()))
    {
      if active.Some? {
        active := None;
        Button(false, NO_MODIFIERS);
        events := events + [Gone];
      }
    }

    method HandleEvent(e: Event) returns (consumed: bool)
      modifies this
      ensures Value() == Handle(old(Value()), e)
      ensures consumed == Consumes(old(Value()), e)
    {
      match e
      case Blur =>
        Cancel();
        mouseDown := false;
        ReleaseTouchPointer();
        CancelTouches();
        consumed := false;
      case Pointer(kind, name, id, _, _, _, _, _, onCanvas) =>
        if !kind.Pen? {
          consumed := active.Some? || kind.TouchPointer?;
          if !consumed && kind.MousePointer? {
            lastPen := false;
            uiPen := false;
            if name.Down? && onCanvas {
              mouseDown := true;
            } else if name.Up? || name.Cancelled? {
              mouseDown := false;
            }
          }
        } else if !onCanvas && active != Some(id) {
          consumed := false;
        } else {
          consumed := true;
          HandlePen(e);
        }
      case Touch(phase, contacts, onCanvas) =>
        if !onCanvas && touches == map[] {
          return false;
        }
        for i := 0 to |contacts|
          invariant Value() == OnContacts(old(Value()), phase, contacts[..i])
        {
          assert contacts[..i + 1][..i] == contacts[..i];
          HandleContact(phase, contacts[i]);
        }
        assert contacts[..|contacts|] == contacts;
        consumed := true;
      case Mouse =>
        consumed := lastPen || active.Some?;
    }

    method ReleaseTouchPointer()
      modifies this
      ensures Value() == DropTouchPointer(old(Value()))
    {
      if touchPointer.Some? {
        touchPointer := None;
        Button(false, NO_MODIFIERS);
        events := events + [Gone];
      }
    }

    method CancelTouches()
      modifies this
      ensures Value() == old(Value()).(touches := map[], events := old(events) + CancelFingers(old(touches)))
    {
      var cancels := CancelsOf(touches);
      touches := map[];
      events := events + cancels;
    }

    method HandlePen(e: Event)
      requires e.Pointer? && e.kind.Pen? && (e.onCanvas || active == Some(e.id))
      modifies this
      ensures Value() == OnPen(old(Value()), e)
    {
      lastPen := true;
      penSeen := true;
      uiPen := true;
      ReleaseTouchPointer();
      match e.name
      case Down =>
        if active.None? && !mouseDown && e.primary && e.button == 0 && e.buttons == 1 {
          active := Some(e.id);
          Moved(e.position);
          Button(true, e.modifiers);
        }
      case Moving =>
        if active == Some(e.id) && e.buttons != 1 {
          Cancel();
        } else if active == Some(e.id) || (active.None? && e.buttons == 0 && !mouseDown) {
          Moved(e.position);
        }
      case Up =>
        if active == Some(e.id) {
          Moved(e.position);
          Button(false, e.modifiers);
          active := None;
        }
      case _ =>
        if active == Some(e.id) {
          Cancel();
        }
    }

    method HandleContact(phase: Phase, c: Contact)
      modifies this
      ensures Value() == OnContact(old(Value()), phase, c)
    {
      if c.stylus {
        return;
      }
      events := events + [Finger(c.id, c.position, phase)];
      match phase
      case Start =>
        StartTouch(c);
      case Move =>
        touches := touches[c.id := c.position];
        if touchPointer == Some(c.id) {
          Moved(c.position);
        }
      case End =>
        LiftTouch(c, false);
      case Cancel =>
        LiftTouch(c, true);
    }

    method StartTouch(c: Contact)
      modifies this
      ensures Value() == OnStart(old(Value()), c)
    {
      if touches == map[] && active.None? && !mouseDown {
        Moved(c.position);
        if !penSeen || !c.free {
          touchPointer := Some(c.id);
          lastPen := false;
          uiPen := false;
          Button(true, NO_MODIFIERS);
        }
      }
      touches := touches[c.id := c.position];
    }

    method LiftTouch(c: Contact, cancelled: bool)
      modifies this
      ensures Value() == OnLift(old(Value()), c, cancelled)
    {
      touches := touches - {c.id};
      if touchPointer == Some(c.id) {
        Moved(c.position);
        Button(false, NO_MODIFIERS);
        if cancelled {
          events := events + [Gone];
        }
        touchPointer := None;
      }
    }

    /** A frame takes the queued events. */
    method DrainInto(raw: seq<Out>) returns (all: seq<Out>)
      modifies `events
      ensures all == raw + old(events)
      ensures Value() == old(Value()).(events := [])
    {
      all := raw + events;
      events := [];
    }
  }

  method CancelsOf(touches: map<FingerId, Pos>) returns (cancels: seq<Out>)
    ensures cancels == CancelFingers(touches)
  {
    var taken := touches;
    cancels := [];
    while taken != map[]
      invariant CancelFingers(touches) == cancels + CancelFingers(taken)
      decreases |taken|
    {
      var id := Least(taken);
      CancelFingersFrom(taken, id);
      cancels := cancels + [Finger(id, taken[id], Cancel)];
      taken := taken - {id};
    }
  }

  method Least(touches: map<FingerId, Pos>) returns (id: FingerId)
    requires touches != map[]
    ensures IsLeast(id, touches)
  {
    assert touches.Keys != {};
    id :| id in touches.Keys;
    var rest := touches.Keys - {id};
    while rest != {}
      invariant id in touches && rest <= touches.Keys
      invariant forall other :: other in touches && other !in rest ==> id.number <= other.number
      decreases |rest|
    {
      var other :| other in rest;
      rest := rest - {other};
      if other.number < id.number {
        id := other;
      }
    }
  }
}
