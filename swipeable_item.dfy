/** A list row that can be dragged sideways: left reveals "delete" (the
    row snaps open), right reveals "edit" (released far enough, it calls
    the edit action). Touch and mouse events share the same handlers;
    pointer positions are inputs. */
module SwipeableItem {
  import opened Wrappers

  /** How far a drag must go to count. */
  const THRESHOLD: real := 80.0
  /** The farthest the row may be dragged either way. */
  const LIMIT: real := 100.0
  /** Where a row dragged open to the left is held. */
  const OPEN_LEFT: real := -90.0

  datatype SwipeState = SwipeState(startX: Option<real>, currentX: real, isDragging: bool)

  const INITIAL: SwipeState := SwipeState(None, 0.0, false)

  /** The right end of the range: no rightward drag without an edit action. */
  function Upper(hasEdit: bool): real {
    if hasEdit then LIMIT else 0.0
  }

  /** `min(max(v, lo), hi)` */
  function Clamp(v: real, lo: real, hi: real): (r: real)
    requires lo <= hi
    ensures lo <= r <= hi
    ensures lo <= v <= hi ==> r == v
    ensures v < lo ==> r == lo
    ensures v > hi ==> r == hi
  {
    var m := if v > lo then v else lo;
    if m < hi then m else hi
  }

  predicate InRange(s: SwipeState, hasEdit: bool) {
    -LIMIT <= s.currentX <= Upper(hasEdit)
  }

  /** Press (touch start or mouse down) at `x`. */
  function StartStep(s: SwipeState, x: real): SwipeState {
    s.(startX := Some(x), isDragging := true)
  }

  /** A move to `x` shifts the row by the distance from the previous point. */
  function MoveStep(s: SwipeState, x: real, hasEdit: bool): SwipeState {
    if s.startX.None? || !s.isDragging then s
    else s.(currentX := Clamp(s.currentX + (x - s.startX.value), -LIMIT, Upper(hasEdit)), startX := Some(x))
  }

  /** The state after a release and whether the edit action was called. */
  datatype EndOutcome = EndOutcome(next: SwipeState, editCalled: bool)

  function EndStep(s: SwipeState, hasEdit: bool): EndOutcome {
    if s.startX.None? then EndOutcome(s, false)
    else
      EndOutcome(SwipeState(None, if s.currentX < -THRESHOLD then OPEN_LEFT else 0.0, false),
                 hasEdit && s.currentX > THRESHOLD)
  }

  /** Mouse leave ends the gesture only while dragging. */
  function LeaveStep(s: SwipeState, hasEdit: bool): EndOutcome {
    if s.isDragging then EndStep(s, hasEdit) else EndOutcome(s, false)
  }

  /** Every step keeps the row inside its range. */
  lemma StepsStayInRange(s: SwipeState, x: real, hasEdit: bool)
    requires InRange(s, hasEdit)
    ensures InRange(StartStep(s, x), hasEdit)
    ensures InRange(MoveStep(s, x, hasEdit), hasEdit)
    ensures InRange(EndStep(s, hasEdit).next, hasEdit)
    ensures InRange(LeaveStep(s, hasEdit).next, hasEdit)
  {
  }

  /** A move keeps the row in range whatever the state before it, as long as it is taken. */
  lemma MoveClamps(s: SwipeState, x: real, hasEdit: bool)
    requires s.startX.Some? && s.isDragging
    ensures InRange(MoveStep(s, x, hasEdit), hasEdit)
    ensures MoveStep(s, x, hasEdit).startX == Some(x)
  {
  }

  /** Two moves that stay within range shift the row by the whole distance:
      the per-step restart of the reference point loses nothing. */
  lemma MovesAddUp(s: SwipeState, x: real, y: real, hasEdit: bool)
    requires s.startX.Some? && s.isDragging
    requires -LIMIT <= s.currentX + (x - s.startX.value) <= Upper(hasEdit)
    requires -LIMIT <= s.currentX + (y - s.startX.value) <= Upper(hasEdit)
    ensures MoveStep(MoveStep(s, x, hasEdit), y, hasEdit).currentX == s.currentX + (y - s.startX.value)
  {
  }

  /** A release snaps the row open to the left only when it was dragged past
      the threshold, and calls the edit action only for a rightward drag past it. */
  lemma ReleaseSnaps(s: SwipeState, hasEdit: bool)
    requires s.startX.Some?
    ensures var o := EndStep(s, hasEdit);
      && (o.next.currentX == OPEN_LEFT <==> s.currentX < -THRESHOLD)
      && (o.next.currentX == 0.0 <==> s.currentX >= -THRESHOLD)
      && (o.editCalled <==> hasEdit && s.currentX > THRESHOLD)
      && o.next.startX.None? && !o.next.isDragging
  {
  }

  /** Without an edit action, no gesture ever calls it. */
  lemma NoEditWithoutAction(s: SwipeState)
    ensures !EndStep(s, false).editCalled && !LeaveStep(s, false).editCalled
  {
  }

  /** How visible the delete button is: full once dragged the threshold to the left. */
  function DeleteOpacity(s: SwipeState): (o: real)
    ensures o <= 1.0
    ensures s.currentX <= 0.0 ==> o >= 0.0
    ensures s.currentX <= -THRESHOLD ==> o == 1.0
    ensures -THRESHOLD <= s.currentX ==> o == -s.currentX / THRESHOLD
  {
    var v := -s.currentX / THRESHOLD;
    if v < 1.0 then v else 1.0
  }

  /** How visible the edit button is; always zero without an edit action. */
  function EditOpacity(s: SwipeState, hasEdit: bool): (o: real)
    ensures o <= 1.0
    ensures !hasEdit ==> o == 0.0
    ensures hasEdit && s.currentX >= THRESHOLD ==> o == 1.0
    ensures hasEdit && s.currentX <= THRESHOLD ==> o == s.currentX / THRESHOLD
  {
    if hasEdit then
      var v := s.currentX / THRESHOLD;
      if v < 1.0 then v else 1.0
    else 0.0
  }

  /** The component's state, with the same transitions. */
  class SwipeableRow {
    const hasEdit: bool
    var startX: Option<real>
    var currentX: real
    var isDragging: bool

    function State(): SwipeState
      reads this
    {
      SwipeState(startX, currentX, isDragging)
    }

    constructor (hasEdit: bool)
      ensures this.hasEdit == hasEdit && State() == INITIAL
    {
      this.hasEdit := hasEdit;
      startX, currentX, isDragging := None, 0.0, false;
    }

    method Start(x: real)
      modifies this
      ensures State() == StartStep(old(State()), x)
    {
      startX := Some(x);
      isDragging := true;
    }

    method Move(x: real)
      modifies this
      ensures State() == MoveStep(old(State()), x, hasEdit)
    {
      if startX.None? || !isDragging {
        return;
      }
      var diff := x - startX.value;
      var newX := currentX + diff;
      newX := if newX > -LIMIT then newX else -LIMIT;
      newX := if hasEdit then (if newX < LIMIT then newX else LIMIT) else (if newX < 0.0 then newX else 0.0);
      currentX := newX;
      startX := Some(x);
    }

    method End() returns (editCalled: bool)
      modifies this
      ensures var o := EndStep(old(State()), hasEdit); State() == o.next && editCalled == o.editCalled
    {
      editCalled := false;
      if startX.None? {
        return;
      }
      if hasEdit && currentX > THRESHOLD {
        editCalled := true;
      }
      if currentX < -THRESHOLD {
        currentX := OPEN_LEFT;
      } else {
        currentX := 0.0;
      }
      startX := None;
      isDragging := false;
    }

    method MouseLeave() returns (editCalled: bool)
      modifies this
      ensures var o := LeaveStep(old(State()), hasEdit); State() == o.next && editCalled == o.editCalled
    {
      editCalled := false;
      if isDragging {
        editCalled := End();
      }
    }
  }
}
