/** A sheet that slides up from the bottom and closes when dragged down
    far enough. Touch positions are inputs. */
module BottomSheet {
  import opened Wrappers

  /** How far down a drag must end to close the sheet. */
  const CLOSE_DISTANCE: real := 100.0

  datatype SheetState = SheetState(startY: Option<real>, currentY: Option<real>, isDragging: bool)

  const INITIAL: SheetState := SheetState(None, None, false)

  function StartStep(s: SheetState, y: real): SheetState {
    s.(startY := Some(y), isDragging := false)
  }

  function MoveStep(s: SheetState, y: real): SheetState {
    if s.startY.None? then s
    else s.(currentY := Some(y), isDragging := s.isDragging || y - s.startY.value > 0.0)
  }

  /** The state after the touch ends and whether the sheet was closed. */
  datatype EndOutcome = EndOutcome(next: SheetState, closed: bool)

  function EndStep(s: SheetState): EndOutcome {
    EndOutcome(INITIAL, s.startY.Some? && s.currentY.Some? && s.currentY.value - s.startY.value > CLOSE_DISTANCE)
  }

  /** The sheet closes exactly when the last move ended more than the close
      distance below the start, and the gesture is forgotten either way. */
  lemma EndClosesIff(s: SheetState)
    ensures EndStep(s).closed <==>
      exists y0, y1 :: s.startY == Some(y0) && s.currentY == Some(y1) && y1 - y0 > CLOSE_DISTANCE
    ensures EndStep(s).next == INITIAL
  {
    if EndStep(s).closed {
      assert s.startY == Some(s.startY.value) && s.currentY == Some(s.currentY.value);
    }
  }

  /** A tap, a touch with no move, never closes the sheet. */
  lemma TapNeverCloses(y: real)
    ensures !EndStep(StartStep(INITIAL, y)).closed
  {
  }

  /** A downward drag of more than the close distance from rest closes the sheet. */
  lemma LongDragCloses(y0: real, y1: real)
    requires y1 - y0 > CLOSE_DISTANCE
    ensures EndStep(MoveStep(StartStep(INITIAL, y0), y1)).closed
  {
  }

  /** Moves only ever turn the dragging flag on, and need a start. */
  lemma DraggingOnlyTurnsOn(s: SheetState, y: real)
    ensures s.isDragging ==> MoveStep(s, y).isDragging
    ensures s.startY.None? ==> MoveStep(s, y) == s
    ensures s.startY.Some? ==> MoveStep(s, y).currentY == Some(y)
  {
  }

  /** The component's state, with the same transitions. */
  class Sheet {
    var startY: Option<real>
    var currentY: Option<real>
    var isDragging: bool

    function State(): SheetState
      reads this
    {
      SheetState(startY, currentY, isDragging)
    }

    constructor ()
      ensures State() == INITIAL
    {
      startY, currentY, isDragging := None, None, false;
    }

    method TouchStart(y: real)
      modifies this
      ensures State() == StartStep(old(State()), y)
    {
      startY := Some(y);
      isDragging := false;
    }

    method TouchMove(y: real)
      modifies this
      ensures State() == MoveStep(old(State()), y)
    {
      if startY.None? {
        return;
      }
      currentY := Some(y);
      if y - startY.value > 0.0 {
        isDragging := true;
      }
    }

    method TouchEnd() returns (closed: bool)
      modifies this
      ensures var o := EndStep(old(State())); State() == o.next && closed == o.closed
    {
      closed := false;
      if startY.Some? && currentY.Some? && currentY.value - startY.value > CLOSE_DISTANCE {
        closed := true;
      }
      startY := None;
      currentY := None;
      isDragging := false;
    }
  }
}
