/** A panel that slides in from the side and closes when dragged right by
    more than 30% of the window width. Touch positions and the window
    width are inputs; the close callback's effect on `isOpen` is the
    caller's. */
module OpenFromSide {

  /** The share of the window width a drag must exceed to close the panel. */
  const CLOSE_FRACTION: real := 0.3

  datatype PanelState = PanelState(isOpen: bool, isDragging: bool, position: real, startX: real)

  const INITIAL_CLOSED: PanelState := PanelState(false, false, 0.0, 0.0)

  /** The effect run when `isOpen` changes: opening resets the offset. */
  function OpenStep(s: PanelState, open: bool): PanelState {
    if open then s.(isOpen := true, position := 0.0) else s.(isOpen := false)
  }

  function StartStep(s: PanelState, x: real): PanelState {
    if !s.isOpen then s else s.(startX := x, isDragging := true)
  }

  /** Only rightward offsets are followed. */
  function MoveStep(s: PanelState, x: real): PanelState {
    if !s.isDragging || !s.isOpen then s
    else if x - s.startX > 0.0 then s.(position := x - s.startX)
    else s
  }

  /** The state after the touch ends and whether the close callback was called. */
  datatype EndOutcome = EndOutcome(next: PanelState, closeCalled: bool)

  function EndStep(s: PanelState, innerWidth: real): EndOutcome {
    if !s.isDragging || !s.isOpen then EndOutcome(s, false)
    else if s.position > innerWidth * CLOSE_FRACTION then EndOutcome(s.(isDragging := false), true)
    else EndOutcome(s.(isDragging := false, position := 0.0), false)
  }

  predicate PanelOk(s: PanelState) {
    s.position >= 0.0
  }

  /** The offset is never negative. */
  lemma StepsKeepPanelOk(s: PanelState, x: real, open: bool, innerWidth: real)
    requires PanelOk(s)
    ensures PanelOk(OpenStep(s, open)) && PanelOk(StartStep(s, x)) && PanelOk(MoveStep(s, x))
    ensures PanelOk(EndStep(s, innerWidth).next)
  {
  }

  /** A closed panel ignores every touch. */
  lemma ClosedIgnoresTouches(s: PanelState, x: real, innerWidth: real)
    requires !s.isOpen
    ensures StartStep(s, x) == s && MoveStep(s, x) == s && EndStep(s, innerWidth) == EndOutcome(s, false)
  {
  }

  /** A leftward move leaves the offset where it was. */
  lemma LeftwardMoveKeepsPosition(s: PanelState, x: real)
    requires x <= s.startX
    ensures MoveStep(s, x).position == s.position
  {
  }

  /** Releasing a drag calls the close callback exactly past 30% of the
      width, springs the panel back otherwise, and always stops dragging. */
  lemma ReleaseClosesIff(s: PanelState, innerWidth: real)
    requires s.isOpen && s.isDragging
    ensures var o := EndStep(s, innerWidth);
      && (o.closeCalled <==> s.position > innerWidth * CLOSE_FRACTION)
      && (!o.closeCalled ==> o.next.position == 0.0)
      && !o.next.isDragging
  {
  }

  /** One drag from start to release: the panel closes exactly when the
      finger went right by more than 30% of the width. */
  lemma SingleDragCloses(s: PanelState, x0: real, x1: real, innerWidth: real)
    requires s.isOpen && s.position == 0.0 && innerWidth >= 0.0
    ensures EndStep(MoveStep(StartStep(s, x0), x1), innerWidth).closeCalled <==> x1 - x0 > innerWidth * CLOSE_FRACTION
  {
  }

  /** The component's state, with the same transitions. */
  class Panel {
    var isOpen: bool
    var isDragging: bool
    var position: real
    var startX: real

    function State(): PanelState
      reads this
    {
      PanelState(isOpen, isDragging, position, startX)
    }

    constructor (isOpen: bool)
      ensures State() == PanelState(isOpen, false, 0.0, 0.0)
    {
      this.isOpen := isOpen;
      isDragging, position, startX := false, 0.0, 0.0;
    }

    method SetOpen(open: bool)
      modifies this
      ensures State() == OpenStep(old(State()), open)
    {
      isOpen := open;
      if open {
        position := 0.0;
      }
    }

    method TouchStart(x: real)
      modifies this
      ensures State() == StartStep(old(State()), x)
    {
      if !isOpen {
        return;
      }
      startX := x;
      isDragging := true;
    }

    method TouchMove(x: real)
      modifies this
      ensures State() == MoveStep(old(State()), x)
    {
      if !isDragging || !isOpen {
        return;
      }
      var diff := x - startX;
      if diff > 0.0 {
        position := diff;
      }
    }

    method TouchEnd(innerWidth: real) returns (closeCalled: bool)
      modifies this
      ensures var o := EndStep(old(State()), innerWidth); State() == o.next && closeCalled == o.closeCalled
    {
      closeCalled := false;
      if !isDragging || !isOpen {
        return;
      }
      isDragging := false;
      if position > innerWidth * CLOSE_FRACTION {
        closeCalled := true;
      } else {
        position := 0.0;
      }
    }
  }
}
