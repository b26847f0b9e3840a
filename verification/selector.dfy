/** The selection-draft logic of the ScheduleSelector component as pure
    transitions over an immutable widget value. A `Widget` holds what the
    component reads: its props, the grid built in the constructor and its
    React state. `setState` is taken as an immediate update, and a call of the
    host's `onChange` is returned as the `changed` part of a `Step`. */
module Selector {
  import opened Clock
  import opened Wrappers
  import opened Grid
  import opened Schemes
  import opened Draft

  /** The props the selection logic reads; `startDate` is a time in minutes. */
  datatype Props = Props(
    selection: seq<Time>,
    selectionScheme: string,
    startDate: Time,
    numDays: int,
    minTime: int,
    maxTime: int)

  /** The component state: the draft shown while a gesture is in progress, the
      gesture's mode and start cell (absent between gestures), and whether a
      touch has moved since it began. */
  datatype State = State(
    selectionDraft: seq<Time>,
    selectionType: Option<SelectionType>,
    selectionStart: Option<Time>,
    isTouchDragging: bool)

  datatype Widget = Widget(props: Props, dates: seq<seq<Time>>, state: State)

  /** Calling a handler the scheme table has no entry for throws. */
  datatype Error = UnknownScheme(name: string)

  /** A touch move's new widget and the error it threw, if any. */
  datatype Moved = Moved(widget: Widget, thrown: Option<Error>)

  /** A transition's new widget and the selection passed to `onChange`, if it was called. */
  datatype Step = Step(widget: Widget, changed: Option<seq<Time>>)

  /** A gesture is in progress: both its mode and its start cell are set. */
  predicate Active(s: State)
  {
    s.selectionType.Some? && s.selectionStart.Some?
  }

  /** `b` differs from `a` in the draft at most. */
  predicate OnlyDraftChanged(a: Widget, b: Widget)
  {
    && b.props == a.props
    && b.dates == a.dates
    && b.state.selectionType == a.state.selectionType
    && b.state.selectionStart == a.state.selectionStart
    && b.state.isTouchDragging == a.state.isTouchDragging
  }

  /** The component's default props, `now` standing for the current date. */
  function DefaultProps(now: Time): (p: Props)
    ensures p.selection == []
    ensures forall lib :: HandlerFor(p.selectionScheme, lib) == Some(lib.square)
    ensures p.numDays == 7 && p.minTime == 9 && p.maxTime == 23
    ensures RowCount(p.numDays) == 7 && RowLength(p.minTime, p.maxTime) == 15
    ensures p.startDate == now
  {
    Props([], DefaultScheme, now, 7, 9, 23)
  }

  /** The constructor: the grid of `numDays` rows from the start of the day of
      `startDate`, and a state whose draft is a copy of the selection with no
      gesture in progress. */
  method Construct(props: Props) returns (w: Widget)
    ensures w.props == props
    ensures IsScheduleGrid(w.dates, StartOfDay(props.startDate), props.numDays, props.minTime, props.maxTime)
    ensures w.state.selectionDraft == props.selection
    ensures w.state.selectionType.None? && w.state.selectionStart.None?
    ensures !w.state.isTouchDragging
  {
    var dates := BuildGrid(StartOfDay(props.startDate), props.numDays, props.minTime, props.maxTime);
    w := Widget(props, dates, State(props.selection, None, None, false));
  }

  /** `componentWillReceiveProps`: the draft becomes the new selection. The
      grid is not rebuilt and a gesture in progress is kept. */
  function ReceiveProps(w: Widget, next: Props): (r: Widget)
    ensures r.props == next
    ensures r.state.selectionDraft == next.selection
    ensures r.dates == w.dates
    ensures r.state.selectionType == w.state.selectionType
    ensures r.state.selectionStart == w.state.selectionStart
    ensures r.state.isTouchDragging == w.state.isTouchDragging
  {
    w.(props := next, state := w.state.(selectionDraft := next.selection))
  }

  /** `handleSelectionStartEvent`: a gesture starting on a selected cell
      removes, one starting anywhere else adds. Only the committed selection
      decides, not the draft. */
  function SelectionStart(w: Widget, t: Time): (r: Widget)
    ensures Active(r.state)
    ensures r.state.selectionStart == Some(t)
    ensures r.state.selectionType == Some(Remove) <==> t in w.props.selection
    ensures r.state.selectionType == Some(Add) <==> t !in w.props.selection
    ensures r.props == w.props && r.dates == w.dates
    ensures r.state.selectionDraft == w.state.selectionDraft
    ensures r.state.isTouchDragging == w.state.isTouchDragging
  {
    var mode := if t in w.props.selection then Remove else Add;
    w.(state := w.state.(selectionType := Some(mode), selectionStart := Some(t)))
  }

  /** The region a gesture from `start` to `end` covers: empty when there is no
      end cell, otherwise the named scheme's answer, or an error when the
      scheme table has no such name. */
  function Region(props: Props, dates: seq<seq<Time>>, lib: SchemeLibrary, start: Time, end: Option<Time>)
    : (r: Result<seq<Time>, Error>)
    ensures end.None? ==> r == Success([])
    ensures r.Failure? <==> end.Some? && !IsKnownScheme(props.selectionScheme)
    ensures r.Failure? ==> r.error == UnknownScheme(props.selectionScheme)
    ensures end.Some? && props.selectionScheme == "linear" ==> r == Success(lib.linear(start, end.value, dates))
    ensures end.Some? && props.selectionScheme == "square" ==> r == Success(lib.square(start, end.value, dates))
  {
    if end.None? then Success([])
    else
      match HandlerFor(props.selectionScheme, lib)
      case None => Failure(UnknownScheme(props.selectionScheme))
      case Some(handler) => Success(handler(start, end.value, dates))
  }

  /** `updateAvailabilityDraft`: with a gesture in progress, the draft is
      rebuilt from the committed selection and the gesture's region; without
      one, nothing happens. */
  function UpdateDraft(w: Widget, lib: SchemeLibrary, end: Option<Time>): (r: Result<Widget, Error>)
    ensures !Active(w.state) ==> r == Success(w)
    ensures r.Failure? <==> Active(w.state) && end.Some? && !IsKnownScheme(w.props.selectionScheme)
    ensures r.Success? ==> OnlyDraftChanged(w, r.value)
    ensures Active(w.state) && end.None? ==> r.Success? && r.value.state.selectionDraft == w.props.selection
    ensures Active(w.state) && r.Success? ==>
      var region := Region(w.props, w.dates, lib, w.state.selectionStart.value, end).value;
      var draft := r.value.state.selectionDraft;
      && (w.state.selectionType == Some(Add) ==> IsAddDraft(w.props.selection, region, draft))
      && (w.state.selectionType == Some(Remove) ==> IsRemoveDraft(w.props.selection, region, draft))
  {
    if w.state.selectionType.None? || w.state.selectionStart.None? then Success(w)
    else
      match Region(w.props, w.dates, lib, w.state.selectionStart.value, end)
      case Failure(e) => Failure(e)
      case Success(region) =>
        var draft := Redraft(w.props.selection, w.state.selectionType.value, region);
        Success(w.(state := w.state.(selectionDraft := draft)))
  }

  /** `endSelection`: hands the draft to `onChange` and ends the gesture,
      keeping the draft. */
  function EndSelection(w: Widget): (r: Step)
    ensures r.changed == Some(w.state.selectionDraft)
    ensures !Active(r.widget.state)
    ensures r.widget.state.selectionType.None? && r.widget.state.selectionStart.None?
    ensures r.widget.state.selectionDraft == w.state.selectionDraft
    ensures r.widget.state.isTouchDragging == w.state.isTouchDragging
    ensures r.widget.props == w.props && r.widget.dates == w.dates
  {
    Step(w.(state := w.state.(selectionType := None, selectionStart := None)), Some(w.state.selectionDraft))
  }

  /** `handleTouchMoveEvent`: marks the touch as dragging, then redrafts up to
      the cell under the finger when there is one. `hit` stands for the
      cell lookup of `getTimeFromTouchEvent`. The flag is set before the
      redraft, so it stays set when the redraft throws. */
  function TouchMove(w: Widget, lib: SchemeLibrary, hit: Option<Time>): (r: Moved)
    ensures r.widget.state.isTouchDragging
    ensures r.widget.props == w.props && r.widget.dates == w.dates
    ensures r.widget.state.selectionType == w.state.selectionType
    ensures r.widget.state.selectionStart == w.state.selectionStart
    ensures r.thrown.Some? <==> hit.Some? && Active(w.state) && !IsKnownScheme(w.props.selectionScheme)
    ensures r.thrown.Some? ==> r.thrown.value == UnknownScheme(w.props.selectionScheme)
    ensures hit.None? || r.thrown.Some? ==> r.widget.state.selectionDraft == w.state.selectionDraft
    ensures hit.Some? && r.thrown.None? ==>
              r.widget.state.selectionDraft
                == UpdateDraft(w, lib, hit).value.state.selectionDraft
  {
    var dragging := w.(state := w.state.(isTouchDragging := true));
    if hit.None? then Moved(dragging, None)
    else
      match UpdateDraft(dragging, lib, hit)
      case Failure(e) => Moved(dragging, Some(e))
      case Success(next) => Moved(next, None)
  }

  /** `handleTouchEndEvent`. A touch that never moved redrafts with no end
      cell and commits from the redraft's callback, which does not run when no
      gesture is in progress; a touch that moved commits the draft as it is.
      Either way the touch stops dragging and no gesture remains. */
  function TouchEnd(w: Widget, lib: SchemeLibrary): (r: Step)
    ensures !r.widget.state.isTouchDragging
    ensures !Active(r.widget.state)
    ensures r.changed.Some? ==> r.widget.state.selectionType.None? && r.widget.state.selectionStart.None?
    ensures r.changed.Some? <==> w.state.isTouchDragging || Active(w.state)
    ensures w.state.isTouchDragging ==> r.changed == Some(w.state.selectionDraft)
    ensures w.state.isTouchDragging ==> r.widget.state.selectionDraft == w.state.selectionDraft
    ensures !w.state.isTouchDragging && Active(w.state) ==>
              r.changed == Some(w.props.selection) && r.widget.state.selectionDraft == w.props.selection
    ensures !w.state.isTouchDragging && !Active(w.state) ==> r.widget == w
    ensures r.widget.props == w.props && r.widget.dates == w.dates
  {
    var s :=
      if w.state.isTouchDragging then EndSelection(w)
      else if Active(w.state) then EndSelection(UpdateDraft(w, lib, None).value)
      else Step(w, None);
    s.(widget := s.widget.(state := s.widget.state.(isTouchDragging := false)))
  }

  /** Redrafting twice with the same end cell is redrafting once. */
  lemma UpdateIdempotent(w: Widget, lib: SchemeLibrary, end: Option<Time>)
    requires UpdateDraft(w, lib, end).Success?
    ensures UpdateDraft(UpdateDraft(w, lib, end).value, lib, end) == UpdateDraft(w, lib, end)
  {
  }

  /** The draft a redraft produces does not depend on the draft before it. */
  lemma UpdateIgnoresPreviousDraft(w: Widget, lib: SchemeLibrary, end: Option<Time>, earlier: seq<Time>)
    requires Active(w.state)
    ensures UpdateDraft(w.(state := w.state.(selectionDraft := earlier)), lib, end) == UpdateDraft(w, lib, end)
  {
  }

  /** A tap, a touch that starts on a cell and ends without moving, commits
      the selection exactly as it was, whichever mode the tap started. */
  lemma TapCommitsSelectionUnchanged(w: Widget, lib: SchemeLibrary, t: Time)
    requires !w.state.isTouchDragging
    ensures TouchEnd(SelectionStart(w, t), lib).changed == Some(w.props.selection)
    ensures !Active(TouchEnd(SelectionStart(w, t), lib).widget.state)
  {
  }

  /** A drag that adds a region, committed and fed back as the new selection,
      followed by a drag over the same cells that starts on a now-selected
      cell, commits the original selection without that region. From an empty
      selection the two drags give the empty selection back. */
  lemma AddDragThenRemoveDrag(w: Widget, lib: SchemeLibrary, t: Time, e: Time)
    requires IsKnownScheme(w.props.selectionScheme)
    requires t !in w.props.selection
    requires t in Region(w.props, w.dates, lib, t, Some(e)).value
    ensures
      var region := Region(w.props, w.dates, lib, t, Some(e)).value;
      var first := EndSelection(UpdateDraft(SelectionStart(w, t), lib, Some(e)).value);
      var committed := first.changed.value;
      var fedBack := ReceiveProps(first.widget, w.props.(selection := committed));
      var second := EndSelection(UpdateDraft(SelectionStart(fedBack, t), lib, Some(e)).value);
      && committed == MergeAdd(w.props.selection, region)
      && second.changed == Some(MergeRemove(w.props.selection, region))
      && (w.props.selection == [] ==> second.changed == Some([]))
  {
    var region := Region(w.props, w.dates, lib, t, Some(e)).value;
    AddThenRemove(w.props.selection, region);
    AddThenRemoveFromEmpty(region);
  }
}
