/** Hover and selection in one time-slot cell (src/components/TimeSlotCell.tsx):
    which group's details are shown, and when the tooltip is placed again.
    The transitions are pure functions over `CellState`; the class
    `TimeSlotCell` holds the component's state fields and its handlers update
    them according to those functions. */
module CellInteraction {
  import opened Common
  import opened SlotGrouping
  import opened TooltipPlacement

  /** The component's three pieces of state. Group ids are indices into the
      cell's group list; an empty style object is `None`. */
  datatype CellState = CellState(hovered: Option<nat>, selected: Option<nat>, tooltip: Option<Position>)

  /** Nothing hovered, nothing selected, no tooltip position yet. */
  const Initial: CellState := CellState(None, None, None)

  /** Placement is recomputed only when the cell element is mounted (the
      anchor box is present); otherwise the state is left as it was. */
  function Reposition(s: CellState, anchor: Option<Rect>, view: Viewport): (r: CellState)
    ensures r.hovered == s.hovered && r.selected == s.selected
    ensures anchor.None? ==> r.tooltip == s.tooltip
    ensures anchor.Some? ==>
              r.tooltip.Some? && r.tooltip.value.top >= 0.0
              && r.tooltip.value.left + TooltipWidth <= view.width
  {
    match anchor
    case None => s
    case Some(box) => s.(tooltip := Some(Placement(box, view)))
  }

  /** Pointer enters group `i`: it becomes the hovered group and placement is
      recomputed, whether or not a group is selected. */
  function AfterEnter(s: CellState, i: nat, anchor: Option<Rect>, view: Viewport): CellState {
    Reposition(s.(hovered := Some(i)), anchor, view)
  }

  /** Pointer leaves a group: the hover is cleared. */
  function AfterLeave(s: CellState): CellState {
    s.(hovered := None)
  }

  /** Click on group `i`: clicking the selected group deselects it, any other
      click selects `i`; placement is recomputed only when a group is now
      selected. */
  function AfterClick(s: CellState, i: nat, anchor: Option<Rect>, view: Viewport): CellState {
    var newSelected := if s.selected == Some(i) then None else Some(i);
    var t := s.(selected := newSelected);
    if newSelected.Some? then Reposition(t, anchor, view) else t
  }

  /** The close button: the selection is cleared. */
  function AfterClose(s: CellState): CellState {
    s.(selected := None)
  }

  /** The group whose details are shown: the selected one, else the hovered one. */
  function ActiveId(s: CellState): Option<nat> {
    if s.selected.Some? then s.selected else s.hovered
  }

  /** The active group itself; an id past the end of the list shows nothing. */
  function ActiveGroup(s: CellState, groups: seq<SlotGroup>): (r: Option<SlotGroup>)
    ensures r.Some? <==> ActiveId(s).Some? && ActiveId(s).value < |groups|
    ensures r.Some? ==> r.value == groups[ActiveId(s).value]
  {
    match ActiveId(s)
    case None => None
    case Some(i) => if i < |groups| then Some(groups[i]) else None
  }

  /** The close button is drawn inside the tooltip only for a selection. */
  predicate ShowsCloseButton(s: CellState, groups: seq<SlotGroup>) {
    ActiveGroup(s, groups).Some? && s.selected.Some?
  }

  /** A selection masks the hover: entering or leaving any group does not
      change which group is shown. */
  lemma {:induction false} SelectionMasksHover(s: CellState, j: nat, anchor: Option<Rect>, view: Viewport)
    requires s.selected.Some?
    ensures ActiveId(AfterEnter(s, j, anchor, view)) == s.selected
    ensures ActiveId(AfterLeave(s)) == s.selected
  {
  }

  /** Without a selection, the hovered group is the one shown, and leaving it
      shows nothing. */
  lemma {:induction false} HoverShownWithoutSelection(s: CellState, j: nat, anchor: Option<Rect>, view: Viewport)
    requires s.selected.None?
    ensures ActiveId(AfterEnter(s, j, anchor, view)) == Some(j)
    ensures ActiveId(AfterLeave(AfterEnter(s, j, anchor, view))) == None
  {
  }

  /** After clicking group `i`, entering another group `j` keeps `i` shown. */
  lemma {:induction false} ClickThenEnterKeepsSelection(s: CellState, i: nat, j: nat, a1: Option<Rect>, a2: Option<Rect>, view: Viewport)
    requires s.selected != Some(i)
    ensures ActiveId(AfterEnter(AfterClick(s, i, a1, view), j, a2, view)) == Some(i)
  {
  }

  /** A click flips whether `i` is selected and never touches the hover; the
      tooltip keeps its old position when the click deselects. */
  lemma {:induction false} ClickToggles(s: CellState, i: nat, anchor: Option<Rect>, view: Viewport)
    ensures var r := AfterClick(s, i, anchor, view);
      && (r.selected == Some(i) <==> s.selected != Some(i))
      && (r.selected.None? <==> s.selected == Some(i))
      && r.hovered == s.hovered
      && (r.selected.None? ==> r.tooltip == s.tooltip)
      && (r.selected.Some? && anchor.Some? ==> r.tooltip == Some(Placement(anchor.value, view)))
  {
  }

  /** Clicking a group that is not selected twice leaves nothing selected and
      the hover as it was. */
  lemma {:induction false} ClickTwiceDeselects(s: CellState, i: nat, a1: Option<Rect>, a2: Option<Rect>, view: Viewport)
    requires s.selected != Some(i)
    ensures AfterClick(AfterClick(s, i, a1, view), i, a2, view).selected == None
    ensures AfterClick(AfterClick(s, i, a1, view), i, a2, view).hovered == s.hovered
  {
  }

  /** Leave and close each clear their own field only, so they commute, and
      after a close the hovered group (if any) is the one shown. */
  lemma {:induction false} LeaveAndCloseIndependent(s: CellState)
    ensures AfterLeave(s).selected == s.selected && AfterLeave(s).tooltip == s.tooltip
    ensures AfterClose(s).hovered == s.hovered && AfterClose(s).tooltip == s.tooltip
    ensures AfterLeave(AfterClose(s)) == AfterClose(AfterLeave(s))
    ensures ActiveId(AfterClose(s)) == s.hovered
  {
  }

  /** Entering a group places the tooltip for the current anchor box, or
      leaves it where it was when there is no box. */
  lemma {:induction false} EnterPlacesTooltip(s: CellState, i: nat, anchor: Option<Rect>, view: Viewport)
    ensures anchor.Some? ==> AfterEnter(s, i, anchor, view).tooltip == Some(Placement(anchor.value, view))
    ensures anchor.None? ==> AfterEnter(s, i, anchor, view).tooltip == s.tooltip
  {
  }

  /** The events the cell reacts to, with the anchor box and window size read
      at the moment of the event. */
  datatype Event =
    | PointerEnter(group: nat, anchor: Option<Rect>, view: Viewport)
    | PointerLeave
    | PointerClick(group: nat, anchor: Option<Rect>, view: Viewport)
    | CloseButton

  function Step(s: CellState, e: Event): CellState {
    match e
    case PointerEnter(i, anchor, view) => AfterEnter(s, i, anchor, view)
    case PointerLeave => AfterLeave(s)
    case PointerClick(i, anchor, view) => AfterClick(s, i, anchor, view)
    case CloseButton => AfterClose(s)
  }

  /** The state after a sequence of events, oldest first. */
  function Run(s: CellState, events: seq<Event>): CellState
    decreases |events|
  {
    if events == [] then s else Run(Step(s, events[0]), events[1..])
  }

  /** Every group id in the state is below `n`, and any tooltip position
      starts inside the window vertically. */
  predicate WellFormed(s: CellState, n: nat) {
    && (s.hovered.Some? ==> s.hovered.value < n)
    && (s.selected.Some? ==> s.selected.value < n)
    && (s.tooltip.Some? ==> s.tooltip.value.top >= 0.0)
  }

  /** Events carry ids of groups that exist (the handlers are wired to the
      rendered groups). */
  predicate EventsBelow(events: seq<Event>, n: nat) {
    forall k | 0 <= k < |events| ::
      (events[k].PointerEnter? || events[k].PointerClick?) ==> events[k].group < n
  }

  /** From the initial state, any sequence of events on existing groups keeps
      the ids valid and the tooltip's top inside the window. */
  lemma {:induction false} RunKeepsWellFormed(s: CellState, events: seq<Event>, n: nat)
    requires WellFormed(s, n) && EventsBelow(events, n)
    ensures WellFormed(Run(s, events), n)
    decreases |events|
  {
    if events != [] {
      var next := Step(s, events[0]);
      assert WellFormed(next, n) by {
        match events[0]
        case PointerEnter(i, anchor, view) => {}
        case PointerLeave => {}
        case PointerClick(i, anchor, view) => {}
        case CloseButton => {}
      }
      assert EventsBelow(events[1..], n) by {
        forall k | 0 <= k < |events[1..]|
          ensures (events[1..][k].PointerEnter? || events[1..][k].PointerClick?) ==> events[1..][k].group < n
        {
          assert events[1..][k] == events[k + 1];
        }
      }
      RunKeepsWellFormed(next, events[1..], n);
    }
  }

  /** Hence, for such event sequences from the initial state, the detail
      panel is shown exactly when some group is active. */
  lemma {:induction false} PanelShownIffActive(events: seq<Event>, groups: seq<SlotGroup>)
    requires EventsBelow(events, |groups|)
    ensures ActiveGroup(Run(Initial, events), groups).Some? <==> ActiveId(Run(Initial, events)).Some?
  {
    RunKeepsWellFormed(Initial, events, |groups|);
  }

  /** For such event sequences from the initial state, the close button is
      drawn exactly when a group is selected. */
  lemma {:induction false} CloseButtonIffSelected(events: seq<Event>, groups: seq<SlotGroup>)
    requires EventsBelow(events, |groups|)
    ensures ShowsCloseButton(Run(Initial, events), groups) <==> Run(Initial, events).selected.Some?
  {
    RunKeepsWellFormed(Initial, events, |groups|);
  }

  /** One rendered cell: its slots, their groups and the component state. */
  class TimeSlotCell {
    const room: string
    const date: string
    const timeSlots: seq<TimeSlot>
    const groupedSlots: seq<SlotGroup>
    var hoveredGroupId: Option<nat>
    var selectedGroupId: Option<nat>
    var tooltipStyle: Option<Position>

    function State(): CellState
      reads this
    {
      CellState(hoveredGroupId, selectedGroupId, tooltipStyle)
    }

    /** Mounting the cell groups its slots and starts with nothing active. */
    constructor(room: string, date: string, timeSlots: seq<TimeSlot>)
      ensures this.room == room && this.date == date && this.timeSlots == timeSlots
      ensures groupedSlots == Grouped(timeSlots)
      ensures State() == Initial
    {
      var groups := GroupSlots(timeSlots);
      this.room := room;
      this.date := date;
      this.timeSlots := timeSlots;
      groupedSlots := groups;
      hoveredGroupId := None;
      selectedGroupId := None;
      tooltipStyle := None;
    }

    method CalculateTooltipPosition(anchor: Option<Rect>, view: Viewport)
      modifies this
      ensures State() == Reposition(old(State()), anchor, view)
    {
      if anchor.Some? {
        var p := CalculatePosition(anchor.value, view);
        tooltipStyle := Some(p);
      }
    }

    method HandleMouseEnter(groupId: nat, anchor: Option<Rect>, view: Viewport)
      modifies this
      ensures State() == AfterEnter(old(State()), groupId, anchor, view)
    {
      hoveredGroupId := Some(groupId);
      CalculateTooltipPosition(anchor, view);
    }

    method HandleMouseLeave()
      modifies this
      ensures State() == AfterLeave(old(State()))
    {
      hoveredGroupId := None;
    }

    method HandleClick(groupId: nat, anchor: Option<Rect>, view: Viewport)
      modifies this
      ensures State() == AfterClick(old(State()), groupId, anchor, view)
    {
      var newSelectedGroupId := if selectedGroupId == Some(groupId) then None else Some(groupId);
      selectedGroupId := newSelectedGroupId;
      if newSelectedGroupId.Some? {
        CalculateTooltipPosition(anchor, view);
      }
    }

    method HandleClose()
      modifies this
      ensures State() == AfterClose(old(State()))
    {
      selectedGroupId := None;
    }
  }
}
