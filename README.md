# room-assist in Dafny

This project models the logic of room-assist's room-availability page. The page is a grid of rooms × dates. Each cell shows the day's hourly time slots as coloured segments, and a filter panel chooses which rooms and dates are shown. The project models these parts:

- **Slot grouping** (`slot_grouping.dfy`, module `SlotGrouping`). A cell merges adjacent slots with the same status into one segment (a run-length encoding).
  - `Grouped` is a reference definition that adds one slot at a time.
  - `GroupSlots` is the component's single loop with an open accumulator, and it is proved equal to `Grouped`.
  - `IsRunEncoding` states the partition laws independently of either: the groups cover the slots in order, each is a run of one status taking its start time, detail and id from the run's first slot and its end time from the run's last slot, the counts add up to the number of slots, and neighbouring groups differ in status.
  - `Grouped` satisfies these laws, and it is the only list of groups that does.
- **Tooltip placement** (`tooltip_placement.dfy`, module `TooltipPlacement`). The tooltip goes below the anchor, flips above it when the anchor's bottom plus the tooltip height is past the window, is pulled in from the right edge, and a negative top becomes 8. `Placement` gives the result as a value. `CalculatePosition` is the statement-by-statement version.
- **Hover and selection** (`cell_interaction.dfy`, module `CellInteraction`).
  - Pure transitions over the cell's three state fields: hovered group, selected group and tooltip position.
  - The rule that decides which group is active: the selected one, otherwise the hovered one.
  - The class `TimeSlotCell`, whose handlers update its fields exactly as those transitions say.
- **Filter panel** (`filter_panel.dfy`, module `FilterPanel`). The weekday checkbox toggle, and the transpose flag.
- **Page** (`app.dfy`, module `App`).
  - Date and room filtering.
  - The "update" button: it copies the four edited filter values to the applied ones unless both dates are set and more than 50 days apart.
  - The default date range.
  - The class `AppPage` holding the edited and applied settings.
- **Generated data** (`mock_data.dfy`, module `MockData`). Fourteen consecutive dates, and for each room and date thirteen hourly slots from 8:00 to 21:00. The status comes from a random draw and is paired with a fixed detail text.

Shared sequence operations (`Filter` for `Array.prototype.filter`, subsequences, duplicate-freedom) are in `common.dfy`, module `Common`.

Modelling choices:
- Dates are whole day numbers, and an empty date field is `None`.
- `Date.getDay` is a function parameter `weekday`.
- Pixel values are reals.
- The anchor box is an `Option<Rect>`. `None` stands for an unmounted cell element, and then placement changes nothing.
- The random draws are a function `rand(room, date, i)`.

Three behaviours of the code are worth knowing:
- The flip test compares `bottom + 180` with the window height, but the tooltip starts 8 units below the anchor. A tooltip kept below the anchor can therefore end up to 8 units past the window's bottom edge (`BelowOvershootBounded`, and the concrete case `BelowCanOvershoot`). So the code does not keep the tooltip inside the window even when there would be room above the anchor. The model follows the code.
- The default-range effect runs whenever the edited start date changes. Clearing the start date therefore resets both the edited and the applied range to the default (`AppPage.ApplyDefaultRange`).
- A difference of exactly 50 days is accepted, so an accepted range spans 51 days. The date filter therefore keeps at most 51 distinct dates of any date list (`ShownDatesBounded`). The page itself has only the 14 generated dates, so it never shows more than 14 (`PageShowsAtMostGeneratedDates`).

## Model

| member | source | states |
|---|---|---|
| SlotGrouping.Grouped | src/components/TimeSlotCell.tsx:33-63 | no groups exactly for no slots; never more groups than slots; the last group carries the last slot's status and end time |
| SlotGrouping.GroupSlots | src/components/TimeSlotCell.tsx:33-63 | the accumulator loop (push on status change, extend otherwise, flush at the end) yields exactly the reference grouping |
| SlotGrouping.GroupedIsRunEncoding | src/components/TimeSlotCell.tsx:37-62 | the groups partition the slots in order into runs of one status; each takes start time, detail and id from its first slot and end time from its last; every count is at least 1 and the counts sum to the number of slots; neighbouring groups differ in status |
| SlotGrouping.RunEncodingUnique | src/components/TimeSlotCell.tsx:37-62 | any list of groups satisfying those partition laws is the grouping, so the laws determine the output |
| SlotGrouping.NewGroupExactlyOnStatusChange | src/components/TimeSlotCell.tsx:38-55 | adding a slot opens a new group exactly when its status differs from the previous slot's (or it is the first); otherwise the last group grows by one and the earlier groups stay |
| SlotGrouping.SingleStatusSingleGroup | src/components/TimeSlotCell.tsx:51-55 | slots of one status give one group with count equal to the number of slots, from the first slot's start to the last slot's end |
| SlotGrouping.GroupsTileTimeline | src/components/TimeSlotCell.tsx:43-53 | for slots that each end where the next starts, the first group starts with the first slot, each group ends where the next starts, and the last ends with the last slot |
| SlotGrouping.StatusColor | src/components/TimeSlotCell.tsx:65-76 | every status maps to a class name starting with `timeslot-group-` (the empty default is unreachable) |
| SlotGrouping.StatusText | src/components/TimeSlotCell.tsx:78-89 | no status maps to the fallback label `不明` |
| SlotGrouping.StatusLabelsDistinguish | src/components/TimeSlotCell.tsx:65-89 | different statuses get different colour classes and different labels |
| TooltipPlacement.Placement | src/components/TimeSlotCell.tsx:103-119 | the top is never negative; the tooltip's right edge is within the window width; left never moves right of the anchor and stays at the anchor's left exactly when the tooltip fits to the right; otherwise left is the window width minus 200 minus the 16-unit margin |
| TooltipPlacement.CalculatePosition | src/components/TimeSlotCell.tsx:95-127 | the sequence of overriding assignments computes `Placement` |
| TooltipPlacement.BelowWhenRoom | src/components/TimeSlotCell.tsx:103-107 | without a flip (and with the anchor not above the window) the tooltip starts 8 below the anchor's bottom |
| TooltipPlacement.AboveWhenNoRoom | src/components/TimeSlotCell.tsx:106-109 | after a flip with room above, the tooltip ends 8 above the anchor's top and lies within the window vertically |
| TooltipPlacement.TopClampedToGap | src/components/TimeSlotCell.tsx:116-119 | a candidate top above the window is replaced by 8 |
| TooltipPlacement.BelowOvershootBounded | src/components/TimeSlotCell.tsx:103-109 | a tooltip kept below the anchor ends at most 8 past the window's bottom |
| TooltipPlacement.BelowCanOvershoot | src/components/TimeSlotCell.tsx:100-109 | that overshoot happens: bottom 615 in an 800-high window keeps the tooltip below, ending at 803 |
| TooltipPlacement.FlipScenario | src/components/TimeSlotCell.tsx:103-119 | anchor top 700, bottom 750, left 50 in a 1000×800 window gives top 512, left 50 |
| TooltipPlacement.PullLeftScenario | src/components/TimeSlotCell.tsx:111-114 | an anchor 900 from the left of a 1000-wide window gives left 784, ending 16 before the edge |
| CellInteraction.Reposition | src/components/TimeSlotCell.tsx:95-126 | placement changes only the tooltip position; with no anchor nothing changes; with an anchor the new position has a non-negative top and fits the window width |
| CellInteraction.ActiveGroup | src/components/TimeSlotCell.tsx:91-92 | a group is shown exactly when there is an active id within the list, and it is the group at that index |
| CellInteraction.SelectionMasksHover | src/components/TimeSlotCell.tsx:91-153 | while a group is selected, entering or leaving any group leaves the selected group active |
| CellInteraction.HoverShownWithoutSelection | src/components/TimeSlotCell.tsx:91-153 | with no selection, entering a group makes it active and leaving it makes nothing active |
| CellInteraction.ClickThenEnterKeepsSelection | src/components/TimeSlotCell.tsx:129-140 | after clicking group i (not already selected), entering any group j keeps i active |
| CellInteraction.ClickToggles | src/components/TimeSlotCell.tsx:134-140 | a click selects i exactly when i was not selected and clears the selection exactly when it was; the hover is untouched; the tooltip is placed again only when a group is now selected |
| CellInteraction.ClickTwiceDeselects | src/components/TimeSlotCell.tsx:134-140 | clicking an unselected group twice leaves nothing selected and the hover unchanged |
| CellInteraction.LeaveAndCloseIndependent | src/components/TimeSlotCell.tsx:145-196 | leave clears only the hover and close only the selection, so they commute; after close the hovered group is active |
| CellInteraction.EnterPlacesTooltip | src/components/TimeSlotCell.tsx:129-132 | entering always places the tooltip for the current anchor, even under a selection, and leaves it when there is no anchor |
| CellInteraction.RunKeepsWellFormed | src/components/TimeSlotCell.tsx:129-156 | any event sequence naming existing groups keeps both ids within the group list and the tooltip's top non-negative |
| CellInteraction.PanelShownIffActive | src/components/TimeSlotCell.tsx:145-161 | from the initial state, the detail panel is shown exactly when some group is active |
| CellInteraction.CloseButtonIffSelected | src/components/TimeSlotCell.tsx:190-199 | from the initial state, for events on existing groups, the close button is drawn exactly when a group is selected |
| CellInteraction.TimeSlotCell.constructor | src/components/TimeSlotCell.tsx:26-63 | a new cell holds the grouping of its slots and nothing hovered, selected or placed |
| CellInteraction.TimeSlotCell.CalculateTooltipPosition | src/components/TimeSlotCell.tsx:95-127 | the new state is `Reposition` of the old |
| CellInteraction.TimeSlotCell.HandleMouseEnter | src/components/TimeSlotCell.tsx:129-132 | the new state is the enter transition of the old |
| CellInteraction.TimeSlotCell.HandleMouseLeave | src/components/TimeSlotCell.tsx:153 | the new state is the old with the hover cleared |
| CellInteraction.TimeSlotCell.HandleClick | src/components/TimeSlotCell.tsx:134-140 | the new state is the click transition of the old |
| CellInteraction.TimeSlotCell.HandleClose | src/components/TimeSlotCell.tsx:193 | the new state is the old with the selection cleared |
| FilterPanel.WeekdayToggle | src/components/FilterPanel.tsx:40-46 | membership of the toggled value flips and every other value keeps its membership and count; a present value loses every occurrence and the rest keep their order; an absent value is appended at the end |
| FilterPanel.ToggleTwice | src/components/FilterPanel.tsx:40-46 | toggling twice restores membership; an absent value restores the list itself, a present one ends up moved to the end |
| FilterPanel.ToggleKeepsNoDup | src/components/FilterPanel.tsx:40-46 | a list without repeats stays without repeats |
| FilterPanel.TransposeToggle | src/components/FilterPanel.tsx:123 | the flag always changes |
| FilterPanel.TransposeTwice | src/components/FilterPanel.tsx:123 | pressing twice restores the flag |
| App.FilteredDates | src/App.tsx:87-100 | the shown dates are a subsequence of the dates, and a date is shown exactly when it is not before a set start, not after a set end, and its weekday is selected |
| App.UnboundedFilterKeepsAll | src/App.tsx:87-100 | with both bounds empty and every weekday selected, all dates are shown |
| App.FilteredRooms | src/App.tsx:102-109 | with "available only" off all rooms are shown; with it on exactly the reservable rooms, in order and with their multiplicity |
| App.ApplyKeepsRangeBounded | src/App.tsx:117-135 | the applied settings become either the edited ones or stay as they were; a too-long range is never applied; applying again changes nothing |
| App.WithDefaultRange | src/App.tsx:75-82 | the default range starts at the first date and keeps the room and weekday filters |
| App.DefaultRangeWithinLimit | src/App.tsx:75-82 | for the generated dates the default range ends thirteen days after today and is not too long |
| App.ShownDatesBounded | src/App.tsx:117-128 | with an accepted range, every shown date lies within 50 days of the start, so at most 51 distinct dates are shown |
| App.PageShowsBoundedDates | src/App.tsx:85-128 | a page in its invariant with both applied bounds set shows at most 51 dates: this is the bound that the range check guarantees by itself, for any date list; the 14 generated dates give the tighter bound below |
| App.PageShowsAtMostGeneratedDates | src/App.tsx:29-34 | whatever the filters, a page in its invariant shows at most the 14 generated dates |
| App.PageShownRooms | src/App.tsx:102-109 | on a page in its invariant, "available only" shows exactly rooms 1, 3 and 4 in that order, and otherwise all five rooms |
| App.AppPage.constructor | src/App.tsx:8-72 | the page starts with the generated rooms, dates and table, every filter at its initial value, and not transposed |
| App.AppPage.ApplyDefaultRange | src/App.tsx:75-82 | with no edited start date, both edited and applied ranges become the default; otherwise nothing changes; the applied range stays within the limit |
| App.AppPage.HandleApplyFilters | src/App.tsx:117-135 | the alert is raised exactly when the edited range is too long; the applied settings become `ApplyFilters` of edited and old applied; the applied range stays within the limit |
| App.AppPage.SetTempShowAvailableOnly | src/App.tsx:147-148 | only the edited "available only" flag changes |
| App.AppPage.SetTempStartDate | src/App.tsx:151 | only the edited start date changes |
| App.AppPage.SetTempEndDate | src/App.tsx:152 | only the edited end date changes |
| App.AppPage.ToggleWeekday | src/components/FilterPanel.tsx:40-46 | only the edited weekday list changes, to its toggle |
| App.AppPage.ToggleTransposed | src/components/FilterPanel.tsx:123 | only the transpose flag changes, to its negation |
| MockData.NatToString | src/App.tsx:62-63 | the decimal notation is nonempty and made of digits |
| MockData.ParseNatToString | src/App.tsx:62-63 | the decimal notation reads back as the number printed |
| MockData.HourLabelInjective | src/App.tsx:62-63 | different hours give different `H:00` labels |
| MockData.MockSlot | src/App.tsx:44-65 | the detail is the one paired with the status; a draw below 0.5 gives available, at least 0.8 reserved by the user |
| MockData.DetailDeterminesStatus | src/App.tsx:48-57 | different statuses have different detail texts |
| MockData.GenerateTimeSlots | src/App.tsx:41-66 | the loop builds the thirteen-slot cell |
| MockData.MockCellShape | src/App.tsx:42-65 | a cell has 13 slots with ids 0..12 starting at (8+i):00, each ending where the next starts, the last ending at 21:00, with pairwise different start times and the detail of its status |
| MockData.MockGroupsShape | src/App.tsx:42-67 | the groups of a generated cell run without gaps from 8:00 to 21:00 and each carries the detail of its status |
| MockData.GenerateDates | src/App.tsx:26-34 | the loop yields fourteen consecutive day numbers from today |
| MockData.GeneratedDatesShape | src/App.tsx:29-34 | the dates start today, are distinct, consecutive, and the last is 13 days after the first |
| MockData.GenerateData | src/App.tsx:36-69 | the table has exactly the rooms as keys, each room exactly the dates as keys, and each cell is the generated slot list for that room and date |

## Left out

- Rendering is not modelled. This covers the JSX, the CSS class strings, the segment width `slotCount * 20`, the tooltip's text rows, the legend and src/components/RoomScheduleGrid.tsx. They are presentation only. The transposition flag is modelled, but not the grid drawn from it.
- Browser geometry is read by `getBoundingClientRect`, `window.innerHeight` and `window.innerWidth`. The model takes these values as parameters. Pixels are reals, not IEEE floating point. The tooltip style object is its `top`/`left` pair, without the `px` strings.
- `Math.random` is not modelled. It becomes the input `rand`, and the model does not require the draw to lie in [0, 1).
- JS `Date` is not modelled: parsing, `toISOString`, local-time `getDay` and the millisecond difference rounded up by `Math.ceil`. Dates are day numbers, the weekday is a parameter, and the 50-day test is an integer difference. Time-zone effects, such as a UTC date string read back in local time, are outside the model.
- `alert` becomes the boolean result of `HandleApplyFilters`.
- React's scheduling is not modelled: state batching, `useMemo` and when effects run. The default-range effect is a method that the caller runs after the edited start date changes. The grouping is computed once, when the cell is constructed.
- CellInteraction.ActiveGroup: an active id past the end of the group list shows nothing. The source would index past the array instead. Such an id never arises from events on rendered groups (`RunKeepsWellFormed`).
- SlotGrouping.StatusColor, SlotGrouping.StatusText: the `default` branches (`''`, `'不明'`) are not modelled. A status outside the three values cannot be expressed.
- App.FilteredDates: it states order and membership, but not the count of each date. `FilteredRooms` states counts. The generated dates are distinct.
