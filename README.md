# Carousel and grid cell, modelled in Dafny

This project models two components of an Angular UI library.

- The carousel (`IgxCarousel`) and its slides (`IgxSlide`). The carousel is
  a container that keeps its slides numbered 0, 1, … in display order and
  moves the "active" mark from one slide to the next. It wraps around, or
  stops at either end, depending on `loop`. It also drives an auto-advance
  timer whose period is the `interval` input.
- The grid cell (`IgxGridCellComponent`). A cell has a focused flag, a
  selected flag and a stored value. On an arrow key it hands the focus to
  the neighbouring cell.

Both components change state in place, so both are Dafny classes with
`modifies` clauses:

- `Carousel.Carousel` holds the slide sequence, the current slide, the
  count, the playing and destroyed flags, the timer and an event log.
- `Carousel.Slide` holds `index`, `direction` and `active`.
- `GridCell.Cell` holds the two flags, the value and a log of the calls it
  makes to its collaborators.

The carousel's invariant `Valid()` has three parts:

- slide `i` has index `i`, and `total` is the slide count;
- until the carousel is destroyed, only the current slide can be active;
- any pending timer was scheduled with the current, positive interval.

Each public carousel operation states its whole effect in terms of the state
before the call. Most do so through a two-state predicate: `Added`,
`Removed`, `Selected`, `MovedTo`, `Advanced`, `Retreated`, `Halted` and
`Refreshed`. `Play` and `NgOnDestroy` state their effect directly in their
`ensures`. Each public operation is proved to keep `Valid()`. The private
timer helpers `ResetInterval` and `RestartInterval` do not state `Valid()`:
they change only the timer, and their callers keep `Valid()` through the frames.

How the outside world is represented:

- **Timer.** The browser's interval timer is an abstract state, either
  `NoTimer` or `Pending(period, serial)`. The ghost `serial` numbers the
  schedulings, counted by the ghost field `timersStarted`, so that a freshly
  started timer can be told apart from one left running.
  One firing of the timer is the explicit method `Tick`.
- **Events.** The carousel's five event emitters are an appended log of
  `Event` values.
- **Interval.** The `interval` input arrives already coerced to a number,
  as `Interval = NaN | Millis(ms)`.
- **Grid collaborators.** The grid service, change detection and the DOM
  are recorded as `Call` values. The grid's cell lookup is an oracle
  function, `resolve`, passed to the key handler.

Slide labels, `"Item <n> of <total>"`, are built by `Label.ItemLabel` from
the decimal rendering in `Decimal.NatToString`. They are proved to read back
as the position and the count they were built from.

In the cell, the derived attributes are written as plain definitions, just
as the getters are:

- `Readonly()` is `!column.editable`;
- `ApplyNumberCSSClass()` holds exactly for `Number` columns;
- `Focused()` is `isFocused || isSelected`;
- `DescribedBy()` is `DescribedById(gridID, field)`, whose contract takes
  the string apart into the grid id, a dash and the field.

## Model

| member | source | states |
|---|---|---|
| Carousel.NextIndex | src/carousel/carousel.component.ts:289-297 | The "next" target lies within range. While the current index is below the count, the target is 0 exactly when the current index is the last one, and otherwise it is one further. |
| Carousel.PrevIndex | src/carousel/carousel.component.ts:306-315 | While the current index is at most the count, the "previous" target is at least -1 and below the count. While the current index is below the count, the target is the last index exactly when the current index is 0. A positive current index always steps one back. The target is negative (-1) only on an empty carousel. |
| Carousel.Positive | src/carousel/carousel.component.ts:389-392 | Definition of the guard "a number and greater than 0" that both the restart and the timer callback apply to the interval. |
| Carousel.NextThenPrev | src/carousel/carousel.component.ts:289-315 | With more than one slide, the "previous" target of the "next" target is the index you started from. |
| Carousel.PrevThenNext | src/carousel/carousel.component.ts:289-315 | With more than one slide, the "next" target of the "previous" target is the index you started from. |
| Carousel.Applied | src/carousel/carousel.component.ts:271-275 | The direction `select` applies is never NONE, and an explicit request is kept. With no request, it is NEXT exactly when the new index is greater than the current one. |
| Carousel.Slide.constructor | src/carousel/carousel.component.ts:430-443 | A slide is bound to its parent carousel and starts with the given `active` input. |
| Carousel.Slide.NgOnInit | src/carousel/carousel.component.ts:445-447 | A slide that registers itself has the full effect of `add` (`Added`), and the carousel stays valid. |
| Carousel.Slide.NgOnDestroy | src/carousel/carousel.component.ts:449-451 | A slide that deregisters itself has the full effect of `remove` (`Removed`), and the carousel stays valid. |
| Carousel.Carousel.constructor | src/carousel/carousel.component.ts:53-142 | A new carousel is valid, with no slides, no current slide and 0 as its count. It is not playing, not destroyed, has no timer and has emitted nothing. |
| Carousel.Carousel.Current | src/carousel/carousel.component.ts:173-175 | The index of the current slide, or 0 when there is none. While the slides are numbered by position and the current slide is one of them, it is that slide's position. |
| Carousel.Carousel.AriaLabel | src/carousel/carousel.component.ts:151-153 | The label is `"Item " + (index+1) + " of " + total`, and it parses back to exactly that position and count. |
| Carousel.Carousel.AtMostOneActive | src/carousel/carousel.component.ts:360-377 | Until the carousel is destroyed, no two distinct positions of the collection are both active. |
| Carousel.Carousel.NgOnDestroy | src/carousel/carousel.component.ts:144-149 | The carousel is marked destroyed, no timer is pending, and it stays valid. |
| Carousel.Carousel.SetInterval | src/carousel/carousel.component.ts:70-73 | The new interval is stored. A timer is pending afterwards exactly when the interval is positive; it then has that period and was scheduled by this call. |
| Carousel.Carousel.Get | src/carousel/carousel.component.ts:207-213 | The result is null exactly when no slide has the index. Otherwise it is the first slide with that index. On a validly numbered collection it is the slide at that position. |
| Carousel.Carousel.Add | src/carousel/carousel.component.ts:222-237 | The slide is appended with index = old count and the count goes up by one. The first slide, or one already marked active, is selected; the first also starts playback. Any other slide is made inactive and keeps its direction. The events are "changed" if selected, "playing" if started, then exactly one "added". The carousel stays valid. |
| Carousel.Carousel.Remove | src/carousel/carousel.component.ts:247-261 | The slide is spliced out at its index and the count drops by one. The slides that remain are renumbered 0..total-1 in order. If none remain, the current slide is cleared and nothing is emitted. Otherwise the current slide is kept and one "removed" event is emitted; if the removed slide was current, no slide is left active. |
| Carousel.Carousel.Select | src/carousel/carousel.component.ts:271-280 | Selecting the current slide, or any slide once destroyed, changes nothing. Otherwise the carousel moves to the slide in the applied direction. |
| Carousel.Carousel.Next | src/carousel/carousel.component.ts:289-297 | Without looping, the carousel stops when the computed target is 0: at the last index, or from a stale current index left by `remove`. Otherwise it selects the slide at `(current+1) mod total` with direction NEXT. The slides are unchanged and the carousel stays valid. |
| Carousel.Carousel.Prev | src/carousel/carousel.component.ts:306-315 | Without looping, the carousel stops when the computed target is `total - 1`: at index 0, on an empty carousel, or from a stale current index left by `remove`. Otherwise it selects the slide at `current-1`, or at `total-1` from 0, with direction PREV. The slides are unchanged and the carousel stays valid. |
| Carousel.Carousel.Play | src/carousel/carousel.component.ts:324-330 | Afterwards the carousel is playing and stays valid. If it was already playing, nothing else changes. Otherwise one "playing" event is emitted and the timer is restarted. |
| Carousel.Carousel.Stop | src/carousel/carousel.component.ts:339-345 | With `pause` off, nothing changes. With `pause` on, playback stops, one "paused" event is emitted and no timer is pending. No slide changes either way, and the carousel stays valid. |
| Carousel.Carousel.OnKeydown | src/carousel/carousel.component.ts:347-358 | "ArrowLeft" has the effect of `prev` and "ArrowRight" the effect of `next`. Any other key changes nothing. |
| Carousel.Carousel.Tick | src/carousel/carousel.component.ts:390-396 | A firing timer re-reads the interval. While playing, with slides and a positive interval, it has the effect of `next`; otherwise that of `stop`. |
| Carousel.Carousel.MoveTo | src/carousel/carousel.component.ts:360-377 | Once destroyed, nothing changes. Otherwise both the slide and the previous current slide get the direction. The slide becomes active and current, and the previous one becomes inactive. One "changed" event is emitted and the timer is restarted; no other slide changes. |
| Carousel.Carousel.ResetInterval | src/carousel/carousel.component.ts:379-384 | No timer is pending afterwards. |
| Carousel.Carousel.RestartInterval | src/carousel/carousel.component.ts:386-399 | A timer is pending afterwards exactly when the interval is positive; it then has that period and was scheduled by this call. |
| CarouselScenarios.NextThenPrevRestores | src/carousel/carousel.component.ts:289-315 | On a looping carousel with more than one slide, `next` followed by `prev` restores the current index. |
| CarouselScenarios.AddFirst | src/carousel/carousel.component.ts:222-237 | The first slide to register on a new carousel becomes current and active, and playback starts. The events are "changed", "playing", "added". |
| CarouselScenarios.AddHidden | src/carousel/carousel.component.ts:222-237 | A later slide not marked active is appended inactive, with its initial direction. The current slide and its flag are kept, and exactly one "added" event is emitted. |
| CarouselScenarios.AddThree | src/carousel/carousel.component.ts:222-237 | After three slides register in order on a new looping, pausable carousel, there are 3 slides. The first is current and the only active slide, and the carousel is playing. The event log is "changed", "playing", then three "added". |
| CarouselScenarios.AddThreeThenTour | src/carousel/carousel.component.ts:222-297 | Three slides register, then `next` runs three times: the first slide is shown again and is the only active one. |
| CarouselScenarios.PrevOnEmpty | src/carousel/carousel.component.ts:306-312 | On an empty non-looping carousel, `prev` takes the stopping branch. It does not play, emits exactly one "paused" event and leaves no timer. |
| CarouselScenarios.Advance | src/carousel/carousel.component.ts:289-297 | On a looping carousel showing position `i`, `next` shows the slide at the next index and makes it active. |
| CarouselScenarios.Tour | src/carousel/carousel.component.ts:289-297 | Three `next` calls on three slides come back to the first, which is again the only active slide. |
| CarouselScenarios.StopAtEnd | src/carousel/carousel.component.ts:292-295 | Without looping, `next` on the last slide keeps it shown. Playback stops, exactly one "paused" event is emitted and no timer is pending. |
| Label.ItemLabel | src/carousel/carousel.component.ts:152 | Definition of the text `"Item <position> of <count>"`, both numbers in decimal. |
| Label.ParseItemLabel | src/carousel/carousel.component.ts:151-153 | A slide label parses back to the position and count it was built from. |
| Label.ItemLabelInjective | src/carousel/carousel.component.ts:151-153 | Different (position, count) pairs give different labels. |
| Decimal.NatToString | src/carousel/carousel.component.ts:152 | A number renders as a non-empty string of digits with no leading zero. |
| Decimal.ValueOfNatToString | src/carousel/carousel.component.ts:152 | Reading back the decimal rendering of `n` gives `n`. |
| GridCell.EndsWith | src/grid/cell.component.ts:156-162 | Definition of the `endsWith` test: the suffix is no longer than the string and equals its tail. |
| GridCell.SuffixesExclusive | src/grid/cell.component.ts:156-164 | No key name ends with two different navigation suffixes, so the order in which the suffixes are tested does not matter. |
| GridCell.ArrowOf | src/grid/cell.component.ts:156-164 | The key denotes arrow `a` exactly when its name ends with `a`'s suffix. |
| GridCell.KeyTargetIsNeighbour | src/grid/cell.component.ts:153-164 | There is no lookup target exactly when no suffix matches. A target lies at Manhattan distance 1 from the cell, and each direction of the step holds exactly when its suffix matches. |
| GridCell.KeyTarget | src/grid/cell.component.ts:156-164 | Definition of the (row, column) the key handler looks up, one per arrow. `KeyTargetIsNeighbour` states its properties. |
| GridCell.NavigationCalls | src/grid/cell.component.ts:146-151 | With no target, no calls are made. With a target, there is exactly one lookup, followed by a focus request exactly when the lookup finds a cell, on that cell. |
| GridCell.DescribedById | src/grid/cell.component.ts:81-84 | The description consists of the grid id, then a dash, then the column field. |
| GridCell.DescribedByInjective | src/grid/cell.component.ts:81-84 | When grid ids contain no dash, equal descriptions mean equal grid ids and equal fields. |
| GridCell.Cell.constructor | src/grid/cell.component.ts:121-128 | A new cell has the given column, row and value, both flags false and no calls made. |
| GridCell.Cell.GridID | src/grid/cell.component.ts:54-56 | Definition: the row's grid id. |
| GridCell.Cell.RowIndex | src/grid/cell.component.ts:62-64 | Definition: the row's index. |
| GridCell.Cell.ColumnIndex | src/grid/cell.component.ts:66-68 | Definition: the column's index. |
| GridCell.Cell.Readonly | src/grid/cell.component.ts:76-79 | Definition of `aria-readonly`: the column is not editable. |
| GridCell.Cell.DescribedBy | src/grid/cell.component.ts:81-84 | Definition of `aria-describedby` through `DescribedById` for the row's grid id and the column's field. |
| GridCell.Cell.ApplyNumberCSSClass | src/grid/cell.component.ts:107-110 | Definition: the numeric style applies exactly to `Number` columns. |
| GridCell.Cell.Focused | src/grid/cell.component.ts:96-100 | Definition of the `focused` getter: focused or selected. |
| GridCell.Cell.Selected | src/grid/cell.component.ts:112-114 | Definition of the `selected` getter: the selection flag. |
| GridCell.Cell.SetValue | src/grid/cell.component.ts:37-41 | The value is stored, followed by exactly one grid update for this cell's grid and then one redraw request. |
| GridCell.Cell.SetFocused | src/grid/cell.component.ts:98-105 | Only the focus flag changes, followed by one redraw request. `focused` then reads `val || isSelected`. |
| GridCell.Cell.SetSelected | src/grid/cell.component.ts:112-119 | Only the selection flag changes, followed by one redraw request. `selected` then reads `val`. |
| GridCell.Cell.OnFocus | src/grid/cell.component.ts:130-135 | Both flags become true, and exactly one selection event goes to this cell's grid. |
| GridCell.Cell.OnBlur | src/grid/cell.component.ts:137-141 | Both flags become false. No call is made and nothing else changes. |
| GridCell.Cell.OnKeyDown | src/grid/cell.component.ts:143-165 | The calls made are exactly the navigation calls for the key's target. Together with `KeyTargetIsNeighbour` and `NavigationCalls`, this means at most one lookup of the right neighbour, then focus on it exactly when it exists. The handler itself does not change the flags. |
| GridCell.Cell.HandleKeyboardNavigation | src/grid/cell.component.ts:146-151 | Exactly one lookup of (row, column), followed by a focus request exactly when the lookup returns a cell. |

Two behaviours of the code are worth noting, because the model keeps them:

- **Removing the current slide.** `remove` of the current slide leaves no
  slide active and keeps the removed slide as the current one
  (src/carousel/carousel.component.ts:247-261). `Remove`'s contract states
  this.
- **Destroyed carousel.** Destruction blocks only transitions
  (src/carousel/carousel.component.ts:361-363). `next` and `prev` at a
  non-looping boundary still pause and emit "paused", and `play` can still
  schedule a timer.
- **Stale current index.** After `remove`, the current slide keeps its old
  index, which can lie at or past the new count
  (src/carousel/carousel.component.ts:247-258). `next` and `prev` then
  compute their targets from that index. Without looping they stop whenever
  the target is 0 (for `next`) or `total - 1` (for `prev`). For example,
  removing the last, current slide of three and then calling `prev` pauses
  the carousel.

## Left out

- Templates, styles, `navigation`, `styleClasses`, `width`, `tabindex`, `role`, `cellTemplate`, and the `formatter`, `context` and `grid` getters of the cell: presentation or framework wiring with no state of their own.
- Real wall-clock timing of `setInterval`/`clearInterval` and the event loop: the timer is an abstract state, and one firing is the explicit `Tick` step.
- The payload of each emitted event (always the carousel or the cell itself) and the delivery of events to subscribers: only which event was emitted is recorded.
- JavaScript numeric coercion and floating-point intervals: the interval arrives already coerced, as a whole number of milliseconds or NaN.
- The grid service's `update`, `get` and `get_cell_by_index`, change detection, and the DOM `focus()`: they become recorded calls plus the lookup oracle `resolve`. `IgxColumnComponent`, the grid service and `data-util` are not part of this model; `DataType` names their four kinds.
- Outside writes to the `index`, `direction` and `active` inputs of a slide, other than the initial `active` value given to `Slide.constructor`: the framework's bindings are not modelled. A slide's `index` is a natural number, and its `direction` starts as NONE where the source leaves it undefined.
- `loop` and `pause` are constructor parameters (both default to true in the source). Later changes to them are not modelled.
- The cell's value is a constructor parameter instead of starting undefined.
- Carousel.Carousel.Prev: requires `PrevResolves()`: either the non-looping stopping branch is taken (an empty carousel included, whose target -1 equals `total - 1`), or the target names a slide. Otherwise (a looping empty carousel, or a stale current slide whose index lies past the end after `remove`) the source looks up a missing slide and faults in `select`. The "ArrowLeft" case of `OnKeydown` requires the same.
- Carousel.Carousel.Next: requires `total > 0`, and so does the "ArrowRight" case of `OnKeydown`. On an empty carousel the source computes the target as NaN, finds no slide and faults in `select`.
- Carousel.Carousel.Add: requires that the slide is not already in the collection. The source would append a second copy, which the numbering invariant does not cover.
- Carousel.Carousel.Remove: requires that the slide sits at its own index. The source splices whatever is at that position.
- Carousel.Carousel.Tick: requires a pending timer, since only a scheduled timer fires.
- Carousel.Carousel.NgOnDestroy: the source clears the timer but keeps its handle. The model records that no timer is pending, which is the only observable consequence.
- GridCell.Cell.OnKeyDown: the focus and blur events that the browser fires when `focus()` moves the focus are not modelled. In the program they run this cell's `onBlur`, which clears both flags, and the target's `onFocus`, which sets its flags and emits one selection event. The model records `focus()` as a call only.
- GridCell.ArrowOf: matches suffixes exactly as the source does, so the legacy key names "Up" and "Down" cause no lookup, while "Left" and "Right" match.
- `src/main.ts` only re-exports modules and has no logic.
