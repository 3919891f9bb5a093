# Drone fleet viewer: interaction and layout model

This project models the logic in `js/home.js` of a three.js drone-fleet viewer. The viewer
lays out one instanced model per drone in a three-column grid, plus one extra "focus" slot.
It shows a tooltip per drone. Hovering a drone highlights its tooltip. Clicking it focuses
the drone: the camera and the skybox tween towards it and an info panel fills with the
drone's telemetry. A back button returns to the overview. A fixed-interval frame scheduler
drives the idle bob of the formation, the spin of the focused drone, and the tweens.

Modules follow the pieces of the script:

- `Geometry` and `Layout` (`layout.dfy`): vectors, transforms, and the slot transforms written
  by the asset-load callback. Vectors are exact reals and rotations are in degrees.
- `Text` (`text.dfy`): decimal rendering of integers, as a template literal prints them, and
  the parsers that read it back.
- `Drones` (`drones.dfy`): the drone record, the tooltip class and label, and the info panel's
  fields.
- `Tweens` (`tweens.dfy`): the tween set, modelled as a sequence in insertion order (the order
  a JavaScript `Set` iterates in), the focus and unfocus batches, completion and one tick of
  the set.
- `Scheduler` (`scheduler.dfy`): the `delta` accumulator of `updateScene` over integer time
  units, and what it does over a stream of frames.
- `Home` (`home.dfy`): class `Viewer` holds the script's module-level state and has one method
  per handler. This state is `activeToolTipIndex`, `activeDroneIndex`, `delta`, the instance
  matrices (an `array2`, part by slot), the tooltip elements (an `array`), the raycaster's
  enabled flag, the cursor, the info panel and its visibility, the tween set and the animated
  view. `Valid()` is the invariant every handler keeps. Its parts are:
  - the registry: one slot row per part and one tooltip per drone, in index order;
  - the hover invariant: at most one tooltip is `active`, and it is the hovered one;
  - raycasting is on exactly when no drone is focused;
  - tween ids are distinct;
  - the accumulator stays below one interval, and whole intervals ticked never exceed the
    time fed in.
- `Scenarios` (`scenarios.dfy`): complete event sequences on a fresh viewer.

Things the script gets from outside are parameters:

- the parsed mesh parts and the drone records;
- the frame interval and each frame's elapsed time, which is the value `clock.getDelta()`
  returns (`js/home.js:224`), not wall-clock time: `clock.getElapsedTime()` in the unfocused
  tick's bob (`js/home.js:377`) calls `getDelta` itself, so the time spent in such a tick goes
  missing from the next frame's delta, and the scheduler's lemmas are about the deltas as
  returned;
- what the raycaster hits (`Ray`: no hit, a hit without an instance id, or instance `k`);
- the idle bob of drone `i` (a function of `i`, because the script reads the clock once per
  drone), the focus-slot spin, and the tween interpolation.

Behaviours of the code that the model makes explicit:

- A drone slot sits at twice its grid offset: the code sets the offset and then adds it again
  (`js/home.js:170`, `js/home.js:176`).
- The accumulator keeps `delta % frameInterval` (`js/home.js:228`). A long frame therefore
  drops whole intervals: the tick count is only bounded by floor(total / interval), and it
  depends on how the time is chunked into frames (`Scheduler.ChunkingChangesTickCount`). It
  is exact only when no frame is longer than one interval.
- Neither focus nor unfocus touches `activeToolTipIndex` or the `active` class. A click on the
  back button bubbles up to the window's click listener (`js/home.js:285-292`), which runs
  after the button's own listener, so the model's `BackButtonClick` is the unfocus followed by
  the window's click. With no mouse move since the drone was clicked, that click finds the
  tooltip still active and focuses the same drone again (`Scenarios.BackWithoutMoveRefocuses`).
  Any mouse move while a drone is focused clears the hover, because raycasting is off and the
  raycaster finds nothing; back then returns to the overview with nothing hovered
  (`Scenarios.HoverFocusBack`).
- Click only tests `activeToolTipIndex`, so a second click while focused, with no mouse move
  since the first click, queues three more tweens (`Scenarios.SecondClickRefocuses`). Any move
  in between clears the hover (`js/home.js:260-266`) and the second click does nothing. The unfocus is unguarded.
- A focus look-at tween that completes after back still reveals the panel
  (`Scenarios.LateFocusTweenShowsPanel`).
- With no mesh parts, no tooltip is created, because tooltip creation sits inside the loop
  over parts.

## Model

| member | source | states |
|---|---|---|
| Layout.SlotPositions | js/home.js:156-186 | about `SlotTransform`: drone slot i sits at (0, 6(i div 3 - 1), 6(i mod 3 - 1)), twice the grid offset; the focus slot sits at (40,0,0) for any count; rotation corrections of +180/+90 and -90 degrees; the part's scale is kept |
| Layout.GridRowIsQuotient | js/home.js:159 | Math.floor(i / cols - 1) taken on the real quotient equals the integer quotient i div 3 minus 1 |
| Layout.DroneSlotsDistinct | js/home.js:156-183 | about `SlotTransform`: no two drones share a slot position, and no drone sits at the focus slot |
| Drones.TooltipKind | js/home.js:192 | the class is success exactly for Available, info exactly for In-flight, danger exactly for any other status |
| Drones.LabelNamesDrone | js/home.js:190 | about `TooltipLabel`: a tooltip label starts with '#' and the digits after it read back as i + 1 |
| Drones.LabelsDistinct | js/home.js:188-195 | about `TooltipLabel`: two different drones never get the same tooltip label, whatever their records |
| Drones.DroneIdNamesDrone | js/home.js:315 | about `DroneId`: the id text is "#Drone" followed by digits that read back as i + 1 |
| Drones.FlightHoursTextRoundTrip | js/home.js:311 | about `FlightHoursText`: the flight-hours text is an integer text that reads back as the hours, followed by " hour" |
| Drones.LocationTextRoundTrip | js/home.js:313 | about `LocationText`: cutting the location text at its first comma, and skipping ", ", gives back both coordinates |
| Drones.MaintenanceHtmlAppend | js/home.js:317-324 | about `MaintenanceHtml` and `LogEntryHtml`: the log HTML of a + b is the HTML of a followed by the HTML of b (map, then join with "") |
| Drones.PanelIdNamesDrone | js/home.js:315 | the panel's id field names the panel's drone: "#Drone" then i + 1 |
| Drones.PanelFlightHours | js/home.js:311 | the panel's flight-hours field reads back as the record's hours |
| Drones.PanelLocation | js/home.js:313 | the panel's location field splits back into the record's two coordinates |
| Text.NatToDecimalDigits | js/home.js:190 | the decimal text of a number is non-empty, all digits, and has no leading zero unless the number is 0 |
| Text.DecimalRoundTrip | js/home.js:190 | about `NatToDecimal` and `DecimalValue`: reading back the decimal text of n gives n |
| Text.NatToDecimalInjective | js/home.js:190 | different numbers print differently |
| Text.IntToDecimalShape | js/home.js:311-313 | an integer prints as well-formed integer text, starting with '-' exactly when it is negative |
| Text.IntRoundTrip | js/home.js:311-313 | about `IntToDecimal` and `DecimalToInt`: reading back the text of any integer gives the integer |
| Tweens.View.With | js/home.js:326-361 | setting one animated property gives it the new value and leaves the other two alone |
| Tweens.TweenBatches | js/home.js:326-360 | about `FocusTweens` and `UnfocusTweens`: each transition queues three unstarted tweens with consecutive fresh ids, one per target; only the look-at tween does more than remove itself (show the panel, or show the tooltips) |
| Tweens.UnfocusRestoresStartView | js/home.js:342-361 | about `UnfocusTweens` and `Settle`: once back's three tweens complete, the controls target, camera and skybox are at the start-up pose, (0,0,0), (8,-15,0) and (0,0,-47 degrees), wherever they were |
| Tweens.RemoveIdMembers | js/home.js:329-360 | about `RemoveId`: Set.delete of an id keeps exactly the tweens with other ids |
| Tweens.RemoveIdAt | js/home.js:329-360 | about `RemoveId`: with distinct ids, deleting the tween at position k removes exactly that element and keeps the order of the rest |
| Tweens.RemoveAtKeepsIds | js/home.js:329-360 | deleting one tween keeps the remaining ids distinct and adds no tween |
| Tweens.IndexOfId | js/home.js:329-360 | finds the first position holding the id, or -1 exactly when the set has no such tween |
| Tweens.AdvanceAll | js/home.js:240-243 | one pass over the set, in order: every tween is started or updated, and a target no playing tween animates keeps its value |
| Tweens.TickStartsEveryTween | js/home.js:240-243 | after a tick every tween is playing with its id, target, end value and completion unchanged, and only already-playing tweens counted an update |
| Scheduler.Accumulate | js/home.js:222-230 | one frame: a tick runs exactly when the accumulated time reaches the interval; the kept remainder is below the interval, drops at least one interval when ticking, and is exact without a tick |
| Scheduler.RunAccountsForTime | js/home.js:222-230 | over any stream of frames, the intervals ticked plus the remainder never exceed the time fed, and the remainder stays below the interval |
| Scheduler.TickCountBound | js/home.js:222-230 | from an empty accumulator, at most floor(total / interval) ticks run |
| Scheduler.RunConservesShortFrames | js/home.js:222-230 | when no frame is longer than the interval, no time is lost: the intervals ticked plus the remainder equal the time fed |
| Scheduler.RunExactForShortFrames | js/home.js:222-230 | for such frames the tick count is exactly floor((delta + total) / interval) |
| Scheduler.ChunkingChangesTickCount | js/home.js:226-229 | the same 25 units in one frame give one tick and in three frames give two (interval 10) |
| Home.TickedSlot | js/home.js:232-238 | unfocused, the tick leaves the focus slot alone; focused, it leaves every drone slot alone |
| Home.Viewer.constructor | js/home.js:32-51 | the page before loading: nothing hovered or focused, raycasting on, panel blank and hidden, no tweens, start-up camera pose, empty accumulator |
| Home.Viewer.Load | js/home.js:152-202 | about `NewTip` and `SlotTransform`: count + 1 slots per part, each holding its layout transform; count tooltips in index order when there is a part, each with its drone's label and class, not active and not hidden |
| Home.Viewer.FillSlot | js/home.js:156-201 | one outer iteration writes slot i of every part and tooltip i, and nothing else |
| Home.Viewer.MouseMove | js/home.js:253-283 | with raycasting off the move counts as no hit; no hit clears the hover and the cursor; a hit without an instance id changes nothing; a hit on k makes tooltip k the only active one with the hand cursor; hide flags never change |
| Home.Viewer.Unhover | js/home.js:260-268 | the cursor is reset and no tooltip stays active |
| Home.Viewer.HoverOn | js/home.js:275-282 | tooltip k becomes the only active one and the cursor the hand |
| Home.Viewer.SetActive | js/home.js:276-280 | one tooltip's active flag is set, and every other tooltip is unchanged |
| Home.Viewer.Click | js/home.js:285-288 | a no-op when nothing is hovered, whatever the focus state; otherwise a focus on the hovered drone |
| Home.Viewer.Focus | js/home.js:303-340 | the hovered drone becomes focused and stays hovered; cursor unset; raycasting off; every tooltip hidden with its active flag kept; the panel shows that drone and its visibility is unchanged; three focus tweens appended |
| Home.Viewer.Commit | js/home.js:304-307 | the focus index takes the hover index, the cursor is reset, raycasting is off and every tooltip is hidden |
| Home.Viewer.AddTweens | js/home.js:326-339 | a batch with fresh ids is appended in order, keeping ids distinct |
| Home.Viewer.BackButtonClick | js/home.js:285-292 | the button's unfocus runs whatever the focus state, then the window's click: with no tooltip active the viewer ends unfocused, raycasting on, panel hidden, three unfocus tweens appended, tooltips and cursor untouched; with a tooltip still active that drone is focused again behind the unfocus tweens, tooltips hidden, raycasting off, the panel filled for it and hidden |
| Home.Viewer.Unfocus | js/home.js:342-361 | no drone is focused, raycasting is on, the panel is hidden, three unfocus tweens are appended, and the tooltips are untouched |
| Home.Viewer.ToggleTooltip | js/home.js:363-368 | every tooltip's hide flag is set to !show and nothing else about it changes |
| Home.Viewer.ToggleInfo | js/home.js:370-373 | the panel's visibility becomes show |
| Home.Viewer.TweenComplete | js/home.js:328-360 | completing a started tween sets its target to its end value and deletes exactly that tween; the focus look-at tween also shows the panel, and the unfocus look-at tween also un-hides every tooltip |
| Home.Viewer.UpdatePositionOfDrone | js/home.js:375-399 | every part's slot i is replaced by the bob of drone i, for every drone; the focus slot is untouched |
| Home.Viewer.RotateMainDrone | js/home.js:401-417 | every part's focus slot is replaced by its spin, and the drone slots are untouched |
| Home.Viewer.Tick | js/home.js:232-247 | slots change as TickedSlot says for the focus state, then the tween set and view become one AdvanceAll pass |
| Home.Viewer.UpdateTweens | js/home.js:240-243 | the loop over the set computes exactly the AdvanceAll pass |
| Home.Viewer.UpdateScene | js/home.js:222-230 | the accumulator moves as Accumulate says; a tick runs exactly when it reaches the interval, and otherwise slots, tweens and view are untouched; the invariant, with delta below the interval, is kept |
| Scenarios.HoverClickMoveBack | js/home.js:253-292 | hover k, click, any mouse move, back: nothing hovered or focused, no tooltip active, raycasting on, panel hidden, focus then unfocus tweens queued |
| Scenarios.BackWithoutMoveRefocuses | js/home.js:285-340 | hover 3, click, back with no mouse move: drone 3 is focused again and still hovered, tooltip 3 the only active one, raycasting off, and focus, unfocus, focus tweens queued |
| Scenarios.FocusSettled | js/home.js:253-340 | hover k, click, one tick, then the three focus tweens complete in timing order (move-camera, look-at, skybox): drone k hovered and focused, the panel shown, no tween left |
| Scenarios.MoveBackSettle | js/home.js:253-368 | from a focused viewer with no tween queued: a mouse move, back, one tick and the unfocus move-camera and look-at completions leave nothing hovered or focused, no tooltip active, every tooltip visible and the panel hidden |
| Scenarios.HoverFocusBack | js/home.js:253-368 | hover 3, click, one tick, the three focus tweens complete, a mouse move, back, one tick, the unfocus move-camera and then look-at tweens complete: nothing hovered or focused, no tooltip active, every tooltip visible, panel hidden |
| Scenarios.LateFocusTweenShowsPanel | js/home.js:253-345 | when a mouse move and back come before the focus look-at tween completes, that completion shows the panel with nothing hovered or focused |
| Scenarios.SecondClickRefocuses | js/home.js:285-340 | a second click while focused, with no mouse move between the clicks, refocuses the same drone and queues a second batch of focus tweens |

## Left out

- Rendering: the three.js scene, camera, lights, renderer, post-processing, bloom and
  OrbitControls, including `controls.update` and `composer.render` in the tick. These are
  external libraries.
- Loading: GLTF and texture loading and the loading manager. These are asynchronous I/O. The
  parts and the drone records are inputs; `hideLoader` is not modelled.
- Raycasting and `toScreenPosition`. Both are floating-point geometry in a library. The hit
  becomes the `Ray` input, and tooltip screen positions are not modelled.
- Home.Viewer.MouseMove: requires a hit on instance k, with raycasting on, to satisfy
  k < the number of tooltips. The script indexes `tooltipArr[instanceId]`, and a hit on the
  focus instance (id count), or any hit before the tooltips exist, would throw there. Reading
  the code (nothing was executed) suggests the focus-instance hit is reachable: unfocus turns
  raycasting on at once (`js/home.js:344`) while the camera keeps the focus pose through the
  move-camera tween's 500 ms delay (`js/home.js:354`), with the focus drone at (40,0,0) near
  the centre of the view. A move over it sets `activeToolTipIndex` to count
  (`js/home.js:279`) and throws at `js/home.js:280`; a later click then runs the focus with
  `data.drones[count]` undefined and throws at `js/home.js:310`, after hiding the tooltips
  and switching raycasting off.
- TWEEN.js interpolation, easing and delay timing. A tween is an opaque record with an id, a
  target, an end value, a duration and a delay (recorded, not used), a playing flag and an
  update count. Intermediate values come from the `advance` parameter. Completion is an
  event, `TweenComplete`, and at completion the target takes the end value.
- Floating-point maths. Rotations are exact degrees instead of radians, and the rotation
  offsets by pi become +180, +90 and -90 degrees. The cos/sin bob and the 0.01 spin are the
  `bob` and `spin` parameters. Time is in integer units, with `frameInterval` a positive
  parameter instead of 1/60 s.
- Drone records: flight hours and coordinates are integers. Fractional numbers and their
  JavaScript rendering are not modelled. Integers print as plain decimal digits, which is what
  JavaScript prints only below 1e21 in magnitude (larger ones print in exponent form), and
  integers above 2^53 are not exact in a JavaScript number.
- DOM details: class lists become the `active` and `hide` flags, and cursor strings become
  `Cursor`. The panel is modelled as the drone and record it was last filled from, with a
  text function per field. The indentation and line breaks of the log template are dropped.
- `js/constant.js`, which holds only declarations and element lookups. The number of drones
  is the length of the record list.
- `index.html` is not part of this model. The constructor assumes what it sets up: the panel's
  fields are empty, the panel starts hidden, and the cursor starts `Unset` (the page's default,
  an empty cursor style, behaves as `unset`).
- Tween timing decides the order in which tweens complete. The scenarios fire the completions
  in the order the durations and delays give: a move-camera tween (500 ms delay, 1000 ms) ends
  before the look-at and skybox tweens (2000 ms) started with it, a tween started in an
  earlier tick ends before one of the same length started later, and of two tweens with the
  same start and duration the one earlier in the set completes first. Some scenarios stop
  before every queued tween has completed.
