// Event sequences run against a fresh viewer, showing how the handlers combine: a click on
// the back button also reaches the window's click listener, so without a mouse move it focuses
// the same drone again; a mouse move first clears the hover, since raycasting is off while a
// drone is focused; a second click while focused queues a second focus; and a focus tween that
// completes after the back button still reveals the panel.
module Scenarios {
  import opened Geometry
  import opened Drones
  import opened Tweens
  import opened Home

  /** A fresh viewer once the assets have loaded: nothing hovered, focused or queued. */
  method Loaded(records: seq<DroneRecord>, parts: seq<Part>, frameInterval: nat) returns (v: Viewer)
    requires |parts| > 0 && frameInterval > 0
    ensures fresh(v) && fresh(v.tooltips) && fresh(v.matrices) && v.Valid()
    ensures v.tooltips.Length == |records| && v.frameInterval == frameInterval && v.delta == 0
    ensures v.tweens == [] && v.nextTweenId == 0 && v.activeToolTipIndex == -1 && v.activeDroneIndex == -1
    ensures !v.panelVisible && v.raycastEnabled
  {
    v := new Viewer(records, frameInterval);
    v.Load(parts);
  }

  /** A fresh viewer after loading, hovering drone k and clicking it. */
  method HoverClick(records: seq<DroneRecord>, parts: seq<Part>, frameInterval: nat, k: nat)
      returns (v: Viewer)
    requires k < |records| && |parts| > 0 && frameInterval > 0
    ensures fresh(v) && fresh(v.tooltips) && fresh(v.matrices) && v.Valid()
    ensures v.tooltips.Length == |records| && v.frameInterval == frameInterval && v.delta == 0
    ensures v.tweens == FocusTweens(0) && v.nextTweenId == 3
    ensures v.activeToolTipIndex == k && v.activeDroneIndex == k && !v.panelVisible
    ensures forall t :: 0 <= t < v.tooltips.Length ==> v.tooltips[t].hide
  {
    v := Loaded(records, parts, frameInterval);
    v.MouseMove(Instance(k));
    v.Click();
  }

  /** The same, then the mouse moves (to the back button, say) and the back button is clicked.
      Raycasting is off while a drone is focused, so the move clears the hover whatever lies
      under the mouse, and the window's click listener then does nothing. */
  method HoverClickMoveBack(records: seq<DroneRecord>, parts: seq<Part>, frameInterval: nat, k: nat, ray: Ray)
      returns (v: Viewer)
    requires k < |records| && |parts| > 0 && frameInterval > 0
    ensures fresh(v) && fresh(v.tooltips) && fresh(v.matrices) && v.Valid()
    ensures v.tooltips.Length == |records| && v.frameInterval == frameInterval && v.delta == 0
    ensures v.tweens == FocusTweens(0) + UnfocusTweens(3) && v.nextTweenId == 6
    ensures v.activeToolTipIndex == -1 && v.activeDroneIndex == -1 && v.raycastEnabled && !v.panelVisible
    ensures forall t :: 0 <= t < v.tooltips.Length ==> v.tooltips[t].hide && !v.tooltips[t].active
  {
    v := HoverClick(records, parts, frameInterval, k);
    v.MouseMove(ray);
    v.BackButtonClick();
  }

  /** One frame of a whole interval: every queued tween is playing afterwards and keeps its id
      and completion; nothing the handlers look at changes. */
  method StartTweens(v: Viewer, bob: (nat, Transform) -> Transform, spin: Transform -> Transform,
                     advance: (Tween, Vec3) -> Vec3)
    requires v.Valid() && v.delta == 0
    modifies v`delta, v`ticks, v`elapsed, v`tweens, v`view, v.matrices
    ensures v.Valid() && v.delta == 0 && |v.tweens| == |old(v.tweens)|
    ensures forall k :: 0 <= k < |v.tweens| ==>
      v.tweens[k].id == old(v.tweens[k].id) && v.tweens[k].playing && v.tweens[k].onDone == old(v.tweens[k].onDone)
  {
    ghost var ts := v.tweens;
    v.UpdateScene(v.frameInterval, bob, spin, advance);
    TickStartsEveryTween(ts, old(v.view), advance);
  }

  /** The playing tween at position k of the set completes. */
  method CompleteAt(v: Viewer, k: nat)
    requires v.Valid() && k < |v.tweens| && v.tweens[k].playing
    modifies v`tweens, v`view, v`panelVisible, v.tooltips
    ensures v.Valid() && v.tweens == old(v.tweens[..k] + v.tweens[k + 1..])
    ensures v.panelVisible == (old(v.tweens[k].onDone) == ShowInfo || old(v.panelVisible))
    ensures forall t :: 0 <= t < v.tooltips.Length ==>
      v.tooltips[t] == if old(v.tweens[k].onDone) == ShowTooltips then old(v.tooltips[t]).(hide := false) else old(v.tooltips[t])
  {
    RemoveIdAt(v.tweens, k);
    v.TweenComplete(v.tweens[k].id);
  }

  /** Hover drone 3 and click it, let a tick start the focus tweens and all three complete (the
      panel shows), move the mouse, click back, let a tick start the unfocus tweens, and let the
      move-camera tween (which ends first, 1500 ms after its start) and then the unfocus look-at
      tween complete: nothing is hovered or focused, no tooltip is active, every tooltip is
      visible, and the panel is hidden. */
  method HoverFocusBack(records: seq<DroneRecord>, parts: seq<Part>, frameInterval: nat, ray: Ray,
                        bob: (nat, Transform) -> Transform, spin: Transform -> Transform,
                        advance: (Tween, Vec3) -> Vec3)
      returns (hovered: int, focused: int, activeTips: seq<bool>, hiddenTips: seq<bool>, panelShown: bool)
    requires |records| > 3 && |parts| > 0 && frameInterval > 0
    ensures hovered == -1 && focused == -1 && !panelShown
    ensures |activeTips| == |hiddenTips| == |records|
    ensures forall t :: 0 <= t < |records| ==> !activeTips[t] && !hiddenTips[t]
  {
    var v := FocusSettled(records, parts, frameInterval, 3, bob, spin, advance);
    MoveBackSettle(v, ray, bob, spin, advance);
    hovered, focused, panelShown := v.activeToolTipIndex, v.activeDroneIndex, v.panelVisible;
    activeTips := seq(v.tooltips.Length, t reads v, v.tooltips requires 0 <= t < v.tooltips.Length => v.tooltips[t].active);
    hiddenTips := seq(v.tooltips.Length, t reads v, v.tooltips requires 0 <= t < v.tooltips.Length => v.tooltips[t].hide);
  }

  /** With a drone focused and no tween queued: the mouse moves, back is clicked, a tick starts
      the unfocus tweens, and the move-camera tween and then the look-at tween complete. */
  method MoveBackSettle(v: Viewer, ray: Ray, bob: (nat, Transform) -> Transform,
                        spin: Transform -> Transform, advance: (Tween, Vec3) -> Vec3)
    requires v.Valid() && v.delta == 0 && v.tweens == [] && v.activeDroneIndex != -1
    modifies v, v.tooltips, v.matrices
    ensures v.Valid() && v.tooltips == old(v.tooltips)
    ensures v.activeToolTipIndex == -1 && v.activeDroneIndex == -1 && !v.panelVisible
    ensures forall t :: 0 <= t < v.tooltips.Length ==> !v.tooltips[t].active && !v.tooltips[t].hide
  {
    v.MouseMove(ray);
    v.BackButtonClick();
    assert v.tweens[0].onDone == ShowTooltips && v.tweens[1].onDone == JustRemove;
    StartTweens(v, bob, spin, advance);
    CompleteAt(v, 1);
    CompleteAt(v, 0);
  }

  /** Hover drone k and click it, then let a tick start the focus tweens and let them complete
      in the order their timing gives: the move-camera tween first (500 ms delay and 1000 ms),
      then the look-at and the skybox tweens (2000 ms each, in set order). The panel is shown and
      no tween remains. */
  method FocusSettled(records: seq<DroneRecord>, parts: seq<Part>, frameInterval: nat, k: nat,
                      bob: (nat, Transform) -> Transform, spin: Transform -> Transform,
                      advance: (Tween, Vec3) -> Vec3)
      returns (v: Viewer)
    requires k < |records| && |parts| > 0 && frameInterval > 0
    ensures fresh(v) && fresh(v.tooltips) && fresh(v.matrices) && v.Valid()
    ensures v.tooltips.Length == |records| && v.delta == 0 && v.tweens == [] && v.nextTweenId == 3
    ensures v.activeToolTipIndex == k && v.activeDroneIndex == k && v.panelVisible
  {
    v := HoverClick(records, parts, frameInterval, k);
    assert v.tweens[0].onDone == ShowInfo && v.tweens[1].onDone == JustRemove && v.tweens[2].onDone == JustRemove;
    StartTweens(v, bob, spin, advance);
    CompleteAt(v, 1);
    CompleteAt(v, 0);
    CompleteAt(v, 0);
  }

  /** Hover drone 3, click it and click the back button without moving the mouse: the back
      button's click also reaches the window's listener, tooltip 3 is still active, so drone 3
      is focused again, behind the three unfocus tweens. */
  method BackWithoutMoveRefocuses(records: seq<DroneRecord>, parts: seq<Part>, frameInterval: nat)
      returns (hovered: int, focused: int, activeTips: seq<bool>, queued: seq<Tween>, raycasting: bool)
    requires |records| > 3 && |parts| > 0 && frameInterval > 0
    ensures hovered == 3 && focused == 3 && !raycasting
    ensures |activeTips| == |records| && forall t :: 0 <= t < |records| ==> (activeTips[t] <==> t == 3)
    ensures queued == FocusTweens(0) + UnfocusTweens(3) + FocusTweens(6)
  {
    var v := HoverClick(records, parts, frameInterval, 3);
    v.BackButtonClick();
    hovered, focused, queued, raycasting := v.activeToolTipIndex, v.activeDroneIndex, v.tweens, v.raycastEnabled;
    activeTips := seq(v.tooltips.Length, t reads v, v.tooltips requires 0 <= t < v.tooltips.Length => v.tooltips[t].active);
  }

  /** Hover drone 0, click it, move the mouse and click back before any tick: once a tick starts
      all six tweens, the two move-camera tweens complete first (500 ms delay and 1000 ms), then
      the focus look-at tween (2000 ms, the same start and duration as the unfocus look-at tween
      but earlier in the set), and it shows the info panel although no drone is focused any more. */
  method LateFocusTweenShowsPanel(records: seq<DroneRecord>, parts: seq<Part>, frameInterval: nat, ray: Ray,
                                  bob: (nat, Transform) -> Transform, spin: Transform -> Transform,
                                  advance: (Tween, Vec3) -> Vec3)
      returns (hovered: int, focused: int, panelShown: bool)
    requires |records| > 0 && |parts| > 0 && frameInterval > 0
    ensures hovered == -1 && focused == -1 && panelShown
  {
    var v := HoverClickMoveBack(records, parts, frameInterval, 0, ray);
    assert v.tweens[0].onDone == ShowInfo && v.tweens[1].onDone == JustRemove && v.tweens[4].onDone == JustRemove;
    StartTweens(v, bob, spin, advance);
    CompleteAt(v, 1);
    CompleteAt(v, 3);
    CompleteAt(v, 0);
    hovered, focused, panelShown := v.activeToolTipIndex, v.activeDroneIndex, v.panelVisible;
  }

  /** Click tests only the hover index, which focusing leaves set: a second click while the
      drone is focused runs the focus again and queues three more tweens. */
  method SecondClickRefocuses(records: seq<DroneRecord>, parts: seq<Part>, frameInterval: nat)
      returns (focused: int, queued: seq<Tween>)
    requires |records| > 2 && |parts| > 0 && frameInterval > 0
    ensures focused == 2
    ensures queued == FocusTweens(0) + FocusTweens(3)
  {
    var v := HoverClick(records, parts, frameInterval, 2);
    v.Click();
    focused, queued := v.activeDroneIndex, v.tweens;
  }
}
