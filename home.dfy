// The module-level state of the viewer page and the handlers that change it:
// the asset-load callback that fills the instance slots and creates the tooltips,
// the frame callback and its tick, the mouse-move, click and back handlers,
// and the focus and unfocus transitions with their tweens.
module Home {
  import opened Geometry
  import opened Layout
  import opened Drones
  import opened Tweens
  import opened Scheduler

  /** What the raycaster reports under the mouse: nothing, an intersection that has no
      instance id, or the instance with the given id. */
  datatype Ray = Miss | Unindexed | Instance(id: nat)

  datatype Cursor = Unset | Pointer

  /** A tooltip element: its text, its status class, and whether it carries the `active`
      and `hide` classes. */
  datatype Tip = Tip(text: string, kind: string, active: bool, hide: bool)

  /** The tooltip created for drone i, neither active nor hidden. */
  function NewTip(i: nat, r: DroneRecord): Tip {
    Tip(TooltipLabel(i, r), TooltipKind(r.status), false, false)
  }

  /** The value of slot i after one tick. With no drone focused, the idle bob (which reads
      the clock once per drone, hence the index) moves every drone slot and leaves the focus
      slot; with a drone focused, the spin turns the focus slot and nothing else. */
  function TickedSlot(focused: bool, i: nat, count: nat, bob: (nat, Transform) -> Transform,
                      spin: Transform -> Transform, t: Transform): (r: Transform)
    ensures !focused && i == count ==> r == t
    ensures focused && i != count ==> r == t
  {
    if !focused then (if i < count then bob(i, t) else t)
    else (if i == count then spin(t) else t)
  }

  class Viewer {
    const count: nat
    const records: seq<DroneRecord>
    const frameInterval: nat

    // matrices[j, i] is slot i of mesh part j; slot count is the focus instance
    var matrices: array2<Transform>
    var tooltips: array<Tip>
    var loaded: bool
    var activeToolTipIndex: int
    var activeDroneIndex: int
    var raycastEnabled: bool
    var cursor: Cursor
    var panel: Panel
    var panelVisible: bool
    var tweens: seq<Tween>
    var nextTweenId: nat
    var view: View
    var delta: nat
    ghost var ticks: nat
    ghost var elapsed: nat

    /** At most one tooltip is active, and it is the one at activeToolTipIndex. */
    ghost predicate HoverInvariant()
      reads this`activeToolTipIndex, this`tooltips, tooltips
    {
      -1 <= activeToolTipIndex < tooltips.Length &&
      forall t :: 0 <= t < tooltips.Length ==> (tooltips[t].active <==> t == activeToolTipIndex)
    }

    /** One slot row per part, and once a part exists one tooltip per drone, in index order. */
    ghost predicate Registry()
      reads this`matrices, this`loaded, this`tooltips, tooltips
    {
      |records| == count &&
      matrices.Length1 == count + 1 &&
      (!loaded ==> matrices.Length0 == 0) &&
      tooltips.Length == (if matrices.Length0 > 0 then count else 0) &&
      forall t :: 0 <= t < tooltips.Length ==>
        tooltips[t].text == TooltipLabel(t, records[t]) && tooltips[t].kind == TooltipKind(records[t].status)
    }

    /** Raycasting is on exactly when no drone is focused. */
    ghost predicate FocusInvariant()
      reads this`activeDroneIndex, this`raycastEnabled, this`tooltips
    {
      -1 <= activeDroneIndex < tooltips.Length && (raycastEnabled <==> activeDroneIndex == -1)
    }

    /** Tween ids are distinct and below the next id to hand out. */
    ghost predicate TweenInvariant()
      reads this`tweens, this`nextTweenId
    {
      DistinctIds(tweens) && forall k :: 0 <= k < |tweens| ==> tweens[k].id < nextTweenId
    }

    /** The accumulator stays below one interval, and ticks never outrun the time fed in. */
    ghost predicate ClockInvariant()
      reads this`delta, this`ticks, this`elapsed
    {
      frameInterval > 0 && delta < frameInterval && ticks * frameInterval + delta <= elapsed
    }

    ghost predicate Valid()
      reads this`matrices, this`loaded, this`tooltips, this`activeToolTipIndex, this`activeDroneIndex,
            this`raycastEnabled, this`tweens, this`nextTweenId, this`delta, this`ticks, this`elapsed, tooltips
    {
      Registry() && HoverInvariant() && FocusInvariant() && TweenInvariant() && ClockInvariant()
    }

    /** The page before any asset has loaded: no parts, no tooltips, nothing hovered or
        focused, the start-up camera pose and an empty tween set. */
    constructor (records: seq<DroneRecord>, frameInterval: nat)
      requires frameInterval > 0
      ensures Valid() && fresh(matrices) && fresh(tooltips)
      ensures this.records == records && count == |records| && this.frameInterval == frameInterval
      ensures !loaded && matrices.Length0 == 0 && tooltips.Length == 0
      ensures activeToolTipIndex == -1 && activeDroneIndex == -1 && raycastEnabled && cursor == Unset
      ensures panel == Blank && !panelVisible && tweens == [] && nextTweenId == 0
      ensures view == StartView && delta == 0 && ticks == 0 && elapsed == 0
    {
      count := |records|;
      this.records := records;
      this.frameInterval := frameInterval;
      matrices := new Transform[0, |records| + 1];
      tooltips := new Tip[0];
      loaded := false;
      activeToolTipIndex, activeDroneIndex := -1, -1;
      raycastEnabled := true;
      cursor := Unset;
      panel := Blank;
      panelVisible := false;
      tweens, nextTweenId := [], 0;
      view := StartView;
      delta, ticks, elapsed := 0, 0, 0;
    }

    /** The asset-load callback: count + 1 slots per part, each set to its layout transform, and
        (while filling the first part) one tooltip per drone in index order. */
    method Load(parts: seq<Part>)
      requires Valid() && !loaded
      modifies this`matrices, this`tooltips, this`loaded
      ensures Valid() && loaded && fresh(matrices) && fresh(tooltips)
      ensures matrices.Length0 == |parts| && matrices.Length1 == count + 1
      ensures forall j, i :: 0 <= j < |parts| && 0 <= i <= count ==> matrices[j, i] == SlotTransform(parts[j], i, count)
      ensures tooltips.Length == (if |parts| > 0 then count else 0)
      ensures forall i :: 0 <= i < tooltips.Length ==> tooltips[i] == NewTip(i, records[i])
    {
      var m := new Transform[|parts|, count + 1];
      var tips := new Tip[if |parts| > 0 then count else 0];
      for i := 0 to count + 1
        invariant forall j, i' :: 0 <= j < |parts| && 0 <= i' < i ==> m[j, i'] == SlotTransform(parts[j], i', count)
        invariant forall i' :: 0 <= i' < i && i' < tips.Length ==> tips[i'] == NewTip(i', records[i'])
      {
        FillSlot(m, tips, parts, i);
      }
      matrices, tooltips, loaded := m, tips, true;
    }

    /** One pass of the outer loop of the load callback: slot i of every part, and drone i's
        tooltip while the first part is being filled. */
    method FillSlot(m: array2<Transform>, tips: array<Tip>, parts: seq<Part>, i: nat)
      requires |records| == count && i <= count
      requires m.Length0 == |parts| && m.Length1 == count + 1
      requires tips.Length == (if |parts| > 0 then count else 0)
      modifies m, tips
      ensures forall j, i' :: 0 <= j < |parts| && 0 <= i' <= count ==>
        m[j, i'] == if i' == i then SlotTransform(parts[j], i, count) else old(m[j, i'])
      ensures forall i' :: 0 <= i' < tips.Length ==>
        tips[i'] == if i' == i then NewTip(i, records[i]) else old(tips[i'])
    {
      var offset := GridOffset(i);
      for j := 0 to |parts|
        invariant forall j', i' :: 0 <= j' < |parts| && 0 <= i' <= count ==>
          m[j', i'] == if i' == i && j' < j then SlotTransform(parts[j'], i, count) else old(m[j', i'])
        invariant forall i' :: 0 <= i' < tips.Length ==>
          tips[i'] == if i' == i && 0 < j then NewTip(i, records[i]) else old(tips[i'])
      {
        var part := parts[j];
        if i != count {
          m[j, i] := Transform(offset.Plus(offset), part.rotation.Plus(FormationCorrection), part.scale);
        } else {
          m[j, i] := Transform(InspectionPosition, part.rotation.Plus(InspectionCorrection), part.scale);
        }
        if j == 0 && i != count {
          tips[i] := NewTip(i, records[i]);
        }
      }
    }

    /** The mouse-move handler. While raycasting is disabled the raycaster finds nothing. */
    method MouseMove(ray: Ray)
      requires Valid()
      requires raycastEnabled && ray.Instance? ==> ray.id < tooltips.Length
      modifies this`activeToolTipIndex, this`cursor, tooltips
      ensures Valid()
      ensures var hit := if raycastEnabled then ray else Miss;
        (hit.Miss? ==> activeToolTipIndex == -1 && cursor == Unset) &&
        (hit.Unindexed? ==> activeToolTipIndex == old(activeToolTipIndex) && cursor == old(cursor) &&
                            tooltips[..] == old(tooltips[..])) &&
        (hit.Instance? ==> activeToolTipIndex == hit.id && cursor == Pointer)
      ensures forall t :: 0 <= t < tooltips.Length ==>
        tooltips[t] == old(tooltips[t]).(active := t == activeToolTipIndex)
    {
      var hit := if raycastEnabled then ray else Miss;
      match hit
      case Miss => Unhover();
      case Unindexed =>
      case Instance(k) => HoverOn(k);
    }

    /** The no-hit branch: the cursor is reset and the hovered tooltip, if any, loses `active`. */
    method Unhover()
      requires Valid()
      modifies this`activeToolTipIndex, this`cursor, tooltips
      ensures Valid() && activeToolTipIndex == -1 && cursor == Unset
      ensures forall t :: 0 <= t < tooltips.Length ==> tooltips[t] == old(tooltips[t]).(active := false)
    {
      cursor := Unset;
      if activeToolTipIndex != -1 {
        SetActive(activeToolTipIndex, false);
        activeToolTipIndex := -1;
      }
    }

    /** The hit branch: the previously hovered tooltip loses `active` and tooltip k gains it. */
    method HoverOn(k: nat)
      requires Valid() && k < tooltips.Length
      modifies this`activeToolTipIndex, this`cursor, tooltips
      ensures Valid() && activeToolTipIndex == k && cursor == Pointer
      ensures forall t :: 0 <= t < tooltips.Length ==> tooltips[t] == old(tooltips[t]).(active := t == k)
    {
      if activeToolTipIndex != -1 {
        SetActive(activeToolTipIndex, false);
      }
      activeToolTipIndex := k;
      SetActive(k, true);
      cursor := Pointer;
    }

    /** Adds or removes the `active` class of one tooltip. */
    method SetActive(t: nat, on: bool)
      requires t < tooltips.Length
      modifies tooltips
      ensures tooltips[t] == old(tooltips[t]).(active := on)
      ensures forall u :: 0 <= u < tooltips.Length && u != t ==> tooltips[u] == old(tooltips[u])
    {
      tooltips[t] := tooltips[t].(active := on);
    }

    /** What focusOnMainDrone does: it commits to the hovered drone, hides every tooltip (its
        `active` class stays), fills the panel without showing it, and queues three tweens. */
    twostate predicate DidFocus()
      reads this, tooltips
    {
      activeDroneIndex == old(activeToolTipIndex) && activeToolTipIndex == old(activeToolTipIndex) &&
      0 <= activeDroneIndex < |records| &&
      cursor == Unset && !raycastEnabled &&
      tooltips == old(tooltips) &&
      (forall t :: 0 <= t < tooltips.Length ==> tooltips[t] == old(tooltips[t]).(hide := true)) &&
      panel == Showing(activeDroneIndex, records[activeDroneIndex]) &&
      tweens == old(tweens) + FocusTweens(old(nextTweenId)) && nextTweenId == old(nextTweenId) + 3
    }

    /** The click handler: nothing unless a tooltip is active; it does not look at the focus state. */
    method Click()
      requires Valid()
      modifies this`activeDroneIndex, this`cursor, this`raycastEnabled, this`panel, this`tweens,
               this`nextTweenId, tooltips
      ensures Valid()
      ensures old(activeToolTipIndex) == -1 ==>
        activeDroneIndex == old(activeDroneIndex) && cursor == old(cursor) && raycastEnabled == old(raycastEnabled) &&
        panel == old(panel) && tweens == old(tweens) && nextTweenId == old(nextTweenId) &&
        tooltips[..] == old(tooltips[..])
      ensures old(activeToolTipIndex) != -1 ==> DidFocus()
    {
      if activeToolTipIndex == -1 {
        return;
      }
      Focus();
    }

    method Focus()
      requires Valid() && activeToolTipIndex != -1
      modifies this`activeDroneIndex, this`cursor, this`raycastEnabled, this`panel, this`tweens,
               this`nextTweenId, tooltips
      ensures Valid() && DidFocus()
    {
      Commit();
      panel := Showing(activeDroneIndex, records[activeDroneIndex]);
      TweenBatches(nextTweenId);
      AddTweens(FocusTweens(nextTweenId));
    }

    /** The first half of focusOnMainDrone: the hovered drone becomes the focused one, the
        cursor is reset, raycasting is switched off and every tooltip is hidden. */
    method Commit()
      requires Valid() && activeToolTipIndex != -1
      modifies this`activeDroneIndex, this`cursor, this`raycastEnabled, tooltips
      ensures Valid()
      ensures activeDroneIndex == activeToolTipIndex && cursor == Unset && !raycastEnabled
      ensures forall t :: 0 <= t < tooltips.Length ==> tooltips[t] == old(tooltips[t]).(hide := true)
    {
      activeDroneIndex := activeToolTipIndex;
      cursor := Unset;
      raycastEnabled := false;
      ToggleTooltip(false);
    }

    /** Set.add of each tween of a batch built with fresh ids, in order. */
    method AddTweens(batch: seq<Tween>)
      requires Valid() && IsBatch(batch, nextTweenId)
      modifies this`tweens, this`nextTweenId
      ensures Valid()
      ensures tweens == old(tweens) + batch && nextTweenId == old(nextTweenId) + 3
    {
      tweens := tweens + [batch[0]];
      tweens := tweens + [batch[1]];
      tweens := tweens + [batch[2]];
      assert tweens == old(tweens) + batch;
      nextTweenId := nextTweenId + 3;
    }

    /** What unfocusFromMainDrone does: back to the overview and hover, panel hidden, three
        tweens queued. The tooltips, the hover index and the cursor are left as they are. */
    twostate predicate DidUnfocus()
      reads this, tooltips
    {
      activeDroneIndex == -1 && raycastEnabled && !panelVisible &&
      tweens == old(tweens) + UnfocusTweens(old(nextTweenId)) && nextTweenId == old(nextTweenId) + 3 &&
      tooltips[..] == old(tooltips[..])
    }

    /** A click on the back button. The button's own listener unfocuses whatever the focus state;
        the click then bubbles up to the window's listener, which focuses again when a tooltip is
        still active, as it is when the mouse has not moved since the drone was clicked. */
    method BackButtonClick()
      requires Valid()
      modifies this`activeDroneIndex, this`cursor, this`raycastEnabled, this`panel, this`panelVisible,
               this`tweens, this`nextTweenId, tooltips
      ensures Valid() && !panelVisible
      ensures old(activeToolTipIndex) == -1 ==>
        DidUnfocus() && cursor == old(cursor) && panel == old(panel)
      ensures old(activeToolTipIndex) != -1 ==>
        activeDroneIndex == old(activeToolTipIndex) && cursor == Unset && !raycastEnabled &&
        (forall t :: 0 <= t < tooltips.Length ==> tooltips[t] == old(tooltips[t]).(hide := true)) &&
        panel == Showing(activeDroneIndex, records[activeDroneIndex]) &&
        tweens == old(tweens) + UnfocusTweens(old(nextTweenId)) + FocusTweens(old(nextTweenId) + 3) &&
        nextTweenId == old(nextTweenId) + 6
    {
      Unfocus();
      Click();
    }

    method Unfocus()
      requires Valid()
      modifies this`activeDroneIndex, this`raycastEnabled, this`panelVisible, this`tweens, this`nextTweenId
      ensures Valid() && DidUnfocus()
    {
      activeDroneIndex := -1;
      raycastEnabled := true;
      ToggleInfo(false);
      TweenBatches(nextTweenId);
      AddTweens(UnfocusTweens(nextTweenId));
    }

    /** Adds or removes the `hide` class of every tooltip; `active` is never touched. */
    method ToggleTooltip(show: bool)
      requires Valid()
      modifies tooltips
      ensures Valid()
      ensures forall t :: 0 <= t < tooltips.Length ==> tooltips[t] == old(tooltips[t]).(hide := !show)
    {
      for k := 0 to tooltips.Length
        invariant forall t :: 0 <= t < k ==> tooltips[t] == old(tooltips[t]).(hide := !show)
        invariant forall t :: k <= t < tooltips.Length ==> tooltips[t] == old(tooltips[t])
      {
        tooltips[k] := tooltips[k].(hide := !show);
      }
    }

    method ToggleInfo(show: bool)
      modifies this`panelVisible
      ensures panelVisible == show
    {
      panelVisible := show;
    }

    /** A tween's completion: the tween library leaves its target at the end value, and the
        callback deletes exactly that tween from the set, then runs its extra action. */
    method TweenComplete(id: nat)
      requires Valid()
      requires HasId(tweens, id) && Lookup(tweens, id).playing
      modifies this`tweens, this`view, this`panelVisible, tooltips
      ensures Valid()
      ensures var t := Lookup(old(tweens), id);
        tweens == RemoveId(old(tweens), id) && |tweens| == |old(tweens)| - 1 &&
        view == old(view).With(t.target, t.to) &&
        panelVisible == (t.onDone == ShowInfo || old(panelVisible)) &&
        forall k :: 0 <= k < tooltips.Length ==>
          tooltips[k] == if t.onDone == ShowTooltips then old(tooltips[k]).(hide := false) else old(tooltips[k])
    {
      var k := IndexOfId(tweens, id);
      RemoveIdAt(tweens, k);
      RemoveAtKeepsIds(tweens, k);
      var t := tweens[k];
      view := view.With(t.target, t.to);
      tweens := tweens[..k] + tweens[k + 1..];
      match t.onDone
      case JustRemove =>
      case ShowInfo => ToggleInfo(true);
      case ShowTooltips => ToggleTooltip(true);
    }

    /** The idle bob: every part's slot i, for every drone i, is replaced by bob(i, slot). */
    method UpdatePositionOfDrone(bob: (nat, Transform) -> Transform)
      requires Valid()
      modifies matrices
      ensures forall j, i :: 0 <= j < matrices.Length0 && 0 <= i <= count ==>
        matrices[j, i] == if i < count then bob(i, old(matrices[j, i])) else old(matrices[j, i])
    {
      for i := 0 to count
        invariant forall j, i' :: 0 <= j < matrices.Length0 && 0 <= i' <= count ==>
          matrices[j, i'] == if i' < i then bob(i', old(matrices[j, i'])) else old(matrices[j, i'])
      {
        for j := 0 to matrices.Length0
          invariant forall j', i' :: 0 <= j' < matrices.Length0 && 0 <= i' <= count ==>
            matrices[j', i'] == if i' < i || (i' == i && j' < j) then bob(i', old(matrices[j', i'])) else old(matrices[j', i'])
        {
          matrices[j, i] := bob(i, matrices[j, i]);
        }
      }
    }

    /** The focused drone's spin: every part's focus slot is replaced by spin(slot). */
    method RotateMainDrone(spin: Transform -> Transform)
      requires Valid()
      modifies matrices
      ensures forall j, i :: 0 <= j < matrices.Length0 && 0 <= i <= count ==>
        matrices[j, i] == if i == count then spin(old(matrices[j, i])) else old(matrices[j, i])
    {
      for j := 0 to matrices.Length0
        invariant forall j', i :: 0 <= j' < matrices.Length0 && 0 <= i <= count ==>
          matrices[j', i] == if i == count && j' < j then spin(old(matrices[j', i])) else old(matrices[j', i])
      {
        matrices[j, count] := spin(matrices[j, count]);
      }
    }

    /** One logic tick: the slot update chosen by the focus state, then one pass over the tweens. */
    method Tick(bob: (nat, Transform) -> Transform, spin: Transform -> Transform, advance: (Tween, Vec3) -> Vec3)
      requires Valid()
      modifies this`tweens, this`view, matrices
      ensures Valid()
      ensures forall j, i :: 0 <= j < matrices.Length0 && 0 <= i <= count ==>
        matrices[j, i] == TickedSlot(activeDroneIndex != -1, i, count, bob, spin, old(matrices[j, i]))
      ensures (tweens, view) == AdvanceAll(old(tweens), old(view), advance)
    {
      if activeDroneIndex == -1 {
        UpdatePositionOfDrone(bob);
      } else {
        RotateMainDrone(spin);
      }
      UpdateTweens(advance);
    }

    /** The tween pass of a tick, in the set's insertion order: a playing tween is updated,
        which moves its target by `advance`; any other tween is started. */
    method UpdateTweens(advance: (Tween, Vec3) -> Vec3)
      requires Valid()
      modifies this`tweens, this`view
      ensures Valid()
      ensures (tweens, view) == AdvanceAll(old(tweens), old(view), advance)
    {
      var ts, v := tweens, view;
      for k := 0 to |ts|
        invariant |ts| == |tweens|
        invariant ts[k..] == tweens[k..]
        invariant (ts[..k], v) == AdvanceAll(tweens[..k], view, advance)
      {
        var t := ts[k];
        assert tweens[..k + 1][..k] == tweens[..k] && t == tweens[k];
        if t.playing {
          v := v.With(t.target, advance(t, v.Get(t.target)));
        }
        ghost var before := ts;
        assert before[k..][1..] == before[k + 1..] && tweens[k..][1..] == tweens[k + 1..];
        ts := ts[k := Advanced(t)];
        assert ts[k + 1..] == before[k + 1..];
        assert ts[..k + 1] == before[..k] + [Advanced(t)];
      }
      assert ts[..|ts|] == ts && tweens[..|ts|] == tweens;
      tweens, view := ts, v;
    }

    /** The frame callback: add the frame's time; once a whole interval has built up, run one tick
        and keep the remainder modulo the interval. */
    method UpdateScene(elapsedTime: nat, bob: (nat, Transform) -> Transform, spin: Transform -> Transform,
                       advance: (Tween, Vec3) -> Vec3)
      requires Valid()
      modifies this`delta, this`ticks, this`elapsed, this`tweens, this`view, matrices
      ensures Valid()
      ensures var f := Accumulate(old(delta), elapsedTime, frameInterval);
        delta == f.delta && elapsed == old(elapsed) + elapsedTime &&
        ticks == old(ticks) + (if f.ticked then 1 else 0) &&
        (f.ticked ==>
          (tweens, view) == AdvanceAll(old(tweens), old(view), advance) &&
          forall j, i :: 0 <= j < matrices.Length0 && 0 <= i <= count ==>
            matrices[j, i] == TickedSlot(activeDroneIndex != -1, i, count, bob, spin, old(matrices[j, i]))) &&
        (!f.ticked ==>
          tweens == old(tweens) && view == old(view) &&
          forall j, i :: 0 <= j < matrices.Length0 && 0 <= i <= count ==> matrices[j, i] == old(matrices[j, i]))
    {
      ghost var f := Accumulate(delta, elapsedTime, frameInterval);
      delta := delta + elapsedTime;
      elapsed := elapsed + elapsedTime;
      if delta >= frameInterval {
        assert (ticks + 1) * frameInterval == ticks * frameInterval + frameInterval;
        ticks := ticks + 1;
        delta := delta % frameInterval;
        Tick(bob, spin, advance);
      }
    }
  }
}
