// Camera and skybox transitions. A tween is an opaque task with an id, the
// property it animates, its end value, and what its completion callback does
// besides removing it from the active set. The active set is a JavaScript Set,
// which iterates in insertion order; it is modelled as a sequence of distinct ids.
module Tweens {
  import opened Geometry

  /** The three mutable properties a tween can animate. */
  datatype Target = ControlsTarget | CameraPosition | SkyboxRotation

  /** What a completion does after deleting the tween from the active set. */
  datatype OnDone = JustRemove | ShowInfo | ShowTooltips

  datatype Tween = Tween(
    id: nat,
    target: Target,
    to: Vec3,
    durationMs: nat,
    delayMs: nat,
    onDone: OnDone,
    playing: bool,
    updates: nat)

  /** The values the tweens animate: orbit-controls target, camera position, skybox rotation (degrees). */
  datatype View = View(controlsTarget: Vec3, camera: Vec3, skybox: Vec3) {
    function Get(t: Target): Vec3 {
      match t
      case ControlsTarget => controlsTarget
      case CameraPosition => camera
      case SkyboxRotation => skybox
    }

    function With(t: Target, v: Vec3): (r: View)
      ensures r.Get(t) == v
      ensures forall u :: u != t ==> r.Get(u) == Get(u)
    {
      match t
      case ControlsTarget => this.(controlsTarget := v)
      case CameraPosition => this.(camera := v)
      case SkyboxRotation => this.(skybox := v)
    }
  }

  /** The pose set up at start-up: camera at (8, -15, 0), controls target at the origin,
      skybox turned by -47 degrees about z. */
  const StartView: View := View(Vec3(0.0, 0.0, 0.0), Vec3(8.0, -15.0, 0.0), Vec3(0.0, 0.0, -47.0))

  /** A tween as getTween builds it: created, not yet started. */
  function NewTween(id: nat, target: Target, to: Vec3, durationMs: nat, delayMs: nat, onDone: OnDone): Tween {
    Tween(id, target, to, durationMs, delayMs, onDone, false, 0)
  }

  /** The three tweens focusing on a drone; the look-at tween reveals the info panel. */
  function FocusTweens(base: nat): seq<Tween> {
    [ NewTween(base, ControlsTarget, Vec3(50.0, -2.0, 10.0), 2000, 0, ShowInfo),
      NewTween(base + 1, CameraPosition, Vec3(36.0, 1.0, -1.8), 1000, 500, JustRemove),
      NewTween(base + 2, SkyboxRotation, Vec3(0.0, -24.0, 10.0), 2000, 0, JustRemove) ]
  }

  /** The three tweens returning to the overview; the look-at tween reveals the tooltips. */
  function UnfocusTweens(base: nat): seq<Tween> {
    [ NewTween(base, ControlsTarget, Vec3(0.0, 0.0, 0.0), 2000, 0, ShowTooltips),
      NewTween(base + 1, CameraPosition, Vec3(8.0, -15.0, 0.0), 1000, 500, JustRemove),
      NewTween(base + 2, SkyboxRotation, Vec3(0.0, 0.0, -47.0), 2000, 0, JustRemove) ]
  }

  /** A batch of three fresh, unstarted tweens with consecutive ids, one per target, where only
      the look-at tween has a completion beyond self-removal. */
  predicate IsBatch(ts: seq<Tween>, base: nat) {
    |ts| == 3 &&
    (forall k :: 0 <= k < 3 ==> ts[k].id == base + k && !ts[k].playing && ts[k].updates == 0) &&
    ts[0].target == ControlsTarget && ts[1].target == CameraPosition && ts[2].target == SkyboxRotation &&
    ts[1].onDone == JustRemove && ts[2].onDone == JustRemove
  }

  lemma TweenBatches(base: nat)
    ensures IsBatch(FocusTweens(base), base) && FocusTweens(base)[0].onDone == ShowInfo
    ensures IsBatch(UnfocusTweens(base), base) && UnfocusTweens(base)[0].onDone == ShowTooltips
  {
  }

  /** The end state once every tween of ts has completed in order: each sets its target to its end value. */
  function Settle(v: View, ts: seq<Tween>): View
    decreases |ts|
  {
    if ts == [] then v else Settle(v.With(ts[0].target, ts[0].to), ts[1..])
  }

  /** Back's tweens lead to the start-up pose, from wherever the camera and skybox are. */
  lemma UnfocusRestoresStartView(v: View, base: nat)
    ensures Settle(v, UnfocusTweens(base)) == StartView
  {
    var ts := UnfocusTweens(base);
    var v1 := v.With(ControlsTarget, Vec3(0.0, 0.0, 0.0));
    var v2 := v1.With(CameraPosition, Vec3(8.0, -15.0, 0.0));
    var v3 := v2.With(SkyboxRotation, Vec3(0.0, 0.0, -47.0));
    assert ts[1..][1..][1..] == [];
    assert Settle(v, ts) == Settle(v1, ts[1..]) == Settle(v2, ts[1..][1..]) == Settle(v3, []);
  }

  ghost predicate DistinctIds(ts: seq<Tween>) {
    forall a, b :: 0 <= a < b < |ts| ==> ts[a].id != ts[b].id
  }

  predicate HasId(ts: seq<Tween>, id: nat) {
    exists k :: 0 <= k < |ts| && ts[k].id == id
  }

  /** The set after Set.delete: every tween with that id is dropped, the rest keep their order. */
  function RemoveId(ts: seq<Tween>, id: nat): (r: seq<Tween>)
    ensures |r| <= |ts|
    decreases |ts|
  {
    if ts == [] then []
    else if ts[0].id == id then RemoveId(ts[1..], id)
    else [ts[0]] + RemoveId(ts[1..], id)
  }

  /** Set.delete keeps exactly the tweens with other ids. */
  lemma {:induction false} RemoveIdMembers(ts: seq<Tween>, id: nat)
    ensures forall t :: t in RemoveId(ts, id) <==> t in ts && t.id != id
    decreases |ts|
  {
    if ts != [] {
      RemoveIdMembers(ts[1..], id);
      assert forall t :: t in ts <==> t == ts[0] || t in ts[1..];
    }
  }

  /** The tween with the given id, when there is one. */
  function Lookup(ts: seq<Tween>, id: nat): (r: Tween)
    requires HasId(ts, id)
    ensures r in ts && r.id == id
    decreases |ts|
  {
    if ts[0].id == id then ts[0]
    else
      assert HasId(ts[1..], id) by {
        var k :| 0 <= k < |ts| && ts[k].id == id;
        assert ts[1..][k - 1] == ts[k];
      }
      Lookup(ts[1..], id)
  }

  /** Deleting a tween whose id is unique drops exactly that one element. */
  lemma RemoveIdAt(ts: seq<Tween>, k: nat)
    requires DistinctIds(ts) && k < |ts|
    ensures RemoveId(ts, ts[k].id) == ts[..k] + ts[k + 1..]
    ensures |RemoveId(ts, ts[k].id)| == |ts| - 1
    ensures Lookup(ts, ts[k].id) == ts[k]
  {
    RemoveIdDrops(ts, k);
    LookupAt(ts, k);
  }

  lemma {:induction false} RemoveIdDrops(ts: seq<Tween>, k: nat)
    requires DistinctIds(ts) && k < |ts|
    ensures RemoveId(ts, ts[k].id) == ts[..k] + ts[k + 1..]
    decreases k
  {
    var id := ts[k].id;
    if k == 0 {
      NotInTail(ts, id, 1);
      assert ts[..0] + ts[1..] == ts[1..];
    } else {
      var tail := ts[1..];
      DistinctTail(ts);
      assert tail[k - 1] == ts[k];
      RemoveIdDrops(tail, k - 1);
      assert ts[0].id != id;
      assert RemoveId(ts, id) == [ts[0]] + RemoveId(tail, id);
      assert tail[..k - 1] + tail[k..] == ts[1..k] + ts[k + 1..];
      assert ts[..k] + ts[k + 1..] == [ts[0]] + (ts[1..k] + ts[k + 1..]);
    }
  }

  lemma {:induction false} LookupAt(ts: seq<Tween>, k: nat)
    requires DistinctIds(ts) && k < |ts|
    ensures Lookup(ts, ts[k].id) == ts[k]
    decreases k
  {
    if k > 0 {
      var tail := ts[1..];
      DistinctTail(ts);
      assert tail[k - 1] == ts[k];
      assert ts[0].id != ts[k].id;
      LookupAt(tail, k - 1);
    }
  }

  lemma DistinctTail(ts: seq<Tween>)
    requires DistinctIds(ts) && ts != []
    ensures DistinctIds(ts[1..])
  {
    forall a, b | 0 <= a < b < |ts| - 1 ensures ts[1..][a].id != ts[1..][b].id {
      assert ts[1..][a] == ts[a + 1] && ts[1..][b] == ts[b + 1];
    }
  }

  /** Dropping one element keeps the remaining ids distinct and adds no tween. */
  lemma RemoveAtKeepsIds(ts: seq<Tween>, k: nat)
    requires DistinctIds(ts) && k < |ts|
    ensures DistinctIds(ts[..k] + ts[k + 1..])
    ensures forall t :: t in ts[..k] + ts[k + 1..] ==> t in ts
  {
    var r := ts[..k] + ts[k + 1..];
    forall a | 0 <= a < |r| ensures r[a] == ts[if a < k then a else a + 1] {
    }
  }

  /** RemoveId leaves a suffix alone when no element of it has the id. */
  lemma {:induction false} NotInTail(ts: seq<Tween>, id: nat, from: nat)
    requires from <= |ts|
    requires forall j :: from <= j < |ts| ==> ts[j].id != id
    ensures RemoveId(ts[from..], id) == ts[from..]
    decreases |ts| - from
  {
    if from < |ts| {
      NotInTail(ts, id, from + 1);
      assert ts[from..][1..] == ts[from + 1..];
    }
  }

  /** The index of the tween with the given id, or -1 when the set has none. */
  method IndexOfId(ts: seq<Tween>, id: nat) returns (k: int)
    ensures -1 <= k < |ts|
    ensures k == -1 <==> !HasId(ts, id)
    ensures k != -1 ==> ts[k].id == id && forall j :: 0 <= j < k ==> ts[j].id != id
  {
    k := 0;
    while k < |ts|
      invariant 0 <= k <= |ts|
      invariant forall j :: 0 <= j < k ==> ts[j].id != id
    {
      if ts[k].id == id {
        return;
      }
      k := k + 1;
    }
    k := -1;
  }

  /** One pass of the tick over a tween: a playing tween is updated, any other is started. */
  function Advanced(t: Tween): Tween {
    if t.playing then t.(updates := t.updates + 1) else t.(playing := true)
  }

  /** One tick over the whole set, in insertion order: every tween is started or updated, and
      each update moves its target by the interpolation `advance`, which is left abstract. */
  function AdvanceAll(ts: seq<Tween>, v: View, advance: (Tween, Vec3) -> Vec3): (r: (seq<Tween>, View))
    ensures |r.0| == |ts|
    ensures forall k :: 0 <= k < |ts| ==> r.0[k] == Advanced(ts[k])
    ensures forall u: Target :: (forall k :: 0 <= k < |ts| && ts[k].playing ==> ts[k].target != u) ==>
      r.1.Get(u) == v.Get(u)
    decreases |ts|
  {
    if ts == [] then ([], v)
    else
      var p := AdvanceAll(ts[..|ts| - 1], v, advance);
      var t := ts[|ts| - 1];
      (p.0 + [Advanced(t)], if t.playing then p.1.With(t.target, advance(t, p.1.Get(t.target))) else p.1)
  }

  /** A tick starts every tween, keeps every id and end value, and leaves the set's size. */
  lemma TickStartsEveryTween(ts: seq<Tween>, v: View, advance: (Tween, Vec3) -> Vec3)
    ensures var r := AdvanceAll(ts, v, advance).0;
      |r| == |ts| &&
      forall k :: 0 <= k < |ts| ==>
        r[k].playing && r[k].id == ts[k].id && r[k].target == ts[k].target && r[k].to == ts[k].to &&
        r[k].onDone == ts[k].onDone &&
        r[k].updates == (if ts[k].playing then ts[k].updates + 1 else ts[k].updates)
  {
  }
}
