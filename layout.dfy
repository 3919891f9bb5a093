// Geometry shared by the instance registry, the tweens and the scene state.
// Vectors are exact reals; rotations are kept in degrees (the source converts
// degrees to radians by multiplying with PI / 180, which is left out).
module Geometry {

  datatype Vec3 = Vec3(x: real, y: real, z: real) {
    function Plus(o: Vec3): Vec3 {
      Vec3(x + o.x, y + o.y, z + o.z)
    }
  }

  /** The position, Euler rotation (degrees) and scale an instance matrix is composed from. */
  datatype Transform = Transform(position: Vec3, rotation: Vec3, scale: Vec3)

  /** One mesh part of the loaded asset: its base position, rotation and scale. */
  datatype Part = Part(position: Vec3, rotation: Vec3, scale: Vec3)
}

// The initial layout of the instance slots written by the asset-load callback.
module Layout {
  import opened Geometry

  const Cols: nat := 3
  const Spacing: int := 3

  /** Rotation added to a part's base rotation for a drone in the formation:
      half a turn about x and a quarter turn about y. */
  const FormationCorrection: Vec3 := Vec3(180.0, 90.0, 0.0)

  /** Rotation added for the focus slot: a quarter turn back about x. */
  const InspectionCorrection: Vec3 := Vec3(-90.0, 0.0, 0.0)

  /** The position of the focus slot, whatever the number of drones. */
  const InspectionPosition: Vec3 := Vec3(40.0, 0.0, 0.0)

  /** Grid offset of slot i: the row is the floor of the real quotient i / cols minus one,
      the column is i mod cols minus one, both scaled by the spacing. */
  function GridOffset(i: nat): Vec3 {
    var row := ((i as real) / (Cols as real) - 1.0).Floor;
    var column := i % Cols - 1;
    Vec3(0.0, (row * Spacing) as real, (column * Spacing) as real)
  }

  /** The transform written into slot i of a part. A drone slot sets the dummy's position
      to the grid offset and then adds the same offset again, so it sits at twice the offset;
      the part's own base position is not used. */
  function SlotTransform(part: Part, i: nat, count: nat): Transform {
    if i != count then
      var offset := GridOffset(i);
      Transform(offset.Plus(offset), part.rotation.Plus(FormationCorrection), part.scale)
    else
      Transform(InspectionPosition, part.rotation.Plus(InspectionCorrection), part.scale)
  }

  /** The floor of the real quotient is the integer quotient, for every slot index. */
  lemma GridRowIsQuotient(i: nat)
    ensures ((i as real) / 3.0 - 1.0).Floor == i / 3 - 1
  {
    var q, r := i / 3, i % 3;
    assert i == 3 * q + r && 0 <= r < 3;
    assert (i as real) / 3.0 - 1.0 == (q - 1) as real + (r as real) / 3.0;
  }

  /** Drone slot i sits at (0, 2 * 3 * (i div 3 - 1), 2 * 3 * (i mod 3 - 1)); the focus slot sits
      at (40, 0, 0); both keep the part's scale and add their rotation correction. */
  lemma SlotPositions(part: Part, i: nat, count: nat)
    ensures i < count ==>
      SlotTransform(part, i, count).position
        == Vec3(0.0, (6 * (i / 3 - 1)) as real, (6 * (i % 3 - 1)) as real)
    ensures SlotTransform(part, count, count).position == Vec3(40.0, 0.0, 0.0)
    ensures i != count ==> SlotTransform(part, i, count).rotation == part.rotation.Plus(Vec3(180.0, 90.0, 0.0))
    ensures SlotTransform(part, count, count).rotation == part.rotation.Plus(Vec3(-90.0, 0.0, 0.0))
    ensures SlotTransform(part, i, count).scale == part.scale
  {
    GridRowIsQuotient(i);
  }

  /** No two drones of the formation share a position, and none shares the focus slot's. */
  lemma DroneSlotsDistinct(part: Part, i: nat, j: nat, count: nat)
    requires i < count && j < count && i != j
    ensures SlotTransform(part, i, count).position != SlotTransform(part, j, count).position
    ensures SlotTransform(part, i, count).position != SlotTransform(part, count, count).position
  {
    SlotPositions(part, i, count);
    SlotPositions(part, j, count);
  }
}
