/**
 * The Blender scene objects the fragment exporter reads: each object's
 * identity, name, Sollumz type, link to its parent, children in order, and
 * the LOD, group and child settings the exporter copies into the records.
 */
module Scene {
  import opened Wrappers
  import opened Slots
  import opened Fragment

  /**
   * The Sollumz object types the exporter distinguishes; every other type
   * (bounds, lights, the fragment root itself, ...) is `OtherType`.
   */
  datatype SollumType = DrawableType | FragGroupType | FragLodType | FragChildType | FragVehicleWindowType
                      | OtherType(name: string)

  /** An object's parent, as the object sees it: the parent's identity and type. */
  datatype Link = Link(id: nat, sollumType: SollumType)

  /** The values of a child's settings panel that the exporter copies. */
  datatype ChildSettings = ChildSettings(
    boneTag: real, pristineMass: real, damagedMass: real, unkVec: Vector, inertiaTensor: Vector)

  /** The archetype values of a LOD object's settings panel. */
  datatype ArchetypeSettings = ArchetypeSettings(
    name: string, mass: real, unknown48: real, unknown4C: real, unknown50: real, unknown54: real,
    inertiaTensor: Vector)

  /** The values of a fragment object's settings panel that the exporter copies. */
  datatype FragmentSettings = FragmentSettings(
    unkB0: real, unkB8: real, unkBC: real, unkC0: real, unkC4: real, unkCC: real,
    gravityFactor: real, buoyancyFactor: real)

  /**
   * A scene object. `id` is its identity: two objects are the same object
   * exactly when their ids agree. `lodType` is the LOD settings' `type`;
   * each settings block is only read on objects of the matching type.
   */
  datatype Obj = Obj(
    id: nat, name: string, sollumType: SollumType, parent: Option<Link>, children: seq<Obj>,
    matrixBasis: Matrix4, lodType: int, lodSettings: LodTuning, archetypeSettings: ArchetypeSettings,
    groupSettings: GroupTuning, childSettings: ChildSettings, fragmentSettings: FragmentSettings)

  /** How `o`'s children see `o`. */
  function LinkTo(o: Obj): Link {
    Link(o.id, o.sollumType)
  }

  /** Every object below `o` names its actual parent. */
  predicate WellLinked(o: Obj) {
    forall i :: 0 <= i < |o.children| ==> o.children[i].parent == Some(LinkTo(o)) && WellLinked(o.children[i])
  }

  /** The largest of a run of numbers, 0 for none. */
  function Max(ns: seq<nat>): (m: nat)
    ensures forall i :: 0 <= i < |ns| ==> ns[i] <= m
  {
    if ns == [] then 0
    else
      var rest := Max(ns[1..]);
      assert forall i :: 1 <= i < |ns| ==> ns[i] == ns[1..][i - 1];
      if ns[0] > rest then ns[0] else rest
  }

  /** The number of levels of the tree below and including `o`. */
  function Depth(o: Obj): (h: nat)
    ensures h >= 1
  {
    1 + Max(seq(|o.children|, i requires 0 <= i < |o.children| => Depth(o.children[i])))
  }

  /** A child is strictly lower than its parent. */
  lemma {:induction false} ChildLower(o: Obj, i: nat)
    requires i < |o.children|
    ensures Depth(o.children[i]) < Depth(o)
  {
    var hs := seq(|o.children|, k requires 0 <= k < |o.children| => Depth(o.children[k]));
    assert hs[i] == Depth(o.children[i]);
  }
}
