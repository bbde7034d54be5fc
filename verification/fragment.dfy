/**
 * The fragment schema: the physics records (bone transforms, archetype,
 * LODs with their groups, children and transforms, the physics block),
 * the vehicle-glass window with its shattermap codec, and the fragment
 * itself, each with the defaults its constructor declares.
 */
module Fragment {
  import opened Wrappers
  import opened Text
  import opened Xml
  import opened Slots
  import opened Bound

  // ---------------------------------------------------------------------
  // Matrix items

  /** `Matrix()`: the 4x4 identity. */
  function Identity(): Matrix {
    [[1.0, 0.0, 0.0, 0.0], [0.0, 1.0, 0.0, 0.0], [0.0, 0.0, 1.0, 0.0], [0.0, 0.0, 0.0, 1.0]]
  }

  /** `value or Matrix()`: a missing or empty matrix falls back to the identity. */
  function MatrixOr(value: Option<Matrix>): (m: Matrix)
    ensures m != []
    ensures value.Some? && value.value != [] ==> m == value.value
    ensures value.None? || value.value == [] ==> m == Identity()
  {
    if value.Some? && value.value != [] then value.value else Identity()
  }

  /** `tag_name or default`: a missing or empty tag falls back to the class tag. */
  function TagOr(tag: Option<string>, default: string): (t: string)
    ensures tag.Some? && tag.value != [] ==> t == tag.value
    ensures tag.None? || tag.value == [] ==> t == default
  {
    if tag.Some? && tag.value != [] then tag.value else default
  }

  /**
   * A matrix-valued list item (`BoneTransformItem`, `TransformItem`); `size`
   * is the number of rows the matrix codec writes.
   */
  datatype MatrixItem = MatrixItem(tag: string, value: Matrix, size: Slot<nat>)

  /** `BoneTransformItem(tag, value)`: a 3-row matrix item. */
  function NewBoneTransformItem(tag: string, value: Option<Matrix>): (b: MatrixItem)
    ensures b.tag == tag && b.size == Given(3) && b.value == MatrixOr(value)
  {
    MatrixItem(tag, MatrixOr(value), Given(3))
  }

  /** `TransformItem(tag, value)`: the matrix codec's own row count. */
  function NewTransformItem(tag: string, value: Option<Matrix>): (t: MatrixItem)
    ensures t.tag == tag && t.size == BaseDefault && t.value == MatrixOr(value)
  {
    MatrixItem(tag, MatrixOr(value), BaseDefault)
  }

  /** `BoneTransformsListProperty`: its items and the `unk` attribute. */
  datatype BoneTransformsList = BoneTransformsList(tag: string, unk: int, items: seq<MatrixItem>)

  function NewBoneTransformsList(tag: Option<string>): (l: BoneTransformsList)
    ensures l.unk == 1 && l.items == []
    ensures l.tag == TagOr(tag, "BoneTransforms")
  {
    BoneTransformsList(TagOr(tag, "BoneTransforms"), 1, [])
  }

  // ---------------------------------------------------------------------
  // Physics records

  /** `ArchetypeProperty`: its own bounds composite and value slots. */
  datatype Archetype = Archetype(
    name: Slot<string>, mass: Slot<real>, massInv: Slot<real>, unknown48: Slot<real>,
    unknown4C: Slot<real>, unknown50: Slot<real>, unknown54: Slot<real>,
    inertiaTensor: Slot<Vector>, inertiaTensorInv: Slot<Vector>, bounds: BoundComposite)

  function NewArchetype(): (a: Archetype)
    ensures a.bounds == NewBoundComposite()
    ensures a.bounds.typeName == "Composite" && KindNamed(a.bounds.typeName) == None
    ensures a.bounds.children == []
  {
    Archetype(BaseDefault, BaseDefault, BaseDefault, BaseDefault, BaseDefault, BaseDefault,
      BaseDefault, BaseDefault, BaseDefault, NewBoundComposite())
  }

  /** Which lower-detail model sets a drawable still carries. */
  datatype LowerModels = LowerModelsKept | LowerModelsCleared

  /**
   * `FragmentDrawable`: its `Matrix` slot, the object it was built from (the
   * drawable schema itself is not part of this model) and whether its
   * medium, low and very-low model sets are still present.
   */
  datatype FragmentDrawable = FragmentDrawable(matrix: Slot<Matrix>, builtFrom: Option<nat>, lowerModels: LowerModels)

  function NewFragmentDrawable(): (d: FragmentDrawable)
    ensures d.matrix == BaseDefault && d.builtFrom == None && d.lowerModels == LowerModelsKept
  {
    FragmentDrawable(BaseDefault, None, LowerModelsKept)
  }

  /** `ChildrenItem` */
  datatype ChildrenItem = ChildrenItem(
    groupIndex: Slot<int>, boneTag: Slot<real>, pristineMass: Slot<real>, damagedMass: Slot<real>,
    unkFloat: Slot<real>, unkVec: Slot<Vector>, inertiaTensor: Slot<Vector>, drawable: FragmentDrawable)

  function NewChildrenItem(): (c: ChildrenItem)
    ensures c.groupIndex == BaseDefault && c.drawable == NewFragmentDrawable()
  {
    ChildrenItem(BaseDefault, BaseDefault, BaseDefault, BaseDefault, BaseDefault, BaseDefault,
      BaseDefault, NewFragmentDrawable())
  }

  /**
   * The tuning values of a group record that the exporter copies as one
   * block from the object's group settings (every `GroupItem` value field
   * except the name, the parent index and `RestoringStrength`).
   */
  datatype GroupTuning = GroupTuning(
    glassWindowIndex: real, glassFlags: real, strength: real,
    forceTransmissionScaleUp: real, forceTransmissionScaleDown: real, jointStiffness: real,
    minSoftAngle1: real, maxSoftAngle1: real, maxSoftAngle2: real, maxSoftAngle3: real,
    rotationSpeed: real, rotationStrength: real, restoringMaxTorque: real, latchStrength: real,
    mass: real, minDamageForce: real, damageHealth: real,
    unkFloat5C: real, unkFloat60: real, unkFloat64: real, unkFloat68: real,
    unkFloat6C: real, unkFloat70: real, unkFloat74: real, unkFloat78: real, unkFloatA8: real)

  /** `GroupItem`; `tuning` stands for its 26 tuning value slots, all defaulted together. */
  datatype GroupItem = GroupItem(
    name: Slot<string>, parentIndex: Slot<int>, tuning: Slot<GroupTuning>, restoringStrength: Slot<real>)

  function NewGroupItem(): (g: GroupItem)
    ensures g.name == BaseDefault && g.parentIndex == BaseDefault
    ensures g.tuning == BaseDefault && g.restoringStrength == BaseDefault
  {
    GroupItem(BaseDefault, BaseDefault, BaseDefault, BaseDefault)
  }

  /** The LOD value and vector slots the exporter copies from the LOD object's settings. */
  datatype LodTuning = LodTuning(
    unknown14: real, unknown18: real, unknown1C: real, positionOffset: Vector3,
    unknown40: Vector, unknown50: Vector,
    dampingLinearC: Vector, dampingLinearV: Vector, dampingLinearV2: Vector,
    dampingAngularC: Vector, dampingAngularV: Vector, dampingAngularV2: Vector)

  /** `LODProperty`: tag, tuning, archetype, and the transform, group and child lists. */
  datatype LodProperty = LodProperty(
    tag: string, tuning: Slot<LodTuning>, archetype: Archetype,
    transforms: seq<MatrixItem>, groups: seq<GroupItem>, children: seq<ChildrenItem>)

  /** `LODProperty(tag_name)`; the class default tag is "LOD". */
  function NewLod(tag: string): (l: LodProperty)
    ensures l.tag == tag
    ensures l.transforms == [] && l.groups == [] && l.children == []
    ensures l.archetype == NewArchetype()
  {
    LodProperty(tag, BaseDefault, NewArchetype(), [], [], [])
  }

  /** The default tag of a LOD built without an argument. */
  const DefaultLodTag: string := "LOD"

  /** `PhysicsProperty`: three LOD slots; the exporter may leave any of them empty. */
  datatype Physics = Physics(lod1: Option<LodProperty>, lod2: Option<LodProperty>, lod3: Option<LodProperty>)

  /** A fresh physics block holds three empty LODs tagged "LOD1", "LOD2" and "LOD3". */
  function NewPhysics(): (p: Physics)
    ensures p.lod1 == Some(NewLod("LOD1")) && p.lod2 == Some(NewLod("LOD2")) && p.lod3 == Some(NewLod("LOD3"))
    ensures p.lod1.value.tag != DefaultLodTag
  {
    Physics(Some(NewLod("LOD1")), Some(NewLod("LOD2")), Some(NewLod("LOD3")))
  }

  // ---------------------------------------------------------------------
  // Shattermap

  /**
   * What `ShatterMapProperty.from_xml` reads from an element's text:
   * nothing when the text is missing or empty; otherwise the lines of the
   * stripped text, each stripped. A text of whitespace only is not empty,
   * so it reads as one empty row.
   */
  function ShatterRows(text: Option<string>): (rows: seq<string>)
    ensures text.None? || text.value == [] ==> rows == []
    ensures text.Some? && text.value != [] ==> |rows| >= 1
    ensures forall i :: 0 <= i < |rows| ==> Trimmed(rows[i])
  {
    if text.None? || text.value == [] then []
    else
      var lines := Split(Strip(text.value), '\n');
      seq(|lines|, i requires 0 <= i < |lines| => Strip(lines[i]))
  }

  /** `ShatterMapProperty.from_xml` */
  method ShatterMapFromXml(e: Node) returns (rows: seq<string>)
    ensures rows == ShatterRows(e.text)
  {
    rows := [];
    if e.text.Some? && e.text.value != [] {
      var txt := Split(Strip(e.text.value), '\n');
      var i := 0;
      while i < |txt|
        invariant 0 <= i <= |txt|
        invariant |rows| == i
        invariant forall k :: 0 <= k < i ==> rows[k] == Strip(txt[k])
      {
        rows := rows + [Strip(txt[i])];
        i := i + 1;
      }
    }
  }

  /** `ShatterMapProperty.to_xml`: the rows joined by newlines, no trailing newline. */
  method ShatterMapToXml(tag: string, rows: seq<string>) returns (e: Node)
    ensures e == TextElement(tag, Some(Join(rows, "\n")))
  {
    var text: seq<string> := [];
    for i := 0 to |rows|
      invariant text == rows[..i]
    {
      text := text + [rows[i]];
    }
    assert text == rows;
    e := TextElement(tag, Some(Join(text, "\n")));
  }

  /** Rows the codec writes and reads back unchanged: trimmed, one line each. */
  predicate PlainRows(rows: seq<string>) {
    forall i :: 0 <= i < |rows| ==> Trimmed(rows[i]) && '\n' !in rows[i]
  }

  /** A join of non-empty parts ends with its last part. */
  lemma {:induction false} JoinEndsWithLast(rows: seq<string>, sep: string)
    requires |rows| >= 1 && rows[|rows| - 1] != []
    ensures var j := Join(rows, sep); |j| >= 1 && j[|j| - 1] == rows[|rows| - 1][|rows[|rows| - 1]| - 1]
  {
  }

  /** The joined text of plain rows with non-empty first and last rows is already trimmed. */
  lemma {:induction false} JoinedRowsTrimmed(rows: seq<string>)
    requires |rows| >= 1 && PlainRows(rows)
    requires rows[0] != [] && rows[|rows| - 1] != []
    ensures Join(rows, "\n") != [] && Trimmed(Join(rows, "\n"))
  {
    JoinPrefix(rows, "\n");
    JoinEndsWithLast(rows, "\n");
    var j := Join(rows, "\n");
    assert j[0] == j[..|rows[0]|][0];
  }

  /** Reading the lines of a trimmed join gives the rows back. */
  lemma {:induction false} ReadJoinedRows(rows: seq<string>, text: string)
    requires |rows| >= 1 && PlainRows(rows)
    requires Strip(text) == Join(rows, "\n") && text != []
    ensures ShatterRows(Some(text)) == rows
  {
    SplitJoin(rows, '\n');
    var lines := Split(Strip(text), '\n');
    assert lines == rows;
    forall i | 0 <= i < |rows| ensures Strip(lines[i]) == rows[i] {
      StripTrimmed(rows[i]);
    }
  }

  /**
   * Shattermap round trip: plain rows whose first and last rows are not
   * empty (or no rows at all) are read back exactly as written.
   */
  lemma {:induction false} ShatterRoundTrip(rows: seq<string>)
    requires PlainRows(rows)
    requires rows == [] || (rows[0] != [] && rows[|rows| - 1] != [])
    ensures ShatterRows(Some(Join(rows, "\n"))) == rows
  {
    if rows != [] {
      JoinedRowsTrimmed(rows);
      StripTrimmed(Join(rows, "\n"));
      ReadJoinedRows(rows, Join(rows, "\n"));
    }
  }

  /** Empty rows at either end do not survive a write and a read. */
  lemma {:induction false} ShatterEdgeRowsLost(rows: seq<string>)
    requires |rows| >= 1 && PlainRows(rows)
    requires rows[0] != [] && rows[|rows| - 1] != []
    ensures ShatterRows(Some(Join([""] + rows + [""], "\n"))) == rows
    ensures ShatterRows(Some(Join([""], "\n"))) == []
  {
    var j := Join(rows, "\n");
    PaddedJoin(rows);
    JoinedRowsTrimmed(rows);
    StripPadded("\n", j, "\n");
    ReadJoinedRows(rows, "\n" + j + "\n");
  }

  /** Empty rows at both ends put a newline at both ends of the joined text. */
  lemma {:induction false} PaddedJoin(rows: seq<string>)
    requires |rows| >= 1
    ensures Join([""] + rows + [""], "\n") == "\n" + Join(rows, "\n") + "\n"
  {
    var tail := rows + [""];
    assert tail[..|tail| - 1] == rows;
    assert Join(tail, "\n") == Join(rows, "\n") + "\n";
    JoinCons("", tail, "\n");
    assert [""] + rows + [""] == [""] + tail;
  }

  /** Text of whitespace only is not empty: it reads as a single empty row. */
  lemma {:induction false} BlankShatterText(text: string)
    requires text != [] && AllSpace(text)
    ensures ShatterRows(Some(text)) == [""]
  {
    StripBlank(text);
  }

  // ---------------------------------------------------------------------
  // Windows

  /** `WindowItem`; the shattermap is held as its rows (the default empty value has none). */
  datatype WindowItem = WindowItem(
    itemId: Slot<int>, unkUshort1: Slot<real>, unkUshort4: Slot<real>, unkUshort5: Slot<real>,
    projection: Slot<Matrix>, unkFloat17: Slot<real>, unkFloat18: Slot<real>,
    cracksTextureTiling: Slot<real>, shattermap: seq<string>)

  function NewWindowItem(): (w: WindowItem)
    ensures w.itemId == BaseDefault && w.shattermap == []
  {
    WindowItem(BaseDefault, BaseDefault, BaseDefault, BaseDefault, BaseDefault, BaseDefault,
      BaseDefault, BaseDefault, [])
  }

  /** `WindowItem.height`: the number of shattermap rows. */
  function Height(w: WindowItem): (h: nat)
    ensures h == |w.shattermap|
    ensures h == 0 <==> w.shattermap == []
  {
    if w.shattermap != [] then |w.shattermap| else 0
  }

  /** `WindowItem.width`: the length of the first row, and 0 whenever there are no rows. */
  function Width(w: WindowItem): (n: nat)
    ensures Height(w) == 0 ==> n == 0
    ensures Height(w) > 0 ==> n == |w.shattermap[0]|
  {
    if Height(w) > 0 then |w.shattermap[0]| else 0
  }

  /**
   * A window whose shattermap was written and read back reports the size
   * of the grid written, for rows the codec carries unchanged.
   */
  lemma {:induction false} WindowSizeSurvivesCodec(w: WindowItem, rows: seq<string>)
    requires |rows| >= 1 && PlainRows(rows)
    requires rows[0] != [] && rows[|rows| - 1] != []
    requires w.shattermap == ShatterRows(Some(Join(rows, "\n")))
    ensures Height(w) == |rows| && Width(w) == |rows[0]|
  {
    ShatterRoundTrip(rows);
  }

  /** A window read from blank shattermap text has height 1 and width 0. */
  lemma {:induction false} BlankWindowSize(w: WindowItem, text: string)
    requires text != [] && AllSpace(text)
    requires w.shattermap == ShatterRows(Some(text))
    ensures Height(w) == 1 && Width(w) == 0
  {
    BlankShatterText(text);
  }

  /** `VehicleGlassWindows` */
  datatype VehicleGlassWindows = VehicleGlassWindows(tag: string, items: seq<WindowItem>)

  // ---------------------------------------------------------------------
  // The fragment

  /** `Fragment`: its value slots, drawable, bone transforms, physics and glass windows. */
  datatype Fragment = Fragment(
    name: Slot<string>, boundingSphereCenter: Slot<Vector>, boundingSphereRadius: Slot<real>,
    unknownB0: Slot<real>, unknownB8: Slot<real>, unknownBC: Slot<real>, unknownC0: Slot<real>,
    unknownC4: Slot<real>, unknownCC: Slot<real>, gravityFactor: Slot<real>, buoyancyFactor: Slot<real>,
    drawable: FragmentDrawable, boneTransforms: BoneTransformsList, physics: Physics,
    windows: VehicleGlassWindows)

  function NewFragment(): (f: Fragment)
    ensures f.name == BaseDefault && f.drawable == NewFragmentDrawable()
    ensures f.boneTransforms == NewBoneTransformsList(None) && f.boneTransforms.unk == 1
    ensures f.physics == NewPhysics()
    ensures f.windows.tag == "VehicleGlassWindows" && f.windows.items == []
  {
    Fragment(BaseDefault, BaseDefault, BaseDefault, BaseDefault, BaseDefault, BaseDefault,
      BaseDefault, BaseDefault, BaseDefault, BaseDefault, BaseDefault,
      NewFragmentDrawable(), NewBoneTransformsList(None), NewPhysics(),
      VehicleGlassWindows("VehicleGlassWindows", []))
  }
}
