/**
 * The collision-bound schema: the bound records with their declared
 * defaults and `type` discriminators, the polygon records, the custom text
 * codecs for vertices, vertex colours and octants, and the two
 * polymorphic list readers.
 */
module Bound {
  import opened Wrappers
  import opened Text
  import opened Decimal
  import opened Xml
  import opened Rows
  import opened Slots

  /**
   * How reading an element's text can fail: its text is missing (calling
   * `strip()` on None raises), a line has the wrong number of fields (the
   * codec's read-value error for the element), or a number does not parse
   * (`float()` / `int()` raise).
   */
  datatype CodecError = MissingText(tag: string) | ReadValueError(tag: string) | InvalidNumber(token: string)

  // ---------------------------------------------------------------------
  // Records

  /** The fields every bound declares, with their defaults. */
  datatype BoundFields = BoundFields(
    boxMin: Slot<Vector>, boxMax: Slot<Vector>, boxCenter: Slot<Vector>, sphereCenter: Slot<Vector>,
    sphereRadius: Slot<real>, margin: Slot<real>, volume: Slot<real>, inertia: Slot<Vector>,
    materialIndex: Slot<real>, materialColourIndex: Slot<real>, proceduralId: Slot<real>,
    roomId: Slot<real>, pedDensity: Slot<real>, unkFlags: Slot<real>, polyFlags: Slot<real>,
    unkType: Slot<real>)

  function NewBoundFields(): BoundFields {
    BoundFields(BaseDefault, BaseDefault, BaseDefault, BaseDefault,
      Given(0.0), Given(0.0), Given(0.0), BaseDefault,
      Given(0.0), Given(0.0), Given(0.0), Given(0.0), Given(0.0), Given(0.0), Given(0.0), Given(0.0))
  }

  /** The eight concrete kinds a bound list item can be. */
  datatype BoundKind = BoxBound | SphereBound | CapsuleBound | CylinderBound | DiscBound
                     | ClothBound | GeometryBound | GeometryBVHBound

  /** The `type` attribute each kind declares; none is the composite's "Composite". */
  function TypeName(k: BoundKind): (r: string)
    ensures r != "Composite"
  {
    match k
    case BoxBound => "Box"
    case SphereBound => "Sphere"
    case CapsuleBound => "Capsule"
    case CylinderBound => "Cylinder"
    case DiscBound => "Disc"
    case ClothBound => "Cloth"
    case GeometryBound => "Geometry"
    case GeometryBVHBound => "GeometryBVH"
  }

  /** No two kinds declare the same `type`. */
  lemma {:induction false} TypeNameInjective(j: BoundKind, k: BoundKind)
    requires j != k
    ensures TypeName(j) != TypeName(k)
  {
  }

  /** The kind the bound list reader chooses for a `type` attribute, if any. */
  function KindNamed(name: string): (r: Option<BoundKind>)
    ensures r.Some? ==> TypeName(r.value) == name
  {
    if name == "Box" then Some(BoxBound)
    else if name == "Sphere" then Some(SphereBound)
    else if name == "Capsule" then Some(CapsuleBound)
    else if name == "Cylinder" then Some(CylinderBound)
    else if name == "Disc" then Some(DiscBound)
    else if name == "Cloth" then Some(ClothBound)
    else if name == "Geometry" then Some(GeometryBound)
    else if name == "GeometryBVH" then Some(GeometryBVHBound)
    else None
  }

  /** A `type` string names kind `k` exactly when it is that kind's own `type`. */
  lemma {:induction false} KindNamedExact(name: string, k: BoundKind)
    ensures KindNamed(name) == Some(k) <==> name == TypeName(k)
  {
  }

  /** A material entry of a geometry bound. */
  datatype MaterialItem = MaterialItem(
    materialType: Slot<real>, proceduralId: Slot<real>, roomId: Slot<real>, pedDensity: Slot<real>,
    flags: Slot<Flags>, materialColourIndex: Slot<real>, unk: Slot<real>)

  function NewMaterialItem(): MaterialItem {
    MaterialItem(Given(0.0), Given(0.0), Given(0.0), Given(0.0), BaseDefault, Given(0.0), Given(0.0))
  }

  /** The fields `Geometry` adds to `GeometryBVH`. */
  datatype GeometryExtra = GeometryExtra(
    unkFloat1: Slot<real>, unkFloat2: Slot<real>, vertices2: seq<Vector>, octants: seq<seq<int>>)

  /** The fields of the two geometry kinds. */
  datatype GeometryFields = GeometryFields(
    geometryCenter: Slot<Vector>, materials: seq<MaterialItem>, vertices: seq<Vector>,
    vertexColours: seq<seq<real>>, polygons: seq<Polygon>, extra: Option<GeometryExtra>)

  /** A bound list item (`BoundItem` and its subclasses). */
  datatype BoundItem = BoundItem(
    tag: string, typeName: string, fields: BoundFields, compositeTransform: Slot<Matrix>,
    compositeFlags1: Slot<Flags>, compositeFlags2: Slot<Flags>, geometry: Option<GeometryFields>)

  /** A freshly constructed item of kind `k`. */
  function NewBoundItem(k: BoundKind): (b: BoundItem)
    ensures b.tag == "Item"
    ensures KindNamed(b.typeName) == Some(k)
    ensures b.geometry.Some? <==> k == GeometryBound || k == GeometryBVHBound
    ensures b.geometry.Some? ==> (b.geometry.value.extra.Some? <==> k == GeometryBound)
    ensures b.geometry.Some? ==> b.geometry.value.vertices == [] && b.geometry.value.polygons == []
  {
    var geometry :=
      if k == GeometryBound || k == GeometryBVHBound then
        Some(GeometryFields(BaseDefault, [], [], [], [],
          if k == GeometryBound then Some(GeometryExtra(BaseDefault, BaseDefault, [], [])) else None))
      else None;
    BoundItem("Item", TypeName(k), NewBoundFields(), BaseDefault, BaseDefault, BaseDefault, geometry)
  }

  /** The composite that holds a list of bound items. */
  datatype BoundComposite = BoundComposite(tag: string, typeName: string, fields: BoundFields, children: seq<BoundItem>)

  /** A fresh composite: its `type` is "Composite", which no list item kind answers to. */
  function NewBoundComposite(): (c: BoundComposite)
    ensures c.tag == "Bounds" && c.children == []
    ensures c.typeName == "Composite" && KindNamed(c.typeName) == None
  {
    BoundComposite("Bounds", "Composite", NewBoundFields(), [])
  }

  // ---------------------------------------------------------------------
  // Polygons

  datatype PolygonKind = BoxPoly | SpherePoly | CapsulePoly | CylinderPoly | TrianglePoly

  /** A polygon record; `m` is the material index attribute. */
  datatype Polygon =
    | Triangle(m: int, v1: int, v2: int, v3: int, f1: int, f2: int, f3: int)
    | Sphere(m: int, v: int, radius: int)
    | Capsule(m: int, v1: int, v2: int, radius: int)
    | Box(m: int, v1: int, v2: int, v3: int, v4: int)
    | Cylinder(m: int, v1: int, v2: int, radius: int)

  /** The element tag each polygon kind is written under. */
  function PolygonTag(k: PolygonKind): string {
    match k
    case BoxPoly => "Box"
    case SpherePoly => "Sphere"
    case CapsulePoly => "Capsule"
    case CylinderPoly => "Cylinder"
    case TrianglePoly => "Triangle"
  }

  /** No two polygon kinds are written under the same tag. */
  lemma {:induction false} PolygonTagInjective(j: PolygonKind, k: PolygonKind)
    requires j != k
    ensures PolygonTag(j) != PolygonTag(k)
  {
  }

  /** The kind the polygon list reader chooses for an element, by its tag. */
  function PolygonKindOf(n: Node): (r: Option<PolygonKind>)
    ensures r.Some? ==> PolygonTag(r.value) == n.tag
  {
    if n.tag == "Box" then Some(BoxPoly)
    else if n.tag == "Sphere" then Some(SpherePoly)
    else if n.tag == "Capsule" then Some(CapsulePoly)
    else if n.tag == "Cylinder" then Some(CylinderPoly)
    else if n.tag == "Triangle" then Some(TrianglePoly)
    else None
  }

  /** An element is read as polygon kind `k` exactly when its tag is that kind's, whatever its attributes. */
  lemma {:induction false} PolygonKindOfTag(k: PolygonKind, n: Node)
    ensures PolygonKindOf(n) == Some(k) <==> n.tag == PolygonTag(k)
  {
  }

  /** The vertex indices a polygon refers to. */
  function VertexIndices(p: Polygon): seq<int> {
    match p
    case Triangle(_, v1, v2, v3, _, _, _) => [v1, v2, v3]
    case Sphere(_, v, _) => [v]
    case Capsule(_, v1, v2, _) => [v1, v2]
    case Box(_, v1, v2, v3, v4) => [v1, v2, v3, v4]
    case Cylinder(_, v1, v2, _) => [v1, v2]
  }

  /** A freshly constructed polygon of kind `k`. */
  function NewPolygon(k: PolygonKind): (p: Polygon)
    ensures p.m == 0
    ensures PolygonKindOf(Node(PolygonTag(k), map[], None, [])) == Some(k)
    ensures k == TrianglePoly ==> p.Triangle? && p.f1 == 0 && p.f2 == 0 && p.f3 == 0
    ensures k == SpherePoly ==> p.Sphere? && p.radius == 0
    ensures k == CapsulePoly ==> p.Capsule? && p.radius == 0
    ensures k == CylinderPoly ==> p.Cylinder? && p.radius == 0
    ensures k == BoxPoly ==> p.Box?
  {
    match k
    case TrianglePoly => Triangle(0, 0, 0, 0, 0, 0, 0)
    case SpherePoly => Sphere(0, 0, 0)
    case CapsulePoly => Capsule(0, 0, 1, 0)
    case BoxPoly => Box(0, 0, 1, 2, 3)
    case CylinderPoly => Cylinder(0, 0, 1, 0)
  }

  /**
   * The default vertex indices: Box, Capsule and Cylinder number their
   * corners 0, 1, ... in order, a Triangle and a Sphere point all at vertex 0.
   */
  lemma {:induction false} DefaultVertexIndices(k: PolygonKind)
    ensures var vs := VertexIndices(NewPolygon(k));
      (k == BoxPoly || k == CapsulePoly || k == CylinderPoly ==>
        forall i :: 0 <= i < |vs| ==> vs[i] == i)
      && (k == TrianglePoly || k == SpherePoly ==> forall i :: 0 <= i < |vs| ==> vs[i] == 0)
      && |vs| == (match k case BoxPoly => 4 case TrianglePoly => 3 case SpherePoly => 1 case _ => 2)
  {
  }

  // ---------------------------------------------------------------------
  // Comma-row codecs (vertices and vertex colours)

  /** What reading an element with the comma-row format gives. */
  function RowsOf(f: Format, arity: nat, e: Node): (r: Result<seq<seq<real>>, CodecError>)
    ensures e.text.None? ==> r == Err(MissingText(e.tag))
  {
    match e.text
    case None => Err(MissingText(e.tag))
    case Some(t) =>
      match ReadText(f, arity, t)
      case Ok(rows) => Ok(rows)
      case Err(WrongFieldCount(_)) => Err(ReadValueError(e.tag))
      case Err(BadNumber(token)) => Err(InvalidNumber(token))
  }

  /** Every row read has exactly `arity` numbers. */
  lemma {:induction false} RowsOfArity(f: Format, arity: nat, e: Node)
    requires RowsOf(f, arity, e).Ok?
    ensures forall i :: 0 <= i < |RowsOf(f, arity, e).value| ==> |RowsOf(f, arity, e).value[i]| == arity
  {
    var rows := RowsOf(f, arity, e).value;
    var lines := Lines(e.text.value);
    forall i | 0 <= i < |rows| ensures |rows[i]| == arity {
      assert ReadRow(f, arity, lines[i]) == Ok(rows[i]);
    }
  }

  /** Reading stops with the error of the first line that does not read. */
  lemma {:induction false} RowsOfFirstError(f: Format, arity: nat, e: Node, i: nat)
    requires e.text.Some? && i < |Lines(e.text.value)|
    requires FirstBadRow(f, arity, Lines(e.text.value), i)
    ensures ReadRow(f, arity, Lines(e.text.value)[i]).error.WrongFieldCount? ==>
      RowsOf(f, arity, e) == Err(ReadValueError(e.tag))
    ensures ReadRow(f, arity, Lines(e.text.value)[i]).error.BadNumber? ==>
      RowsOf(f, arity, e) == Err(InvalidNumber(ReadRow(f, arity, Lines(e.text.value)[i]).error.token))
  {
    FirstRowErrorWins(f, arity, Lines(e.text.value), i);
  }

  /** When every line reads, reading gives the rows in line order. */
  lemma {:induction false} RowsOfAllRead(f: Format, arity: nat, e: Node, rows: seq<seq<real>>)
    requires e.text.Some? && |rows| == |Lines(e.text.value)|
    requires forall j :: 0 <= j < |rows| ==> ReadRow(f, arity, Lines(e.text.value)[j]) == Ok(rows[j])
    ensures RowsOf(f, arity, e) == Ok(rows)
  {
    LinesRead(f, arity, Lines(e.text.value), rows);
  }

  /**
   * The reading loop shared by the vertex and vertex-colour codecs: one row
   * per line of the stripped text, appended in order, and the first bad
   * line ends the read with an error.
   */
  method RowsFromXml(f: Format, arity: nat, e: Node) returns (r: Result<seq<seq<real>>, CodecError>)
    ensures r == RowsOf(f, arity, e)
  {
    if e.text.None? {
      return Err(MissingText(e.tag));
    }
    var lines := Lines(e.text.value);
    var value: seq<seq<real>> := [];
    var i := 0;
    while i < |lines|
      invariant 0 <= i <= |lines|
      invariant |value| == i
      invariant forall j :: 0 <= j < i ==> ReadRow(f, arity, lines[j]) == Ok(value[j])
    {
      var fields := Split(Strip(lines[i]), ',');
      if |fields| != arity {
        RowsOfFirstError(f, arity, e, i);
        return Err(ReadValueError(e.tag));
      }
      var row := ReadFields(f, fields);
      if row.Err? {
        RowsOfFirstError(f, arity, e, i);
        return Err(InvalidNumber(row.error.token));
      }
      value := value + [row.value];
      i := i + 1;
    }
    RowsOfAllRead(f, arity, e, value);
    return Ok(value);
  }

  /** The first `index` numbers of a row as written so far, with the separator that follows them. */
  ghost function PartialLine(f: Format, row: seq<real>, index: nat): string
    requires index <= |row|
  {
    Join(Shown(f, row[..index]), ", ") + (if 0 < index < |row| then ", " else "")
  }

  /** Writing one more number extends the partial line. */
  lemma {:induction false} PartialLineStep(f: Format, row: seq<real>, index: nat)
    requires index < |row|
    ensures PartialLine(f, row, index + 1) ==
      PartialLine(f, row, index) + f.show(row[index]) + (if index < |row| - 1 then ", " else "")
  {
    var before := Shown(f, row[..index]);
    var after := Shown(f, row[..index + 1]);
    assert after[..index] == before;
    assert after[index] == f.show(row[index]);
  }

  /** Once every number is written, the partial line is the row's line. */
  lemma {:induction false} PartialLineDone(f: Format, row: seq<real>)
    ensures PartialLine(f, row, |row|) == RowLine(f, row)
  {
    assert row[..|row|] == row;
  }

  /** The body written for one more row ends with that row's line. */
  lemma {:induction false} RowsBodyStep(f: Format, rows: seq<seq<real>>, i: nat)
    requires i < |rows|
    ensures RowsBody(f, rows[..i + 1]) == RowsBody(f, rows[..i]) + RowLine(f, rows[i]) + "\n"
  {
    assert rows[..i + 1][..i] == rows[..i];
  }

  /** The inner writing loop: a row's numbers, separated by ", ". */
  method RowToText(f: Format, row: seq<real>) returns (line: string)
    ensures line == RowLine(f, row)
  {
    line := "";
    var index := 0;
    while index < |row|
      invariant 0 <= index <= |row|
      invariant line == PartialLine(f, row, index)
    {
      PartialLineStep(f, row, index);
      line := line + f.show(row[index]);
      if index < |row| - 1 {
        line := line + ", ";
      }
      index := index + 1;
    }
    PartialLineDone(f, row);
  }

  /**
   * The writing loop shared by the vertex and vertex-colour codecs: "\n",
   * then per row its numbers separated by ", " and a closing "\n".
   */
  method RowsToXml(f: Format, tag: string, rows: seq<seq<real>>) returns (e: Node)
    ensures e == TextElement(tag, Some(RowsText(f, rows)))
  {
    var text := "\n";
    var i := 0;
    while i < |rows|
      invariant 0 <= i <= |rows|
      invariant text == "\n" + RowsBody(f, rows[..i])
    {
      var line := RowToText(f, rows[i]);
      RowsBodyStep(f, rows, i);
      text := text + line + "\n";
      i := i + 1;
    }
    assert rows[..|rows|] == rows;
    e := TextElement(tag, Some(text));
  }

  /** `VerticesProperty.from_xml`: three numbers per line. */
  method VerticesFromXml(f: Format, e: Node) returns (r: Result<seq<Vector>, CodecError>)
    ensures r == RowsOf(f, 3, e)
  {
    r := RowsFromXml(f, 3, e);
  }

  /** `VerticesProperty.to_xml` */
  method VerticesToXml(f: Format, tag: string, vertices: seq<Vector>) returns (e: Node)
    ensures e == TextElement(tag, Some(RowsText(f, vertices)))
  {
    e := RowsToXml(f, tag, vertices);
  }

  /** Whitespace-only vertex text is one empty line, which is not three fields. */
  lemma {:induction false} BlankVerticesFail(f: Format, e: Node)
    requires e.text.Some? && AllSpace(e.text.value)
    ensures RowsOf(f, 3, e) == Err(ReadValueError(e.tag))
  {
    BlankTextFails(f, 3, e.text.value);
  }

  /**
   * Writing a non-empty vertex list and reading the element back gives the
   * same number of vertices, in order, each component replaced by what its
   * written form reads as; with a float format that reads back exactly,
   * the same vertices.
   */
  lemma {:induction false} VerticesRoundTrip(f: Format, tag: string, vertices: seq<Vector>)
    requires Printable(f) && |vertices| >= 1
    requires forall i :: 0 <= i < |vertices| ==> |vertices[i]| == 3
    ensures RowsOf(f, 3, TextElement(tag, Some(RowsText(f, vertices)))) == Ok(RereadRows(f, vertices))
    ensures Faithful(f) ==> RowsOf(f, 3, TextElement(tag, Some(RowsText(f, vertices)))) == Ok(vertices)
  {
    RoundTrip(f, vertices, 3);
    if Faithful(f) {
      FaithfulRoundTrip(f, vertices, 3);
    }
  }

  /** An empty vertex list is written as "\n", which reads back as an error. */
  lemma {:induction false} EmptyVerticesFail(f: Format, tag: string)
    ensures RowsText(f, []) == "\n"
    ensures RowsOf(f, 3, TextElement(tag, Some(RowsText(f, [])))) == Err(ReadValueError(tag))
  {
    EmptyDoesNotRoundTrip(f, 3);
  }

  /** `int(token)`: a colour channel is read as an unscaled integer. */
  function ParseChannel(token: string): (r: Option<real>)
    ensures r.Some? <==> ParseInt(token).Some?
    ensures r.Some? ==> r.value == ParseInt(token).value as real
  {
    match ParseInt(token)
    case Some(n) => Some(n as real)
    case None => None
  }

  /** `str(int(component * 255))`: a colour channel is written scaled by 255 and truncated. */
  function ShowChannel(c: real): (t: string)
    ensures ParseInt(t) == Some(Trunc(c * 255.0))
  {
    IntRoundTrip(Trunc(c * 255.0));
    IntToString(Trunc(c * 255.0))
  }

  const ColourFormat := Format(ParseChannel, ShowChannel)

  /** Channels are written as tokens that read back. */
  lemma {:induction false} ColourFormatPrintable()
    ensures Printable(ColourFormat)
  {
    forall x: real ensures IsToken(ShowChannel(x)) && ParseChannel(ShowChannel(x)).Some? {
      var t := ShowChannel(x);
      assert forall i :: 0 <= i < |t| ==> IsDigit(t[i]) || t[i] == '-';
    }
  }

  /** A channel reads back as 255 times itself, truncated toward zero. */
  lemma {:induction false} ColourReread(c: real)
    ensures ColourFormat.parse(ColourFormat.show(c)) == Some(Trunc(c * 255.0) as real)
  {
  }

  /** Every row holds `arity` whole numbers. */
  predicate WholeRows(rows: seq<seq<real>>, arity: nat) {
    forall i :: 0 <= i < |rows| ==> (|rows[i]| == arity &&
      forall j :: 0 <= j < arity ==> Whole(rows[i][j]))
  }

  /** A number is whole when it equals its own floor. */
  predicate Whole(x: real) {
    x == x.Floor as real
  }

  /** Colour rows read from any element are four whole numbers each. */
  lemma {:induction false} ColoursWhole(e: Node)
    requires RowsOf(ColourFormat, 4, e).Ok?
    ensures WholeRows(RowsOf(ColourFormat, 4, e).value, 4)
  {
    var lines := Lines(e.text.value);
    assert forall t :: ColourFormat.parse(t).Some? ==> Whole(ColourFormat.parse(t).value);
    ReadValues(ColourFormat, 4, lines, Whole);
  }

  /** `VertexColorProperty.from_xml`: four integers per line, not scaled. */
  method ColoursFromXml(e: Node) returns (r: Result<seq<seq<real>>, CodecError>)
    ensures r == RowsOf(ColourFormat, 4, e)
    ensures r.Ok? ==> WholeRows(r.value, 4)
  {
    r := RowsFromXml(ColourFormat, 4, e);
    if r.Ok? {
      ColoursWhole(e);
    }
  }

  /** `VertexColorProperty.to_xml`: no element at all for an empty list. */
  method ColoursToXml(tag: string, colours: seq<seq<real>>) returns (e: Option<Node>)
    ensures colours == [] <==> e.None?
    ensures e.Some? ==> e.value == TextElement(tag, Some(RowsText(ColourFormat, colours)))
  {
    if |colours| == 0 {
      return None;
    }
    var element := RowsToXml(ColourFormat, tag, colours);
    return Some(element);
  }

  /** Each channel of a colour scaled by 255 and truncated, as the writer emits it. */
  function ScaledColour(colour: seq<real>): (r: seq<real>)
    ensures |r| == |colour|
  {
    seq(|colour|, j requires 0 <= j < |colour| => Trunc(colour[j] * 255.0) as real)
  }

  /** Every colour of a list scaled. */
  function Scaled(colours: seq<seq<real>>): (r: seq<seq<real>>)
    ensures |r| == |colours|
  {
    seq(|colours|, i requires 0 <= i < |colours| => ScaledColour(colours[i]))
  }

  /** A written colour reads back scaled. */
  lemma {:induction false} ColourRereadScaled(colour: seq<real>)
    ensures Printable(ColourFormat)
    ensures RereadRow(ColourFormat, colour) == ScaledColour(colour)
  {
    ColourFormatPrintable();
    forall j | 0 <= j < |colour| ensures RereadRow(ColourFormat, colour)[j] == ScaledColour(colour)[j] {
      ColourReread(colour[j]);
    }
  }

  /**
   * Writing a non-empty colour list and reading it back gives every channel
   * multiplied by 255 and truncated: the reader does not divide.
   */
  lemma {:induction false} ColoursRoundTripScales(tag: string, colours: seq<seq<real>>)
    requires |colours| >= 1
    requires forall i :: 0 <= i < |colours| ==> |colours[i]| == 4
    ensures RowsOf(ColourFormat, 4, TextElement(tag, Some(RowsText(ColourFormat, colours)))) == Ok(Scaled(colours))
  {
    ColourFormatPrintable();
    RoundTrip(ColourFormat, colours, 4);
    assert RereadRows(ColourFormat, colours) == Scaled(colours) by {
      forall i | 0 <= i < |colours| ensures RereadRows(ColourFormat, colours)[i] == Scaled(colours)[i] {
        ColourRereadScaled(colours[i]);
      }
    }
  }

  /** A channel read as the integer n is written back as 255 * n. */
  lemma {:induction false} ReadChannelWrittenScaled(n: int)
    ensures ColourFormat.show(n as real) == IntToString(255 * n)
  {
    assert (n as real) * 255.0 == (255 * n) as real;
  }

  /** A channel in [0, 1] is written as an integer in [0, 255]. */
  lemma {:induction false} ChannelWrittenInRange(c: real)
    requires 0.0 <= c <= 1.0
    ensures ParseInt(ColourFormat.show(c)) == Some(Trunc(c * 255.0))
    ensures 0 <= Trunc(c * 255.0) <= 255
  {
    ChannelInRange(c);
  }

  // ---------------------------------------------------------------------
  // Octants

  /** The octant reader's tokens: spaces removed, newlines turned into commas, split on commas. */
  function OctantTokens(text: string): (ts: seq<string>)
    ensures |ts| >= 1
  {
    Split(Replace(Replace(Strip(text), " ", ""), "\n", ","), ',')
  }

  /** `int(t)`, which ignores whitespace around the digits. */
  function IntToken(t: string): Option<int> {
    ParseInt(Strip(t))
  }

  /** A token that holds a position but does not convert: `if i: int(i)` raises. */
  predicate BadToken(t: string) {
    t != "" && IntToken(t).None?
  }

  /** The first element of `ts` that satisfies `p`, if any. */
  function FirstWhere<T>(ts: seq<T>, p: T -> bool): (r: Option<T>)
    ensures r.Some? ==> r.value in ts && p(r.value)
  {
    if ts == [] then None
    else
      var init := ts[..|ts| - 1];
      var last := ts[|ts| - 1];
      match FirstWhere(init, p)
      case Some(b) => Some(b)
      case None => if p(last) then Some(last) else None
  }

  /** Nothing is found exactly when no element satisfies `p`. */
  lemma {:induction false} FirstWhereNone<T>(ts: seq<T>, p: T -> bool)
    ensures FirstWhere(ts, p).None? <==> forall i :: 0 <= i < |ts| ==> !p(ts[i])
  {
    if ts != [] {
      var init := ts[..|ts| - 1];
      FirstWhereNone(init, p);
      assert forall i :: 0 <= i < |init| ==> init[i] == ts[i];
    }
  }

  /** The first match stays the first whatever follows it. */
  lemma {:induction false} FirstWhereKept<T>(a: seq<T>, b: seq<T>, p: T -> bool)
    requires FirstWhere(a, p).Some?
    ensures FirstWhere(a + b, p) == FirstWhere(a, p)
    decreases |b|
  {
    if b != [] {
      var b' := b[..|b| - 1];
      FirstWhereKept(a, b', p);
      assert (a + b)[..|a + b| - 1] == a + b';
    } else {
      assert a + b == a;
    }
  }

  /** An element satisfying `p` after a stretch with no match is the first match. */
  lemma {:induction false} FirstWhereAt<T>(ts: seq<T>, idx: nat, p: T -> bool)
    requires idx < |ts| && FirstWhere(ts[..idx], p) == None && p(ts[idx])
    ensures FirstWhere(ts, p) == Some(ts[idx])
  {
    var pre := ts[..idx + 1];
    assert pre[..idx] == ts[..idx] && pre[idx] == ts[idx];
    assert FirstWhere(pre, p) == Some(ts[idx]);
    FirstWhereKept(pre, ts[idx + 1..], p);
    assert pre + ts[idx + 1..] == ts;
  }

  /** The first token that does not convert, if any. */
  function FirstBadToken(ts: seq<string>): Option<string> {
    FirstWhere(ts, BadToken)
  }

  /** What one token adds to its group: nothing when empty, else its integer. */
  function TokenIndices(t: string): (vs: seq<int>)
    ensures |vs| <= 1
  {
    if t == "" then [] else match IntToken(t) case Some(v) => [v] case None => []
  }

  /** A token that converts adds its integer to the group and is not bad. */
  lemma {:induction false} TokenConverts(t: string)
    requires t != "" && IntToken(t).Some?
    ensures TokenIndices(t) == [IntToken(t).value] && !BadToken(t)
  {
  }

  /** The indices of a run of tokens: empty tokens are skipped. */
  function GroupValues(ts: seq<string>): (vs: seq<int>)
    ensures |vs| <= |ts|
  {
    if ts == [] then [] else GroupValues(ts[..|ts| - 1]) + TokenIndices(ts[|ts| - 1])
  }

  /** How many groups the reader pushes for n tokens: one each time a new group of three starts. */
  function GroupCount(n: nat): (c: nat)
    ensures 3 * c <= n
    ensures n > 0 ==> n <= 3 * c + 3
  {
    if n == 0 then 0 else (n - 1) / 3
  }

  /** The first `count` groups of three positions. */
  function Groups(ts: seq<string>, count: nat): (gs: seq<seq<int>>)
    requires 3 * count <= |ts|
    ensures |gs| == count
    ensures forall k :: 0 <= k < count ==> |gs[k]| <= 3
  {
    seq(count, k requires 0 <= k < count => GroupValues(ts[3 * k..3 * k + 3]))
  }

  /**
   * What `OctantsProperty.from_xml` gives: no text or empty text is no
   * octants; a token that does not convert raises; otherwise the groups of
   * three positions, where only the groups that a following group closes
   * are kept, so the last one is always lost.
   */
  function Octants(text: Option<string>): (r: Result<seq<seq<int>>, CodecError>)
    ensures text.None? || text == Some("") ==> r == Ok([])
    ensures r.Ok? && text.Some? && text != Some("") ==> |r.value| == GroupCount(|OctantTokens(text.value)|)
    ensures r.Ok? ==> forall k :: 0 <= k < |r.value| ==> |r.value[k]| <= 3
    ensures r.Err? ==> (text.Some? && r.error.InvalidNumber? &&
      FirstBadToken(OctantTokens(text.value)) == Some(r.error.token))
  {
    if text.None? || text.value == "" then Ok([])
    else
      var ts := OctantTokens(text.value);
      match FirstBadToken(ts)
      case Some(b) => Err(InvalidNumber(b))
      case None => Ok(Groups(ts, GroupCount(|ts|)))
  }

  /** The group count rises by one exactly at each non-zero multiple of three. */
  lemma {:induction false} GroupCountStep(n: nat)
    ensures GroupCount(n + 1) == if n % 3 == 0 && n != 0 then GroupCount(n) + 1 else GroupCount(n)
  {
  }

  /** One more token adds its index, if any, to the end of the group. */
  lemma {:induction false} GroupValuesSnoc(ts: seq<string>, t: string)
    ensures GroupValues(ts + [t]) == GroupValues(ts) + TokenIndices(t)
  {
    assert (ts + [t])[..|ts|] == ts;
  }

  /**
   * A step of the octant scan that starts a new group of three: the current
   * group is pushed, and the token's index starts the fresh one.
   */
  lemma {:induction false} OctantPush(tokens: seq<string>, idx: nat, c: nat)
    requires idx < |tokens| && c == GroupCount(idx) && idx % 3 == 0 && idx != 0
    ensures GroupCount(idx + 1) == c + 1
    ensures Groups(tokens, c + 1) == Groups(tokens, c) + [GroupValues(tokens[3 * c..idx])]
    ensures GroupValues(tokens[3 * (c + 1)..idx + 1]) == TokenIndices(tokens[idx])
  {
    GroupCountStep(idx);
    assert idx == 3 * (c + 1);
    GroupsSnoc(tokens, c);
    assert tokens[idx..idx + 1] == [] + [tokens[idx]];
    GroupValuesSnoc([], tokens[idx]);
  }

  /** One more group of three appends that group's values. */
  lemma {:induction false} GroupsSnoc(ts: seq<string>, c: nat)
    requires 3 * (c + 1) <= |ts|
    ensures Groups(ts, c + 1) == Groups(ts, c) + [GroupValues(ts[3 * c..3 * c + 3])]
  {
    var gs, gs' := Groups(ts, c), Groups(ts, c + 1);
    assert forall k :: 0 <= k < c ==> gs'[k] == gs[k];
  }

  /** Any other step of the octant scan adds the token's index to the current group. */
  lemma {:induction false} OctantKeep(tokens: seq<string>, idx: nat, c: nat)
    requires idx < |tokens| && c == GroupCount(idx) && !(idx % 3 == 0 && idx != 0)
    ensures GroupCount(idx + 1) == c
    ensures GroupValues(tokens[3 * c..idx + 1]) == GroupValues(tokens[3 * c..idx]) + TokenIndices(tokens[idx])
  {
    GroupCountStep(idx);
    var run := tokens[3 * c..idx];
    assert tokens[3 * c..idx + 1] == run + [tokens[idx]];
    GroupValuesSnoc(run, tokens[idx]);
  }

  /** None of the first `n` tokens is bad. */
  predicate GoodUpTo(tokens: seq<string>, n: nat)
    requires n <= |tokens|
  {
    n == 0 || (GoodUpTo(tokens, n - 1) && !BadToken(tokens[n - 1]))
  }

  /** The scan's running check agrees with the search for the first bad token. */
  lemma {:induction false} GoodUpToNoneBad(tokens: seq<string>, n: nat)
    requires n <= |tokens| && GoodUpTo(tokens, n)
    ensures FirstBadToken(tokens[..n]) == None
  {
    if n > 0 {
      GoodUpToNoneBad(tokens, n - 1);
      assert tokens[..n][..n - 1] == tokens[..n - 1];
    }
  }

  /** The first bad token is the one the scan stops at. */
  lemma {:induction false} BadTokenStops(tokens: seq<string>, idx: nat)
    requires idx < |tokens| && GoodUpTo(tokens, idx) && BadToken(tokens[idx])
    ensures FirstBadToken(tokens) == Some(tokens[idx])
  {
    GoodUpToNoneBad(tokens, idx);
    FirstWhereAt(tokens, idx, BadToken);
  }

  /** A scan that reaches the end has met no bad token. */
  lemma {:induction false} NoBadTokens(tokens: seq<string>)
    requires GoodUpTo(tokens, |tokens|)
    ensures FirstBadToken(tokens) == None
  {
    GoodUpToNoneBad(tokens, |tokens|);
    assert tokens[..|tokens|] == tokens;
  }

  /** With whole groups of three, the last group is lost; one more token keeps them all. */
  lemma {:induction false} OctantsLoseLastGroup(m: nat)
    requires m >= 1
    ensures GroupCount(3 * m) == m - 1
    ensures GroupCount(3 * m + 1) == m
  {
  }

  /** Three tokens that convert form the group of their three integers. */
  lemma {:induction false} GroupOfThree(a: string, b: string, c: string)
    requires a != "" && IntToken(a).Some? && b != "" && IntToken(b).Some? && c != "" && IntToken(c).Some?
    ensures GroupValues([a, b, c]) == [IntToken(a).value, IntToken(b).value, IntToken(c).value]
  {
    TokenConverts(a);
    TokenConverts(b);
    TokenConverts(c);
    assert [a][..0] == [];
    assert GroupValues([a]) == [IntToken(a).value];
    assert [a, b][..1] == [a];
    assert GroupValues([a, b]) == [IntToken(a).value, IntToken(b).value];
    assert [a, b, c][..2] == [a, b];
  }

  /**
   * Read from tokens that are all non-empty integers, the octants are the
   * complete triples in order, except the last triple, which is dropped.
   */
  lemma {:induction false} OctantTriples(ts: seq<string>, m: nat)
    requires |ts| == 3 * m && m >= 1
    requires forall i :: 0 <= i < |ts| ==> ts[i] != "" && IntToken(ts[i]).Some?
    ensures |Groups(ts, GroupCount(|ts|))| == m - 1
    ensures forall k :: 0 <= k < m - 1 ==> (Groups(ts, GroupCount(|ts|))[k] ==
      [IntToken(ts[3 * k]).value, IntToken(ts[3 * k + 1]).value, IntToken(ts[3 * k + 2]).value])
  {
    OctantsLoseLastGroup(m);
    forall k | 0 <= k < m - 1 ensures Groups(ts, m - 1)[k] ==
      [IntToken(ts[3 * k]).value, IntToken(ts[3 * k + 1]).value, IntToken(ts[3 * k + 2]).value]
    {
      assert ts[3 * k..3 * k + 3] == [ts[3 * k], ts[3 * k + 1], ts[3 * k + 2]];
      GroupOfThree(ts[3 * k], ts[3 * k + 1], ts[3 * k + 2]);
    }
  }

  /** `OctantsProperty.from_xml` */
  method OctantsFromXml(e: Node) returns (r: Result<seq<seq<int>>, CodecError>)
    ensures r == Octants(e.text)
  {
    if e.text.None? || e.text.value == "" {
      return Ok([]);
    }
    var allinds: seq<seq<int>> := [];
    var tokens := OctantTokens(e.text.value);
    var ind: seq<int> := [];
    var idx := 0;
    while idx < |tokens|
      invariant 0 <= idx <= |tokens|
      invariant GoodUpTo(tokens, idx)
      invariant allinds == Groups(tokens, GroupCount(idx))
      invariant ind == GroupValues(tokens[3 * GroupCount(idx)..idx])
    {
      var ok;
      ok, allinds, ind := ScanToken(tokens, idx, allinds, ind);
      if !ok {
        BadTokenStops(tokens, idx);
        return Err(InvalidNumber(tokens[idx]));
      }
      idx := idx + 1;
    }
    NoBadTokens(tokens);
    return Ok(allinds);
  }

  /**
   * One pass of the octant loop: push the current group when a new group of
   * three starts, then add the token's integer, if it has one; `ok` is false
   * when the token does not convert.
   */
  method ScanToken(tokens: seq<string>, idx: nat, allinds: seq<seq<int>>, ind: seq<int>)
    returns (ok: bool, allinds': seq<seq<int>>, ind': seq<int>)
    requires idx < |tokens|
    requires allinds == Groups(tokens, GroupCount(idx))
    requires ind == GroupValues(tokens[3 * GroupCount(idx)..idx])
    ensures ok <==> !BadToken(tokens[idx])
    ensures ok ==> allinds' == Groups(tokens, GroupCount(idx + 1))
    ensures ok ==> ind' == GroupValues(tokens[3 * GroupCount(idx + 1)..idx + 1])
  {
    var i := tokens[idx];
    allinds', ind' := allinds, ind;
    if idx % 3 == 0 && idx != 0 {
      OctantPush(tokens, idx, GroupCount(idx));
      allinds' := allinds' + [ind'];
      ind' := [];
    } else {
      OctantKeep(tokens, idx, GroupCount(idx));
    }
    ok := true;
    if i != "" {
      var v := IntToken(i);
      if v.None? {
        return false, allinds', ind';
      }
      TokenConverts(i);
      ind' := ind' + [v.value];
    }
  }

  /**
   * `OctantsProperty.to_xml`: an empty element, whatever the octants, so
   * that octants written and read back are always lost.
   */
  method OctantsToXml(tag: string, octants: seq<seq<int>>) returns (e: Node)
    ensures e.tag == tag && e.text.None? && e.children == [] && e.attrs == map[]
    ensures Octants(e.text) == Ok([])
  {
    e := Node(tag, map[], None, []);
  }
  // ---------------------------------------------------------------------
  // Polymorphic list readers

  /** The kind `BoundListProperty.from_xml` reads an element as: by its `type` attribute, if it has one. */
  function BoundKindOf(n: Node): (r: Option<BoundKind>)
    ensures r.Some? ==> "type" in n.attrs && n.attrs["type"] == TypeName(r.value)
  {
    if "type" in n.attrs then KindNamed(n.attrs["type"]) else None
  }

  /** An element is read as kind `k` exactly when its `type` attribute is that kind's. */
  lemma {:induction false} BoundKindOfType(n: Node, k: BoundKind)
    ensures BoundKindOf(n) == Some(k) <==> "type" in n.attrs && n.attrs["type"] == TypeName(k)
  {
    if "type" in n.attrs {
      KindNamedExact(n.attrs["type"], k);
    }
  }

  /** Elements without a `type`, or with the composite's, are not read as list items. */
  lemma {:induction false} CompositeNotAnItem(n: Node)
    requires "type" !in n.attrs || n.attrs["type"] == NewBoundComposite().typeName
    ensures BoundKindOf(n) == None
  {
  }

  /**
   * `BoundListProperty.from_xml`: every element the walk visits, the list
   * element itself included, whose `type` names a bound kind, in visiting
   * order. The item read from each element is left to the binding layer;
   * the model records the kind and the element it is read from.
   */
  method BoundsFromXml(e: Node) returns (items: seq<Dispatched<BoundKind>>)
    ensures items == Dispatch(Iter(e), BoundKindOf)
  {
    var walk := Iter(e);
    items := [];
    var i := 0;
    while i < |walk|
      invariant 0 <= i <= |walk|
      invariant items == Dispatch(walk[..i], BoundKindOf)
    {
      var child := walk[i];
      DispatchStep(walk, i, BoundKindOf);
      if "type" in child.attrs {
        var boundType := child.attrs["type"];
        if boundType == "Box" {
          items := items + [Dispatched(BoxBound, child)];
        } else if boundType == "Sphere" {
          items := items + [Dispatched(SphereBound, child)];
        } else if boundType == "Capsule" {
          items := items + [Dispatched(CapsuleBound, child)];
        } else if boundType == "Cylinder" {
          items := items + [Dispatched(CylinderBound, child)];
        } else if boundType == "Disc" {
          items := items + [Dispatched(DiscBound, child)];
        } else if boundType == "Cloth" {
          items := items + [Dispatched(ClothBound, child)];
        } else if boundType == "Geometry" {
          items := items + [Dispatched(GeometryBound, child)];
        } else if boundType == "GeometryBVH" {
          items := items + [Dispatched(GeometryBVHBound, child)];
        }
      }
      i := i + 1;
    }
    assert walk[..i] == walk;
  }

  /**
   * `PolygonsProperty.from_xml`: every element the walk visits whose tag is
   * a polygon kind's, in visiting order.
   */
  method PolygonsFromXml(e: Node) returns (polygons: seq<Dispatched<PolygonKind>>)
    ensures polygons == Dispatch(Iter(e), PolygonKindOf)
  {
    var walk := Iter(e);
    polygons := [];
    var i := 0;
    while i < |walk|
      invariant 0 <= i <= |walk|
      invariant polygons == Dispatch(walk[..i], PolygonKindOf)
    {
      var child := walk[i];
      DispatchStep(walk, i, PolygonKindOf);
      if child.tag == "Box" {
        polygons := polygons + [Dispatched(BoxPoly, child)];
      } else if child.tag == "Sphere" {
        polygons := polygons + [Dispatched(SpherePoly, child)];
      } else if child.tag == "Capsule" {
        polygons := polygons + [Dispatched(CapsulePoly, child)];
      } else if child.tag == "Cylinder" {
        polygons := polygons + [Dispatched(CylinderPoly, child)];
      } else if child.tag == "Triangle" {
        polygons := polygons + [Dispatched(TrianglePoly, child)];
      }
      i := i + 1;
    }
    assert walk[..i] == walk;
  }
}
