/**
 * The fragment exporter: collecting a LOD's groups, the parent-group
 * lookup, group and fragment naming, building each LOD's group, child and
 * transform lists, filling the physics LOD slots, and the file name and
 * contents of the high-detail-only variant.
 */
module YftExport {
  import opened Wrappers
  import opened Text
  import opened Decimal
  import opened Slots
  import opened Fragment
  import opened Scene
  import opened SollumzHelper
  import opened Bound

  /** Why an export stops: the exceptions the exporter raises. */
  datatype ExportError =
    | NoDrawable                     // the fragment object has no drawable child
    | NoParent(name: string)         // an object's parent is None where its type is read
    | ParentNotListed(name: string)  // `list.index` does not find the parent (ValueError)
    | NoLod1                         // the high-detail pass reads the children of an empty lod1 slot
    | ZeroArchetypeMass(lod: string) // `1 / archetype_mass` on a LOD whose archetype mass is 0

  // ---------------------------------------------------------------------
  // Group collection (`get_group_objects`)

  /** The direct children of `o` that are groups, in child order. */
  function GroupChildren(o: Obj): seq<Obj> {
    Keep(o.children, {FragGroupType})
  }

  lemma {:induction false} GroupChildrenMembers(o: Obj, x: Obj)
    ensures x in GroupChildren(o) <==> x in o.children && x.sollumType == FragGroupType
  {
    KeepMembers(o.children, {FragGroupType}, x);
  }

  /**
   * The groups reachable from `o` through chains of groups: its group
   * children and, below each of them, the groups reachable from it.
   */
  function GroupsBelow(o: Obj): set<Obj>
    decreases o, |GroupChildren(o)| + 1
  {
    GroupsBelowUpTo(o, |GroupChildren(o)|)
  }

  /** The group children of `o`, and the groups below the first `i` of them. */
  function GroupsBelowUpTo(o: Obj, i: nat): set<Obj>
    requires i <= |GroupChildren(o)|
    decreases o, i
  {
    if i == 0 then set x | x in GroupChildren(o)
    else
      var g := GroupChildren(o)[i - 1];
      GroupChildrenMembers(o, g);
      GroupsBelowUpTo(o, i - 1) + GroupsBelow(g)
  }

  /** The `not in`-guarded appends of the exporter: each of `xs` not yet present, in order. */
  function AppendAbsent(acc: seq<Obj>, xs: seq<Obj>): (r: seq<Obj>)
    ensures acc <= r
  {
    if xs == [] then acc
    else
      var a := AppendAbsent(acc, xs[..|xs| - 1]);
      var x := xs[|xs| - 1];
      if x in a then a else a + [x]
  }

  lemma {:induction false} AppendAbsentMembers(acc: seq<Obj>, xs: seq<Obj>, x: Obj)
    ensures x in AppendAbsent(acc, xs) <==> x in acc || x in xs
  {
    if xs != [] {
      AppendAbsentMembers(acc, xs[..|xs| - 1], x);
      assert xs == xs[..|xs| - 1] + [xs[|xs| - 1]];
    }
  }

  lemma {:induction false} AppendAbsentDistinct(acc: seq<Obj>, xs: seq<Obj>)
    requires Distinct(acc)
    ensures Distinct(AppendAbsent(acc, xs))
  {
    if xs != [] {
      AppendAbsentDistinct(acc, xs[..|xs| - 1]);
    }
  }

  lemma {:induction false} AppendAbsentNothingNew(acc: seq<Obj>, xs: seq<Obj>)
    requires forall x :: x in xs ==> x in acc
    ensures AppendAbsent(acc, xs) == acc
  {
    if xs != [] {
      AppendAbsentNothingNew(acc, xs[..|xs| - 1]);
    }
  }

  /**
   * The list `get_group_objects(o)` returns: the group children of `o`,
   * then, for each of them in order, the groups it collects that are not
   * listed yet.
   */
  function GroupList(o: Obj): (r: seq<Obj>)
    ensures GroupChildren(o) <= r
    decreases o, |GroupChildren(o)| + 1
  {
    Merged(o, |GroupChildren(o)|)
  }

  /** The list after the first `i` group children have had their groups merged in. */
  function Merged(o: Obj, i: nat): (r: seq<Obj>)
    requires i <= |GroupChildren(o)|
    ensures GroupChildren(o) <= r
    decreases o, i
  {
    if i == 0 then GroupChildren(o)
    else
      var g := GroupChildren(o)[i - 1];
      GroupChildrenMembers(o, g);
      AppendAbsent(Merged(o, i - 1), GroupList(g))
  }

  lemma {:induction false} MergedPrefix(o: Obj, i: nat)
    requires i <= |GroupChildren(o)|
    ensures Merged(o, i) <= GroupList(o)
    decreases |GroupChildren(o)| - i
  {
    if i < |GroupChildren(o)| {
      MergedPrefix(o, i + 1);
    }
  }

  lemma {:induction false} MergedMembers(o: Obj, i: nat, x: Obj)
    requires i <= |GroupChildren(o)|
    ensures x in Merged(o, i) <==> x in GroupsBelowUpTo(o, i)
    decreases o, i
  {
    if i > 0 {
      var g := GroupChildren(o)[i - 1];
      GroupChildrenMembers(o, g);
      MergedMembers(o, i - 1, x);
      GroupListMembers(g, x);
      AppendAbsentMembers(Merged(o, i - 1), GroupList(g), x);
    }
  }

  /** The collected list holds exactly the groups reachable through chains of groups. */
  lemma {:induction false} GroupListMembers(o: Obj, x: Obj)
    ensures x in GroupList(o) <==> x in GroupsBelow(o)
    decreases o, |GroupChildren(o)| + 1
  {
    MergedMembers(o, |GroupChildren(o)|, x);
  }

  /** A reachable group is a group child, or reachable from one. */
  lemma {:induction false} BelowUpToCases(o: Obj, i: nat, x: Obj)
    requires i <= |GroupChildren(o)|
    ensures x in GroupsBelowUpTo(o, i) <==>
      x in GroupChildren(o) || exists k :: 0 <= k < i && x in GroupsBelow(GroupChildren(o)[k])
  {
    if i > 0 {
      BelowUpToCases(o, i - 1, x);
    }
  }

  lemma {:induction false} BelowCases(o: Obj, x: Obj)
    ensures x in GroupsBelow(o) <==>
      x in GroupChildren(o) || exists g :: g in GroupChildren(o) && x in GroupsBelow(g)
  {
    var gs := GroupChildren(o);
    BelowUpToCases(o, |gs|, x);
    if exists g :: g in gs && x in GroupsBelow(g) {
      var g :| g in gs && x in GroupsBelow(g);
      var k :| 0 <= k < |gs| && gs[k] == g;
    }
  }

  /** Every reachable group is a group, and strictly lower in the tree. */
  lemma {:induction false} BelowIsLowerGroup(o: Obj, x: Obj)
    requires x in GroupsBelow(o)
    ensures x.sollumType == FragGroupType && Depth(x) < Depth(o)
    decreases o
  {
    BelowCases(o, x);
    if x in GroupChildren(o) {
      GroupChildrenMembers(o, x);
      var i :| 0 <= i < |o.children| && o.children[i] == x;
      ChildLower(o, i);
    } else {
      var g :| g in GroupChildren(o) && x in GroupsBelow(g);
      GroupChildrenMembers(o, g);
      var i :| 0 <= i < |o.children| && o.children[i] == g;
      ChildLower(o, i);
      BelowIsLowerGroup(g, x);
    }
  }

  /** What is reachable from a reachable group is reachable. */
  lemma {:induction false} BelowClosed(o: Obj, g: Obj, x: Obj)
    requires g in GroupsBelow(o) && x in GroupsBelow(g)
    ensures x in GroupsBelow(o)
    decreases o
  {
    BelowCases(o, g);
    if g !in GroupChildren(o) {
      var h :| h in GroupChildren(o) && g in GroupsBelow(h);
      GroupChildrenMembers(o, h);
      BelowClosed(h, g, x);
      BelowCases(o, x);
    } else {
      BelowCases(o, x);
    }
  }

  /** A reachable group's parent is `o` itself or another reachable group. */
  lemma {:induction false} BelowParentListed(o: Obj, x: Obj)
    requires x in GroupsBelow(o)
    ensures x in o.children || exists h :: h in GroupsBelow(o) && x in h.children
    decreases o
  {
    BelowCases(o, x);
    if x in GroupChildren(o) {
      GroupChildrenMembers(o, x);
    } else {
      var g :| g in GroupChildren(o) && x in GroupsBelow(g);
      GroupChildrenMembers(o, g);
      BelowCases(o, g);
      BelowParentListed(g, x);
      if x !in g.children {
        var h :| h in GroupsBelow(g) && x in h.children;
        BelowClosed(o, g, h);
      }
    }
  }

  /** Below a well-linked object every object is well linked. */
  lemma {:induction false} BelowWellLinked(o: Obj, x: Obj)
    requires WellLinked(o) && x in GroupsBelow(o)
    ensures WellLinked(x)
    decreases o
  {
    BelowCases(o, x);
    if x in GroupChildren(o) {
      GroupChildrenMembers(o, x);
    } else {
      var g :| g in GroupChildren(o) && x in GroupsBelow(g);
      GroupChildrenMembers(o, g);
      BelowWellLinked(g, x);
    }
  }

  /** A child of a well-linked object links back to it. */
  lemma {:induction false} ChildLinksBack(o: Obj, x: Obj)
    requires WellLinked(o) && x in o.children
    ensures x.parent == Some(LinkTo(o)) && WellLinked(x)
  {
    var i :| 0 <= i < |o.children| && o.children[i] == x;
  }

  /**
   * The list `get_group_objects` holds after its walk has reached position
   * `i`: merging stops changing it once the walk is past the group children.
   */
  function WalkState(o: Obj, i: nat): seq<Obj> {
    Merged(o, if i <= |GroupChildren(o)| then i else |GroupChildren(o)|)
  }

  /**
   * One step of the walk: the entry at position `i` is strictly lower than
   * the root, and merging in what it collects gives the next state.
   */
  lemma {:induction false} WalkStep(o: Obj, i: nat)
    requires i < |WalkState(o, i)|
    ensures WalkState(o, i) <= GroupList(o)
    ensures Depth(WalkState(o, i)[i]) < Depth(o)
    ensures AppendAbsent(WalkState(o, i), GroupList(WalkState(o, i)[i])) == WalkState(o, i + 1)
    ensures WalkState(o, i + 1) <= GroupList(o)
  {
    var n := |GroupChildren(o)|;
    var st := WalkState(o, i);
    var g := st[i];
    MergedPrefix(o, if i <= n then i else n);
    MergedPrefix(o, if i + 1 <= n then i + 1 else n);
    assert g in GroupsBelow(o) by {
      GroupListMembers(o, g);
    }
    BelowIsLowerGroup(o, g);
    if i >= n {
      forall x | x in GroupList(g) ensures x in st {
        GroupListMembers(g, x);
        BelowClosed(o, g, x);
        GroupListMembers(o, x);
      }
      AppendAbsentNothingNew(st, GroupList(g));
    }
  }

  /** The inner loop of `get_group_objects`: append each collected group not listed yet. */
  method AppendMissing(groups: seq<Obj>, cgroups: seq<Obj>) returns (r: seq<Obj>)
    ensures r == AppendAbsent(groups, cgroups)
  {
    r := groups;
    for k := 0 to |cgroups|
      invariant r == AppendAbsent(groups, cgroups[..k])
    {
      assert cgroups[..k + 1][..k] == cgroups[..k];
      var cg := cgroups[k];
      if cg !in r {
        r := r + [cg];
      }
    }
    assert cgroups[..|cgroups|] == cgroups;
  }

  /** The first loop of `get_group_objects`: the group children, in child order. */
  method DirectGroups(fragment: Obj) returns (groups: seq<Obj>)
    ensures groups == GroupChildren(fragment)
  {
    groups := [];
    for j := 0 to |fragment.children|
      invariant groups == Keep(fragment.children[..j], {FragGroupType})
    {
      assert fragment.children[..j + 1][..j] == fragment.children[..j];
      var child := fragment.children[j];
      if child.sollumType == FragGroupType {
        groups := groups + [child];
      }
    }
    assert fragment.children[..|fragment.children|] == fragment.children;
  }

  /**
   * `get_group_objects`: the group children first, then, while walking
   * the list as it grows, the groups each entry collects that are not
   * listed yet.
   */
  method GroupObjects(fragment: Obj) returns (groups: seq<Obj>)
    ensures groups == GroupList(fragment)
    decreases Depth(fragment)
  {
    groups := DirectGroups(fragment);
    MergedPrefix(fragment, 0);
    var i := 0;
    while i < |groups|
      invariant groups == WalkState(fragment, i)
      invariant i <= |groups| <= |GroupList(fragment)|
      decreases |GroupList(fragment)| - i
    {
      WalkStep(fragment, i);
      var cgroups := GroupObjects(groups[i]);
      groups := AppendMissing(groups, cgroups);
      i := i + 1;
    }
  }

  /** Every collected object is a group reachable from the root through groups only. */
  lemma {:induction false} GroupListAreGroups(o: Obj, x: Obj)
    requires x in GroupList(o)
    ensures x.sollumType == FragGroupType && Depth(x) < Depth(o)
  {
    GroupListMembers(o, x);
    BelowIsLowerGroup(o, x);
  }

  /** When the root's children are distinct, no group is listed twice. */
  lemma {:induction false} GroupListDistinct(o: Obj)
    requires Distinct(o.children)
    ensures Distinct(GroupList(o))
  {
    KeepDistinct(o.children, {FragGroupType});
    MergedDistinct(o, |GroupChildren(o)|);
  }

  lemma {:induction false} MergedDistinct(o: Obj, i: nat)
    requires i <= |GroupChildren(o)| && Distinct(GroupChildren(o))
    ensures Distinct(Merged(o, i))
  {
    if i > 0 {
      MergedDistinct(o, i - 1);
      var g := GroupChildren(o)[i - 1];
      GroupChildrenMembers(o, g);
      AppendAbsentDistinct(Merged(o, i - 1), GroupList(g));
    }
  }

  // ---------------------------------------------------------------------
  // Parent lookup and names

  /** The parent index a group or window gets when its parent is not a group. */
  const NoParentGroup: nat := 255

  /** `objs.index(x)` for the object with identity `id`: its first position, or None (ValueError). */
  function IndexOfId(objs: seq<Obj>, id: nat): (r: Option<nat>)
    ensures r.Some? ==> r.value < |objs| && objs[r.value].id == id
    ensures r.Some? ==> forall j :: 0 <= j < r.value ==> objs[j].id != id
    ensures r.None? <==> forall j :: 0 <= j < |objs| ==> objs[j].id != id
  {
    if objs == [] then None
    else if objs[0].id == id then Some(0)
    else match IndexOfId(objs[1..], id)
      case None => None
      case Some(k) => Some(k + 1)
  }

  /**
   * `get_obj_parent_group_index`: 255 when the parent is not a group,
   * otherwise the parent's first position in `gobjs`; no parent, or a
   * group parent that is not listed, raises.
   */
  function ParentGroupIndex(gobjs: seq<Obj>, obj: Obj): (r: Result<nat, ExportError>)
    ensures obj.parent.None? ==> r == Err(NoParent(obj.name))
    ensures obj.parent.Some? && obj.parent.value.sollumType != FragGroupType ==> r == Ok(NoParentGroup)
    ensures obj.parent.Some? && obj.parent.value.sollumType == FragGroupType ==>
      (r.Ok? <==> exists j :: 0 <= j < |gobjs| && gobjs[j].id == obj.parent.value.id)
    ensures r.Err? ==> r == Err(NoParent(obj.name)) || r == Err(ParentNotListed(obj.name))
    ensures obj.parent.Some? && obj.parent.value.sollumType == FragGroupType && r.Ok? ==>
      r.value < |gobjs| && gobjs[r.value].id == obj.parent.value.id
  {
    match obj.parent
    case None => Err(NoParent(obj.name))
    case Some(p) =>
      if p.sollumType == FragGroupType then
        match IndexOfId(gobjs, p.id)
        case None => Err(ParentNotListed(obj.name))
        case Some(i) => Ok(i)
      else Ok(NoParentGroup)
  }

  /**
   * The exported name of a group object: kept as it is unless it holds
   * "group"; otherwise every "_group" is removed and the text before the
   * first "." of what remains is kept.
   */
  function GroupName(name: string): (r: string)
    ensures !Contains(name, "group") ==> r == name
    ensures Contains(name, "group") ==> var cleaned := Replace(name, "_group", "");
      && '.' !in r && |r| <= |cleaned| && r == cleaned[..|r|]
      && ('.' in cleaned ==> |r| < |cleaned| && cleaned[|r|] == '.')
      && ('.' !in cleaned ==> r == cleaned)
  {
    if !Contains(name, "group") then name
    else
      var cleaned := Replace(name, "_group", "");
      SplitFirst(cleaned, '.');
      SplitAvoids(cleaned, '.');
      Split(cleaned, '.')[0]
  }

  /** "n_group.x" is exported as n, for a base name n without "_" or ".". */
  lemma {:induction false} GroupNameOfSuffixed(n: string, x: string)
    requires '_' !in n && '.' !in n
    ensures GroupName(n + "_group." + x) == n
  {
    var name := n + "_group." + x;
    assert Contains(name, "group") by {
      assert name[|n| + 1..][..5] == "group";
      ContainsShift(name, |n| + 1, "group");
    }
    var cleaned := Replace(name, "_group", "");
    assert cleaned == n + "." + Replace(x, "_group", "") by {
      assert name == n + ("_group" + ("." + x));
      ReplaceSkips(n, "_group" + ("." + x), "_group", "");
      var rest := "_group" + ("." + x);
      assert rest[..6] == "_group" && rest[6..] == "." + x;
      ReplaceSkips(".", x, "_group", "");
    }
    var r := GroupName(name);
    assert cleaned[|n|] == '.';
    assert cleaned[..|n|] == n;
  }

  /** A name holding "group" but not "_group" and no "." is kept as it is. */
  lemma {:induction false} GroupNameWithoutSuffix(name: string)
    requires Contains(name, "group") && !Contains(name, "_group") && '.' !in name
    ensures GroupName(name) == name
  {
    ReplaceAbsent(name, "_group", "");
    SplitNoSep(name, '.');
  }

  /** Every name holding "_group" holds "group", so the suffix is always removed from it. */
  lemma {:induction false} GroupSuffixMeansGroup(name: string)
    requires Contains(name, "_group")
    ensures Contains(name, "group")
  {
    assert "_group" == "_" + "group";
    ContainsSuffix(name, "_", "group");
  }

  /** The fragment's name: the object name up to its first ".". */
  function FragmentName(name: string): (r: string)
    ensures '.' !in r && |r| <= |name| && r == name[..|r|]
    ensures '.' !in name ==> r == name
    ensures '.' in name ==> |r| < |name| && name[|r|] == '.'
  {
    SplitFirst(name, '.');
    SplitAvoids(name, '.');
    Split(name, '.')[0]
  }

  // ---------------------------------------------------------------------
  // Loops that stop at the first raised error

  /**
   * Applying `f` to each element in order, stopping at the first error:
   * the values when every application succeeds, otherwise the first error.
   */
  function MapResult<A, B, E>(xs: seq<A>, f: A -> Result<B, E>): (r: Result<seq<B>, E>)
    ensures r.Ok? ==> |r.value| == |xs|
  {
    if xs == [] then Ok([])
    else
      match MapResult(xs[..|xs| - 1], f)
      case Err(e) => Err(e)
      case Ok(ys) =>
        match f(xs[|xs| - 1])
        case Err(e) => Err(e)
        case Ok(y) => Ok(ys + [y])
  }

  /** The loop succeeds exactly when every element succeeds, and then yields their values in order. */
  lemma {:induction false} MapResultAll<A, B, E>(xs: seq<A>, f: A -> Result<B, E>)
    ensures MapResult(xs, f).Ok? <==> forall i :: 0 <= i < |xs| ==> f(xs[i]).Ok?
    ensures MapResult(xs, f).Ok? ==> forall i :: 0 <= i < |xs| ==> f(xs[i]) == Ok(MapResult(xs, f).value[i])
  {
    if xs != [] {
      var init := xs[..|xs| - 1];
      MapResultAll(init, f);
      assert forall i :: 0 <= i < |init| ==> xs[i] == init[i];
    }
  }

  /** A failing loop fails with the error of the first element that fails. */
  lemma {:induction false} MapResultFirstErr<A, B, E>(xs: seq<A>, f: A -> Result<B, E>)
    requires MapResult(xs, f).Err?
    ensures exists i :: 0 <= i < |xs| && f(xs[i]) == Err(MapResult(xs, f).error) && forall j :: 0 <= j < i ==> f(xs[j]).Ok?
  {
    var init := xs[..|xs| - 1];
    assert forall i :: 0 <= i < |init| ==> xs[i] == init[i];
    if MapResult(init, f).Err? {
      MapResultFirstErr(init, f);
      var i :| 0 <= i < |init| && f(init[i]) == Err(MapResult(init, f).error) && forall j :: 0 <= j < i ==> f(init[j]).Ok?;
      assert f(xs[i]) == Err(MapResult(xs, f).error);
    } else {
      MapResultAll(init, f);
      assert f(xs[|xs| - 1]) == Err(MapResult(xs, f).error);
    }
  }

  /** One more step of the loop. */
  lemma {:induction false} MapResultNext<A, B, E>(xs: seq<A>, f: A -> Result<B, E>, k: nat, ys: seq<B>)
    requires k < |xs| && MapResult(xs[..k], f) == Ok(ys)
    ensures f(xs[k]).Ok? ==> MapResult(xs[..k + 1], f) == Ok(ys + [f(xs[k]).value])
    ensures f(xs[k]).Err? ==> MapResult(xs, f) == Err(f(xs[k]).error)
  {
    assert xs[..k + 1][..k] == xs[..k];
    if f(xs[k]).Err? {
      MapResultErrSticks(xs, f, k + 1);
    }
  }

  /** Once a prefix fails, the whole loop fails with the same error. */
  lemma {:induction false} MapResultErrSticks<A, B, E>(xs: seq<A>, f: A -> Result<B, E>, n: nat)
    requires n <= |xs| && MapResult(xs[..n], f).Err?
    ensures MapResult(xs, f) == MapResult(xs[..n], f)
    decreases |xs| - n
  {
    if n < |xs| {
      assert xs[..n + 1][..n] == xs[..n];
      MapResultErrSticks(xs, f, n + 1);
    } else {
      assert xs[..n] == xs;
    }
  }

  // ---------------------------------------------------------------------
  // One LOD

  /**
   * What the exporter takes from code outside this model: the drawable a
   * child shows, the window record built from a window object and the
   * fragment's materials, the per-component inverse of a vector, the bound
   * composite built from a list of bound objects, the set of bound types,
   * and the fragment's bounding-sphere centre and radius.
   */
  datatype Env = Env(
    fragmentDrawable: Obj -> Option<Obj>,
    window: Obj -> WindowItem,
    invert: Vector -> Vector,
    composite: seq<Obj> -> BoundComposite,
    boundTypes: set<SollumType>,
    boundCenter: Obj -> Vector,
    sphereRadius: Obj -> real)

  /** `m.transposed()`: row i of the result is column i of `m`. */
  function Transposed(m: Matrix4): (t: Matrix4)
    ensures forall i, j | 0 <= i < 4 && 0 <= j < 4 :: t[i][j] == m[j][i]
  {
    seq(4, i requires 0 <= i < 4 => seq(4, j requires 0 <= j < 4 => m[j][i]))
  }

  /**
   * A child's transform: its basis matrix transposed, with the translation
   * (the fourth row once transposed) made relative to the LOD's position offset.
   */
  function ChildTransform(m: Matrix4, offset: Vector3): (t: Matrix4)
    ensures forall i | 0 <= i < 3 :: t[i] == Transposed(m)[i]
    ensures t[3] == [m[0][3] - offset[0], m[1][3] - offset[1], m[2][3] - offset[2], m[3][3]]
  {
    var tr := Transposed(m);
    tr[3 := [tr[3][0] - offset[0], tr[3][1] - offset[1], tr[3][2] - offset[2], tr[3][3]]]
  }

  /** Adding the offset back and transposing again gives the child's basis matrix. */
  lemma {:induction false} ChildTransformRestores(m: Matrix4, offset: Vector3)
    ensures var t := ChildTransform(m, offset);
      Transposed(t[3 := [t[3][0] + offset[0], t[3][1] + offset[1], t[3][2] + offset[2], t[3][3]]]) == m
  {
    var t := ChildTransform(m, offset);
    var u := t[3 := [t[3][0] + offset[0], t[3][1] + offset[1], t[3][2] + offset[2], t[3][3]]];
    var back := Transposed(u);
    forall i | 0 <= i < 4
      ensures back[i] == m[i]
    {
      assert back[i][3] == m[i][3];
    }
  }

  /** With a zero offset the transform is the plain transpose. */
  lemma {:induction false} ChildTransformAtOrigin(m: Matrix4)
    ensures ChildTransform(m, [0.0, 0.0, 0.0]) == Transposed(m)
  {
    var t, tr := ChildTransform(m, [0.0, 0.0, 0.0]), Transposed(m);
    assert t[3] == tr[3];
  }

  /**
   * The archetype of a LOD: its settings copied, the inverse mass, the
   * inverted inertia tensor and the composite of the bound objects below
   * the LOD's groups; a zero mass raises.
   */
  function ArchetypeOf(lod: Obj, gobjs: seq<Obj>, env: Env): (r: Result<Archetype, ExportError>)
    ensures r.Err? <==> lod.archetypeSettings.mass == 0.0
    ensures r.Err? ==> r.error == ZeroArchetypeMass(lod.name)
    ensures r.Ok? ==> r.value.mass == Given(lod.archetypeSettings.mass) && r.value.massInv.Given?
    ensures r.Ok? ==> r.value.bounds == env.composite(Selected(gobjs, env.boundTypes))
  {
    var a := lod.archetypeSettings;
    if a.mass == 0.0 then Err(ZeroArchetypeMass(lod.name))
    else
      Ok(Archetype(Given(a.name), Given(a.mass), Given(1.0 / a.mass), Given(a.unknown48),
        Given(a.unknown4C), Given(a.unknown50), Given(a.unknown54), Given(a.inertiaTensor),
        Given(env.invert(a.inertiaTensor)), env.composite(Selected(gobjs, env.boundTypes))))
  }

  /** The inverse mass written is the inverse of the mass written. */
  lemma {:induction false} ArchetypeInverseMass(lod: Obj, gobjs: seq<Obj>, env: Env)
    requires ArchetypeOf(lod, gobjs, env).Ok?
    ensures ArchetypeOf(lod, gobjs, env).value.mass.value * ArchetypeOf(lod, gobjs, env).value.massInv.value == 1.0
  {
  }

  /** The group record of one group object. */
  function GroupEntry(gobjs: seq<Obj>, g: Obj): (r: Result<GroupItem, ExportError>)
    ensures r.Ok? <==> ParentGroupIndex(gobjs, g).Ok?
    ensures r.Ok? ==> r.value.name == Given(GroupName(g.name))
    ensures r.Ok? ==> r.value.parentIndex == Given(ParentGroupIndex(gobjs, g).value)
    ensures r.Ok? ==> r.value.tuning == Given(g.groupSettings) && r.value.restoringStrength == BaseDefault
  {
    match ParentGroupIndex(gobjs, g)
    case Err(e) => Err(e)
    case Ok(p) =>
      Ok(NewGroupItem().(name := Given(GroupName(g.name)), parentIndex := Given(p), tuning := Given(g.groupSettings)))
  }

  function GroupStep(gobjs: seq<Obj>): Obj -> Result<GroupItem, ExportError> {
    g => GroupEntry(gobjs, g)
  }

  /**
   * The drawable record of a child: built from the drawable the child
   * shows, or, when it shows none, an empty one with the identity matrix.
   */
  function DrawableOf(o: Obj): (d: FragmentDrawable)
    ensures d.builtFrom == Some(o.id) && d.lowerModels == LowerModelsKept
  {
    FragmentDrawable(BaseDefault, Some(o.id), LowerModelsKept)
  }

  function ChildDrawable(shown: Option<Obj>): (d: FragmentDrawable)
    ensures d.builtFrom == (if shown.Some? then Some(shown.value.id) else None)
    ensures shown.None? ==> d.matrix == Given(Identity())
    ensures d.lowerModels == LowerModelsKept
  {
    match shown
    case Some(o) => DrawableOf(o)
    case None => NewFragmentDrawable().(matrix := Given(Identity()))
  }

  /**
   * The transform and child record of one child object: the child's group
   * index is its parent's first position among the LOD's groups.
   */
  function ChildEntry(gobjs: seq<Obj>, offset: Vector3, env: Env, c: Obj): (r: Result<(MatrixItem, ChildrenItem), ExportError>)
    ensures c.parent.None? ==> r == Err(NoParent(c.name))
    ensures r.Err? ==> r == Err(NoParent(c.name)) || r == Err(ParentNotListed(c.name))
    ensures r.Ok? <==> c.parent.Some? && IndexOfId(gobjs, c.parent.value.id).Some?
    ensures r.Ok? ==> r.value.1.groupIndex == Given(IndexOfId(gobjs, c.parent.value.id).value as int)
    ensures r.Ok? ==> r.value.0 == NewTransformItem("Item", Some(ChildTransform(c.matrixBasis, offset)))
    ensures r.Ok? ==> r.value.1.drawable == ChildDrawable(env.fragmentDrawable(c))
    ensures r.Ok? ==> r.value.1.unkFloat == BaseDefault
  {
    match c.parent
    case None => Err(NoParent(c.name))
    case Some(p) =>
      match IndexOfId(gobjs, p.id)
      case None => Err(ParentNotListed(c.name))
      case Some(gi) =>
        var s := c.childSettings;
        var item := NewChildrenItem().(
          groupIndex := Given(gi), boneTag := Given(s.boneTag), pristineMass := Given(s.pristineMass),
          damagedMass := Given(s.damagedMass), unkVec := Given(s.unkVec), inertiaTensor := Given(s.inertiaTensor),
          drawable := ChildDrawable(env.fragmentDrawable(c)));
        Ok((NewTransformItem("Item", Some(ChildTransform(c.matrixBasis, offset))), item))
  }

  function ChildStep(gobjs: seq<Obj>, offset: Vector3, env: Env): Obj -> Result<(MatrixItem, ChildrenItem), ExportError> {
    c => ChildEntry(gobjs, offset, env, c)
  }

  /** The window record of one window object, numbered by its parent group. */
  function WindowEntry(gobjs: seq<Obj>, env: Env, w: Obj): (r: Result<WindowItem, ExportError>)
    ensures r.Ok? <==> ParentGroupIndex(gobjs, w).Ok?
    ensures r.Ok? ==> r.value == env.window(w).(itemId := Given(ParentGroupIndex(gobjs, w).value))
  {
    match ParentGroupIndex(gobjs, w)
    case Err(e) => Err(e)
    case Ok(p) => Ok(env.window(w).(itemId := Given(p)))
  }

  function WindowStep(gobjs: seq<Obj>, env: Env): Obj -> Result<WindowItem, ExportError> {
    w => WindowEntry(gobjs, env, w)
  }

  /** `f"LOD{idx+1}"`: a LOD record is tagged by its position in the fragment's LOD list. */
  function LodTag(idx: nat): (t: string)
    ensures |t| >= 4 && t[..3] == "LOD"
    ensures ParseInt(t[3..]) == Some(idx + 1)
  {
    var digits := NatToString(idx + 1);
    NatDigitsRoundTrip(idx + 1);
    assert ("LOD" + digits)[3..] == digits;
    "LOD" + digits
  }

  /** Different positions give different tags. */
  lemma {:induction false} LodTagsDistinct(i: nat, j: nat)
    requires i != j
    ensures LodTag(i) != LodTag(j)
  {
  }

  /** What one LOD contributes: its record, and the window records that go to the fragment. */
  datatype LodExport = LodExport(lod: LodProperty, windows: seq<WindowItem>)

  /** The firsts and seconds of a list of pairs. */
  function Firsts<X, Y>(ps: seq<(X, Y)>): (r: seq<X>)
    ensures |r| == |ps| && forall i :: 0 <= i < |ps| ==> r[i] == ps[i].0
  {
    seq(|ps|, i requires 0 <= i < |ps| => ps[i].0)
  }

  function Seconds<X, Y>(ps: seq<(X, Y)>): (r: seq<Y>)
    ensures |r| == |ps| && forall i :: 0 <= i < |ps| ==> r[i] == ps[i].1
  {
    seq(|ps|, i requires 0 <= i < |ps| => ps[i].1)
  }

  lemma {:induction false} PairsSnoc<X, Y>(ps: seq<(X, Y)>, p: (X, Y))
    ensures Firsts(ps + [p]) == Firsts(ps) + [p.0] && Seconds(ps + [p]) == Seconds(ps) + [p.1]
  {
  }

  /**
   * The export of the LOD object `lod` at position `idx`: the archetype,
   * then one group record per collected group, one transform and one child
   * record per child object below the groups, and one window record per
   * window object below the groups, stopping at the first error.
   */
  function LodOf(lod: Obj, idx: nat, env: Env): (r: Result<LodExport, ExportError>)
    ensures r.Ok? ==> r.value.lod.tag == LodTag(idx) && r.value.lod.tuning == Given(lod.lodSettings)
  {
    var gobjs := GroupList(lod);
    var cobjs := Selected(gobjs, {FragChildType});
    var vwobjs := Selected(gobjs, {FragVehicleWindowType});
    match ArchetypeOf(lod, gobjs, env)
    case Err(e) => Err(e)
    case Ok(arch) =>
      match MapResult(gobjs, GroupStep(gobjs))
      case Err(e) => Err(e)
      case Ok(groups) =>
        match MapResult(cobjs, ChildStep(gobjs, lod.lodSettings.positionOffset, env))
        case Err(e) => Err(e)
        case Ok(pairs) =>
          match MapResult(vwobjs, WindowStep(gobjs, env))
          case Err(e) => Err(e)
          case Ok(windows) =>
            var flod := NewLod(LodTag(idx)).(tuning := Given(lod.lodSettings), archetype := arch,
              transforms := Firsts(pairs), groups := groups, children := Seconds(pairs));
            Ok(LodExport(flod, windows))
  }

  /** The exporter's group loop: one record per collected group. */
  method ExportGroups(gobjs: seq<Obj>) returns (r: Result<seq<GroupItem>, ExportError>)
    ensures r == MapResult(gobjs, GroupStep(gobjs))
  {
    var groups: seq<GroupItem> := [];
    for k := 0 to |gobjs|
      invariant MapResult(gobjs[..k], GroupStep(gobjs)) == Ok(groups)
    {
      var group := GroupEntry(gobjs, gobjs[k]);
      MapResultNext(gobjs, GroupStep(gobjs), k, groups);
      if group.Err? {
        return Err(group.error);
      }
      groups := groups + [group.value];
    }
    assert gobjs[..|gobjs|] == gobjs;
    r := Ok(groups);
  }

  /** The exporter's child loop: one transform and one child record per child object. */
  method ExportChildren(gobjs: seq<Obj>, cobjs: seq<Obj>, offset: Vector3, env: Env)
    returns (r: Result<(seq<MatrixItem>, seq<ChildrenItem>), ExportError>)
    ensures var m := MapResult(cobjs, ChildStep(gobjs, offset, env));
      (r.Ok? <==> m.Ok?) && (r.Err? ==> r.error == m.error)
      && (r.Ok? ==> r.value == (Firsts(m.value), Seconds(m.value)))
  {
    var transforms: seq<MatrixItem> := [];
    var children: seq<ChildrenItem> := [];
    ghost var pairs: seq<(MatrixItem, ChildrenItem)> := [];
    for k := 0 to |cobjs|
      invariant MapResult(cobjs[..k], ChildStep(gobjs, offset, env)) == Ok(pairs)
      invariant transforms == Firsts(pairs) && children == Seconds(pairs)
    {
      var entry := ChildEntry(gobjs, offset, env, cobjs[k]);
      MapResultNext(cobjs, ChildStep(gobjs, offset, env), k, pairs);
      if entry.Err? {
        return Err(entry.error);
      }
      PairsSnoc(pairs, entry.value);
      transforms := transforms + [entry.value.0];
      children := children + [entry.value.1];
      pairs := pairs + [entry.value];
    }
    assert cobjs[..|cobjs|] == cobjs;
    r := Ok((transforms, children));
  }

  /** The exporter's window loop: one window record per window object. */
  method ExportWindows(gobjs: seq<Obj>, vwobjs: seq<Obj>, env: Env) returns (r: Result<seq<WindowItem>, ExportError>)
    ensures r == MapResult(vwobjs, WindowStep(gobjs, env))
  {
    var windows: seq<WindowItem> := [];
    for k := 0 to |vwobjs|
      invariant MapResult(vwobjs[..k], WindowStep(gobjs, env)) == Ok(windows)
    {
      var window := WindowEntry(gobjs, env, vwobjs[k]);
      MapResultNext(vwobjs, WindowStep(gobjs, env), k, windows);
      if window.Err? {
        return Err(window.error);
      }
      windows := windows + [window.value];
    }
    assert vwobjs[..|vwobjs|] == vwobjs;
    r := Ok(windows);
  }

  /** The body of the exporter's LOD loop for the LOD object `lod` at position `idx`. */
  method ExportLod(lod: Obj, idx: nat, env: Env) returns (r: Result<LodExport, ExportError>)
    ensures r == LodOf(lod, idx, env)
  {
    var gobjs := GroupObjects(lod);
    var bobjs := ObjectsOfTypes(gobjs, env.boundTypes);
    var cobjs := ObjectsOfTypes(gobjs, {FragChildType});
    var vwobjs := ObjectsOfTypes(gobjs, {FragVehicleWindowType});

    var flod := NewLod(LodTag(idx)).(tuning := Given(lod.lodSettings));
    var a := lod.archetypeSettings;
    if a.mass == 0.0 {
      return Err(ZeroArchetypeMass(lod.name));
    }
    flod := flod.(archetype := Archetype(Given(a.name), Given(a.mass), Given(1.0 / a.mass), Given(a.unknown48),
      Given(a.unknown4C), Given(a.unknown50), Given(a.unknown54), Given(a.inertiaTensor),
      Given(env.invert(a.inertiaTensor)), env.composite(bobjs)));
    assert ArchetypeOf(lod, gobjs, env) == Ok(flod.archetype);

    var groups := ExportGroups(gobjs);
    if groups.Err? {
      return Err(groups.error);
    }
    flod := flod.(groups := groups.value);
    var children := ExportChildren(gobjs, cobjs, lod.lodSettings.positionOffset, env);
    if children.Err? {
      return Err(children.error);
    }
    flod := flod.(transforms := children.value.0, children := children.value.1);
    var windows := ExportWindows(gobjs, vwobjs, env);
    if windows.Err? {
      return Err(windows.error);
    }
    r := Ok(LodExport(flod, windows.value));
  }

  /**
   * A successful LOD export holds, in order, one group record per
   * collected group, one transform and child record per child object and
   * one window record per window object, each the record of that object.
   */
  lemma {:induction false} LodRecords(lod: Obj, idx: nat, env: Env)
    requires LodOf(lod, idx, env).Ok?
    ensures var gobjs := GroupList(lod);
      var l := LodOf(lod, idx, env).value.lod;
      |l.groups| == |gobjs| && forall k :: 0 <= k < |gobjs| ==> GroupEntry(gobjs, gobjs[k]) == Ok(l.groups[k])
    ensures var gobjs := GroupList(lod);
      var cobjs := Selected(gobjs, {FragChildType});
      var l := LodOf(lod, idx, env).value.lod;
      |l.children| == |cobjs| && |l.transforms| == |cobjs|
      && forall k :: 0 <= k < |cobjs| ==>
        ChildEntry(gobjs, lod.lodSettings.positionOffset, env, cobjs[k]) == Ok((l.transforms[k], l.children[k]))
    ensures var gobjs := GroupList(lod);
      var vwobjs := Selected(gobjs, {FragVehicleWindowType});
      var ws := LodOf(lod, idx, env).value.windows;
      |ws| == |vwobjs| && forall k :: 0 <= k < |vwobjs| ==> WindowEntry(gobjs, env, vwobjs[k]) == Ok(ws[k])
  {
    var gobjs := GroupList(lod);
    var cobjs := Selected(gobjs, {FragChildType});
    var vwobjs := Selected(gobjs, {FragVehicleWindowType});
    MapResultAll(gobjs, GroupStep(gobjs));
    MapResultAll(cobjs, ChildStep(gobjs, lod.lodSettings.positionOffset, env));
    MapResultAll(vwobjs, WindowStep(gobjs, env));
  }

  /**
   * The index invariant of an exported LOD: every group's parent index is
   * 255 or a position in the group list, and every child's group index is
   * the position in the group list of that child's own parent.
   */
  lemma {:induction false} LodIndexInvariant(lod: Obj, idx: nat, env: Env)
    requires LodOf(lod, idx, env).Ok?
    ensures var gobjs := GroupList(lod);
      var l := LodOf(lod, idx, env).value.lod;
      forall k :: 0 <= k < |l.groups| ==>
        l.groups[k].parentIndex.Given?
        && (l.groups[k].parentIndex.value == NoParentGroup as int || 0 <= l.groups[k].parentIndex.value < |gobjs|)
    ensures var gobjs := GroupList(lod);
      var cobjs := Selected(gobjs, {FragChildType});
      var l := LodOf(lod, idx, env).value.lod;
      |l.children| == |cobjs|
      && forall k :: 0 <= k < |l.children| ==>
        var gi := l.children[k].groupIndex;
        gi.Given? && 0 <= gi.value < |gobjs|
        && cobjs[k].parent.Some? && gobjs[gi.value].id == cobjs[k].parent.value.id
  {
    LodRecords(lod, idx, env);
  }

  /**
   * In a well-linked LOD, a direct child of one of the collected groups
   * has a group parent that is among them.
   */
  lemma {:induction false} BelowGroupParent(lod: Obj, x: Obj)
    requires WellLinked(lod) && ChildOfOne(GroupList(lod), x)
    ensures x.parent.Some? && x.parent.value.sollumType == FragGroupType
    ensures IndexOfId(GroupList(lod), x.parent.value.id).Some?
  {
    var gobjs := GroupList(lod);
    var i :| 0 <= i < |gobjs| && x in gobjs[i].children;
    GroupListMembers(lod, gobjs[i]);
    BelowWellLinked(lod, gobjs[i]);
    BelowIsLowerGroup(lod, gobjs[i]);
    ChildLinksBack(gobjs[i], x);
  }

  /**
   * In a well-linked LOD that is not itself a group, every collected
   * group's parent is the LOD or one of the collected groups.
   */
  lemma {:induction false} GroupParentFound(lod: Obj, x: Obj)
    requires WellLinked(lod) && lod.sollumType != FragGroupType && x in GroupList(lod)
    ensures ParentGroupIndex(GroupList(lod), x).Ok?
  {
    GroupListMembers(lod, x);
    BelowParentListed(lod, x);
    if x in lod.children {
      ChildLinksBack(lod, x);
    } else {
      var h :| h in GroupsBelow(lod) && x in h.children;
      GroupListMembers(lod, h);
      var i :| 0 <= i < |GroupList(lod)| && GroupList(lod)[i] == h;
      assert ChildOfOne(GroupList(lod), x);
      BelowGroupParent(lod, x);
    }
  }

  /**
   * A well-linked LOD object with a nonzero archetype mass always exports:
   * no parent lookup fails.
   */
  lemma {:induction false} LodExportSucceeds(lod: Obj, idx: nat, env: Env)
    requires WellLinked(lod) && lod.sollumType != FragGroupType && lod.archetypeSettings.mass != 0.0
    ensures LodOf(lod, idx, env).Ok?
  {
    var gobjs := GroupList(lod);
    var cobjs := Selected(gobjs, {FragChildType});
    var vwobjs := Selected(gobjs, {FragVehicleWindowType});
    forall k | 0 <= k < |gobjs|
      ensures GroupStep(gobjs)(gobjs[k]).Ok?
    {
      GroupParentFound(lod, gobjs[k]);
    }
    MapResultAll(gobjs, GroupStep(gobjs));
    forall k | 0 <= k < |cobjs|
      ensures ChildStep(gobjs, lod.lodSettings.positionOffset, env)(cobjs[k]).Ok?
    {
      BelowSelected(lod, {FragChildType}, cobjs[k]);
    }
    MapResultAll(cobjs, ChildStep(gobjs, lod.lodSettings.positionOffset, env));
    forall k | 0 <= k < |vwobjs|
      ensures WindowStep(gobjs, env)(vwobjs[k]).Ok?
    {
      BelowSelected(lod, {FragVehicleWindowType}, vwobjs[k]);
    }
    MapResultAll(vwobjs, WindowStep(gobjs, env));
  }

  /** A child or window object selected below the groups hangs from one of them. */
  lemma {:induction false} BelowSelected(lod: Obj, types: set<SollumType>, x: Obj)
    requires WellLinked(lod) && FragGroupType !in types && x in Selected(GroupList(lod), types)
    ensures x.parent.Some? && x.parent.value.sollumType == FragGroupType
    ensures IndexOfId(GroupList(lod), x.parent.value.id).Some?
  {
    SelectedMembers(GroupList(lod), types, x);
    if x in GroupList(lod) {
      GroupListAreGroups(lod, x);
    }
    BelowGroupParent(lod, x);
  }

  /** The errors a LOD export can stop with: a zero mass or a failed parent lookup. */
  lemma {:induction false} LodErrorKinds(lod: Obj, idx: nat, env: Env)
    requires LodOf(lod, idx, env).Err?
    ensures LodOf(lod, idx, env).error.ZeroArchetypeMass? || LodOf(lod, idx, env).error.NoParent?
      || LodOf(lod, idx, env).error.ParentNotListed?
  {
    var gobjs := GroupList(lod);
    var cobjs := Selected(gobjs, {FragChildType});
    var vwobjs := Selected(gobjs, {FragVehicleWindowType});
    if ArchetypeOf(lod, gobjs, env).Ok? {
      if MapResult(gobjs, GroupStep(gobjs)).Err? {
        MapResultFirstErr(gobjs, GroupStep(gobjs));
      } else if MapResult(cobjs, ChildStep(gobjs, lod.lodSettings.positionOffset, env)).Err? {
        MapResultFirstErr(cobjs, ChildStep(gobjs, lod.lodSettings.positionOffset, env));
      } else {
        MapResultFirstErr(vwobjs, WindowStep(gobjs, env));
      }
    }
  }

  // ---------------------------------------------------------------------
  // The fragment (`fragment_from_object`)

  /** The last of `objs` whose type is `t`: the exporter's drawable loop keeps the last one it meets. */
  function LastOfType(objs: seq<Obj>, t: SollumType): (r: Option<Obj>)
    ensures r.Some? ==> r.value.sollumType == t
  {
    if objs == [] then None
    else if objs[|objs| - 1].sollumType == t then Some(objs[|objs| - 1])
    else LastOfType(objs[..|objs| - 1], t)
  }

  /** Nothing is found exactly when no object has type `t`. */
  lemma {:induction false} LastOfTypeNone(objs: seq<Obj>, t: SollumType)
    ensures LastOfType(objs, t).None? <==> forall i :: 0 <= i < |objs| ==> objs[i].sollumType != t
  {
    if objs != [] && objs[|objs| - 1].sollumType != t {
      var init := objs[..|objs| - 1];
      LastOfTypeNone(init, t);
      assert forall i :: 0 <= i < |init| ==> init[i] == objs[i];
    }
  }

  /** No object of type `t` follows the one found. */
  lemma {:induction false} LastOfTypeIsLast(objs: seq<Obj>, t: SollumType)
    requires LastOfType(objs, t).Some?
    ensures exists i :: 0 <= i < |objs| && objs[i] == LastOfType(objs, t).value &&
                        forall j :: i < j < |objs| ==> objs[j].sollumType != t
  {
    var n := |objs| - 1;
    if objs[n].sollumType == t {
      assert objs[n] == LastOfType(objs, t).value;
    } else {
      var init := objs[..n];
      assert LastOfType(objs, t) == LastOfType(init, t);
      LastOfTypeIsLast(init, t);
      var i :| 0 <= i < |init| && init[i] == LastOfType(init, t).value &&
               forall j :: i < j < |init| ==> init[j].sollumType != t;
      assert objs[i] == init[i];
      assert forall j :: i < j < n ==> objs[j] == init[j];
    }
  }

  /** `enumerate(lods)` */
  function Enumerate(lods: seq<Obj>): (r: seq<(nat, Obj)>)
    ensures |r| == |lods| && forall i :: 0 <= i < |lods| ==> r[i] == (i, lods[i])
  {
    seq(|lods|, i requires 0 <= i < |lods| => (i, lods[i]))
  }

  function LodStep(env: Env): ((nat, Obj)) -> Result<LodExport, ExportError> {
    (p: (nat, Obj)) => LodOf(p.1, p.0, env)
  }

  /**
   * The physics slot for LOD type `t`: the record of the last LOD object
   * whose type is `t`, or nothing when there is none.
   */
  function SlotOf(lods: seq<Obj>, exports: seq<LodExport>, t: int): (r: Option<LodProperty>)
    requires |exports| == |lods|
    ensures r.None? <==> forall k :: 0 <= k < |lods| ==> lods[k].lodType != t
  {
    if lods == [] then None
    else if lods[|lods| - 1].lodType == t then Some(exports[|lods| - 1].lod)
    else
      var n := |lods| - 1;
      assert forall k :: 0 <= k < n ==> lods[..n][k] == lods[k];
      SlotOf(lods[..n], exports[..n], t)
  }

  /** A filled slot holds the record of the last LOD of that type. */
  lemma {:induction false} SlotOfLast(lods: seq<Obj>, exports: seq<LodExport>, t: int)
    requires |exports| == |lods|
    ensures SlotOf(lods, exports, t).Some? ==>
      exists k :: 0 <= k < |lods| && lods[k].lodType == t && SlotOf(lods, exports, t) == Some(exports[k].lod)
        && forall j :: k < j < |lods| ==> lods[j].lodType != t
  {
    if lods != [] {
      var n := |lods| - 1;
      if lods[n].lodType == t {
        assert SlotOf(lods, exports, t) == Some(exports[n].lod);
      } else {
        var pl, pe := lods[..n], exports[..n];
        var r := SlotOf(pl, pe, t);
        assert SlotOf(lods, exports, t) == r;
        if r.Some? {
          SlotOfLast(pl, pe, t);
          var k :| 0 <= k < n && pl[k].lodType == t && r == Some(pe[k].lod)
            && forall j :: k < j < n ==> pl[j].lodType != t;
          assert pl[k] == lods[k] && pe[k] == exports[k];
          assert forall j :: k < j < |lods| ==> lods[j].lodType != t by {
            assert forall j :: k < j < n ==> pl[j] == lods[j];
          }
          assert 0 <= k < |lods| && lods[k].lodType == t && SlotOf(lods, exports, t) == Some(exports[k].lod);
        }
      }
    }
  }

  /** Every LOD's window records, LOD after LOD. */
  function AllWindows(exports: seq<LodExport>): (ws: seq<WindowItem>)
    ensures forall w :: w in ws ==> exists k :: 0 <= k < |exports| && w in exports[k].windows
  {
    if exports == [] then []
    else AllWindows(exports[..|exports| - 1]) + exports[|exports| - 1].windows
  }

  /** The physics slot numbered `t`. */
  function PhysicsSlot(p: Physics, t: int): Option<LodProperty>
    requires 1 <= t <= 3
  {
    if t == 1 then p.lod1 else if t == 2 then p.lod2 else p.lod3
  }

  /**
   * The fragment built from the fragment object `fobj`: its last drawable
   * child is the drawable, its LOD children, in order, are exported one by
   * one, each fills the physics slot its type names, and every LOD's
   * windows are collected.
   */
  function FragmentOf(fobj: Obj, env: Env): (r: Result<Fragment, ExportError>)
    ensures LastOfType(fobj.children, DrawableType).None? ==> r == Err(NoDrawable)
    ensures r.Ok? ==> r.value.name == Given(FragmentName(fobj.name))
    ensures r.Ok? ==> r.value.drawable == DrawableOf(LastOfType(fobj.children, DrawableType).value)
  {
    match LastOfType(fobj.children, DrawableType)
    case None => Err(NoDrawable)
    case Some(dobj) =>
      var lods := Keep(fobj.children, {FragLodType});
      match MapResult(Enumerate(lods), LodStep(env))
      case Err(e) => Err(e)
      case Ok(exports) =>
        var s := fobj.fragmentSettings;
        Ok(Fragment(
          Given(FragmentName(fobj.name)), Given(env.boundCenter(fobj)), Given(env.sphereRadius(dobj)),
          Given(s.unkB0), Given(s.unkB8), Given(s.unkBC), Given(s.unkC0), Given(s.unkC4), Given(s.unkCC),
          Given(s.gravityFactor), Given(s.buoyancyFactor), DrawableOf(dobj), NewBoneTransformsList(None),
          Physics(SlotOf(lods, exports, 1), SlotOf(lods, exports, 2), SlotOf(lods, exports, 3)),
          VehicleGlassWindows(NewFragment().windows.tag, AllWindows(exports))))
  }

  /** The exporter's drawable loop: the last drawable child of the fragment object. */
  method DrawableChild(fobj: Obj) returns (dobj: Option<Obj>)
    ensures dobj == LastOfType(fobj.children, DrawableType)
  {
    dobj := None;
    for i := 0 to |fobj.children|
      invariant dobj == LastOfType(fobj.children[..i], DrawableType)
    {
      assert fobj.children[..i + 1][..i] == fobj.children[..i];
      if fobj.children[i].sollumType == DrawableType {
        dobj := Some(fobj.children[i]);
      }
    }
    assert fobj.children[..|fobj.children|] == fobj.children;
  }

  /** The exporter's LOD loop: the LOD children of the fragment object, in order. */
  method LodChildren(fobj: Obj) returns (lods: seq<Obj>)
    ensures lods == Keep(fobj.children, {FragLodType})
  {
    lods := [];
    for i := 0 to |fobj.children|
      invariant lods == Keep(fobj.children[..i], {FragLodType})
    {
      assert fobj.children[..i + 1][..i] == fobj.children[..i];
      if fobj.children[i].sollumType == FragLodType {
        lods := lods + [fobj.children[i]];
      }
    }
    assert fobj.children[..|fobj.children|] == fobj.children;
  }

  /** Exporting one more LOD fills slot `t` when its type is `t`, and adds its windows. */
  lemma {:induction false} LodLoopStep(lods: seq<Obj>, exports: seq<LodExport>, e: LodExport, idx: nat, t: int)
    requires idx < |lods| && |exports| == idx
    ensures SlotOf(lods[..idx + 1], exports + [e], t) ==
            (if lods[idx].lodType == t then Some(e.lod) else SlotOf(lods[..idx], exports, t))
    ensures AllWindows(exports + [e]) == AllWindows(exports) + e.windows
  {
    assert lods[..idx + 1][..idx] == lods[..idx];
    assert (exports + [e])[..idx] == exports;
  }

  /** `fragment_from_object`, without the drawable, bone and light details. */
  method FragmentFromObject(fobj: Obj, env: Env) returns (r: Result<Fragment, ExportError>)
    ensures r == FragmentOf(fobj, env)
  {
    var dobj := DrawableChild(fobj);
    if dobj.None? {
      return Err(NoDrawable);
    }
    var fragment := NewFragment();
    fragment := fragment.(drawable := DrawableOf(dobj.value));
    var s := fobj.fragmentSettings;
    fragment := fragment.(
      name := Given(FragmentName(fobj.name)),
      boundingSphereCenter := Given(env.boundCenter(fobj)), boundingSphereRadius := Given(env.sphereRadius(dobj.value)),
      unknownB0 := Given(s.unkB0), unknownB8 := Given(s.unkB8), unknownBC := Given(s.unkBC),
      unknownC0 := Given(s.unkC0), unknownC4 := Given(s.unkC4), unknownCC := Given(s.unkCC),
      gravityFactor := Given(s.gravityFactor), buoyancyFactor := Given(s.buoyancyFactor));

    var lods := LodChildren(fobj);
    var lod1: Option<LodProperty> := None;
    var lod2: Option<LodProperty> := None;
    var lod3: Option<LodProperty> := None;
    var windows: seq<WindowItem> := [];
    ghost var exports: seq<LodExport> := [];
    for idx := 0 to |lods|
      invariant |exports| == idx && MapResult(Enumerate(lods)[..idx], LodStep(env)) == Ok(exports)
      invariant lod1 == SlotOf(lods[..idx], exports, 1)
      invariant lod2 == SlotOf(lods[..idx], exports, 2)
      invariant lod3 == SlotOf(lods[..idx], exports, 3)
      invariant windows == AllWindows(exports)
    {
      var flod := ExportLod(lods[idx], idx, env);
      MapResultNext(Enumerate(lods), LodStep(env), idx, exports);
      if flod.Err? {
        return Err(flod.error);
      }
      LodLoopStep(lods, exports, flod.value, idx, 1);
      LodLoopStep(lods, exports, flod.value, idx, 2);
      LodLoopStep(lods, exports, flod.value, idx, 3);
      windows := windows + flod.value.windows;
      if lods[idx].lodType == 1 {
        lod1 := Some(flod.value.lod);
      } else if lods[idx].lodType == 2 {
        lod2 := Some(flod.value.lod);
      } else if lods[idx].lodType == 3 {
        lod3 := Some(flod.value.lod);
      }
      exports := exports + [flod.value];
    }
    assert lods[..|lods|] == lods;
    assert Enumerate(lods)[..|lods|] == Enumerate(lods);
    fragment := fragment.(physics := Physics(lod1, lod2, lod3), windows := fragment.windows.(items := windows));
    r := Ok(fragment);
  }

  /** The export stops with "no drawable" exactly when the fragment object has no drawable child. */
  lemma {:induction false} FragmentNeedsDrawable(fobj: Obj, env: Env)
    ensures FragmentOf(fobj, env) == Err(NoDrawable) <==>
            forall i :: 0 <= i < |fobj.children| ==> fobj.children[i].sollumType != DrawableType
  {
    LastOfTypeNone(fobj.children, DrawableType);
    var lods := Keep(fobj.children, {FragLodType});
    var m := MapResult(Enumerate(lods), LodStep(env));
    if LastOfType(fobj.children, DrawableType).Some? && m.Err? {
      MapResultFirstErr(Enumerate(lods), LodStep(env));
      var k :| 0 <= k < |lods| && LodStep(env)(Enumerate(lods)[k]) == Err(m.error);
      LodErrorKinds(lods[k], k, env);
    }
  }

  /**
   * An exported fragment's physics slots and windows come from exporting
   * every LOD child of the fragment object in order.
   */
  lemma {:induction false} FragmentParts(fobj: Obj, env: Env)
    requires FragmentOf(fobj, env).Ok?
    ensures var lods := Keep(fobj.children, {FragLodType});
      var m := MapResult(Enumerate(lods), LodStep(env));
      m.Ok? && FragmentOf(fobj, env).value.physics == Physics(SlotOf(lods, m.value, 1), SlotOf(lods, m.value, 2), SlotOf(lods, m.value, 3)) &&
      FragmentOf(fobj, env).value.windows.items == AllWindows(m.value)
  {
  }

  /**
   * Once every LOD object has been exported, the slot for LOD type `t` is
   * empty exactly when no LOD object has type `t`; otherwise it holds the
   * record of the last LOD object of that type, tagged by that object's
   * position among the LOD objects, not by its type.
   */
  lemma {:induction false} SlotHoldsLast(lods: seq<Obj>, exports: seq<LodExport>, env: Env, t: int)
    requires MapResult(Enumerate(lods), LodStep(env)) == Ok(exports)
    ensures SlotOf(lods, exports, t).None? <==> forall k :: 0 <= k < |lods| ==> lods[k].lodType != t
    ensures SlotOf(lods, exports, t).Some? ==>
      exists k :: 0 <= k < |lods| && lods[k].lodType == t && (forall j :: k < j < |lods| ==> lods[j].lodType != t) &&
                  LodOf(lods[k], k, env) == Ok(exports[k]) && SlotOf(lods, exports, t) == Some(exports[k].lod) &&
                  exports[k].lod.tag == LodTag(k)
  {
    SlotOfLast(lods, exports, t);
    MapResultAll(Enumerate(lods), LodStep(env));
    if SlotOf(lods, exports, t).Some? {
      var k :| 0 <= k < |lods| && lods[k].lodType == t && SlotOf(lods, exports, t) == Some(exports[k].lod) &&
               forall j :: k < j < |lods| ==> lods[j].lodType != t;
      assert LodStep(env)(Enumerate(lods)[k]) == Ok(exports[k]);
    }
  }

  /**
   * A well-linked fragment object with a drawable child, whose LOD
   * children all have a nonzero archetype mass, always exports.
   */
  lemma {:induction false} FragmentExportSucceeds(fobj: Obj, env: Env)
    requires WellLinked(fobj)
    requires exists i :: 0 <= i < |fobj.children| && fobj.children[i].sollumType == DrawableType
    requires forall i :: 0 <= i < |fobj.children| && fobj.children[i].sollumType == FragLodType ==>
                         fobj.children[i].archetypeSettings.mass != 0.0
    ensures FragmentOf(fobj, env).Ok?
  {
    LastOfTypeNone(fobj.children, DrawableType);
    var lods := Keep(fobj.children, {FragLodType});
    forall k | 0 <= k < |lods|
      ensures LodStep(env)(Enumerate(lods)[k]).Ok?
    {
      KeepMembers(fobj.children, {FragLodType}, lods[k]);
      ChildLinksBack(fobj, lods[k]);
      LodExportSucceeds(lods[k], k, env);
    }
    MapResultAll(Enumerate(lods), LodStep(env));
  }

  /** The number of window objects below the groups of each LOD object, all LODs together. */
  function WindowObjectCount(lods: seq<Obj>): nat {
    if lods == [] then 0
    else WindowObjectCount(lods[..|lods| - 1]) + |Selected(GroupList(lods[|lods| - 1]), {FragVehicleWindowType})|
  }

  lemma {:induction false} AllWindowsCount(lods: seq<Obj>, exports: seq<LodExport>)
    requires |exports| == |lods|
    requires forall k :: 0 <= k < |lods| ==> |exports[k].windows| == |Selected(GroupList(lods[k]), {FragVehicleWindowType})|
    ensures |AllWindows(exports)| == WindowObjectCount(lods)
  {
    if lods != [] {
      var n := |lods| - 1;
      AllWindowsCount(lods[..n], exports[..n]);
    }
  }

  /**
   * The fragment holds one window record per window object below the
   * groups of every LOD object, whatever LOD type the object has.
   */
  lemma {:induction false} FragmentWindowCount(fobj: Obj, env: Env)
    requires FragmentOf(fobj, env).Ok?
    ensures |FragmentOf(fobj, env).value.windows.items| == WindowObjectCount(Keep(fobj.children, {FragLodType}))
  {
    var lods := Keep(fobj.children, {FragLodType});
    var exports := MapResult(Enumerate(lods), LodStep(env)).value;
    MapResultAll(Enumerate(lods), LodStep(env));
    forall k | 0 <= k < |lods|
      ensures |exports[k].windows| == |Selected(GroupList(lods[k]), {FragVehicleWindowType})|
    {
      assert LodStep(env)(Enumerate(lods)[k]) == Ok(exports[k]);
      LodRecords(lods[k], k, env);
    }
    AllWindowsCount(lods, exports);
  }

  // ---------------------------------------------------------------------
  // The high-detail variant (`export_yft`)

  /** `os.path.basename(p)` on POSIX: the text after the last "/". */
  function Basename(p: string): (b: string)
    ensures '/' !in b && |b| <= |p| && p[|p| - |b|..] == b
    ensures '/' !in p ==> b == p
    ensures |b| < |p| ==> p[|p| - |b| - 1] == '/'
  {
    if p == [] || p[|p| - 1] == '/' then []
    else Basename(p[..|p| - 1]) + [p[|p| - 1]]
  }

  /** `head.rstrip("/")` */
  function StripTrailingSlashes(s: string): (r: string)
    ensures |r| <= |s| && r == s[..|r|]
    ensures r == [] || r[|r| - 1] != '/'
    ensures forall i | |r| <= i < |s| :: s[i] == '/'
  {
    if s == [] || s[|s| - 1] != '/' then s else StripTrailingSlashes(s[..|s| - 1])
  }

  predicate AllSlashes(s: string) {
    forall i | 0 <= i < |s| :: s[i] == '/'
  }

  /**
   * `os.path.dirname(p)` on POSIX: everything up to the last "/", with the
   * trailing slashes removed unless it is made only of slashes.
   */
  function Dirname(p: string): (d: string)
    ensures |d| <= |p| && d == p[..|d|]
  {
    var head := p[..|p| - |Basename(p)|];
    if head != [] && !AllSlashes(head) then StripTrailingSlashes(head) else head
  }

  /** `os.path.join(a, b)` on POSIX for one further component. */
  function PathJoin(a: string, b: string): (r: string)
    ensures |b| > 0 && b[0] == '/' ==> r == b
    ensures (|b| == 0 || b[0] != '/') && (a == [] || a[|a| - 1] == '/') ==> r == a + b
    ensures (|b| == 0 || b[0] != '/') && a != [] && a[|a| - 1] != '/' ==> r == a + "/" + b
  {
    if |b| > 0 && b[0] == '/' then b
    else if a == [] || a[|a| - 1] == '/' then a + b
    else a + "/" + b
  }

  /** The high-detail file name: every ".yft.xml" in it becomes "_hi.yft.xml". */
  function HiFileName(b: string): (r: string)
    ensures !Contains(b, ".yft.xml") ==> r == b
    ensures '/' !in b ==> '/' !in r
  {
    var r := Replace(b, ".yft.xml", "_hi.yft.xml");
    assert !Contains(b, ".yft.xml") ==> r == b by {
      if !Contains(b, ".yft.xml") { ReplaceAbsent(b, ".yft.xml", "_hi.yft.xml"); }
    }
    assert '/' !in b ==> '/' !in r by {
      if '/' !in b { ReplaceAvoids(b, ".yft.xml", "_hi.yft.xml", '/'); }
    }
    r
  }

  /** The path the high-detail variant is written to. */
  function HiPath(p: string): (r: string)
    ensures '/' !in p ==> r == HiFileName(p)
  {
    PathJoin(Dirname(p), HiFileName(Basename(p)))
  }

  /** A file name without "." followed by the extension gains "_hi" before the extension. */
  lemma {:induction false} HiFileNameOfPlain(n: string)
    requires '.' !in n
    ensures HiFileName(n + ".yft.xml") == n + "_hi.yft.xml"
  {
    var s := n + ".yft.xml";
    if n == [] {
      assert s[..8] == ".yft.xml" && s[8..] == [];
      assert Replace(s[8..], ".yft.xml", "_hi.yft.xml") == [];
    } else {
      assert s[..8] != ".yft.xml" by {
        assert s[0] == n[0];
      }
      assert s[1..] == n[1..] + ".yft.xml";
      HiFileNameOfPlain(n[1..]);
      assert n == [n[0]] + n[1..];
    }
  }

  /** In a directory: "d/b" becomes "d/" followed by the high-detail name of b. */
  lemma {:induction false} HiPathInDirectory(d: string, b: string)
    requires d != [] && d[|d| - 1] != '/' && '/' !in b
    ensures HiPath(d + "/" + b) == d + "/" + HiFileName(b)
  {
    var p := d + "/" + b;
    assert Basename(p) == b by {
      assert p[|d|] == '/';
      assert p[|d| + 1..] == b;
    }
    assert Dirname(p) == d by {
      var head := p[..|p| - |b|];
      assert head == d + "/";
      assert !AllSlashes(head) by {
        assert head[|d| - 1] == d[|d| - 1];
      }
      assert StripTrailingSlashes(head) == d by {
        assert head[..|head| - 1] == d;
      }
    }
    var hb := HiFileName(b);
    assert hb == [] || hb[0] != '/';
    assert PathJoin(d, hb) == d + "/" + hb;
  }

  /** At the root: "/b" becomes "/" followed by the high-detail name of b. */
  lemma {:induction false} HiPathAtRoot(b: string)
    requires '/' !in b
    ensures HiPath("/" + b) == "/" + HiFileName(b)
  {
    var p := "/" + b;
    assert Basename(p) == b by {
      assert p[1..] == b;
    }
    assert p[..1] == "/";
  }

  /** A drawable with its medium, low and very-low model sets removed. */
  function ClearedDrawable(d: FragmentDrawable): (c: FragmentDrawable)
    ensures c.lowerModels == LowerModelsCleared && c.matrix == d.matrix && c.builtFrom == d.builtFrom
  {
    d.(lowerModels := LowerModelsCleared)
  }

  /** A child record whose drawable has its lower model sets removed. */
  function ClearedChild(c: ChildrenItem): (r: ChildrenItem)
    ensures r.drawable == ClearedDrawable(c.drawable) && r.(drawable := c.drawable) == c
  {
    c.(drawable := ClearedDrawable(c.drawable))
  }

  /**
   * The fragment written the second time: the lower model sets removed from
   * the fragment's drawable and from the drawable of every child of LOD 1;
   * with no LOD 1 the exporter raises.
   */
  function HiOf(f: Fragment): (r: Result<Fragment, ExportError>)
    ensures r.Err? <==> f.physics.lod1.None?
    ensures r.Err? ==> r.error == NoLod1
  {
    match f.physics.lod1
    case None => Err(NoLod1)
    case Some(lod1) =>
      var children := seq(|lod1.children|, i requires 0 <= i < |lod1.children| => ClearedChild(lod1.children[i]));
      Ok(f.(drawable := ClearedDrawable(f.drawable), physics := f.physics.(lod1 := Some(lod1.(children := children)))))
  }

  /**
   * The high-detail variant differs from the fragment only in the lower
   * model sets of the fragment's drawable and of LOD 1's child drawables:
   * LOD 2, LOD 3, the windows, every other part of LOD 1 and every other
   * field of each child are the same.
   */
  lemma {:induction false} HiChangesOnlyLowerModels(f: Fragment)
    requires f.physics.lod1.Some?
    ensures var h := HiOf(f).value;
      h.drawable.lowerModels == LowerModelsCleared && h.(drawable := f.drawable, physics := f.physics) == f
    ensures var h := HiOf(f).value;
      h.physics.lod2 == f.physics.lod2 && h.physics.lod3 == f.physics.lod3 && h.physics.lod1.Some?
    ensures var l, l' := f.physics.lod1.value, HiOf(f).value.physics.lod1.value;
      l'.(children := l.children) == l && |l'.children| == |l.children|
    ensures var l, l' := f.physics.lod1.value, HiOf(f).value.physics.lod1.value;
      forall i :: 0 <= i < |l.children| ==>
        l'.children[i].drawable.lowerModels == LowerModelsCleared && l'.children[i].(drawable := l.children[i].drawable) == l.children[i]
  {
  }

  /** Removing the lower model sets a second time changes nothing. */
  lemma {:induction false} HiIdempotent(f: Fragment)
    requires f.physics.lod1.Some?
    ensures HiOf(HiOf(f).value) == HiOf(f)
  {
    var h := HiOf(f).value;
    var l, l' := h.physics.lod1.value, HiOf(h).value.physics.lod1.value;
    assert l'.children == l.children;
  }

  /** The high-detail pass on the exported fragment, changing the records in place. */
  method HiDetail(f: Fragment) returns (r: Result<Fragment, ExportError>)
    ensures r == HiOf(f)
  {
    var fragment := f.(drawable := f.drawable.(lowerModels := LowerModelsCleared));
    if fragment.physics.lod1.None? {
      return Err(NoLod1);
    }
    var lod1 := fragment.physics.lod1.value;
    var children := lod1.children;
    for i := 0 to |children|
      invariant |children| == |lod1.children|
      invariant forall j :: 0 <= j < i ==> children[j] == ClearedChild(lod1.children[j])
      invariant forall j :: i <= j < |children| ==> children[j] == lod1.children[j]
    {
      var child := children[i];
      children := children[i := child.(drawable := child.drawable.(lowerModels := LowerModelsCleared))];
    }
    assert children == seq(|lod1.children|, i requires 0 <= i < |lod1.children| => ClearedChild(lod1.children[i]));
    fragment := fragment.(physics := fragment.physics.(lod1 := Some(lod1.(children := children))));
    r := Ok(fragment);
  }

  /**
   * `export_yft`: the files written, in order, and the error that stopped
   * the export, if any. The fragment is written to `filepath`; with the
   * high-detail option it is then written again, without lower model sets,
   * next to it under the "_hi" name.
   */
  method ExportYft(fobj: Obj, filepath: string, withHi: bool, env: Env)
    returns (writes: seq<(string, Fragment)>, failure: Option<ExportError>)
    ensures FragmentOf(fobj, env).Err? ==> writes == [] && failure == Some(FragmentOf(fobj, env).error)
    ensures FragmentOf(fobj, env).Ok? && !withHi ==> writes == [(filepath, FragmentOf(fobj, env).value)] && failure == None
    ensures FragmentOf(fobj, env).Ok? && withHi && HiOf(FragmentOf(fobj, env).value).Err? ==>
      writes == [(filepath, FragmentOf(fobj, env).value)] && failure == Some(NoLod1)
    ensures FragmentOf(fobj, env).Ok? && withHi && HiOf(FragmentOf(fobj, env).value).Ok? ==>
      writes == [(filepath, FragmentOf(fobj, env).value), (HiPath(filepath), HiOf(FragmentOf(fobj, env).value).value)]
      && failure == None
  {
    var fragment := FragmentFromObject(fobj, env);
    if fragment.Err? {
      return [], Some(fragment.error);
    }
    writes := [(filepath, fragment.value)];
    failure := None;
    if withHi {
      var hi := HiDetail(fragment.value);
      if hi.Err? {
        return writes, Some(hi.error);
      }
      writes := writes + [(HiPath(filepath), hi.value)];
    }
  }
}
