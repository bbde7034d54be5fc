/**
 * `get_sollumz_objects_from_objects`: the objects of a list, and their
 * direct children, whose Sollumz type is one of a given set.
 */
module SollumzHelper {
  import opened Scene

  /** No object occurs twice. */
  predicate Distinct(objs: seq<Obj>) {
    forall i, j :: 0 <= i < j < |objs| ==> objs[i] != objs[j]
  }

  /** The objects of `objs` whose type is in `types`, in their order. */
  function Keep(objs: seq<Obj>, types: set<SollumType>): (r: seq<Obj>)
    ensures |r| <= |objs|
  {
    if objs == [] then []
    else
      var last := objs[|objs| - 1];
      Keep(objs[..|objs| - 1], types) + (if last.sollumType in types then [last] else [])
  }

  /** An object is kept exactly when it is given and its type is wanted. */
  lemma {:induction false} KeepMembers(objs: seq<Obj>, types: set<SollumType>, x: Obj)
    ensures x in Keep(objs, types) <==> x in objs && x.sollumType in types
  {
    if objs != [] {
      var init, last := objs[..|objs| - 1], objs[|objs| - 1];
      KeepMembers(init, types, x);
      assert objs == init + [last];
    }
  }

  /** Keeping preserves the absence of repeats. */
  lemma {:induction false} KeepDistinct(objs: seq<Obj>, types: set<SollumType>)
    requires Distinct(objs)
    ensures Distinct(Keep(objs, types))
  {
    if objs != [] {
      var init, last := objs[..|objs| - 1], objs[|objs| - 1];
      assert Distinct(init);
      KeepDistinct(init, types);
      KeepMembers(init, types, last);
      assert last !in init;
    }
  }

  /** Keeping from a concatenation keeps from each part, in order. */
  lemma {:induction false} KeepAppend(a: seq<Obj>, b: seq<Obj>, types: set<SollumType>)
    ensures Keep(a + b, types) == Keep(a, types) + Keep(b, types)
    decreases |b|
  {
    if b == [] {
      assert a + b == a;
    } else {
      assert (a + b)[..|a + b| - 1] == a + b[..|b| - 1];
      KeepAppend(a, b[..|b| - 1], types);
    }
  }

  /**
   * What the filter returns: for each object in order, the object itself
   * when its type is wanted, then its wanted direct children in child order.
   */
  function Selected(objs: seq<Obj>, types: set<SollumType>): (r: seq<Obj>)
    ensures forall x :: x in r ==> x.sollumType in types
  {
    if objs == [] then []
    else
      var last := objs[|objs| - 1];
      var front, own, children := Selected(objs[..|objs| - 1], types), Keep([last], types), Keep(last.children, types);
      assert forall x :: x in own + children ==> x.sollumType in types by {
        forall x | x in own + children ensures x.sollumType in types {
          KeepMembers([last], types, x);
          KeepMembers(last.children, types, x);
        }
      }
      front + own + children
  }

  /** `get_sollumz_objects_from_objects(objs, types)` */
  method ObjectsOfTypes(objs: seq<Obj>, types: set<SollumType>) returns (robjs: seq<Obj>)
    ensures robjs == Selected(objs, types)
    ensures objs == [] ==> robjs == []
  {
    robjs := [];
    for i := 0 to |objs|
      invariant robjs == Selected(objs[..i], types)
    {
      var obj := objs[i];
      assert objs[..i + 1][..i] == objs[..i];
      var start := robjs;
      if obj.sollumType in types {
        robjs := robjs + [obj];
      }
      assert robjs == start + Keep([obj], types) by {
        assert [obj][..0] == [];
      }
      robjs := AppendWanted(robjs, obj.children, types);
    }
    assert objs[..|objs|] == objs;
  }

  /** The inner loop of the filter: appends the wanted children, in order. */
  method AppendWanted(acc: seq<Obj>, children: seq<Obj>, types: set<SollumType>) returns (r: seq<Obj>)
    ensures r == acc + Keep(children, types)
  {
    r := acc;
    for j := 0 to |children|
      invariant r == acc + Keep(children[..j], types)
    {
      var child := children[j];
      assert children[..j + 1][..j] == children[..j];
      if child.sollumType in types {
        r := r + [child];
      }
    }
    assert children[..|children|] == children;
  }

  /** The filter reads the list one object at a time, in order. */
  lemma {:induction false} SelectedAppend(a: seq<Obj>, b: seq<Obj>, types: set<SollumType>)
    ensures Selected(a + b, types) == Selected(a, types) + Selected(b, types)
    decreases |b|
  {
    if b == [] {
      assert a + b == a;
    } else {
      var b', l := b[..|b| - 1], b[|b| - 1];
      var sa, sb, k1, k2 := Selected(a, types), Selected(b', types), Keep([l], types), Keep(l.children, types);
      calc {
        Selected(a + b, types);
        { assert a + b == (a + b') + [l]; }
        Selected((a + b') + [l], types);
        { SelectedSnoc(a + b', l, types); }
        Selected(a + b', types) + k1 + k2;
        { SelectedAppend(a, b', types); }
        sa + sb + k1 + k2;
        sa + (sb + k1 + k2);
        { assert b == b' + [l]; SelectedSnoc(b', l, types); }
        sa + Selected(b, types);
      }
    }
  }

  lemma {:induction false} SelectedSnoc(objs: seq<Obj>, o: Obj, types: set<SollumType>)
    ensures Selected(objs + [o], types) == Selected(objs, types) + Keep([o], types) + Keep(o.children, types)
  {
    assert (objs + [o])[..|objs|] == objs;
  }

  /** One object contributes itself when wanted, then its wanted children. */
  lemma {:induction false} SelectedOne(o: Obj, types: set<SollumType>)
    ensures Selected([o], types) == (if o.sollumType in types then [o] else []) + Keep(o.children, types)
  {
    assert [o][..0] == [];
  }

  /** True when `x` is a direct child of one of `objs`. */
  predicate ChildOfOne(objs: seq<Obj>, x: Obj) {
    exists i :: 0 <= i < |objs| && x in objs[i].children
  }

  lemma {:induction false} ChildOfOneSplit(init: seq<Obj>, last: Obj, x: Obj)
    ensures ChildOfOne(init + [last], x) <==> ChildOfOne(init, x) || x in last.children
  {
    var objs := init + [last];
    if ChildOfOne(init, x) {
      var i :| 0 <= i < |init| && x in init[i].children;
      assert objs[i] == init[i];
    }
    if x in last.children {
      assert objs[|init|] == last;
    }
  }

  /**
   * An object is returned exactly when its type is wanted and it is one of
   * the given objects or a direct child of one of them.
   */
  lemma {:induction false} SelectedMembers(objs: seq<Obj>, types: set<SollumType>, x: Obj)
    ensures x in Selected(objs, types) <==> x.sollumType in types && (x in objs || ChildOfOne(objs, x))
  {
    if objs != [] {
      var init, last := objs[..|objs| - 1], objs[|objs| - 1];
      SelectedMembers(init, types, x);
      assert objs == init + [last];
      ChildOfOneSplit(init, last, x);
      KeepMembers([last], types, x);
      KeepMembers(last.children, types, x);
    }
  }

  /**
   * The filter looks one level down only: a grandchild that is neither a
   * given object nor a direct child of one is not returned, whatever its type.
   */
  lemma {:induction false} GrandchildNotSelected(o: Obj, i: nat, j: nat, types: set<SollumType>)
    requires i < |o.children| && j < |o.children[i].children|
    requires o.children[i].children[j] != o && o.children[i].children[j] !in o.children
    ensures o.children[i].children[j] !in Selected([o], types)
  {
    SelectedMembers([o], types, o.children[i].children[j]);
  }

  /**
   * Nothing removes repeats: a wanted object given together with its parent
   * is returned twice.
   */
  lemma {:induction false} ChildAndParentBothGiven(p: Obj, c: Obj, types: set<SollumType>)
    requires c in p.children && c.sollumType in types
    ensures multiset(Selected([p, c], types))[c] >= 2
  {
    assert [p, c] == [p] + [c];
    SelectedAppend([p], [c], types);
    SelectedOne(p, types);
    SelectedOne(c, types);
    KeepMembers(p.children, types, c);
    var fromP, fromC := Selected([p], types), [c] + Keep(c.children, types);
    assert c in fromP;
    assert Selected([p, c], types) == fromP + fromC;
    assert multiset(fromC)[c] >= 1;
  }
}
