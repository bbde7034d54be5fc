/**
 * The part of `xml.etree.ElementTree` the schema layer touches: an element
 * with its tag, attributes, text and children, `element.iter()`, and the
 * discriminator-driven walk that the polymorphic list readers perform.
 */
module Xml {
  import opened Wrappers

  /** An XML element (the tail text after an element is not used by the core). */
  datatype Node = Node(tag: string, attrs: map<string, string>, text: Option<string>, children: seq<Node>)

  /** An element holding only text, as the codecs' `to_xml` produce. */
  function TextElement(tag: string, text: Option<string>): Node {
    Node(tag, map[], text, [])
  }

  /** `element.iter()`: the element itself, then every descendant, in document order. */
  function Iter(n: Node): (r: seq<Node>)
    ensures |r| >= 1 && r[0] == n
    decreases n, 1
  {
    [n] + IterAll(n.children)
  }

  /** The `iter()` walks of a run of sibling elements, one after the other. */
  function IterAll(ns: seq<Node>): seq<Node>
    decreases ns, 0
  {
    if ns == [] then [] else Iter(ns[0]) + IterAll(ns[1..])
  }

  /** Everything a sibling's walk visits is visited by the walk of the whole run. */
  lemma {:induction false} IterAllCovers(ns: seq<Node>, i: nat, x: Node)
    requires i < |ns| && x in Iter(ns[i])
    ensures x in IterAll(ns)
  {
    if i > 0 {
      IterAllCovers(ns[1..], i - 1, x);
    }
  }

  /** A child's descendants are descendants of the parent. */
  lemma {:induction false} ChildWalkCovered(n: Node, i: nat, x: Node)
    requires i < |n.children| && x in Iter(n.children[i])
    ensures x in Iter(n)
  {
    IterAllCovers(n.children, i, x);
  }

  /** A polymorphic list entry: the kind the discriminator chose and the element it is read from. */
  datatype Dispatched<K> = Dispatched(kind: K, element: Node)

  /**
   * The entries a polymorphic list reader builds from a walk: every visited
   * element whose discriminator names a known kind, in visiting order;
   * unknown discriminators are skipped.
   */
  function Dispatch<K>(nodes: seq<Node>, classify: Node -> Option<K>): (r: seq<Dispatched<K>>)
    ensures |r| <= |nodes|
  {
    if nodes == [] then []
    else
      var init := nodes[..|nodes| - 1];
      var last := nodes[|nodes| - 1];
      Dispatch(init, classify) + match classify(last) {
        case Some(k) => [Dispatched(k, last)]
        case None => []
      }
  }

  /**
   * Every entry is an element of the walk with the kind it classifies as,
   * and every element that classifies has its entry.
   */
  lemma {:induction false} DispatchMembers<K>(nodes: seq<Node>, classify: Node -> Option<K>)
    ensures forall i :: 0 <= i < |Dispatch(nodes, classify)| ==>
              Dispatch(nodes, classify)[i].element in nodes &&
              classify(Dispatch(nodes, classify)[i].element) == Some(Dispatch(nodes, classify)[i].kind)
    ensures forall x :: x in nodes && classify(x).Some? ==> Dispatched(classify(x).value, x) in Dispatch(nodes, classify)
  {
    if nodes != [] {
      var init, last := nodes[..|nodes| - 1], nodes[|nodes| - 1];
      DispatchMembers(init, classify);
      var d := Dispatch(init, classify);
      var tail := match classify(last) { case Some(k) => [Dispatched(k, last)] case None => [] };
      assert Dispatch(nodes, classify) == d + tail;
      assert forall x :: x in nodes ==> x in init || x == last;
      assert forall x :: x in init ==> x in nodes;
      var r := d + tail;
      forall i | 0 <= i < |r|
        ensures r[i].element in nodes && classify(r[i].element) == Some(r[i].kind)
      {
        if i < |d| {
          assert r[i] == d[i] && d[i].element in init;
        } else {
          assert r[i] == tail[0];
        }
      }
    }
  }

  /** The walk is read in order: entries of an earlier stretch come first. */
  lemma {:induction false} DispatchAppend<K>(a: seq<Node>, b: seq<Node>, classify: Node -> Option<K>)
    ensures Dispatch(a + b, classify) == Dispatch(a, classify) + Dispatch(b, classify)
    decreases |b|
  {
    if b != [] {
      var b' := b[..|b| - 1];
      assert (a + b)[..|a + b| - 1] == a + b';
      DispatchAppend(a, b', classify);
    } else {
      assert a + b == a;
    }
  }

  /** Reading one more element of a walk appends that element's entry, if it has a kind. */
  lemma {:induction false} DispatchStep<K>(walk: seq<Node>, i: nat, classify: Node -> Option<K>)
    requires i < |walk|
    ensures classify(walk[i]).None? ==> Dispatch(walk[..i + 1], classify) == Dispatch(walk[..i], classify)
    ensures classify(walk[i]).Some? ==>
      Dispatch(walk[..i + 1], classify) == Dispatch(walk[..i], classify) + [Dispatched(classify(walk[i]).value, walk[i])]
  {
    assert walk[..i + 1][..i] == walk[..i];
  }

  /** An element with an unknown discriminator is dropped and nothing else changes. */
  lemma {:induction false} DispatchSkipsUnknown<K>(a: seq<Node>, x: Node, b: seq<Node>, classify: Node -> Option<K>)
    requires classify(x).None?
    ensures Dispatch(a + [x] + b, classify) == Dispatch(a + b, classify)
  {
    assert Dispatch([x], classify) == [] by {
      assert [x][..0] == [];
    }
    DispatchAppend(a + [x], b, classify);
    DispatchAppend(a, [x], classify);
    DispatchAppend(a, b, classify);
    assert Dispatch(a, classify) + [] == Dispatch(a, classify);
  }

  /** When every discriminator is known, each element gives one entry, in order. */
  lemma {:induction false} DispatchAllKnown<K>(nodes: seq<Node>, classify: Node -> Option<K>)
    requires forall i :: 0 <= i < |nodes| ==> classify(nodes[i]).Some?
    ensures |Dispatch(nodes, classify)| == |nodes|
    ensures forall i :: 0 <= i < |nodes| ==>
      Dispatch(nodes, classify)[i] == Dispatched(classify(nodes[i]).value, nodes[i])
  {
    if nodes != [] {
      var init, last := nodes[..|nodes| - 1], nodes[|nodes| - 1];
      assert forall i :: 0 <= i < |init| ==> init[i] == nodes[i];
      DispatchAllKnown(init, classify);
      assert Dispatch(nodes, classify) == Dispatch(init, classify) + [Dispatched(classify(last).value, last)];
    }
  }

  /** A walk in which no discriminator is known yields no entries. */
  lemma {:induction false} DispatchNoneKnown<K>(nodes: seq<Node>, classify: Node -> Option<K>)
    requires forall x :: x in nodes ==> classify(x).None?
    ensures Dispatch(nodes, classify) == []
  {
    if nodes != [] {
      DispatchNoneKnown(nodes[..|nodes| - 1], classify);
    }
  }

  /** True when no element strictly below `c` has a known discriminator. */
  predicate NoKindsBelow<K>(c: Node, classify: Node -> Option<K>) {
    forall x :: x in IterAll(c.children) ==> classify(x).None?
  }

  /** True when no element strictly below the direct children of `n` has a known discriminator. */
  predicate NoNestedKinds<K>(n: Node, classify: Node -> Option<K>) {
    forall i :: 0 <= i < |n.children| ==> NoKindsBelow(n.children[i], classify)
  }

  /**
   * The reader walks all descendants, and that agrees with reading only
   * the direct children exactly when the list element and everything below
   * the children carry no known discriminator.
   */
  lemma {:induction false} DispatchWalkIsChildren<K>(n: Node, classify: Node -> Option<K>)
    requires classify(n).None? && NoNestedKinds(n, classify)
    ensures Dispatch(Iter(n), classify) == Dispatch(n.children, classify)
  {
    DispatchAppend([n], IterAll(n.children), classify);
    assert Dispatch([n], classify) == [] by {
      assert [n][..0] == [];
    }
    DispatchFlatRun(n.children, classify);
  }

  lemma {:induction false} DispatchFlatRun<K>(cs: seq<Node>, classify: Node -> Option<K>)
    requires forall i :: 0 <= i < |cs| ==> NoKindsBelow(cs[i], classify)
    ensures Dispatch(IterAll(cs), classify) == Dispatch(cs, classify)
  {
    if cs != [] {
      var c, rest := cs[0], cs[1..];
      forall i | 0 <= i < |rest| ensures NoKindsBelow(rest[i], classify) {
        assert rest[i] == cs[i + 1];
      }
      DispatchFlatRun(rest, classify);
      DispatchAppend(Iter(c), IterAll(rest), classify);
      DispatchLeafLike(c, classify);
      DispatchAppend([c], rest, classify);
      assert cs == [c] + rest;
    }
  }

  /** The walk of an element with no known kind below it yields at most the element's own entry. */
  lemma {:induction false} DispatchLeafLike<K>(c: Node, classify: Node -> Option<K>)
    requires NoKindsBelow(c, classify)
    ensures Dispatch(Iter(c), classify) == Dispatch([c], classify)
  {
    DispatchAppend([c], IterAll(c.children), classify);
    DispatchNoneKnown(IterAll(c.children), classify);
  }

  /** A grandchild with a known discriminator is read as well: the walk is not one level deep. */
  lemma {:induction false} GrandchildDispatched<K>(n: Node, i: nat, j: nat, classify: Node -> Option<K>)
    requires i < |n.children| && j < |n.children[i].children|
    requires classify(n.children[i].children[j]).Some?
    ensures var g := n.children[i].children[j];
      Dispatched(classify(g).value, g) in Dispatch(Iter(n), classify)
  {
    var c := n.children[i];
    var g := c.children[j];
    ChildWalkCovered(c, j, g);
    ChildWalkCovered(n, i, g);
    DispatchMembers(Iter(n), classify);
  }
}
