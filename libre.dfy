/**
 * `nodo_libre`: the post-order destructor. Its effect is the sequence of `free`
 * calls it makes, each naming what is released: a node, or the name string a node
 * owns. A heap address is modelled by the node's path from the root, so on an
 * unaliased tree two released items are the same allocation exactly when they are equal.
 */
module Libre {
  import opened Wrappers
  import opened Ast

  datatype Freed = FreedNode(at: Path) | FreedName(at: Path)

  /**
   * The `free` calls of `nodo_libre` on the subtree at path `at`, in order.
   * As written, PROG and SENT release only the node itself, not their child.
   */
  function NodoLibre(n: Option<Node>, at: Path): seq<Freed> {
    match n
    case None => []
    case Some(x) =>
      match x
      case Seq(l, r) => NodoLibre(l, at + [0]) + NodoLibre(r, at + [1]) + [FreedNode(at)]
      case Op(_, l, r) => NodoLibre(l, at + [0]) + NodoLibre(r, at + [1]) + [FreedNode(at)]
      case Assign(_, e) => [FreedName(at)] + NodoLibre(e, at + [0]) + [FreedNode(at)]
      case Decl(_, e) => [FreedName(at)] + NodoLibre(e, at + [0]) + [FreedNode(at)]
      case Return(e) => NodoLibre(e, at + [0]) + [FreedNode(at)]
      case Id(_) => [FreedName(at), FreedNode(at)]
      case _ => [FreedNode(at)]
  }

  /** The destructor with the leak closed: PROG and SENT release their child too. */
  function LiberarArbol(n: Option<Node>, at: Path): seq<Freed> {
    match n
    case None => []
    case Some(x) =>
      match x
      case Seq(l, r) => LiberarArbol(l, at + [0]) + LiberarArbol(r, at + [1]) + [FreedNode(at)]
      case Op(_, l, r) => LiberarArbol(l, at + [0]) + LiberarArbol(r, at + [1]) + [FreedNode(at)]
      case Assign(_, e) => [FreedName(at)] + LiberarArbol(e, at + [0]) + [FreedNode(at)]
      case Decl(_, e) => [FreedName(at)] + LiberarArbol(e, at + [0]) + [FreedNode(at)]
      case Return(e) => LiberarArbol(e, at + [0]) + [FreedNode(at)]
      case Prog(b) => LiberarArbol(b, at + [0]) + [FreedNode(at)]
      case Sent(b) => LiberarArbol(b, at + [0]) + [FreedNode(at)]
      case Id(_) => [FreedName(at), FreedNode(at)]
      case _ => [FreedNode(at)]
  }

  /** Paths of every node of the subtree at `at` (every child pointer followed). */
  function NodePaths(n: Option<Node>, at: Path): set<Path>
    decreases Size(n)
  {
    match n
    case None => {}
    case Some(x) => {at} + NodePaths(Child(x, 0), at + [0]) + NodePaths(Child(x, 1), at + [1])
  }

  /** The nodes `nodo_libre` gives their name string back for. */
  predicate OwnsName(x: Node) {
    x.Id? || x.Decl? || x.Assign?
  }

  /** Paths of the nodes that own a name string: ID, DECL and ASSIGN. */
  function NamePaths(n: Option<Node>, at: Path): set<Path>
    decreases Size(n)
  {
    match n
    case None => {}
    case Some(x) =>
      (if OwnsName(x) then {at} else {})
      + NamePaths(Child(x, 0), at + [0]) + NamePaths(Child(x, 1), at + [1])
  }

  /** No PROG or SENT node of the tree has a child. */
  predicate NoWrapperChild(n: Option<Node>)
    decreases Size(n)
  {
    match n
    case None => true
    case Some(x) =>
      && ((x.Prog? || x.Sent?) ==> x.body.None?)
      && NoWrapperChild(Child(x, 0)) && NoWrapperChild(Child(x, 1))
  }

  /** Everything released lies in the subtree at `at`. */
  ghost predicate Within(s: seq<Freed>, at: Path) {
    forall i :: 0 <= i < |s| ==> at <= s[i].at
  }

  /** Nothing is released twice. */
  ghost predicate Once(s: seq<Freed>) {
    forall i, j :: 0 <= i < j < |s| ==> s[i] != s[j]
  }

  /** A node is released after everything at or below its own path (its name, its descendants). */
  ghost predicate NodesLast(s: seq<Freed>) {
    forall i, j :: 0 <= i < |s| && 0 <= j < |s| && i != j && s[i].FreedNode? && s[i].at <= s[j].at ==> j < i
  }

  /**
   * A release order is sound for the subtree at `at`: everything released lies in
   * that subtree, nothing is released twice, and a node is released after
   * everything below it and after its own name.
   */
  ghost predicate WellReleased(s: seq<Freed>, at: Path) {
    Within(s, at) && Once(s) && NodesLast(s)
  }

  lemma PrefixTransitive(p: Path, q: Path, r: Path)
    requires p <= q && q <= r
    ensures p <= r
  {
    assert r[..|p|] == r[..|q|][..|p|];
  }

  /** Paths below two different children of `at` never meet. */
  lemma BelowDistinctChildren(at: Path, p: Path, q: Path, j: nat, k: nat)
    requires at + [j] <= p && at + [k] <= q && j != k
    ensures p != q && !(p <= q) && !(q <= p)
  {
    assert p[|at|] == (at + [j])[|at|] == j;
    assert q[|at|] == (at + [k])[|at|] == k;
  }

  /** The release order the destructor builds: optionally the node's name, child 0's releases, child 1's, the node. */
  function Composed(named: bool, s1: seq<Freed>, s2: seq<Freed>, at: Path): seq<Freed> {
    (if named then [FreedName(at)] else []) + s1 + s2 + [FreedNode(at)]
  }

  /** Where item `i` of a composed order comes from. */
  lemma ComposedItem(named: bool, s1: seq<Freed>, s2: seq<Freed>, at: Path, i: int)
    requires Within(s1, at + [0]) && Within(s2, at + [1])
    requires 0 <= i < |Composed(named, s1, s2, at)|
    ensures var s, a := Composed(named, s1, s2, at), if named then 1 else 0;
      && |s| == a + |s1| + |s2| + 1
      && (i < a ==> s[i] == FreedName(at))
      && (a <= i < a + |s1| ==> s[i] == s1[i - a] && at + [0] <= s[i].at && at <= s[i].at && |s[i].at| > |at|)
      && (a + |s1| <= i < |s| - 1 ==> s[i] == s2[i - a - |s1|] && at + [1] <= s[i].at && at <= s[i].at && |s[i].at| > |at|)
      && (i == |s| - 1 ==> s[i] == FreedNode(at))
  {
    var s, a := Composed(named, s1, s2, at), if named then 1 else 0;
    var pre: seq<Freed> := if named then [FreedName(at)] else [];
    assert s == pre + s1 + s2 + [FreedNode(at)];
    if a <= i < a + |s1| {
      assert s[i] == s1[i - a];
      PrefixTransitive(at, at + [0], s[i].at);
    } else if a + |s1| <= i < |s| - 1 {
      assert s[i] == s2[i - a - |s1|];
      PrefixTransitive(at, at + [1], s[i].at);
    }
  }

  lemma ComposeWithin(named: bool, s1: seq<Freed>, s2: seq<Freed>, at: Path)
    requires Within(s1, at + [0]) && Within(s2, at + [1])
    ensures Within(Composed(named, s1, s2, at), at)
  {
    var s := Composed(named, s1, s2, at);
    forall i | 0 <= i < |s| ensures at <= s[i].at {
      ComposedItem(named, s1, s2, at, i);
    }
  }

  lemma ComposeOnce(named: bool, s1: seq<Freed>, s2: seq<Freed>, at: Path)
    requires Within(s1, at + [0]) && Within(s2, at + [1]) && Once(s1) && Once(s2)
    ensures Once(Composed(named, s1, s2, at))
  {
    var s, a := Composed(named, s1, s2, at), if named then 1 else 0;
    forall i, j | 0 <= i < j < |s| ensures s[i] != s[j] {
      ComposedItem(named, s1, s2, at, i);
      ComposedItem(named, s1, s2, at, j);
      if a <= i < a + |s1| && a + |s1| <= j < |s| - 1 {
        BelowDistinctChildren(at, s[i].at, s[j].at, 0, 1);
      }
    }
  }

  lemma ComposeNodesLast(named: bool, s1: seq<Freed>, s2: seq<Freed>, at: Path)
    requires Within(s1, at + [0]) && Within(s2, at + [1]) && NodesLast(s1) && NodesLast(s2)
    ensures NodesLast(Composed(named, s1, s2, at))
  {
    var s, a := Composed(named, s1, s2, at), if named then 1 else 0;
    forall i, j | 0 <= i < |s| && 0 <= j < |s| && i != j && s[i].FreedNode? && s[i].at <= s[j].at
      ensures j < i
    {
      ComposedItem(named, s1, s2, at, i);
      ComposedItem(named, s1, s2, at, j);
      if a <= i < a + |s1| {
        PrefixTransitive(at + [0], s[i].at, s[j].at);
        if a + |s1| <= j < |s| - 1 {
          BelowDistinctChildren(at, s[i].at, s[j].at, 0, 1);
        }
      } else if a + |s1| <= i < |s| - 1 {
        PrefixTransitive(at + [1], s[i].at, s[j].at);
        if a <= j < a + |s1| {
          BelowDistinctChildren(at, s[j].at, s[i].at, 0, 1);
        }
      }
    }
  }

  /**
   * The release orders the destructor builds: optionally the node's name, then the
   * releases of child 0, then those of child 1, then the node itself.
   */
  lemma Compose(named: bool, s1: seq<Freed>, s2: seq<Freed>, at: Path)
    requires WellReleased(s1, at + [0]) && WellReleased(s2, at + [1])
    ensures WellReleased(Composed(named, s1, s2, at), at)
  {
    ComposeWithin(named, s1, s2, at);
    ComposeOnce(named, s1, s2, at);
    ComposeNodesLast(named, s1, s2, at);
  }

  /** The child pointer `k` that `nodo_libre` follows: every one except the PROG/SENT child. */
  function Released(x: Node, k: nat): (c: Option<Node>)
    ensures Size(c) < Size(Some(x))
  {
    if x.Prog? || x.Sent? then None else Child(x, k)
  }

  /** Every case of `nodo_libre` is: the name if owned, child 0, child 1, the node. */
  lemma NodoLibreShape(x: Node, at: Path)
    ensures NodoLibre(Some(x), at)
         == Composed(OwnsName(x), NodoLibre(Released(x, 0), at + [0]), NodoLibre(Released(x, 1), at + [1]), at)
  {
    var l0, l1 := NodoLibre(Released(x, 0), at + [0]), NodoLibre(Released(x, 1), at + [1]);
    if x.Seq? || x.Op? {
      assert NodoLibre(Some(x), at) == l0 + l1 + [FreedNode(at)];
      assert [] + l0 == l0;
    } else if x.Assign? || x.Decl? {
      assert l1 == [];
      assert NodoLibre(Some(x), at) == [FreedName(at)] + l0 + [FreedNode(at)];
      assert [FreedName(at)] + l0 + [] == [FreedName(at)] + l0;
    } else if x.Return? {
      assert l1 == [];
      assert NodoLibre(Some(x), at) == l0 + [FreedNode(at)];
      assert [] + l0 + [] == l0;
    } else {
      assert l0 == [] && l1 == [];
      ShapeLeaf(x, at, NodoLibre(Some(x), at));
    }
  }

  /** A node whose children are not released contributes its name, if owned, and itself. */
  lemma ShapeLeaf(x: Node, at: Path, s: seq<Freed>)
    requires s == (if x.Id? then [FreedName(at), FreedNode(at)] else [FreedNode(at)])
    requires x.Id? || !OwnsName(x)
    ensures s == Composed(OwnsName(x), [], [], at)
  {
  }

  /** The same for the corrected destructor, which follows every child pointer. */
  lemma LiberarArbolShape(x: Node, at: Path)
    ensures LiberarArbol(Some(x), at)
         == Composed(OwnsName(x), LiberarArbol(Child(x, 0), at + [0]), LiberarArbol(Child(x, 1), at + [1]), at)
  {
    var l0, l1 := LiberarArbol(Child(x, 0), at + [0]), LiberarArbol(Child(x, 1), at + [1]);
    if x.Seq? || x.Op? {
      assert LiberarArbol(Some(x), at) == l0 + l1 + [FreedNode(at)];
      assert [] + l0 == l0;
    } else if x.Assign? || x.Decl? {
      assert l1 == [];
      assert LiberarArbol(Some(x), at) == [FreedName(at)] + l0 + [FreedNode(at)];
      assert [FreedName(at)] + l0 + [] == [FreedName(at)] + l0;
    } else if x.Return? || x.Prog? || x.Sent? {
      assert l1 == [];
      assert LiberarArbol(Some(x), at) == l0 + [FreedNode(at)];
      assert [] + l0 + [] == l0;
    } else {
      assert l0 == [] && l1 == [];
      ShapeLeaf(x, at, LiberarArbol(Some(x), at));
    }
  }

  /**
   * `nodo_libre` frees only what lies in the tree, frees each item once, and frees
   * each node after its name and after everything below it; the root goes last.
   */
  lemma {:induction false} NodoLibreWellReleased(n: Option<Node>, at: Path)
    ensures WellReleased(NodoLibre(n, at), at)
    ensures n.Some? ==> |NodoLibre(n, at)| > 0 && NodoLibre(n, at)[|NodoLibre(n, at)| - 1] == FreedNode(at)
    ensures n.None? ==> NodoLibre(n, at) == []
    decreases Size(n)
  {
    if n.Some? {
      var x := n.value;
      NodoLibreShape(x, at);
      NodoLibreWellReleased(Released(x, 0), at + [0]);
      NodoLibreWellReleased(Released(x, 1), at + [1]);
      Compose(OwnsName(x), NodoLibre(Released(x, 0), at + [0]), NodoLibre(Released(x, 1), at + [1]), at);
    }
  }

  /** The corrected destructor keeps the same release discipline. */
  lemma {:induction false} LiberarArbolWellReleased(n: Option<Node>, at: Path)
    ensures WellReleased(LiberarArbol(n, at), at)
    ensures n.Some? ==> |LiberarArbol(n, at)| > 0 && LiberarArbol(n, at)[|LiberarArbol(n, at)| - 1] == FreedNode(at)
    decreases Size(n)
  {
    if n.Some? {
      var x := n.value;
      LiberarArbolShape(x, at);
      LiberarArbolWellReleased(Child(x, 0), at + [0]);
      LiberarArbolWellReleased(Child(x, 1), at + [1]);
      Compose(OwnsName(x), LiberarArbol(Child(x, 0), at + [0]), LiberarArbol(Child(x, 1), at + [1]), at);
    }
  }

  /** What a composed release order contains. */
  lemma ComposedMembers(named: bool, s1: seq<Freed>, s2: seq<Freed>, at: Path, f: Freed)
    ensures f in Composed(named, s1, s2, at)
        <==> (named && f == FreedName(at)) || f in s1 || f in s2 || f == FreedNode(at)
  {
  }

  /** The corrected destructor releases every node and every owned name of the tree, and nothing else. */
  lemma {:induction false} LiberarArbolComplete(n: Option<Node>, at: Path)
    ensures forall f :: f in LiberarArbol(n, at) <==>
      (f.FreedNode? && f.at in NodePaths(n, at)) || (f.FreedName? && f.at in NamePaths(n, at))
    decreases Size(n)
  {
    match n
    case None =>
    case Some(x) =>
      var l0, l1 := LiberarArbol(Child(x, 0), at + [0]), LiberarArbol(Child(x, 1), at + [1]);
      LiberarArbolComplete(Child(x, 0), at + [0]);
      LiberarArbolComplete(Child(x, 1), at + [1]);
      LiberarArbolShape(x, at);
      forall f ensures f in LiberarArbol(n, at) <==>
        (f.FreedNode? && f.at in NodePaths(n, at)) || (f.FreedName? && f.at in NamePaths(n, at))
      {
        ComposedMembers(OwnsName(x), l0, l1, at, f);
      }
  }

  /** As written, `nodo_libre` releases nothing that is not in the tree. */
  lemma {:induction false} NodoLibreSound(n: Option<Node>, at: Path)
    ensures forall f :: f in NodoLibre(n, at) ==>
      (f.FreedNode? && f.at in NodePaths(n, at)) || (f.FreedName? && f.at in NamePaths(n, at))
    decreases Size(n)
  {
    match n
    case None =>
    case Some(x) =>
      var l0, l1 := NodoLibre(Released(x, 0), at + [0]), NodoLibre(Released(x, 1), at + [1]);
      if x.Prog? || x.Sent? {
        assert NodoLibre(n, at) == [FreedNode(at)];
      } else {
        assert Released(x, 0) == Child(x, 0) && Released(x, 1) == Child(x, 1);
        NodoLibreSound(Child(x, 0), at + [0]);
        NodoLibreSound(Child(x, 1), at + [1]);
        NodoLibreShape(x, at);
        forall f | f in NodoLibre(n, at)
          ensures (f.FreedNode? && f.at in NodePaths(n, at)) || (f.FreedName? && f.at in NamePaths(n, at))
        {
          ComposedMembers(OwnsName(x), l0, l1, at, f);
        }
      }
  }

  /** On trees whose PROG and SENT nodes are childless, `nodo_libre` is the complete destructor. */
  lemma {:induction false} NodoLibreCompleteWithoutWrapperChild(n: Option<Node>, at: Path)
    requires NoWrapperChild(n)
    ensures NodoLibre(n, at) == LiberarArbol(n, at)
    decreases Size(n)
  {
    match n
    case None =>
    case Some(x) =>
      NodoLibreCompleteWithoutWrapperChild(Child(x, 0), at + [0]);
      NodoLibreCompleteWithoutWrapperChild(Child(x, 1), at + [1]);
  }

  /** A PROG node holding a literal: the literal is a node of the tree that `nodo_libre` never frees. */
  lemma NodoLibreLeaksProgChild()
    ensures NodoLibre(Some(Prog(Some(Int(0)))), []) == [FreedNode([])]
    ensures [0] in NodePaths(Some(Prog(Some(Int(0)))), [])
    ensures FreedNode([0]) !in NodoLibre(Some(Prog(Some(Int(0)))), [])
  {
    assert [] + [0] == [0];
  }
}
