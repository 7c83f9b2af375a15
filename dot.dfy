/**
 * `escribir_dot_rec` and the numbering part of `exportar_dot`: the Graphviz text of
 * a tree, with nodes numbered in preorder from the counter `contador_nodos`.
 * The lines written to the file are kept as `DotLine` values (`Render` gives their
 * exact text); the diagnostics written to stderr are kept as strings.
 */
module Dot {
  import opened Wrappers
  import opened Ast
  import opened Decimal

  datatype Style = Plain | FilledGray | FilledPink

  datatype DotLine =
    | GraphOpen
    | NodeDefaults
    | NodeStmt(id: int, caption: string, style: Style)
    | EdgeStmt(src: int, dst: int, dashed: bool)
    | GraphClose

  /** The text of a line of the DOT file. */
  function Render(l: DotLine): string {
    match l
    case GraphOpen => "digraph AST {\n"
    case NodeDefaults => "  node [shape=box, fontname=\"Arial\"];\n"
    case NodeStmt(id, caption, style) =>
      "  nodo" + IntToDecimal(id) + " [label=\"" + caption + "\"" +
      (match style
       case Plain => ""
       case FilledGray => ", style=filled, fillcolor=lightgray"
       case FilledPink => ", style=filled, fillcolor=lightpink") + "];\n"
    case EdgeStmt(src, dst, dashed) =>
      "  nodo" + IntToDecimal(src) + " -> nodo" + IntToDecimal(dst) + (if dashed then " [style=dashed]" else "") + ";\n"
    case GraphClose => "}\n"
  }

  /** The kinds the switch of `escribir_dot_rec` has a case for; PROG, SENT and BOOL fall to `default`. */
  predicate Handled(x: Node) {
    !(x.Prog? || x.Sent? || x.Bool?)
  }

  /** The operator label: only the four arithmetic operators have a symbol. */
  function OpSymbol(op: TipoOP): (s: string)
    ensures s == "?" <==> !(op.TOP_SUMA? || op.TOP_RESTA? || op.TOP_MULT? || op.TOP_DIV?)
  {
    if op == TOP_SUMA then "+"
    else if op == TOP_RESTA then "-"
    else if op == TOP_MULT then "*"
    else if op == TOP_DIV then "/"
    else "?"
  }

  /** The `label` of a handled node. */
  function Label(x: Node): string {
    match x
    case Seq(_, _) => "SEQ"
    case Decl(id, _) => "DECL " + id
    case Op(op, _, _) => OpSymbol(op)
    case Id(nombre) => nombre
    case Int(v) => IntToDecimal(v)
    case Return(_) => "RETURN"
    case Assign(id, _) => "ASSIGN " + id
    case _ => ""
  }

  /** SEQ boxes are filled light gray, RETURN boxes light pink, the rest plain. */
  function StyleOf(x: Node): Style {
    if x.Seq? then FilledGray else if x.Return? then FilledPink else Plain
  }

  /** The stderr line for a node the switch does not handle, naming its `tipo` value. */
  function Diagnostic(x: Node): string {
    "Error: tipo de nodo desconocido " + IntToDecimal(Ordinal(Tipo(x))) + "\n"
  }

  /** The lines and diagnostics written for a subtree, and the counter afterwards. */
  datatype DotOut = DotOut(lines: seq<DotLine>, errors: seq<string>, next: int)

  /** The edge line written before descending into child pointer `child`, if it is not NULL. */
  function EdgeTo(parent: int, child: Option<Node>, target: int, dashed: bool): seq<DotLine> {
    if child.Some? then [EdgeStmt(parent, target, dashed)] else []
  }

  /**
   * What `escribir_dot_rec(f, n)` writes when `contador_nodos` is `c`. A node takes
   * the current counter as its id and increments it; a handled node then writes its
   * node line and, for child pointers 0 and 1 that are not NULL, an edge to the id
   * the child is about to take followed by the child's lines. Only the right child
   * of a SEQ has a dashed edge. An unhandled node writes only a diagnostic.
   */
  function DotRec(n: Option<Node>, c: int): DotOut
    decreases Size(n)
  {
    match n
    case None => DotOut([], [], c)
    case Some(x) =>
      if !Handled(x) then DotOut([], [Diagnostic(x)], c + 1)
      else
        var a := DotRec(Child(x, 0), c + 1);
        var b := DotRec(Child(x, 1), a.next);
        DotOut([NodeStmt(c, Label(x), StyleOf(x))]
               + EdgeTo(c, Child(x, 0), c + 1, false) + a.lines
               + EdgeTo(c, Child(x, 1), a.next, x.Seq?) + b.lines,
               a.errors + b.errors, b.next)
  }

  /** Each path of `s`, one step further down child pointer `k`. */
  function Prefixed(k: nat, s: seq<Path>): (r: seq<Path>)
    ensures |r| == |s|
  {
    seq(|s|, i requires 0 <= i < |s| => [k] + s[i])
  }

  /**
   * The paths of the nodes the traversal visits, in preorder: the node, then child
   * 0's subtree, then child 1's. An unhandled node is visited (it takes a number)
   * but its children are not.
   */
  function Visits(n: Option<Node>): seq<Path>
    decreases Size(n)
  {
    match n
    case None => []
    case Some(x) =>
      if Handled(x) then [[]] + Prefixed(0, Visits(Child(x, 0))) + Prefixed(1, Visits(Child(x, 1)))
      else [[]]
  }

  /** How long `Visits` of a handled node is, and that it starts at the node itself. */
  lemma VisitsLength(x: Node)
    requires Handled(x)
    ensures |Visits(Some(x))| == 1 + |Visits(Child(x, 0))| + |Visits(Child(x, 1))|
    ensures Visits(Some(x))[0] == []
  {
  }

  /** `vk`, with `k` put in front of each path, sits at offset `o` of `v`. */
  ghost predicate Shifted(v: seq<Path>, vk: seq<Path>, o: int, k: nat) {
    0 <= o && o + |vk| <= |v| && forall i :: 0 <= i < |vk| ==> v[o + i] == [k] + vk[i]
  }

  lemma ShiftedConcat(a: seq<Path>, s: seq<Path>, b: seq<Path>, k: nat)
    ensures Shifted(a + Prefixed(k, s) + b, s, |a|, k)
  {
    var v := a + Prefixed(k, s) + b;
    forall i | 0 <= i < |s| ensures v[|a| + i] == [k] + s[i] {
      assert v[|a| + i] == Prefixed(k, s)[i] == [k] + s[i];
    }
  }

  /** Where the visits of child pointer `k` start in the visits of `x`. */
  function Offset(x: Node, k: nat): nat {
    if k == 0 then 1 else 1 + |Visits(Child(x, 0))|
  }

  /** `Visits` of a handled node: the node, then child 0's visits, then child 1's, one step further down. */
  lemma VisitsSplit(x: Node)
    requires Handled(x)
    ensures Visits(Some(x)) == [[]] + Prefixed(0, Visits(Child(x, 0))) + Prefixed(1, Visits(Child(x, 1)))
  {
  }

  /** The visits of child pointer `k` sit at `Offset(x, k)` of the visits of `x`, one step further down. */
  lemma ShiftedChild(x: Node, k: nat)
    requires Handled(x) && k <= 1
    ensures Shifted(Visits(Some(x)), Visits(Child(x, k)), Offset(x, k), k)
  {
    var v0, v1 := Visits(Child(x, 0)), Visits(Child(x, 1));
    VisitsSplit(x);
    if k == 0 {
      ShiftedConcat([[]], v0, Prefixed(1, v1), 0);
    } else {
      ShiftedConcat([[]] + Prefixed(0, v0), v1, [], 1);
      assert [[]] + Prefixed(0, v0) + Prefixed(1, v1) + [] == [[]] + Prefixed(0, v0) + Prefixed(1, v1);
    }
  }

  lemma AtCons(x: Node, k: nat, p: Path)
    ensures At(Some(x), [k] + p) == At(Child(x, k), p)
  {
    assert ([k] + p)[1..] == p;
  }

  lemma ChildPathCons(k: nat, p: Path, q: Path)
    ensures IsChildPath([k] + p, [k] + q) <==> IsChildPath(p, q)
    ensures IsChildPath(p, q) ==> ([k] + q)[|[k] + p|] == q[|p|]
  {
    if IsChildPath(p, q) {
      assert ([k] + q)[..|[k] + p|] == [k] + q[..|p|];
    }
    if IsChildPath([k] + p, [k] + q) {
      assert q[..|p|] == ([k] + q)[..|[k] + p|][1..];
    }
  }

  /** The `i`-th visit of child `k` is visit `Offset(x, k) + i` of `x`, one step further down. */
  lemma VisitShift(x: Node, k: nat, i: nat)
    requires Handled(x) && k <= 1 && i < |Visits(Child(x, k))|
    ensures Offset(x, k) + i < |Visits(Some(x))|
    ensures Visits(Some(x))[Offset(x, k) + i] == [k] + Visits(Child(x, k))[i]
  {
    ShiftedChild(x, k);
  }

  /** Every visited path names a node of the tree; the root comes first and is the only empty path. */
  lemma {:induction false} VisitsValid(n: Option<Node>)
    ensures |Visits(n)| > 0 <==> n.Some?
    ensures n.Some? ==> Visits(n)[0] == []
    ensures forall i :: 0 < i < |Visits(n)| ==> Visits(n)[i] != []
    ensures forall i :: 0 <= i < |Visits(n)| ==> At(n, Visits(n)[i]).Some?
    decreases Size(n)
  {
    if n.Some? && Handled(n.value) {
      var x := n.value;
      var v, v0 := Visits(n), Visits(Child(x, 0));
      VisitsLength(x);
      VisitsValid(Child(x, 0));
      VisitsValid(Child(x, 1));
      forall i | 0 <= i < |v|
        ensures i > 0 ==> v[i] != []
        ensures At(n, v[i]).Some?
      {
        if 1 <= i < 1 + |v0| {
          VisitStep(x, 0, i - 1);
        } else if 1 + |v0| <= i {
          VisitStep(x, 1, i - 1 - |v0|);
        }
      }
    }
  }

  lemma VisitStep(x: Node, k: nat, j: nat)
    requires Handled(x) && k <= 1 && j < |Visits(Child(x, k))|
    requires At(Child(x, k), Visits(Child(x, k))[j]).Some?
    ensures Offset(x, k) + j < |Visits(Some(x))|
    ensures Visits(Some(x))[Offset(x, k) + j] != []
    ensures At(Some(x), Visits(Some(x))[Offset(x, k) + j]).Some?
  {
    VisitShift(x, k, j);
    AtCons(x, k, Visits(Child(x, k))[j]);
  }

  /** After a subtree is written, the counter has grown by the number of nodes visited. */
  lemma {:induction false} DotNext(n: Option<Node>, c: int)
    ensures DotRec(n, c).next == c + |Visits(n)|
    decreases Size(n)
  {
    match n
    case None =>
    case Some(x) =>
      if Handled(x) {
        VisitsLength(x);
        var a := DotRec(Child(x, 0), c + 1);
        DotNext(Child(x, 0), c + 1);
        DotNext(Child(x, 1), a.next);
        assert DotRec(n, c).next == DotRec(Child(x, 1), a.next).next;
      } else {
        assert |Visits(n)| == 1;
        assert DotRec(n, c).next == c + 1;
      }
  }

  /** The `i`-th node the traversal of `n` visits, in preorder. */
  function VisitedAt(n: Option<Node>, i: nat): Option<Node>
    requires i < |Visits(n)|
  {
    At(n, Visits(n)[i])
  }

  /** Every visit after the first belongs to the visits of child 0 or of child 1. */
  lemma Region(x: Node, i: nat) returns (k: nat, j: nat)
    requires 0 < i < |Visits(Some(x))|
    ensures Handled(x) && k <= 1 && j < |Visits(Child(x, k))| && i == Offset(x, k) + j
  {
    VisitsLength(x);
    if i < 1 + |Visits(Child(x, 0))| {
      k, j := 0, i - 1;
    } else {
      k, j := 1, i - 1 - |Visits(Child(x, 0))|;
    }
  }

  /** The visit of child `k`'s `j`-th node is the parent's visit of the same node. */
  lemma VisitedAtShift(x: Node, k: nat, j: nat, i: nat)
    requires Handled(x) && k <= 1 && j < |Visits(Child(x, k))| && i == Offset(x, k) + j
    ensures i < |Visits(Some(x))|
    ensures VisitedAt(Some(x), i) == VisitedAt(Child(x, k), j)
  {
    VisitShift(x, k, j);
    AtCons(x, k, Visits(Child(x, k))[j]);
  }

  /** Path `p` names a handled node of `n` whose node line has this caption and style. */
  ghost predicate NodeAt(n: Option<Node>, p: Path, caption: string, style: Style) {
    && At(n, p).Some? && Handled(At(n, p).value)
    && caption == Label(At(n, p).value) && style == StyleOf(At(n, p).value)
  }

  /** Path `p` names a node of `n` that is a SEQ. */
  ghost predicate SeqAt(n: Option<Node>, p: Path) {
    At(n, p).Some? && At(n, p).value.Seq?
  }

  /**
   * `q` names a child of the node `p` names in `n`, and `dashed` says whether that
   * is the right child of a SEQ.
   */
  ghost predicate EdgeAt(n: Option<Node>, p: Path, q: Path, dashed: bool) {
    && IsChildPath(p, q) && At(n, p).Some?
    && dashed == (SeqAt(n, p) && q[|p|] == 1)
  }

  /**
   * Line `l`, written while numbering from `c` the nodes whose paths in `n` are `v`,
   * is sound: a node line carries the id `c + i` of the `i`-th path, which names a
   * handled node, with that node's label and style; an edge line joins the ids of
   * a node and one of its children, the parent's being the smaller, and is dashed
   * exactly when it leads from a SEQ to its right child.
   */
  ghost predicate LineIn(n: Option<Node>, v: seq<Path>, c: int, l: DotLine) {
    match l
    case NodeStmt(id, caption, style) =>
      0 <= id - c < |v| && NodeAt(n, v[id - c], caption, style)
    case EdgeStmt(src, dst, dashed) =>
      && 0 <= src - c < |v| && 0 <= dst - c < |v| && src < dst
      && EdgeAt(n, v[src - c], v[dst - c], dashed)
    case _ => false
  }

  /** A line of the DOT text of `n`, numbered from `c`, is sound for the preorder visits of `n`. */
  ghost predicate LineSound(n: Option<Node>, c: int, l: DotLine) {
    LineIn(n, Visits(n), c, l)
  }

  lemma NodeAtCons(x: Node, k: nat, p: Path, caption: string, style: Style)
    requires NodeAt(Child(x, k), p, caption, style)
    ensures NodeAt(Some(x), [k] + p, caption, style)
  {
    AtCons(x, k, p);
  }

  lemma EdgeAtCons(x: Node, k: nat, p: Path, q: Path, dashed: bool)
    requires EdgeAt(Child(x, k), p, q, dashed)
    ensures EdgeAt(Some(x), [k] + p, [k] + q, dashed)
  {
    AtCons(x, k, p);
    ChildPathCons(k, p, q);
  }

  /** A sound line of child `k`'s subtree, numbered from where that subtree starts, is sound for the parent. */
  lemma LiftLine(x: Node, k: nat, v: seq<Path>, vk: seq<Path>, o: int, c: int, start: int, l: DotLine)
    requires start == c + o && Shifted(v, vk, o, k)
    requires LineIn(Child(x, k), vk, start, l)
    ensures LineIn(Some(x), v, c, l)
  {
    match l
    case NodeStmt(id, caption, style) =>
      assert v[o + (id - start)] == [k] + vk[id - start];
      NodeAtCons(x, k, vk[id - start], caption, style);
    case EdgeStmt(src, dst, dashed) =>
      assert v[o + (src - start)] == [k] + vk[src - start];
      assert v[o + (dst - start)] == [k] + vk[dst - start];
      EdgeAtCons(x, k, vk[src - start], vk[dst - start], dashed);
  }

  /** The lines of child `k`'s subtree, sound there, are sound for the parent. */
  lemma LiftAll(x: Node, k: nat, v: seq<Path>, vk: seq<Path>, o: int, c: int, start: int, s: seq<DotLine>)
    requires start == c + o && Shifted(v, vk, o, k)
    requires forall l :: l in s ==> LineIn(Child(x, k), vk, start, l)
    ensures forall l :: l in s ==> LineIn(Some(x), v, c, l)
  {
    forall l | l in s ensures LineIn(Some(x), v, c, l) {
      LiftLine(x, k, v, vk, o, c, start, l);
    }
  }

  /** Every line `escribir_dot_rec` writes is a node line or an edge line as `LineSound` describes. */
  lemma {:induction false} DotSound(n: Option<Node>, c: int)
    ensures forall l :: l in DotRec(n, c).lines ==> LineSound(n, c, l)
    decreases Size(n)
  {
    if n.Some? && Handled(n.value) {
      var x := n.value;
      var c0, c1 := c + 1, c + Offset(x, 1);
      DotNext(Child(x, 0), c0);
      DotSound(Child(x, 0), c0);
      DotSound(Child(x, 1), c1);
      DotSoundStep(x, c, c0, c1);
    }
  }

  /** The edge from a handled node to its non-NULL child pointer `k`. */
  lemma RootEdgeSound(x: Node, k: nat, c: int, start: int, dashed: bool)
    requires Handled(x) && k <= 1 && Child(x, k).Some?
    requires start == c + Offset(x, k) && dashed == (x.Seq? && k == 1)
    ensures LineSound(Some(x), c, EdgeStmt(c, start, dashed))
  {
    VisitsValid(Child(x, k));
    VisitShift(x, k, 0);
    VisitsValid(Some(x));
    assert Visits(Child(x, k))[0] == [];
    assert IsChildPath([], [k]);
  }

  /** The node line of a handled node itself. */
  lemma RootNodeSound(x: Node, c: int)
    requires Handled(x)
    ensures LineSound(Some(x), c, NodeStmt(c, Label(x), StyleOf(x)))
  {
    VisitsLength(x);
  }

  /** One step of `DotSound`: the lines of a handled node are sound if those of its children are. */
  lemma DotSoundStep(x: Node, c: int, c0: int, c1: int)
    requires Handled(x) && c0 == c + 1 && c1 == c + Offset(x, 1)
    requires DotRec(Child(x, 0), c0).next == c1
    requires forall l :: l in DotRec(Child(x, 0), c0).lines ==> LineSound(Child(x, 0), c0, l)
    requires forall l :: l in DotRec(Child(x, 1), c1).lines ==> LineSound(Child(x, 1), c1, l)
    ensures forall l :: l in DotRec(Some(x), c).lines ==> LineSound(Some(x), c, l)
  {
    var a := DotRec(Child(x, 0), c0);
    var b := DotRec(Child(x, 1), c1);
    var r := NodeStmt(c, Label(x), StyleOf(x));
    var e0, e1 := EdgeTo(c, Child(x, 0), c0, false), EdgeTo(c, Child(x, 1), c1, x.Seq?);
    var lines := DotRec(Some(x), c).lines;
    assert lines == [r] + e0 + a.lines + e1 + b.lines;
    var v := Visits(Some(x));
    ShiftedChild(x, 0);
    ShiftedChild(x, 1);
    LiftAll(x, 0, v, Visits(Child(x, 0)), Offset(x, 0), c, c0, a.lines);
    LiftAll(x, 1, v, Visits(Child(x, 1)), Offset(x, 1), c, c1, b.lines);
    forall l | l in lines ensures LineSound(Some(x), c, l) {
      if l in a.lines || l in b.lines {
      } else if l == r {
        RootNodeSound(x, c);
      } else if l in e0 {
        RootEdgeSound(x, 0, c, c0, false);
      } else {
        assert l in e1;
        RootEdgeSound(x, 1, c, c1, x.Seq?);
      }
    }
  }

  /** The lines of a handled node: its own, then each child's edge and lines, child 1 numbered after child 0's subtree. */
  lemma DotLines(x: Node, c: int, c0: int, c1: int)
    requires Handled(x) && c0 == c + 1 && c1 == c + Offset(x, 1)
    ensures DotRec(Some(x), c).lines
      == [NodeStmt(c, Label(x), StyleOf(x))]
         + EdgeTo(c, Child(x, 0), c0, false) + DotRec(Child(x, 0), c0).lines
         + EdgeTo(c, Child(x, 1), c1, x.Seq?) + DotRec(Child(x, 1), c1).lines
  {
    DotNext(Child(x, 0), c0);
    assert DotRec(Child(x, 0), c0).next == c1;
  }

  /** A line of either child's subtree, numbered where that subtree starts, is a line of the node. */
  lemma ChildLineIn(x: Node, c: int, c0: int, c1: int, l: DotLine)
    requires Handled(x) && c0 == c + 1 && c1 == c + Offset(x, 1)
    requires l in DotRec(Child(x, 0), c0).lines || l in DotRec(Child(x, 1), c1).lines
    ensures l in DotRec(Some(x), c).lines
  {
    DotLines(x, c, c0, c1);
  }

  /** The edge to a non-NULL child leads to the id that child takes. */
  lemma RootEdgeIn(x: Node, c: int, c0: int, c1: int)
    requires Handled(x) && c0 == c + 1 && c1 == c + Offset(x, 1)
    ensures Child(x, 0).Some? ==> EdgeStmt(c, c0, false) in DotRec(Some(x), c).lines
    ensures Child(x, 1).Some? ==> EdgeStmt(c, c1, x.Seq?) in DotRec(Some(x), c).lines
  {
    DotLines(x, c, c0, c1);
  }

  lemma RootVisit(n: Option<Node>)
    requires n.Some?
    ensures |Visits(n)| > 0 && Visits(n)[0] == [] && VisitedAt(n, 0) == n
  {
    VisitsValid(n);
  }

  lemma VisitBelowRoot(n: Option<Node>, i: nat)
    requires 0 < i < |Visits(n)|
    ensures Visits(n)[i] != []
  {
    VisitsValid(n);
  }

  /** Every handled node the traversal visits gets its node line, with the id `c + i` of its visit. */
  lemma {:induction false} NodeComplete(x: Node, c: int, i: nat, id: int)
    requires i < |Visits(Some(x))| && VisitedAt(Some(x), i).Some? && Handled(VisitedAt(Some(x), i).value)
    requires id == c + i
    ensures NodeStmt(id, Label(VisitedAt(Some(x), i).value), StyleOf(VisitedAt(Some(x), i).value)) in DotRec(Some(x), c).lines
    decreases Size(Some(x))
  {
    var y := VisitedAt(Some(x), i).value;
    RootVisit(Some(x));
    if i == 0 {
      var c0, c1 := c + 1, c + Offset(x, 1);
      DotLines(x, c, c0, c1);
      assert id == c;
    } else {
      var k, j := Region(x, i);
      VisitedAtShift(x, k, j, i);
      var ck := c + Offset(x, k);
      NodeComplete(Child(x, k).value, ck, j, id);
      ChildLine(x, c, k, ck, NodeStmt(id, Label(y), StyleOf(y)));
    }
  }

  /** Two paths one step below the root are parent and child exactly when they go down the same pointer and their rests are. */
  lemma ChildPathSplit(p: Path, q: Path, kp: nat, kq: nat, p': Path, q': Path)
    requires p == [kp] + p' && q == [kq] + q' && IsChildPath(p, q)
    ensures kp == kq && IsChildPath(p', q') && q[|p|] == q'[|p'|]
  {
    assert q[0] == q[..|p|][0] == p[0];
    assert q'[..|p'|] == q[..|p|][1..];
  }

  /** Whether the edge from the node at `p` to its child at `q` is dashed: it leads from a SEQ to its right child. */
  ghost predicate Dashed(n: Option<Node>, p: Path, q: Path)
    requires |p| < |q|
  {
    SeqAt(n, p) && q[|p|] == 1
  }

  /** A visit that is a child of the root is the root of child pointer `k`'s subtree. */
  lemma RootChildVisit(x: Node, j: nat) returns (k: nat)
    requires j < |Visits(Some(x))| && IsChildPath(Visits(Some(x))[0], Visits(Some(x))[j])
    ensures Handled(x) && k <= 1 && Child(x, k).Some? && j == Offset(x, k)
    ensures Dashed(Some(x), Visits(Some(x))[0], Visits(Some(x))[j]) == (x.Seq? && k == 1)
  {
    var v := Visits(Some(x));
    RootVisit(Some(x));
    var jj;
    k, jj := Region(x, j);
    VisitShift(x, k, jj);
    var vk := Visits(Child(x, k));
    assert vk[jj] == [] by {
      assert v[j] == [k] + vk[jj];
    }
    if jj > 0 {
      VisitBelowRoot(Child(x, k), jj);
    }
    assert v[j][0] == k;
  }

  /** Two visits below the root that are parent and child lie in the same child's subtree, where they are parent and child too. */
  lemma BelowChildVisits(x: Node, i: nat, j: nat) returns (k: nat, ii: nat, jj: nat)
    requires 0 < i < |Visits(Some(x))| && j < |Visits(Some(x))| && IsChildPath(Visits(Some(x))[i], Visits(Some(x))[j])
    ensures Handled(x) && k <= 1 && ii < |Visits(Child(x, k))| && jj < |Visits(Child(x, k))|
    ensures i == Offset(x, k) + ii && j == Offset(x, k) + jj
    ensures IsChildPath(Visits(Child(x, k))[ii], Visits(Child(x, k))[jj])
    ensures Dashed(Some(x), Visits(Some(x))[i], Visits(Some(x))[j]) == Dashed(Child(x, k), Visits(Child(x, k))[ii], Visits(Child(x, k))[jj])
  {
    var v := Visits(Some(x));
    RootVisit(Some(x));
    var kj;
    kj, jj := Region(x, j);
    k, ii := Region(x, i);
    VisitShift(x, kj, jj);
    VisitShift(x, k, ii);
    var vi, vj := Visits(Child(x, k)), Visits(Child(x, kj));
    ChildPathSplit(v[i], v[j], k, kj, vi[ii], vj[jj]);
    AtCons(x, k, vi[ii]);
  }

  /** The edge from a handled node to its non-NULL child pointer `k` is written, with the child's id. */
  lemma RootEdgeLine(x: Node, c: int, k: nat, s: int, t: int, d: bool)
    requires Handled(x) && k <= 1 && Child(x, k).Some? && s == c && t == c + Offset(x, k) && d == (x.Seq? && k == 1)
    ensures EdgeStmt(s, t, d) in DotRec(Some(x), c).lines
  {
    var c0, c1 := c + 1, c + Offset(x, 1);
    RootEdgeIn(x, c, c0, c1);
    if k == 0 {
      assert s == c && t == c0 && d == false;
      assert Child(x, 0).Some?;
    } else {
      assert s == c && t == c1 && d == x.Seq?;
      assert Child(x, 1).Some?;
    }
  }

  /**
   * Every parent-child pair among the visited nodes gets its edge line, from the
   * parent's id `s = c + i` to the child's `t = c + j`, dashed exactly for the right
   * child of a SEQ.
   */
  lemma {:induction false} EdgeComplete(x: Node, c: int, i: nat, j: nat, s: int, t: int, d: bool)
    requires i < |Visits(Some(x))| && j < |Visits(Some(x))| && IsChildPath(Visits(Some(x))[i], Visits(Some(x))[j])
    requires s == c + i && t == c + j && d == Dashed(Some(x), Visits(Some(x))[i], Visits(Some(x))[j])
    ensures EdgeStmt(s, t, d) in DotRec(Some(x), c).lines
    decreases Size(Some(x)), 1
  {
    if i == 0 {
      var k := RootChildVisit(x, j);
      RootEdgeLine(x, c, k, s, t, d);
    } else {
      EdgeCompleteBelow(x, c, i, j, s, t, d);
    }
  }

  /** `EdgeComplete` for an edge inside the subtree of one of the root's children. */
  lemma {:induction false} EdgeCompleteBelow(x: Node, c: int, i: nat, j: nat, s: int, t: int, d: bool)
    requires 0 < i < |Visits(Some(x))| && j < |Visits(Some(x))| && IsChildPath(Visits(Some(x))[i], Visits(Some(x))[j])
    requires s == c + i && t == c + j && d == Dashed(Some(x), Visits(Some(x))[i], Visits(Some(x))[j])
    ensures EdgeStmt(s, t, d) in DotRec(Some(x), c).lines
    decreases Size(Some(x)), 0
  {
    var k, ii, jj := BelowChildVisits(x, i, j);
    var ck := c + Offset(x, k);
    EdgeComplete(Child(x, k).value, ck, ii, jj, s, t, d);
    ChildLine(x, c, k, ck, EdgeStmt(s, t, d));
  }

  /** A line of child pointer `k`'s subtree, numbered where that subtree starts, is a line of the node. */
  lemma ChildLine(x: Node, c: int, k: nat, ck: int, l: DotLine)
    requires Handled(x) && k <= 1 && ck == c + Offset(x, k) && l in DotRec(Child(x, k), ck).lines
    ensures l in DotRec(Some(x), c).lines
  {
    var c0, c1 := c + 1, c + Offset(x, 1);
    if k == 0 {
      assert ck == c0;
    } else {
      assert ck == c1;
    }
    ChildLineIn(x, c, c0, c1, l);
  }

  /** The nodes the traversal of `n` visits, in preorder. */
  function VisitedNodes(n: Option<Node>): (r: seq<Option<Node>>)
    ensures |r| == |Visits(n)|
  {
    seq(|Visits(n)|, i requires 0 <= i < |Visits(n)| => VisitedAt(n, i))
  }

  /** The diagnostic of a node when it is one the switch does not handle, else nothing. */
  function DiagnosticOf(y: Option<Node>): seq<string> {
    if y.Some? && !Handled(y.value) then [Diagnostic(y.value)] else []
  }

  /** The diagnostics of the unhandled nodes among `ys`, in the order of `ys`. */
  function Diagnostics(ys: seq<Option<Node>>): seq<string>
    decreases |ys|
  {
    if ys == [] then [] else DiagnosticOf(ys[0]) + Diagnostics(ys[1..])
  }

  lemma DiagnosticsCons(y: Option<Node>, t: seq<Option<Node>>)
    ensures Diagnostics([y] + t) == DiagnosticOf(y) + Diagnostics(t)
  {
    var w := [y] + t;
    assert w[0] == y && w[1..] == t;
  }

  lemma {:induction false} DiagnosticsConcat(a: seq<Option<Node>>, b: seq<Option<Node>>)
    ensures Diagnostics(a + b) == Diagnostics(a) + Diagnostics(b)
    decreases |a|
  {
    if a == [] {
      assert a + b == b;
    } else {
      var t := a[1..];
      assert a + b == [a[0]] + (t + b);
      DiagnosticsConcat(t, b);
      DiagnosticsCons(a[0], t + b);
    }
  }

  /** The visit `i` of a handled node, for each of the three regions of its visits. */
  lemma VisitedNodeSplit(x: Node, i: nat)
    requires Handled(x) && i < |Visits(Some(x))|
    ensures var v0 := VisitedNodes(Child(x, 0));
      VisitedAt(Some(x), i) == ([Some(x)] + v0 + VisitedNodes(Child(x, 1)))[i]
  {
    var v0, v1 := VisitedNodes(Child(x, 0)), VisitedNodes(Child(x, 1));
    var w := [Some(x)] + v0 + v1;
    VisitsLength(x);
    if i == 0 {
      RootVisit(Some(x));
    } else {
      var k, j := Region(x, i);
      VisitedAtShift(x, k, j, i);
      if k == 0 {
        assert w[i] == v0[j];
      } else {
        assert w[i] == v1[j];
      }
    }
  }

  /** The visited nodes of a handled node: itself, then child 0's, then child 1's. */
  lemma VisitedNodesSplit(x: Node)
    requires Handled(x)
    ensures VisitedNodes(Some(x)) == [Some(x)] + VisitedNodes(Child(x, 0)) + VisitedNodes(Child(x, 1))
  {
    var w := [Some(x)] + VisitedNodes(Child(x, 0)) + VisitedNodes(Child(x, 1));
    VisitsLength(x);
    forall i | 0 <= i < |w| ensures VisitedNodes(Some(x))[i] == w[i] {
      VisitedNodeSplit(x, i);
    }
  }

  /** The diagnostics of a handled node are child 0's, then child 1's numbered after child 0's subtree. */
  lemma DotErrorsStep(x: Node, c: int, c0: int, c1: int)
    requires Handled(x) && c0 == c + 1 && DotRec(Child(x, 0), c0).next == c1
    ensures DotRec(Some(x), c).errors == DotRec(Child(x, 0), c0).errors + DotRec(Child(x, 1), c1).errors
  {
  }

  /** The unhandled visited nodes of a handled node are child 0's, then child 1's. */
  lemma DiagnosticsSplit(x: Node)
    requires Handled(x)
    ensures Diagnostics(VisitedNodes(Some(x)))
      == Diagnostics(VisitedNodes(Child(x, 0))) + Diagnostics(VisitedNodes(Child(x, 1)))
  {
    var r: seq<Option<Node>> := [Some(x)];
    var v0, v1 := VisitedNodes(Child(x, 0)), VisitedNodes(Child(x, 1));
    VisitedNodesSplit(x);
    DiagnosticsConcat(r + v0, v1);
    DiagnosticsConcat(r, v0);
    DiagnosticsCons(Some(x), []);
  }

  /**
   * What `escribir_dot_rec` writes to stderr: one diagnostic for each unhandled node
   * it visits, in preorder, and nothing for the handled ones.
   */
  lemma {:induction false} DotErrors(n: Option<Node>, c: int)
    ensures DotRec(n, c).errors == Diagnostics(VisitedNodes(n))
    decreases Size(n)
  {
    if n.Some? {
      var x := n.value;
      if Handled(x) {
        var c0 := c + 1;
        var c1 := DotRec(Child(x, 0), c0).next;
        DotErrors(Child(x, 0), c0);
        DotErrors(Child(x, 1), c1);
        DotErrorsStep(x, c, c0, c1);
        DiagnosticsSplit(x);
      } else {
        RootVisit(n);
        assert VisitedNodes(n) == [n];
        DiagnosticsCons(n, []);
      }
    }
  }
}
