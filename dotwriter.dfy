/**
 * The imperative side of the DOT export: `escribir_dot_rec` as a method that reads
 * and increments the counter `contador_nodos`, and `exportar_dot` writing the whole
 * file around it. The file and stderr are the fields `salida` and `errores`; each
 * method is proved to write what `Dot.DotRec` describes.
 */
module DotWriter {
  import opened Wrappers
  import opened Ast
  import opened Decimal
  import opened Dot

  /** The lines of the `.dot` file `exportar_dot` writes for `n`. */
  function DotFile(n: Option<Node>): seq<DotLine> {
    [GraphOpen, NodeDefaults] + DotRec(n, 0).lines + [GraphClose]
  }

  /**
   * Every line of the file is the header, the closing brace, or a node or edge line
   * that is sound for the preorder numbering from 0.
   */
  lemma ExportSound(n: Option<Node>, l: DotLine)
    requires l in DotFile(n)
    ensures l == GraphOpen || l == NodeDefaults || l == GraphClose || LineSound(n, 0, l)
  {
    DotSound(n, 0);
  }

  /** The file draws every handled node the traversal visits, as node `i` for its visit `i`. */
  lemma ExportNodes(x: Node, i: nat)
    requires i < |Visits(Some(x))| && VisitedAt(Some(x), i).Some? && Handled(VisitedAt(Some(x), i).value)
    ensures NodeStmt(i, Label(VisitedAt(Some(x), i).value), StyleOf(VisitedAt(Some(x), i).value)) in DotFile(Some(x))
  {
    NodeComplete(x, 0, i, i);
  }

  /** The file has an edge between the numbers of every visited parent and child, dashed exactly for a SEQ's right child. */
  lemma ExportEdges(x: Node, i: nat, j: nat)
    requires i < |Visits(Some(x))| && j < |Visits(Some(x))| && IsChildPath(Visits(Some(x))[i], Visits(Some(x))[j])
    ensures EdgeStmt(i, j, Dashed(Some(x), Visits(Some(x))[i], Visits(Some(x))[j])) in DotFile(Some(x))
  {
    EdgeComplete(x, 0, i, j, i, j, Dashed(Some(x), Visits(Some(x))[i], Visits(Some(x))[j]));
  }

  /**
   * A tree whose root the switch does not handle (a PROG, a SENT or a BOOL) is drawn
   * as an empty graph, and the run writes only that root's diagnostic.
   */
  lemma ExportUnhandledRoot(x: Node)
    requires !Handled(x)
    ensures DotFile(Some(x)) == [GraphOpen, NodeDefaults, GraphClose]
    ensures DotRec(Some(x), 0).errors == [Diagnostic(x)]
  {
  }

  /** The output of a handled node, given its children's outputs numbered one after the other. */
  lemma DotRecHandled(n: Option<Node>, x: Node, c: int, c0: int, c1: int, a: DotOut, b: DotOut)
    requires n == Some(x) && Handled(x) && c0 == c + 1 && a == DotRec(Child(x, 0), c0) && c1 == a.next
    requires b == DotRec(Child(x, 1), c1)
    ensures DotRec(n, c).lines
      == [NodeStmt(c, Label(x), StyleOf(x))] + EdgeTo(c, Child(x, 0), c0, false) + a.lines
         + EdgeTo(c, Child(x, 1), c1, x.Seq?) + b.lines
    ensures DotRec(n, c).errors == a.errors + b.errors
    ensures DotRec(n, c).next == b.next
  {
  }

  /** The output of a node the switch does not handle: only its diagnostic, and one number used. */
  lemma DotRecUnhandled(n: Option<Node>, x: Node, c: int)
    requires n == Some(x) && !Handled(x)
    ensures DotRec(n, c) == DotOut([], [Diagnostic(x)], c + 1)
  {
  }

  lemma Append3<T>(s: seq<T>, p: seq<T>, q: seq<T>)
    ensures s + p + q == s + (p + q)
  {
  }

  lemma Append5<T>(s: seq<T>, p: seq<T>, q: seq<T>, r: seq<T>, t: seq<T>, u: seq<T>)
    ensures s + p + q + r + t + u == s + (p + q + r + t + u)
  {
  }

  class Writer {
    /** `static int contador_nodos`: the number the next visited node takes. */
    var contadorNodos: int
    /** The lines written to the open DOT file, in order. */
    var salida: seq<DotLine>
    /** The lines written to stderr, in order. */
    var errores: seq<string>

    constructor ()
      ensures contadorNodos == 0 && salida == [] && errores == []
    {
      contadorNodos := 0;
      salida := [];
      errores := [];
    }

    /**
     * `escribir_dot_rec(f, n)`: appends the lines and diagnostics of `n`, numbered
     * from the counter, and leaves the counter grown by the number of visited nodes.
     */
    method EscribirDotRec(n: Option<Node>)
      modifies this
      ensures salida == old(salida) + DotRec(n, old(contadorNodos)).lines
      ensures errores == old(errores) + DotRec(n, old(contadorNodos)).errors
      ensures contadorNodos == DotRec(n, old(contadorNodos)).next
      ensures contadorNodos == old(contadorNodos) + |Visits(n)|
      decreases Size(n), 1
    {
      DotNext(n, contadorNodos);
      if n.None? {
        return;
      }
      var x := n.value;
      var miId := contadorNodos;
      contadorNodos := contadorNodos + 1;
      ghost var s0, r0, c0 := salida, errores, contadorNodos;
      match x {
        case Seq(_, _) =>
          salida := salida + [NodeStmt(miId, "SEQ", FilledGray)];
        case Decl(id, _) =>
          salida := salida + [NodeStmt(miId, "DECL " + id, Plain)];
        case Op(op, _, _) =>
          salida := salida + [NodeStmt(miId, OpSymbol(op), Plain)];
        case Id(nombre) =>
          salida := salida + [NodeStmt(miId, nombre, Plain)];
        case Int(v) =>
          salida := salida + [NodeStmt(miId, IntToDecimal(v), Plain)];
        case Return(_) =>
          salida := salida + [NodeStmt(miId, "RETURN", FilledPink)];
        case Assign(id, _) =>
          salida := salida + [NodeStmt(miId, "ASSIGN " + id, Plain)];
        case _ =>
          errores := errores + [Diagnostic(x)];
      }
      if Handled(x) {
        // Each case then follows its non-NULL child pointers in field order.
        ghost var l := NodeStmt(miId, Label(x), StyleOf(x));
        assert salida == s0 + [l];
        assert errores == r0;
        EscribirHijo(x, miId, 0, false);
        ghost var c1 := contadorNodos;
        EscribirHijo(x, miId, 1, x.Seq?);
        ghost var a, b := DotRec(Child(x, 0), c0), DotRec(Child(x, 1), c1);
        DotRecHandled(n, x, miId, c0, c1, a, b);
        Append5(s0, [l], EdgeTo(miId, Child(x, 0), c0, false), a.lines, EdgeTo(miId, Child(x, 1), c1, x.Seq?), b.lines);
        assert errores == r0 + a.errors + b.errors;
        Append3(r0, a.errors, b.errors);
      } else {
        DotRecUnhandled(n, x, miId);
      }
    }

    /**
     * One `if (child) { fprintf(edge); escribir_dot_rec(f, child); }` of the switch:
     * for child pointer `k` of `x`, when it is not NULL, the edge from `miId` to the
     * id the child is about to take, then the child's lines.
     */
    method EscribirHijo(x: Node, miId: int, k: nat, dashed: bool)
      requires k <= 1
      modifies this
      ensures salida == old(salida) + EdgeTo(miId, Child(x, k), old(contadorNodos), dashed)
                        + DotRec(Child(x, k), old(contadorNodos)).lines
      ensures errores == old(errores) + DotRec(Child(x, k), old(contadorNodos)).errors
      ensures contadorNodos == DotRec(Child(x, k), old(contadorNodos)).next
      decreases Size(Some(x)), 0
    {
      var hijo := Child(x, k);
      if hijo.Some? {
        salida := salida + [EdgeStmt(miId, contadorNodos, dashed)];
        EscribirDotRec(hijo);
      }
    }

    /**
     * `exportar_dot(nodo, filename)` once the file is open: the header, the tree
     * numbered from a counter reset to 0, and the closing brace. The file is opened
     * for writing, so it holds only these lines.
     */
    method ExportarDot(nodo: Option<Node>)
      modifies this
      ensures salida == DotFile(nodo)
      ensures errores == old(errores) + DotRec(nodo, 0).errors
      ensures contadorNodos == |Visits(nodo)|
    {
      salida := [GraphOpen, NodeDefaults];
      contadorNodos := 0;
      EscribirDotRec(nodo);
      salida := salida + [GraphClose];
    }
  }
}
