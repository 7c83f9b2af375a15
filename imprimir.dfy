/**
 * `imprimir_nodo`: the indented text dump of a tree. What the C code writes to
 * stdout is here the returned string.
 */
module Imprimir {
  import opened Wrappers
  import opened Ast
  import opened Decimal

  /** `n` spaces. */
  function Spaces(n: nat): (s: string)
    ensures |s| == n && forall i :: 0 <= i < n ==> s[i] == ' '
  {
    if n == 0 then "" else " " + Spaces(n - 1)
  }

  /** `indentaciones`: writes one space per turn of `while (n--)`. */
  method Indentaciones(n: nat) returns (s: string)
    ensures s == Spaces(n)
  {
    s := "";
    var k := n;
    while k > 0
      invariant 0 <= k <= n
      invariant |s| == n - k && forall i :: 0 <= i < |s| ==> s[i] == ' '
    {
      s := s + " ";
      k := k - 1;
    }
  }

  /** The word written before an operator's operands; TOP_ASSIGN has none of its own. */
  function OpNombre(op: TipoOP): (w: string)
    ensures |w| > 0 && w[0] != ' ' && '\n' !in w
  {
    match op
    case TOP_SUMA => "SUMA"
    case TOP_RESTA => "RESTA"
    case TOP_MULT => "MULT"
    case TOP_DIV => "DIV"
    case TOP_IGUAL => "IGUAL"
    case TOP_OR => "OR"
    case TOP_AND => "AND"
    case TOP_MAYOR => "MAYOR"
    case TOP_MENOR => "MENOR"
    case TOP_ASSIGN => "OP_DESCONOCIDO"
  }

  /** The indentation a node hands its children: one more for SEQ, RETURN, PROG and SENT, 0 otherwise. */
  function ChildIndent(x: Node, ind: nat): nat {
    if x.Seq? || x.Return? || x.Prog? || x.Sent? then ind + 1 else 0
  }

  /**
   * What `imprimir_nodo` writes for node `x` after its indentation, given the texts
   * `a` and `b` written for its child pointers 0 and 1.
   */
  function Cuerpo(x: Node, a: string, b: string): string {
    match x
    case Seq(_, _) => "SEQ\n" + a + b
    case Decl(id, e) => "DECL(" + id + (if e.Some? then " = " + a else "") + ")\n"
    case Op(op, _, _) => OpNombre(op) + "(" + a + ", " + b + ")"
    case Id(nombre) => "ID(" + nombre + ")"
    case Int(v) => IntToDecimal(v)
    case Return(_) => "RETURN\n" + a
    case Bool(v) => if v != 0 then "true" else "false"
    case Assign(id, _) => "ASSIGN(" + id + " = " + a + ")\n"
    case Prog(_) => "PROG\n" + a
    case Sent(_) => "SENT\n" + a
  }

  /**
   * The text `imprimir_nodo(n, ind)` writes: nothing for NULL, otherwise `ind`
   * spaces and the node's own text, in which the children are written at
   * `ChildIndent(x, ind)`.
   */
  function ImprimirNodo(n: Option<Node>, ind: nat): string
    decreases Size(n)
  {
    match n
    case None => ""
    case Some(x) =>
      var i := ChildIndent(x, ind);
      Spaces(ind) + Cuerpo(x, ImprimirNodo(Child(x, 0), i), ImprimirNodo(Child(x, 1), i))
  }

  /** The statement-level kinds: their text ends with a line break. */
  predicate EndsLine(x: Node) {
    x.Seq? || x.Decl? || x.Assign? || x.Return? || x.Prog? || x.Sent?
  }

  /** The number of statement-level nodes of the tree. */
  function StatementCount(n: Option<Node>): nat
    decreases Size(n)
  {
    match n
    case None => 0
    case Some(x) => (if EndsLine(x) then 1 else 0) + StatementCount(Child(x, 0)) + StatementCount(Child(x, 1))
  }

  /** No name string of the tree contains a line break. */
  predicate NamesOnOneLine(n: Option<Node>)
    decreases Size(n)
  {
    match n
    case None => true
    case Some(x) =>
      && (x.Id? ==> '\n' !in x.nombre)
      && ((x.Decl? || x.Assign?) ==> '\n' !in x.id)
      && NamesOnOneLine(Child(x, 0)) && NamesOnOneLine(Child(x, 1))
  }

  /** How many times `c` occurs in `s`. */
  function Occurrences(s: string, c: char): nat {
    if s == [] then 0 else (if s[0] == c then 1 else 0) + Occurrences(s[1..], c)
  }

  lemma {:induction false} OccurrencesConcat(a: string, b: string, c: char)
    ensures Occurrences(a + b, c) == Occurrences(a, c) + Occurrences(b, c)
  {
    if a == [] {
      assert a + b == b;
    } else {
      assert (a + b)[1..] == a[1..] + b;
      OccurrencesConcat(a[1..], b, c);
    }
  }

  lemma {:induction false} OccurrencesAbsent(s: string, c: char)
    requires c !in s
    ensures Occurrences(s, c) == 0
  {
    if s != [] {
      assert forall i :: 0 <= i < |s[1..]| ==> s[1..][i] == s[i + 1];
      OccurrencesAbsent(s[1..], c);
    }
  }

  /** The line breaks of a text written in pieces. */
  lemma Occurrences3(p: string, q: string, r: string, c: char)
    ensures Occurrences(p + q + r, c) == Occurrences(p, c) + Occurrences(q, c) + Occurrences(r, c)
  {
    OccurrencesConcat(p + q, r, c);
    OccurrencesConcat(p, q, c);
  }

  /** The line breaks of one node's own text: one for a statement-level node, plus its children's. */
  lemma CuerpoLineBreaks(x: Node, a: string, b: string)
    requires NamesOnOneLine(Some(x))
    requires Child(x, 0).None? ==> a == ""
    requires Child(x, 1).None? ==> b == ""
    ensures Occurrences(Cuerpo(x, a, b), '\n') == (if EndsLine(x) then 1 else 0) + Occurrences(a, '\n') + Occurrences(b, '\n')
  {
    if x.Seq? || x.Return? || x.Prog? || x.Sent? {
      HeaderLineBreaks(x, a, b);
    } else if x.Decl? || x.Assign? {
      NamedLineBreaks(x, a, b);
    } else if x.Op? {
      OpLineBreaks(x, a, b);
    } else {
      OccurrencesAbsent(Cuerpo(x, a, b), '\n');
    }
  }

  lemma NewlineOnce()
    ensures Occurrences("\n", '\n') == 1
  {
    assert "\n"[1..] == "";
  }

  /** A word followed by a line break has one line break if the word has none. */
  lemma LineOfWord(w: string)
    requires '\n' !in w
    ensures Occurrences(w + "\n", '\n') == 1
  {
    OccurrencesAbsent(w, '\n');
    OccurrencesConcat(w, "\n", '\n');
    NewlineOnce();
  }

  lemma HeaderLineBreaks(x: Node, a: string, b: string)
    requires x.Seq? || x.Return? || x.Prog? || x.Sent?
    requires Child(x, 1).None? ==> b == ""
    ensures Occurrences(Cuerpo(x, a, b), '\n') == 1 + Occurrences(a, '\n') + Occurrences(b, '\n')
  {
    if x.Seq? {
      HeaderWith("SEQ", Cuerpo(x, a, b), a, b);
    } else if x.Return? {
      HeaderWith("RETURN", Cuerpo(x, a, b), a, b);
    } else if x.Prog? {
      HeaderWith("PROG", Cuerpo(x, a, b), a, b);
    } else {
      HeaderWith("SENT", Cuerpo(x, a, b), a, b);
    }
  }

  /** A header word, a line break, then the children's texts. */
  lemma HeaderWith(w: string, t: string, a: string, b: string)
    requires '\n' !in w && t == w + "\n" + a + b
    ensures Occurrences(t, '\n') == 1 + Occurrences(a, '\n') + Occurrences(b, '\n')
  {
    LineOfWord(w);
    Occurrences3(w + "\n", a, b, '\n');
  }

  lemma NamedLineBreaks(x: Node, a: string, b: string)
    requires x.Decl? || x.Assign?
    requires NamesOnOneLine(Some(x))
    requires Child(x, 0).None? ==> a == ""
    requires Child(x, 1).None? ==> b == ""
    ensures Occurrences(Cuerpo(x, a, b), '\n') == 1 + Occurrences(a, '\n') + Occurrences(b, '\n')
  {
    assert b == "";
    assert '\n' !in x.id;
    if x.Decl? {
      DeclLineBreaks(x.id, x.expr, a);
    } else {
      AssignLineBreaks(x.id, x.expr, a);
    }
  }

  lemma DeclLineBreaks(id: string, e: Option<Node>, a: string)
    requires '\n' !in id && (e.None? ==> a == "")
    ensures Occurrences(Cuerpo(Decl(id, e), a, ""), '\n') == 1 + Occurrences(a, '\n')
  {
    var tail := if e.Some? then " = " + a else "";
    assert Cuerpo(Decl(id, e), a, "") == "DECL(" + id + tail + ")\n";
    OccurrencesAbsent("DECL(" + id, '\n');
    LineOfWord(")");
    Occurrences3("DECL(" + id, tail, ")\n", '\n');
    if e.Some? {
      OccurrencesAbsent(" = ", '\n');
      OccurrencesConcat(" = ", a, '\n');
    }
  }

  lemma AssignLineBreaks(id: string, e: Option<Node>, a: string)
    requires '\n' !in id
    ensures Occurrences(Cuerpo(Assign(id, e), a, ""), '\n') == 1 + Occurrences(a, '\n')
  {
    var head := "ASSIGN(" + id + " = ";
    assert Cuerpo(Assign(id, e), a, "") == head + a + ")\n";
    OccurrencesAbsent(head, '\n');
    LineOfWord(")");
    Occurrences3(head, a, ")\n", '\n');
  }

  lemma OpLineBreaks(x: Node, a: string, b: string)
    requires x.Op?
    requires NamesOnOneLine(Some(x))
    requires Child(x, 0).None? ==> a == ""
    requires Child(x, 1).None? ==> b == ""
    ensures Occurrences(Cuerpo(x, a, b), '\n') == (if EndsLine(x) then 1 else 0) + Occurrences(a, '\n') + Occurrences(b, '\n')
  {
    var w := OpNombre(x.op) + "(";
    OccurrencesAbsent(w, '\n');
    OccurrencesAbsent(", ", '\n');
    OccurrencesAbsent(")", '\n');
    Occurrences3(w + a + ", ", b, ")", '\n');
    Occurrences3(w, a, ", ", '\n');
  }

  /**
   * The dump has one line break per statement-level node (SEQ, DECL, ASSIGN,
   * RETURN, PROG, SENT): expressions never end a line.
   */
  lemma {:induction false} ImprimirLineBreaks(n: Option<Node>, ind: nat)
    requires NamesOnOneLine(n)
    ensures Occurrences(ImprimirNodo(n, ind), '\n') == StatementCount(n)
    decreases Size(n)
  {
    if n.Some? {
      var x := n.value;
      var i := ChildIndent(x, ind);
      ImprimirLineBreaks(Child(x, 0), i);
      ImprimirLineBreaks(Child(x, 1), i);
      var a, b := ImprimirNodo(Child(x, 0), i), ImprimirNodo(Child(x, 1), i);
      CuerpoLineBreaks(x, a, b);
      OccurrencesAbsent(Spaces(ind), '\n');
      OccurrencesConcat(Spaces(ind), Cuerpo(x, a, b), '\n');
    }
  }

  /**
   * A NULL tree prints nothing; any other tree's text opens with exactly `ind`
   * spaces followed by a visible character, so the indentation of a node's first
   * line is its depth in the block structure.
   */
  lemma ImprimirIndent(n: Option<Node>, ind: nat)
    ensures n.None? ==> ImprimirNodo(n, ind) == ""
    ensures n.Some? ==> (|ImprimirNodo(n, ind)| > ind
                         && ImprimirNodo(n, ind)[..ind] == Spaces(ind)
                         && ImprimirNodo(n, ind)[ind] != ' ')
  {
    if n.Some? {
      var out := ImprimirNodo(n, ind);
      var rest := out[ind..];
      assert out == Spaces(ind) + rest;
      match n.value
      case Op(op, _, _) => assert rest[0] == OpNombre(op)[0];
      case Int(v) => assert rest == IntToDecimal(v);
      case _ =>
    }
  }

  /**
   * Only SEQ, RETURN, PROG and SENT hand the indentation on (to their children,
   * at `ind + 1`); every other node prints its operands at indentation 0, so its
   * text is its text at indentation 0 shifted right by `ind` spaces.
   */
  lemma ImprimirShift(x: Node, ind: nat)
    requires !(x.Seq? || x.Return? || x.Prog? || x.Sent?)
    ensures ImprimirNodo(Some(x), ind) == Spaces(ind) + ImprimirNodo(Some(x), 0)
  {
    assert Spaces(0) == "";
    match x
    case Decl(id, e) =>
    case Assign(id, e) =>
    case Op(op, l, r) =>
    case Id(_) =>
    case Int(_) =>
    case Bool(_) =>
  }

  /** A boolean literal prints "true" exactly when its int value is nonzero, and "false" otherwise. */
  lemma ImprimirBool(v: Int32, ind: nat)
    ensures ImprimirNodo(Some(Bool(v)), ind)[ind..] == "true" <==> v != 0
    ensures ImprimirNodo(Some(Bool(v)), ind)[ind..] == "false" <==> v == 0
  {
    assert ImprimirNodo(Some(Bool(v)), ind)[ind..] == (if v != 0 then "true" else "false");
  }

  /** An operator node with TOP_ASSIGN prints under the unknown-operator word. */
  lemma ImprimirUnknownOp(l: Option<Node>, r: Option<Node>)
    ensures ImprimirNodo(Some(Op(TOP_ASSIGN, l, r)), 0)[..15] == "OP_DESCONOCIDO("
  {
    var a, b := ImprimirNodo(l, 0), ImprimirNodo(r, 0);
    assert ImprimirNodo(Some(Op(TOP_ASSIGN, l, r)), 0) == Spaces(0) + (OpNombre(TOP_ASSIGN) + "(" + a + ", " + b + ")");
    WordFirst(Spaces(0), OpNombre(TOP_ASSIGN), a, b);
  }

  lemma WordFirst(sp: string, w: string, a: string, b: string)
    requires sp == "" && w == "OP_DESCONOCIDO"
    ensures (sp + (w + "(" + a + ", " + b + ")"))[..15] == "OP_DESCONOCIDO("
  {
    var t := w + "(" + a + ", " + b + ")";
    assert sp + t == t;
    assert t == (w + "(") + (a + ", " + b + ")");
  }
}
