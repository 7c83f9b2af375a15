/**
 * The node constructors of ast.c. Each fills the tag and exactly one payload.
 * A NULL name (or, for an assignment, a NULL expression) ends the C process with a
 * diagnostic on stderr; here it is a `Failure` carrying that diagnostic.
 * `strdup` copies the name, so the node holds a string equal to the argument.
 */
module Constructors {
  import opened Wrappers
  import opened Ast

  /** The constructor that rejected its input and the argument that was NULL. */
  datatype AstError = NullArgument(caller: string, argument: string)

  /** The line written to stderr before `exit(1)`. */
  function Message(e: AstError): string {
    "Error: " + e.caller + " recibi\U{F3} " + e.argument + " NULL\n"
  }

  function NodoID(nombre: Option<string>): (r: Result<Node, AstError>)
    ensures r.Success? <==> nombre.Some?
    ensures r.Success? ==> Tipo(r.value) == NODO_ID && r.value.nombre == nombre.value
    ensures r.Failure? ==> r.error == NullArgument("nodo_ID", "nombre")
  {
    if nombre.None? then Failure(NullArgument("nodo_ID", "nombre"))
    else Success(Id(nombre.value))
  }

  function NodoInt(valInt: Int32): (r: Node)
    ensures Tipo(r) == NODO_INT && r.valInt == valInt
  {
    Int(valInt)
  }

  function NodoBool(valBool: Int32): (r: Node)
    ensures Tipo(r) == NODO_BOOL && r.valBool == valBool
  {
    Bool(valBool)
  }

  /** No check: either operand may be absent. */
  function NodoOpBin(op: TipoOP, izq: Option<Node>, der: Option<Node>): (r: Node)
    ensures Tipo(r) == NODO_OP && r.op == op && r.izq == izq && r.der == der
  {
    Op(op, izq, der)
  }

  /** The name is checked before the expression. */
  function NodoAssign(id: Option<string>, expr: Option<Node>): (r: Result<Node, AstError>)
    ensures r.Success? <==> id.Some? && expr.Some?
    ensures r.Success? ==> Tipo(r.value) == NODO_ASSIGN && r.value.id == id.value && r.value.expr == expr
    ensures id.None? ==> r == Failure(NullArgument("nodo_assign", "id"))
    ensures id.Some? && expr.None? ==> r == Failure(NullArgument("nodo_assign", "expr"))
  {
    if id.None? then Failure(NullArgument("nodo_assign", "id"))
    else if expr.None? then Failure(NullArgument("nodo_assign", "expr"))
    else Success(Assign(id.value, expr))
  }

  /** No check: `return;` has no expression. */
  function NodoReturn(expr: Option<Node>): (r: Node)
    ensures Tipo(r) == NODO_RETURN && r.retExpr == expr
  {
    Return(expr)
  }

  /** The first statement goes in the left slot of the binary payload, the rest in the right one. */
  function NodoSeq(primero: Option<Node>, resto: Option<Node>): (r: Node)
    ensures Tipo(r) == NODO_SEQ && Child(r, 0) == primero && Child(r, 1) == resto
  {
    Seq(primero, resto)
  }

  /** The expression check is commented out in the source: only the name is required. */
  function NodoDecl(id: Option<string>, expr: Option<Node>): (r: Result<Node, AstError>)
    ensures r.Success? <==> id.Some?
    ensures r.Success? ==> Tipo(r.value) == NODO_DECL && r.value.id == id.value && r.value.expr == expr
    ensures r.Failure? ==> r.error == NullArgument("nodo_decl", "id")
  {
    if id.None? then Failure(NullArgument("nodo_decl", "id"))
    else Success(Decl(id.value, expr))
  }

  /** The diagnostic names the constructor first and the NULL argument second. */
  lemma MessageNames(e: AstError)
    ensures Message(e)[..7] == "Error: " && Message(e)[7..7 + |e.caller|] == e.caller
    ensures Message(e)[|Message(e)| - 6..] == " NULL\n"
  {
  }

  /**
   * Every node of a kind that has a constructor is built back by that constructor
   * from its own fields; an ASSIGN only when its expression is present. PROG and
   * SENT have no constructor.
   */
  lemma Rebuild(x: Node)
    ensures x.Id? ==> NodoID(Some(x.nombre)) == Success(x)
    ensures x.Int? ==> NodoInt(x.valInt) == x
    ensures x.Bool? ==> NodoBool(x.valBool) == x
    ensures x.Op? ==> NodoOpBin(x.op, x.izq, x.der) == x
    ensures x.Assign? ==> (NodoAssign(Some(x.id), x.expr) == Success(x) <==> x.expr.Some?)
    ensures x.Return? ==> NodoReturn(x.retExpr) == x
    ensures x.Seq? ==> NodoSeq(x.izq, x.der) == x
    ensures x.Decl? ==> NodoDecl(Some(x.id), x.expr) == Success(x)
  {
  }
}
