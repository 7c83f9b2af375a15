/**
 * The node data model of ast.h: the node kind enumeration, the binary operator
 * enumeration and the tagged union `Nodo`, here a closed datatype whose child
 * pointers are optional.
 */
module Ast {
  import opened Wrappers

  /** C `int`: the width of `val_int` and `val_bool`. */
  type Int32 = x: int | -0x8000_0000 <= x < 0x8000_0000

  /** `TipoNodo`: the ten node kinds, in declaration order. */
  datatype TipoNodo =
    | NODO_PROG | NODO_DECL | NODO_SENT | NODO_ASSIGN | NODO_RETURN
    | NODO_OP | NODO_INT | NODO_BOOL | NODO_ID | NODO_SEQ

  /** `TipoOP`: the ten binary operator kinds, in declaration order. */
  datatype TipoOP =
    | TOP_SUMA | TOP_RESTA | TOP_MULT | TOP_DIV | TOP_ASSIGN
    | TOP_IGUAL | TOP_OR | TOP_AND | TOP_MAYOR | TOP_MENOR

  /**
   * `Nodo`: one constructor per tag, carrying the one union member that tag selects.
   * PROG and SENT read their child through `opBinaria.izq`; here it is `body`.
   * DECL and ASSIGN share the `assign` payload, OP and SEQ the `opBinaria` payload
   * (SEQ leaves `op` unset, so it has no `op` here). BOOL keeps its value as an int.
   */
  datatype Node =
    | Prog(body: Option<Node>)
    | Decl(id: string, expr: Option<Node>)
    | Sent(body: Option<Node>)
    | Assign(id: string, expr: Option<Node>)
    | Return(retExpr: Option<Node>)
    | Op(op: TipoOP, izq: Option<Node>, der: Option<Node>)
    | Int(valInt: Int32)
    | Bool(valBool: Int32)
    | Id(nombre: string)
    | Seq(izq: Option<Node>, der: Option<Node>)

  /** The `tipo` tag of a node. */
  function Tipo(n: Node): TipoNodo {
    match n
    case Prog(_) => NODO_PROG
    case Decl(_, _) => NODO_DECL
    case Sent(_) => NODO_SENT
    case Assign(_, _) => NODO_ASSIGN
    case Return(_) => NODO_RETURN
    case Op(_, _, _) => NODO_OP
    case Int(_) => NODO_INT
    case Bool(_) => NODO_BOOL
    case Id(_) => NODO_ID
    case Seq(_, _) => NODO_SEQ
  }

  /** The integer value C gives each enumerator of `TipoNodo`. */
  function Ordinal(t: TipoNodo): (k: nat)
    ensures k < 10
  {
    match t
    case NODO_PROG => 0
    case NODO_DECL => 1
    case NODO_SENT => 2
    case NODO_ASSIGN => 3
    case NODO_RETURN => 4
    case NODO_OP => 5
    case NODO_INT => 6
    case NODO_BOOL => 7
    case NODO_ID => 8
    case NODO_SEQ => 9
  }

  /** The integer value C gives each enumerator of `TipoOP`. */
  function OpOrdinal(op: TipoOP): (k: nat)
    ensures k < 10
  {
    match op
    case TOP_SUMA => 0
    case TOP_RESTA => 1
    case TOP_MULT => 2
    case TOP_DIV => 3
    case TOP_ASSIGN => 4
    case TOP_IGUAL => 5
    case TOP_OR => 6
    case TOP_AND => 7
    case TOP_MAYOR => 8
    case TOP_MENOR => 9
  }

  /** Both enumerations are closed: distinct enumerators have distinct values, so a tag is exactly one kind. */
  lemma OrdinalsDistinct(s: TipoNodo, t: TipoNodo, p: TipoOP, q: TipoOP)
    ensures Ordinal(s) == Ordinal(t) ==> s == t
    ensures OpOrdinal(p) == OpOrdinal(q) ==> p == q
  {
  }

  /** Number of nodes of a tree, following every child pointer. */
  function Size(n: Option<Node>): nat {
    match n
    case None => 0
    case Some(x) =>
      match x
      case Prog(b) => 1 + Size(b)
      case Sent(b) => 1 + Size(b)
      case Decl(_, e) => 1 + Size(e)
      case Assign(_, e) => 1 + Size(e)
      case Return(e) => 1 + Size(e)
      case Op(_, l, r) => 1 + Size(l) + Size(r)
      case Seq(l, r) => 1 + Size(l) + Size(r)
      case Int(_) => 1
      case Bool(_) => 1
      case Id(_) => 1
  }

  /**
   * The child pointer number `k` of a node, in field order: `izq` is 0 and `der` is 1
   * of the binary payload; `expr`, `ret_expr` and the PROG/SENT child are 0.
   */
  function Child(x: Node, k: nat): (c: Option<Node>)
    ensures Size(c) < Size(Some(x))
  {
    match x
    case Prog(b) => if k == 0 then b else None
    case Sent(b) => if k == 0 then b else None
    case Decl(_, e) => if k == 0 then e else None
    case Assign(_, e) => if k == 0 then e else None
    case Return(e) => if k == 0 then e else None
    case Op(_, l, r) => if k == 0 then l else if k == 1 then r else None
    case Seq(l, r) => if k == 0 then l else if k == 1 then r else None
    case Int(_) => None
    case Bool(_) => None
    case Id(_) => None
  }

  /** A node's position in a tree: the child numbers on the way down from the root. */
  type Path = seq<nat>

  /** The subtree at a path, or `None` when the path leaves the tree. */
  function At(n: Option<Node>, p: Path): Option<Node>
    decreases |p|
  {
    if p == [] then n
    else if n.None? then None
    else At(Child(n.value, p[0]), p[1..])
  }

  /** `q` names a child of the node that `p` names. */
  predicate IsChildPath(p: Path, q: Path) {
    |q| == |p| + 1 && q[..|p|] == p
  }
}
