# AST layer of a small C compiler, in Dafny

This project models the abstract syntax tree of a small compiler for an imperative
expression language (integer and boolean variables, declarations, assignment, binary
operators, `return`). It covers the node data model of `ast.h` and the tree
operations of `ast.c`, and proves what each one does:

- **Data model.** `Ast.Node` is a closed datatype with one constructor per `TipoNodo` tag. Each constructor carries the one union payload its tag selects, and child pointers are `Option<Node>`.
  - `TipoNodo` and `TipoOP` keep their C enumerator names and values.
  - A BOOL keeps its value as a C `int`.
  - PROG and SENT keep the child that the C code reads through `opBinaria.izq`.
- **Constructors** (`nodo_ID` … `nodo_decl`). They are functions that return the node, or an error naming the constructor and the NULL argument. The C code prints that message and calls `exit(1)`.
- **Destructor** (`nodo_libre`). Its effect is the sequence of `free` calls, each naming a node or a node's name string. An allocation is identified by the node's path from the root.
- **Text dump** (`imprimir_nodo`, `indentaciones`). The text written to stdout is a returned string. `indentaciones` is a method with the C code's loop.
- **Graphviz export** (`escribir_dot_rec`, and `exportar_dot` once its file is open).
  - `Dot.DotRec` is the reference. It threads the counter `contador_nodos` and returns the DOT lines, the stderr diagnostics and the final counter.
  - `DotWriter.Writer` is the imperative version. It has the counter, the file and stderr as fields, and its methods are proved to write exactly what `DotRec` describes.
  - The node numbering is stated against `Dot.Visits`, the preorder list of visited node paths.

The integers printed with `%d` (literal values, DOT node ids) are written by `Decimal.IntToDecimal`. That function is proved injective and to read back by `Decimal.ParseInt`.

The model follows the C code as written. For example, the destructor does not free the child of a PROG or SENT wrapper node (see Findings). `escribir_dot_rec` has no case for PROG, SENT or BOOL, so such a node takes a number and writes only a diagnostic; it is not drawn and its children are not visited.

## Model

| member | source | states |
|---|---|---|
| Ast.Ordinal | ast.h:9-20 | the ten node kinds have the values 0-9 in declaration order |
| Ast.OpOrdinal | ast.h:23-34 | the ten operator kinds, including TOP_ASSIGN, have the values 0-9 in declaration order |
| Ast.OrdinalsDistinct | ast.h:9-34 | an enumeration value names exactly one kind, for nodes and for operators |
| Ast.Child | ast.h:37-54 | each child pointer of the payload leads to a strictly smaller tree |
| Constructors.NodoID | ast.c:10-22 | succeeds exactly when the name is present, giving an ID node that holds that name; otherwise fails naming `nodo_ID` and `nombre` |
| Constructors.NodoInt | ast.c:24-32 | an INT node holding the given value |
| Constructors.NodoBool | ast.c:34-42 | a BOOL node holding the given int, unnormalised |
| Constructors.NodoOpBin | ast.c:44-54 | an OP node with exactly the given operator and operands, either of which may be absent |
| Constructors.NodoAssign | ast.c:56-73 | succeeds exactly when both the name and the expression are present; a missing name is reported before a missing expression |
| Constructors.NodoReturn | ast.c:75-83 | a RETURN node with the given optional expression |
| Constructors.NodoSeq | ast.c:85-94 | a SEQ whose child 0 is the first statement and child 1 the rest |
| Constructors.NodoDecl | ast.c:96-113 | succeeds exactly when the name is present, the expression being optional since its check is commented out; fails naming `nodo_decl` and `id` |
| Constructors.Rebuild | ast.c:10-113 | every node of a kind with a constructor is rebuilt from its own fields by that constructor, an ASSIGN only when its expression is present |
| Constructors.MessageNames | ast.c:12 | the fatal message starts with `Error: `, then the constructor's name, and ends with ` NULL` and a line break |
| Libre.NodoLibreShape | ast.c:115-139 | every case frees the node's own name if it owns one, then child 0's items, then child 1's, then the node; PROG and SENT follow no child |
| Libre.NodoLibreWellReleased | ast.c:115-139 | frees only items of the tree, none twice, each node after its name and after everything below it; the root last, and nothing for NULL |
| Libre.NodoLibreSound | ast.c:115-139 | everything freed is a node of the tree or the name of an ID, DECL or ASSIGN node |
| Libre.NodoLibreCompleteWithoutWrapperChild | ast.c:115-139 | on trees whose PROG and SENT nodes have no child, it frees exactly what the complete destructor frees |
| Libre.NodoLibreLeaksProgChild | ast.c:135-136 | a PROG holding an INT frees only the PROG node: the INT node is never freed |
| Libre.LiberarArbolWellReleased | ast.c:115-139 | the corrected destructor keeps the same order and freeing-once discipline |
| Libre.LiberarArbolComplete | ast.c:115-139 | the corrected destructor frees every node and every owned name of the tree, and nothing else |
| Imprimir.Spaces | ast.c:142 | a string of exactly `n` spaces |
| Imprimir.Indentaciones | ast.c:142 | the `while (n--)` loop writes exactly `Spaces(n)` |
| Imprimir.OpNombre | ast.c:164-175 | every operator word is non-empty, starts with a visible character and contains no line break |
| Imprimir.ImprimirIndent | ast.c:144-147 | NULL prints nothing; any node's text opens with exactly `ind` spaces followed by a visible character |
| Imprimir.ImprimirLineBreaks | ast.c:144-209 | when no name contains a line break, the dump has exactly one line break per SEQ, DECL, ASSIGN, RETURN, PROG and SENT node |
| Imprimir.ImprimirShift | ast.c:155-199 | DECL, ASSIGN, OP, ID, INT and BOOL print their operands at indentation 0, so their text at `ind` is their text at 0 shifted by `ind` spaces |
| Imprimir.ImprimirBool | ast.c:192-194 | a BOOL prints `true` exactly when its int is nonzero and `false` exactly when it is zero |
| Imprimir.ImprimirUnknownOp | ast.c:174 | an OP with TOP_ASSIGN prints under `OP_DESCONOCIDO(` |
| Decimal.NatRoundTrip | ast.c:185 | the decimal digits of a natural number read back to it |
| Decimal.IntRoundTrip | ast.c:185 | the `%d` text of any integer, negative ones included, reads back to it |
| Decimal.IntToDecimalInjective | ast.c:215-221 | distinct numbers are written differently, so distinct DOT ids give distinct node names |
| Dot.OpSymbol | ast.c:239-243 | the label is `?` exactly for the operators other than the four arithmetic ones |
| Dot.VisitsValid | ast.c:212-280 | every visited path names a node of the tree; the root is visited first and only it has the empty path; NULL visits nothing |
| Dot.DotNext | ast.c:213-215 | after a subtree is written the counter has grown by the number of nodes visited |
| Dot.DotSound | ast.c:212-280 | every node line carries the number `c + i` of the `i`-th visit, with a handled node's label and style; every edge line joins a visited parent to its visited child, the parent's number the smaller, and is dashed exactly for the right child of a SEQ |
| Dot.RootEdgeIn | ast.c:220-226 | the edge to a non-NULL child leads to the number that child then takes, and child 1's number comes after child 0's whole subtree |
| Dot.NodeComplete | ast.c:215-275 | every handled node that is visited gets its node line, with the number of its visit |
| Dot.EdgeComplete | ast.c:220-275 | every visited parent and child get the edge between their numbers, dashed exactly for the right child of a SEQ |
| Dot.DotErrors | ast.c:276-278 | the stderr lines are one diagnostic per visited unhandled node, in preorder, naming its kind's value |
| Dot.VisitedNodesSplit | ast.c:212-228 | the nodes visited from a handled node are itself, then child 0's visits, then child 1's |
| DotWriter.Writer.constructor | ast.c:8 | the counter starts at 0 with nothing written |
| DotWriter.Writer.EscribirDotRec | ast.c:212-280 | appends exactly the lines and diagnostics of `DotRec` numbered from the current counter, and advances the counter by the number of visited nodes |
| DotWriter.Writer.EscribirHijo | ast.c:220-227 | a non-NULL child gets the edge to the counter's current value, then its own lines; a NULL one writes nothing |
| DotWriter.Writer.ExportarDot | ast.c:296-302 | the file holds the header, the tree numbered from a counter reset to 0, and the closing brace; the counter ends at the number of visited nodes |
| DotWriter.ExportSound | ast.c:296-302 | every line of the file is the header, the closing brace, or a sound node or edge line for numbering from 0 |
| DotWriter.ExportNodes | ast.c:299-300 | every visited handled node is drawn as the node whose number is its visit index |
| DotWriter.ExportEdges | ast.c:299-300 | every visited parent-child pair is joined by an edge between their visit indices |
| DotWriter.ExportUnhandledRoot | ast.c:276-278 | a tree whose root is a PROG, SENT or BOOL is drawn as an empty graph, with only the root's diagnostic on stderr |

## Left out

- Output streams. `printf`, `putchar` and `fprintf` write to stdout, stderr and the DOT file; here that output is the returned string or line sequence, or the class fields. `Dot.Render` gives the exact text of each DOT line.
- `malloc` failure (`perror("malloc")` and `exit(1)`) is not modelled: allocation always succeeds.
- The NULL-argument `exit(1)` is a `Failure` value. The process ending is not modelled.
- `exportar_dot`'s file handling is left out, because it is file I/O and an external process:
  - building `name.dot` and `name.png` with `snprintf` (including truncation at `PATH_MAX`);
  - a failing `fopen` and its `perror`;
  - `fclose`;
  - the `system("dot -Tpng …")` call.
- `eval_nodo`, `interpretar_programa`, `ast_liberar_recursos` and `print_ast` are left out. Their bodies are not in the files of this model; only their prototypes are (ast.h:70, ast.h:76-78).
- `calc-sintaxis.tab.h` is not part of this model. It only defines the parser's token constants.
- `contador_nodos` and the ids are unbounded integers. The wrap-around of a C `int` after 2^31 nodes is not modelled.
- The indentation `ind` is a `nat`. A negative `ind`, which makes `while (n--)` run through the whole `int` range, and the overflow of `ind + 1` are not modelled.
- Names are `seq<char>`. C's NUL termination and the byte encoding of `%s` output are not modelled.
- `strdup` is modelled as the node holding a string equal to the argument. Its allocation is not modelled.
- Aliasing is not modelled. The tree is a value, so a subtree shared by two parents cannot be expressed, and neither can the double `free` that sharing would cause.
- DotWriter.Writer.EscribirDotRec: the C switch repeats the child steps in each case. Here the handled kinds share one pair of `EscribirHijo` calls, one per child pointer. A NULL child writes nothing, so what is written is the same.
- Dot.NodeComplete and Dot.EdgeComplete: the DOT ids are extra parameters, each required equal to `c` plus the visit index.

## Findings

| source | as written | input that shows it | evidently intended | confidence | as-written member | corrected member |
|---|---|---|---|---|---|---|
| ast.c:135-136 | `nodo_libre` has no case for NODO_PROG or NODO_SENT, so `default` frees only the node and never follows its child `opBinaria.izq`, which `imprimir_nodo` reads (ast.c:200-206) | a PROG node whose child is the INT node 0: only the PROG node is freed | free the wrapper's child before the wrapper, like every other child pointer | not executed | Libre.NodoLibreLeaksProgChild | Libre.LiberarArbolComplete |
