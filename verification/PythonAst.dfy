/** The part of a Python syntax tree the lookup-table analyser looks at. */
module PythonAst {
  import opened Options

  datatype CmpOp = Eq | OtherCmp

  datatype Expr =
    | Name(id: string)
    | Constant
    | ListDisplay(elts: seq<Expr>)
    | TupleDisplay(elts: seq<Expr>)
    | Subscript(value: Expr, index: Expr)
    | Compare(left: Expr, ops: seq<CmpOp>, comparators: seq<Expr>)
    | BoolOp(values: seq<Expr>)
    | OtherExpr(children: seq<Expr>)

  datatype Stmt =
    | If(test: Expr, body: seq<Stmt>, orelse: seq<Stmt>)
    | Return(result: Option<Expr>)
    | Assign(targets: seq<Expr>, rhs: Expr)
    | OtherStmt

  /** Every identifier in an expression, at any depth. */
  function Names(e: Expr): set<string> {
    match e
    case Name(id) => {id}
    case Constant => {}
    case ListDisplay(elts) => NamesOfAll(elts)
    case TupleDisplay(elts) => NamesOfAll(elts)
    case Subscript(value, index) => Names(value) + Names(index)
    case Compare(left, ops, comparators) => Names(left) + NamesOfAll(comparators)
    case BoolOp(values) => NamesOfAll(values)
    case OtherExpr(children) => NamesOfAll(children)
  }

  function NamesOfAll(es: seq<Expr>): set<string> {
    if es == [] then {} else Names(es[0]) + NamesOfAll(es[1..])
  }
}
