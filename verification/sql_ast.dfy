/** The SQL syntax tree the transformers build (internal/sqlbuilder_sqlbuilder.go). */
module SqlAst {
  import opened Wrappers

  /** A stored value; `Unresolved` is what a name that SQL cannot resolve would read. */
  datatype Value = Null | Int(n: int) | Text(s: string) | Unresolved

  datatype Expr =
    | Column(table: string, name: string)
    | Literal(value: Value)
    | Parameter(id: string)
    | Function(fn: string, args: seq<Expr>)
    | List(items: seq<Expr>)
    | Unary(op: string, arg: Expr)
    | Binary(left: Expr, oper: string, right: Expr)
    | Case(operand: Option<Expr>, whens: Whens, els: Option<Expr>)
    | Star(of: string)
    | Nested(tag: nat)  // a scalar or EXISTS subquery, never looked into

  /** The WHEN ... THEN ... pairs of a CASE, in order. */
  datatype Whens = NoWhen | When(cond: Expr, result: Expr, rest: Whens)

  datatype JoinType = Inner | Left | Right | Full | Cross

  datatype Item = Item(expr: Expr, alias: string, isStarExpansion: bool)

  datatype FromItem =
    | TableItem(name: string, alias: string)
    | SubqueryItem(query: Select, alias: string)
    | JoinItem(join: JoinType, left: FromItem, right: FromItem, cond: Option<Expr>, alias: string)

  datatype Limit = Limit(count: Expr, offset: Option<Expr>)

  datatype SetOp = SetOp(kind: string, modifier: string, items: seq<Select>)

  datatype WithClause = WithClause(name: string, recursive: bool, query: Select)

  datatype Select = Select(
    withs: seq<WithClause>,
    distinct: bool,
    items: seq<Item>,
    from: Option<FromItem>,
    where: Option<Expr>,
    groupBy: seq<Expr>,
    having: Option<Expr>,
    orderBy: seq<Expr>,
    limit: Option<Limit>,
    setOp: Option<SetOp>)

  /** `NewSelectStatement`: nothing set. */
  const EMPTY_SELECT: Select := Select([], false, [], None, None, [], None, [], None, None)

  /** `NewSelectStarStatement`. */
  function SelectStar(from: FromItem): Select {
    EMPTY_SELECT.(items := [Item(Star(""), "", false)], from := Some(from))
  }

  predicate IsStarItem(item: Item) {
    item.expr.Star?
  }
}
