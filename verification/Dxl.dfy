/**
  The optimizer's output before translation: columns are named by global column
  ids, and a correlated subquery reads the columns of the queries around it
  directly. `refs` of a subquery lists those outer columns.
 */
module Dxl {
  import opened Plans

  datatype QueryLink = ScalarQuery | ExistsQuery | NotExistsQuery

  datatype Scalar =
    | Ident(col: nat)
    | Literal(v: Value)
    | Apply(op: nat, args: seq<Scalar>)
    | Subquery(link: QueryLink, refs: seq<nat>, body: Rel)
    | Quantified(quant: Link, cmp: nat, lhs: Scalar, col: nat, refs: seq<nat>, body: Rel)
    | RowTested(quant: Link, test: RowTest, refs: seq<nat>, body: Rel)

  /** A test that needs nothing from outside: a constant, or two columns of each row compared. */
  datatype RowTest = Always(v: Value) | TwoColumns(cmp: nat, left: nat, right: nat)

  /** How a test finds the columns it compares: by the ids it names, or as the first ones of the row. */
  datatype Reading = ByName | ByPosition

  /** A physical operator; `base` names the columns of a scanned table, `cols` those of the projection. */
  datatype Rel = Rel(kind: nat, base: seq<nat>, cols: seq<nat>, exprs: seq<Scalar>,
                     filter: seq<Scalar>, conds: seq<Scalar>, children: seq<Rel>)
  {
    function OuterCols(): seq<nat> {
      if base != [] || children == [] then base else children[0].cols
    }

    function InnerCols(): seq<nat> {
      if |children| > 1 then children[1].cols else []
    }
  }

  /** The operator number of boolean NOT. */
  const NOT: nat := 0

  type Columns = map<nat, Value>

  function ColValue(env: Columns, c: nat): Value {
    if c in env then env[c] else Null
  }

  /** First position of a column in a projection. */
  function Position(cols: seq<nat>, c: nat): (i: nat)
    requires c in cols
    ensures i < |cols| && cols[i] == c
  {
    if cols[0] == c then 0 else 1 + Position(cols[1..], c)
  }

  function WithRow(env: Columns, cols: seq<nat>, row: Row): Columns {
    env + (map c | c in cols :: At(row, Position(cols, c)))
  }

  function Scope(env: Columns, outer: seq<nat>, inner: seq<nat>, t: Tuple): Columns {
    WithRow(WithRow(env, inner, t.1), outer, t.0)
  }

  function Meaning(db: Database, rd: Reading, s: Scalar, env: Columns): Value
    decreases s, 2
  {
    match s
    case Ident(c) => ColValue(env, c)
    case Literal(v) => v
    case Apply(op, args) => db.op(op, MeaningList(db, rd, args, env))
    case Subquery(link, _, body) =>
      var rows := Answer(db, rd, body, env);
      var tests := seq(|rows|, i => []);
      (match link
       case ScalarQuery => db.reduce(ScalarLink, rows, tests)
       case ExistsQuery => db.reduce(ExistsLink, rows, tests)
       case NotExistsQuery => db.op(NOT, [db.reduce(ExistsLink, rows, tests)]))
    case Quantified(quant, cmp, lhs, col, _, body) =>
      var rows := Answer(db, rd, body, env);
      var v := Meaning(db, rd, lhs, env);
      db.reduce(quant, rows, Tests(db, rd, cmp, v, col, body.cols, rows, env))
    case RowTested(quant, test, _, body) =>
      var rows := Answer(db, rd, body, env);
      db.reduce(quant, rows, RowTests(db, rd, test, body.cols, rows, env))
  }

  /** Column `c` of a body row, whose columns are `cols`; by position it is the column at `i`. */
  function TestColumn(rd: Reading, c: nat, i: nat, cols: seq<nat>, row: Row, env: Columns): Value {
    match rd
    case ByName => ColValue(WithRow(env, cols, row), c)
    case ByPosition => At(row, i)
  }

  /** The comparison of an ANY or ALL sublink with column `c` of each row. */
  function Tests(db: Database, rd: Reading, cmp: nat, v: Value, c: nat, cols: seq<nat>, rows: seq<Row>, env: Columns)
    : (r: seq<seq<Value>>)
    ensures |r| == |rows|
  {
    seq(|rows|, i requires 0 <= i < |rows| => [db.op(cmp, [v, TestColumn(rd, c, 0, cols, rows[i], env)])])
  }

  function RowTests(db: Database, rd: Reading, test: RowTest, cols: seq<nat>, rows: seq<Row>, env: Columns)
    : (r: seq<seq<Value>>)
    ensures |r| == |rows|
  {
    seq(|rows|, i requires 0 <= i < |rows| => [RowTestValue(db, rd, test, cols, rows[i], env)])
  }

  function RowTestValue(db: Database, rd: Reading, test: RowTest, cols: seq<nat>, row: Row, env: Columns): Value {
    match test
    case Always(v) => v
    case TwoColumns(cmp, left, right) =>
      db.op(cmp, [TestColumn(rd, left, 0, cols, row, env), TestColumn(rd, right, 1, cols, row, env)])
  }

  function MeaningList(db: Database, rd: Reading, ss: seq<Scalar>, env: Columns): (r: seq<Value>)
    ensures |r| == |ss|
    decreases ss, 1
  {
    if ss == [] then [] else [Meaning(db, rd, ss[0], env)] + MeaningList(db, rd, ss[1..], env)
  }

  function AnswerList(db: Database, rd: Reading, rs: seq<Rel>, env: Columns): (r: seq<seq<Row>>)
    ensures |r| == |rs|
    decreases rs, 1
  {
    if rs == [] then [] else [Answer(db, rd, rs[0], env)] + AnswerList(db, rd, rs[1..], env)
  }

  /** The rows of an operator when outer columns are looked up directly. */
  function Answer(db: Database, rd: Reading, r: Rel, env: Columns): seq<Row>
    decreases r, 2
  {
    var outer, inner := r.OuterCols(), r.InnerCols();
    var kids := AnswerList(db, rd, r.children, env);
    var outs, inns := Input(kids, 0), Input(kids, 1);
    var extra := seq(|outs|, i requires 0 <= i < |outs| =>
                   seq(|inns|, j requires 0 <= j < |inns| =>
                     MeaningList(db, rd, r.conds, Scope(env, outer, inner, (outs[i], inns[j])))));
    var ts := db.combine(r.kind, kids, extra);
    Select(seq(|ts|, i requires 0 <= i < |ts| =>
             AllTrue(db, MeaningList(db, rd, r.filter, Scope(env, outer, inner, ts[i])))),
           seq(|ts|, i requires 0 <= i < |ts| =>
             MeaningList(db, rd, r.exprs, Scope(env, outer, inner, ts[i]))))
  }

  /** Column ids are unique: no operator of a subquery re-issues a column taken from outside. */
  predicate NoShadow(s: Scalar, outside: set<nat>)
    decreases s, 0
  {
    match s
    case Apply(_, args) => forall a | a in args :: NoShadow(a, outside)
    case Subquery(_, refs, body) => NoShadowRel(body, outside + (set c | c in refs))
    case Quantified(_, _, lhs, _, refs, body) =>
      NoShadow(lhs, outside) && NoShadowRel(body, outside + (set c | c in refs))
    case RowTested(_, _, refs, body) => NoShadowRel(body, outside + (set c | c in refs))
    case _ => true
  }

  predicate NoShadowRel(r: Rel, outside: set<nat>)
    decreases r, 0
  {
    && (forall c | c in r.OuterCols() :: c !in outside)
    && (forall c | c in r.InnerCols() :: c !in outside)
    && (forall s | s in r.exprs :: NoShadow(s, outside))
    && (forall s | s in r.filter :: NoShadow(s, outside))
    && (forall s | s in r.conds :: NoShadow(s, outside))
    && (forall k | k in r.children :: NoShadowRel(k, outside))
  }
}
