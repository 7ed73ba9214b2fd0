/**
  Executable plans: target-list and qual expressions with PARAM_EXEC slots and
  SubPlans, and plan nodes as the expression walkers see them.

  The meaning of every operator is a parameter (`Database`), so a statement
  about `Rows` holds for every scalar function, every scan, join, sort or
  aggregation, and every way a sublink reduces the rows of its body.
 */
module Plans {

  datatype Value = Null | Datum(v: int)

  type Row = seq<Value>

  /** The pair of rows a node evaluates its expressions on. */
  type Tuple = (Row, Row)

  /** PARAM_EXEC slots; an unset slot reads as Null. */
  type Params = map<nat, Value>

  datatype Side = Outer | Inner

  datatype Link = ScalarLink | ExistsLink | AnyLink | AllLink

  datatype Expr =
    | Const(v: Value)
    | Var(side: Side, attno: nat)
    | Param(id: nat)
    | Op(op: nat, args: seq<Expr>)
    | Sub(sp: SubPlan)

  /**
    `planId` is the 1-based position of the body in the list of registered
    subplans. `args[i]` is passed in slot `parParam[i]`; the columns of a body
    row are put in the slots `testIds` before `test` is evaluated; an InitPlan
    leaves its value in `setParam`.
   */
  datatype SubPlan = SubPlan(link: Link, planId: nat,
                             test: seq<Expr>, testIds: seq<nat>,
                             args: seq<Expr>, parParam: seq<nat>,
                             setParam: seq<nat>)

  /** `extra` holds join quals, index quals, limits: whatever the operator itself evaluates. */
  datatype Plan = Plan(kind: nat, tlist: seq<Expr>, quals: seq<Expr>, extra: seq<Expr>,
                       initPlans: seq<SubPlan>, children: seq<Plan>)

  datatype Database = Database(
    op: (nat, seq<Value>) -> Value,
    isTrue: Value -> bool,
    combine: (nat, seq<seq<Row>>, seq<seq<seq<Value>>>) -> seq<Tuple>,
    reduce: (Link, seq<Row>, seq<seq<Value>>) -> Value)

  function At(row: Row, i: int): Value {
    if 0 <= i < |row| then row[i] else Null
  }

  function Slot(env: Params, id: nat): Value {
    if id in env then env[id] else Null
  }

  /** Stores `vals` in the slots `ids`, left to right; missing values are Null. */
  function Bind(env: Params, ids: seq<nat>, vals: seq<Value>): Params
    decreases |ids|
  {
    if ids == [] then env
    else Bind(env[ids[0] := At(vals, 0)], ids[1..], if vals == [] then [] else vals[1..])
  }

  /** Stores one value in each of the slots `ids`. */
  function BindAll(env: Params, ids: seq<nat>, v: Value): Params {
    env + (map id | id in ids :: v)
  }

  function Select(oks: seq<bool>, rows: seq<Row>): seq<Row>
    requires |oks| == |rows|
  {
    if oks == [] then []
    else (if oks[0] then [rows[0]] else []) + Select(oks[1..], rows[1..])
  }

  /** The rows of child `i`, or one empty row when the node has no such child. */
  function Input(kids: seq<seq<Row>>, i: nat): seq<Row> {
    if i < |kids| then kids[i] else [[]]
  }

  predicate AllTrue(db: Database, vals: seq<Value>) {
    forall v | v in vals :: db.isTrue(v)
  }

  /**
    Body k of `bodies` sees only the bodies before it, which is where the
    bodies it calls are when `Registered` holds; any other SubPlan number reads
    as Null.
   */
  function Eval(db: Database, bodies: seq<Plan>, e: Expr, env: Params, t: Tuple): Value
    decreases |bodies|, e, 2
  {
    match e
    case Const(v) => v
    case Var(side, attno) => At(if side == Outer then t.0 else t.1, attno as int - 1)
    case Param(id) => Slot(env, id)
    case Op(op, args) => db.op(op, EvalList(db, bodies, args, env, t))
    case Sub(sp) => EvalSub(db, bodies, sp, env, t)
  }

  function EvalList(db: Database, bodies: seq<Plan>, es: seq<Expr>, env: Params, t: Tuple): (r: seq<Value>)
    ensures |r| == |es|
    decreases |bodies|, es, 1
  {
    if es == [] then []
    else [Eval(db, bodies, es[0], env, t)] + EvalList(db, bodies, es[1..], env, t)
  }

  function EvalSub(db: Database, bodies: seq<Plan>, sp: SubPlan, env: Params, t: Tuple): Value
    decreases |bodies|, sp, 1
  {
    if 1 <= sp.planId <= |bodies| then
      var inner := Bind(env, sp.parParam, EvalList(db, bodies, sp.args, env, t));
      var rows := Rows(db, bodies[..sp.planId - 1], bodies[sp.planId - 1], inner);
      db.reduce(sp.link, rows,
                seq(|rows|, i requires 0 <= i < |rows| =>
                  EvalList(db, bodies, sp.test, Bind(env, sp.testIds, rows[i]), t)))
    else Null
  }

  /** The environment after the InitPlans `ips` of a node, each evaluated without an input row. */
  function RunInits(db: Database, bodies: seq<Plan>, ips: seq<SubPlan>, env: Params): Params
    decreases |bodies|, ips, 0
  {
    if ips == [] then env
    else
      var v := EvalSub(db, bodies, ips[0], env, ([], []));
      RunInits(db, bodies, ips[1..], BindAll(env, ips[0].setParam, v))
  }

  function RowsList(db: Database, bodies: seq<Plan>, ps: seq<Plan>, env: Params): (r: seq<seq<Row>>)
    ensures |r| == |ps|
    decreases |bodies|, ps, 1
  {
    if ps == [] then []
    else [Rows(db, bodies, ps[0], env)] + RowsList(db, bodies, ps[1..], env)
  }

  /** The rows a plan returns. */
  function Rows(db: Database, bodies: seq<Plan>, p: Plan, env: Params): seq<Row>
    decreases |bodies|, p, 3
  {
    NodeRows(db, bodies, p, RunInits(db, bodies, p.initPlans, env))
  }

  /** The rows of a node once its own InitPlans have run. */
  function NodeRows(db: Database, bodies: seq<Plan>, p: Plan, env: Params): seq<Row>
    decreases |bodies|, p, 2
  {
    var kids := RowsList(db, bodies, p.children, env);
    var outs, inns := Input(kids, 0), Input(kids, 1);
    var extra := seq(|outs|, i requires 0 <= i < |outs| =>
                   seq(|inns|, j requires 0 <= j < |inns| =>
                     EvalList(db, bodies, p.extra, env, (outs[i], inns[j]))));
    var ts := db.combine(p.kind, kids, extra);
    Select(seq(|ts|, i requires 0 <= i < |ts| => AllTrue(db, EvalList(db, bodies, p.quals, env, ts[i]))),
           seq(|ts|, i requires 0 <= i < |ts| => EvalList(db, bodies, p.tlist, env, ts[i])))
  }

  // ----- which bodies a plan calls -----

  predicate Below(e: Expr, n: nat)
    decreases e
  {
    match e
    case Op(_, args) => forall a | a in args :: Below(a, n)
    case Sub(sp) => SubBelow(sp, n)
    case _ => true
  }

  predicate SubBelow(sp: SubPlan, n: nat)
    decreases sp
  {
    && 1 <= sp.planId <= n
    && (forall a | a in sp.test :: Below(a, n))
    && (forall a | a in sp.args :: Below(a, n))
  }

  predicate PlanBelow(p: Plan, n: nat)
    decreases p
  {
    && (forall e | e in p.tlist :: Below(e, n))
    && (forall e | e in p.quals :: Below(e, n))
    && (forall e | e in p.extra :: Below(e, n))
    && (forall s | s in p.initPlans :: SubBelow(s, n))
    && (forall c | c in p.children :: PlanBelow(c, n))
  }

  /** Every body calls only bodies registered before it. */
  ghost predicate Registered(bodies: seq<Plan>) {
    forall k | 0 <= k < |bodies| :: PlanBelow(bodies[k], k)
  }
}
