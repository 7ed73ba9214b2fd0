/**
  Plan trees as the redundant-Result pass sees them. Expressions may call volatile
  functions and run SubPlans; a run of a plan returns its rows together with the
  trace of those events, and the value of an event may depend on all events
  before it.
 */
module ResultPlans {
  import opened Plans

  datatype VarNo = OuterVar | ScopeVar(n: nat)

  /**
    `cell` is the identity of a Var or Const node: two occurrences with the same
    cell are one shared node, and its type modifier is looked up in a store.
   */
  datatype Node =
    | ConstNode(value: Value, cell: nat)
    | VarNode(varno: VarNo, attno: int, cell: nat)
    | ParamNode(id: nat)
    | Call(fn: nat, args: seq<Node>)
    | VolatileCall(fn: nat, args: seq<Node>)
    | SubPlanCall(plan: nat, args: seq<Node>)
    | SetCall(fn: nat, args: seq<Node>)

  datatype Event = Called(fn: nat, vals: seq<Value>) | Ran(plan: nat, vals: seq<Value>)

  type Trace = seq<Event>

  datatype Cost = Cost(startup: real, total: real, rows: real, width: int)

  /** `projects` says whether the node evaluates its target list or passes rows through. */
  datatype Kind = ResultKind | OtherKind(tag: nat, projects: bool)

  datatype Tree = Tree(id: nat, kind: Kind, tlist: seq<Node>, quals: seq<Node>, constQual: seq<Node>,
                       initPlans: seq<nat>, cost: Cost, children: seq<Tree>)

  datatype World = World(
    isTrue: Value -> bool,
    call: (nat, seq<Value>) -> Value,
    happen: (Trace, Event) -> Value,
    setOf: (seq<Node>, Params, Tuple, Trace) -> (seq<Row>, Trace),
    inits: (seq<nat>, Params, Trace) -> (Params, Trace),
    combine: (nat, Kind, seq<Node>, Params, seq<seq<Row>>, Trace) -> (seq<Tuple>, Trace))

  predicate Projects(k: Kind) {
    k.ResultKind? || k.projects
  }

  // ----- what a target list contains -----

  predicate ReturnsSet(e: Node)
    decreases e, 0
  {
    match e
    case SetCall(_, _) => true
    case Call(_, args) => AnyReturnsSet(args)
    case VolatileCall(_, args) => AnyReturnsSet(args)
    case SubPlanCall(_, args) => AnyReturnsSet(args)
    case _ => false
  }

  predicate AnyReturnsSet(es: seq<Node>)
    decreases es, 1
  {
    es != [] && (ReturnsSet(es[0]) || AnyReturnsSet(es[1..]))
  }

  /** Volatile functions and SubPlans. */
  predicate HasEffects(e: Node)
    decreases e, 0
  {
    match e
    case VolatileCall(_, _) => true
    case SubPlanCall(_, _) => true
    case Call(_, args) => AnyHasEffects(args)
    case SetCall(_, args) => AnyHasEffects(args)
    case _ => false
  }

  predicate AnyHasEffects(es: seq<Node>)
    decreases es, 1
  {
    es != [] && (HasEffects(es[0]) || AnyHasEffects(es[1..]))
  }

  // ----- evaluation -----

  function EvalNode(w: World, e: Node, env: Params, t: Tuple, tr: Trace): (Value, Trace)
    decreases e, 0
  {
    match e
    case ConstNode(v, _) => (v, tr)
    case VarNode(varno, attno, _) => (At(if varno == OuterVar then t.0 else t.1, attno - 1), tr)
    case ParamNode(id) => (Slot(env, id), tr)
    case Call(fn, args) =>
      var (vals, tr1) := EvalAll(w, args, env, t, tr);
      (w.call(fn, vals), tr1)
    case VolatileCall(fn, args) =>
      var (vals, tr1) := EvalAll(w, args, env, t, tr);
      (w.happen(tr1, Called(fn, vals)), tr1 + [Called(fn, vals)])
    case SubPlanCall(plan, args) =>
      var (vals, tr1) := EvalAll(w, args, env, t, tr);
      (w.happen(tr1, Ran(plan, vals)), tr1 + [Ran(plan, vals)])
    case SetCall(fn, args) =>
      var (vals, tr1) := EvalAll(w, args, env, t, tr);
      (w.call(fn, vals), tr1)
  }

  function EvalAll(w: World, es: seq<Node>, env: Params, t: Tuple, tr: Trace): (seq<Value>, Trace)
    decreases es, 1
  {
    if es == [] then ([], tr)
    else
      var (v, tr1) := EvalNode(w, es[0], env, t, tr);
      var (vs, tr2) := EvalAll(w, es[1..], env, t, tr1);
      ([v] + vs, tr2)
  }

  /** The output of one tuple: one row, or as many as the set-returning functions give. */
  function Project(w: World, tlist: seq<Node>, env: Params, t: Tuple, tr: Trace): (seq<Row>, Trace) {
    if AnyReturnsSet(tlist) then w.setOf(tlist, env, t, tr)
    else var (row, tr1) := EvalAll(w, tlist, env, t, tr); ([row], tr1)
  }

  /** Filters and projects the tuples of a node, in order. */
  function Emit(w: World, p: Tree, env: Params, ts: seq<Tuple>, tr: Trace): (seq<Row>, Trace)
    decreases |ts|
  {
    if ts == [] then ([], tr)
    else
      var (oks, tr1) := EvalAll(w, p.quals, env, ts[0], tr);
      var (rows, tr2) :=
        if forall v | v in oks :: w.isTrue(v) then
          if Projects(p.kind) then Project(w, p.tlist, env, ts[0], tr1) else ([ts[0].0], tr1)
        else ([], tr1);
      var (rest, tr3) := Emit(w, p, env, ts[1..], tr2);
      (rows + rest, tr3)
  }

  /** The tuples a node works on. A Result without constant qual passes the rows of its child. */
  function Tuples(w: World, p: Tree, env: Params, kids: seq<seq<Row>>, tr: Trace): (seq<Tuple>, Trace) {
    if p.kind.ResultKind? && p.constQual == [] && |kids| == 1 then
      (seq(|kids[0]|, i requires 0 <= i < |kids[0]| => (kids[0][i], [])), tr)
    else w.combine(p.id, p.kind, p.constQual, env, kids, tr)
  }

  function Run(w: World, p: Tree, env: Params, tr: Trace): (seq<Row>, Trace)
    decreases p, 0
  {
    var (env1, tr1) := if p.initPlans == [] then (env, tr) else w.inits(p.initPlans, env, tr);
    var (kids, tr2) := RunAll(w, p.children, env1, tr1);
    var (ts, tr3) := Tuples(w, p, env1, kids, tr2);
    Emit(w, p, env1, ts, tr3)
  }

  function RunAll(w: World, ps: seq<Tree>, env: Params, tr: Trace): (r: (seq<seq<Row>>, Trace))
    ensures |r.0| == |ps|
    decreases ps, 1
  {
    if ps == [] then ([], tr)
    else
      var (rows, tr1) := Run(w, ps[0], env, tr);
      var (rest, tr2) := RunAll(w, ps[1..], env, tr1);
      ([rows] + rest, tr2)
  }
}
