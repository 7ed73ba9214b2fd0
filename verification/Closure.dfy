/**
  Translation of scalars and operators to plans: outer columns become PARAM_EXEC
  slots, passed as arguments by the SubPlan or inherited from an enclosing one,
  and scalar subqueries that need no argument become InitPlans of the enclosing
  body.
 */
module Closure {
  import opened Plans
  import opened Dxl

  /** What translation accumulates: the next free slot, the registered bodies, the current body's InitPlans. */
  datatype State = State(next: nat, subplans: seq<Plan>, inits: seq<SubPlan>)

  /** A translated item, or the column that could not be resolved. */
  datatype Tr<T> = Ok(v: T, st: State) | NotFound(col: nat) {
    predicate IsFailure() { NotFound? }
    function PropagateFailure<U>(): Tr<U>
      requires NotFound?
    {
      NotFound(col)
    }
    function Extract(): (T, State)
      requires Ok?
    {
      (v, st)
    }
  }

  type ParamMap = map<nat, nat>

  /** A column of a child, the left one first. */
  function VarFor(c: nat, outer: seq<nat>, inner: seq<nat>, st: State): Tr<Expr> {
    if c in outer then Ok(Var(Outer, Position(outer, c) + 1), st)
    else if c in inner then Ok(Var(Inner, Position(inner, c) + 1), st)
    else NotFound(c)
  }

  /** Gives a slot to every outer column that has none yet. */
  function Fresh(refs: seq<nat>, pm: ParamMap, next: nat): (ParamMap, nat)
    decreases |refs|
  {
    if refs == [] then (pm, next)
    else if refs[0] in pm then Fresh(refs[1..], pm, next)
    else Fresh(refs[1..], pm[refs[0] := next], next + 1)
  }

  /** Slots and arguments for the outer columns that are not inherited. */
  function Args(refs: seq<nat>, pm: ParamMap, own: ParamMap, outer: seq<nat>, inner: seq<nat>, st: State)
    : Tr<(seq<nat>, seq<Expr>)>
    requires forall c | c in refs :: c in own
    decreases |refs|
  {
    if refs == [] then Ok(([], []), st)
    else if refs[0] in pm then Args(refs[1..], pm, own, outer, inner, st)
    else
      var (arg, st1) :- VarFor(refs[0], outer, inner, st);
      var (rest, st2) :- Args(refs[1..], pm, own, outer, inner, st1);
      Ok(([own[refs[0]]] + rest.0, [arg] + rest.1), st2)
  }

  /** The slots that receive the columns a row test compares. */
  function RowTestIds(test: RowTest, next: nat): seq<nat> {
    match test
    case Always(_) => []
    case TwoColumns(_, _, _) => [next, next + 1]
  }

  function RowTestExprs(test: RowTest, next: nat): seq<Expr> {
    match test
    case Always(v) => [Const(v)]
    case TwoColumns(cmp, _, _) => [Op(cmp, [Param(next), Param(next + 1)])]
  }

  function Translate(s: Scalar, pm: ParamMap, outer: seq<nat>, inner: seq<nat>, st: State): Tr<Expr>
    decreases s, 2
  {
    match s
    case Ident(c) => if c in pm then Ok(Param(pm[c]), st) else VarFor(c, outer, inner, st)
    case Literal(v) => Ok(Const(v), st)
    case Apply(op, args) =>
      var (es, st1) :- TranslateList(args, pm, outer, inner, st);
      Ok(Op(op, es), st1)
    case Subquery(link, refs, body) =>
      var plink := if link == ScalarQuery then ScalarLink else ExistsLink;
      var (sp, st1) :- TranslateSubPlan(plink, refs, body, pm, outer, inner, [], [], st);
      (match link
       case ScalarQuery =>
         if sp.parParam == [] then
           Ok(Param(st1.next),
              State(st1.next + 1, st1.subplans, st1.inits + [sp.(setParam := [st1.next])]))
         else Ok(Sub(sp), st1)
       case ExistsQuery => Ok(Sub(sp), st1)
       case NotExistsQuery => Ok(Op(NOT, [Sub(sp)]), st1))
    case Quantified(quant, cmp, lhs, _, refs, body) =>
      var (l, st1) :- Translate(lhs, pm, outer, inner, st);
      var tid := st1.next;
      var (sp, st2) :- TranslateSubPlan(quant, refs, body, pm, outer, inner,
                                        [Op(cmp, [l, Param(tid)])], [tid], st1.(next := tid + 1));
      Ok(Sub(sp), st2)
    case RowTested(quant, test, refs, body) =>
      var (sp, st1) :- TranslateSubPlan(quant, refs, body, pm, outer, inner, RowTestExprs(test, st.next),
                                        RowTestIds(test, st.next), st.(next := st.next + |RowTestIds(test, st.next)|));
      Ok(Sub(sp), st1)
  }

  function TranslateList(ss: seq<Scalar>, pm: ParamMap, outer: seq<nat>, inner: seq<nat>, st: State): Tr<seq<Expr>>
    decreases ss, 1
  {
    if ss == [] then Ok([], st)
    else
      var (e, st1) :- Translate(ss[0], pm, outer, inner, st);
      var (es, st2) :- TranslateList(ss[1..], pm, outer, inner, st1);
      Ok([e] + es, st2)
  }

  /** Translates the body in a scope of its own, registers it and passes the arguments. */
  function TranslateSubPlan(link: Link, refs: seq<nat>, body: Rel, pm: ParamMap, outer: seq<nat>, inner: seq<nat>,
                            test: seq<Expr>, testIds: seq<nat>, st: State): Tr<SubPlan>
    decreases body, 3
  {
    FreshSlots(refs, pm, st.next);
    var (own, next) := Fresh(refs, pm, st.next);
    var (root, st1) :- TranslateRel(body, own, State(next, st.subplans, []));
    var plan := root.(initPlans := root.initPlans + st1.inits);
    var subplans := st1.subplans + [plan];
    var (pa, st2) :- Args(refs, pm, own, outer, inner, State(st1.next, subplans, st.inits));
    Ok(SubPlan(link, |subplans|, test, testIds, pa.1, pa.0, []), st2)
  }

  function TranslateRel(r: Rel, pm: ParamMap, st: State): Tr<Plan>
    decreases r, 2
  {
    var outer, inner := r.OuterCols(), r.InnerCols();
    var (kids, st1) :- TranslateRels(r.children, pm, st);
    var (tlist, st2) :- TranslateList(r.exprs, pm, outer, inner, st1);
    var (quals, st3) :- TranslateList(r.filter, pm, outer, inner, st2);
    var (extra, st4) :- TranslateList(r.conds, pm, outer, inner, st3);
    Ok(Plan.Plan(r.kind, tlist, quals, extra, [], kids), st4)
  }

  function TranslateRels(rs: seq<Rel>, pm: ParamMap, st: State): Tr<seq<Plan>>
    decreases rs, 1
  {
    if rs == [] then Ok([], st)
    else
      var (p, st1) :- TranslateRel(rs[0], pm, st);
      var (ps, st2) :- TranslateRels(rs[1..], pm, st1);
      Ok([p] + ps, st2)
  }

  /** A statement: the main plan with the InitPlans left over, and the registered bodies. */
  function TranslateStatement(r: Rel): Tr<Plan> {
    var (root, st) :- TranslateRel(r, map[], State(0, [], []));
    Ok(root.(initPlans := root.initPlans + st.inits), st)
  }

  // ----- slots -----

  ghost predicate Fits(pm: ParamMap, n: nat) {
    forall c | c in pm :: pm[c] < n
  }

  lemma {:induction false} FreshSlots(refs: seq<nat>, pm: ParamMap, next: nat)
    ensures var (own, n) := Fresh(refs, pm, next);
            && next <= n
            && own.Keys == pm.Keys + (set c | c in refs)
            && (forall c | c in refs :: c in own)
            && (forall c | c in pm :: own[c] == pm[c])
            && (forall c | c in own && c !in pm :: next <= own[c] < n)
            && (forall c, d | c in own && d in own && c !in pm && own[c] == own[d] && d !in pm :: c == d)
            && ((forall c | c in refs :: c in pm) ==> own == pm)
    decreases |refs|
  {
    if refs == [] {
    } else if refs[0] in pm {
      FreshSlots(refs[1..], pm, next);
    } else {
      FreshSlots(refs[1..], pm[refs[0] := next], next + 1);
    }
  }
}
