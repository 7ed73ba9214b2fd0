/**
  The translator as it runs: a statement context that hands out slots and
  collects bodies and InitPlans, a column context per subquery, and methods that
  fill them step by step. Each method computes what the functions of `Closure`
  define.
 */
module ClosureContext {
  import opened Plans
  import opened Dxl
  import opened Closure

  datatype Found<T> = Some(value: T) | Missing(col: nat)

  /** A method's outcome and the state it leaves agree with a translation function. */
  ghost predicate Computes<T(!new)>(tr: Tr<T>, r: Found<T>, st: State) {
    match tr
    case Ok(v, st') => r == Some(v) && st == st'
    case NotFound(_) => r.Missing?
  }

  /** Outer columns and their slots; the first mapping of a column is kept. */
  class ColumnContext {
    var params: ParamMap

    constructor (original: ParamMap)
      ensures params == original
    {
      params := original;
    }

    method Insert(col: nat, id: nat) returns (inserted: bool)
      modifies this
      ensures inserted == (col !in old(params))
      ensures params == if inserted then old(params)[col := id] else old(params)
    {
      inserted := col !in params;
      if inserted {
        params := params[col := id];
      }
    }
  }

  /** What has been collected followed by what the rest gives is the whole. */
  ghost predicate AppendsTo(ids: seq<nat>, args: seq<Expr>,
                            rest: Tr<(seq<nat>, seq<Expr>)>, whole: Tr<(seq<nat>, seq<Expr>)>) {
    && rest.Ok? == whole.Ok?
    && (rest.Ok? ==> rest.st == whole.st && whole.v.0 == ids + rest.v.0 && whole.v.1 == args + rest.v.1)
  }

  /** One more outer column: skipped when inherited, otherwise its slot and argument are appended. */
  lemma AppendStep(ids: seq<nat>, args: seq<Expr>, refs: seq<nat>, i: nat, pm: ParamMap, own: ParamMap,
                   outer: seq<nat>, inner: seq<nat>, st: State)
    requires i < |refs| && forall c | c in refs :: c in own
    requires AppendsTo(ids, args, Args(refs[i..], pm, own, outer, inner, st), Args(refs, pm, own, outer, inner, st))
    ensures var arg := VarFor(refs[i], outer, inner, st);
            var whole := Args(refs, pm, own, outer, inner, st);
            var rest := Args(refs[i + 1..], pm, own, outer, inner, st);
            if refs[i] in pm then AppendsTo(ids, args, rest, whole)
            else if arg.NotFound? then whole.NotFound?
            else AppendsTo(ids + [own[refs[i]]], args + [arg.v], rest, whole)
  {
    assert refs[i..][1..] == refs[i + 1..] && refs[i..][0] == refs[i];
  }

  class StatementContext {
    var next: nat
    var subplans: seq<Plan>
    var inits: seq<SubPlan>

    constructor ()
      ensures St() == State(0, [], [])
    {
      next, subplans, inits := 0, [], [];
    }

    function St(): State
      reads this
    {
      State(next, subplans, inits)
    }

    method GetNextParamId() returns (id: nat)
      modifies this
      ensures id == old(next) && St() == old(St()).(next := id + 1)
    {
      id := next;
      next := next + 1;
    }

    method AddSubplan(plan: Plan) returns (planId: nat)
      modifies this
      ensures St() == old(St()).(subplans := old(subplans) + [plan]) && planId == |subplans|
    {
      subplans := subplans + [plan];
      planId := |subplans|;
    }

    method AddInitPlan(sp: SubPlan)
      modifies this
      ensures St() == old(St()).(inits := old(inits) + [sp])
    {
      inits := inits + [sp];
    }

    /** Enters or leaves the InitPlan scope of a subquery. */
    method ExchangeInitPlans(plans: seq<SubPlan>) returns (previous: seq<SubPlan>)
      modifies this
      ensures previous == old(inits) && St() == old(St()).(inits := plans)
    {
      previous := inits;
      inits := plans;
    }

    /** Allocates slots for outer columns that the enclosing scope does not provide. */
    method InsertOuterRefs(refs: seq<nat>, own: ColumnContext)
      requires own as object != this
      modifies this, own
      ensures (own.params, next) == Fresh(refs, old(own.params), old(next))
      ensures St() == old(St()).(next := next)
    {
      for i := 0 to |refs|
        invariant Fresh(refs[i..], own.params, next) == Fresh(refs, old(own.params), old(next))
        invariant St() == old(St()).(next := next)
      {
        assert refs[i..][1..] == refs[i + 1..];
        if refs[i] !in own.params {
          var id := GetNextParamId();
          var inserted := own.Insert(refs[i], id);
        }
      }
    }

    /** Appends the arguments of a SubPlan; inherited columns are skipped. */
    method SubplanParams(refs: seq<nat>, pm: ParamMap, own: ParamMap, outer: seq<nat>, inner: seq<nat>)
      returns (r: Found<(seq<nat>, seq<Expr>)>)
      requires forall c | c in refs :: c in own
      ensures Computes(Args(refs, pm, own, outer, inner, St()), r, St())
    {
      var ids, args := [], [];
      assert refs[0..] == refs;
      for i := 0 to |refs|
        invariant forall c | c in refs[i..] :: c in own
        invariant AppendsTo(ids, args, Args(refs[i..], pm, own, outer, inner, St()),
                            Args(refs, pm, own, outer, inner, St()))
      {
        AppendStep(ids, args, refs, i, pm, own, outer, inner, St());
        if refs[i] !in pm {
          var arg := VarFor(refs[i], outer, inner, St());
          if arg.NotFound? {
            return Missing(refs[i]);
          }
          ids, args := ids + [own[refs[i]]], args + [arg.v];
        }
      }
      assert ids + [] == ids && args + [] == args;
      r := Some((ids, args));
    }

    method TranslateScalar(s: Scalar, pm: ParamMap, outer: seq<nat>, inner: seq<nat>) returns (r: Found<Expr>)
      modifies this
      ensures Computes(Translate(s, pm, outer, inner, old(St())), r, St())
      decreases s, 2
    {
      match s
      case Ident(c) =>
        if c in pm {
          return Some(Param(pm[c]));
        }
        var v := VarFor(c, outer, inner, St());
        r := if v.Ok? then Some(v.v) else Missing(c);
      case Literal(v) =>
        r := Some(Const(v));
      case Apply(op, args) =>
        var es := TranslateScalars(args, pm, outer, inner);
        r := if es.Some? then Some(Op(op, es.value)) else Missing(es.col);
      case Subquery(link, refs, body) =>
        var plink := if link == ScalarQuery then ScalarLink else ExistsLink;
        var sp := TranslateSubquery(plink, refs, body, pm, outer, inner, [], []);
        if sp.Missing? {
          return Missing(sp.col);
        }
        if link == ScalarQuery && sp.value.parParam == [] {
          var id := GetNextParamId();
          AddInitPlan(sp.value.(setParam := [id]));
          return Some(Param(id));
        }
        r := Some(if link == NotExistsQuery then Op(NOT, [Sub(sp.value)]) else Sub(sp.value));
      case Quantified(quant, cmp, lhs, _, refs, body) =>
        var l := TranslateScalar(lhs, pm, outer, inner);
        if l.Missing? {
          return l;
        }
        var tid := GetNextParamId();
        var sp := TranslateSubquery(quant, refs, body, pm, outer, inner, [Op(cmp, [l.value, Param(tid)])], [tid]);
        r := if sp.Some? then Some(Sub(sp.value)) else Missing(sp.col);
      case RowTested(quant, test, refs, body) =>
        var exprs, ids := TranslateRowTest(test);
        var sp := TranslateSubquery(quant, refs, body, pm, outer, inner, exprs, ids);
        r := if sp.Some? then Some(Sub(sp.value)) else Missing(sp.col);
    }

    /**
      The test of a sublink that compares nothing from outside: both sides get
      slots of their own, the left one first.
     */
    method TranslateRowTest(test: RowTest) returns (exprs: seq<Expr>, ids: seq<nat>)
      modifies this
      ensures exprs == RowTestExprs(test, old(next)) && ids == RowTestIds(test, old(next))
      ensures St() == old(St()).(next := old(next) + |ids|)
    {
      match test
      case Always(v) => exprs, ids := [Const(v)], [];
      case TwoColumns(cmp, _, _) =>
        var left := GetNextParamId();
        ids := [left];
        var right := GetNextParamId();
        ids := ids + [right];
        exprs := [Op(cmp, [Param(left), Param(right)])];
    }

    method TranslateScalars(ss: seq<Scalar>, pm: ParamMap, outer: seq<nat>, inner: seq<nat>)
      returns (r: Found<seq<Expr>>)
      modifies this
      ensures Computes(TranslateList(ss, pm, outer, inner, old(St())), r, St())
      decreases ss, 1
    {
      if ss == [] {
        return Some([]);
      }
      var e := TranslateScalar(ss[0], pm, outer, inner);
      if e.Missing? {
        return Missing(e.col);
      }
      var es := TranslateScalars(ss[1..], pm, outer, inner);
      r := if es.Some? then Some([e.value] + es.value) else Missing(es.col);
    }

    method TranslateSubquery(link: Link, refs: seq<nat>, body: Rel, pm: ParamMap, outer: seq<nat>, inner: seq<nat>,
                             test: seq<Expr>, testIds: seq<nat>) returns (r: Found<SubPlan>)
      modifies this
      ensures Computes(TranslateSubPlan(link, refs, body, pm, outer, inner, test, testIds, old(St())), r, St())
      decreases body, 3
    {
      FreshSlots(refs, pm, next);
      var own := new ColumnContext(pm);
      InsertOuterRefs(refs, own);
      var parent := ExchangeInitPlans([]);
      var root := TranslateOperator(body, own.params);
      if root.Missing? {
        return Missing(root.col);
      }
      var mine := ExchangeInitPlans(parent);
      var planId := AddSubplan(root.value.(initPlans := root.value.initPlans + mine));
      var args := SubplanParams(refs, pm, own.params, outer, inner);
      r := if args.Some? then Some(SubPlan(link, planId, test, testIds, args.value.1, args.value.0, []))
           else Missing(args.col);
    }

    method TranslateOperator(rel: Rel, pm: ParamMap) returns (r: Found<Plan>)
      modifies this
      ensures Computes(TranslateRel(rel, pm, old(St())), r, St())
      decreases rel, 2
    {
      var outer, inner := rel.OuterCols(), rel.InnerCols();
      var kids := TranslateOperators(rel.children, pm);
      if kids.Missing? {
        return Missing(kids.col);
      }
      var tlist := TranslateScalars(rel.exprs, pm, outer, inner);
      if tlist.Missing? {
        return Missing(tlist.col);
      }
      var quals := TranslateScalars(rel.filter, pm, outer, inner);
      if quals.Missing? {
        return Missing(quals.col);
      }
      var extra := TranslateScalars(rel.conds, pm, outer, inner);
      if extra.Missing? {
        return Missing(extra.col);
      }
      r := Some(Plan.Plan(rel.kind, tlist.value, quals.value, extra.value, [], kids.value));
    }

    method TranslateOperators(rs: seq<Rel>, pm: ParamMap) returns (r: Found<seq<Plan>>)
      modifies this
      ensures Computes(TranslateRels(rs, pm, old(St())), r, St())
      decreases rs, 1
    {
      if rs == [] {
        return Some([]);
      }
      var p := TranslateOperator(rs[0], pm);
      if p.Missing? {
        return Missing(p.col);
      }
      var ps := TranslateOperators(rs[1..], pm);
      r := if ps.Some? then Some([p.value] + ps.value) else Missing(ps.col);
    }
  }

  /** Translates a statement in a new context and attaches the InitPlans left at the top. */
  method PlanStatement(rel: Rel) returns (r: Found<Plan>, subplans: seq<Plan>)
    ensures r.Some? <==> TranslateStatement(rel).Ok?
    ensures r.Some? ==> r.value == TranslateStatement(rel).v && subplans == TranslateStatement(rel).st.subplans
  {
    var ctx := new StatementContext();
    var root := ctx.TranslateOperator(rel, map[]);
    if root.Missing? {
      return root, [];
    }
    return Some(root.value.(initPlans := root.value.initPlans + ctx.inits)), ctx.subplans;
  }
}
