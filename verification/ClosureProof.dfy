/**
  Closure conversion preserves meaning: the translated statement returns the
  rows of the original, in which outer columns are looked up directly.
 */
module ClosureProof {
  import opened Plans
  import opened Dxl
  import opened Closure

  /** The slots of the outer columns hold the columns' values. */
  ghost predicate Holds(pm: ParamMap, params: Params, env: Columns) {
    forall c | c in pm :: Slot(params, pm[c]) == ColValue(env, c)
  }

  /** Every InitPlan's slot holds its value. */
  ghost predicate InitsHold(db: Database, bodies: seq<Plan>, params: Params, inits: seq<SubPlan>) {
    forall ip | ip in inits ::
      |ip.setParam| == 1 && Slot(params, ip.setParam[0]) == EvalSub(db, bodies, ip, params, ([], []))
  }

  ghost predicate SameOuter(pm: ParamMap, p1: Params, p2: Params) {
    forall c | c in pm :: Slot(p1, pm[c]) == Slot(p2, pm[c])
  }

  /** An InitPlan depends on inherited columns only. */
  ghost predicate Inherits(db: Database, bodies: seq<Plan>, pm: ParamMap, ip: SubPlan) {
    forall p1, p2 | SameOuter(pm, p1, p2) ::
      EvalSub(db, bodies, ip, p1, ([], [])) == EvalSub(db, bodies, ip, p2, ([], []))
  }

  ghost predicate InitsInherit(db: Database, bodies: seq<Plan>, pm: ParamMap, inits: seq<SubPlan>) {
    forall ip | ip in inits :: Inherits(db, bodies, pm, ip)
  }

  /** InitPlans write slots from `lo` up to `hi`, each a slot of its own. */
  ghost predicate InitSlots(inits: seq<SubPlan>, lo: nat, hi: nat) {
    && (forall i | 0 <= i < |inits| :: |inits[i].setParam| == 1 && lo <= inits[i].setParam[0] < hi)
    && (forall i, j | 0 <= i < j < |inits| :: inits[i].setParam[0] < inits[j].setParam[0])
  }

  /** What translation keeps of a state: slots and lists only grow. */
  ghost predicate Grows(st: State, st': State, lo: nat) {
    && st.next <= st'.next
    && st.subplans <= st'.subplans
    && st.inits <= st'.inits
    && (lo <= st.next && InitSlots(st.inits, lo, st.next) ==> InitSlots(st'.inits, lo, st'.next))
  }

  // ----- growth -----

  lemma {:induction false} TranslateGrows(s: Scalar, pm: ParamMap, outer: seq<nat>, inner: seq<nat>, st: State, lo: nat)
    requires Translate(s, pm, outer, inner, st).Ok?
    ensures Grows(st, Translate(s, pm, outer, inner, st).st, lo)
    decreases s, 2
  {
    match s
    case Apply(_, args) => ListGrows(args, pm, outer, inner, st, lo);
    case Subquery(_, _, _) => SubqueryGrows(s, pm, outer, inner, st, lo);
    case Quantified(_, _, _, _, _, _) => QuantifiedGrows(s, pm, outer, inner, st, lo);
    case RowTested(_, _, _, _) => RowTestedGrows(s, pm, outer, inner, st, lo);
    case _ =>
  }

  lemma {:induction false} SubqueryGrows(s: Scalar, pm: ParamMap, outer: seq<nat>, inner: seq<nat>, st: State, lo: nat)
    requires s.Subquery? && Translate(s, pm, outer, inner, st).Ok?
    ensures Grows(st, Translate(s, pm, outer, inner, st).st, lo)
    decreases s, 1
  {
    var plink := if s.link == ScalarQuery then ScalarLink else ExistsLink;
    SubPlanGrows(plink, s.refs, s.body, pm, outer, inner, [], [], st);
  }

  lemma {:induction false} QuantifiedGrows(s: Scalar, pm: ParamMap, outer: seq<nat>, inner: seq<nat>, st: State,
                                           lo: nat)
    requires s.Quantified? && Translate(s, pm, outer, inner, st).Ok?
    ensures Grows(st, Translate(s, pm, outer, inner, st).st, lo)
    decreases s, 1
  {
    TranslateGrows(s.lhs, pm, outer, inner, st, lo);
    var l := Translate(s.lhs, pm, outer, inner, st);
    SubPlanGrows(s.quant, s.refs, s.body, pm, outer, inner, [Op(s.cmp, [l.v, Param(l.st.next)])], [l.st.next],
                 l.st.(next := l.st.next + 1));
  }

  lemma {:induction false} RowTestedGrows(s: Scalar, pm: ParamMap, outer: seq<nat>, inner: seq<nat>, st: State, lo: nat)
    requires s.RowTested? && Translate(s, pm, outer, inner, st).Ok?
    ensures Grows(st, Translate(s, pm, outer, inner, st).st, lo)
    decreases s, 1
  {
    SubPlanGrows(s.quant, s.refs, s.body, pm, outer, inner, RowTestExprs(s.test, st.next), RowTestIds(s.test, st.next),
                 st.(next := st.next + |RowTestIds(s.test, st.next)|));
  }

  lemma {:induction false} ListGrows(ss: seq<Scalar>, pm: ParamMap, outer: seq<nat>, inner: seq<nat>, st: State,
                                     lo: nat)
    requires TranslateList(ss, pm, outer, inner, st).Ok?
    ensures Grows(st, TranslateList(ss, pm, outer, inner, st).st, lo)
    ensures |TranslateList(ss, pm, outer, inner, st).v| == |ss|
    decreases ss, 1
  {
    if ss != [] {
      TranslateGrows(ss[0], pm, outer, inner, st, lo);
      ListGrows(ss[1..], pm, outer, inner, Translate(ss[0], pm, outer, inner, st).st, lo);
    }
  }

  lemma {:induction false} ArgsShape(refs: seq<nat>, pm: ParamMap, own: ParamMap, outer: seq<nat>, inner: seq<nat>,
                                     st: State)
    requires forall c | c in refs :: c in own
    requires Args(refs, pm, own, outer, inner, st).Ok?
    ensures var a := Args(refs, pm, own, outer, inner, st);
            a.st == st && |a.v.0| == |a.v.1| && (a.v.0 == [] <==> forall c | c in refs :: c in pm)
    decreases |refs|
  {
    if refs != [] {
      ArgsShape(refs[1..], pm, own, outer, inner, st);
    }
  }

  /** A registered body is the last one, and it has the InitPlans found while translating it. */
  lemma {:induction false} SubPlanGrows(link: Link, refs: seq<nat>, body: Rel, pm: ParamMap, outer: seq<nat>,
                                        inner: seq<nat>,
                                        test: seq<Expr>, testIds: seq<nat>, st: State)
    requires TranslateSubPlan(link, refs, body, pm, outer, inner, test, testIds, st).Ok?
    ensures var (own, next) := Fresh(refs, pm, st.next);
            var b := TranslateRel(body, own, State(next, st.subplans, []));
            var r := TranslateSubPlan(link, refs, body, pm, outer, inner, test, testIds, st);
            && b.Ok?
            && st.next <= next <= b.st.next == r.st.next
            && InitSlots(b.st.inits, next, b.st.next)
            && b.v.initPlans == []
            && r.st.inits == st.inits
            && r.st.subplans == b.st.subplans + [b.v.(initPlans := b.st.inits)]
            && st.subplans <= b.st.subplans <= r.st.subplans
            && r.v.planId == |r.st.subplans|
            && r.v.link == link && r.v.test == test && r.v.testIds == testIds && r.v.setParam == []
            && (r.v.parParam == [] <==> forall c | c in refs :: c in pm)
            && (forall c | c in refs :: c in own)
            && Args(refs, pm, own, outer, inner, r.st) == Ok((r.v.parParam, r.v.args), r.st)
            && |r.v.args| == |r.v.parParam|
    decreases body, 3
  {
    FreshSlots(refs, pm, st.next);
    var (own, next) := Fresh(refs, pm, st.next);
    var b := TranslateRel(body, own, State(next, st.subplans, []));
    RelGrows(body, own, State(next, st.subplans, []), next);
    assert b.v.initPlans + b.st.inits == b.st.inits;
    var subplans := b.st.subplans + [b.v.(initPlans := b.st.inits)];
    ArgsShape(refs, pm, own, outer, inner, State(b.st.next, subplans, st.inits));
  }

  lemma {:induction false} RelGrows(r: Rel, pm: ParamMap, st: State, lo: nat)
    requires TranslateRel(r, pm, st).Ok?
    ensures Grows(st, TranslateRel(r, pm, st).st, lo)
    ensures TranslateRel(r, pm, st).v.initPlans == []
    decreases r, 2
  {
    var outer, inner := r.OuterCols(), r.InnerCols();
    RelsGrow(r.children, pm, st, lo);
    var st1 := TranslateRels(r.children, pm, st).st;
    ListGrows(r.exprs, pm, outer, inner, st1, lo);
    var st2 := TranslateList(r.exprs, pm, outer, inner, st1).st;
    ListGrows(r.filter, pm, outer, inner, st2, lo);
    ListGrows(r.conds, pm, outer, inner, TranslateList(r.filter, pm, outer, inner, st2).st, lo);
  }

  lemma {:induction false} RelsGrow(rs: seq<Rel>, pm: ParamMap, st: State, lo: nat)
    requires TranslateRels(rs, pm, st).Ok?
    ensures Grows(st, TranslateRels(rs, pm, st).st, lo)
    decreases rs, 1
  {
    if rs != [] {
      RelGrows(rs[0], pm, st, lo);
      RelsGrow(rs[1..], pm, TranslateRel(rs[0], pm, st).st, lo);
    }
  }

  // ----- columns, arguments and InitPlans at run time -----

  lemma VarForMeans(db: Database, bodies: seq<Plan>, c: nat, outer: seq<nat>, inner: seq<nat>, st: State,
                    env: Columns, params: Params, t: Tuple)
    requires VarFor(c, outer, inner, st).Ok?
    ensures Eval(db, bodies, VarFor(c, outer, inner, st).v, params, t) == ColValue(Scope(env, outer, inner, t), c)
    ensures VarFor(c, outer, inner, st).st == st
  {
  }

  lemma {:induction false} ArgsBind(db: Database, bodies: seq<Plan>, refs: seq<nat>, pm: ParamMap, own: ParamMap,
                                    outer: seq<nat>, inner: seq<nat>, st: State,
                                    env: Columns, params: Params, t: Tuple, start: Params)
    requires forall c | c in refs :: c in own
    requires Args(refs, pm, own, outer, inner, st).Ok?
    requires forall c, d | c in own && d in own && c !in pm && own[c] == own[d] && d !in pm :: c == d
    requires forall c, d | c in own && c !in pm && d in pm :: own[c] != pm[d]
    ensures var a := Args(refs, pm, own, outer, inner, st).v;
            var bound := Bind(start, a.0, EvalList(db, bodies, a.1, params, t));
            && (forall c | c in pm :: Slot(bound, pm[c]) == Slot(start, pm[c]))
            && (forall c | c in own && c !in pm && c !in refs :: Slot(bound, own[c]) == Slot(start, own[c]))
            && (forall c | c in refs && c !in pm :: Slot(bound, own[c]) == ColValue(Scope(env, outer, inner, t), c))
    decreases |refs|
  {
    if refs == [] {
    } else if refs[0] in pm {
      ArgsBind(db, bodies, refs[1..], pm, own, outer, inner, st, env, params, t, start);
    } else {
      var c0 := refs[0];
      VarForMeans(db, bodies, c0, outer, inner, st, env, params, t);
      var arg := VarFor(c0, outer, inner, st).v;
      var start1 := start[own[c0] := Eval(db, bodies, arg, params, t)];
      ArgsBind(db, bodies, refs[1..], pm, own, outer, inner, st, env, params, t, start1);
      var rest := Args(refs[1..], pm, own, outer, inner, st).v;
      ArgsFirst(refs, pm, own, outer, inner, st);
      BindFirst(db, bodies, own[c0], rest.0, arg, rest.1, params, t, start);
    }
  }

  lemma ArgsFirst(refs: seq<nat>, pm: ParamMap, own: ParamMap, outer: seq<nat>, inner: seq<nat>, st: State)
    requires refs != [] && refs[0] !in pm && forall c | c in refs :: c in own
    requires Args(refs, pm, own, outer, inner, st).Ok?
    ensures var arg := VarFor(refs[0], outer, inner, st);
            var rest := Args(refs[1..], pm, own, outer, inner, st);
            && arg.Ok? && rest.Ok?
            && Args(refs, pm, own, outer, inner, st).v == ([own[refs[0]]] + rest.v.0, [arg.v] + rest.v.1)
  {
  }

  lemma BindFirst(db: Database, bodies: seq<Plan>, id: nat, ids: seq<nat>, arg: Expr, args: seq<Expr>, params: Params,
                  t: Tuple,
                  start: Params)
    ensures Bind(start, [id] + ids, EvalList(db, bodies, [arg] + args, params, t))
         == Bind(start[id := Eval(db, bodies, arg, params, t)], ids, EvalList(db, bodies, args, params, t))
  {
    assert ([id] + ids)[1..] == ids && ([arg] + args)[1..] == args;
    var vals := EvalList(db, bodies, [arg] + args, params, t);
    assert vals[1..] == EvalList(db, bodies, args, params, t);
  }

  /** Each outer column reaches the body: inherited ones by their slot, the others as arguments. */
  lemma BodySees(db: Database, bodies: seq<Plan>, refs: seq<nat>, pm: ParamMap, next: nat,
                 outer: seq<nat>, inner: seq<nat>, st: State, env: Columns, params: Params, t: Tuple)
    requires Fits(pm, next) && Holds(pm, params, env)
    requires forall c | c in pm :: c !in outer && c !in inner
    requires var own := Fresh(refs, pm, next).0;
             (forall c | c in refs :: c in own) && Args(refs, pm, own, outer, inner, st).Ok?
    ensures var own := Fresh(refs, pm, next).0;
            var a := Args(refs, pm, own, outer, inner, st).v;
            Holds(own, Bind(params, a.0, EvalList(db, bodies, a.1, params, t)), Scope(env, outer, inner, t))
  {
    FreshSlots(refs, pm, next);
    var own := Fresh(refs, pm, next).0;
    ArgsBind(db, bodies, refs, pm, own, outer, inner, st, env, params, t, params);
  }

  lemma {:induction false} RunInitsKeeps(db: Database, bodies: seq<Plan>, inits: seq<SubPlan>, params: Params, id: nat)
    requires forall ip | ip in inits :: id !in ip.setParam
    ensures Slot(RunInits(db, bodies, inits, params), id) == Slot(params, id)
    decreases |inits|
  {
    if inits != [] {
      var v := EvalSub(db, bodies, inits[0], params, ([], []));
      RunInitsKeeps(db, bodies, inits[1..], BindAll(params, inits[0].setParam, v), id);
    }
  }

  lemma RunInitsSame(db: Database, bodies: seq<Plan>, inits: seq<SubPlan>, params: Params,
                     pm: ParamMap, lo: nat, hi: nat)
    requires Fits(pm, lo) && InitSlots(inits, lo, hi)
    ensures SameOuter(pm, params, RunInits(db, bodies, inits, params))
  {
    forall c | c in pm
      ensures Slot(params, pm[c]) == Slot(RunInits(db, bodies, inits, params), pm[c])
    {
      RunInitsKeeps(db, bodies, inits, params, pm[c]);
    }
  }

  /** After running the InitPlans every value is in its slot. */
  lemma {:induction false} RunInitsHold(db: Database, bodies: seq<Plan>, inits: seq<SubPlan>, params: Params,
                                        pm: ParamMap, lo: nat, hi: nat)
    requires Fits(pm, lo) && InitSlots(inits, lo, hi)
    requires InitsInherit(db, bodies, pm, inits)
    ensures InitsHold(db, bodies, RunInits(db, bodies, inits, params), inits)
    decreases |inits|
  {
    if inits != [] {
      var ip, rest := inits[0], inits[1..];
      var v := EvalSub(db, bodies, ip, params, ([], []));
      var next := BindAll(params, ip.setParam, v);
      var last := RunInits(db, bodies, rest, next);
      assert InitSlots(rest, lo, hi);
      RunInitsHold(db, bodies, rest, next, pm, lo, hi);
      assert Slot(last, ip.setParam[0]) == v by {
        RunInitsKeeps(db, bodies, rest, next, ip.setParam[0]);
      }
      assert EvalSub(db, bodies, ip, last, ([], [])) == v by {
        RunInitsSame(db, bodies, inits, params, pm, lo, hi);
        assert Inherits(db, bodies, pm, ip);
      }
      forall x | x in inits
        ensures |x.setParam| == 1 && Slot(last, x.setParam[0]) == EvalSub(db, bodies, x, last, ([], []))
      {
        if x != ip {
          assert x in rest;
        }
      }
    }
  }

  /** A value written to an unused slot disturbs neither the outer columns nor the InitPlans. */
  lemma UnusedSlot(db: Database, bodies: seq<Plan>, params: Params, pm: ParamMap, inits: seq<SubPlan>,
                   lo: nat, id: nat, row: Row)
    requires Fits(pm, lo) && lo <= id && InitSlots(inits, lo, id)
    requires InitsInherit(db, bodies, pm, inits) && InitsHold(db, bodies, params, inits)
    ensures Bind(params, [id], row) == params[id := At(row, 0)]
    ensures SameOuter(pm, params, params[id := At(row, 0)])
    ensures InitsHold(db, bodies, params[id := At(row, 0)], inits)
  {
    var p2 := params[id := At(row, 0)];
    assert SameOuter(pm, params, p2);
    forall ip | ip in inits
      ensures |ip.setParam| == 1 && Slot(p2, ip.setParam[0]) == EvalSub(db, bodies, ip, p2, ([], []))
    {
      assert Inherits(db, bodies, pm, ip);
    }
  }

  // ----- preservation of meaning -----

  /** Run-time conditions under which an expression of a body is evaluated. */
  ghost predicate Runs(db: Database, bodies: seq<Plan>, pm: ParamMap, lo: nat, st: State, env: Columns,
                       params: Params) {
    && Fits(pm, lo) && lo <= st.next
    && st.subplans <= bodies
    && InitSlots(st.inits, lo, st.next)
    && InitsInherit(db, bodies, pm, st.inits)
    && InitsHold(db, bodies, params, st.inits)
    && Holds(pm, params, env)
  }

  /** The conditions for a later state give those for an earlier one. */
  lemma RunsBefore(db: Database, bodies: seq<Plan>, pm: ParamMap, lo: nat, st: State, st': State,
                   env: Columns, params: Params)
    requires lo <= st.next && InitSlots(st.inits, lo, st.next) && Grows(st, st', lo)
    requires Runs(db, bodies, pm, lo, st', env, params)
    ensures Runs(db, bodies, pm, lo, st, env, params)
  {
    assert forall ip | ip in st.inits :: ip in st'.inits;
  }

  ghost predicate Disjoint(pm: ParamMap, outer: seq<nat>, inner: seq<nat>) {
    forall c | c in pm :: c !in outer && c !in inner
  }

  lemma {:induction false} TranslateMeans(db: Database, bodies: seq<Plan>, s: Scalar, pm: ParamMap,
                                          outer: seq<nat>, inner: seq<nat>, st: State, lo: nat,
                                          env: Columns, params: Params, t: Tuple)
    requires Translate(s, pm, outer, inner, st).Ok?
    requires lo <= st.next && InitSlots(st.inits, lo, st.next)
    requires NoShadow(s, pm.Keys) && Disjoint(pm, outer, inner)
    requires Runs(db, bodies, pm, lo, Translate(s, pm, outer, inner, st).st, env, params)
    ensures Eval(db, bodies, Translate(s, pm, outer, inner, st).v, params, t)
         == Meaning(db, ByPosition, s, Scope(env, outer, inner, t))
    decreases s, 4
  {
    match s
    case Ident(c) =>
      if c !in pm {
        VarForMeans(db, bodies, c, outer, inner, st, env, params, t);
      }
    case Literal(_) =>
    case Apply(_, args) =>
      ListMeans(db, bodies, args, pm, outer, inner, st, lo, env, params, t);
    case Subquery(link, refs, body) =>
      SubqueryMeans(db, bodies, s, pm, outer, inner, st, env, params, t);
    case Quantified(_, _, _, _, _, _) =>
      QuantifiedMeans(db, bodies, s, pm, outer, inner, st, lo, env, params, t, Translate(s, pm, outer, inner, st));
    case RowTested(_, _, _, _) =>
      RowTestedMeans(db, bodies, s, pm, outer, inner, st, lo, env, params, t, Translate(s, pm, outer, inner, st));
  }

  lemma {:induction false} ListMeans(db: Database, bodies: seq<Plan>, ss: seq<Scalar>, pm: ParamMap,
                                     outer: seq<nat>, inner: seq<nat>, st: State, lo: nat,
                                     env: Columns, params: Params, t: Tuple)
    requires TranslateList(ss, pm, outer, inner, st).Ok?
    requires lo <= st.next && InitSlots(st.inits, lo, st.next)
    requires Disjoint(pm, outer, inner) && forall s | s in ss :: NoShadow(s, pm.Keys)
    requires Runs(db, bodies, pm, lo, TranslateList(ss, pm, outer, inner, st).st, env, params)
    ensures EvalList(db, bodies, TranslateList(ss, pm, outer, inner, st).v, params, t)
         == MeaningList(db, ByPosition, ss, Scope(env, outer, inner, t))
    decreases ss, 3
  {
    if ss != [] {
      var h := Translate(ss[0], pm, outer, inner, st);
      TranslateGrows(ss[0], pm, outer, inner, st, lo);
      ListGrows(ss[1..], pm, outer, inner, h.st, lo);
      RunsBefore(db, bodies, pm, lo, h.st, TranslateList(ss, pm, outer, inner, st).st, env, params);
      TranslateMeans(db, bodies, ss[0], pm, outer, inner, st, lo, env, params, t);
      ListMeans(db, bodies, ss[1..], pm, outer, inner, h.st, lo, env, params, t);
    }
  }

  /** The body of a SubPlan, run with its arguments bound, returns the rows of the subquery. */
  lemma {:induction false} SubPlanMeans(db: Database, bodies: seq<Plan>, link: Link, refs: seq<nat>, body: Rel,
                                        pm: ParamMap, outer: seq<nat>, inner: seq<nat>,
                                        test: seq<Expr>, testIds: seq<nat>, st: State,
                                        env: Columns, params: Params, t: Tuple, r: Tr<SubPlan>)
    requires r == TranslateSubPlan(link, refs, body, pm, outer, inner, test, testIds, st) && r.Ok?
    requires r.st.subplans <= bodies
    requires Fits(pm, st.next) && Holds(pm, params, env) && Disjoint(pm, outer, inner)
    requires NoShadowRel(body, pm.Keys + (set c | c in refs))
    ensures r.v.link == link && r.v.test == test && r.v.testIds == testIds && 1 <= r.v.planId <= |bodies|
    ensures Rows(db, bodies[..r.v.planId - 1], bodies[r.v.planId - 1],
                 Bind(params, r.v.parParam, EvalList(db, bodies, r.v.args, params, t)))
         == Answer(db, ByPosition, body, Scope(env, outer, inner, t))
    decreases body, 6
  {
    SubPlanGrows(link, refs, body, pm, outer, inner, test, testIds, st);
    FreshSlots(refs, pm, st.next);
    var (own, next) := Fresh(refs, pm, st.next);
    var st0 := State(next, st.subplans, []);
    var b := TranslateRel(body, own, st0);
    BodySees(db, bodies, refs, pm, st.next, outer, inner, r.st, env, params, t);
    assert bodies[..r.v.planId - 1] == b.st.subplans;
    BodyMeans(db, body, own, st0, Scope(env, outer, inner, t),
              Bind(params, r.v.parParam, EvalList(db, bodies, r.v.args, params, t)));
  }

  /** A body with its InitPlans attached returns the rows of the query it came from. */
  lemma {:induction false} BodyMeans(db: Database, body: Rel, pm: ParamMap, st: State, env: Columns, params: Params)
    requires TranslateRel(body, pm, st).Ok? && st.inits == []
    requires Fits(pm, st.next) && NoShadowRel(body, pm.Keys) && Holds(pm, params, env)
    ensures var b := TranslateRel(body, pm, st);
            Rows(db, b.st.subplans, b.v.(initPlans := b.st.inits), params) == Answer(db, ByPosition, body, env)
    decreases body, 5
  {
    var b := TranslateRel(body, pm, st);
    var bodies := b.st.subplans;
    RelGrows(body, pm, st, st.next);
    RelInherits(db, bodies, body, pm, st, st.next);
    var run := RunInits(db, bodies, b.st.inits, params);
    RunInitsHold(db, bodies, b.st.inits, params, pm, st.next, b.st.next);
    RunInitsSame(db, bodies, b.st.inits, params, pm, st.next, b.st.next);
    RelMeans(db, bodies, body, pm, st, st.next, env, run);
    SameNode(db, bodies, b.v, b.st.inits, run);
  }

  /** The InitPlans of a node matter only through the environment they leave. */
  lemma SameNode(db: Database, bodies: seq<Plan>, p: Plan, inits: seq<SubPlan>, params: Params)
    ensures NodeRows(db, bodies, p.(initPlans := inits), params) == NodeRows(db, bodies, p, params)
  {
  }

  lemma {:induction false} RelMeans(db: Database, bodies: seq<Plan>, r: Rel, pm: ParamMap, st: State, lo: nat,
                                    env: Columns, params: Params)
    requires TranslateRel(r, pm, st).Ok?
    requires lo <= st.next && InitSlots(st.inits, lo, st.next)
    requires NoShadowRel(r, pm.Keys)
    requires Runs(db, bodies, pm, lo, TranslateRel(r, pm, st).st, env, params)
    ensures NodeRows(db, bodies, TranslateRel(r, pm, st).v, params) == Answer(db, ByPosition, r, env)
    decreases r, 4
  {
    var outer, inner := r.OuterCols(), r.InnerCols();
    var k := TranslateRels(r.children, pm, st);
    RelsGrow(r.children, pm, st, lo);
    var tl := TranslateList(r.exprs, pm, outer, inner, k.st);
    ListGrows(r.exprs, pm, outer, inner, k.st, lo);
    var ql := TranslateList(r.filter, pm, outer, inner, tl.st);
    ListGrows(r.filter, pm, outer, inner, tl.st, lo);
    var xl := TranslateList(r.conds, pm, outer, inner, ql.st);
    ListGrows(r.conds, pm, outer, inner, ql.st, lo);
    RunsBefore(db, bodies, pm, lo, ql.st, xl.st, env, params);
    RunsBefore(db, bodies, pm, lo, tl.st, ql.st, env, params);
    RunsBefore(db, bodies, pm, lo, k.st, tl.st, env, params);
    RelsMean(db, bodies, r.children, pm, st, lo, env, params);
    forall t: Tuple
      ensures EvalList(db, bodies, tl.v, params, t) == MeaningList(db, ByPosition, r.exprs, Scope(env, outer, inner, t))
      ensures EvalList(db, bodies, ql.v, params, t)
           == MeaningList(db, ByPosition, r.filter, Scope(env, outer, inner, t))
      ensures EvalList(db, bodies, xl.v, params, t) == MeaningList(db, ByPosition, r.conds, Scope(env, outer, inner, t))
    {
      ListMeans(db, bodies, r.exprs, pm, outer, inner, k.st, lo, env, params, t);
      ListMeans(db, bodies, r.filter, pm, outer, inner, tl.st, lo, env, params, t);
      ListMeans(db, bodies, r.conds, pm, outer, inner, ql.st, lo, env, params, t);
    }
    NodeMeans(db, bodies, r, Plan.Plan(r.kind, tl.v, ql.v, xl.v, [], k.v), env, params);
  }

  /** A node whose expressions and children agree with those of an operator returns its rows. */
  lemma NodeMeans(db: Database, bodies: seq<Plan>, r: Rel, p: Plan, env: Columns, params: Params)
    requires p.kind == r.kind
    requires RowsList(db, bodies, p.children, params) == AnswerList(db, ByPosition, r.children, env)
    requires forall t: Tuple :: EvalList(db, bodies, p.tlist, params, t)
                             == MeaningList(db, ByPosition, r.exprs, Scope(env, r.OuterCols(), r.InnerCols(), t))
    requires forall t: Tuple :: EvalList(db, bodies, p.quals, params, t)
                             == MeaningList(db, ByPosition, r.filter, Scope(env, r.OuterCols(), r.InnerCols(), t))
    requires forall t: Tuple :: EvalList(db, bodies, p.extra, params, t)
                             == MeaningList(db, ByPosition, r.conds, Scope(env, r.OuterCols(), r.InnerCols(), t))
    ensures NodeRows(db, bodies, p, params) == Answer(db, ByPosition, r, env)
  {
    var outer, inner := r.OuterCols(), r.InnerCols();
    var kids := RowsList(db, bodies, p.children, params);
    var outs, inns := Input(kids, 0), Input(kids, 1);
    var x1 := seq(|outs|, i requires 0 <= i < |outs| =>
                seq(|inns|, j requires 0 <= j < |inns| => EvalList(db, bodies, p.extra, params, (outs[i], inns[j]))));
    var x2 := seq(|outs|, i requires 0 <= i < |outs| =>
                seq(|inns|, j requires 0 <= j < |inns| =>
                  MeaningList(db, ByPosition, r.conds, Scope(env, outer, inner, (outs[i], inns[j])))));
    forall i | 0 <= i < |outs|
      ensures x1[i] == x2[i]
    {
    }
    assert x1 == x2;
    OutputMeans(db, bodies, r, p, env, params, db.combine(p.kind, kids, x1));
  }

  lemma OutputMeans(db: Database, bodies: seq<Plan>, r: Rel, p: Plan, env: Columns, params: Params, ts: seq<Tuple>)
    requires forall t: Tuple :: EvalList(db, bodies, p.tlist, params, t)
                             == MeaningList(db, ByPosition, r.exprs, Scope(env, r.OuterCols(), r.InnerCols(), t))
    requires forall t: Tuple :: EvalList(db, bodies, p.quals, params, t)
                             == MeaningList(db, ByPosition, r.filter, Scope(env, r.OuterCols(), r.InnerCols(), t))
    ensures seq(|ts|, i requires 0 <= i < |ts| => AllTrue(db, EvalList(db, bodies, p.quals, params, ts[i])))
         == seq(|ts|, i requires 0 <= i < |ts| =>
              AllTrue(db, MeaningList(db, ByPosition, r.filter, Scope(env, r.OuterCols(), r.InnerCols(), ts[i]))))
    ensures seq(|ts|, i requires 0 <= i < |ts| => EvalList(db, bodies, p.tlist, params, ts[i]))
         == seq(|ts|, i requires 0 <= i < |ts| =>
              MeaningList(db, ByPosition, r.exprs, Scope(env, r.OuterCols(), r.InnerCols(), ts[i])))
  {
  }

  lemma {:induction false} RelsMean(db: Database, bodies: seq<Plan>, rs: seq<Rel>, pm: ParamMap, st: State, lo: nat,
                                    env: Columns, params: Params)
    requires TranslateRels(rs, pm, st).Ok?
    requires lo <= st.next && InitSlots(st.inits, lo, st.next)
    requires forall r | r in rs :: NoShadowRel(r, pm.Keys)
    requires Runs(db, bodies, pm, lo, TranslateRels(rs, pm, st).st, env, params)
    ensures RowsList(db, bodies, TranslateRels(rs, pm, st).v, params) == AnswerList(db, ByPosition, rs, env)
    decreases rs, 3
  {
    if rs != [] {
      var h := TranslateRel(rs[0], pm, st);
      RelGrows(rs[0], pm, st, lo);
      RelsGrow(rs[1..], pm, h.st, lo);
      RunsBefore(db, bodies, pm, lo, h.st, TranslateRels(rs, pm, st).st, env, params);
      RelMeans(db, bodies, rs[0], pm, st, lo, env, params);
      RelsMean(db, bodies, rs[1..], pm, h.st, lo, env, params);
      RowsCons(db, bodies, h.v, TranslateRels(rs[1..], pm, h.st).v, params);
    }
  }

  lemma RowsCons(db: Database, bodies: seq<Plan>, p: Plan, ps: seq<Plan>, params: Params)
    requires p.initPlans == []
    ensures RowsList(db, bodies, [p] + ps, params)
         == [NodeRows(db, bodies, p, params)] + RowsList(db, bodies, ps, params)
  {
    assert ([p] + ps)[1..] == ps;
    assert RunInits(db, bodies, p.initPlans, params) == params;
  }

  lemma EvalOne(db: Database, bodies: seq<Plan>, e: Expr, params: Params, t: Tuple)
    ensures EvalList(db, bodies, [e], params, t) == [Eval(db, bodies, e, params, t)]
  {
    assert EvalList(db, bodies, [e][1..], params, t) == [];
  }

  lemma EvalTwo(db: Database, bodies: seq<Plan>, e: Expr, f: Expr, params: Params, t: Tuple)
    ensures EvalList(db, bodies, [e, f], params, t) == [Eval(db, bodies, e, params, t), Eval(db, bodies, f, params, t)]
  {
    assert [e, f][1..] == [f];
    EvalOne(db, bodies, f, params, t);
  }

  // ----- subqueries -----

  /** A SubPlan without a test reduces the rows of the subquery. */
  lemma {:induction false} PlainSubPlan(db: Database, bodies: seq<Plan>, sp: SubPlan, rows: seq<Row>, params: Params,
                                        t: Tuple)
    requires 1 <= sp.planId <= |bodies| && sp.test == []
    requires rows == Rows(db, bodies[..sp.planId - 1], bodies[sp.planId - 1],
                          Bind(params, sp.parParam, EvalList(db, bodies, sp.args, params, t)))
    ensures EvalSub(db, bodies, sp, params, t) == db.reduce(sp.link, rows, seq(|rows|, i => []))
  {
    var tests: seq<seq<Value>> := seq(|rows|, i => []);
    assert tests == seq(|rows|, i requires 0 <= i < |rows| =>
                      EvalList(db, bodies, sp.test, Bind(params, sp.testIds, rows[i]), t));
  }

  lemma {:induction false} SubqueryMeans(db: Database, bodies: seq<Plan>, s: Scalar, pm: ParamMap,
                                         outer: seq<nat>, inner: seq<nat>, st: State,
                                         env: Columns, params: Params, t: Tuple)
    requires s.Subquery? && Translate(s, pm, outer, inner, st).Ok?
    requires NoShadow(s, pm.Keys) && Disjoint(pm, outer, inner)
    requires Fits(pm, st.next) && Holds(pm, params, env)
    requires Translate(s, pm, outer, inner, st).st.subplans <= bodies
    requires InitsHold(db, bodies, params, Translate(s, pm, outer, inner, st).st.inits)
    ensures Eval(db, bodies, Translate(s, pm, outer, inner, st).v, params, t)
         == Meaning(db, ByPosition, s, Scope(env, outer, inner, t))
    decreases s, 3
  {
    var plink := if s.link == ScalarQuery then ScalarLink else ExistsLink;
    SubPlanGrows(plink, s.refs, s.body, pm, outer, inner, [], [], st);
    var r := TranslateSubPlan(plink, s.refs, s.body, pm, outer, inner, [], [], st);
    SubPlanReduces(db, bodies, plink, s.refs, s.body, pm, outer, inner, st, env, params, t);
    var v := EvalSub(db, bodies, r.v, params, t);
    SubqueryValue(db, s, Scope(env, outer, inner, t), v);
    SubqueryEval(db, bodies, s, pm, outer, inner, st, params, t);
  }

  /** The translated subquery evaluates its SubPlan, directly or through the slot of the InitPlan. */
  lemma SubqueryEval(db: Database, bodies: seq<Plan>, s: Scalar, pm: ParamMap,
                     outer: seq<nat>, inner: seq<nat>, st: State, params: Params, t: Tuple)
    requires s.Subquery? && Translate(s, pm, outer, inner, st).Ok?
    requires InitsHold(db, bodies, params, Translate(s, pm, outer, inner, st).st.inits)
    ensures var plink := if s.link == ScalarQuery then ScalarLink else ExistsLink;
            var r := TranslateSubPlan(plink, s.refs, s.body, pm, outer, inner, [], [], st);
            && r.Ok?
            && Eval(db, bodies, Translate(s, pm, outer, inner, st).v, params, t)
            == (var v := EvalSub(db, bodies, r.v, params, t);
                if s.link == NotExistsQuery then db.op(NOT, [v]) else v)
  {
    var plink := if s.link == ScalarQuery then ScalarLink else ExistsLink;
    SubPlanGrows(plink, s.refs, s.body, pm, outer, inner, [], [], st);
    var r := TranslateSubPlan(plink, s.refs, s.body, pm, outer, inner, [], [], st);
    match s.link
    case ScalarQuery =>
      if r.v.parParam == [] {
        var ip := r.v.(setParam := [r.st.next]);
        assert ip in Translate(s, pm, outer, inner, st).st.inits;
        NoArgs(db, bodies, r.v, [r.st.next], params, t);
      }
    case ExistsQuery =>
    case NotExistsQuery =>
      EvalOne(db, bodies, Sub(r.v), params, t);
  }

  lemma SubqueryValue(db: Database, s: Scalar, env: Columns, v: Value)
    requires s.Subquery?
    requires var rows := Answer(db, ByPosition, s.body, env);
             v == db.reduce(if s.link == ScalarQuery then ScalarLink else ExistsLink, rows, seq(|rows|, i => []))
    ensures Meaning(db, ByPosition, s, env) == if s.link == NotExistsQuery then db.op(NOT, [v]) else v
  {
  }

  /** A SubPlan without a test has the value of the subquery. */
  lemma {:induction false} SubPlanReduces(db: Database, bodies: seq<Plan>, link: Link, refs: seq<nat>, body: Rel,
                                          pm: ParamMap, outer: seq<nat>, inner: seq<nat>, st: State,
                                          env: Columns, params: Params, t: Tuple)
    requires TranslateSubPlan(link, refs, body, pm, outer, inner, [], [], st).Ok?
    requires TranslateSubPlan(link, refs, body, pm, outer, inner, [], [], st).st.subplans <= bodies
    requires Fits(pm, st.next) && Holds(pm, params, env) && Disjoint(pm, outer, inner)
    requires NoShadowRel(body, pm.Keys + (set c | c in refs))
    ensures var rows := Answer(db, ByPosition, body, Scope(env, outer, inner, t));
            && EvalSub(db, bodies, TranslateSubPlan(link, refs, body, pm, outer, inner, [], [], st).v, params, t)
            == db.reduce(link, rows, seq(|rows|, i => []))
    decreases body, 7
  {
    var r := TranslateSubPlan(link, refs, body, pm, outer, inner, [], [], st);
    SubPlanMeans(db, bodies, link, refs, body, pm, outer, inner, [], [], st, env, params, t, r);
    PlainSubPlan(db, bodies, r.v, Answer(db, ByPosition, body, Scope(env, outer, inner, t)), params, t);
  }

  /** Without arguments and test the row a SubPlan is evaluated on does not matter. */
  lemma NoArgs(db: Database, bodies: seq<Plan>, sp: SubPlan, ids: seq<nat>, params: Params, t: Tuple)
    requires sp.args == [] && sp.test == []
    ensures EvalSub(db, bodies, sp.(setParam := ids), params, ([], [])) == EvalSub(db, bodies, sp, params, t)
  {
    if 1 <= sp.planId <= |bodies| {
      var inner := Bind(params, sp.parParam, []);
      var rows := Rows(db, bodies[..sp.planId - 1], bodies[sp.planId - 1], inner);
      PlainSubPlan(db, bodies, sp, rows, params, t);
      PlainSubPlan(db, bodies, sp.(setParam := ids), rows, params, ([], []));
    }
  }

  lemma {:induction false} QuantifiedMeans(db: Database, bodies: seq<Plan>, s: Scalar, pm: ParamMap,
                                           outer: seq<nat>, inner: seq<nat>, st: State, lo: nat,
                                           env: Columns, params: Params, t: Tuple, e: Tr<Expr>)
    requires s.Quantified? && e == Translate(s, pm, outer, inner, st) && e.Ok?
    requires lo <= st.next && InitSlots(st.inits, lo, st.next)
    requires NoShadow(s, pm.Keys) && Disjoint(pm, outer, inner)
    requires Runs(db, bodies, pm, lo, e.st, env, params)
    ensures Eval(db, bodies, e.v, params, t) == Meaning(db, ByPosition, s, Scope(env, outer, inner, t))
    decreases s, 3
  {
    var l := Translate(s.lhs, pm, outer, inner, st);
    var r := TranslateSubPlan(s.quant, s.refs, s.body, pm, outer, inner, [Op(s.cmp, [l.v, Param(l.st.next)])],
                              [l.st.next], l.st.(next := l.st.next + 1));
    QuantifiedShape(s, pm, outer, inner, st, l, r);
    TestedMeans(db, bodies, s.quant, s.cmp, s.lhs, s.col, s.refs, s.body, pm, outer, inner, st, lo, env, params, t, l,
                r);
    QuantifiedValue(db, s, Scope(env, outer, inner, t), EvalSub(db, bodies, r.v, params, t));
    SubEval(db, bodies, r.v, params, t);
  }

  lemma SubEval(db: Database, bodies: seq<Plan>, sp: SubPlan, params: Params, t: Tuple)
    ensures Eval(db, bodies, Sub(sp), params, t) == EvalSub(db, bodies, sp, params, t)
  {
  }

  lemma QuantifiedValue(db: Database, s: Scalar, env: Columns, v: Value)
    requires s.Quantified?
    requires var rows := Answer(db, ByPosition, s.body, env);
             v == db.reduce(s.quant, rows, FirstTests(db, s.cmp, Meaning(db, ByPosition, s.lhs, env), rows))
    ensures Meaning(db, ByPosition, s, env) == v
  {
    FirstOnly(db, s.cmp, Meaning(db, ByPosition, s.lhs, env), s.col, s.body.cols, Answer(db, ByPosition, s.body, env),
              env);
  }

  /** The comparison with the first column of each row. */
  ghost function FirstTests(db: Database, cmp: nat, v: Value, rows: seq<Row>): (r: seq<seq<Value>>)
    ensures |r| == |rows|
  {
    seq(|rows|, i requires 0 <= i < |rows| => [db.op(cmp, [v, At(rows[i], 0)])])
  }

  lemma FirstOnly(db: Database, cmp: nat, v: Value, c: nat, cols: seq<nat>, rows: seq<Row>, env: Columns)
    ensures Tests(db, ByPosition, cmp, v, c, cols, rows, env) == FirstTests(db, cmp, v, rows)
  {
    forall i | 0 <= i < |rows|
      ensures Tests(db, ByPosition, cmp, v, c, cols, rows, env)[i] == FirstTests(db, cmp, v, rows)[i]
    {
      assert [v, TestColumn(ByPosition, c, 0, cols, rows[i], env)] == [v, At(rows[i], 0)];
    }
  }

  lemma QuantifiedShape(s: Scalar, pm: ParamMap, outer: seq<nat>, inner: seq<nat>, st: State,
                        l: Tr<Expr>, r: Tr<SubPlan>)
    requires s.Quantified? && Translate(s, pm, outer, inner, st).Ok?
    requires l == Translate(s.lhs, pm, outer, inner, st)
    requires l.Ok? ==>
               r == TranslateSubPlan(s.quant, s.refs, s.body, pm, outer, inner, [Op(s.cmp, [l.v, Param(l.st.next)])],
                                     [l.st.next], l.st.(next := l.st.next + 1))
    ensures l.Ok? && r.Ok? && Translate(s, pm, outer, inner, st) == Ok(Sub(r.v), r.st)
  {
  }

  /** A SubPlan with a test reduces the rows of the subquery together with their comparisons. */
  lemma {:induction false} TestedMeans(db: Database, bodies: seq<Plan>, quant: Link, cmp: nat, lhs: Scalar,
                                       col: nat, refs: seq<nat>, body: Rel, pm: ParamMap,
                                       outer: seq<nat>, inner: seq<nat>, st: State, lo: nat,
                                       env: Columns, params: Params, t: Tuple, l: Tr<Expr>, r: Tr<SubPlan>)
    requires l == Translate(lhs, pm, outer, inner, st) && l.Ok?
    requires r == TranslateSubPlan(quant, refs, body, pm, outer, inner, [Op(cmp, [l.v, Param(l.st.next)])],
                                   [l.st.next], l.st.(next := l.st.next + 1))
    requires r.Ok? && Runs(db, bodies, pm, lo, r.st, env, params)
    requires lo <= st.next && InitSlots(st.inits, lo, st.next)
    requires NoShadow(lhs, pm.Keys) && Disjoint(pm, outer, inner)
    requires NoShadowRel(body, pm.Keys + (set c | c in refs))
    ensures var rows := Answer(db, ByPosition, body, Scope(env, outer, inner, t));
            && EvalSub(db, bodies, r.v, params, t)
            == db.reduce(quant, rows,
                         FirstTests(db, cmp, Meaning(db, ByPosition, lhs, Scope(env, outer, inner, t)), rows))
    decreases Quantified(quant, cmp, lhs, col, refs, body), 2
  {
    TestedState(db, bodies, quant, cmp, lhs, refs, body, pm, outer, inner, st, lo, env, params, l, r);
    var rows := Answer(db, ByPosition, body, Scope(env, outer, inner, t));
    TestsMean(db, bodies, cmp, lhs, pm, outer, inner, st, lo, env, params, t, rows);
    TestedReduces(db, bodies, quant, [Op(cmp, [l.v, Param(l.st.next)])], [l.st.next], refs, body, pm, outer, inner,
                  l.st.(next := l.st.next + 1), env, params, t, r,
                  rows, FirstTests(db, cmp, Meaning(db, ByPosition, lhs, Scope(env, outer, inner, t)), rows));
  }

  /** A SubPlan whose test has, on each row of its body, the given value. */
  lemma {:induction false} TestedReduces(db: Database, bodies: seq<Plan>, quant: Link, test: seq<Expr>, ids: seq<nat>,
                                         refs: seq<nat>, body: Rel, pm: ParamMap, outer: seq<nat>, inner: seq<nat>,
                                         st: State, env: Columns, params: Params, t: Tuple, r: Tr<SubPlan>,
                                         rows: seq<Row>, tests: seq<seq<Value>>)
    requires r == TranslateSubPlan(quant, refs, body, pm, outer, inner, test, ids, st)
    requires r.Ok? && r.st.subplans <= bodies
    requires Fits(pm, st.next) && Holds(pm, params, env) && Disjoint(pm, outer, inner)
    requires NoShadowRel(body, pm.Keys + (set c | c in refs))
    requires rows == Answer(db, ByPosition, body, Scope(env, outer, inner, t)) && |tests| == |rows|
    requires forall i | 0 <= i < |rows| :: EvalList(db, bodies, test, Bind(params, ids, rows[i]), t) == tests[i]
    ensures EvalSub(db, bodies, r.v, params, t) == db.reduce(quant, rows, tests)
    decreases body, 7
  {
    SubPlanMeans(db, bodies, quant, refs, body, pm, outer, inner, test, ids, st, env, params, t, r);
    TestedSubPlan(db, bodies, r.v, rows, tests, params, t);
  }

  lemma TestedState(db: Database, bodies: seq<Plan>, quant: Link, cmp: nat, lhs: Scalar,
                    refs: seq<nat>, body: Rel, pm: ParamMap,
                    outer: seq<nat>, inner: seq<nat>, st: State, lo: nat,
                    env: Columns, params: Params, l: Tr<Expr>, r: Tr<SubPlan>)
    requires l == Translate(lhs, pm, outer, inner, st) && l.Ok?
    requires r == TranslateSubPlan(quant, refs, body, pm, outer, inner, [Op(cmp, [l.v, Param(l.st.next)])],
                                   [l.st.next], l.st.(next := l.st.next + 1))
    requires r.Ok? && Runs(db, bodies, pm, lo, r.st, env, params)
    requires lo <= st.next && InitSlots(st.inits, lo, st.next)
    ensures Runs(db, bodies, pm, lo, l.st, env, params)
    ensures r.v.link == quant && r.v.test == [Op(cmp, [l.v, Param(l.st.next)])] && r.v.testIds == [l.st.next]
  {
    TranslateGrows(lhs, pm, outer, inner, st, lo);
    SubPlanGrows(quant, refs, body, pm, outer, inner, [Op(cmp, [l.v, Param(l.st.next)])],
                 [l.st.next], l.st.(next := l.st.next + 1));
    RunsSameInits(db, bodies, pm, lo, l.st, r.st, env, params);
  }

  lemma RunsSameInits(db: Database, bodies: seq<Plan>, pm: ParamMap, lo: nat, st: State, st': State,
                      env: Columns, params: Params)
    requires st.inits == st'.inits && st.subplans <= st'.subplans
    requires lo <= st.next && InitSlots(st.inits, lo, st.next)
    requires Runs(db, bodies, pm, lo, st', env, params)
    ensures Runs(db, bodies, pm, lo, st, env, params)
  {
  }

  lemma {:induction false} TestsMean(db: Database, bodies: seq<Plan>, cmp: nat, lhs: Scalar, pm: ParamMap,
                                     outer: seq<nat>, inner: seq<nat>, st: State, lo: nat,
                                     env: Columns, params: Params, t: Tuple, rows: seq<Row>)
    requires Translate(lhs, pm, outer, inner, st).Ok?
    requires lo <= st.next && InitSlots(st.inits, lo, st.next)
    requires NoShadow(lhs, pm.Keys) && Disjoint(pm, outer, inner)
    requires Runs(db, bodies, pm, lo, Translate(lhs, pm, outer, inner, st).st, env, params)
    ensures var l := Translate(lhs, pm, outer, inner, st);
            forall i | 0 <= i < |rows| ::
              EvalList(db, bodies, [Op(cmp, [l.v, Param(l.st.next)])], Bind(params, [l.st.next], rows[i]), t)
              == FirstTests(db, cmp, Meaning(db, ByPosition, lhs, Scope(env, outer, inner, t)), rows)[i]
    decreases lhs, 6
  {
    forall i | 0 <= i < |rows|
      ensures var l := Translate(lhs, pm, outer, inner, st);
              EvalList(db, bodies, [Op(cmp, [l.v, Param(l.st.next)])], Bind(params, [l.st.next], rows[i]), t)
              == FirstTests(db, cmp, Meaning(db, ByPosition, lhs, Scope(env, outer, inner, t)), rows)[i]
    {
      TestMeans(db, bodies, cmp, lhs, pm, outer, inner, st, lo, env, params, t, rows[i]);
    }
  }

  lemma TestedSubPlan(db: Database, bodies: seq<Plan>, sp: SubPlan, rows: seq<Row>, tests: seq<seq<Value>>,
                      params: Params, t: Tuple)
    requires 1 <= sp.planId <= |bodies| && |tests| == |rows|
    requires rows == Rows(db, bodies[..sp.planId - 1], bodies[sp.planId - 1],
                          Bind(params, sp.parParam, EvalList(db, bodies, sp.args, params, t)))
    requires forall i | 0 <= i < |rows| ::
               EvalList(db, bodies, sp.test, Bind(params, sp.testIds, rows[i]), t) == tests[i]
    ensures EvalSub(db, bodies, sp, params, t) == db.reduce(sp.link, rows, tests)
  {
    assert tests == seq(|rows|, i requires 0 <= i < |rows| =>
                      EvalList(db, bodies, sp.test, Bind(params, sp.testIds, rows[i]), t));
  }

  /** The comparison of an ANY or ALL sublink with one row of its body. */
  lemma {:induction false} TestMeans(db: Database, bodies: seq<Plan>, cmp: nat, lhs: Scalar, pm: ParamMap,
                                     outer: seq<nat>, inner: seq<nat>, st: State, lo: nat,
                                     env: Columns, params: Params, t: Tuple, row: Row)
    requires Translate(lhs, pm, outer, inner, st).Ok?
    requires lo <= st.next && InitSlots(st.inits, lo, st.next)
    requires NoShadow(lhs, pm.Keys) && Disjoint(pm, outer, inner)
    requires Runs(db, bodies, pm, lo, Translate(lhs, pm, outer, inner, st).st, env, params)
    ensures var l := Translate(lhs, pm, outer, inner, st);
            && EvalList(db, bodies, [Op(cmp, [l.v, Param(l.st.next)])], Bind(params, [l.st.next], row), t)
            == [db.op(cmp, [Meaning(db, ByPosition, lhs, Scope(env, outer, inner, t)), At(row, 0)])]
    decreases lhs, 5
  {
    var l := Translate(lhs, pm, outer, inner, st);
    var tid := l.st.next;
    UnusedSlot(db, bodies, params, pm, l.st.inits, lo, tid, row);
    var p2 := params[tid := At(row, 0)];
    TranslateMeans(db, bodies, lhs, pm, outer, inner, st, lo, env, p2, t);
    EvalTwo(db, bodies, l.v, Param(tid), p2, t);
    EvalOne(db, bodies, Op(cmp, [l.v, Param(tid)]), p2, t);
  }

  /** Tests that need nothing from outside: a constant, or two columns of the body's row. */
  lemma {:induction false} RowTestedMeans(db: Database, bodies: seq<Plan>, s: Scalar, pm: ParamMap,
                                          outer: seq<nat>, inner: seq<nat>, st: State, lo: nat,
                                          env: Columns, params: Params, t: Tuple, e: Tr<Expr>)
    requires s.RowTested? && e == Translate(s, pm, outer, inner, st) && e.Ok?
    requires lo <= st.next && InitSlots(st.inits, lo, st.next)
    requires NoShadow(s, pm.Keys) && Disjoint(pm, outer, inner)
    requires Runs(db, bodies, pm, lo, e.st, env, params)
    ensures Eval(db, bodies, e.v, params, t) == Meaning(db, ByPosition, s, Scope(env, outer, inner, t))
    decreases s, 3
  {
    var exprs, ids := RowTestExprs(s.test, st.next), RowTestIds(s.test, st.next);
    var st1 := st.(next := st.next + |ids|);
    var r := TranslateSubPlan(s.quant, s.refs, s.body, pm, outer, inner, exprs, ids, st1);
    RowTestedShape(s, pm, outer, inner, st, r);
    RowTestedReduces(db, bodies, s.quant, s.test, st.next, s.refs, s.body, pm, outer, inner, st1, env, params, t, r);
    RowTestedValue(db, s, Scope(env, outer, inner, t), EvalSub(db, bodies, r.v, params, t));
    SubEval(db, bodies, r.v, params, t);
  }

  lemma {:induction false} RowTestedReduces(db: Database, bodies: seq<Plan>, quant: Link, test: RowTest, n: nat,
                                            refs: seq<nat>, body: Rel, pm: ParamMap, outer: seq<nat>, inner: seq<nat>,
                                            st: State, env: Columns, params: Params, t: Tuple, r: Tr<SubPlan>)
    requires r == TranslateSubPlan(quant, refs, body, pm, outer, inner, RowTestExprs(test, n), RowTestIds(test, n), st)
    requires r.Ok? && r.st.subplans <= bodies
    requires Fits(pm, st.next) && Holds(pm, params, env) && Disjoint(pm, outer, inner)
    requires NoShadowRel(body, pm.Keys + (set c | c in refs))
    ensures var rows := Answer(db, ByPosition, body, Scope(env, outer, inner, t));
            EvalSub(db, bodies, r.v, params, t) == db.reduce(quant, rows, FirstRowTests(db, test, rows))
    decreases body, 8
  {
    var rows := Answer(db, ByPosition, body, Scope(env, outer, inner, t));
    forall i | 0 <= i < |rows|
      ensures EvalList(db, bodies, RowTestExprs(test, n), Bind(params, RowTestIds(test, n), rows[i]), t)
           == FirstRowTests(db, test, rows)[i]
    {
      RowTestMeans(db, bodies, test, n, params, t, rows[i]);
    }
    TestedReduces(db, bodies, quant, RowTestExprs(test, n), RowTestIds(test, n), refs, body, pm, outer, inner, st, env,
                  params, t, r,
                  rows, FirstRowTests(db, test, rows));
  }

  /** The test on the first columns of a row. */
  ghost function FirstRowTest(db: Database, test: RowTest, row: Row): Value {
    match test
    case Always(v) => v
    case TwoColumns(cmp, _, _) => db.op(cmp, [At(row, 0), At(row, 1)])
  }

  ghost function FirstRowTests(db: Database, test: RowTest, rows: seq<Row>): (r: seq<seq<Value>>)
    ensures |r| == |rows|
  {
    seq(|rows|, i requires 0 <= i < |rows| => [FirstRowTest(db, test, rows[i])])
  }

  lemma FirstRowOnly(db: Database, test: RowTest, cols: seq<nat>, rows: seq<Row>, env: Columns)
    ensures RowTests(db, ByPosition, test, cols, rows, env) == FirstRowTests(db, test, rows)
  {
    forall i | 0 <= i < |rows|
      ensures RowTests(db, ByPosition, test, cols, rows, env)[i] == FirstRowTests(db, test, rows)[i]
    {
    }
  }

  lemma RowTestedShape(s: Scalar, pm: ParamMap, outer: seq<nat>, inner: seq<nat>, st: State, r: Tr<SubPlan>)
    requires s.RowTested? && Translate(s, pm, outer, inner, st).Ok?
    requires r == TranslateSubPlan(s.quant, s.refs, s.body, pm, outer, inner, RowTestExprs(s.test, st.next),
                                   RowTestIds(s.test, st.next), st.(next := st.next + |RowTestIds(s.test, st.next)|))
    ensures r.Ok? && Translate(s, pm, outer, inner, st) == Ok(Sub(r.v), r.st)
  {
  }

  lemma RowTestedValue(db: Database, s: Scalar, env: Columns, v: Value)
    requires s.RowTested?
    requires var rows := Answer(db, ByPosition, s.body, env);
             v == db.reduce(s.quant, rows, FirstRowTests(db, s.test, rows))
    ensures Meaning(db, ByPosition, s, env) == v
  {
    FirstRowOnly(db, s.test, s.body.cols, Answer(db, ByPosition, s.body, env), env);
  }

  lemma RowTestMeans(db: Database, bodies: seq<Plan>, test: RowTest, n: nat, params: Params, t: Tuple, row: Row)
    ensures EvalList(db, bodies, RowTestExprs(test, n), Bind(params, RowTestIds(test, n), row), t)
         == [FirstRowTest(db, test, row)]
  {
    var p := Bind(params, RowTestIds(test, n), row);
    EvalOne(db, bodies, RowTestExprs(test, n)[0], p, t);
    match test
    case Always(_) =>
    case TwoColumns(cmp, _, _) =>
      var rest := if row == [] then [] else row[1..];
      assert [n, n + 1][1..] == [n + 1] && [n + 1][1..] == [];
      assert p == Bind(params[n := At(row, 0)], [n + 1], rest) == params[n := At(row, 0)][n + 1 := At(rest, 0)];
      EvalTwo(db, bodies, Param(n), Param(n + 1), p, t);
      assert At(rest, 0) == At(row, 1);
  }

  // ----- InitPlans depend on inherited columns only -----

  lemma {:induction false} TranslateInherits(db: Database, bodies: seq<Plan>, s: Scalar, pm: ParamMap,
                                             outer: seq<nat>, inner: seq<nat>, st: State, lo: nat)
    requires Translate(s, pm, outer, inner, st).Ok?
    requires Translate(s, pm, outer, inner, st).st.subplans <= bodies
    requires Fits(pm, lo) && lo <= st.next
    requires NoShadow(s, pm.Keys) && Disjoint(pm, outer, inner)
    requires InitsInherit(db, bodies, pm, st.inits)
    ensures InitsInherit(db, bodies, pm, Translate(s, pm, outer, inner, st).st.inits)
    decreases s, 2
  {
    match s
    case Apply(_, args) => ListInherits(db, bodies, args, pm, outer, inner, st, lo);
    case Subquery(_, _, _) => SubqueryInherits(db, bodies, s, pm, outer, inner, st, lo);
    case Quantified(_, _, _, _, _, _) => QuantifiedInherits(db, bodies, s, pm, outer, inner, st, lo);
    case RowTested(_, _, _, _) => RowTestedInherits(db, bodies, s, pm, outer, inner, st, lo);
    case _ =>
  }

  lemma {:induction false} SubqueryInherits(db: Database, bodies: seq<Plan>, s: Scalar, pm: ParamMap,
                                 outer: seq<nat>, inner: seq<nat>, st: State, lo: nat)
    requires s.Subquery? && Translate(s, pm, outer, inner, st).Ok?
    requires Translate(s, pm, outer, inner, st).st.subplans <= bodies
    requires Fits(pm, lo) && lo <= st.next
    requires NoShadow(s, pm.Keys) && Disjoint(pm, outer, inner)
    requires InitsInherit(db, bodies, pm, st.inits)
    ensures InitsInherit(db, bodies, pm, Translate(s, pm, outer, inner, st).st.inits)
    decreases s, 1
  {
    var plink := if s.link == ScalarQuery then ScalarLink else ExistsLink;
    SubPlanGrows(plink, s.refs, s.body, pm, outer, inner, [], [], st);
    var r := TranslateSubPlan(plink, s.refs, s.body, pm, outer, inner, [], [], st);
    if s.link == ScalarQuery && r.v.parParam == [] {
      HoistedInherits(db, bodies, s.refs, s.body, pm, outer, inner, st);
    }
  }

  lemma {:induction false} QuantifiedInherits(db: Database, bodies: seq<Plan>, s: Scalar, pm: ParamMap,
                                 outer: seq<nat>, inner: seq<nat>, st: State, lo: nat)
    requires s.Quantified? && Translate(s, pm, outer, inner, st).Ok?
    requires Translate(s, pm, outer, inner, st).st.subplans <= bodies
    requires Fits(pm, lo) && lo <= st.next
    requires NoShadow(s, pm.Keys) && Disjoint(pm, outer, inner)
    requires InitsInherit(db, bodies, pm, st.inits)
    ensures InitsInherit(db, bodies, pm, Translate(s, pm, outer, inner, st).st.inits)
    decreases s, 1
  {
    QuantifiedState(s, pm, outer, inner, st);
    TranslateInherits(db, bodies, s.lhs, pm, outer, inner, st, lo);
  }

  /** The SubPlan of a test adds no InitPlan. */
  lemma {:induction false} QuantifiedState(s: Scalar, pm: ParamMap, outer: seq<nat>, inner: seq<nat>, st: State)
    requires s.Quantified? && Translate(s, pm, outer, inner, st).Ok?
    ensures var l := Translate(s.lhs, pm, outer, inner, st);
            var e := Translate(s, pm, outer, inner, st);
            l.Ok? && e.st.inits == l.st.inits && l.st.subplans <= e.st.subplans
  {
    var l := Translate(s.lhs, pm, outer, inner, st);
    SubPlanGrows(s.quant, s.refs, s.body, pm, outer, inner, [Op(s.cmp, [l.v, Param(l.st.next)])], [l.st.next],
                 l.st.(next := l.st.next + 1));
  }

  lemma {:induction false} RowTestedInherits(db: Database, bodies: seq<Plan>, s: Scalar, pm: ParamMap,
                                 outer: seq<nat>, inner: seq<nat>, st: State, lo: nat)
    requires s.RowTested? && Translate(s, pm, outer, inner, st).Ok?
    requires Translate(s, pm, outer, inner, st).st.subplans <= bodies
    requires Fits(pm, lo) && lo <= st.next
    requires NoShadow(s, pm.Keys) && Disjoint(pm, outer, inner)
    requires InitsInherit(db, bodies, pm, st.inits)
    ensures InitsInherit(db, bodies, pm, Translate(s, pm, outer, inner, st).st.inits)
    decreases s, 1
  {
    SubPlanGrows(s.quant, s.refs, s.body, pm, outer, inner, RowTestExprs(s.test, st.next), RowTestIds(s.test, st.next),
                 st.(next := st.next + |RowTestIds(s.test, st.next)|));
  }

  /** A scalar subquery hoisted to an InitPlan has one value for all rows of the enclosing body. */
  lemma {:induction false} HoistedInherits(db: Database, bodies: seq<Plan>, refs: seq<nat>, body: Rel, pm: ParamMap,
                                           outer: seq<nat>, inner: seq<nat>, st: State)
    requires TranslateSubPlan(ScalarLink, refs, body, pm, outer, inner, [], [], st).Ok?
    requires TranslateSubPlan(ScalarLink, refs, body, pm, outer, inner, [], [], st).st.subplans <= bodies
    requires TranslateSubPlan(ScalarLink, refs, body, pm, outer, inner, [], [], st).v.parParam == []
    requires Fits(pm, st.next) && Disjoint(pm, outer, inner)
    requires NoShadowRel(body, pm.Keys + (set c | c in refs))
    ensures forall id :: Inherits(db, bodies, pm,
              TranslateSubPlan(ScalarLink, refs, body, pm, outer, inner, [], [], st).v.(setParam := [id]))
    decreases body, 8
  {
    var sp := TranslateSubPlan(ScalarLink, refs, body, pm, outer, inner, [], [], st).v;
    SubPlanGrows(ScalarLink, refs, body, pm, outer, inner, [], [], st);
    forall id, p1, p2 | SameOuter(pm, p1, p2)
      ensures EvalSub(db, bodies, sp.(setParam := [id]), p1, ([], []))
           == EvalSub(db, bodies, sp.(setParam := [id]), p2, ([], []))
    {
      var env := map c | c in pm :: Slot(p1, pm[c]);
      SubPlanReduces(db, bodies, ScalarLink, refs, body, pm, outer, inner, st, env, p1, ([], []));
      SubPlanReduces(db, bodies, ScalarLink, refs, body, pm, outer, inner, st, env, p2, ([], []));
      NoArgs(db, bodies, sp, [id], p1, ([], []));
      NoArgs(db, bodies, sp, [id], p2, ([], []));
    }
  }

  lemma {:induction false} ListInherits(db: Database, bodies: seq<Plan>, ss: seq<Scalar>, pm: ParamMap,
                                        outer: seq<nat>, inner: seq<nat>, st: State, lo: nat)
    requires TranslateList(ss, pm, outer, inner, st).Ok?
    requires TranslateList(ss, pm, outer, inner, st).st.subplans <= bodies
    requires Fits(pm, lo) && lo <= st.next
    requires Disjoint(pm, outer, inner) && forall s | s in ss :: NoShadow(s, pm.Keys)
    requires InitsInherit(db, bodies, pm, st.inits)
    ensures InitsInherit(db, bodies, pm, TranslateList(ss, pm, outer, inner, st).st.inits)
    decreases ss, 1
  {
    if ss != [] {
      var h := Translate(ss[0], pm, outer, inner, st);
      TranslateGrows(ss[0], pm, outer, inner, st, lo);
      ListGrows(ss[1..], pm, outer, inner, h.st, lo);
      TranslateInherits(db, bodies, ss[0], pm, outer, inner, st, lo);
      ListInherits(db, bodies, ss[1..], pm, outer, inner, h.st, lo);
    }
  }

  lemma {:induction false} RelInherits(db: Database, bodies: seq<Plan>, r: Rel, pm: ParamMap, st: State, lo: nat)
    requires TranslateRel(r, pm, st).Ok?
    requires TranslateRel(r, pm, st).st.subplans <= bodies
    requires Fits(pm, lo) && lo <= st.next && NoShadowRel(r, pm.Keys)
    requires InitsInherit(db, bodies, pm, st.inits)
    ensures InitsInherit(db, bodies, pm, TranslateRel(r, pm, st).st.inits)
    decreases r, 2
  {
    var outer, inner := r.OuterCols(), r.InnerCols();
    var k := TranslateRels(r.children, pm, st);
    RelsGrow(r.children, pm, st, lo);
    var tl := TranslateList(r.exprs, pm, outer, inner, k.st);
    ListGrows(r.exprs, pm, outer, inner, k.st, lo);
    var ql := TranslateList(r.filter, pm, outer, inner, tl.st);
    ListGrows(r.filter, pm, outer, inner, tl.st, lo);
    ListGrows(r.conds, pm, outer, inner, ql.st, lo);
    RelsInherit(db, bodies, r.children, pm, st, lo);
    ListInherits(db, bodies, r.exprs, pm, outer, inner, k.st, lo);
    ListInherits(db, bodies, r.filter, pm, outer, inner, tl.st, lo);
    ListInherits(db, bodies, r.conds, pm, outer, inner, ql.st, lo);
  }

  lemma {:induction false} RelsInherit(db: Database, bodies: seq<Plan>, rs: seq<Rel>, pm: ParamMap, st: State, lo: nat)
    requires TranslateRels(rs, pm, st).Ok?
    requires TranslateRels(rs, pm, st).st.subplans <= bodies
    requires Fits(pm, lo) && lo <= st.next && forall r | r in rs :: NoShadowRel(r, pm.Keys)
    requires InitsInherit(db, bodies, pm, st.inits)
    ensures InitsInherit(db, bodies, pm, TranslateRels(rs, pm, st).st.inits)
    decreases rs, 1
  {
    if rs != [] {
      var h := TranslateRel(rs[0], pm, st);
      RelGrows(rs[0], pm, st, lo);
      RelsGrow(rs[1..], pm, h.st, lo);
      RelInherits(db, bodies, rs[0], pm, st, lo);
      RelsInherit(db, bodies, rs[1..], pm, h.st, lo);
    }
  }

  // ----- the statement -----

  /**
    The translated statement returns the rows of the original for every
    database, each test reading its columns by position.
   */
  lemma StatementReads(db: Database, r: Rel)
    requires TranslateStatement(r).Ok? && NoShadowRel(r, {})
    ensures Rows(db, TranslateStatement(r).st.subplans, TranslateStatement(r).v, map[])
         == Answer(db, ByPosition, r, map[])
  {
    var st0 := State(0, [], []);
    var b := TranslateRel(r, map[], st0);
    RelGrows(r, map[], st0, 0);
    assert b.v.initPlans + b.st.inits == b.st.inits;
    var none: ParamMap := map[];
    assert none.Keys == {};
    BodyMeans(db, r, none, st0, map[], map[]);
  }
}
