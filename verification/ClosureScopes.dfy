/**
  The parameter analysis applied to translated statements: bodies are registered
  after every body they call, and what an InitPlan sets is read only in the body
  that owns it, so `extParam` may be trusted for them.
 */
module ClosureScopes {
  import opened Plans
  import opened ParamSets
  import opened Dxl
  import opened Closure
  import opened ClosureProof

  ghost predicate Upto(ids: set<nat>, n: nat) {
    forall x | x in ids :: x < n
  }

  ghost predicate NoOutputs(subs: set<SubPlan>) {
    forall s | s in subs :: s.setParam == []
  }

  /** A translated expression: calls registered bodies, sets nothing, reads allocated slots. */
  ghost predicate GoodExpr(e: Expr, k: nat, n: nat) {
    Below(e, k) && NoOutputs(ExprSubs(e)) && Upto(ExprParams(e), n)
  }

  ghost predicate GoodList(es: seq<Expr>, k: nat, n: nat) {
    (forall e | e in es :: Below(e, k)) && NoOutputs(ListSubs(es)) && Upto(ListParams(es), n)
  }

  /** A translated plan before InitPlans are attached to its root. */
  ghost predicate GoodPlan(p: Plan, k: nat, n: nat) {
    PlanBelow(p, k) && NoOutputs(PlanSubs(p)) && Upto(PlanParams(p), n) && NoInits(p)
  }

  /** No node of the tree has InitPlans. */
  ghost predicate NoInits(p: Plan)
    decreases p
  {
    p.initPlans == [] && forall c | c in p.children :: NoInits(c)
  }

  ghost predicate GoodPlans(ps: seq<Plan>, k: nat, n: nat) {
    forall p | p in ps :: GoodPlan(p, k, n)
  }

  /** An InitPlan has no argument, and its body reads only slots below the one it sets. */
  ghost predicate GoodInit(ip: SubPlan, exts: seq<set<nat>>, n: nat) {
    && ip.args == [] && ip.test == []
    && |ip.setParam| == 1 && ip.setParam[0] < n
    && 1 <= ip.planId <= |exts|
    && Upto(exts[ip.planId - 1], ip.setParam[0])
  }

  /** The InitPlans before position i of a body set slots below that of number i. */
  ghost predicate InitAt(inits: seq<SubPlan>, i: nat, exts: seq<set<nat>>, n: nat)
    requires i < |inits|
  {
    && GoodInit(inits[i], exts, n)
    && forall j | 0 <= j < i :: forall x | x in inits[j].setParam :: x < inits[i].setParam[0]
  }

  /** Body k calls bodies before it, scopes its InitPlans and reads allocated slots. */
  ghost predicate BodyAt(bodies: seq<Plan>, k: nat, n: nat)
    requires k < |bodies|
  {
    && PlanBelow(bodies[k], k)
    && Scoped(bodies[k], BodyExts(bodies)[..k])
    && Upto(BodyExts(bodies)[k], n)
  }

  ghost predicate GoodInits(inits: seq<SubPlan>, exts: seq<set<nat>>, n: nat) {
    forall i | 0 <= i < |inits| :: InitAt(inits, i, exts, n)
  }

  ghost predicate GoodState(st: State) {
    && (forall k | 0 <= k < |st.subplans| :: BodyAt(st.subplans, k, st.next))
    && GoodInits(st.inits, BodyExts(st.subplans), st.next)
  }

  lemma InitsMore(inits: seq<SubPlan>, exts: seq<set<nat>>, n: nat, more: seq<set<nat>>, m: nat)
    requires GoodInits(inits, exts, n) && exts <= more && n <= m
    ensures GoodInits(inits, more, m)
  {
    forall i | 0 <= i < |inits|
      ensures InitAt(inits, i, more, m)
    {
      assert InitAt(inits, i, exts, n);
    }
  }

  lemma NextSlots(st: State, n: nat)
    requires GoodState(st) && st.next <= n
    ensures GoodState(st.(next := n))
  {
    forall k | 0 <= k < |st.subplans|
      ensures BodyAt(st.subplans, k, n)
    {
      assert BodyAt(st.subplans, k, st.next);
    }
    InitsMore(st.inits, BodyExts(st.subplans), st.next, BodyExts(st.subplans), n);
  }

  // ----- later states -----

  lemma {:induction false} BelowMore(e: Expr, n: nat, m: nat)
    requires Below(e, n) && n <= m
    ensures Below(e, m)
    decreases e
  {
    match e
    case Op(_, args) =>
      forall a | a in args ensures Below(a, m) { BelowMore(a, n, m); }
    case Sub(sp) => SubBelowMore(sp, n, m);
    case _ =>
  }

  lemma {:induction false} SubBelowMore(sp: SubPlan, n: nat, m: nat)
    requires SubBelow(sp, n) && n <= m
    ensures SubBelow(sp, m)
    decreases sp
  {
    forall a | a in sp.test ensures Below(a, m) { BelowMore(a, n, m); }
    forall a | a in sp.args ensures Below(a, m) { BelowMore(a, n, m); }
  }

  lemma {:induction false} PlanBelowMore(p: Plan, n: nat, m: nat)
    requires PlanBelow(p, n) && n <= m
    ensures PlanBelow(p, m)
    decreases p
  {
    forall e | e in p.tlist ensures Below(e, m) { BelowMore(e, n, m); }
    forall e | e in p.quals ensures Below(e, m) { BelowMore(e, n, m); }
    forall e | e in p.extra ensures Below(e, m) { BelowMore(e, n, m); }
    forall s | s in p.initPlans ensures SubBelow(s, m) { SubBelowMore(s, n, m); }
    forall c | c in p.children ensures PlanBelow(c, m) { PlanBelowMore(c, n, m); }
  }

  lemma GoodListMore(es: seq<Expr>, k: nat, n: nat, k': nat, n': nat)
    requires GoodList(es, k, n) && k <= k' && n <= n'
    ensures GoodList(es, k', n')
  {
    forall e | e in es ensures Below(e, k') { BelowMore(e, k, k'); }
  }

  lemma GoodPlansMore(ps: seq<Plan>, k: nat, n: nat, k': nat, n': nat)
    requires GoodPlans(ps, k, n) && k <= k' && n <= n'
    ensures GoodPlans(ps, k', n')
  {
    forall p | p in ps ensures GoodPlan(p, k', n') { PlanBelowMore(p, k, k'); }
  }

  lemma {:induction false} BareScoped(p: Plan, exts: seq<set<nat>>)
    requires NoInits(p) && NoOutputs(PlanSubs(p))
    ensures Scoped(p, exts)
    decreases p
  {
    ChildSets(p.children, exts);
    forall c | c in p.children
      ensures Scoped(c, exts) && Outputs(PlanSubs(c)) == {}
    {
      assert PlanSubs(c) <= PlansSubs(p.children) <= PlanSubs(p);
      BareScoped(c, exts);
    }
  }

  lemma ExtsMore(bodies: seq<Plan>, more: seq<Plan>)
    requires bodies <= more
    ensures BodyExts(bodies) <= BodyExts(more)
  {
    BodyExtsPrefix(more, |bodies|);
    assert more[..|bodies|] == bodies;
  }

  // ----- registering a body -----

  lemma {:induction false} BareInits(inits: seq<SubPlan>)
    requires forall ip | ip in inits :: ip.args == [] && ip.test == []
    ensures InitParams(inits) == {} && InnerSubs(inits) == {}
  {
    if inits != [] {
      assert inits[0] in inits;
      BareInits(inits[1..]);
    }
  }

  lemma BareSub(ip: SubPlan)
    requires ip.args == [] && ip.test == []
    ensures ExprParams(Sub(ip)) == {} && ExprSubs(Sub(ip)) == {ip}
  {
    assert ListSubs([]) == {} && ListParams([]) == {};
  }

  lemma {:induction false} InitsAbove(inits: seq<SubPlan>, lo: nat)
    requires forall i | 0 <= i < |inits| :: forall x | x in inits[i].setParam :: lo <= x
    ensures forall x | x in InitOutputs(inits) :: lo <= x
  {
    if inits != [] {
      InitsAbove(inits[1..], lo);
    }
  }

  /** Slots are handed out in increasing order, so an InitPlan cannot read what it or a later one sets. */
  lemma {:induction false} InitsInOrder(inits: seq<SubPlan>, exts: seq<set<nat>>, n: nat)
    requires GoodInits(inits, exts, n)
    ensures InitsOrdered(inits, exts)
  {
    if inits != [] {
      var ip := inits[0];
      assert InitAt(inits, 0, exts, n);
      forall i | 0 <= i < |inits|
        ensures forall x | x in inits[i].setParam :: ip.setParam[0] <= x
      {
        assert InitAt(inits, i, exts, n);
        assert ip.setParam[0] in inits[0].setParam;
      }
      InitsAbove(inits, ip.setParam[0]);
      BareSub(ip);
      assert SubNeeds(ip, exts) <= exts[ip.planId - 1];
      var rest := inits[1..];
      forall i | 0 <= i < |rest|
        ensures InitAt(rest, i, exts, n)
      {
        assert InitAt(inits, i + 1, exts, n);
      }
      InitsInOrder(rest, exts, n);
    }
  }

  lemma AttachGood(root: Plan, inits: seq<SubPlan>, exts: seq<set<nat>>, n: nat)
    requires GoodPlan(root, |exts|, n) && GoodInits(inits, exts, n)
    requires forall k | 0 <= k < |exts| :: Upto(exts[k], n)
    ensures var p := root.(initPlans := inits);
            PlanBelow(p, |exts|) && Scoped(p, exts) && Upto(ExtParam(p, exts), n)
  {
    InitsGood(inits, exts, n);
    BareInits(inits);
    AttachBelow(root, inits, exts, n);
    AttachScoped(root, inits, exts, n);
    AttachedUpto(root, inits, exts, n);
  }

  lemma InitsGood(inits: seq<SubPlan>, exts: seq<set<nat>>, n: nat)
    requires GoodInits(inits, exts, n)
    ensures forall ip | ip in inits :: GoodInit(ip, exts, n)
  {
    forall ip | ip in inits
      ensures GoodInit(ip, exts, n)
    {
      var i :| 0 <= i < |inits| && inits[i] == ip;
      assert InitAt(inits, i, exts, n);
    }
  }

  lemma AttachBelow(root: Plan, inits: seq<SubPlan>, exts: seq<set<nat>>, n: nat)
    requires PlanBelow(root, |exts|) && forall ip | ip in inits :: GoodInit(ip, exts, n)
    ensures PlanBelow(root.(initPlans := inits), |exts|)
  {
    assert forall ip | ip in inits :: SubBelow(ip, |exts|);
  }

  lemma AttachScoped(root: Plan, inits: seq<SubPlan>, exts: seq<set<nat>>, n: nat)
    requires NoInits(root) && NoOutputs(PlanSubs(root)) && GoodInits(inits, exts, n) && InnerSubs(inits) == {}
    ensures Scoped(root.(initPlans := inits), exts)
  {
    InitsInOrder(inits, exts, n);
    ChildrenBare(root, exts);
    assert RowSubs(root.(initPlans := inits)) <= PlanSubs(root);
  }

  lemma AttachedUpto(root: Plan, inits: seq<SubPlan>, exts: seq<set<nat>>, n: nat)
    requires Upto(PlanParams(root), n) && InitParams(inits) == {}
    requires forall k | 0 <= k < |exts| :: Upto(exts[k], n)
    ensures Upto(ExtParam(root.(initPlans := inits), exts), n)
  {
    assert PlanParams(root.(initPlans := inits)) <= PlanParams(root);
  }

  lemma ChildrenBare(p: Plan, exts: seq<set<nat>>)
    requires NoInits(p) && NoOutputs(PlanSubs(p))
    ensures forall c | c in p.children :: Scoped(c, exts) && Outputs(PlanSubs(c)) == {}
  {
    ChildSets(p.children, exts);
    forall c | c in p.children
      ensures Scoped(c, exts) && Outputs(PlanSubs(c)) == {}
    {
      assert PlanSubs(c) <= PlansSubs(p.children) <= PlanSubs(p);
      BareScoped(c, exts);
    }
  }

  lemma {:induction false} AppendGood(bodies: seq<Plan>, plan: Plan, n: nat)
    requires forall k | 0 <= k < |bodies| :: BodyAt(bodies, k, n)
    requires PlanBelow(plan, |bodies|) && Scoped(plan, BodyExts(bodies)) && Upto(ExtParam(plan, BodyExts(bodies)), n)
    ensures forall k | 0 <= k < |bodies| + 1 :: BodyAt(bodies + [plan], k, n)
  {
    var exts, all := BodyExts(bodies), bodies + [plan];
    assert all[..|bodies|] == bodies;
    var exts' := BodyExts(all);
    assert exts' == exts + [ExtParam(plan, exts)];
    forall k | 0 <= k < |bodies| + 1
      ensures BodyAt(all, k, n)
    {
      if k == |bodies| {
        assert exts'[..k] == exts;
      } else {
        assert BodyAt(bodies, k, n);
        assert exts'[..k] == exts[..k];
      }
    }
  }

  /** Registering a body whose calls are already registered keeps the state good. */
  lemma RegisterGood(st: State, root: Plan, outer: State)
    requires GoodState(st) && GoodPlan(root, |st.subplans|, st.next)
    requires GoodState(outer) && outer.subplans <= st.subplans && outer.next <= st.next
    ensures GoodState(State(st.next, st.subplans + [root.(initPlans := st.inits)], outer.inits))
  {
    var plan := root.(initPlans := st.inits);
    var bodies := st.subplans + [plan];
    forall k | 0 <= k < |st.subplans|
      ensures Upto(BodyExts(st.subplans)[k], st.next)
    {
      assert BodyAt(st.subplans, k, st.next);
    }
    AttachGood(root, st.inits, BodyExts(st.subplans), st.next);
    AppendGood(st.subplans, plan, st.next);
    ExtsMore(outer.subplans, bodies);
    InitsMore(outer.inits, BodyExts(outer.subplans), outer.next, BodyExts(bodies), st.next);
  }

  // ----- translation -----

  lemma {:induction false} ArgsGood(refs: seq<nat>, pm: ParamMap, own: ParamMap, outer: seq<nat>, inner: seq<nat>,
                                    st: State, k: nat, n: nat)
    requires forall c | c in refs :: c in own
    requires Args(refs, pm, own, outer, inner, st).Ok?
    ensures GoodList(Args(refs, pm, own, outer, inner, st).v.1, k, n)
    decreases |refs|
  {
    if refs != [] {
      ArgsGood(refs[1..], pm, own, outer, inner, st, k, n);
      if refs[0] !in pm {
        assert VarFor(refs[0], outer, inner, st).st == st;
        var a := Args(refs, pm, own, outer, inner, st).v.1;
        assert a[1..] == Args(refs[1..], pm, own, outer, inner, st).v.1;
      }
    }
  }

  lemma {:induction false} TranslateGood(s: Scalar, pm: ParamMap, outer: seq<nat>, inner: seq<nat>, st: State,
                                         r: Tr<Expr>)
    requires r == Translate(s, pm, outer, inner, st) && r.Ok?
    requires GoodState(st) && Fits(pm, st.next)
    ensures GoodState(r.st) && GoodExpr(r.v, |r.st.subplans|, r.st.next)
    decreases s, 2
  {
    match s
    case Ident(_) =>
    case Literal(_) =>
    case Apply(op, args) =>
      ListGood(args, pm, outer, inner, st, TranslateList(args, pm, outer, inner, st));
    case Subquery(link, refs, body) =>
      SubqueryGood(s, pm, outer, inner, st, r);
    case Quantified(quant, cmp, lhs, _, refs, body) =>
      QuantifiedGood(s, pm, outer, inner, st, r);
    case RowTested(_, _, _, _) =>
      RowTestedGood(s, pm, outer, inner, st, r);
  }

  lemma {:induction false} RowTestedGood(s: Scalar, pm: ParamMap, outer: seq<nat>, inner: seq<nat>, st: State,
                                         r: Tr<Expr>)
    requires s.RowTested? && r == Translate(s, pm, outer, inner, st) && r.Ok?
    requires GoodState(st) && Fits(pm, st.next)
    ensures GoodState(r.st) && GoodExpr(r.v, |r.st.subplans|, r.st.next)
    decreases s, 1
  {
    var exprs, ids := RowTestExprs(s.test, st.next), RowTestIds(s.test, st.next);
    var st1 := st.(next := st.next + |ids|);
    var t := TranslateSubPlan(s.quant, s.refs, s.body, pm, outer, inner, exprs, ids, st1);
    assert t.Ok? && r == Ok(Sub(t.v), t.st);
    NextSlots(st, st1.next);
    RowTestGood(s.test, |st.subplans|, st.next);
    SubPlanGood(s.quant, s.refs, s.body, pm, outer, inner, exprs, ids, st1, t);
  }

  lemma RowTestGood(test: RowTest, k: nat, n: nat)
    ensures GoodList(RowTestExprs(test, n), k, n + |RowTestIds(test, n)|)
  {
    match test
    case Always(v) => OneGood(Const(v), k, n);
    case TwoColumns(cmp, _, _) => TestGood(cmp, Param(n), k, n + 1);
  }

  lemma {:induction false} QuantifiedGood(s: Scalar, pm: ParamMap, outer: seq<nat>, inner: seq<nat>, st: State,
                                          r: Tr<Expr>)
    requires s.Quantified? && r == Translate(s, pm, outer, inner, st) && r.Ok?
    requires GoodState(st) && Fits(pm, st.next)
    ensures GoodState(r.st) && GoodExpr(r.v, |r.st.subplans|, r.st.next)
    decreases s, 1
  {
    var l := Translate(s.lhs, pm, outer, inner, st);
    var st1 := l.st.(next := l.st.next + 1);
    var test := [Op(s.cmp, [l.v, Param(l.st.next)])];
    var t := TranslateSubPlan(s.quant, s.refs, s.body, pm, outer, inner, test, [l.st.next], st1);
    assert t.Ok? && r == Ok(Sub(t.v), t.st);
    TranslateGood(s.lhs, pm, outer, inner, st, l);
    TranslateGrows(s.lhs, pm, outer, inner, st, 0);
    NextSlots(l.st, st1.next);
    TestGood(s.cmp, l.v, |l.st.subplans|, l.st.next);
    SubPlanGood(s.quant, s.refs, s.body, pm, outer, inner, test, [l.st.next], st1, t);
  }

  lemma TestGood(cmp: nat, e: Expr, k: nat, id: nat)
    requires GoodExpr(e, k, id)
    ensures GoodList([Op(cmp, [e, Param(id)])], k, id + 1)
  {
    OneGood(Param(id), k, id + 1);
    ConsGood(e, [Param(id)], k, id + 1);
    assert [e] + [Param(id)] == [e, Param(id)];
    OpGood(cmp, [e, Param(id)], k, id + 1);
    OneGood(Op(cmp, [e, Param(id)]), k, id + 1);
  }

  lemma OneGood(e: Expr, k: nat, n: nat)
    requires GoodExpr(e, k, n)
    ensures GoodList([e], k, n)
  {
    assert [e][1..] == [];
  }

  lemma OpGood(op: nat, args: seq<Expr>, k: nat, n: nat)
    requires GoodList(args, k, n)
    ensures GoodExpr(Op(op, args), k, n)
  {
  }

  lemma {:induction false} SubqueryGood(s: Scalar, pm: ParamMap, outer: seq<nat>, inner: seq<nat>, st: State,
                                        r: Tr<Expr>)
    requires s.Subquery? && r == Translate(s, pm, outer, inner, st) && r.Ok?
    requires GoodState(st) && Fits(pm, st.next)
    ensures GoodState(r.st) && GoodExpr(r.v, |r.st.subplans|, r.st.next)
    decreases s, 1
  {
    var plink := if s.link == ScalarQuery then ScalarLink else ExistsLink;
    var t := TranslateSubPlan(plink, s.refs, s.body, pm, outer, inner, [], [], st);
    SubPlanGood(plink, s.refs, s.body, pm, outer, inner, [], [], st, t);
    SubqueryGoodShape(s, pm, outer, inner, st, r, t);
    PlacedGood(s.link, t, r);
  }

  /** The translated subquery in its place: hoisted, negated, or as it is. */
  lemma PlacedGood(link: QueryLink, t: Tr<SubPlan>, r: Tr<Expr>)
    requires t.Ok? && GoodState(t.st) && GoodExpr(Sub(t.v), |t.st.subplans|, t.st.next)
    requires t.v.test == [] && 1 <= t.v.planId <= |t.st.subplans| && |t.v.args| == |t.v.parParam|
    requires r == if link == ScalarQuery && t.v.parParam == [] then
                    Ok(Param(t.st.next),
                       State(t.st.next + 1, t.st.subplans, t.st.inits + [t.v.(setParam := [t.st.next])]))
                  else if link == NotExistsQuery then Ok(Op(NOT, [Sub(t.v)]), t.st)
                  else Ok(Sub(t.v), t.st)
    ensures GoodState(r.st) && GoodExpr(r.v, |r.st.subplans|, r.st.next)
  {
    if link == ScalarQuery && t.v.parParam == [] {
      HoistGood(t.v, t.st);
    } else if link == NotExistsQuery {
      OneGood(Sub(t.v), |t.st.subplans|, t.st.next);
      OpGood(NOT, [Sub(t.v)], |t.st.subplans|, t.st.next);
    }
  }

  lemma SubqueryGoodShape(s: Scalar, pm: ParamMap, outer: seq<nat>, inner: seq<nat>, st: State, r: Tr<Expr>,
                          t: Tr<SubPlan>)
    requires s.Subquery? && r == Translate(s, pm, outer, inner, st) && r.Ok?
    requires t == TranslateSubPlan(if s.link == ScalarQuery then ScalarLink else ExistsLink,
                                   s.refs, s.body, pm, outer, inner, [], [], st) && t.Ok?
    ensures t.v.test == [] && 1 <= t.v.planId <= |t.st.subplans| && |t.v.args| == |t.v.parParam|
    ensures r == if s.link == ScalarQuery && t.v.parParam == [] then
                   Ok(Param(t.st.next),
                      State(t.st.next + 1, t.st.subplans, t.st.inits + [t.v.(setParam := [t.st.next])]))
                 else if s.link == NotExistsQuery then Ok(Op(NOT, [Sub(t.v)]), t.st)
                 else Ok(Sub(t.v), t.st)
  {
    var plink := if s.link == ScalarQuery then ScalarLink else ExistsLink;
    SubPlanGrows(plink, s.refs, s.body, pm, outer, inner, [], [], st);
  }

  lemma HoistGood(sp: SubPlan, st: State)
    requires GoodState(st) && sp.args == [] && sp.test == [] && 1 <= sp.planId <= |st.subplans|
    ensures GoodState(State(st.next + 1, st.subplans, st.inits + [sp.(setParam := [st.next])]))
  {
    var inits, exts := st.inits + [sp.(setParam := [st.next])], BodyExts(st.subplans);
    var n := st.next + 1;
    NextSlots(st, n);
    assert BodyAt(st.subplans, sp.planId - 1, st.next);
    forall i | 0 <= i < |inits|
      ensures InitAt(inits, i, exts, n)
    {
      if i < |st.inits| {
        assert InitAt(st.inits, i, exts, n);
      } else {
        forall j | 0 <= j < i
          ensures forall x | x in inits[j].setParam :: x < st.next
        {
          assert InitAt(st.inits, j, exts, st.next);
        }
      }
    }
  }

  lemma {:induction false} ListGood(ss: seq<Scalar>, pm: ParamMap, outer: seq<nat>, inner: seq<nat>, st: State,
                                    r: Tr<seq<Expr>>)
    requires r == TranslateList(ss, pm, outer, inner, st) && r.Ok?
    requires GoodState(st) && Fits(pm, st.next)
    ensures GoodState(r.st) && GoodList(r.v, |r.st.subplans|, r.st.next)
    decreases ss, 1
  {
    if ss != [] {
      var h := Translate(ss[0], pm, outer, inner, st);
      TranslateGood(ss[0], pm, outer, inner, st, h);
      TranslateGrows(ss[0], pm, outer, inner, st, 0);
      var t := TranslateList(ss[1..], pm, outer, inner, h.st);
      ListGood(ss[1..], pm, outer, inner, h.st, t);
      ListGrows(ss[1..], pm, outer, inner, h.st, 0);
      BelowMore(h.v, |h.st.subplans|, |t.st.subplans|);
      ConsGood(h.v, t.v, |t.st.subplans|, t.st.next);
    }
  }

  lemma ConsGood(e: Expr, es: seq<Expr>, k: nat, n: nat)
    requires GoodExpr(e, k, n) && GoodList(es, k, n)
    ensures GoodList([e] + es, k, n)
  {
    assert ([e] + es)[1..] == es;
  }

  lemma {:induction false} SubPlanGood(link: Link, refs: seq<nat>, body: Rel, pm: ParamMap, outer: seq<nat>,
                                       inner: seq<nat>,
                                       test: seq<Expr>, testIds: seq<nat>, st: State, r: Tr<SubPlan>)
    requires r == TranslateSubPlan(link, refs, body, pm, outer, inner, test, testIds, st) && r.Ok?
    requires GoodState(st) && Fits(pm, st.next) && GoodList(test, |st.subplans|, st.next)
    ensures GoodState(r.st) && GoodExpr(Sub(r.v), |r.st.subplans|, r.st.next)
    decreases body, 3
  {
    SubPlanGrows(link, refs, body, pm, outer, inner, test, testIds, st);
    FreshSlots(refs, pm, st.next);
    var (own, next) := Fresh(refs, pm, st.next);
    var st0 := State(next, st.subplans, []);
    var b := TranslateRel(body, own, st0);
    assert GoodState(r.st) by {
      NextSlots(State(st.next, st.subplans, []), next);
      RelGood(body, own, st0, b);
      RegisterGood(b.st, b.v, st);
      assert r.st == State(b.st.next, b.st.subplans + [b.v.(initPlans := b.st.inits)], st.inits);
    }
    assert GoodList(r.v.args, |r.st.subplans|, r.st.next) by {
      ArgsGood(refs, pm, own, outer, inner, r.st, |r.st.subplans|, r.st.next);
    }
    GoodListMore(test, |st.subplans|, st.next, |r.st.subplans|, r.st.next);
    CallGood(r.v, |r.st.subplans|, r.st.next);
  }

  lemma CallGood(sp: SubPlan, k: nat, n: nat)
    requires 1 <= sp.planId <= k && sp.setParam == []
    requires GoodList(sp.args, k, n) && GoodList(sp.test, k, n)
    ensures GoodExpr(Sub(sp), k, n)
  {
  }

  lemma {:induction false} RelGood(r: Rel, pm: ParamMap, st: State, t: Tr<Plan>)
    requires t == TranslateRel(r, pm, st) && t.Ok?
    requires GoodState(st) && Fits(pm, st.next)
    ensures GoodState(t.st) && GoodPlan(t.v, |t.st.subplans|, t.st.next)
    decreases r, 2
  {
    var outer, inner := r.OuterCols(), r.InnerCols();
    var k := TranslateRels(r.children, pm, st);
    RelsGood(r.children, pm, st, k);
    RelsGrow(r.children, pm, st, 0);
    var tl := TranslateList(r.exprs, pm, outer, inner, k.st);
    ListGood(r.exprs, pm, outer, inner, k.st, tl);
    ListGrows(r.exprs, pm, outer, inner, k.st, 0);
    var ql := TranslateList(r.filter, pm, outer, inner, tl.st);
    ListGood(r.filter, pm, outer, inner, tl.st, ql);
    ListGrows(r.filter, pm, outer, inner, tl.st, 0);
    var xl := TranslateList(r.conds, pm, outer, inner, ql.st);
    ListGood(r.conds, pm, outer, inner, ql.st, xl);
    ListGrows(r.conds, pm, outer, inner, ql.st, 0);
    var bound, n := |xl.st.subplans|, xl.st.next;
    GoodPlansMore(k.v, |k.st.subplans|, k.st.next, bound, n);
    GoodListMore(tl.v, |tl.st.subplans|, tl.st.next, bound, n);
    GoodListMore(ql.v, |ql.st.subplans|, ql.st.next, bound, n);
    NodeGood(Plan.Plan(r.kind, tl.v, ql.v, xl.v, [], k.v), bound, n);
  }

  lemma NodeGood(p: Plan, k: nat, n: nat)
    requires p.initPlans == []
    requires GoodPlans(p.children, k, n)
    requires GoodList(p.tlist, k, n) && GoodList(p.quals, k, n) && GoodList(p.extra, k, n)
    ensures GoodPlan(p, k, n)
  {
    KidsGood(p.children, k, n);
    assert OwnSubs(p) == ListSubs(p.tlist) + ListSubs(p.quals) + ListSubs(p.extra);
  }

  lemma {:induction false} KidsGood(ps: seq<Plan>, k: nat, n: nat)
    requires GoodPlans(ps, k, n)
    ensures NoOutputs(PlansSubs(ps)) && Upto(PlansParams(ps), n)
  {
    if ps != [] {
      assert GoodPlan(ps[0], k, n);
      KidsGood(ps[1..], k, n);
    }
  }

  lemma {:induction false} RelsGood(rs: seq<Rel>, pm: ParamMap, st: State, r: Tr<seq<Plan>>)
    requires r == TranslateRels(rs, pm, st) && r.Ok?
    requires GoodState(st) && Fits(pm, st.next)
    ensures GoodState(r.st) && GoodPlans(r.v, |r.st.subplans|, r.st.next)
    decreases rs, 1
  {
    if rs != [] {
      var h := TranslateRel(rs[0], pm, st);
      RelGood(rs[0], pm, st, h);
      RelGrows(rs[0], pm, st, 0);
      var t := TranslateRels(rs[1..], pm, h.st);
      RelsGood(rs[1..], pm, h.st, t);
      RelsGrow(rs[1..], pm, h.st, 0);
      GoodPlansMore([h.v], |h.st.subplans|, h.st.next, |t.st.subplans|, t.st.next);
    }
  }

  /**
    A translated statement meets the conditions of the parameter analysis: its
    bodies are registered in calling order and InitPlan slots are scoped, in the
    bodies and in the main plan.
   */
  lemma StatementScoped(r: Rel)
    requires TranslateStatement(r).Ok?
    ensures var t := TranslateStatement(r);
            && Registered(t.st.subplans) && ScopedBodies(t.st.subplans)
            && PlanBelow(t.v, |t.st.subplans|) && Scoped(t.v, BodyExts(t.st.subplans))
  {
    var st0 := State(0, [], []);
    var b := TranslateRel(r, map[], st0);
    RelGood(r, map[], st0, b);
    assert b.v.initPlans + b.st.inits == b.st.inits;
    forall k | 0 <= k < |b.st.subplans|
      ensures PlanBelow(b.st.subplans[k], k) && Scoped(b.st.subplans[k], BodyExts(b.st.subplans)[..k])
      ensures Upto(BodyExts(b.st.subplans)[k], b.st.next)
    {
      assert BodyAt(b.st.subplans, k, b.st.next);
    }
    AttachGood(b.v, b.st.inits, BodyExts(b.st.subplans), b.st.next);
  }

  /**
    Every subquery body of a translated statement may keep its rows across
    rescans as long as no parameter in its `extParam` is reported changed.
   */
  lemma TranslatedBodyCached(db: Database, r: Rel, k: nat, prev: Params, run: seq<Rescan>)
    requires TranslateStatement(r).Ok? && k < |TranslateStatement(r).st.subplans| && Reported(prev, run)
    ensures var bodies := TranslateStatement(r).st.subplans;
            var kept := CachedRuns(db, bodies[..k], bodies[k], BodyExts(bodies)[k],
                                   Rows(db, bodies[..k], bodies[k], prev), run);
            forall i | 0 <= i < |run| :: kept[i] == Rows(db, bodies[..k], bodies[k], run[i].env)
  {
    StatementScoped(r);
    var bodies := TranslateStatement(r).st.subplans;
    ScopedPrefix(bodies, k);
    BodyExtsPrefix(bodies, k);
    CachedRunsExact(db, bodies[..k], bodies[k], BodyExts(bodies)[k], prev, run);
  }
}
