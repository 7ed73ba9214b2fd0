/**
  When translation succeeds, and how each outer column reaches a subquery's body.
 */
module ClosureSets {
  import opened Plans
  import opened Dxl
  import opened Closure

  // ----- when translation succeeds -----

  predicate InScope(c: nat, outside: set<nat>, outer: seq<nat>, inner: seq<nat>) {
    c in outside || c in outer || c in inner
  }

  /** Every column is in scope, and every subquery lists the outer columns its body uses. */
  predicate Resolves(s: Scalar, outside: set<nat>, outer: seq<nat>, inner: seq<nat>)
    decreases s, 2
  {
    match s
    case Ident(c) => InScope(c, outside, outer, inner)
    case Literal(_) => true
    case Apply(_, args) => ResolvesList(args, outside, outer, inner)
    case Subquery(_, refs, body) =>
      && (forall c | c in refs :: InScope(c, outside, outer, inner))
      && ResolvesRel(body, outside + (set c | c in refs))
    case Quantified(_, _, lhs, _, refs, body) =>
      && Resolves(lhs, outside, outer, inner)
      && (forall c | c in refs :: InScope(c, outside, outer, inner))
      && ResolvesRel(body, outside + (set c | c in refs))
    case RowTested(_, _, refs, body) =>
      && (forall c | c in refs :: InScope(c, outside, outer, inner))
      && ResolvesRel(body, outside + (set c | c in refs))
  }

  predicate ResolvesList(ss: seq<Scalar>, outside: set<nat>, outer: seq<nat>, inner: seq<nat>)
    decreases ss, 1
  {
    ss != [] ==> Resolves(ss[0], outside, outer, inner) && ResolvesList(ss[1..], outside, outer, inner)
  }

  predicate ResolvesRel(r: Rel, outside: set<nat>)
    decreases r, 2
  {
    var outer, inner := r.OuterCols(), r.InnerCols();
    && ResolvesRels(r.children, outside)
    && ResolvesList(r.exprs, outside, outer, inner)
    && ResolvesList(r.filter, outside, outer, inner)
    && ResolvesList(r.conds, outside, outer, inner)
  }

  predicate ResolvesRels(rs: seq<Rel>, outside: set<nat>)
    decreases rs, 1
  {
    rs != [] ==> ResolvesRel(rs[0], outside) && ResolvesRels(rs[1..], outside)
  }

  lemma {:induction false} ArgsOk(refs: seq<nat>, pm: ParamMap, own: ParamMap, outer: seq<nat>, inner: seq<nat>,
                                  st: State)
    requires forall c | c in refs :: c in own
    ensures Args(refs, pm, own, outer, inner, st).Ok? <==> forall c | c in refs :: InScope(c, pm.Keys, outer, inner)
    decreases |refs|
  {
    if refs != [] {
      ArgsOk(refs[1..], pm, own, outer, inner, st);
      assert refs[0] in refs;
      assert forall c | c in refs :: c == refs[0] || c in refs[1..];
      assert refs[0] !in pm && VarFor(refs[0], outer, inner, st).Ok? ==> VarFor(refs[0], outer, inner, st).st == st;
    }
  }

  lemma {:induction false} TranslateOk(s: Scalar, pm: ParamMap, outer: seq<nat>, inner: seq<nat>, st: State)
    ensures Translate(s, pm, outer, inner, st).Ok? <==> Resolves(s, pm.Keys, outer, inner)
    decreases s, 2
  {
    match s
    case Ident(_) =>
    case Literal(_) =>
    case Apply(_, args) => ListOk(args, pm, outer, inner, st);
    case Subquery(link, refs, body) =>
      SubPlanOk(if link == ScalarQuery then ScalarLink else ExistsLink, refs, body, pm, outer, inner, [], [], st);
    case Quantified(quant, cmp, lhs, _, refs, body) =>
      TranslateOk(lhs, pm, outer, inner, st);
      var l := Translate(lhs, pm, outer, inner, st);
      if l.Ok? {
        SubPlanOk(quant, refs, body, pm, outer, inner, [Op(cmp, [l.v, Param(l.st.next)])], [l.st.next],
                  l.st.(next := l.st.next + 1));
      }
    case RowTested(quant, test, refs, body) =>
      SubPlanOk(quant, refs, body, pm, outer, inner, RowTestExprs(test, st.next), RowTestIds(test, st.next),
                st.(next := st.next + |RowTestIds(test, st.next)|));
  }

  lemma {:induction false} ListOk(ss: seq<Scalar>, pm: ParamMap, outer: seq<nat>, inner: seq<nat>, st: State)
    ensures TranslateList(ss, pm, outer, inner, st).Ok? <==> ResolvesList(ss, pm.Keys, outer, inner)
    decreases ss, 1
  {
    if ss != [] {
      TranslateOk(ss[0], pm, outer, inner, st);
      var h := Translate(ss[0], pm, outer, inner, st);
      if h.Ok? {
        ListOk(ss[1..], pm, outer, inner, h.st);
      }
    }
  }

  lemma {:induction false} SubPlanOk(link: Link, refs: seq<nat>, body: Rel, pm: ParamMap, outer: seq<nat>,
                                     inner: seq<nat>,
                                     test: seq<Expr>, testIds: seq<nat>, st: State)
    ensures TranslateSubPlan(link, refs, body, pm, outer, inner, test, testIds, st).Ok? <==>
            (forall c | c in refs :: InScope(c, pm.Keys, outer, inner)) &&
            ResolvesRel(body, pm.Keys + (set c | c in refs))
    decreases body, 3
  {
    FreshSlots(refs, pm, st.next);
    var (own, next) := Fresh(refs, pm, st.next);
    RelOk(body, own, State(next, st.subplans, []));
    var b := TranslateRel(body, own, State(next, st.subplans, []));
    if b.Ok? {
      ArgsOk(refs, pm, own, outer, inner,
             State(b.st.next, b.st.subplans + [b.v.(initPlans := b.v.initPlans + b.st.inits)], st.inits));
    }
  }

  /** Translation fails exactly on operators that use a column out of scope. */
  lemma {:induction false} RelOk(r: Rel, pm: ParamMap, st: State)
    ensures TranslateRel(r, pm, st).Ok? <==> ResolvesRel(r, pm.Keys)
    decreases r, 2
  {
    var outer, inner := r.OuterCols(), r.InnerCols();
    RelsOk(r.children, pm, st);
    var k := TranslateRels(r.children, pm, st);
    if k.Ok? {
      ListOk(r.exprs, pm, outer, inner, k.st);
      var tl := TranslateList(r.exprs, pm, outer, inner, k.st);
      if tl.Ok? {
        ListOk(r.filter, pm, outer, inner, tl.st);
        var ql := TranslateList(r.filter, pm, outer, inner, tl.st);
        if ql.Ok? {
          ListOk(r.conds, pm, outer, inner, ql.st);
        }
      }
    }
  }

  lemma {:induction false} RelsOk(rs: seq<Rel>, pm: ParamMap, st: State)
    ensures TranslateRels(rs, pm, st).Ok? <==> ResolvesRels(rs, pm.Keys)
    decreases rs, 1
  {
    if rs != [] {
      RelOk(rs[0], pm, st);
      var h := TranslateRel(rs[0], pm, st);
      if h.Ok? {
        RelsOk(rs[1..], pm, h.st);
      }
    }
  }

  /** Each outer column takes one route: its inherited slot, or an argument passed in a new one. */
  lemma {:induction false} OneRoute(refs: seq<nat>, pm: ParamMap, next: nat, outer: seq<nat>, inner: seq<nat>,
                                    st: State, c: nat)
    requires Fits(pm, next) && c in refs
    requires var own := Fresh(refs, pm, next).0;
             (forall d | d in refs :: d in own) && Args(refs, pm, own, outer, inner, st).Ok?
    ensures var own := Fresh(refs, pm, next).0;
            var a := Args(refs, pm, own, outer, inner, st).v;
            && (c in pm ==> own[c] == pm[c] && own[c] !in a.0)
            && (c !in pm ==> next <= own[c] && own[c] in a.0)
            && |a.0| == |a.1|
            && (forall i | 0 <= i < |a.0| && a.0[i] == own[c] :: VarFor(c, outer, inner, st) == Ok(a.1[i], st))
  {
    FreshSlots(refs, pm, next);
    RouteOf(refs, pm, Fresh(refs, pm, next).0, next, outer, inner, st, c);
  }

  lemma {:induction false} RouteOf(refs: seq<nat>, pm: ParamMap, own: ParamMap, next: nat,
                                   outer: seq<nat>, inner: seq<nat>, st: State, c: nat)
    requires Fits(pm, next) && c in own
    requires (forall d | d in refs :: d in own) && Args(refs, pm, own, outer, inner, st).Ok?
    requires forall d | d in pm :: d in own && own[d] == pm[d]
    requires forall d | d in own && d !in pm :: next <= own[d]
    requires forall d, e | d in own && e in own && d !in pm && own[d] == own[e] && e !in pm :: d == e
    ensures var a := Args(refs, pm, own, outer, inner, st).v;
            && |a.0| == |a.1|
            && (own[c] in a.0 <==> c in refs && c !in pm)
            && (forall i | 0 <= i < |a.0| && a.0[i] == own[c] :: VarFor(c, outer, inner, st) == Ok(a.1[i], st))
    decreases |refs|
  {
    if refs != [] {
      RouteOf(refs[1..], pm, own, next, outer, inner, st, c);
      if refs[0] !in pm {
        assert VarFor(refs[0], outer, inner, st).st == st;
        var rest := Args(refs[1..], pm, own, outer, inner, st).v;
        var a := Args(refs, pm, own, outer, inner, st).v;
        assert a.0 == [own[refs[0]]] + rest.0 && a.1 == [VarFor(refs[0], outer, inner, st).v] + rest.1;
      }
    }
  }
}
