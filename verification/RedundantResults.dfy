/**
  Removal of gratuitous Result nodes: a Result that only projects is dropped and
  its target list, with child columns substituted, becomes that of its child.
 */
module RedundantResults {
  import opened Plans
  import opened ResultPlans

  // ----- guards -----

  /** A Param, or a Var that is not a plain column of the immediate child; SubPlans are not entered. */
  predicate OutOfScope(e: Node)
    decreases e, 0
  {
    match e
    case VarNode(varno, attno, _) => varno != OuterVar || attno <= 0
    case ParamNode(_) => true
    case Call(_, args) => AnyOutOfScope(args)
    case VolatileCall(_, args) => AnyOutOfScope(args)
    case SetCall(_, args) => AnyOutOfScope(args)
    case _ => false
  }

  predicate AnyOutOfScope(es: seq<Node>)
    decreases es, 1
  {
    es != [] && (OutOfScope(es[0]) || AnyOutOfScope(es[1..]))
  }

  predicate SafeToPush(tlist: seq<Node>) {
    !AnyHasEffects(tlist) && !AnyOutOfScope(tlist)
  }

  predicate CanReplaceTlist(p: Tree) {
    !AnyReturnsSet(p.tlist) && !AnyHasEffects(p.tlist) && Projects(p.kind)
  }

  predicate Redundant(p: Tree) {
    && p.kind.ResultKind?
    && p.constQual == [] && p.initPlans == [] && p.quals == []
    && !AnyReturnsSet(p.tlist)
    && SafeToPush(p.tlist)
    && p.children != [] && CanReplaceTlist(p.children[0])
  }

  // ----- the rewrite -----

  /** Columns of the child that the expression mentions exist. */
  predicate Fits(e: Node, n: nat)
    decreases e, 0
  {
    match e
    case VarNode(varno, attno, _) => varno == OuterVar ==> attno <= n
    case Call(_, args) => AllFit(args, n)
    case VolatileCall(_, args) => AllFit(args, n)
    case SubPlanCall(_, args) => AllFit(args, n)
    case SetCall(_, args) => AllFit(args, n)
    case _ => true
  }

  predicate AllFit(es: seq<Node>, n: nat)
    decreases es, 1
  {
    es != [] ==> Fits(es[0], n) && AllFit(es[1..], n)
  }

  /** Replaces columns of the child by the child's own expressions. */
  function PushDown(e: Node, child: seq<Node>): Node
    requires Fits(e, |child|)
    decreases e, 0
  {
    match e
    case VarNode(varno, attno, _) => if varno == OuterVar && attno > 0 then child[attno - 1] else e
    case Call(fn, args) => Call(fn, PushDownAll(args, child))
    case VolatileCall(fn, args) => VolatileCall(fn, PushDownAll(args, child))
    case SubPlanCall(plan, args) => SubPlanCall(plan, PushDownAll(args, child))
    case SetCall(fn, args) => SetCall(fn, PushDownAll(args, child))
    case _ => e
  }

  function PushDownAll(es: seq<Node>, child: seq<Node>): (r: seq<Node>)
    requires AllFit(es, |child|)
    ensures |r| == |es|
    decreases es, 1
  {
    if es == [] then [] else [PushDown(es[0], child)] + PushDownAll(es[1..], child)
  }

  /** A Result has at most one child and mentions only its columns. */
  predicate WellFormed(p: Tree)
    decreases p, 0
  {
    && (p.kind.ResultKind? ==> |p.children| <= 1 && forall c | c in p.children :: AllFit(p.tlist, |c.tlist|))
    && (forall i | 0 <= i < |p.children| :: WellFormed(p.children[i]))
  }

  predicate AllWellFormed(ps: seq<Tree>) {
    forall i | 0 <= i < |ps| :: WellFormed(ps[i])
  }

  /** Drops a Result: the child takes over its projection and its cost estimates. */
  function Collapse(p: Tree): Tree
    requires Redundant(p) && AllFit(p.tlist, |p.children[0].tlist|)
  {
    var c := p.children[0];
    c.(tlist := PushDownAll(p.tlist, c.tlist), cost := p.cost)
  }

  /** The pass: children first, then the node with its cleaned children. */
  function Remove(p: Tree): (r: Tree)
    requires WellFormed(p)
    ensures |r.tlist| == |p.tlist| && r.cost == p.cost
    decreases p, 0
  {
    var q := p.(children := RemoveAll(p.children));
    if Redundant(q) then Collapse(q) else q
  }

  function RemoveAll(ps: seq<Tree>): (r: seq<Tree>)
    requires AllWellFormed(ps)
    ensures |r| == |ps| && forall i | 0 <= i < |ps| :: |r[i].tlist| == |ps[i].tlist|
    decreases ps, 1
  {
    if ps == [] then [] else [Remove(ps[0])] + RemoveAll(ps[1..])
  }

  // ----- evaluation without effects -----

  lemma {:induction false} PureEval(w: World, e: Node, env: Params, t: Tuple, tr: Trace)
    requires !HasEffects(e)
    ensures EvalNode(w, e, env, t, tr) == (EvalNode(w, e, env, t, []).0, tr)
    decreases e, 0
  {
    match e
    case Call(_, args) => PureAll(w, args, env, t, tr); PureAll(w, args, env, t, []);
    case SetCall(_, args) => PureAll(w, args, env, t, tr); PureAll(w, args, env, t, []);
    case _ =>
  }

  lemma {:induction false} PureAll(w: World, es: seq<Node>, env: Params, t: Tuple, tr: Trace)
    requires !AnyHasEffects(es)
    ensures EvalAll(w, es, env, t, tr) == (EvalAll(w, es, env, t, []).0, tr)
    decreases es, 1
  {
    if es != [] {
      PureEval(w, es[0], env, t, tr);
      PureEval(w, es[0], env, t, []);
      PureAll(w, es[1..], env, t, tr);
      PureAll(w, es[1..], env, t, []);
    }
  }

  function Values(w: World, es: seq<Node>, env: Params, t: Tuple): seq<Value> {
    EvalAll(w, es, env, t, []).0
  }

  lemma {:induction false} ValuesAt(w: World, es: seq<Node>, env: Params, t: Tuple, i: nat)
    requires !AnyHasEffects(es)
    ensures |Values(w, es, env, t)| == |es|
    ensures i < |es| ==> !HasEffects(es[i]) && Values(w, es, env, t)[i] == EvalNode(w, es[i], env, t, []).0
    decreases |es|
  {
    if es != [] {
      PureEval(w, es[0], env, t, []);
      ValuesAt(w, es[1..], env, t, if i == 0 then 0 else i - 1);
    }
  }

  /** Substitution: the pushed expression on the child's tuple has the value of the original on the child's row. */
  lemma {:induction false} PushDownMeans(w: World, e: Node, child: seq<Node>, env: Params, cenv: Params, t: Tuple)
    requires Fits(e, |child|) && !HasEffects(e) && !OutOfScope(e) && !AnyHasEffects(child)
    ensures !HasEffects(PushDown(e, child))
    ensures EvalNode(w, PushDown(e, child), cenv, t, []).0 == EvalNode(w, e, env, (Values(w, child, cenv, t), []), []).0
    decreases e, 0
  {
    match e
    case VarNode(varno, attno, _) =>
      ValuesAt(w, child, cenv, t, attno - 1);
    case Call(_, args) => PushDownAllMeans(w, args, child, env, cenv, t);
    case SetCall(_, args) => PushDownAllMeans(w, args, child, env, cenv, t);
    case _ =>
  }

  lemma {:induction false} PushDownAllMeans(w: World, es: seq<Node>, child: seq<Node>, env: Params, cenv: Params,
                                            t: Tuple)
    requires AllFit(es, |child|) && !AnyHasEffects(es) && !AnyOutOfScope(es) && !AnyHasEffects(child)
    ensures !AnyHasEffects(PushDownAll(es, child))
    ensures Values(w, PushDownAll(es, child), cenv, t) == Values(w, es, env, (Values(w, child, cenv, t), []))
    decreases es, 1
  {
    if es != [] {
      var row := (Values(w, child, cenv, t), []);
      var pushed := PushDownAll(es, child);
      PushDownMeans(w, es[0], child, env, cenv, t);
      PushDownAllMeans(w, es[1..], child, env, cenv, t);
      assert pushed[1..] == PushDownAll(es[1..], child);
      PureEval(w, es[0], env, row, []);
      PureEval(w, pushed[0], cenv, t, []);
    }
  }

  lemma {:induction false} PushDownNoSets(es: seq<Node>, child: seq<Node>)
    requires AllFit(es, |child|) && !AnyReturnsSet(es) && !AnyReturnsSet(child)
    ensures !AnyReturnsSet(PushDownAll(es, child))
    decreases es, 1
  {
    if es != [] {
      PushDownNoSet(es[0], child);
      PushDownNoSets(es[1..], child);
      assert PushDownAll(es, child)[1..] == PushDownAll(es[1..], child);
    }
  }

  lemma {:induction false} PushDownNoSet(e: Node, child: seq<Node>)
    requires Fits(e, |child|) && !ReturnsSet(e) && !AnyReturnsSet(child)
    ensures !ReturnsSet(PushDown(e, child))
    decreases e, 0
  {
    match e
    case VarNode(varno, attno, _) =>
      if varno == OuterVar && attno > 0 {
        NoSetAt(child, attno - 1);
      }
    case Call(_, args) => PushDownNoSets(args, child);
    case VolatileCall(_, args) => PushDownNoSets(args, child);
    case SubPlanCall(_, args) => PushDownNoSets(args, child);
    case _ =>
  }

  lemma {:induction false} NoSetAt(es: seq<Node>, i: nat)
    requires i < |es| && !AnyReturnsSet(es)
    ensures !ReturnsSet(es[i])
    decreases |es|
  {
    if i > 0 {
      NoSetAt(es[1..], i - 1);
    }
  }

  // ----- one collapse -----

  /** The rows of a projecting Result, given the rows of its child. */
  ghost function Reproject(w: World, tlist: seq<Node>, env: Params, rows: seq<Row>): seq<Row> {
    seq(|rows|, i requires 0 <= i < |rows| => Values(w, tlist, env, (rows[i], [])))
  }

  lemma {:induction false} EmitResult(w: World, p: Tree, env: Params, rows: seq<Row>, tr: Trace)
    requires Redundant(p)
    ensures Emit(w, p, env, seq(|rows|, i requires 0 <= i < |rows| => (rows[i], [])), tr)
         == (Reproject(w, p.tlist, env, rows), tr)
    decreases |rows|
  {
    var ts: seq<Tuple> := seq(|rows|, i requires 0 <= i < |rows| => (rows[i], []));
    if rows == [] {
      assert ts == [] && Reproject(w, p.tlist, env, rows) == [];
    } else {
      var rest := rows[1..];
      assert ts[1..] == seq(|rest|, i requires 0 <= i < |rest| => (rest[i], []));
      EmitResult(w, p, env, rest, tr);
      PureAll(w, p.tlist, env, ts[0], tr);
      assert rows == [rows[0]] + rest;
      ReprojectCons(w, p.tlist, env, rows[0], rest);
    }
  }

  lemma ReprojectCons(w: World, tlist: seq<Node>, env: Params, row: Row, rest: seq<Row>)
    ensures Reproject(w, tlist, env, [row] + rest)
         == [Values(w, tlist, env, (row, []))] + Reproject(w, tlist, env, rest)
  {
    assert ([row] + rest)[1..] == rest;
  }

  lemma {:induction false} EmitCollapsed(w: World, p: Tree, env: Params, cenv: Params, ts: seq<Tuple>, tr: Trace)
    requires Redundant(p) && AllFit(p.tlist, |p.children[0].tlist|)
    ensures var (rows, tr') := Emit(w, p.children[0], cenv, ts, tr);
            Emit(w, Collapse(p), cenv, ts, tr) == (Reproject(w, p.tlist, env, rows), tr')
    decreases |ts|
  {
    var c, d := p.children[0], Collapse(p);
    if ts == [] {
      assert Reproject(w, p.tlist, env, []) == [];
    } else {
      var t := ts[0];
      var (oks, tr1) := EvalAll(w, c.quals, cenv, t, tr);
      PushDownAllMeans(w, p.tlist, c.tlist, env, cenv, t);
      PushDownNoSets(p.tlist, c.tlist);
      PureAll(w, c.tlist, cenv, t, tr1);
      PureAll(w, d.tlist, cenv, t, tr1);
      EmitCollapsed(w, p, env, cenv, ts[1..], tr1);
      var rest := Emit(w, c, cenv, ts[1..], tr1).0;
      ReprojectCons(w, p.tlist, env, Values(w, c.tlist, cenv, t), rest);
      assert [] + rest == rest && [] + Reproject(w, p.tlist, env, rest) == Reproject(w, p.tlist, env, rest);
    }
  }

  lemma CollapseMeans(w: World, p: Tree, env: Params, tr: Trace)
    requires Redundant(p) && |p.children| == 1 && AllFit(p.tlist, |p.children[0].tlist|)
    ensures Run(w, Collapse(p), env, tr) == Run(w, p, env, tr)
  {
    var c := p.children[0];
    var (cenv, tr1) := if c.initPlans == [] then (env, tr) else w.inits(c.initPlans, env, tr);
    var (kids, tr2) := RunAll(w, c.children, cenv, tr1);
    var (ts, tr3) := Tuples(w, c, cenv, kids, tr2);
    EmitCollapsed(w, p, env, cenv, ts, tr3);
    var (rows, tr4) := Emit(w, c, cenv, ts, tr3);
    assert Run(w, c, env, tr) == (rows, tr4);
    assert p.children[1..] == [] && [rows] + [] == [rows];
    assert RunAll(w, p.children[1..], env, tr4) == ([], tr4);
    assert RunAll(w, p.children, env, tr) == ([rows], tr4);
    EmitResult(w, p, env, rows, tr4);
  }

  // ----- the pass -----

  lemma {:induction false} RemoveFits(p: Tree)
    requires WellFormed(p)
    ensures p.kind.ResultKind? && p.children != [] ==> AllFit(p.tlist, |RemoveAll(p.children)[0].tlist|)
  {
  }

  /** Every run of the rewritten plan returns the same rows and causes the same events in the same order. */
  lemma {:induction false} RemoveMeans(w: World, p: Tree, env: Params, tr: Trace)
    requires WellFormed(p)
    ensures Run(w, Remove(p), env, tr) == Run(w, p, env, tr)
    decreases p, 0
  {
    var q := p.(children := RemoveAll(p.children));
    var (env1, tr1) := if p.initPlans == [] then (env, tr) else w.inits(p.initPlans, env, tr);
    RemoveAllMeans(w, p.children, env1, tr1);
    SameEmit(w, p, q, env, tr);
    if Redundant(q) {
      RemoveFits(p);
      CollapseMeans(w, q, env, tr);
    }
  }

  lemma {:induction false} SameEmit(w: World, p: Tree, q: Tree, env: Params, tr: Trace)
    requires q == p.(children := q.children)
    requires var (env1, tr1) := if p.initPlans == [] then (env, tr) else w.inits(p.initPlans, env, tr);
             RunAll(w, q.children, env1, tr1) == RunAll(w, p.children, env1, tr1)
    ensures Run(w, q, env, tr) == Run(w, p, env, tr)
  {
    var (env1, tr1) := if p.initPlans == [] then (env, tr) else w.inits(p.initPlans, env, tr);
    var (kids, tr2) := RunAll(w, p.children, env1, tr1);
    var (ts, tr3) := Tuples(w, p, env1, kids, tr2);
    SameNode(w, p, q, env1, ts, tr3);
  }

  lemma {:induction false} SameNode(w: World, p: Tree, q: Tree, env: Params, ts: seq<Tuple>, tr: Trace)
    requires q == p.(children := q.children)
    ensures Emit(w, q, env, ts, tr) == Emit(w, p, env, ts, tr)
    decreases |ts|
  {
    if ts != [] {
      var (oks, tr1) := EvalAll(w, p.quals, env, ts[0], tr);
      var (rows, tr2) :=
        if forall v | v in oks :: w.isTrue(v) then
          if Projects(p.kind) then Project(w, p.tlist, env, ts[0], tr1) else ([ts[0].0], tr1)
        else ([], tr1);
      SameNode(w, p, q, env, ts[1..], tr2);
    }
  }

  lemma {:induction false} RemoveAllMeans(w: World, ps: seq<Tree>, env: Params, tr: Trace)
    requires AllWellFormed(ps)
    ensures RunAll(w, RemoveAll(ps), env, tr) == RunAll(w, ps, env, tr)
    decreases ps, 1
  {
    if ps != [] {
      RemoveMeans(w, ps[0], env, tr);
      RemoveAllMeans(w, ps[1..], env, Run(w, ps[0], env, tr).1);
      assert RemoveAll(ps)[1..] == RemoveAll(ps[1..]);
    }
  }
}
