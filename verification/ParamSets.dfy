/**
  The parameter sets of a plan (`allParam`, `extParam`) and what the executor
  relies on when it keeps the result of a node across a rescan.
 */
module ParamSets {
  import opened Plans

  // ----- what the node extractor finds: it stops at the body of a SubPlan -----

  function ExprParams(e: Expr): set<nat>
    decreases e, 0
  {
    match e
    case Param(id) => {id}
    case Op(_, args) => ListParams(args)
    case Sub(sp) => ListParams(sp.test) + ListParams(sp.args)
    case _ => {}
  }

  function ListParams(es: seq<Expr>): set<nat>
    decreases es, 1
  {
    if es == [] then {} else ExprParams(es[0]) + ListParams(es[1..])
  }

  function ExprSubs(e: Expr): set<SubPlan>
    decreases e, 0
  {
    match e
    case Op(_, args) => ListSubs(args)
    case Sub(sp) => {sp} + ListSubs(sp.test) + ListSubs(sp.args)
    case _ => {}
  }

  function ListSubs(es: seq<Expr>): set<SubPlan>
    decreases es, 1
  {
    if es == [] then {} else ExprSubs(es[0]) + ListSubs(es[1..])
  }

  function InitParams(ips: seq<SubPlan>): set<nat> {
    if ips == [] then {} else ListParams(ips[0].test) + ListParams(ips[0].args) + InitParams(ips[1..])
  }

  function InnerSubs(ips: seq<SubPlan>): set<SubPlan> {
    if ips == [] then {} else ListSubs(ips[0].test) + ListSubs(ips[0].args) + InnerSubs(ips[1..])
  }

  function PlanParams(p: Plan): set<nat>
    decreases p, 0
  {
    OwnParams(p) + PlansParams(p.children)
  }

  function OwnParams(p: Plan): set<nat> {
    ListParams(p.tlist) + ListParams(p.quals) + ListParams(p.extra) + InitParams(p.initPlans)
  }

  function PlansParams(ps: seq<Plan>): set<nat>
    decreases ps, 1
  {
    if ps == [] then {} else PlanParams(ps[0]) + PlansParams(ps[1..])
  }

  function PlanSubs(p: Plan): set<SubPlan>
    decreases p, 0
  {
    OwnSubs(p) + PlansSubs(p.children)
  }

  /** The SubPlans a node evaluates on its rows: all but its InitPlans. */
  function RowSubs(p: Plan): set<SubPlan> {
    ListSubs(p.tlist) + ListSubs(p.quals) + ListSubs(p.extra) + InnerSubs(p.initPlans)
  }

  function OwnSubs(p: Plan): set<SubPlan> {
    RowSubs(p) + (set s | s in p.initPlans)
  }

  function PlansSubs(ps: seq<Plan>): set<SubPlan>
    decreases ps, 1
  {
    if ps == [] then {} else PlanSubs(ps[0]) + PlansSubs(ps[1..])
  }

  // ----- the sets -----

  /** Parameters the bodies of `subs` take from the environment; arguments stay local. */
  function External(subs: set<SubPlan>, exts: seq<set<nat>>): set<nat> {
    set s, x | s in subs && 1 <= s.planId <= |exts| && x in exts[s.planId - 1] && x !in s.parParam :: x
  }

  function Outputs(subs: set<SubPlan>): set<nat> {
    set s, x | s in subs && x in s.setParam :: x
  }

  function InitOutputs(ips: seq<SubPlan>): set<nat> {
    if ips == [] then {} else (set x | x in ips[0].setParam) + InitOutputs(ips[1..])
  }

  function AllParam(p: Plan, exts: seq<set<nat>>): set<nat> {
    PlanParams(p) + External(PlanSubs(p), exts)
  }

  function ExtParam(p: Plan, exts: seq<set<nat>>): set<nat> {
    AllParam(p, exts) - Outputs(PlanSubs(p))
  }

  /** `extParam` of each registered body, computed in list order. */
  function BodyExts(bodies: seq<Plan>): (r: seq<set<nat>>)
    ensures |r| == |bodies|
  {
    if bodies == [] then []
    else
      var n := |bodies| - 1;
      var before := BodyExts(bodies[..n]);
      before + [ExtParam(bodies[n], before)]
  }

  lemma {:induction false} BodyExtsPrefix(bodies: seq<Plan>, n: nat)
    requires n <= |bodies|
    ensures BodyExts(bodies[..n]) == BodyExts(bodies)[..n]
    ensures n < |bodies| ==> BodyExts(bodies)[n] == ExtParam(bodies[n], BodyExts(bodies[..n]))
  {
    if n == |bodies| {
      assert bodies[..n] == bodies;
    } else {
      var m := |bodies| - 1;
      var before := BodyExts(bodies[..m]);
      assert BodyExts(bodies) == before + [ExtParam(bodies[m], before)];
      BodyExtsPrefix(bodies[..m], n);
      assert bodies[..m][..n] == bodies[..n];
      assert BodyExts(bodies)[..n] == before[..n];
    }
  }

  function ExprNeeds(e: Expr, exts: seq<set<nat>>): set<nat> {
    ExprParams(e) + External(ExprSubs(e), exts)
  }

  function ListNeeds(es: seq<Expr>, exts: seq<set<nat>>): set<nat> {
    ListParams(es) + External(ListSubs(es), exts)
  }

  function SubNeeds(sp: SubPlan, exts: seq<set<nat>>): set<nat> {
    ExprNeeds(Sub(sp), exts)
  }

  function OwnNeeds(p: Plan, exts: seq<set<nat>>): set<nat> {
    OwnParams(p) + External(OwnSubs(p), exts)
  }

  /**
    Parameters set by InitPlans are read only inside the node that owns the
    InitPlan, and only by later InitPlans of that node.
   */
  ghost predicate Scoped(p: Plan, exts: seq<set<nat>>)
    decreases p
  {
    && (forall s | s in RowSubs(p) :: s.setParam == [])
    && InitsOrdered(p.initPlans, exts)
    && (forall c | c in p.children ::
          && Scoped(c, exts)
          && Outputs(PlanSubs(c)) !! OwnNeeds(p, exts)
          && (forall d | d in p.children :: Outputs(PlanSubs(c)) !! ExtParam(d, exts)))
  }

  ghost predicate InitsOrdered(ips: seq<SubPlan>, exts: seq<set<nat>>) {
    ips != [] ==>
      && SubNeeds(ips[0], exts) !! InitOutputs(ips)
      && InitsOrdered(ips[1..], exts)
  }

  ghost predicate ScopedBodies(bodies: seq<Plan>) {
    forall k | 0 <= k < |bodies| :: Scoped(bodies[k], BodyExts(bodies)[..k])
  }

  // ----- environments that agree on a set of slots -----

  ghost predicate Agree(e1: Params, e2: Params, ids: set<nat>) {
    forall id | id in ids :: Slot(e1, id) == Slot(e2, id)
  }

  lemma {:induction false} BindAgree(e1: Params, e2: Params, ids: seq<nat>, vals: seq<Value>, s: set<nat>)
    requires forall id | id in s && id !in ids :: Slot(e1, id) == Slot(e2, id)
    ensures Agree(Bind(e1, ids, vals), Bind(e2, ids, vals), s)
    decreases |ids|
  {
    if ids != [] {
      var v := At(vals, 0);
      forall id | id in s && id !in ids[1..]
        ensures Slot(e1[ids[0] := v], id) == Slot(e2[ids[0] := v], id)
      {
        if id != ids[0] {
          assert id !in ids;
        }
      }
      BindAgree(e1[ids[0] := v], e2[ids[0] := v], ids[1..], if vals == [] then [] else vals[1..], s);
    }
  }

  // ----- non-interference -----

  lemma {:induction false} EvalAgree(db: Database, bodies: seq<Plan>, e: Expr, e1: Params, e2: Params, t: Tuple)
    requires ScopedBodies(bodies)
    requires Agree(e1, e2, ExprNeeds(e, BodyExts(bodies)))
    ensures Eval(db, bodies, e, e1, t) == Eval(db, bodies, e, e2, t)
    decreases |bodies|, e, 2
  {
    match e
    case Op(_, args) => ListAgree(db, bodies, args, e1, e2, t);
    case Sub(sp) => SubAgree(db, bodies, sp, e1, e2, t);
    case _ =>
  }

  lemma {:induction false} ListAgree(db: Database, bodies: seq<Plan>, es: seq<Expr>, e1: Params, e2: Params, t: Tuple)
    requires ScopedBodies(bodies)
    requires Agree(e1, e2, ListNeeds(es, BodyExts(bodies)))
    ensures EvalList(db, bodies, es, e1, t) == EvalList(db, bodies, es, e2, t)
    decreases |bodies|, es, 1
  {
    if es != [] {
      EvalAgree(db, bodies, es[0], e1, e2, t);
      ListAgree(db, bodies, es[1..], e1, e2, t);
    }
  }

  lemma {:induction false} SubAgree(db: Database, bodies: seq<Plan>, sp: SubPlan, e1: Params, e2: Params, t: Tuple)
    requires ScopedBodies(bodies)
    requires Agree(e1, e2, SubNeeds(sp, BodyExts(bodies)))
    ensures EvalSub(db, bodies, sp, e1, t) == EvalSub(db, bodies, sp, e2, t)
    decreases |bodies|, sp, 2
  {
    if 1 <= sp.planId <= |bodies| {
      BodyAgree(db, bodies, sp, e1, e2, t);
      var inner := Bind(e1, sp.parParam, EvalList(db, bodies, sp.args, e1, t));
      var rows := Rows(db, bodies[..sp.planId - 1], bodies[sp.planId - 1], inner);
      forall i | 0 <= i < |rows|
        ensures EvalList(db, bodies, sp.test, Bind(e1, sp.testIds, rows[i]), t)
             == EvalList(db, bodies, sp.test, Bind(e2, sp.testIds, rows[i]), t)
      {
        TestAgree(db, bodies, sp, rows[i], e1, e2, t);
      }
      assert seq(|rows|, i requires 0 <= i < |rows| =>
                   EvalList(db, bodies, sp.test, Bind(e1, sp.testIds, rows[i]), t))
          == seq(|rows|, i requires 0 <= i < |rows| =>
                   EvalList(db, bodies, sp.test, Bind(e2, sp.testIds, rows[i]), t));
    }
  }

  lemma {:induction false} TestAgree(db: Database, bodies: seq<Plan>, sp: SubPlan, row: Row,
                                     e1: Params, e2: Params, t: Tuple)
    requires ScopedBodies(bodies)
    requires Agree(e1, e2, SubNeeds(sp, BodyExts(bodies)))
    ensures EvalList(db, bodies, sp.test, Bind(e1, sp.testIds, row), t)
         == EvalList(db, bodies, sp.test, Bind(e2, sp.testIds, row), t)
    decreases |bodies|, sp, 1
  {
    BindAgree(e1, e2, sp.testIds, row, ListNeeds(sp.test, BodyExts(bodies)));
    ListAgree(db, bodies, sp.test, Bind(e1, sp.testIds, row), Bind(e2, sp.testIds, row), t);
  }

  /** The body of a SubPlan returns the same rows: its arguments are local, the rest is in `SubNeeds`. */
  lemma {:induction false} BodyAgree(db: Database, bodies: seq<Plan>, sp: SubPlan, e1: Params, e2: Params, t: Tuple)
    requires ScopedBodies(bodies) && 1 <= sp.planId <= |bodies|
    requires Agree(e1, e2, SubNeeds(sp, BodyExts(bodies)))
    ensures EvalList(db, bodies, sp.args, e1, t) == EvalList(db, bodies, sp.args, e2, t)
    ensures var vals, k := EvalList(db, bodies, sp.args, e1, t), sp.planId - 1;
            && Rows(db, bodies[..k], bodies[k], Bind(e1, sp.parParam, vals))
            == Rows(db, bodies[..k], bodies[k], Bind(e2, sp.parParam, vals))
    decreases |bodies|, sp, 1
  {
    ListAgree(db, bodies, sp.args, e1, e2, t);
    var vals, k := EvalList(db, bodies, sp.args, e1, t), sp.planId - 1;
    BodySlotsAgree(BodyExts(bodies), sp, e1, e2, vals);
    BodyExtsPrefix(bodies, k);
    ScopedPrefix(bodies, k);
    RowsAgree(db, bodies[..k], bodies[k], Bind(e1, sp.parParam, vals), Bind(e2, sp.parParam, vals));
  }

  /** With the arguments bound, the environments agree on what the body reads. */
  lemma BodySlotsAgree(exts: seq<set<nat>>, sp: SubPlan, e1: Params, e2: Params, vals: seq<Value>)
    requires 1 <= sp.planId <= |exts| && Agree(e1, e2, SubNeeds(sp, exts))
    ensures Agree(Bind(e1, sp.parParam, vals), Bind(e2, sp.parParam, vals), exts[sp.planId - 1])
  {
    var ext := exts[sp.planId - 1];
    forall id | id in ext && id !in sp.parParam
      ensures Slot(e1, id) == Slot(e2, id)
    {
      assert sp in ExprSubs(Sub(sp));
      assert id in SubNeeds(sp, exts);
    }
    BindAgree(e1, e2, sp.parParam, vals, ext);
  }

  lemma ScopedPrefix(bodies: seq<Plan>, k: nat)
    requires ScopedBodies(bodies) && k <= |bodies|
    ensures ScopedBodies(bodies[..k])
  {
    BodyExtsPrefix(bodies, k);
    var first, exts := bodies[..k], BodyExts(bodies);
    assert BodyExts(first) == exts[..k];
    forall j | 0 <= j < |first|
      ensures Scoped(first[j], BodyExts(first)[..j])
    {
      PrefixOfPrefix(exts, j, k);
      assert Scoped(bodies[j], exts[..j]);
    }
  }

  lemma PrefixOfPrefix<T>(s: seq<T>, j: nat, k: nat)
    requires j <= k <= |s|
    ensures s[..k][..j] == s[..j]
  {
  }

  /** After the InitPlans of a node, the environments also agree on what those InitPlans set. */
  lemma {:induction false} InitsAgree(db: Database, bodies: seq<Plan>, ips: seq<SubPlan>,
                                      e1: Params, e2: Params, s: set<nat>)
    requires ScopedBodies(bodies) && InitsOrdered(ips, BodyExts(bodies))
    requires forall ip | ip in ips :: SubNeeds(ip, BodyExts(bodies)) <= s
    requires Agree(e1, e2, s - InitOutputs(ips))
    ensures Agree(RunInits(db, bodies, ips, e1), RunInits(db, bodies, ips, e2), s)
    decreases |bodies|, ips, 3
  {
    if ips != [] {
      var ip := ips[0];
      assert Agree(e1, e2, SubNeeds(ip, BodyExts(bodies)));
      SubAgree(db, bodies, ip, e1, e2, ([], []));
      var v := EvalSub(db, bodies, ip, e1, ([], []));
      SetAgree(e1, e2, ips, v, s);
      InitsAgree(db, bodies, ips[1..], BindAll(e1, ip.setParam, v), BindAll(e2, ip.setParam, v), s);
    }
  }

  lemma SetAgree(e1: Params, e2: Params, ips: seq<SubPlan>, v: Value, s: set<nat>)
    requires ips != [] && Agree(e1, e2, s - InitOutputs(ips))
    ensures Agree(BindAll(e1, ips[0].setParam, v), BindAll(e2, ips[0].setParam, v), s - InitOutputs(ips[1..]))
  {
    var ids := ips[0].setParam;
    forall id | id in s - InitOutputs(ips[1..])
      ensures Slot(BindAll(e1, ids, v), id) == Slot(BindAll(e2, ids, v), id)
    {
      assert id in ids || id in s - InitOutputs(ips);
    }
  }

  lemma {:induction false} PlansAgree(db: Database, bodies: seq<Plan>, ps: seq<Plan>, e1: Params, e2: Params)
    requires ScopedBodies(bodies)
    requires forall p | p in ps :: Scoped(p, BodyExts(bodies)) && Agree(e1, e2, ExtParam(p, BodyExts(bodies)))
    ensures RowsList(db, bodies, ps, e1) == RowsList(db, bodies, ps, e2)
    decreases |bodies|, ps, 3
  {
    if ps != [] {
      RowsAgree(db, bodies, ps[0], e1, e2);
      PlansAgree(db, bodies, ps[1..], e1, e2);
    }
  }

  /** What a node reads once its InitPlans have run, given that the environments agreed on `extParam`. */
  lemma {:induction false} NodeScope(db: Database, bodies: seq<Plan>, p: Plan, e1: Params, e2: Params)
    requires ScopedBodies(bodies) && Scoped(p, BodyExts(bodies))
    requires Agree(e1, e2, ExtParam(p, BodyExts(bodies)))
    ensures Agree(RunInits(db, bodies, p.initPlans, e1), RunInits(db, bodies, p.initPlans, e2),
                  NodeReads(p, BodyExts(bodies)))
    decreases |bodies|, p, 2
  {
    var exts := BodyExts(bodies);
    NodeReadsOwned(p, exts);
    forall ip | ip in p.initPlans
      ensures SubNeeds(ip, exts) <= NodeReads(p, exts)
    {
      InitNeedsRead(p, ip, exts);
    }
    InitsAgree(db, bodies, p.initPlans, e1, e2, NodeReads(p, exts));
  }

  /** What the expressions and the children of a node read. */
  ghost function NodeReads(p: Plan, exts: seq<set<nat>>): set<nat> {
    OwnNeeds(p, exts) + (set c, x | c in p.children && x in ExtParam(c, exts) :: x)
  }

  lemma InitNeedsRead(p: Plan, ip: SubPlan, exts: seq<set<nat>>)
    requires ip in p.initPlans
    ensures SubNeeds(ip, exts) <= NodeReads(p, exts)
  {
    InitIn(p.initPlans, ip);
    assert ExprParams(Sub(ip)) <= OwnParams(p);
    assert ExprSubs(Sub(ip)) <= OwnSubs(p);
  }

  lemma NodeReadsOwned(p: Plan, exts: seq<set<nat>>)
    requires Scoped(p, exts)
    ensures NodeReads(p, exts) - InitOutputs(p.initPlans) <= ExtParam(p, exts)
  {
    ChildSets(p.children, exts);
    forall x | x in NodeReads(p, exts) && x !in InitOutputs(p.initPlans)
      ensures x in ExtParam(p, exts)
    {
      assert x in AllParam(p, exts);
      forall sp | sp in PlanSubs(p)
        ensures x !in sp.setParam
      {
        if sp in PlansSubs(p.children) {
          var c := SubOfChild(p.children, sp);
          assert x !in Outputs(PlanSubs(c));
        } else if sp in p.initPlans {
          InitIn(p.initPlans, sp);
        }
      }
    }
  }

  lemma {:induction false} InitIn(ips: seq<SubPlan>, ip: SubPlan)
    requires ip in ips
    ensures ListParams(ip.test) + ListParams(ip.args) <= InitParams(ips)
    ensures ListSubs(ip.test) + ListSubs(ip.args) <= InnerSubs(ips)
    ensures forall x | x in ip.setParam :: x in InitOutputs(ips)
  {
    if ips[0] != ip {
      InitIn(ips[1..], ip);
    }
  }

  lemma {:induction false} ChildSets(ps: seq<Plan>, exts: seq<set<nat>>)
    ensures forall c | c in ps :: PlanParams(c) <= PlansParams(ps) && PlanSubs(c) <= PlansSubs(ps)
    ensures forall c | c in ps :: ExtParam(c, exts) <= PlansParams(ps) + External(PlansSubs(ps), exts)
  {
    if ps != [] {
      ChildSets(ps[1..], exts);
    }
  }

  /** A SubPlan found below a list of plans is found below one of them. */
  lemma {:induction false} SubOfChild(ps: seq<Plan>, sp: SubPlan) returns (c: Plan)
    requires sp in PlansSubs(ps)
    ensures c in ps && sp in PlanSubs(c)
  {
    if sp in PlanSubs(ps[0]) {
      c := ps[0];
    } else {
      c := SubOfChild(ps[1..], sp);
    }
  }

  /** Two environments that agree on `extParam` of a plan give it the same rows. */
  lemma {:induction false} RowsAgree(db: Database, bodies: seq<Plan>, p: Plan, e1: Params, e2: Params)
    requires ScopedBodies(bodies) && Scoped(p, BodyExts(bodies))
    requires Agree(e1, e2, ExtParam(p, BodyExts(bodies)))
    ensures Rows(db, bodies, p, e1) == Rows(db, bodies, p, e2)
    decreases |bodies|, p, 4
  {
    var exts := BodyExts(bodies);
    NodeScope(db, bodies, p, e1, e2);
    var n1, n2 := RunInits(db, bodies, p.initPlans, e1), RunInits(db, bodies, p.initPlans, e2);
    PlansAgree(db, bodies, p.children, n1, n2);
    forall t: Tuple
      ensures EvalList(db, bodies, p.extra, n1, t) == EvalList(db, bodies, p.extra, n2, t)
      ensures EvalList(db, bodies, p.quals, n1, t) == EvalList(db, bodies, p.quals, n2, t)
      ensures EvalList(db, bodies, p.tlist, n1, t) == EvalList(db, bodies, p.tlist, n2, t)
    {
      ListAgree(db, bodies, p.extra, n1, n2, t);
      ListAgree(db, bodies, p.quals, n1, n2, t);
      ListAgree(db, bodies, p.tlist, n1, n2, t);
    }
    NodeRowsEqual(db, bodies, p, n1, n2);
  }

  lemma NodeRowsEqual(db: Database, bodies: seq<Plan>, p: Plan, n1: Params, n2: Params)
    requires RowsList(db, bodies, p.children, n1) == RowsList(db, bodies, p.children, n2)
    requires forall t: Tuple :: EvalList(db, bodies, p.extra, n1, t) == EvalList(db, bodies, p.extra, n2, t)
    requires forall t: Tuple :: EvalList(db, bodies, p.quals, n1, t) == EvalList(db, bodies, p.quals, n2, t)
    requires forall t: Tuple :: EvalList(db, bodies, p.tlist, n1, t) == EvalList(db, bodies, p.tlist, n2, t)
    ensures NodeRows(db, bodies, p, n1) == NodeRows(db, bodies, p, n2)
  {
    var kids := RowsList(db, bodies, p.children, n1);
    var outs, inns := Input(kids, 0), Input(kids, 1);
    var x1 := seq(|outs|, i requires 0 <= i < |outs| =>
                seq(|inns|, j requires 0 <= j < |inns| => EvalList(db, bodies, p.extra, n1, (outs[i], inns[j]))));
    var x2 := seq(|outs|, i requires 0 <= i < |outs| =>
                seq(|inns|, j requires 0 <= j < |inns| => EvalList(db, bodies, p.extra, n2, (outs[i], inns[j]))));
    forall i | 0 <= i < |outs|
      ensures x1[i] == x2[i]
    {
    }
    assert x1 == x2;
    var ts := db.combine(p.kind, kids, x1);
    assert seq(|ts|, i requires 0 <= i < |ts| => AllTrue(db, EvalList(db, bodies, p.quals, n1, ts[i])))
        == seq(|ts|, i requires 0 <= i < |ts| => AllTrue(db, EvalList(db, bodies, p.quals, n2, ts[i])));
    assert seq(|ts|, i requires 0 <= i < |ts| => EvalList(db, bodies, p.tlist, n1, ts[i]))
        == seq(|ts|, i requires 0 <= i < |ts| => EvalList(db, bodies, p.tlist, n2, ts[i]));
  }

  // ----- results kept across rescans -----

  /** A rescan: the new environment and the parameters reported as changed. */
  datatype Rescan = Rescan(env: Params, chg: set<nat>)

  /** Every parameter that differs from the previous scan is reported. */
  ghost predicate Reported(prev: Params, run: seq<Rescan>)
    decreases |run|
  {
    run != [] ==>
      && (forall id: nat | Slot(prev, id) != Slot(run[0].env, id) :: id in run[0].chg)
      && Reported(run[0].env, run[1..])
  }

  /** A node that recomputes only when a reported parameter is in `watched`. */
  function CachedRuns(db: Database, bodies: seq<Plan>, p: Plan, watched: set<nat>,
                      cache: seq<Row>, run: seq<Rescan>): (r: seq<seq<Row>>)
    ensures |r| == |run|
    decreases |run|
  {
    if run == [] then []
    else
      var rows := if run[0].chg !! watched then cache else Rows(db, bodies, p, run[0].env);
      [rows] + CachedRuns(db, bodies, p, watched, rows, run[1..])
  }

  /**
    Watching `extParam` (or more, as the executor does with `allParam`) is
    enough: over every run of rescans the kept rows are the rows a fresh scan
    would return.
   */
  lemma {:induction false} CachedRunsExact(db: Database, bodies: seq<Plan>, p: Plan, watched: set<nat>,
                                           prev: Params, run: seq<Rescan>)
    requires ScopedBodies(bodies) && Scoped(p, BodyExts(bodies))
    requires ExtParam(p, BodyExts(bodies)) <= watched
    requires Reported(prev, run)
    ensures forall i | 0 <= i < |run| ::
              CachedRuns(db, bodies, p, watched, Rows(db, bodies, p, prev), run)[i] == Rows(db, bodies, p, run[i].env)
    decreases |run|
  {
    if run != [] {
      var env := run[0].env;
      KeptRows(db, bodies, p, watched, prev, run[0]);
      CachedRunsExact(db, bodies, p, watched, env, run[1..]);
      var all := CachedRuns(db, bodies, p, watched, Rows(db, bodies, p, prev), run);
      var rest := CachedRuns(db, bodies, p, watched, Rows(db, bodies, p, env), run[1..]);
      assert all == [Rows(db, bodies, p, env)] + rest;
      forall i | 0 <= i < |run|
        ensures all[i] == Rows(db, bodies, p, run[i].env)
      {
        if i > 0 {
          assert all[i] == rest[i - 1] && run[i] == run[1..][i - 1];
        }
      }
    }
  }

  lemma KeptRows(db: Database, bodies: seq<Plan>, p: Plan, watched: set<nat>, prev: Params, r: Rescan)
    requires ScopedBodies(bodies) && Scoped(p, BodyExts(bodies))
    requires ExtParam(p, BodyExts(bodies)) <= watched
    requires forall id: nat | Slot(prev, id) != Slot(r.env, id) :: id in r.chg
    ensures r.chg !! watched ==> Rows(db, bodies, p, prev) == Rows(db, bodies, p, r.env)
  {
    if r.chg !! watched {
      forall id | id in ExtParam(p, BodyExts(bodies))
        ensures Slot(prev, id) == Slot(r.env, id)
      {
        assert id !in r.chg;
      }
      RowsAgree(db, bodies, p, prev, r.env);
    }
  }

  /** Changes are propagated from a node to its child without loss. */
  lemma ChangePropagates(p: Plan, c: Plan, exts: seq<set<nat>>, chg: set<nat>)
    requires c in p.children
    ensures (chg * AllParam(p, exts)) * AllParam(c, exts) == chg * AllParam(c, exts)
  {
    ChildSets(p.children, exts);
  }
}
