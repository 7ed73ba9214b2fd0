/**
  The pass that fills `allParam` and `extParam` of the nodes of a statement in
  place, and the node extractor it calls.
 */
module FinalizePass {
  import opened Plans
  import opened ParamSets

  /** A plan node. Only the two parameter sets change once the tree is assembled. */
  class PlanNode {
    const kind: nat
    const tlist: seq<Expr>
    const quals: seq<Expr>
    const extra: seq<Expr>
    const initPlans: seq<SubPlan>
    const children: seq<PlanNode>
    var allParam: set<nat>
    var extParam: set<nat>

    ghost const tree: Plan
    ghost const nodes: set<PlanNode>

    ghost predicate Valid()
      decreases tree
    {
      && |tree.children| == |children|
      && tree == Plan.Plan(kind, tlist, quals, extra, initPlans, tree.children)
      && this in nodes
      && (forall i | 0 <= i < |children| ::
            && children[i].tree == tree.children[i]
            && children[i].nodes <= nodes - {this}
            && children[i].Valid())
      && (forall m | m in nodes && m != this :: exists i :: 0 <= i < |children| && m in children[i].nodes)
    }

    constructor (kind: nat, tlist: seq<Expr>, quals: seq<Expr>, extra: seq<Expr>,
                 initPlans: seq<SubPlan>, children: seq<PlanNode>)
      requires forall c | c in children :: c.Valid()
      ensures Valid() && fresh(this)
      ensures this.kind == kind && this.tlist == tlist && this.quals == quals && this.extra == extra
      ensures this.initPlans == initPlans && this.children == children
    {
      this.kind, this.tlist, this.quals, this.extra := kind, tlist, quals, extra;
      this.initPlans, this.children := initPlans, children;
      this.tree := Plan.Plan(kind, tlist, quals, extra, initPlans,
                             seq(|children|, i requires 0 <= i < |children| => children[i].tree));
      this.nodes := {this} + (set c, m | c in children && m in c.nodes :: m);
      allParam, extParam := {}, {};
    }

    ghost predicate Final(exts: seq<set<nat>>)
      reads this
    {
      allParam == AllParam(tree, exts) && extParam == ExtParam(tree, exts)
    }
  }

  datatype Tag = ParamTag | SubPlanTag

  /** Collects the nodes with one tag, in the order the walk meets them. */
  class Extractor {
    const tag: Tag
    var params: seq<nat>
    var subs: seq<SubPlan>

    constructor (tag: Tag)
      ensures this.tag == tag && params == [] && subs == []
    {
      this.tag := tag;
      params, subs := [], [];
    }

    ghost function Ids(): set<nat>
      reads this
    {
      SetOf(params)
    }

    ghost function Subs(): set<SubPlan>
      reads this
    {
      SubSet(subs)
    }

    twostate predicate Added(ids: set<nat>, sps: set<SubPlan>)
      reads this
    {
      && Ids() == old(Ids()) + (if tag == ParamTag then ids else {})
      && Subs() == old(Subs()) + (if tag == SubPlanTag then sps else {})
    }

    method WalkExpr(e: Expr)
      modifies this
      ensures Added(ExprParams(e), ExprSubs(e))
      decreases e, 0
    {
      match e
      case Param(id) =>
        if tag == ParamTag {
          params := params + [id];
        }
      case Op(_, args) =>
        WalkList(args);
      case Sub(sp) =>
        WalkSub(sp);
      case _ =>
    }

    /** Enters the test and the arguments of a SubPlan, never its body. */
    method WalkSub(sp: SubPlan)
      modifies this
      ensures Added(ListParams(sp.test) + ListParams(sp.args), {sp} + ListSubs(sp.test) + ListSubs(sp.args))
      decreases sp, 0
    {
      if tag == SubPlanTag {
        subs := subs + [sp];
      }
      WalkList(sp.test);
      WalkList(sp.args);
    }

    method WalkList(es: seq<Expr>)
      modifies this
      ensures Added(ListParams(es), ListSubs(es))
      decreases es, 1
    {
      if es != [] {
        WalkExpr(es[0]);
        WalkList(es[1..]);
      }
    }

    method WalkInits(ips: seq<SubPlan>)
      modifies this
      ensures Added(InitParams(ips), InnerSubs(ips) + (set s | s in ips))
      decreases ips, 1
    {
      if ips != [] {
        WalkSub(ips[0]);
        WalkInits(ips[1..]);
        assert (set s | s in ips) == {ips[0]} + (set s | s in ips[1..]);
      }
    }

    method WalkPlan(n: PlanNode)
      requires n.Valid()
      modifies this
      ensures Added(PlanParams(n.tree), PlanSubs(n.tree))
      decreases n.tree, 0
    {
      WalkList(n.tlist);
      WalkList(n.quals);
      WalkChildren(n, 0);
      WalkInits(n.initPlans);
      WalkList(n.extra);
      assert n.tree.children[0..] == n.tree.children;
      PlanParts(n.tree);
      if tag == ParamTag {
        Gathered(old(Ids()), ListParams(n.tlist), ListParams(n.quals), PlansParams(n.tree.children),
                 InitParams(n.initPlans), ListParams(n.extra));
      } else {
        Gathered(old(Subs()), ListSubs(n.tlist), ListSubs(n.quals), PlansSubs(n.tree.children),
                 InnerSubs(n.initPlans) + (set s | s in n.initPlans), ListSubs(n.extra));
      }
    }

    method WalkChildren(n: PlanNode, i: nat)
      requires n.Valid() && i <= |n.children|
      modifies this
      ensures Added(PlansParams(n.tree.children[i..]), PlansSubs(n.tree.children[i..]))
      decreases n.tree.children, |n.children| - i
    {
      if i < |n.children| {
        WalkPlan(n.children[i]);
        WalkChildren(n, i + 1);
      }
    }
  }

  lemma Gathered<T>(z: set<T>, a: set<T>, b: set<T>, c: set<T>, d: set<T>, e: set<T>)
    ensures z + a + b + c + d + e == z + (a + b + c + d + e)
  {
  }

  /** The sets of a plan, in the order the walk meets its parts. */
  lemma PlanParts(p: Plan)
    ensures PlanParams(p) == ListParams(p.tlist) + ListParams(p.quals) + PlansParams(p.children)
                             + InitParams(p.initPlans) + ListParams(p.extra)
    ensures PlanSubs(p) == ListSubs(p.tlist) + ListSubs(p.quals) + PlansSubs(p.children)
                           + (InnerSubs(p.initPlans) + (set s | s in p.initPlans)) + ListSubs(p.extra)
  {
  }

  /** What the bodies registered so far contribute is final, and they lie outside `n`. */
  ghost predicate Ready(subplans: seq<PlanNode>, n: PlanNode, exts: seq<set<nat>>)
    reads subplans
  {
    && |exts| <= |subplans|
    && PlanBelow(n.tree, |exts|)
    && forall j | 0 <= j < |exts| :: subplans[j].extParam == exts[j] && subplans[j] !in n.nodes
  }

  // ----- the SubPlans of a plan that calls bodies up to n -----

  lemma {:induction false} ExprSubsBelow(e: Expr, n: nat)
    requires Below(e, n)
    ensures forall s | s in ExprSubs(e) :: 1 <= s.planId <= n
    decreases e, 0
  {
    match e
    case Op(_, args) => ListSubsBelow(args, n);
    case Sub(sp) => ListSubsBelow(sp.test, n); ListSubsBelow(sp.args, n);
    case _ =>
  }

  lemma {:induction false} ListSubsBelow(es: seq<Expr>, n: nat)
    requires forall e | e in es :: Below(e, n)
    ensures forall s | s in ListSubs(es) :: 1 <= s.planId <= n
    decreases es, 1
  {
    if es != [] {
      ExprSubsBelow(es[0], n);
      ListSubsBelow(es[1..], n);
    }
  }

  lemma {:induction false} InitSubsBelow(ips: seq<SubPlan>, n: nat)
    requires forall s | s in ips :: SubBelow(s, n)
    ensures forall s | s in InnerSubs(ips) :: 1 <= s.planId <= n
  {
    if ips != [] {
      assert SubBelow(ips[0], n);
      ListSubsBelow(ips[0].test, n);
      ListSubsBelow(ips[0].args, n);
      InitSubsBelow(ips[1..], n);
    }
  }

  lemma {:induction false} PlanSubsBelow(p: Plan, n: nat)
    requires PlanBelow(p, n)
    ensures forall s | s in PlanSubs(p) :: 1 <= s.planId <= n
    decreases p, 0
  {
    ListSubsBelow(p.tlist, n);
    ListSubsBelow(p.quals, n);
    ListSubsBelow(p.extra, n);
    InitSubsBelow(p.initPlans, n);
    PlansSubsBelow(p.children, n);
  }

  lemma {:induction false} PlansSubsBelow(ps: seq<Plan>, n: nat)
    requires forall p | p in ps :: PlanBelow(p, n)
    ensures forall s | s in PlansSubs(ps) :: 1 <= s.planId <= n
    decreases ps, 1
  {
    if ps != [] {
      PlanSubsBelow(ps[0], n);
      PlansSubsBelow(ps[1..], n);
    }
  }

  /** Parameters mentioned in the subtree, before SubPlan bodies are taken into account. */
  method SetParamIds(n: PlanNode)
    requires n.Valid()
    modifies n
    ensures n.extParam == n.allParam == PlanParams(n.tree)
  {
    var x := new Extractor(ParamTag);
    x.WalkPlan(n);
    var ids := With({}, x.params);
    assert ids == x.Ids() == PlanParams(n.tree);
    n.extParam, n.allParam := ids, ids;
  }

  /** Finalizes the children first, then the node itself. */
  method FinalizeParamIds(n: PlanNode, subplans: seq<PlanNode>, ghost exts: seq<set<nat>>)
    requires n.Valid() && Ready(subplans, n, exts)
    modifies n.nodes
    ensures SetFinal(n.nodes, exts)
    decreases n.tree, 1
  {
    FinalizeChildren(n, subplans, exts);
    FinalizeNode(n, subplans, exts);
  }

  /** The parameters below the node, and those of the bodies its SubPlans call. */
  method FinalizeNode(n: PlanNode, subplans: seq<PlanNode>, ghost exts: seq<set<nat>>)
    requires n.Valid() && Ready(subplans, n, exts)
    modifies n
    ensures n.Final(exts)
  {
    SetParamIds(n);
    var x := new Extractor(SubPlanTag);
    x.WalkPlan(n);
    PlanSubsBelow(n.tree, |exts|);
    assert forall s | s in x.subs :: s in x.Subs();
    AddBodies(n, subplans, x.subs, exts);
  }

  method FinalizeChildren(n: PlanNode, subplans: seq<PlanNode>, ghost exts: seq<set<nat>>)
    requires n.Valid() && Ready(subplans, n, exts)
    modifies n.nodes - {n}
    ensures SetFinal(n.nodes - {n}, exts) && Ready(subplans, n, exts)
    decreases n.tree, 0
  {
    ghost var done: set<PlanNode> := {};
    for i := 0 to |n.children|
      invariant SetFinal(done, exts)
      invariant Covers(n.children[..i], done)
      invariant Ready(subplans, n, exts)
    {
      var c := n.children[i];
      ChildReady(n, i, subplans, exts);
      FinalizeChild(c, subplans, done, exts);
      CoversNext(n.children, i, done);
      done := done + c.nodes;
    }
    ChildrenCover(n, done, exts);
  }

  lemma ChildReady(n: PlanNode, i: nat, subplans: seq<PlanNode>, exts: seq<set<nat>>)
    requires n.Valid() && Ready(subplans, n, exts) && i < |n.children|
    ensures n.children[i].Valid() && n.children[i].nodes <= n.nodes - {n} && Ready(subplans, n.children[i], exts)
    ensures n.children[i].tree in n.tree.children && n.children[i].tree < n.tree
  {
    assert n.children[i].tree == n.tree.children[i];
  }

  ghost predicate Covers(children: seq<PlanNode>, done: set<PlanNode>) {
    forall j | 0 <= j < |children| :: children[j].nodes <= done
  }

  lemma CoversNext(children: seq<PlanNode>, i: nat, done: set<PlanNode>)
    requires i < |children| && Covers(children[..i], done)
    ensures Covers(children[..i + 1], done + children[i].nodes)
  {
    var first, more := children[..i], children[..i + 1];
    forall j | 0 <= j < |more|
      ensures more[j].nodes <= done + children[i].nodes
    {
      if j < i {
        assert more[j] == first[j];
      }
    }
  }

  lemma ChildrenCover(n: PlanNode, done: set<PlanNode>, exts: seq<set<nat>>)
    requires n.Valid() && Covers(n.children[..|n.children|], done) && SetFinal(done, exts)
    ensures SetFinal(n.nodes - {n}, exts)
  {
    assert n.children[..|n.children|] == n.children;
    assert n.nodes - {n} <= done;
  }

  /** A node shared with an earlier child is final again; the other nodes of earlier children are untouched. */
  method FinalizeChild(c: PlanNode, subplans: seq<PlanNode>, ghost done: set<PlanNode>, ghost exts: seq<set<nat>>)
    requires c.Valid() && Ready(subplans, c, exts) && SetFinal(done, exts)
    modifies c.nodes
    ensures SetFinal(done + c.nodes, exts)
    decreases c.tree, 2
  {
    FinalizeParamIds(c, subplans, exts);
    assert forall m | m in done && m !in c.nodes :: old(m.Final(exts));
  }

  ghost predicate SetFinal(nodes: set<PlanNode>, exts: seq<set<nat>>)
    reads nodes
  {
    forall m | m in nodes :: m.Final(exts)
  }

  ghost function SubSet(subs: seq<SubPlan>): set<SubPlan> {
    set s | s in subs
  }

  ghost function SetOf(params: seq<nat>): set<nat> {
    set x | x in params
  }

  lemma OneMore(subs: seq<SubPlan>, i: nat, exts: seq<set<nat>>)
    requires i < |subs| && 1 <= subs[i].planId <= |exts|
    ensures External(SubSet(subs[..i + 1]), exts)
         == External(SubSet(subs[..i]), exts) + (exts[subs[i].planId - 1] - SetOf(subs[i].parParam))
    ensures Outputs(SubSet(subs[..i + 1])) == Outputs(SubSet(subs[..i])) + SetOf(subs[i].setParam)
  {
    assert subs[..i + 1] == subs[..i] + [subs[i]];
    assert SubSet(subs[..i + 1]) == SubSet(subs[..i]) + {subs[i]};
  }

  lemma Regroup(a: set<nat>, b: set<nat>, c: set<nat>)
    ensures a + b + c == a + (b + c)
  {
  }

  method Without(ids: set<nat>, params: seq<nat>) returns (r: set<nat>)
    ensures r == ids - SetOf(params)
  {
    r := ids;
    for k := 0 to |params|
      invariant r == ids - SetOf(params[..k])
    {
      r := r - {params[k]};
    }
    assert params[..|params|] == params;
  }

  method With(ids: set<nat>, params: seq<nat>) returns (r: set<nat>)
    ensures r == ids + SetOf(params)
  {
    r := ids;
    for k := 0 to |params|
      invariant r == ids + SetOf(params[..k])
    {
      r := r + {params[k]};
    }
    assert params[..|params|] == params;
  }

  /** Adds what SubPlan bodies read and removes what InitPlans set. */
  method AddBodies(n: PlanNode, subplans: seq<PlanNode>, subs: seq<SubPlan>, ghost exts: seq<set<nat>>)
    requires Ready(subplans, n, exts) && n in n.nodes
    requires forall s | s in subs :: 1 <= s.planId <= |exts|
    requires n.allParam == PlanParams(n.tree)
    requires SubSet(subs) == PlanSubs(n.tree)
    modifies n
    ensures n.Final(exts)
  {
    var produced := {};
    ghost var own := n.allParam;
    assert BodiesGathered(own, subs, 0, exts) == own && Outputs(SubSet(subs[..0])) == {};
    for i := 0 to |subs|
      invariant n.allParam == BodiesGathered(own, subs, i, exts)
      invariant produced == Outputs(SubSet(subs[..i]))
      invariant Ready(subplans, n, exts)
    {
      var sp := subs[i];
      assert subplans[sp.planId - 1].extParam == exts[sp.planId - 1];
      var external := Without(subplans[sp.planId - 1].extParam, sp.parParam);
      produced := With(produced, sp.setParam);
      GatherOne(own, subs, i, exts);
      n.allParam := n.allParam + external;
    }
    assert subs[..|subs|] == subs;
    n.extParam := n.allParam - produced;
  }

  /** The node's own parameters and those of the bodies of its first SubPlans. */
  ghost function BodiesGathered(own: set<nat>, subs: seq<SubPlan>, i: nat, exts: seq<set<nat>>): set<nat>
    requires i <= |subs| && forall s | s in subs :: 1 <= s.planId <= |exts|
  {
    own + External(SubSet(subs[..i]), exts)
  }

  lemma GatherOne(own: set<nat>, subs: seq<SubPlan>, i: nat, exts: seq<set<nat>>)
    requires i < |subs| && forall s | s in subs :: 1 <= s.planId <= |exts|
    ensures BodiesGathered(own, subs, i + 1, exts)
         == BodiesGathered(own, subs, i, exts) + (exts[subs[i].planId - 1] - SetOf(subs[i].parParam))
    ensures Outputs(SubSet(subs[..i + 1])) == Outputs(SubSet(subs[..i])) + SetOf(subs[i].setParam)
  {
    OneMore(subs, i, exts);
    Regroup(own, External(SubSet(subs[..i]), exts), exts[subs[i].planId - 1] - SetOf(subs[i].parParam));
  }

  /** The trees of a list of nodes. */
  ghost function Trees(ns: seq<PlanNode>): (r: seq<Plan>)
    ensures |r| == |ns|
  {
    seq(|ns|, i requires 0 <= i < |ns| => ns[i].tree)
  }

  lemma FinalBody(subplans: seq<PlanNode>, j: nat)
    requires j < |subplans| && subplans[j].Valid()
    requires SetFinal(subplans[j].nodes, BodyExts(Trees(subplans))[..j])
    ensures subplans[j].extParam == BodyExts(Trees(subplans))[j]
  {
    BodyExtsPrefix(Trees(subplans), j);
    assert subplans[j].Final(BodyExts(Trees(subplans))[..j]);
  }

  ghost function NodesOf(ns: seq<PlanNode>): set<PlanNode> {
    set n, m | n in ns && m in n.nodes :: m
  }

  ghost predicate Disjoint(subplans: seq<PlanNode>) {
    && (forall k | 0 <= k < |subplans| :: subplans[k].Valid())
    && (forall i, j | 0 <= i < j < |subplans| :: subplans[i].nodes !! subplans[j].nodes)
  }

  /** The bodies before k are final and lie outside body k. */
  lemma BodyReady(subplans: seq<PlanNode>, k: nat)
    requires Disjoint(subplans) && Registered(Trees(subplans)) && k < |subplans|
    requires forall j | 0 <= j < k :: SetFinal(subplans[j].nodes, BodyExts(Trees(subplans))[..j])
    ensures Ready(subplans, subplans[k], BodyExts(Trees(subplans))[..k])
  {
    assert PlanBelow(Trees(subplans)[k], k);
    forall j | 0 <= j < k
      ensures subplans[j].extParam == BodyExts(Trees(subplans))[..k][j] && subplans[j] !in subplans[k].nodes
    {
      FinalBody(subplans, j);
      assert subplans[j] in subplans[j].nodes;
    }
  }

  /** The first k bodies are final. */
  ghost predicate Done(subplans: seq<PlanNode>, exts: seq<set<nat>>, k: nat)
    requires k <= |subplans| <= |exts|
    reads NodesOf(subplans)
  {
    forall j | 0 <= j < k :: SetFinal(subplans[j].nodes, exts[..j])
  }

  method FinalizeBody(subplans: seq<PlanNode>, k: nat, ghost exts: seq<set<nat>>)
    requires Disjoint(subplans) && k < |subplans| <= |exts|
    requires Ready(subplans, subplans[k], exts[..k]) && Done(subplans, exts, k)
    modifies subplans[k].nodes
    ensures Done(subplans, exts, k + 1)
  {
    FinalizeParamIds(subplans[k], subplans, exts[..k]);
    forall j | 0 <= j < k
      ensures SetFinal(subplans[j].nodes, exts[..j])
    {
      forall m | m in subplans[j].nodes
        ensures m.Final(exts[..j])
      {
        assert m !in subplans[k].nodes;
      }
    }
  }

  method FinalizeBodies(subplans: seq<PlanNode>)
    requires Disjoint(subplans) && Registered(Trees(subplans))
    modifies NodesOf(subplans)
    ensures Done(subplans, BodyExts(Trees(subplans)), |subplans|)
  {
    ghost var exts := BodyExts(Trees(subplans));
    for k := 0 to |subplans|
      invariant Done(subplans, exts, k)
    {
      BodyReady(subplans, k);
      FinalizeBody(subplans, k, exts);
    }
  }

  /**
    The tail of statement assembly: bodies in list order, then the main tree.
    One pass is enough because a body calls only bodies registered before it.
   */
  method FinalizeStatement(subplans: seq<PlanNode>, main: PlanNode)
    requires main.Valid() && PlanBelow(main.tree, |subplans|)
    requires forall n | n in subplans :: n.Valid() && n.nodes !! main.nodes
    requires forall i, j | 0 <= i < j < |subplans| :: subplans[i].nodes !! subplans[j].nodes
    requires Registered(Trees(subplans))
    modifies main.nodes, NodesOf(subplans)
    ensures SetFinal(main.nodes, BodyExts(Trees(subplans)))
    ensures forall k | 0 <= k < |subplans| :: SetFinal(subplans[k].nodes, BodyExts(Trees(subplans))[..k])
  {
    ghost var exts := BodyExts(Trees(subplans));
    FinalizeBodies(subplans);
    forall j | 0 <= j < |subplans|
      ensures subplans[j].extParam == exts[j] && subplans[j] !in main.nodes
    {
      FinalBody(subplans, j);
      assert subplans[j] in subplans[j].nodes;
    }
    FinalizeParamIds(main, subplans, exts);
    forall j | 0 <= j < |subplans|
      ensures SetFinal(subplans[j].nodes, exts[..j])
    {
      forall m | m in subplans[j].nodes
        ensures m.Final(exts[..j])
      {
        assert m !in main.nodes;
      }
    }
  }
}
