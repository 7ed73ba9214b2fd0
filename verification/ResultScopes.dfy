/**
  Two further questions about the redundant-Result pass: which node evaluates a
  Param or a scan column afterwards, and which type modifier a shared child
  expression ends up with.
 */
module ResultScopes {
  import opened Plans
  import opened ResultPlans
  import opened RedundantResults

  // ----- Params and scan columns stay with their node -----

  /** The Params and the Vars other than columns of the immediate child. */
  ghost function Leaves(e: Node): set<Node>
    decreases e, 0
  {
    match e
    case ConstNode(_, _) => {}
    case VarNode(varno, attno, _) => if varno != OuterVar || attno <= 0 then {e} else {}
    case ParamNode(_) => {e}
    case Call(_, args) => AllLeaves(args)
    case VolatileCall(_, args) => AllLeaves(args)
    case SubPlanCall(_, args) => AllLeaves(args)
    case SetCall(_, args) => AllLeaves(args)
  }

  ghost function AllLeaves(es: seq<Node>): set<Node>
    decreases es, 1
  {
    if es == [] then {} else Leaves(es[0]) + AllLeaves(es[1..])
  }

  lemma {:induction false} PushDownLeaves(e: Node, child: seq<Node>)
    requires Fits(e, |child|)
    ensures Leaves(PushDown(e, child)) <= Leaves(e) + AllLeaves(child)
    decreases e, 0
  {
    match e
    case VarNode(varno, attno, _) =>
      if varno == OuterVar && attno > 0 {
        LeavesAt(child, attno - 1);
      }
    case Call(_, args) => PushDownAllLeaves(args, child);
    case VolatileCall(_, args) => PushDownAllLeaves(args, child);
    case SubPlanCall(_, args) => PushDownAllLeaves(args, child);
    case SetCall(_, args) => PushDownAllLeaves(args, child);
    case _ =>
  }

  lemma {:induction false} PushDownAllLeaves(es: seq<Node>, child: seq<Node>)
    requires AllFit(es, |child|)
    ensures AllLeaves(PushDownAll(es, child)) <= AllLeaves(es) + AllLeaves(child)
    decreases es, 1
  {
    if es != [] {
      PushDownLeaves(es[0], child);
      PushDownAllLeaves(es[1..], child);
      assert PushDownAll(es, child)[1..] == PushDownAll(es[1..], child);
    }
  }

  lemma {:induction false} LeavesAt(es: seq<Node>, i: nat)
    requires i < |es|
    ensures Leaves(es[i]) <= AllLeaves(es)
    decreases |es|
  {
    if i > 0 {
      LeavesAt(es[1..], i - 1);
    }
  }

  lemma {:induction false} SafeHasNoLeaves(e: Node)
    requires !HasEffects(e) && !OutOfScope(e)
    ensures Leaves(e) == {}
    decreases e, 0
  {
    match e
    case Call(_, args) => AllSafeHaveNoLeaves(args);
    case SetCall(_, args) => AllSafeHaveNoLeaves(args);
    case _ =>
  }

  lemma {:induction false} AllSafeHaveNoLeaves(es: seq<Node>)
    requires !AnyHasEffects(es) && !AnyOutOfScope(es)
    ensures AllLeaves(es) == {}
    decreases es, 1
  {
    if es != [] {
      SafeHasNoLeaves(es[0]);
      AllSafeHaveNoLeaves(es[1..]);
    }
  }

  /**
    `q` is what is left of `p`: the node itself, evaluating nothing in its target
    list that it did not evaluate before, or what is left of the child of a
    dropped Result.
   */
  ghost predicate LeftOf(q: Tree, p: Tree)
    decreases p
  {
    || (&& q.id == p.id && q.kind == p.kind && q.quals == p.quals
        && q.constQual == p.constQual && q.initPlans == p.initPlans
        && AllLeaves(q.tlist) <= AllLeaves(p.tlist)
        && |q.children| == |p.children|
        && forall i | 0 <= i < |p.children| :: LeftOf(q.children[i], p.children[i]))
    || (p.kind.ResultKind? && p.children != [] && LeftOf(q, p.children[0]))
  }

  lemma {:induction false} FewerLeaves(c: Tree, d: Tree, p: Tree)
    requires LeftOf(c, p)
    requires d == c.(tlist := d.tlist, cost := d.cost) && AllLeaves(d.tlist) <= AllLeaves(c.tlist)
    ensures LeftOf(d, p)
    decreases p
  {
    if p.kind.ResultKind? && p.children != [] && LeftOf(c, p.children[0]) {
      FewerLeaves(c, d, p.children[0]);
    }
  }

  /** Collapsing never moves a Param or a scan column to another node. */
  lemma {:induction false} RemoveLeavesScopes(p: Tree)
    requires WellFormed(p)
    ensures LeftOf(Remove(p), p)
    decreases p, 0
  {
    var q := p.(children := RemoveAll(p.children));
    RemoveAllLeaveScopes(p.children);
    assert LeftOf(q, p);
    if Redundant(q) {
      var c := q.children[0];
      RemoveFits(p);
      PushDownAllLeaves(q.tlist, c.tlist);
      AllSafeHaveNoLeaves(q.tlist);
      FewerLeaves(c, Collapse(q), p.children[0]);
    }
  }

  lemma {:induction false} RemoveAllLeaveScopes(ps: seq<Tree>)
    requires AllWellFormed(ps)
    ensures forall i | 0 <= i < |ps| :: LeftOf(RemoveAll(ps)[i], ps[i])
    decreases ps, 1
  {
    if ps != [] {
      RemoveLeavesScopes(ps[0]);
      RemoveAllLeaveScopes(ps[1..]);
      forall i | 0 <= i < |ps|
        ensures LeftOf(RemoveAll(ps)[i], ps[i])
      {
        if i > 0 {
          assert RemoveAll(ps)[i] == RemoveAll(ps[1..])[i - 1] && ps[i] == ps[1..][i - 1];
        }
      }
    }
  }

  lemma Single(p: Tree)
    requires WellFormed(p)
    ensures AllWellFormed([p]) && RemoveAll([p]) == [Remove(p)]
  {
    assert [p][1..] == [];
  }

  /** One pass need not reach a fixed point: merging can make the surviving Result collapsible. */
  lemma OnePassMayNotSuffice(free: Cost)
    ensures exists p :: WellFormed(p) && WellFormed(Remove(p)) && Remove(Remove(p)) != Remove(p)
  {
    var scan := Tree(3, OtherKind(0, true), [ConstNode(Null, 0)], [], [], [], free, []);
    var inner := Tree(2, ResultKind, [ParamNode(0)], [], [], [], free, [scan]);
    var outer := Tree(1, ResultKind, [ConstNode(Null, 1)], [], [], [], free, [inner]);
    Single(scan);
    assert Remove(scan) == scan;
    Single(inner);
    assert inner.tlist[1..] == [] && AnyOutOfScope(inner.tlist);
    assert Remove(inner) == inner;
    var once := inner.(tlist := [ConstNode(Null, 1)]);
    assert outer.tlist[1..] == [] && PushDownAll(outer.tlist, inner.tlist) == outer.tlist;
    assert Remove(outer) == once;
    assert Redundant(once);
    assert WellFormed(outer) && Remove(once).kind == scan.kind;
  }

  // ----- type modifiers of shared child expressions -----

  type Typmods = map<nat, int>

  function Typmod(tm: Typmods, cell: nat): int {
    if cell in tm then tm[cell] else -1
  }

  predicate IsLeaf(e: Node) {
    e.ConstNode? || e.VarNode?
  }

  /** What substitution writes: the child's Const or Var takes the modifier of the parent's Var. */
  function Retype(e: Node, child: seq<Node>, tm: Typmods): Typmods
    requires Fits(e, |child|)
    decreases e, 0
  {
    match e
    case VarNode(varno, attno, cell) =>
      if varno == OuterVar && attno > 0 && IsLeaf(child[attno - 1]) then
        tm[child[attno - 1].cell := Typmod(tm, cell)]
      else tm
    case Call(_, args) => RetypeAll(args, child, tm)
    case VolatileCall(_, args) => RetypeAll(args, child, tm)
    case SubPlanCall(_, args) => RetypeAll(args, child, tm)
    case SetCall(_, args) => RetypeAll(args, child, tm)
    case _ => tm
  }

  function RetypeAll(es: seq<Node>, child: seq<Node>, tm: Typmods): Typmods
    requires AllFit(es, |child|)
    decreases es, 1
  {
    if es == [] then tm else RetypeAll(es[1..], child, Retype(es[0], child, tm))
  }

  /** A reference to a child Const or Var: the parent's Var and the child's node. */
  datatype Ref = Ref(from: nat, to: nat)

  ghost function Refs(e: Node, child: seq<Node>): seq<Ref>
    requires Fits(e, |child|)
    decreases e, 0
  {
    match e
    case VarNode(varno, attno, cell) =>
      if varno == OuterVar && attno > 0 && IsLeaf(child[attno - 1]) then [Ref(cell, child[attno - 1].cell)] else []
    case Call(_, args) => AllRefs(args, child)
    case VolatileCall(_, args) => AllRefs(args, child)
    case SubPlanCall(_, args) => AllRefs(args, child)
    case SetCall(_, args) => AllRefs(args, child)
    case _ => []
  }

  ghost function AllRefs(es: seq<Node>, child: seq<Node>): seq<Ref>
    requires AllFit(es, |child|)
    decreases es, 1
  {
    if es == [] then [] else Refs(es[0], child) + AllRefs(es[1..], child)
  }

  ghost function Write(refs: seq<Ref>, tm: Typmods): Typmods {
    if refs == [] then tm else Write(refs[1..], tm[refs[0].to := Typmod(tm, refs[0].from)])
  }

  lemma {:induction false} WriteAppend(a: seq<Ref>, b: seq<Ref>, tm: Typmods)
    ensures Write(a + b, tm) == Write(b, Write(a, tm))
  {
    if a == [] {
      assert a + b == b;
    } else {
      assert (a + b)[1..] == a[1..] + b;
      WriteAppend(a[1..], b, tm[a[0].to := Typmod(tm, a[0].from)]);
    }
  }

  lemma {:induction false} RetypeWrites(e: Node, child: seq<Node>, tm: Typmods)
    requires Fits(e, |child|)
    ensures Retype(e, child, tm) == Write(Refs(e, child), tm)
    decreases e, 0
  {
    match e
    case VarNode(_, _, _) =>
    case Call(_, args) => RetypeAllWrites(args, child, tm);
    case VolatileCall(_, args) => RetypeAllWrites(args, child, tm);
    case SubPlanCall(_, args) => RetypeAllWrites(args, child, tm);
    case SetCall(_, args) => RetypeAllWrites(args, child, tm);
    case _ =>
  }

  lemma {:induction false} RetypeAllWrites(es: seq<Node>, child: seq<Node>, tm: Typmods)
    requires AllFit(es, |child|)
    ensures RetypeAll(es, child, tm) == Write(AllRefs(es, child), tm)
    decreases es, 1
  {
    if es != [] {
      RetypeWrites(es[0], child, tm);
      RetypeAllWrites(es[1..], child, Retype(es[0], child, tm));
      WriteAppend(Refs(es[0], child), AllRefs(es[1..], child), tm);
    }
  }

  lemma {:induction false} WriteElsewhere(refs: seq<Ref>, tm: Typmods, cell: nat)
    requires forall r | r in refs :: r.to != cell
    ensures Typmod(Write(refs, tm), cell) == Typmod(tm, cell)
  {
    if refs != [] {
      assert refs[0] in refs;
      WriteElsewhere(refs[1..], tm[refs[0].to := Typmod(tm, refs[0].from)], cell);
    }
  }

  /** The last write to a node wins. */
  lemma {:induction false} LastWrite(refs: seq<Ref>, tm: Typmods, cell: nat) returns (last: Ref)
    requires forall r, s | r in refs && s in refs :: r.from != s.to
    requires exists r :: r in refs && r.to == cell
    ensures last in refs && last.to == cell && Typmod(Write(refs, tm), cell) == Typmod(tm, last.from)
  {
    var first, rest := refs[0], refs[1..];
    assert first in refs;
    var tm1 := tm[first.to := Typmod(tm, first.from)];
    if r :| r in rest && r.to == cell {
      last := LastWrite(rest, tm1, cell);
      assert last in refs;
    } else {
      WriteElsewhere(rest, tm1, cell);
      last := first;
    }
  }

  ghost predicate Kept(refs: seq<Ref>, before: Typmods, after: Typmods) {
    forall r | r in refs :: Typmod(after, r.to) == Typmod(before, r.from)
  }

  /** References to one child node carry one modifier. */
  ghost predicate Agreeing(refs: seq<Ref>, tm: Typmods) {
    forall r, s | r in refs && s in refs && r.to == s.to :: Typmod(tm, r.from) == Typmod(tm, s.from)
  }

  /** Parent and child target lists are separate node trees. */
  ghost predicate Separate(refs: seq<Ref>) {
    forall r, s | r in refs && s in refs :: r.from != s.to
  }

  lemma WriteKeeps(refs: seq<Ref>, tm: Typmods)
    requires Separate(refs)
    ensures Agreeing(refs, tm) ==> Kept(refs, tm, Write(refs, tm))
  {
    if Agreeing(refs, tm) {
      forall r | r in refs
        ensures Typmod(Write(refs, tm), r.to) == Typmod(tm, r.from)
      {
        var last := LastWrite(refs, tm, r.to);
      }
    }
  }

  /**
    After a collapse every reference carries the modifier of the Var it replaces
    exactly when references to one child node agree on it.
   */
  lemma TypmodsKept(tlist: seq<Node>, child: seq<Node>, tm: Typmods)
    requires AllFit(tlist, |child|) && Separate(AllRefs(tlist, child))
    ensures Kept(AllRefs(tlist, child), tm, RetypeAll(tlist, child, tm)) <==> Agreeing(AllRefs(tlist, child), tm)
  {
    RetypeAllWrites(tlist, child, tm);
    WriteKeeps(AllRefs(tlist, child), tm);
  }

  /** Two columns made from one child column with different modifiers: the first gets the second's. */
  lemma TypmodLost()
    ensures var child := [VarNode(ScopeVar(1), 1, 0)];
            var tlist := [VarNode(OuterVar, 1, 1), VarNode(OuterVar, 1, 2)];
            var tm: Typmods := map[0 := -1, 1 := 5, 2 := 7];
            && AllFit(tlist, 1)
            && PushDownAll(tlist, child)[0] == child[0]
            && Typmod(RetypeAll(tlist, child, tm), child[0].cell) == 7 != Typmod(tm, tlist[0].cell)
  {
    var tlist := [VarNode(OuterVar, 1, 1), VarNode(OuterVar, 1, 2)];
    assert tlist[1..] == [VarNode(OuterVar, 1, 2)] && tlist[1..][1..] == [];
  }

  // ----- the modifiers after the whole pass -----

  /** What the pass writes: the subtrees in slot order, then the node's own collapse on its cleaned child. */
  function PassTypmods(p: Tree, tm: Typmods): Typmods
    requires WellFormed(p)
    decreases p, 0
  {
    var q := p.(children := RemoveAll(p.children));
    RemoveFits(p);
    var done := PassAllTypmods(p.children, tm);
    if Redundant(q) then RetypeAll(q.tlist, q.children[0].tlist, done) else done
  }

  function PassAllTypmods(ps: seq<Tree>, tm: Typmods): Typmods
    requires AllWellFormed(ps)
    decreases ps, 1
  {
    if ps == [] then tm else PassTypmods(ps[|ps| - 1], PassAllTypmods(ps[..|ps| - 1], tm))
  }

  /** Every node the pass writes to is a Const or Var of some target list below the root. */
  ghost predicate LeafCell(p: Tree, cell: nat)
    decreases p, 0
  {
    LeafIn(p.tlist, cell) || exists i | 0 <= i < |p.children| :: LeafCell(p.children[i], cell)
  }

  ghost predicate LeafIn(tlist: seq<Node>, cell: nat) {
    exists k | 0 <= k < |tlist| :: IsLeaf(tlist[k]) && tlist[k].cell == cell
  }

  lemma {:induction false} RetypeElsewhere(e: Node, child: seq<Node>, tm: Typmods, cell: nat)
    requires Fits(e, |child|) && !LeafIn(child, cell)
    ensures Typmod(Retype(e, child, tm), cell) == Typmod(tm, cell)
    decreases e, 0
  {
    match e
    case VarNode(_, _, _) =>
    case Call(_, args) => RetypeAllElsewhere(args, child, tm, cell);
    case VolatileCall(_, args) => RetypeAllElsewhere(args, child, tm, cell);
    case SubPlanCall(_, args) => RetypeAllElsewhere(args, child, tm, cell);
    case SetCall(_, args) => RetypeAllElsewhere(args, child, tm, cell);
    case _ =>
  }

  lemma {:induction false} RetypeAllElsewhere(es: seq<Node>, child: seq<Node>, tm: Typmods, cell: nat)
    requires AllFit(es, |child|) && !LeafIn(child, cell)
    ensures Typmod(RetypeAll(es, child, tm), cell) == Typmod(tm, cell)
    decreases es, 1
  {
    if es != [] {
      RetypeElsewhere(es[0], child, tm, cell);
      RetypeAllElsewhere(es[1..], child, Retype(es[0], child, tm), cell);
    }
  }

  lemma {:induction false} PushedLeaf(es: seq<Node>, child: seq<Node>, cell: nat)
    requires AllFit(es, |child|) && LeafIn(PushDownAll(es, child), cell)
    ensures LeafIn(es, cell) || LeafIn(child, cell)
  {
    var r := PushDownAll(es, child);
    var k :| 0 <= k < |r| && IsLeaf(r[k]) && r[k].cell == cell;
    if k == 0 {
      assert r[0] == PushDown(es[0], child);
    } else {
      assert PushDownAll(es[1..], child)[k - 1] == r[k];
      PushedLeaf(es[1..], child, cell);
      if LeafIn(es[1..], cell) {
        var j :| 0 <= j < |es[1..]| && IsLeaf(es[1..][j]) && es[1..][j].cell == cell;
        assert es[j + 1] == es[1..][j];
      }
    }
  }

  /** The leaves at the top of a cleaned tree were leaves of the tree. */
  lemma {:induction false} CleanedLeaf(p: Tree, cell: nat)
    requires WellFormed(p) && LeafIn(Remove(p).tlist, cell)
    ensures LeafCell(p, cell)
    decreases p, 0
  {
    var q := p.(children := RemoveAll(p.children));
    if Redundant(q) {
      RemoveFits(p);
      PushedLeaf(q.tlist, q.children[0].tlist, cell);
      if !LeafIn(p.tlist, cell) {
        assert WellFormed(p.children[0]) && q.children[0] == Remove(p.children[0]);
        CleanedLeaf(p.children[0], cell);
      }
    }
  }

  /**
    Over the whole pass a modifier changes only on a Const or Var of a target
    list below the root; every other expression node keeps its own.
   */
  lemma {:induction false} PassKeepsOthers(p: Tree, tm: Typmods, cell: nat)
    requires WellFormed(p) && forall i | 0 <= i < |p.children| :: !LeafCell(p.children[i], cell)
    ensures Typmod(PassTypmods(p, tm), cell) == Typmod(tm, cell)
    decreases p, 0
  {
    var q := p.(children := RemoveAll(p.children));
    PassAllKeepOthers(p.children, tm, cell);
    if Redundant(q) {
      RemoveFits(p);
      assert WellFormed(p.children[0]) && q.children[0] == Remove(p.children[0]);
      if LeafIn(q.children[0].tlist, cell) {
        CleanedLeaf(p.children[0], cell);
      }
      RetypeAllElsewhere(q.tlist, q.children[0].tlist, PassAllTypmods(p.children, tm), cell);
    }
  }

  lemma {:induction false} PassAllKeepOthers(ps: seq<Tree>, tm: Typmods, cell: nat)
    requires AllWellFormed(ps) && forall i | 0 <= i < |ps| :: !LeafCell(ps[i], cell)
    ensures Typmod(PassAllTypmods(ps, tm), cell) == Typmod(tm, cell)
    decreases ps, 1
  {
    if ps != [] {
      var before := ps[..|ps| - 1];
      PassAllKeepOthers(before, tm, cell);
      PassKeepsOthers(ps[|ps| - 1], PassAllTypmods(before, tm), cell);
    }
  }
}
