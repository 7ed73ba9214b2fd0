/**
  The redundant-Result pass on mutable plan nodes: child slots, target lists,
  costs and the type modifiers of shared expression nodes are overwritten in
  place. The tree it leaves is the one `RedundantResults.Remove` defines.
 */
module ResultPass {
  import opened ResultPlans
  import opened RedundantResults
  import opened ResultScopes

  /** Type modifiers of expression nodes, by node. */
  class TypmodStore {
    var tm: Typmods

    constructor (tm: Typmods)
      ensures this.tm == tm
    {
      this.tm := tm;
    }

    /** Substitutes child expressions and corrects their modifiers on the way. */
    method PushDownExpr(e: Node, child: seq<Node>) returns (r: Node)
      requires Fits(e, |child|)
      modifies this
      ensures r == PushDown(e, child) && tm == Retype(e, child, old(tm))
      decreases e, 0
    {
      match e
      case VarNode(varno, attno, cell) =>
        if varno == OuterVar && attno > 0 {
          r := child[attno - 1];
          if IsLeaf(r) {
            tm := tm[r.cell := Typmod(tm, cell)];
          }
        } else {
          r := e;
        }
      case Call(fn, args) => var es := PushDownExprs(args, child); r := Call(fn, es);
      case VolatileCall(fn, args) => var es := PushDownExprs(args, child); r := VolatileCall(fn, es);
      case SubPlanCall(plan, args) => var es := PushDownExprs(args, child); r := SubPlanCall(plan, es);
      case SetCall(fn, args) => var es := PushDownExprs(args, child); r := SetCall(fn, es);
      case _ => r := e;
    }

    method PushDownExprs(es: seq<Node>, child: seq<Node>) returns (r: seq<Node>)
      requires AllFit(es, |child|)
      modifies this
      ensures r == PushDownAll(es, child) && tm == RetypeAll(es, child, old(tm))
      decreases es, 1
    {
      if es == [] {
        return [];
      }
      var h := PushDownExpr(es[0], child);
      var t := PushDownExprs(es[1..], child);
      r := [h] + t;
    }
  }

  class TreeNode {
    const id: nat
    const kind: Kind
    const quals: seq<Node>
    const constQual: seq<Node>
    const initPlans: seq<nat>
    var tlist: seq<Node>
    var cost: Cost
    var children: seq<TreeNode>

    /** The tree rooted here, and the nodes it is made of. */
    ghost var tree: Tree
    ghost var repr: set<object>

    ghost predicate Valid()
      reads this, repr
      ensures Valid() ==> this in repr
      decreases repr
    {
      && this in repr && |tree.children| == |children|
      && tree == Tree(id, kind, tlist, quals, constQual, initPlans, cost, tree.children)
      && (forall i | 0 <= i < |children| ::
            && children[i] in repr && children[i].repr <= repr - {this}
            && children[i].Valid() && children[i].tree == tree.children[i])
      && (forall i, j | 0 <= i < j < |children| :: children[i].repr !! children[j].repr)
    }

    constructor Leaf(id: nat, kind: Kind, tlist: seq<Node>, quals: seq<Node>, constQual: seq<Node>,
                     initPlans: seq<nat>, cost: Cost)
      ensures Valid() && fresh(repr)
      ensures tree == Tree(id, kind, tlist, quals, constQual, initPlans, cost, [])
    {
      this.id, this.kind, this.quals, this.constQual, this.initPlans := id, kind, quals, constQual, initPlans;
      this.tlist, this.cost, this.children := tlist, cost, [];
      tree := Tree(id, kind, tlist, quals, constQual, initPlans, cost, []);
      repr := {this};
    }
  }

  lemma {:induction false} RemovedAt(ps: seq<Tree>, i: nat)
    requires AllWellFormed(ps) && i < |ps|
    ensures RemoveAll(ps)[i] == Remove(ps[i])
    decreases |ps|
  {
    if i > 0 {
      RemovedAt(ps[1..], i - 1);
    }
  }

  /** Cleans the tree in one slot and puts the result there; the trees in the other slots stay as they are. */
  method CleanSlot(p: TreeNode, i: nat, store: TypmodStore)
    requires p.Valid() && store !in p.repr && i < |p.children| && WellFormed(p.tree.children[i])
    modifies p.repr, store
    ensures p.Valid() && p.repr == old(p.repr)
    ensures p.tree == old(p.tree).(children := old(p.tree).children[i := Remove(old(p.tree).children[i])])
    ensures store.tm == PassTypmods(old(p.tree).children[i], old(store.tm))
    decreases p.repr, 0
  {
    ghost var area := p.children[i].repr;
    var d := Walk(p.children[i], store);
    SetSlot(p, i, d, area);
  }

  /** Everything `Valid` asks of `p` except for slot i, whose place in the footprint is `area`. */
  ghost predicate ValidBut(p: TreeNode, i: nat, area: set<object>)
    reads p, p.repr
  {
    && p in p.repr && area <= p.repr - {p} && i < |p.children| == |p.tree.children|
    && p.tree == Tree(p.id, p.kind, p.tlist, p.quals, p.constQual, p.initPlans, p.cost, p.tree.children)
    && (forall j | 0 <= j < |p.children| && j != i ::
          && p.children[j] in p.repr && p.children[j].repr <= p.repr - {p}
          && p.children[j].Valid() && p.children[j].tree == p.tree.children[j] && p.children[j].repr !! area)
    && (forall j, k | 0 <= j < k < |p.children| && j != i && k != i :: p.children[j].repr !! p.children[k].repr)
  }

  method SetSlot(p: TreeNode, i: nat, d: TreeNode, ghost area: set<object>)
    requires ValidBut(p, i, area) && d.Valid() && d.repr <= area
    modifies p`children, p`tree
    ensures p.Valid() && p.children == old(p.children)[i := d]
    ensures p.tree == old(p.tree).(children := old(p.tree).children[i := d.tree])
  {
    p.children := p.children[i := d];
    p.tree := p.tree.(children := p.tree.children[i := d.tree]);
    forall j | 0 <= j < |p.children|
      ensures p.children[j] in p.repr && p.children[j].repr <= p.repr - {p}
      ensures p.children[j].Valid() && p.children[j].tree == p.tree.children[j]
    {
      if j != i {
        assert old(p.children)[j] == p.children[j];
      }
    }
  }

  /** The slots before i are clean, the others as they were. */
  ghost predicate CleanUpTo(now: seq<Tree>, before: seq<Tree>, i: nat)
    requires AllWellFormed(before)
  {
    && |now| == |before|
    && (forall j | 0 <= j < i && j < |now| :: now[j] == Remove(before[j]))
    && (forall j | i <= j < |now| :: now[j] == before[j])
  }

  lemma CleanNextSlot(now: seq<Tree>, before: seq<Tree>, i: nat)
    requires AllWellFormed(before) && CleanUpTo(now, before, i) && i < |before|
    ensures now[i] == before[i] && CleanUpTo(now[i := Remove(before[i])], before, i + 1)
  {
  }

  lemma AllClean(now: seq<Tree>, before: seq<Tree>)
    requires AllWellFormed(before) && CleanUpTo(now, before, |before|)
    ensures now == RemoveAll(before)
  {
    forall j | 0 <= j < |before|
      ensures now[j] == RemoveAll(before)[j]
    {
      RemovedAt(before, j);
    }
  }

  /** Where the loop over the slots stands: the tree and the modifiers before slot i. */
  ghost predicate Reached(now: Tree, store: Typmods, was: Tree, tm: Typmods, i: nat)
    requires AllWellFormed(was.children) && i <= |was.children|
  {
    && now == was.(children := now.children) && CleanUpTo(now.children, was.children, i)
    && store == PassAllTypmods(was.children[..i], tm)
  }

  lemma ReachedNext(now: Tree, store: Typmods, was: Tree, tm: Typmods, i: nat)
    requires AllWellFormed(was.children) && i < |was.children| && Reached(now, store, was, tm, i)
    ensures now.children[i] == was.children[i]
    ensures Reached(now.(children := now.children[i := Remove(was.children[i])]), PassTypmods(was.children[i], store),
                    was, tm, i + 1)
  {
    CleanNextSlot(now.children, was.children, i);
    assert was.children[..i + 1][..i] == was.children[..i];
  }

  lemma ReachedLast(now: Tree, store: Typmods, was: Tree, tm: Typmods)
    requires AllWellFormed(was.children) && Reached(now, store, was, tm, |was.children|)
    ensures now == was.(children := RemoveAll(was.children)) && store == PassAllTypmods(was.children, tm)
  {
    AllClean(now.children, was.children);
    assert was.children[..|was.children|] == was.children;
  }

  /** Cleans the children of a node, slot by slot. */
  method RecurseChildren(p: TreeNode, store: TypmodStore)
    requires p.Valid() && store !in p.repr && AllWellFormed(p.tree.children)
    modifies p.repr, store
    ensures p.Valid() && p.repr == old(p.repr)
    ensures p.tree == old(p.tree).(children := RemoveAll(old(p.tree).children))
    ensures store.tm == PassAllTypmods(old(p.tree).children, old(store.tm))
    decreases p.repr, 1
  {
    ghost var was, tm := p.tree, store.tm;
    for i := 0 to |p.children|
      invariant p.Valid() && p.repr == old(p.repr) && |p.children| == |was.children|
      invariant Reached(p.tree, store.tm, was, tm, i)
    {
      ReachedNext(p.tree, store.tm, was, tm, i);
      CleanSlot(p, i, store);
    }
    ReachedLast(p.tree, store.tm, was, tm);
  }

  /**
    Returns the node to use in place of `p`: itself, or its child once it has
    absorbed the projection. The tree and the modifiers left behind are those of
    the whole pass.
   */
  method Walk(p: TreeNode, store: TypmodStore) returns (q: TreeNode)
    requires p.Valid() && store !in p.repr && WellFormed(p.tree)
    modifies p.repr, store
    ensures q.Valid() && q.repr <= old(p.repr)
    ensures q.tree == Remove(old(p.tree))
    ensures store.tm == PassTypmods(old(p.tree), old(store.tm))
    decreases p.repr, 2
  {
    RecurseChildren(p, store);
    RemoveFits(old(p.tree));
    if && p.kind.ResultKind?
       && p.constQual == [] && p.initPlans == [] && p.quals == []
       && !AnyReturnsSet(p.tlist) && SafeToPush(p.tlist)
       && p.children != []
    {
      var c := p.children[0];
      assert c.tree == p.tree.children[0];
      if !AnyReturnsSet(c.tlist) && !AnyHasEffects(c.tlist) && Projects(c.kind) {
        assert Redundant(p.tree);
        var pushed := store.PushDownExprs(p.tlist, c.tlist);
        Absorb(c, pushed, p.cost);
        return c;
      }
    }
    q := p;
  }

  method Absorb(c: TreeNode, tlist: seq<Node>, cost: Cost)
    requires c.Valid()
    modifies c
    ensures c.Valid() && c.repr == old(c.repr)
    ensures c.tree == old(c.tree).(tlist := tlist, cost := cost)
  {
    c.tlist, c.cost := tlist, cost;
    c.tree := c.tree.(tlist := tlist, cost := cost);
  }
}
