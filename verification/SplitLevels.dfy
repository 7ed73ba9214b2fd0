/**
  Levels in a split-off subquery. When a grouped window query is split, its range
  table moves one level down while its WITH list stays with the outer query, and
  references that leave the subquery gain a level: those at least one level above
  the subquery itself.
 */
module SplitLevels {
  import opened Queries
  import opened LevelsUp

  // ----- the walk over the subquery -----

  /** Vars and aggregates that belong to a query outside gain a level. */
  function Shift(e: Expr<nat>, n: nat): Expr<nat>
    decreases e, 0
  {
    match e
    case Var(k, varno, attno, nulled) => Var(if k > n then k + 1 else k, varno, attno, nulled)
    case Aggregate(k, args) => Aggregate(if k > n then k + 1 else k, ShiftAll(args, n))
    case Lit(_) => e
    case Apply(op, args) => Apply(op, ShiftAll(args, n))
    case SubLink(test, query) => SubLink(ShiftAll(test, n), ShiftQuery(query, n + 1))
  }

  function ShiftAll(es: seq<Expr<nat>>, n: nat): seq<Expr<nat>>
    decreases es, 1
  {
    if es == [] then [] else [Shift(es[0], n)] + ShiftAll(es[1..], n)
  }

  /** So do CTE references, but not those to the list of the query at depth 0. */
  function ShiftEntry(r: Entry<nat>, n: nat): Entry<nat>
    decreases r, 0
  {
    match r
    case Relation(_) => r
    case Derived(name, query) => Derived(name, ShiftQuery(query, n + 1))
    case CteRef(name, k) => CteRef(name, if k > n then k + 1 else k)
    case Computed(exprs) => Computed(ShiftAll(exprs, n))
  }

  function ShiftEntries(rs: seq<Entry<nat>>, n: nat): seq<Entry<nat>>
    decreases rs, 1
  {
    if rs == [] then [] else [ShiftEntry(rs[0], n)] + ShiftEntries(rs[1..], n)
  }

  function ShiftQuery(q: Query<nat>, n: nat): Query<nat>
    decreases q, 0
  {
    Query(ShiftEntries(q.ctes, n), ShiftEntries(q.rtable, n), ShiftAll(q.targets, n),
          ShiftAll(q.clauses, n), ShiftAll(q.having, n), q.groupingSets)
  }

  // ----- references to the split query's own WITH list -----

  /** No CTE reference inside names the WITH list of the query at depth 0. */
  predicate AvoidsList(e: Expr<nat>, n: nat)
    decreases e, 0
  {
    match e
    case Aggregate(_, args) => AllAvoidList(args, n)
    case Apply(_, args) => AllAvoidList(args, n)
    case SubLink(test, query) => AllAvoidList(test, n) && QueryAvoidsList(query, n + 1)
    case _ => true
  }

  predicate AllAvoidList(es: seq<Expr<nat>>, n: nat)
    decreases es, 1
  {
    es != [] ==> AvoidsList(es[0], n) && AllAvoidList(es[1..], n)
  }

  predicate EntryAvoidsList(r: Entry<nat>, n: nat)
    decreases r, 0
  {
    match r
    case Relation(_) => true
    case Derived(_, query) => QueryAvoidsList(query, n + 1)
    case CteRef(_, k) => k != n
    case Computed(exprs) => AllAvoidList(exprs, n)
  }

  predicate EntriesAvoidList(rs: seq<Entry<nat>>, n: nat)
    decreases rs, 1
  {
    rs != [] ==> EntryAvoidsList(rs[0], n) && EntriesAvoidList(rs[1..], n)
  }

  predicate QueryAvoidsList(q: Query<nat>, n: nat)
    decreases q, 0
  {
    && EntriesAvoidList(q.ctes, n) && EntriesAvoidList(q.rtable, n) && AllAvoidList(q.targets, n)
    && AllAvoidList(q.clauses, n) && AllAvoidList(q.having, n)
  }

  // ----- the shifted subquery binds as before -----

  lemma {:induction false} ShiftExpr(e: Expr<nat>, n: nat)
    ensures Resolve(Shift(e, n), Lowered, n) == Resolve(e, Original, n) <==> AvoidsList(e, n)
    decreases e, 0
  {
    match e
    case Aggregate(_, args) => ShiftExprs(args, n);
    case Apply(_, args) => ShiftExprs(args, n);
    case SubLink(test, query) => ShiftExprs(test, n); ShiftBinds(query, n + 1);
    case _ =>
  }

  lemma {:induction false} ShiftExprs(es: seq<Expr<nat>>, n: nat)
    ensures ResolveAll(ShiftAll(es, n), Lowered, n) == ResolveAll(es, Original, n) <==> AllAvoidList(es, n)
    decreases es, 1
  {
    if es != [] {
      ShiftExpr(es[0], n);
      ShiftExprs(es[1..], n);
      var low, rest := Shift(es[0], n), ShiftAll(es[1..], n);
      assert ([low] + rest)[1..] == rest;
      Cons(Resolve(low, Lowered, n), ResolveAll(rest, Lowered, n),
           Resolve(es[0], Original, n), ResolveAll(es[1..], Original, n));
    }
  }

  lemma {:induction false} ShiftOne(r: Entry<nat>, n: nat)
    ensures ResolveEntry(ShiftEntry(r, n), Lowered, n) == ResolveEntry(r, Original, n) <==> EntryAvoidsList(r, n)
    decreases r, 0
  {
    match r
    case Derived(_, query) => ShiftBinds(query, n + 1);
    case Computed(exprs) => ShiftExprs(exprs, n);
    case _ =>
  }

  lemma {:induction false} ShiftEach(rs: seq<Entry<nat>>, n: nat)
    ensures ResolveEntries(ShiftEntries(rs, n), Lowered, n) == ResolveEntries(rs, Original, n)
       <==> EntriesAvoidList(rs, n)
    decreases rs, 1
  {
    if rs != [] {
      ShiftOne(rs[0], n);
      ShiftEach(rs[1..], n);
      var low, rest := ShiftEntry(rs[0], n), ShiftEntries(rs[1..], n);
      assert ([low] + rest)[1..] == rest;
      Cons(ResolveEntry(low, Lowered, n), ResolveEntries(rest, Lowered, n),
           ResolveEntry(rs[0], Original, n), ResolveEntries(rs[1..], Original, n));
    }
  }

  lemma {:induction false} ShiftBinds(q: Query<nat>, n: nat)
    ensures ResolveQuery(ShiftQuery(q, n), Lowered, n) == ResolveQuery(q, Original, n) <==> QueryAvoidsList(q, n)
    decreases q, 0
  {
    ShiftEach(q.ctes, n);
    ShiftEach(q.rtable, n);
    ShiftExprs(q.targets, n);
    ShiftExprs(q.clauses, n);
    ShiftExprs(q.having, n);
  }

  // ----- the split -----

  /** What moves down: everything below the window functions, with the target list the outer query needs. */
  function BelowWindows(q: Query<nat>, targets: seq<Expr<nat>>): Query<nat> {
    q.(ctes := [], targets := targets)
  }

  /** The split query: it keeps its WITH list, and its only table is the shifted subquery. */
  function SplitOff(q: Query<nat>, targets: seq<Expr<nat>>): Query<nat> {
    Query(q.ctes, [Derived(LOWER, ShiftQuery(BelowWindows(q, targets), 0))], [], [], [], false)
  }

  /**
    Every reference inside the split-off subquery names what it named before
    exactly when none of them names the split query's own WITH list, and every
    reference inside that list does exactly when none reads the range table of its
    owner (SQL scoping never allows that).
   */
  lemma SplitBinds(q: Query<nat>, targets: seq<Expr<nat>>)
    ensures var u, below := SplitOff(q, targets), BelowWindows(q, targets);
            && |u.rtable| == 1 && u.rtable[0].Derived?
            && (ResolveQuery(u.rtable[0].query, Lowered, 0) == ResolveQuery(below, Original, 0)
                <==> QueryAvoidsList(below, 0))
            && (ResolveEntries(u.ctes, KeptCte, 0) == ResolveEntries(q.ctes, Original, 0)
                <==> EntriesAvoidOwner(q.ctes, 0))
  {
    ShiftBinds(BelowWindows(q, targets), 0);
    KeepEntries(q.ctes, 0);
  }

  /** A query over an entry of its own WITH list: in the split-off subquery the reference finds no list. */
  lemma OwnCteLost(cte: Query<nat>)
    ensures var q := Query([Derived(1, cte)], [CteRef(1, 0)], [], [], [], false);
            var below := SplitOff(q, []).rtable[0].query;
            && ResolveQuery(q, Original, 0).rtable == [CteRef(1, Own(0))]
            && ResolveQuery(below, Lowered, 0).rtable == [CteRef(1, NoList)]
  {
    var rs: seq<Entry<nat>> := [CteRef(1, 0)];
    assert rs[1..] == [];
    assert ShiftEntries(rs, 0) == rs;
    assert ResolveEntries(rs, Original, 0) == [ResolveEntry(rs[0], Original, 0)];
    assert ResolveEntries(rs, Lowered, 0) == [ResolveEntry(rs[0], Lowered, 0)];
  }
}
