/**
  Pushing a query one level down: the query becomes the only range-table entry of
  a new upper query, which takes over its WITH list. References to ancestors are
  renumbered in two walks, one for Vars and one for CTE references.
 */
module LevelsUp {
  import opened Queries

  // ----- the walk over Vars -----

  /** Vars that name a query outside gain a level; aggregates keep theirs. */
  function Incr(e: Expr<nat>, n: nat): Expr<nat>
    decreases e, 0
  {
    match e
    case Var(k, varno, attno, nulled) => Var(if k > n then k + 1 else k, varno, attno, nulled)
    case Aggregate(k, args) => Aggregate(k, IncrAll(args, n))
    case Lit(v) => e
    case Apply(op, args) => Apply(op, IncrAll(args, n))
    case SubLink(test, query) => SubLink(IncrAll(test, n), IncrQuery(query, n + 1, true))
  }

  function IncrAll(es: seq<Expr<nat>>, n: nat): seq<Expr<nat>>
    decreases es, 1
  {
    if es == [] then [] else [Incr(es[0], n)] + IncrAll(es[1..], n)
  }

  function IncrEntry(r: Entry<nat>, n: nat): Entry<nat>
    decreases r, 0
  {
    match r
    case Derived(name, query) => Derived(name, IncrQuery(query, n + 1, true))
    case Computed(exprs) => Computed(IncrAll(exprs, n))
    case _ => r
  }

  function IncrEntries(rs: seq<Entry<nat>>, n: nat): seq<Entry<nat>>
    decreases rs, 1
  {
    if rs == [] then [] else [IncrEntry(rs[0], n)] + IncrEntries(rs[1..], n)
  }

  function IncrQuery(q: Query<nat>, n: nat, fixTargets: bool): Query<nat>
    decreases q, 0
  {
    Query(IncrEntries(q.ctes, n), IncrEntries(q.rtable, n), if fixTargets then IncrAll(q.targets, n) else q.targets,
          IncrAll(q.clauses, n), IncrAll(q.having, n), q.groupingSets)
  }

  // ----- the walk over CTE references -----

  function Fix(e: Expr<nat>, n: nat): Expr<nat>
    decreases e, 0
  {
    match e
    case Var(_, _, _, _) => e
    case Aggregate(k, args) => Aggregate(k, FixAll(args, n))
    case Lit(_) => e
    case Apply(op, args) => Apply(op, FixAll(args, n))
    case SubLink(test, query) => SubLink(FixAll(test, n), FixQuery(query, n + 1, true))
  }

  function FixAll(es: seq<Expr<nat>>, n: nat): seq<Expr<nat>>
    decreases es, 1
  {
    if es == [] then [] else [Fix(es[0], n)] + FixAll(es[1..], n)
  }

  /** References to the chosen query's own WITH list or to an ancestor's gain a level. */
  function FixEntry(r: Entry<nat>, n: nat): Entry<nat>
    decreases r, 0
  {
    match r
    case Relation(_) => r
    case Derived(name, query) => Derived(name, FixQuery(query, n + 1, true))
    case CteRef(name, k) => CteRef(name, if k >= n then k + 1 else k)
    case Computed(exprs) => Computed(FixAll(exprs, n))
  }

  function FixEntries(rs: seq<Entry<nat>>, n: nat): seq<Entry<nat>>
    decreases rs, 1
  {
    if rs == [] then [] else [FixEntry(rs[0], n)] + FixEntries(rs[1..], n)
  }

  function FixQuery(q: Query<nat>, n: nat, fixTargets: bool): Query<nat>
    decreases q, 0
  {
    Query(FixEntries(q.ctes, n), FixEntries(q.rtable, n), if fixTargets then FixAll(q.targets, n) else q.targets,
          FixAll(q.clauses, n), FixAll(q.having, n), q.groupingSets)
  }

  /** The name given to the new range-table entry. */
  const LOWER: nat := 0

  function ConvertToDerivedTable(q: Query<nat>, fixTargets: bool, fixHaving: bool): Query<nat> {
    var copy := q.(ctes := [], having := if fixHaving then q.having else []);
    var fixed := FixQuery(IncrQuery(copy, 0, fixTargets), 0, fixTargets);
    var lower := fixed.(having := if fixHaving then fixed.having else q.having);
    Query(q.ctes, [Derived(LOWER, lower)], [], [], [], false)
  }

  // ----- aggregates of outer levels -----

  /** No aggregate belongs to a query outside: each has at most `n` levels up at depth n. */
  predicate LocalAggs(e: Expr<nat>, n: nat)
    decreases e, 0
  {
    match e
    case Aggregate(k, args) => k <= n && AllLocalAggs(args, n)
    case Apply(_, args) => AllLocalAggs(args, n)
    case SubLink(test, query) => AllLocalAggs(test, n) && QueryLocalAggs(query, n + 1)
    case _ => true
  }

  predicate AllLocalAggs(es: seq<Expr<nat>>, n: nat)
    decreases es, 1
  {
    es != [] ==> LocalAggs(es[0], n) && AllLocalAggs(es[1..], n)
  }

  predicate EntryLocalAggs(r: Entry<nat>, n: nat)
    decreases r, 0
  {
    match r
    case Derived(_, query) => QueryLocalAggs(query, n + 1)
    case Computed(exprs) => AllLocalAggs(exprs, n)
    case _ => true
  }

  predicate EntriesLocalAggs(rs: seq<Entry<nat>>, n: nat)
    decreases rs, 1
  {
    rs != [] ==> EntryLocalAggs(rs[0], n) && EntriesLocalAggs(rs[1..], n)
  }

  predicate QueryLocalAggs(q: Query<nat>, n: nat)
    decreases q, 0
  {
    && EntriesLocalAggs(q.ctes, n) && EntriesLocalAggs(q.rtable, n) && AllLocalAggs(q.targets, n)
    && AllLocalAggs(q.clauses, n) && AllLocalAggs(q.having, n)
  }

  // ----- the lowered query binds as before -----

  lemma {:induction false} LowerExpr(e: Expr<nat>, n: nat)
    ensures Resolve(Fix(Incr(e, n), n), Lowered, n) == Resolve(e, Original, n) <==> LocalAggs(e, n)
    decreases e, 0
  {
    match e
    case Aggregate(_, args) => LowerAll(args, n);
    case Apply(_, args) => LowerAll(args, n);
    case SubLink(test, query) => LowerAll(test, n); LowerQuery(query, n + 1);
    case _ =>
  }

  lemma {:induction false} LowerAll(es: seq<Expr<nat>>, n: nat)
    ensures ResolveAll(FixAll(IncrAll(es, n), n), Lowered, n) == ResolveAll(es, Original, n) <==> AllLocalAggs(es, n)
    decreases es, 1
  {
    if es != [] {
      LowerExpr(es[0], n);
      LowerAll(es[1..], n);
      var low := Fix(Incr(es[0], n), n);
      var rest := FixAll(IncrAll(es[1..], n), n);
      assert IncrAll(es, n)[1..] == IncrAll(es[1..], n);
      assert FixAll(IncrAll(es, n), n) == [low] + rest;
      assert ([low] + rest)[1..] == rest;
      Cons(Resolve(low, Lowered, n), ResolveAll(rest, Lowered, n), Resolve(es[0], Original, n),
           ResolveAll(es[1..], Original, n));
    }
  }

  lemma Cons<T>(a: T, s: seq<T>, b: T, t: seq<T>)
    ensures [a] + s == [b] + t <==> a == b && s == t
  {
    if [a] + s == [b] + t {
      assert a == ([a] + s)[0] == ([b] + t)[0] == b;
      assert s == ([a] + s)[1..] == ([b] + t)[1..] == t;
    }
  }

  lemma {:induction false} LowerEntry(r: Entry<nat>, n: nat)
    ensures ResolveEntry(FixEntry(IncrEntry(r, n), n), Lowered, n) == ResolveEntry(r, Original, n) <==>
              EntryLocalAggs(r, n)
    decreases r, 0
  {
    match r
    case Derived(_, query) => LowerQuery(query, n + 1);
    case Computed(exprs) => LowerAll(exprs, n);
    case _ =>
  }

  lemma {:induction false} LowerEntries(rs: seq<Entry<nat>>, n: nat)
    ensures ResolveEntries(FixEntries(IncrEntries(rs, n), n), Lowered, n) == ResolveEntries(rs, Original, n)
       <==> EntriesLocalAggs(rs, n)
    decreases rs, 1
  {
    if rs != [] {
      LowerEntry(rs[0], n);
      LowerEntries(rs[1..], n);
      var low := FixEntry(IncrEntry(rs[0], n), n);
      var rest := FixEntries(IncrEntries(rs[1..], n), n);
      assert IncrEntries(rs, n)[1..] == IncrEntries(rs[1..], n);
      assert FixEntries(IncrEntries(rs, n), n) == [low] + rest;
      assert ([low] + rest)[1..] == rest;
      Cons(ResolveEntry(low, Lowered, n), ResolveEntries(rest, Lowered, n),
           ResolveEntry(rs[0], Original, n), ResolveEntries(rs[1..], Original, n));
    }
  }

  lemma {:induction false} LowerQuery(q: Query<nat>, n: nat)
    ensures ResolveQuery(FixQuery(IncrQuery(q, n, true), n, true), Lowered, n) == ResolveQuery(q, Original, n)
       <==> QueryLocalAggs(q, n)
    decreases q, 0
  {
    LowerEntries(q.ctes, n);
    LowerEntries(q.rtable, n);
    LowerAll(q.targets, n);
    LowerAll(q.clauses, n);
    LowerAll(q.having, n);
  }

  // ----- the WITH list that the upper query keeps -----

  /** No Var or aggregate reads the range table of the query that owns the WITH list. */
  predicate AvoidsOwner(e: Expr<nat>, n: nat)
    decreases e, 0
  {
    match e
    case Var(k, _, _, _) => k != n
    case Aggregate(k, args) => k != n && AllAvoidOwner(args, n)
    case Lit(_) => true
    case Apply(_, args) => AllAvoidOwner(args, n)
    case SubLink(test, query) => AllAvoidOwner(test, n) && QueryAvoidsOwner(query, n + 1)
  }

  predicate AllAvoidOwner(es: seq<Expr<nat>>, n: nat)
    decreases es, 1
  {
    es != [] ==> AvoidsOwner(es[0], n) && AllAvoidOwner(es[1..], n)
  }

  predicate EntryAvoidsOwner(r: Entry<nat>, n: nat)
    decreases r, 0
  {
    match r
    case Derived(_, query) => QueryAvoidsOwner(query, n + 1)
    case Computed(exprs) => AllAvoidOwner(exprs, n)
    case _ => true
  }

  predicate EntriesAvoidOwner(rs: seq<Entry<nat>>, n: nat)
    decreases rs, 1
  {
    rs != [] ==> EntryAvoidsOwner(rs[0], n) && EntriesAvoidOwner(rs[1..], n)
  }

  predicate QueryAvoidsOwner(q: Query<nat>, n: nat)
    decreases q, 0
  {
    && EntriesAvoidOwner(q.ctes, n) && EntriesAvoidOwner(q.rtable, n) && AllAvoidOwner(q.targets, n)
    && AllAvoidOwner(q.clauses, n) && AllAvoidOwner(q.having, n)
  }

  lemma {:induction false} KeepExpr(e: Expr<nat>, n: nat)
    ensures Resolve(e, KeptCte, n) == Resolve(e, Original, n) <==> AvoidsOwner(e, n)
    decreases e, 0
  {
    match e
    case Aggregate(_, args) => KeepAll(args, n);
    case Apply(_, args) => KeepAll(args, n);
    case SubLink(test, query) => KeepAll(test, n); KeepQuery(query, n + 1);
    case _ =>
  }

  lemma {:induction false} KeepAll(es: seq<Expr<nat>>, n: nat)
    ensures ResolveAll(es, KeptCte, n) == ResolveAll(es, Original, n) <==> AllAvoidOwner(es, n)
    decreases es, 1
  {
    if es != [] {
      KeepExpr(es[0], n);
      KeepAll(es[1..], n);
      Cons(Resolve(es[0], KeptCte, n), ResolveAll(es[1..], KeptCte, n),
           Resolve(es[0], Original, n), ResolveAll(es[1..], Original, n));
    }
  }

  lemma {:induction false} KeepEntry(r: Entry<nat>, n: nat)
    ensures ResolveEntry(r, KeptCte, n) == ResolveEntry(r, Original, n) <==> EntryAvoidsOwner(r, n)
    decreases r, 0
  {
    match r
    case Derived(_, query) => KeepQuery(query, n + 1);
    case Computed(exprs) => KeepAll(exprs, n);
    case _ =>
  }

  lemma {:induction false} KeepEntries(rs: seq<Entry<nat>>, n: nat)
    ensures ResolveEntries(rs, KeptCte, n) == ResolveEntries(rs, Original, n) <==> EntriesAvoidOwner(rs, n)
    decreases rs, 1
  {
    if rs != [] {
      KeepEntry(rs[0], n);
      KeepEntries(rs[1..], n);
      Cons(ResolveEntry(rs[0], KeptCte, n), ResolveEntries(rs[1..], KeptCte, n),
           ResolveEntry(rs[0], Original, n), ResolveEntries(rs[1..], Original, n));
    }
  }

  lemma {:induction false} KeepQuery(q: Query<nat>, n: nat)
    ensures ResolveQuery(q, KeptCte, n) == ResolveQuery(q, Original, n) <==> QueryAvoidsOwner(q, n)
    decreases q, 0
  {
    KeepEntries(q.ctes, n);
    KeepEntries(q.rtable, n);
    KeepAll(q.targets, n);
    KeepAll(q.clauses, n);
    KeepAll(q.having, n);
  }

  // ----- the conversion -----

  /**
    With both fix flags on, every reference inside the pushed-down query names
    what it named before exactly when no aggregate belongs to an outer query, and
    every reference inside the WITH list does exactly when none reads the range
    table of its owner (SQL scoping never allows that).
   */
  lemma ConvertBinds(q: Query<nat>)
    ensures var u := ConvertToDerivedTable(q, true, true);
            && u.rtable[0].Derived? && |u.rtable| == 1
            && (ResolveQuery(u.rtable[0].query, Lowered, 0) == ResolveQuery(q.(ctes := []), Original, 0)
                <==> QueryLocalAggs(q.(ctes := []), 0))
            && (ResolveEntries(u.ctes, KeptCte, 0) == ResolveEntries(q.ctes, Original, 0)
                <==> EntriesAvoidOwner(q.ctes, 0))
  {
    LowerQuery(q.(ctes := []), 0);
    KeepEntries(q.ctes, 0);
  }

  /** `max(t.a)` of the query around, used in a subquery that is pushed down, ends up with the upper query. */
  lemma OuterAggregateMoves()
    ensures var q := Query([], [], [Aggregate(1, [])], [], [], false);
            var lower := ConvertToDerivedTable(q, true, true).rtable[0].query;
            && ResolveQuery(q, Original, 0).targets == [Aggregate(Free(0), [])]
            && ResolveQuery(lower, Lowered, 0).targets == [Aggregate(Upper, [])]
  {
    var q: Query<nat> := Query([], [], [Aggregate(1, [])], [], [], false);
    var ts := q.targets;
    assert ts[1..] == [] && IncrAll(ts, 0) == ts && FixAll(ts, 0) == ts;
    assert ConvertToDerivedTable(q, true, true).rtable[0].query == q;
    assert ResolveAll(ts, Original, 0) == [Resolve(ts[0], Original, 0)];
    assert ResolveAll(ts, Lowered, 0) == [Resolve(ts[0], Lowered, 0)];
  }
}
