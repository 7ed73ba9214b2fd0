/**
  Query trees. `R` says how a reference names the query it belongs to: a number
  of levels up in the trees the parser builds, or the query itself once the
  reference has been resolved.
 */
module Queries {

  datatype Expr<R> =
    | Var(at: R, varno: nat, attno: nat, nulled: bool)
    | Aggregate(at: R, args: seq<Expr<R>>)
    | Lit(v: int)
    | Apply(op: nat, args: seq<Expr<R>>)
    | SubLink(test: seq<Expr<R>>, query: Query<R>)

  /** A range-table entry, or an entry of a WITH list (always `Derived`). */
  datatype Entry<R> =
    | Relation(relid: nat)
    | Derived(name: nat, query: Query<R>)
    | CteRef(name: nat, at: R)
    | Computed(exprs: seq<Expr<R>>)

  datatype Query<R> = Query(ctes: seq<Entry<R>>, rtable: seq<Entry<R>>, targets: seq<Expr<R>>,
                            clauses: seq<Expr<R>>, having: seq<Expr<R>>, groupingSets: bool)

  /**
    The queries around a point inside a chosen query: `Own(0)` is the chosen
    query, `Own(n)` the one n levels further in, `Upper` a query wrapped around
    it, `Free(k)` its k-th original ancestor. `NoList` is the emptied WITH list.
   */
  datatype Target = Own(n: nat) | Upper | Free(k: nat) | NoList

  /**
    How the chosen query is embedded: as it was, below a new upper query, or as
    a WITH entry kept by the upper query.
   */
  datatype Layout = Original | Lowered | KeptCte

  /** The range table that a reference `k` levels up at depth n reads. */
  function TableAt(layout: Layout, n: nat, k: nat): Target {
    match layout
    case Original => if k <= n then Own(n - k) else Free(k - n - 1)
    case Lowered => if k <= n then Own(n - k) else if k == n + 1 then Upper else Free(k - n - 2)
    case KeptCte => if k < n then Own(n - k) else if k == n then Upper else Free(k - n - 1)
  }

  /**
    The WITH list that a reference `k` levels up at depth n reads; the chosen
    query's list moves to the upper query.
   */
  function ListAt(layout: Layout, n: nat, k: nat): Target {
    match layout
    case Original => if k <= n then Own(n - k) else Free(k - n - 1)
    case Lowered => if k < n then Own(n - k) else if k == n then NoList
                    else if k == n + 1 then Own(0) else Free(k - n - 2)
    case KeptCte => if k <= n then Own(n - k) else Free(k - n - 1)
  }

  function Resolve(e: Expr<nat>, layout: Layout, n: nat): Expr<Target>
    decreases e, 0
  {
    match e
    case Var(k, varno, attno, nulled) => Var(TableAt(layout, n, k), varno, attno, nulled)
    case Aggregate(k, args) => Aggregate(TableAt(layout, n, k), ResolveAll(args, layout, n))
    case Lit(v) => Lit(v)
    case Apply(op, args) => Apply(op, ResolveAll(args, layout, n))
    case SubLink(test, query) => SubLink(ResolveAll(test, layout, n), ResolveQuery(query, layout, n + 1))
  }

  function ResolveAll(es: seq<Expr<nat>>, layout: Layout, n: nat): seq<Expr<Target>>
    decreases es, 1
  {
    if es == [] then [] else [Resolve(es[0], layout, n)] + ResolveAll(es[1..], layout, n)
  }

  function ResolveEntry(r: Entry<nat>, layout: Layout, n: nat): Entry<Target>
    decreases r, 0
  {
    match r
    case Relation(relid) => Relation(relid)
    case Derived(name, query) => Derived(name, ResolveQuery(query, layout, n + 1))
    case CteRef(name, k) => CteRef(name, ListAt(layout, n, k))
    case Computed(exprs) => Computed(ResolveAll(exprs, layout, n))
  }

  function ResolveEntries(rs: seq<Entry<nat>>, layout: Layout, n: nat): seq<Entry<Target>>
    decreases rs, 1
  {
    if rs == [] then [] else [ResolveEntry(rs[0], layout, n)] + ResolveEntries(rs[1..], layout, n)
  }

  /** Every reference in a query n levels inside the chosen one replaced by what it names. */
  function ResolveQuery(q: Query<nat>, layout: Layout, n: nat): Query<Target>
    decreases q, 0
  {
    Query(ResolveEntries(q.ctes, layout, n), ResolveEntries(q.rtable, layout, n), ResolveAll(q.targets, layout, n),
          ResolveAll(q.clauses, layout, n), ResolveAll(q.having, layout, n), q.groupingSets)
  }
}
