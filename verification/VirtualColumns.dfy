/**
  Expansion of virtual generated columns: a Var that names such a column is
  replaced by its generation expression, at any nesting depth. The driver works
  relation by relation, each time walking the whole query; the reference below
  substitutes all columns of all enclosing queries in one walk.
 */
module VirtualColumns {
  import opened Queries

  /** Generation expressions of a relation's virtual columns, by attribute number. */
  type Columns = map<nat, Expr<nat>>

  type Catalog = map<nat, Columns>

  // ----- generation expressions -----

  /** An expression over columns of range-table entry `rt` of the same query. */
  predicate Over(e: Expr<nat>, rt: nat)
    decreases e, 0
  {
    match e
    case Var(k, varno, _, nulled) => k == 0 && varno == rt && !nulled
    case Lit(_) => true
    case Apply(_, args) => AllOver(args, rt)
    case _ => false
  }

  predicate AllOver(es: seq<Expr<nat>>, rt: nat)
    decreases es, 1
  {
    es != [] ==> Over(es[0], rt) && AllOver(es[1..], rt)
  }

  /** No column of the expression is itself virtual. */
  predicate Stored(e: Expr<nat>, cols: set<nat>)
    decreases e, 0
  {
    match e
    case Var(_, _, attno, _) => attno !in cols
    case Apply(_, args) => AllStored(args, cols)
    case _ => true
  }

  predicate AllStored(es: seq<Expr<nat>>, cols: set<nat>)
    decreases es, 1
  {
    es != [] ==> Stored(es[0], cols) && AllStored(es[1..], cols)
  }

  predicate GoodColumns(g: Columns, rt: nat) {
    forall a | a in g :: Over(g[a], rt) && Stored(g[a], g.Keys)
  }

  ghost predicate GoodCatalog(cat: Catalog) {
    forall relid | relid in cat :: GoodColumns(cat[relid], 1)
  }

  /** Points the columns of entry 1 at entry `rt`. */
  function Repoint(e: Expr<nat>, rt: nat): Expr<nat>
    decreases e, 0
  {
    match e
    case Var(k, varno, attno, nulled) => if k == 0 && varno == 1 then Var(k, rt, attno, nulled) else e
    case Apply(op, args) => Apply(op, RepointAll(args, rt))
    case _ => e
  }

  function RepointAll(es: seq<Expr<nat>>, rt: nat): seq<Expr<nat>>
    decreases es, 1
  {
    if es == [] then [] else [Repoint(es[0], rt)] + RepointAll(es[1..], rt)
  }

  function ColumnsAt(g: Columns, rt: nat): Columns {
    map a | a in g :: Repoint(g[a], rt)
  }

  lemma {:induction false} RepointGood(e: Expr<nat>, rt: nat, cols: set<nat>)
    requires Over(e, 1) && Stored(e, cols)
    ensures Over(Repoint(e, rt), rt) && Stored(Repoint(e, rt), cols)
    decreases e, 0
  {
    match e
    case Apply(_, args) => RepointAllGood(args, rt, cols);
    case _ =>
  }

  lemma {:induction false} RepointAllGood(es: seq<Expr<nat>>, rt: nat, cols: set<nat>)
    requires AllOver(es, 1) && AllStored(es, cols)
    ensures AllOver(RepointAll(es, rt), rt) && AllStored(RepointAll(es, rt), cols)
    decreases es, 1
  {
    if es != [] {
      RepointGood(es[0], rt, cols);
      RepointAllGood(es[1..], rt, cols);
      assert RepointAll(es, rt)[1..] == RepointAll(es[1..], rt);
    }
  }

  lemma ColumnsAtGood(g: Columns, rt: nat)
    requires GoodColumns(g, 1)
    ensures GoodColumns(ColumnsAt(g, rt), rt)
  {
    assert ColumnsAt(g, rt).Keys == g.Keys;
    forall a | a in g
      ensures Over(Repoint(g[a], rt), rt) && Stored(Repoint(g[a], rt), g.Keys)
    {
      RepointGood(g[a], rt, g.Keys);
    }
  }

  /** Adjusts a generation expression for use `n` levels further in. */
  function Raise(e: Expr<nat>, n: nat): Expr<nat>
    decreases e, 0
  {
    match e
    case Var(k, varno, attno, nulled) => Var(k + n, varno, attno, nulled)
    case Apply(op, args) => Apply(op, RaiseAll(args, n))
    case _ => e
  }

  function RaiseAll(es: seq<Expr<nat>>, n: nat): seq<Expr<nat>>
    decreases es, 1
  {
    if es == [] then [] else [Raise(es[0], n)] + RaiseAll(es[1..], n)
  }

  // ----- the walk for one relation -----

  /** Replaces columns `g` of entry `rt` of the query `n` levels up; nulled Vars are left for the caller. */
  function Replace(e: Expr<nat>, rt: nat, g: Columns, n: nat): Expr<nat>
    decreases e, 0
  {
    match e
    case Var(k, varno, attno, nulled) =>
      if k == n && varno == rt && attno in g && !nulled then Raise(g[attno], n) else e
    case Aggregate(k, args) => Aggregate(k, ReplaceAll(args, rt, g, n))
    case Lit(_) => e
    case Apply(op, args) => Apply(op, ReplaceAll(args, rt, g, n))
    case SubLink(test, query) => SubLink(ReplaceAll(test, rt, g, n), ReplaceQuery(query, rt, g, n + 1))
  }

  function ReplaceAll(es: seq<Expr<nat>>, rt: nat, g: Columns, n: nat): seq<Expr<nat>>
    decreases es, 1
  {
    if es == [] then [] else [Replace(es[0], rt, g, n)] + ReplaceAll(es[1..], rt, g, n)
  }

  function ReplaceEntry(r: Entry<nat>, rt: nat, g: Columns, n: nat): Entry<nat>
    decreases r, 0
  {
    match r
    case Derived(name, query) => Derived(name, ReplaceQuery(query, rt, g, n + 1))
    case Computed(exprs) => Computed(ReplaceAll(exprs, rt, g, n))
    case _ => r
  }

  function ReplaceEntries(rs: seq<Entry<nat>>, rt: nat, g: Columns, n: nat): seq<Entry<nat>>
    decreases rs, 1
  {
    if rs == [] then [] else [ReplaceEntry(rs[0], rt, g, n)] + ReplaceEntries(rs[1..], rt, g, n)
  }

  function ReplaceQuery(q: Query<nat>, rt: nat, g: Columns, n: nat): Query<nat>
    decreases q, 0
  {
    Query(ReplaceEntries(q.ctes, rt, g, n), ReplaceEntries(q.rtable, rt, g, n), ReplaceAll(q.targets, rt, g, n),
          ReplaceAll(q.clauses, rt, g, n), ReplaceAll(q.having, rt, g, n), q.groupingSets)
  }

  // ----- the walk replaces exactly the right references -----

  /** A generation expression with its columns read from the query `at`. */
  ghost function Place(e: Expr<nat>, at: Target): Expr<Target>
    decreases e, 0
  {
    match e
    case Var(_, varno, attno, nulled) => Var(at, varno, attno, nulled)
    case Aggregate(_, args) => Aggregate(at, PlaceAll(args, at))
    case Lit(v) => Lit(v)
    case Apply(op, args) => Apply(op, PlaceAll(args, at))
    case SubLink(_, _) => Lit(0)
  }

  ghost function PlaceAll(es: seq<Expr<nat>>, at: Target): seq<Expr<Target>>
    decreases es, 1
  {
    if es == [] then [] else [Place(es[0], at)] + PlaceAll(es[1..], at)
  }

  /** Substitution on resolved trees, where no level numbers can be captured. */
  ghost function Put(e: Expr<Target>, rt: nat, g: Columns): Expr<Target>
    decreases e, 0
  {
    match e
    case Var(at, varno, attno, nulled) =>
      if at == Own(0) && varno == rt && attno in g && !nulled then Place(g[attno], Own(0)) else e
    case Aggregate(at, args) => Aggregate(at, PutAll(args, rt, g))
    case Lit(_) => e
    case Apply(op, args) => Apply(op, PutAll(args, rt, g))
    case SubLink(test, query) => SubLink(PutAll(test, rt, g), PutQuery(query, rt, g))
  }

  ghost function PutAll(es: seq<Expr<Target>>, rt: nat, g: Columns): seq<Expr<Target>>
    decreases es, 1
  {
    if es == [] then [] else [Put(es[0], rt, g)] + PutAll(es[1..], rt, g)
  }

  ghost function PutEntry(r: Entry<Target>, rt: nat, g: Columns): Entry<Target>
    decreases r, 0
  {
    match r
    case Derived(name, query) => Derived(name, PutQuery(query, rt, g))
    case Computed(exprs) => Computed(PutAll(exprs, rt, g))
    case _ => r
  }

  ghost function PutEntries(rs: seq<Entry<Target>>, rt: nat, g: Columns): seq<Entry<Target>>
    decreases rs, 1
  {
    if rs == [] then [] else [PutEntry(rs[0], rt, g)] + PutEntries(rs[1..], rt, g)
  }

  ghost function PutQuery(q: Query<Target>, rt: nat, g: Columns): Query<Target>
    decreases q, 0
  {
    Query(PutEntries(q.ctes, rt, g), PutEntries(q.rtable, rt, g), PutAll(q.targets, rt, g),
          PutAll(q.clauses, rt, g), PutAll(q.having, rt, g), q.groupingSets)
  }

  lemma {:induction false} RaisePlaces(e: Expr<nat>, rt: nat, n: nat)
    requires Over(e, rt)
    ensures Resolve(Raise(e, n), Original, n) == Place(e, Own(0))
    decreases e, 0
  {
    match e
    case Apply(_, args) => RaiseAllPlaces(args, rt, n);
    case _ =>
  }

  lemma {:induction false} RaiseAllPlaces(es: seq<Expr<nat>>, rt: nat, n: nat)
    requires AllOver(es, rt)
    ensures ResolveAll(RaiseAll(es, n), Original, n) == PlaceAll(es, Own(0))
    decreases es, 1
  {
    if es != [] {
      RaisePlaces(es[0], rt, n);
      RaiseAllPlaces(es[1..], rt, n);
      assert RaiseAll(es, n)[1..] == RaiseAll(es[1..], n);
    }
  }

  lemma {:induction false} ReplacePuts(e: Expr<nat>, rt: nat, g: Columns, n: nat)
    requires GoodColumns(g, rt)
    ensures Resolve(Replace(e, rt, g, n), Original, n) == Put(Resolve(e, Original, n), rt, g)
    decreases e, 0
  {
    match e
    case Var(k, varno, attno, nulled) =>
      if k == n && varno == rt && attno in g && !nulled {
        RaisePlaces(g[attno], rt, n);
      }
    case Aggregate(_, args) => ReplaceAllPuts(args, rt, g, n);
    case Lit(_) =>
    case Apply(_, args) => ReplaceAllPuts(args, rt, g, n);
    case SubLink(test, query) => ReplaceAllPuts(test, rt, g, n); ReplaceQueryPuts(query, rt, g, n + 1);
  }

  lemma {:induction false} ReplaceAllPuts(es: seq<Expr<nat>>, rt: nat, g: Columns, n: nat)
    requires GoodColumns(g, rt)
    ensures ResolveAll(ReplaceAll(es, rt, g, n), Original, n) == PutAll(ResolveAll(es, Original, n), rt, g)
    decreases es, 1
  {
    if es != [] {
      ReplacePuts(es[0], rt, g, n);
      ReplaceAllPuts(es[1..], rt, g, n);
      assert ReplaceAll(es, rt, g, n)[1..] == ReplaceAll(es[1..], rt, g, n);
      assert ResolveAll(es, Original, n)[1..] == ResolveAll(es[1..], Original, n);
    }
  }

  lemma {:induction false} ReplaceEntryPuts(r: Entry<nat>, rt: nat, g: Columns, n: nat)
    requires GoodColumns(g, rt)
    ensures ResolveEntry(ReplaceEntry(r, rt, g, n), Original, n) == PutEntry(ResolveEntry(r, Original, n), rt, g)
    decreases r, 0
  {
    match r
    case Derived(_, query) => ReplaceQueryPuts(query, rt, g, n + 1);
    case Computed(exprs) => ReplaceAllPuts(exprs, rt, g, n);
    case _ =>
  }

  lemma {:induction false} ReplaceEntriesPut(rs: seq<Entry<nat>>, rt: nat, g: Columns, n: nat)
    requires GoodColumns(g, rt)
    ensures ResolveEntries(ReplaceEntries(rs, rt, g, n), Original, n)
         == PutEntries(ResolveEntries(rs, Original, n), rt, g)
    decreases rs, 1
  {
    if rs != [] {
      ReplaceEntryPuts(rs[0], rt, g, n);
      ReplaceEntriesPut(rs[1..], rt, g, n);
      assert ReplaceEntries(rs, rt, g, n)[1..] == ReplaceEntries(rs[1..], rt, g, n);
      assert ResolveEntries(rs, Original, n)[1..] == ResolveEntries(rs[1..], Original, n);
    }
  }

  /**
    The walk is capture-free: at any depth it replaces exactly the references
    that resolve to a virtual column of entry `rt` of the chosen query, by the
    generation expression over that same entry; all others keep their binding.
   */
  lemma {:induction false} ReplaceQueryPuts(q: Query<nat>, rt: nat, g: Columns, n: nat)
    requires GoodColumns(g, rt)
    ensures ResolveQuery(ReplaceQuery(q, rt, g, n), Original, n) == PutQuery(ResolveQuery(q, Original, n), rt, g)
    decreases q, 0
  {
    ReplaceEntriesPut(q.ctes, rt, g, n);
    ReplaceEntriesPut(q.rtable, rt, g, n);
    ReplaceAllPuts(q.targets, rt, g, n);
    ReplaceAllPuts(q.clauses, rt, g, n);
    ReplaceAllPuts(q.having, rt, g, n);
  }
}
