/**
  Queries that mix window functions with grouping are split in two: a grouped
  subquery computes keys, aggregates, GROUPING values and sublinks, and an
  outer query applies the window functions to its rows. This module gives the
  meaning of both forms and shows that a rewritten expression reads from the
  subquery's row what the original computed.
 */
module GroupedWindows {
  import opened Options

  datatype Expr =
    | Const(v: int)
    | Var(level: nat, varno: nat, attno: int)
    | Agg(fn: nat, args: seq<Expr>)
    | Grouping(refs: seq<int>)
    | SubLink(body: nat, test: seq<Expr>)
    | Op(op: nat, args: seq<Expr>)
    | Window(win: nat, args: seq<Expr>)

  datatype Target = Target(expr: Expr, resno: nat, ref: int)

  datatype RangeEntry = Join(aliases: seq<Expr>) | Plain

  // ----- meaning -----

  /** What one group offers to the expressions evaluated for it; `grouping` sees the grouping expressions named. */
  datatype Group = Group(vars: (nat, nat, int) -> int, aggs: (nat, seq<Expr>) -> int, grouping: seq<Expr> -> int,
                         sublinks: (nat, seq<int>) -> int, ops: (nat, seq<int>) -> int)

  type WindowValue = (nat, seq<Expr>) -> int

  /** The first target entry carrying a sort/group reference. */
  function KeyExpr(ts: seq<Target>, ref: int): Expr {
    if ts == [] then Const(0) else if ts[0].ref == ref then ts[0].expr else KeyExpr(ts[1..], ref)
  }

  function KeyExprs(ts: seq<Target>, refs: seq<int>): seq<Expr> {
    if refs == [] then [] else [KeyExpr(ts, refs[0])] + KeyExprs(ts, refs[1..])
  }

  /** Value of an expression in a group; `ts` is the target list its GROUPING references name. */
  function Eval(e: Expr, g: Group, ts: seq<Target>, w: WindowValue): int
    decreases e, 0
  {
    match e
    case Const(v) => v
    case Var(level, varno, attno) => g.vars(level, varno, attno)
    case Agg(fn, args) => g.aggs(fn, args)
    case Grouping(refs) => g.grouping(KeyExprs(ts, refs))
    case SubLink(body, test) => g.sublinks(body, EvalAll(test, g, ts, w))
    case Op(op, args) => g.ops(op, EvalAll(args, g, ts, w))
    case Window(win, args) => w(win, args)
  }

  function EvalAll(es: seq<Expr>, g: Group, ts: seq<Target>, w: WindowValue): seq<int>
    decreases es, 1
  {
    if es == [] then [] else [Eval(es[0], g, ts, w)] + EvalAll(es[1..], g, ts, w)
  }

  /** Where no window value exists: below the window functions. */
  const NO_WINDOWS: WindowValue := (win, args) => 0

  function Exprs(ts: seq<Target>): seq<Expr> {
    if ts == [] then [] else [ts[0].expr] + Exprs(ts[1..])
  }

  /** Partition and order keys name target entries; frame offsets are expressions. */
  datatype WindowClause = WindowClause(keys: seq<int>, offsets: seq<Expr>)

  /** A window function's value at row i, from the keys and arguments at every row. */
  type Frames = (nat, nat, seq<seq<int>>, seq<int>, seq<seq<int>>) -> int

  function PerGroup(es: seq<Expr>, gs: seq<Group>, ts: seq<Target>): seq<seq<int>> {
    if gs == [] then [] else [EvalAll(es, gs[0], ts, NO_WINDOWS)] + PerGroup(es, gs[1..], ts)
  }

  function WindowAt(f: Frames, cs: seq<WindowClause>, outer: seq<Target>, gs: seq<Group>, ts: seq<Target>, i: nat,
                    win: nat, args: seq<Expr>): int
    requires i < |gs|
  {
    if win >= |cs| then 0
    else
      f(win, i, PerGroup(KeyExprs(outer, cs[win].keys), gs, ts), EvalAll(cs[win].offsets, gs[i], ts, NO_WINDOWS),
        PerGroup(args, gs, ts))
  }

  /** Row i of a query over a sequence of groups. */
  function QueryRow(f: Frames, outer: seq<Target>, cs: seq<WindowClause>, gs: seq<Group>, ts: seq<Target>,
                    i: nat): seq<int>
    requires i < |gs|
  {
    EvalAll(Exprs(outer), gs[i], ts, (win: nat, args: seq<Expr>) => WindowAt(f, cs, outer, gs, ts, i, win, args))
  }

  /** What the outer query sees of a group: the subquery's row, as range-table entry 1. */
  function Seen(g: Group, sub: seq<Target>): Group {
    var row := EvalAll(Exprs(sub), g, sub, NO_WINDOWS);
    g.(vars := (level: nat, varno: nat, attno: int) =>
         if level == 0 && varno == 1 && 1 <= attno <= |row| then row[attno - 1] else g.vars(level, varno, attno))
  }

  function SeenAll(gs: seq<Group>, sub: seq<Target>): seq<Group> {
    if gs == [] then [] else [Seen(gs[0], sub)] + SeenAll(gs[1..], sub)
  }

  // ----- aliases of join columns -----

  function FromEntries(ts: seq<Target>, varno: nat, attno: int): seq<Expr> {
    if ts == [] then []
    else
      (if ts[0].expr.Var? && ts[0].expr.varno == varno && ts[0].expr.attno == attno then [ts[0].expr] else [])
      + FromEntries(ts[1..], varno, attno)
  }

  function FromAliases(aliases: seq<Expr>, v: Expr, varno: nat, attno: int, ts: seq<Target>): seq<Expr> {
    if aliases == [] then []
    else
      (if aliases[0] == v then FromEntries(ts, varno, attno) else []) +
          FromAliases(aliases[1..], v, varno, attno + 1, ts)
  }

  function FromJoins(rt: seq<RangeEntry>, v: Expr, varno: nat, ts: seq<Target>): seq<Expr> {
    if rt == [] then []
    else
      (if rt[0].Join? then FromAliases(rt[0].aliases, v, varno, 1, ts) else []) + FromJoins(rt[1..], v, varno + 1, ts)
  }

  predicate InTable(rt: seq<RangeEntry>, varno: nat) {
    1 <= varno <= |rt|
  }

  /** Other spellings of a column under which it may have been grouped. */
  function Alternates(v: Expr, rt: seq<RangeEntry>, ts: seq<Target>): seq<Expr>
    requires v.Var?
  {
    if !InTable(rt, v.varno) then []
    else
      match rt[v.varno - 1]
      case Join(aliases) =>
        if 1 <= v.attno <= |aliases| && aliases[v.attno - 1].Var? then [aliases[v.attno - 1]] else []
      case Plain => FromJoins(rt, v, 1, ts)
  }

  predicate Listed(e: Expr, ts: seq<Target>) {
    e in Exprs(ts)
  }

  function FirstListed(es: seq<Expr>, ts: seq<Target>): Option<Expr> {
    if es == [] then None else if Listed(es[0], ts) then Some(es[0]) else FirstListed(es[1..], ts)
  }

  /** The grouping key a column is taken to be. */
  function Pick(v: Expr, rt: seq<RangeEntry>, ts: seq<Target>): Option<Expr>
    requires v.Var?
  {
    if Listed(v, ts) then Some(v) else FirstListed(Alternates(v, rt, ts), ts)
  }

  /** The alias columns of a join name columns of the same query. */
  ghost predicate LocalAliases(rt: seq<RangeEntry>) {
    forall j, k | 0 <= j < |rt| && rt[j].Join? && 0 <= k < |rt[j].aliases| ::
      rt[j].aliases[k].Var? ==> rt[j].aliases[k].level == 0
  }

  /** A join's alias column has the value of the column it stands for. */
  ghost predicate JoinsAgree(g: Group, rt: seq<RangeEntry>) {
    forall j, k | 0 <= j < |rt| && rt[j].Join? && 0 <= k < |rt[j].aliases| && rt[j].aliases[k].Var? ::
      var a := rt[j].aliases[k];
      g.vars(0, j + 1, k + 1) == g.vars(a.level, a.varno, a.attno)
  }

  /** Key n is a column of join j + 1 that stands, as its alias k, for the column v. */
  predicate Spelled(v: Expr, rt: seq<RangeEntry>, ts: seq<Target>, j: nat, k: nat, n: nat) {
    && j < |rt| && rt[j].Join? && k < |rt[j].aliases| && rt[j].aliases[k] == v
    && n < |ts| && SpelledAs(ts[n].expr, j + 1, k + 1)
  }

  predicate SpelledAs(e: Expr, varno: nat, attno: int) {
    e.Var? && e.varno == varno && e.attno == attno
  }

  /** No other spelling comes earlier, by join, then alias, then key. */
  ghost predicate FirstSpelling(v: Expr, rt: seq<RangeEntry>, ts: seq<Target>, j: nat, k: nat, n: nat) {
    && Spelled(v, rt, ts, j, k, n)
    && forall j2: nat, k2: nat, n2: nat | Spelled(v, rt, ts, j2, k2, n2) ::
         j < j2 || (j == j2 && (k < k2 || (k == k2 && n <= n2)))
  }

  /**
    A column that would be taken for one of another query level: no key itself,
    it is either an outer column spelled like a local join column whose original
    is a key, or a local column whose first spelling among the keys is an outer
    column.
   */
  ghost predicate Captured(v: Expr, rt: seq<RangeEntry>, ts: seq<Target>)
    requires v.Var?
  {
    && !Listed(v, ts) && InTable(rt, v.varno)
    && match rt[v.varno - 1] {
         case Join(aliases) =>
           v.level != 0 && 1 <= v.attno <= |aliases| && aliases[v.attno - 1].Var? && Listed(aliases[v.attno - 1], ts)
         case Plain => exists j: nat, k: nat, n: nat :: FirstSpelling(v, rt, ts, j, k, n) && ts[n].expr.level != 0
       }
  }

  lemma {:induction false} FirstEntry(ts: seq<Target>, varno: nat, attno: int) returns (n: nat)
    ensures FromEntries(ts, varno, attno) == [] ==> forall m | 0 <= m < |ts| :: !SpelledAs(ts[m].expr, varno, attno)
    ensures FromEntries(ts, varno, attno) != [] ==>
              && n < |ts| && SpelledAs(ts[n].expr, varno, attno) && FromEntries(ts, varno, attno)[0] == ts[n].expr
              && forall m | 0 <= m < n :: !SpelledAs(ts[m].expr, varno, attno)
  {
    n := 0;
    if ts != [] && !SpelledAs(ts[0].expr, varno, attno) {
      var m := FirstEntry(ts[1..], varno, attno);
      n := m + 1;
      assert FromEntries(ts, varno, attno) == FromEntries(ts[1..], varno, attno);
    }
  }

  lemma {:induction false} FirstAlias(aliases: seq<Expr>, v: Expr, varno: nat, attno: int, ts: seq<Target>)
    returns (k: nat, n: nat)
    ensures FromAliases(aliases, v, varno, attno, ts) == [] ==>
              forall i, m | 0 <= i < |aliases| && aliases[i] == v && 0 <= m < |ts| ::
                  !SpelledAs(ts[m].expr, varno, attno + i)
    ensures FromAliases(aliases, v, varno, attno, ts) != [] ==>
              && k < |aliases| && aliases[k] == v && n < |ts| && SpelledAs(ts[n].expr, varno, attno + k)
              && FromAliases(aliases, v, varno, attno, ts)[0] == ts[n].expr
              && (forall m | 0 <= m < n :: !SpelledAs(ts[m].expr, varno, attno + k))
              && (forall i, m | 0 <= i < k && aliases[i] == v && 0 <= m < |ts| ::
                  !SpelledAs(ts[m].expr, varno, attno + i))
  {
    k, n := 0, 0;
    if aliases != [] {
      var first := FirstEntry(ts, varno, attno);
      if aliases[0] == v && FromEntries(ts, varno, attno) != [] {
        n := first;
      } else {
        var i, m := FirstAlias(aliases[1..], v, varno, attno + 1, ts);
        k, n := i + 1, m;
        assert FromAliases(aliases, v, varno, attno, ts) == FromAliases(aliases[1..], v, varno, attno + 1, ts);
      }
    }
  }

  lemma {:induction false} FirstJoin(rt: seq<RangeEntry>, v: Expr, varno: nat, ts: seq<Target>)
    returns (j: nat, k: nat, n: nat)
    ensures FromJoins(rt, v, varno, ts) != [] ==>
              && j < |rt| && rt[j].Join? && k < |rt[j].aliases| && rt[j].aliases[k] == v
              && n < |ts| && SpelledAs(ts[n].expr, varno + j, k + 1) && FromJoins(rt, v, varno, ts)[0] == ts[n].expr
              && (forall m | 0 <= m < n :: !SpelledAs(ts[m].expr, varno + j, k + 1))
              && (forall i, m | 0 <= i < k && rt[j].aliases[i] == v && 0 <= m < |ts| ::
                  !SpelledAs(ts[m].expr, varno + j, i + 1))
              && (forall h, i, m | 0 <= h < j && rt[h].Join? && 0 <= i < |rt[h].aliases| && rt[h].aliases[i] == v &&
                  0 <= m < |ts| ::
                    !SpelledAs(ts[m].expr, varno + h, i + 1))
  {
    j, k, n := 0, 0, 0;
    if rt != [] {
      var here := if rt[0].Join? then FromAliases(rt[0].aliases, v, varno, 1, ts) else [];
      if rt[0].Join? {
        k, n := FirstAlias(rt[0].aliases, v, varno, 1, ts);
      }
      if here == [] {
        var h, i, m := FirstJoin(rt[1..], v, varno + 1, ts);
        j, k, n := h + 1, i, m;
        assert FromJoins(rt, v, varno, ts) == FromJoins(rt[1..], v, varno + 1, ts);
      }
    }
  }

  lemma {:induction false} EntriesAt(ts: seq<Target>, varno: nat, attno: int, x: Expr)
    requires x in FromEntries(ts, varno, attno)
    ensures x.Var? && x.varno == varno && x.attno == attno && Listed(x, ts)
  {
    if x !in FromEntries(ts[1..], varno, attno) {
      assert x == ts[0].expr;
    } else {
      EntriesAt(ts[1..], varno, attno, x);
    }
  }

  lemma {:induction false} AliasesAt(aliases: seq<Expr>, v: Expr, varno: nat, attno: int, ts: seq<Target>, x: Expr)
    returns (k: nat)
    requires x in FromAliases(aliases, v, varno, attno, ts)
    ensures k < |aliases| && aliases[k] == v && x.Var? && x.varno == varno && x.attno == attno + k && Listed(x, ts)
  {
    if aliases[0] == v && x in FromEntries(ts, varno, attno) {
      EntriesAt(ts, varno, attno, x);
      k := 0;
    } else {
      var j := AliasesAt(aliases[1..], v, varno, attno + 1, ts, x);
      k := j + 1;
    }
  }

  lemma {:induction false} JoinsAt(rt: seq<RangeEntry>, v: Expr, varno: nat, ts: seq<Target>, x: Expr)
    returns (j: nat, k: nat)
    requires x in FromJoins(rt, v, varno, ts)
    ensures j < |rt| && rt[j].Join? && k < |rt[j].aliases| && rt[j].aliases[k] == v
    ensures x.Var? && x.varno == varno + j && x.attno == k + 1 && Listed(x, ts)
  {
    if rt[0].Join? && x in FromAliases(rt[0].aliases, v, varno, 1, ts) {
      j := 0;
      k := AliasesAt(rt[0].aliases, v, varno, 1, ts, x);
    } else {
      var i;
      i, k := JoinsAt(rt[1..], v, varno + 1, ts, x);
      j := i + 1;
    }
  }

  lemma {:induction false} FirstListedIn(es: seq<Expr>, ts: seq<Target>)
    ensures match FirstListed(es, ts)
            case Some(x) => x in es && Listed(x, ts)
            case None => forall x | x in es :: !Listed(x, ts)
  {
    if es != [] && !Listed(es[0], ts) {
      FirstListedIn(es[1..], ts);
    }
  }

  /** The key picked for a column is the column itself or a join alias of it. */
  lemma PickAlias(v: Expr, rt: seq<RangeEntry>, ts: seq<Target>, x: Expr) returns (join: nat, k: nat)
    requires v.Var? && Pick(v, rt, ts) == Some(x) && x != v
    ensures x.Var? && join < |rt| && rt[join].Join? && k < |rt[join].aliases|
    ensures || (v.varno == join + 1 && v.attno == k + 1 && rt[join].aliases[k] == x)
            || (x.varno == join + 1 && x.attno == k + 1 && rt[join].aliases[k] == v)
  {
    FirstListedIn(Alternates(v, rt, ts), ts);
    match rt[v.varno - 1]
    case Join(aliases) => join, k := v.varno - 1, v.attno - 1;
    case Plain => join, k := JoinsAt(rt, v, 1, ts, x);
  }

  /** Two groups that tell apart what a confused lookup would merge. */
  function Levels(): Group {
    Group((level, varno, attno) => if level == 0 then 0 else 1,
          (fn, args) => 0, refs => 0, (body, args) => 0, (op, args) => 0)
  }

  /** A key other than the column itself is at the column's level exactly when the column is not captured. */
  lemma PickLevel(v: Expr, rt: seq<RangeEntry>, ts: seq<Target>, x: Expr)
    requires LocalAliases(rt) && v.Var? && Pick(v, rt, ts) == Some(x) && x != v
    ensures x.Var? && (v.level == 0 || x.level == 0) && (Captured(v, rt, ts) <==> v.level != 0 || x.level != 0)
  {
    var join, alias := PickAlias(v, rt, ts, x);
    if rt[v.varno - 1].Plain? {
      var alts := FromJoins(rt, v, 1, ts);
      FirstListedIn(alts, ts);
      var j, k, n := FirstJoin(rt, v, 1, ts);
      assert alts != [];
      var _, _ := JoinsAt(rt, v, 1, ts, alts[0]);
      assert x == alts[0] == ts[n].expr;
      FirstIsFirst(v, rt, ts, j, k, n);
    } else {
      FirstListedIn(Alternates(v, rt, ts), ts);
      assert x == rt[v.varno - 1].aliases[v.attno - 1] && x.level == 0;
    }
  }

  lemma FirstIsFirst(v: Expr, rt: seq<RangeEntry>, ts: seq<Target>, j: nat, k: nat, n: nat)
    requires Spelled(v, rt, ts, j, k, n)
    requires forall m | 0 <= m < n :: !SpelledAs(ts[m].expr, 1 + j, k + 1)
    requires forall i, m | 0 <= i < k && rt[j].aliases[i] == v && 0 <= m < |ts| :: !SpelledAs(ts[m].expr, 1 + j, i + 1)
    requires forall h, i, m | 0 <= h < j && rt[h].Join? && 0 <= i < |rt[h].aliases| && rt[h].aliases[i] == v &&
               0 <= m < |ts| ::
               !SpelledAs(ts[m].expr, 1 + h, i + 1)
    ensures FirstSpelling(v, rt, ts, j, k, n)
    ensures forall j2: nat, k2: nat, n2: nat | FirstSpelling(v, rt, ts, j2, k2, n2) :: n2 == n
  {
    forall j2: nat, k2: nat, n2: nat | Spelled(v, rt, ts, j2, k2, n2)
      ensures j < j2 || (j == j2 && (k < k2 || (k == k2 && n <= n2)))
    {
      assert SpelledAs(ts[n2].expr, 1 + j2, k2 + 1);
    }
  }

  /**
    The key picked for a column has the column's value in every group, exactly
    when the column is not captured.
   */
  lemma PickExact(v: Expr, rt: seq<RangeEntry>, ts: seq<Target>, x: Expr)
    requires LocalAliases(rt) && v.Var? && Pick(v, rt, ts) == Some(x)
    ensures x.Var?
    ensures (forall g: Group | JoinsAgree(g, rt) ::
             g.vars(v.level, v.varno, v.attno) == g.vars(x.level, x.varno, x.attno))
            <==> !Captured(v, rt, ts)
  {
    if x != v {
      PickLevel(v, rt, ts, x);
      var join, k := PickAlias(v, rt, ts, x);
      if v.level == 0 && x.level == 0 {
        forall g: Group | JoinsAgree(g, rt)
          ensures g.vars(v.level, v.varno, v.attno) == g.vars(x.level, x.varno, x.attno)
        {
          assert rt[join].aliases[k].Var?;
        }
      } else {
        var g := Levels();
        assert JoinsAgree(g, rt);
        assert g.vars(v.level, v.varno, v.attno) != g.vars(x.level, x.varno, x.attno);
      }
    } else {
      FirstListedIn(Alternates(v, rt, ts), ts);
    }
  }

  /** An outer query's column spelled like a local join column is read from the local grouping key. */
  lemma OuterColumnCaptured()
    ensures var rt := [Plain, Join([Var(0, 1, 1)])];
            var keys := [Target(Var(0, 1, 1), 1, 1)];
            Pick(Var(1, 2, 1), rt, keys) == Some(Var(0, 1, 1)) && Captured(Var(1, 2, 1), rt, keys)
  {
    var rt := [Plain, Join([Var(0, 1, 1)])];
    var keys := [Target(Var(0, 1, 1), 1, 1)];
    assert Exprs(keys) == [Var(0, 1, 1)] + Exprs(keys[1..]);
    assert Exprs(keys[1..]) == [];
    assert Alternates(Var(1, 2, 1), rt, keys) == [Var(0, 1, 1)];
  }

  // ----- moving a node below the window functions -----

  predicate WindowFree(e: Expr)
    decreases e, 0
  {
    match e
    case SubLink(_, test) => AllWindowFree(test)
    case Op(_, args) => AllWindowFree(args)
    case Window(_, _) => false
    case _ => true
  }

  predicate AllWindowFree(es: seq<Expr>)
    decreases es, 1
  {
    es != [] ==> WindowFree(es[0]) && AllWindowFree(es[1..])
  }

  /** Every GROUPING inside names the same grouping expressions in both target lists. */
  predicate Kept(e: Expr, a: seq<Target>, b: seq<Target>)
    decreases e, 0
  {
    match e
    case Grouping(refs) => KeyExprs(a, refs) == KeyExprs(b, refs)
    case SubLink(_, test) => AllKept(test, a, b)
    case Op(_, args) => AllKept(args, a, b)
    case _ => true
  }

  predicate AllKept(es: seq<Expr>, a: seq<Target>, b: seq<Target>)
    decreases es, 1
  {
    es != [] ==> Kept(es[0], a, b) && AllKept(es[1..], a, b)
  }

  lemma {:induction false} FreeMoves(e: Expr, g: Group, a: seq<Target>, b: seq<Target>, w: WindowValue, u: WindowValue)
    requires WindowFree(e) && Kept(e, a, b)
    ensures Eval(e, g, a, w) == Eval(e, g, b, u)
    decreases e, 0
  {
    match e
    case SubLink(_, test) => AllFreeMoves(test, g, a, b, w, u);
    case Op(_, args) => AllFreeMoves(args, g, a, b, w, u);
    case _ =>
  }

  lemma {:induction false} AllFreeMoves(es: seq<Expr>, g: Group, a: seq<Target>, b: seq<Target>, w: WindowValue,
                                        u: WindowValue)
    requires AllWindowFree(es) && AllKept(es, a, b)
    ensures EvalAll(es, g, a, w) == EvalAll(es, g, b, u)
    decreases es, 1
  {
    if es != [] {
      FreeMoves(es[0], g, a, b, w, u);
      AllFreeMoves(es[1..], g, a, b, w, u);
    }
  }

  // ----- a group that forgets nothing -----

  function Zigzag(x: int): nat {
    if x >= 0 then 2 * x else -2 * x - 1
  }

  function Pair(a: nat, b: nat): (p: nat)
    ensures p > 0
  {
    if a == 0 then 2 * b + 1 else 2 * Pair(a - 1, b)
  }

  lemma {:induction false} PairInjective(a: nat, b: nat, c: nat, d: nat)
    requires Pair(a, b) == Pair(c, d)
    ensures a == c && b == d
  {
    if a > 0 && c > 0 {
      PairInjective(a - 1, b, c - 1, d);
    }
  }

  /** A list of values as one number. */
  function Code(xs: seq<int>): nat {
    if xs == [] then 0 else Pair(Zigzag(xs[0]), Code(xs[1..]))
  }

  lemma {:induction false} CodeInjective(xs: seq<int>, ys: seq<int>)
    requires Code(xs) == Code(ys)
    ensures xs == ys
  {
    if xs != [] && ys != [] {
      PairInjective(Zigzag(xs[0]), Code(xs[1..]), Zigzag(ys[0]), Code(ys[1..]));
      CodeInjective(xs[1..], ys[1..]);
      assert xs == [xs[0]] + xs[1..] && ys == [ys[0]] + ys[1..];
    }
  }

  /**
    Operators and sublinks return their arguments as a code; GROUPING recognises
    one list of keys, columns their level.
   */
  function Recorder(mark: seq<Expr>): Group {
    Group((level, varno, attno) => if level == 0 then 0 else 1, (fn, args) => 0, keys => if keys == mark then 1 else 0,
          (body, args) => Code(args), (op, args) => Code(args))
  }

  /** Window values that depend on the list of keys recognised. */
  type MarkedWindows = seq<Expr> -> WindowValue

  /** The window functions inside an expression never return 0. */
  ghost predicate Heard(e: Expr, w: MarkedWindows)
    decreases e, 0
  {
    match e
    case SubLink(_, test) => AllHeard(test, w)
    case Op(_, args) => AllHeard(args, w)
    case Window(win, args) => forall mark :: w(mark)(win, args) != 0
    case _ => true
  }

  ghost predicate AllHeard(es: seq<Expr>, w: MarkedWindows)
    decreases es, 1
  {
    es != [] ==> Heard(es[0], w) && AllHeard(es[1..], w)
  }

  const ONE_WINDOWS: MarkedWindows := mark => (win, args) => 1

  lemma {:induction false} OneHeard(e: Expr)
    ensures Heard(e, ONE_WINDOWS)
    decreases e, 0
  {
    match e
    case SubLink(_, test) => AllOneHeard(test);
    case Op(_, args) => AllOneHeard(args);
    case _ =>
  }

  lemma {:induction false} AllOneHeard(es: seq<Expr>)
    ensures AllHeard(es, ONE_WINDOWS)
    decreases es, 1
  {
    if es != [] {
      OneHeard(es[0]);
      AllOneHeard(es[1..]);
    }
  }

  lemma {:induction false} MoveShows(e: Expr, a: seq<Target>, b: seq<Target>, w: MarkedWindows)
    returns (mark: seq<Expr>)
    requires (!WindowFree(e) || !Kept(e, a, b)) && Heard(e, w)
    ensures Eval(e, Recorder(mark), a, w(mark)) != Eval(e, Recorder(mark), b, NO_WINDOWS)
    decreases e, 0
  {
    match e
    case Grouping(refs) => mark := KeyExprs(a, refs);
    case Window(_, _) => mark := [];
    case SubLink(_, test) =>
      mark := MovesShow(test, a, b, w);
      CodesDiffer(EvalAll(test, Recorder(mark), a, w(mark)), EvalAll(test, Recorder(mark), b, NO_WINDOWS));
    case Op(_, args) =>
      mark := MovesShow(args, a, b, w);
      CodesDiffer(EvalAll(args, Recorder(mark), a, w(mark)), EvalAll(args, Recorder(mark), b, NO_WINDOWS));
  }

  lemma CodesDiffer(xs: seq<int>, ys: seq<int>)
    requires xs != ys
    ensures Code(xs) != Code(ys)
  {
    if Code(xs) == Code(ys) {
      CodeInjective(xs, ys);
    }
  }

  lemma {:induction false} MovesShow(es: seq<Expr>, a: seq<Target>, b: seq<Target>, w: MarkedWindows)
    returns (mark: seq<Expr>)
    requires (!AllWindowFree(es) || !AllKept(es, a, b)) && AllHeard(es, w)
    ensures EvalAll(es, Recorder(mark), a, w(mark)) != EvalAll(es, Recorder(mark), b, NO_WINDOWS)
    decreases es, 1
  {
    if !WindowFree(es[0]) || !Kept(es[0], a, b) {
      mark := MoveShows(es[0], a, b, w);
      assert EvalAll(es, Recorder(mark), a, w(mark))[0] != EvalAll(es, Recorder(mark), b, NO_WINDOWS)[0];
    } else {
      mark := MovesShow(es[1..], a, b, w);
      assert EvalAll(es, Recorder(mark), a, w(mark))[1..] == EvalAll(es[1..], Recorder(mark), a, w(mark));
      assert EvalAll(es, Recorder(mark), b, NO_WINDOWS)[1..] == EvalAll(es[1..], Recorder(mark), b, NO_WINDOWS);
    }
  }

  /** The value of a node in the query equals its value in the subquery, for every group and all window functions. */
  ghost predicate MovesTo(e: Expr, a: seq<Target>, b: seq<Target>) {
    forall g: Group, w: WindowValue :: Eval(e, g, a, w) == Eval(e, g, b, NO_WINDOWS)
  }

  /**
    A node may be moved from a query with target list `a` to the subquery with
    target list `b`, as it stands, exactly when no window function is inside it
    and every GROUPING inside it names the same expressions in both lists.
   */
  lemma MovesExactly(e: Expr, a: seq<Target>, b: seq<Target>)
    ensures MovesTo(e, a, b) <==> WindowFree(e) && Kept(e, a, b)
  {
    if WindowFree(e) && Kept(e, a, b) {
      forall g: Group, w: WindowValue
        ensures Eval(e, g, a, w) == Eval(e, g, b, NO_WINDOWS)
      {
        FreeMoves(e, g, a, b, w, NO_WINDOWS);
      }
    } else {
      OneHeard(e);
      var mark := MoveShows(e, a, b, ONE_WINDOWS);
      assert Eval(e, Recorder(mark), a, ONE_WINDOWS(mark)) != Eval(e, Recorder(mark), b, NO_WINDOWS);
    }
  }

  lemma {:induction false} KeptSame(e: Expr, ts: seq<Target>)
    ensures Kept(e, ts, ts)
    decreases e, 0
  {
    match e
    case SubLink(_, test) => AllKeptSame(test, ts);
    case Op(_, args) => AllKeptSame(args, ts);
    case _ =>
  }

  lemma {:induction false} AllKeptSame(es: seq<Expr>, ts: seq<Target>)
    ensures AllKept(es, ts, ts)
    decreases es, 1
  {
    if es != [] {
      KeptSame(es[0], ts);
      AllKeptSame(es[1..], ts);
    }
  }

  /** A node may be computed in the subquery exactly when no window function is inside it. */
  lemma MovesIffFree(e: Expr, ts: seq<Target>)
    ensures MovesTo(e, ts, ts) <==> WindowFree(e)
  {
    KeptSame(e, ts);
    MovesExactly(e, ts, ts);
  }

  // ----- what a rewritten expression stands for -----

  /** The query being split: its range table, its target list, and the grouping keys that open the subquery's list. */
  datatype Split = Split(rt: seq<RangeEntry>, targets: seq<Target>, keys: seq<Target>)

  predicate HasRef(ts: seq<Target>, ref: int) {
    ts != [] && (ts[0].ref == ref || HasRef(ts[1..], ref))
  }

  /** New references that name, in the subquery, the expressions the old ones named. */
  predicate SameKeys(refs: seq<int>, was: seq<int>, s: Split) {
    if was == [] then refs == []
    else
      && refs != [] && HasRef(s.keys, refs[0]) && KeyExpr(s.keys, refs[0]) == KeyExpr(s.targets, was[0])
      && SameKeys(refs[1..], was[1..], s)
  }

  /** A subquery entry `x` that computes the expression `e`. */
  predicate Computes(x: Expr, e: Expr, s: Split) {
    match e
    case Var(_, _, _) => Pick(e, s.rt, s.keys) == Some(x)
    case Grouping(refs) => x.Grouping? && SameKeys(x.refs, refs, s)
    case _ => x == e
  }

  /** Grouping keys, columns, aggregates, GROUPING and sublinks are read from the subquery's row. */
  predicate Moved(e: Expr, s: Split) {
    e.Var? || e.Agg? || e.Grouping? || e.SubLink? || Listed(e, s.keys)
  }

  predicate ReadsEntry(t: Expr, e: Expr, sub: seq<Target>, s: Split) {
    t.Var? && t.level == 0 && t.varno == 1 && 1 <= t.attno <= |sub| && Computes(sub[t.attno - 1].expr, e, s)
  }

  /** Reading the subquery's columns through its target list gives back `e`. */
  predicate Recovers(t: Expr, e: Expr, sub: seq<Target>, s: Split)
    decreases e, 0
  {
    match e
    case Const(_) => t == e || ReadsEntry(t, e, sub, s)
    case Op(op, args) =>
      if Moved(e, s) then ReadsEntry(t, e, sub, s) else t.Op? && t.op == op && AllRecover(t.args, args, sub, s)
    case Window(win, args) =>
      if Moved(e, s) then ReadsEntry(t, e, sub, s) else t.Window? && t.win == win && AllRecover(t.args, args, sub, s)
    case _ => ReadsEntry(t, e, sub, s)
  }

  predicate AllRecover(ts: seq<Expr>, es: seq<Expr>, sub: seq<Target>, s: Split)
    decreases es, 1
  {
    if es == [] then ts == [] else ts != [] && Recovers(ts[0], es[0], sub, s) && AllRecover(ts[1..], es[1..], sub, s)
  }

  /** No column of the expression is confused with one of another level. */
  ghost predicate Uncaptured(e: Expr, s: Split)
    decreases e, 0
  {
    match e
    case Var(_, _, _) => !Captured(e, s.rt, s.keys)
    case Op(_, args) => AllUncaptured(args, s)
    case Window(_, args) => AllUncaptured(args, s)
    case _ => true
  }

  ghost predicate AllUncaptured(es: seq<Expr>, s: Split)
    decreases es, 1
  {
    es != [] ==> Uncaptured(es[0], s) && AllUncaptured(es[1..], s)
  }

  /** All columns the expression reads itself belong to the query being split. */
  predicate LocalColumns(e: Expr)
    decreases e, 0
  {
    match e
    case Var(level, _, _) => level == 0
    case Op(_, args) => AllLocalColumns(args)
    case Window(_, args) => AllLocalColumns(args)
    case _ => true
  }

  predicate AllLocalColumns(es: seq<Expr>)
    decreases es, 1
  {
    es != [] ==> LocalColumns(es[0]) && AllLocalColumns(es[1..])
  }

  predicate LocalKeys(keys: seq<Target>) {
    forall k | 0 <= k < |keys| && keys[k].expr.Var? :: keys[k].expr.level == 0
  }

  /** Local columns grouped by local keys are never captured. */
  lemma {:induction false} LocalUncaptured(e: Expr, s: Split)
    requires LocalColumns(e) && LocalKeys(s.keys)
    ensures Uncaptured(e, s)
    decreases e, 0
  {
    match e
    case Op(_, args) => AllLocalUncaptured(args, s);
    case Window(_, args) => AllLocalUncaptured(args, s);
    case _ =>
  }

  lemma {:induction false} AllLocalUncaptured(es: seq<Expr>, s: Split)
    requires AllLocalColumns(es) && LocalKeys(s.keys)
    ensures AllUncaptured(es, s)
    decreases es, 1
  {
    if es != [] {
      LocalUncaptured(es[0], s);
      AllLocalUncaptured(es[1..], s);
    }
  }

  /** The subquery's list opens with the keys, and each entry may be computed below the window functions. */
  ghost predicate GoodSub(sub: seq<Target>, s: Split) {
    && s.keys <= sub && LocalAliases(s.rt)
    && forall k | 0 <= k < |sub| :: GoodEntry(sub[k].expr, sub, s)
  }

  predicate GoodEntry(x: Expr, sub: seq<Target>, s: Split) {
    WindowFree(x) && (x.Grouping? || Kept(x, s.targets, sub))
  }

  lemma {:induction false} RecoversGrows(t: Expr, e: Expr, sub: seq<Target>, more: seq<Target>, s: Split)
    requires Recovers(t, e, sub, s) && sub <= more
    ensures Recovers(t, e, more, s)
    decreases e, 0
  {
    match e
    case Op(_, args) =>
      if t.Op? && t.op == e.op && AllRecover(t.args, args, sub, s) {
        AllRecoverGrows(t.args, args, sub, more, s);
      }
    case Window(_, args) =>
      if t.Window? && t.win == e.win && AllRecover(t.args, args, sub, s) {
        AllRecoverGrows(t.args, args, sub, more, s);
      }
    case _ =>
  }

  lemma {:induction false} AllRecoverGrows(ts: seq<Expr>, es: seq<Expr>, sub: seq<Target>, more: seq<Target>, s: Split)
    requires AllRecover(ts, es, sub, s) && sub <= more
    ensures AllRecover(ts, es, more, s)
    decreases es, 1
  {
    if es != [] {
      RecoversGrows(ts[0], es[0], sub, more, s);
      AllRecoverGrows(ts[1..], es[1..], sub, more, s);
    }
  }

  lemma {:induction false} RowAt(sub: seq<Target>, g: Group, ts: seq<Target>, w: WindowValue, k: nat)
    requires k < |sub|
    ensures |EvalAll(Exprs(sub), g, ts, w)| == |sub|
    ensures EvalAll(Exprs(sub), g, ts, w)[k] == Eval(sub[k].expr, g, ts, w)
  {
    assert Exprs(sub)[1..] == Exprs(sub[1..]);
    if |sub| == 1 {
      assert Exprs(sub[1..]) == [];
    } else {
      RowAt(sub[1..], g, ts, w, if k == 0 then 0 else k - 1);
    }
  }

  lemma {:induction false} KeyInPrefix(keys: seq<Target>, sub: seq<Target>, ref: int)
    requires keys <= sub && HasRef(keys, ref)
    ensures KeyExpr(sub, ref) == KeyExpr(keys, ref)
  {
    if keys[0].ref != ref {
      KeyInPrefix(keys[1..], sub[1..], ref);
    }
  }

  lemma {:induction false} SameKeysMeans(refs: seq<int>, was: seq<int>, sub: seq<Target>, s: Split)
    requires SameKeys(refs, was, s) && s.keys <= sub
    ensures KeyExprs(sub, refs) == KeyExprs(s.targets, was)
  {
    if was != [] {
      KeyInPrefix(s.keys, sub, refs[0]);
      SameKeysMeans(refs[1..], was[1..], sub, s);
    }
  }

  // ----- which expressions are read right -----

  /** The entry made for a moved node has the node's value: the exact condition, kind by kind. */
  ghost predicate RightEntry(e: Expr, sub: seq<Target>, s: Split) {
    match e
    case Const(_) => true
    case Agg(_, _) => true
    case Grouping(_) => true
    case Var(_, _, _) => !Captured(e, s.rt, s.keys)
    case _ => WindowFree(e) && Kept(e, s.targets, sub)
  }

  /** All moved nodes of an expression are read right; `ok` says which window functions are. */
  ghost predicate Right(e: Expr, sub: seq<Target>, s: Split, ok: nat -> bool)
    decreases e, 0
  {
    if Moved(e, s) then RightEntry(e, sub, s)
    else
      match e
      case Op(_, args) => AllRight(args, sub, s, ok)
      case Window(win, args) => ok(win) && AllRight(args, sub, s, ALWAYS)
      case _ => true
  }

  ghost predicate AllRight(es: seq<Expr>, sub: seq<Target>, s: Split, ok: nat -> bool)
    decreases es, 1
  {
    es != [] ==> Right(es[0], sub, s, ok) && AllRight(es[1..], sub, s, ok)
  }

  /** Below the window functions all of them have the same value. */
  const ALWAYS: nat -> bool := win => true

  /** An entry of the subquery has, in every group, the value of the expression it was made for. */
  lemma EntryMeans(x: Expr, e: Expr, sub: seq<Target>, s: Split, g: Group, w: WindowValue)
    requires Computes(x, e, s) && RightEntry(e, sub, s) && s.keys <= sub && LocalAliases(s.rt) && JoinsAgree(g, s.rt)
    ensures Eval(x, g, sub, NO_WINDOWS) == Eval(e, g, s.targets, w)
  {
    match e
    case Var(_, _, _) => PickExact(e, s.rt, s.keys, x);
    case Grouping(refs) => SameKeysMeans(x.refs, refs, sub, s);
    case Const(_) =>
    case Agg(_, _) =>
    case _ => FreeMoves(e, g, s.targets, sub, w, NO_WINDOWS);
  }

  ghost predicate WindowsAgree(u: WindowValue, w: WindowValue, sub: seq<Target>, s: Split, ok: nat -> bool) {
    forall win: nat, ts: seq<Expr>, es: seq<Expr> | ok(win) && AllRecover(ts, es, sub, s) &&
        AllRight(es, sub, s, ALWAYS) ::
      u(win, ts) == w(win, es)
  }

  lemma {:induction false} RecoversMeans(t: Expr, e: Expr, sub: seq<Target>, s: Split, ok: nat -> bool, g: Group,
                                         u: WindowValue, w: WindowValue)
    requires Recovers(t, e, sub, s) && Right(e, sub, s, ok) && s.keys <= sub && LocalAliases(s.rt)
    requires JoinsAgree(g, s.rt)
    requires WindowsAgree(u, w, sub, s, ok)
    ensures Eval(t, Seen(g, sub), [], u) == Eval(e, g, s.targets, w)
    decreases e, 0
  {
    if ReadsEntry(t, e, sub, s) && (Moved(e, s) || e.Const?) {
      RowAt(sub, g, sub, NO_WINDOWS, t.attno - 1);
      EntryMeans(sub[t.attno - 1].expr, e, sub, s, g, w);
    } else {
      match e
      case Op(_, args) => AllRecoverMeans(t.args, args, sub, s, ok, g, u, w);
      case _ =>
    }
  }

  lemma {:induction false} AllRecoverMeans(ts: seq<Expr>, es: seq<Expr>, sub: seq<Target>, s: Split, ok: nat -> bool,
                                           g: Group, u: WindowValue, w: WindowValue)
    requires AllRecover(ts, es, sub, s) && AllRight(es, sub, s, ok)
    requires s.keys <= sub && LocalAliases(s.rt) && JoinsAgree(g, s.rt)
    requires WindowsAgree(u, w, sub, s, ok)
    ensures EvalAll(ts, Seen(g, sub), [], u) == EvalAll(es, g, s.targets, w)
    decreases es, 1
  {
    if es != [] {
      RecoversMeans(ts[0], es[0], sub, s, ok, g, u, w);
      AllRecoverMeans(ts[1..], es[1..], sub, s, ok, g, u, w);
    }
  }

  /** Through a sound list, columns that are not captured are read right. */
  lemma {:induction false} UncapturedRight(t: Expr, e: Expr, sub: seq<Target>, s: Split, ok: nat -> bool)
    requires Recovers(t, e, sub, s) && Uncaptured(e, s) && GoodSub(sub, s) && forall win: nat :: ok(win)
    ensures Right(e, sub, s, ok)
    decreases e, 0
  {
    if Moved(e, s) {
      if !e.Const? {
        assert GoodEntry(sub[t.attno - 1].expr, sub, s);
      }
    } else {
      match e
      case Op(_, args) => AllUncapturedRight(t.args, args, sub, s, ok);
      case Window(_, args) => AllUncapturedRight(t.args, args, sub, s, ALWAYS);
      case _ =>
    }
  }

  lemma {:induction false} AllUncapturedRight(ts: seq<Expr>, es: seq<Expr>, sub: seq<Target>, s: Split, ok: nat -> bool)
    requires AllRecover(ts, es, sub, s) && AllUncaptured(es, s) && GoodSub(sub, s) && forall win: nat :: ok(win)
    ensures AllRight(es, sub, s, ok)
    decreases es, 1
  {
    if es != [] {
      UncapturedRight(ts[0], es[0], sub, s, ok);
      AllUncapturedRight(ts[1..], es[1..], sub, s, ok);
    }
  }

  // ----- the whole query -----

  /** The outer query keeps each target's place and reference and each window's keys. */
  predicate Rewritten(outer: seq<Target>, targets: seq<Target>, sub: seq<Target>, s: Split) {
    if targets == [] then outer == []
    else
      && outer != [] && outer[0].ref == targets[0].ref && outer[0].resno == targets[0].resno
      && Recovers(outer[0].expr, targets[0].expr, sub, s)
      && Rewritten(outer[1..], targets[1..], sub, s)
  }

  predicate ClausesRewritten(ds: seq<WindowClause>, cs: seq<WindowClause>, sub: seq<Target>, s: Split) {
    && |ds| == |cs|
    && forall k | 0 <= k < |cs| :: ds[k].keys == cs[k].keys && AllRecover(ds[k].offsets, cs[k].offsets, sub, s)
  }

  /** No column in the query is confused with one of another level. */
  ghost predicate QueryUncaptured(cs: seq<WindowClause>, s: Split) {
    AllUncaptured(Exprs(s.targets), s) && forall k | 0 <= k < |cs| :: AllUncaptured(cs[k].offsets, s)
  }

  /** A query that names no outer column outside aggregates and sublinks has no captured column. */
  lemma LocalQueryUncaptured(cs: seq<WindowClause>, s: Split)
    requires AllLocalColumns(Exprs(s.targets)) && LocalKeys(s.keys)
    requires forall k | 0 <= k < |cs| :: AllLocalColumns(cs[k].offsets)
    ensures QueryUncaptured(cs, s)
  {
    AllLocalUncaptured(Exprs(s.targets), s);
    forall k | 0 <= k < |cs|
      ensures AllUncaptured(cs[k].offsets, s)
    {
      AllLocalUncaptured(cs[k].offsets, s);
    }
  }

  lemma {:induction false} ExprsRecover(outer: seq<Target>, targets: seq<Target>, sub: seq<Target>, s: Split)
    requires Rewritten(outer, targets, sub, s)
    ensures AllRecover(Exprs(outer), Exprs(targets), sub, s)
  {
    if targets != [] {
      ExprsRecover(outer[1..], targets[1..], sub, s);
      assert Exprs(outer)[1..] == Exprs(outer[1..]) && Exprs(targets)[1..] == Exprs(targets[1..]);
    }
  }

  lemma {:induction false} KeyRecovers(outer: seq<Target>, targets: seq<Target>, ref: int, sub: seq<Target>, s: Split)
    requires Rewritten(outer, targets, sub, s)
    ensures Recovers(KeyExpr(outer, ref), KeyExpr(targets, ref), sub, s)
  {
    if targets != [] {
      KeyRecovers(outer[1..], targets[1..], ref, sub, s);
    }
  }

  lemma {:induction false} KeysRecover(outer: seq<Target>, targets: seq<Target>, refs: seq<int>, sub: seq<Target>,
                                       s: Split)
    requires Rewritten(outer, targets, sub, s)
    ensures AllRecover(KeyExprs(outer, refs), KeyExprs(targets, refs), sub, s)
  {
    if refs != [] {
      KeyRecovers(outer, targets, refs[0], sub, s);
      KeysRecover(outer, targets, refs[1..], sub, s);
      assert KeyExprs(outer, refs)[1..] == KeyExprs(outer, refs[1..]);
      assert KeyExprs(targets, refs)[1..] == KeyExprs(targets, refs[1..]);
    }
  }

  ghost predicate AllJoinsAgree(gs: seq<Group>, rt: seq<RangeEntry>) {
    forall k | 0 <= k < |gs| :: JoinsAgree(gs[k], rt)
  }

  lemma {:induction false} PerGroupMeans(ts: seq<Expr>, es: seq<Expr>, sub: seq<Target>, s: Split, gs: seq<Group>)
    requires AllRecover(ts, es, sub, s) && AllRight(es, sub, s, ALWAYS)
    requires s.keys <= sub && LocalAliases(s.rt) && AllJoinsAgree(gs, s.rt)
    ensures PerGroup(ts, SeenAll(gs, sub), []) == PerGroup(es, gs, s.targets)
  {
    if gs != [] {
      AllRecoverMeans(ts, es, sub, s, ALWAYS, gs[0], NO_WINDOWS, NO_WINDOWS);
      assert AllJoinsAgree(gs[1..], s.rt);
      PerGroupMeans(ts, es, sub, s, gs[1..]);
      assert SeenAll(gs, sub)[1..] == SeenAll(gs[1..], sub);
    }
  }

  lemma {:induction false} SeenAt(gs: seq<Group>, sub: seq<Target>, i: nat)
    requires i < |gs|
    ensures |SeenAll(gs, sub)| == |gs| && SeenAll(gs, sub)[i] == Seen(gs[i], sub)
  {
    if |gs| == 1 {
      assert SeenAll(gs[1..], sub) == [];
    } else {
      SeenAt(gs[1..], sub, if i == 0 then 0 else i - 1);
    }
  }

  /** The keys and frame offsets of a window are read right. */
  ghost predicate RightWindow(win: nat, cs: seq<WindowClause>, sub: seq<Target>, s: Split) {
    win < |cs| ==>
      AllRight(KeyExprs(s.targets, cs[win].keys), sub, s, ALWAYS) && AllRight(cs[win].offsets, sub, s, ALWAYS)
  }

  ghost function RightWindows(cs: seq<WindowClause>, sub: seq<Target>, s: Split): nat -> bool {
    (win: nat) => RightWindow(win, cs, sub, s)
  }

  /** Everything the outer query reads, it reads right. */
  ghost predicate QueryRight(cs: seq<WindowClause>, sub: seq<Target>, s: Split) {
    AllRight(Exprs(s.targets), sub, s, RightWindows(cs, sub, s))
  }

  lemma WindowMeans(f: Frames, outer: seq<Target>, ds: seq<WindowClause>, cs: seq<WindowClause>, sub: seq<Target>,
                    s: Split, gs: seq<Group>, i: nat, win: nat, ts: seq<Expr>, es: seq<Expr>)
    requires Rewritten(outer, s.targets, sub, s) && ClausesRewritten(ds, cs, sub, s) && RightWindow(win, cs, sub, s)
    requires s.keys <= sub && LocalAliases(s.rt) && AllJoinsAgree(gs, s.rt) && i < |gs| == |SeenAll(gs, sub)|
    requires AllRecover(ts, es, sub, s) && AllRight(es, sub, s, ALWAYS)
    ensures WindowAt(f, ds, outer, SeenAll(gs, sub), [], i, win, ts)
         == WindowAt(f, cs, s.targets, gs, s.targets, i, win, es)
  {
    if win < |cs| {
      KeysRecover(outer, s.targets, cs[win].keys, sub, s);
      PerGroupMeans(KeyExprs(outer, cs[win].keys), KeyExprs(s.targets, cs[win].keys), sub, s, gs);
      SeenAt(gs, sub, i);
      AllRecoverMeans(ds[win].offsets, cs[win].offsets, sub, s, ALWAYS, gs[i], NO_WINDOWS, NO_WINDOWS);
      PerGroupMeans(ts, es, sub, s, gs);
    }
  }

  /**
    The split query returns the original's rows: for every sequence of groups,
    every meaning of operators, aggregates, sublinks and window functions.
   */
  lemma QueryMeans(f: Frames, outer: seq<Target>, ds: seq<WindowClause>, cs: seq<WindowClause>, sub: seq<Target>,
                   s: Split, gs: seq<Group>, i: nat)
    requires Rewritten(outer, s.targets, sub, s) && ClausesRewritten(ds, cs, sub, s) && QueryRight(cs, sub, s)
    requires s.keys <= sub && LocalAliases(s.rt) && AllJoinsAgree(gs, s.rt) && i < |gs|
    ensures |SeenAll(gs, sub)| == |gs|
    ensures QueryRow(f, outer, ds, SeenAll(gs, sub), [], i) == QueryRow(f, s.targets, cs, gs, s.targets, i)
  {
    SeenAt(gs, sub, i);
    var ok := RightWindows(cs, sub, s);
    var u: WindowValue := (win: nat, args: seq<Expr>) => WindowAt(f, ds, outer, SeenAll(gs, sub), [], i, win, args);
    var w: WindowValue := (win: nat, args: seq<Expr>) => WindowAt(f, cs, s.targets, gs, s.targets, i, win, args);
    forall win: nat, ts: seq<Expr>, es: seq<Expr> | ok(win) && AllRecover(ts, es, sub, s) &&
        AllRight(es, sub, s, ALWAYS)
      ensures u(win, ts) == w(win, es)
    {
      WindowMeans(f, outer, ds, cs, sub, s, gs, i, win, ts, es);
    }
    ExprsRecover(outer, s.targets, sub, s);
    AllRecoverMeans(Exprs(outer), Exprs(s.targets), sub, s, ok, gs[i], u, w);
    assert QueryRow(f, outer, ds, SeenAll(gs, sub), [], i) == EvalAll(Exprs(outer), SeenAll(gs, sub)[i], [], u);
  }

  ghost predicate SameRow(outer: seq<Target>, ds: seq<WindowClause>, sub: seq<Target>, cs: seq<WindowClause>, s: Split,
                          f: Frames, gs: seq<Group>, i: nat)
  {
    i < |gs| == |SeenAll(gs, sub)| &&
    QueryRow(f, outer, ds, SeenAll(gs, sub), [], i) == QueryRow(f, s.targets, cs, gs, s.targets, i)
  }

  /** The split query and the original return the same rows, whatever the groups and the meanings of everything. */
  ghost predicate SameRows(outer: seq<Target>, ds: seq<WindowClause>, sub: seq<Target>, cs: seq<WindowClause>,
                           s: Split) {
    forall f: Frames, gs: seq<Group>, i: nat | i < |gs| && AllJoinsAgree(gs, s.rt) ::
      SameRow(outer, ds, sub, cs, s, f, gs, i)
  }

  lemma AllRowsMean(outer: seq<Target>, ds: seq<WindowClause>, cs: seq<WindowClause>, sub: seq<Target>, s: Split)
    requires Rewritten(outer, s.targets, sub, s) && ClausesRewritten(ds, cs, sub, s) && QueryRight(cs, sub, s)
    requires s.keys <= sub && LocalAliases(s.rt)
    ensures SameRows(outer, ds, sub, cs, s)
  {
    forall f: Frames, gs: seq<Group>, i: nat | i < |gs| && AllJoinsAgree(gs, s.rt)
      ensures SameRow(outer, ds, sub, cs, s, f, gs, i)
    {
      QueryMeans(f, outer, ds, cs, sub, s, gs, i);
    }
  }

  lemma {:induction false} KeyUncaptured(targets: seq<Target>, ref: int, s: Split)
    requires AllUncaptured(Exprs(targets), s)
    ensures Uncaptured(KeyExpr(targets, ref), s)
  {
    if targets != [] {
      assert Exprs(targets)[1..] == Exprs(targets[1..]);
      KeyUncaptured(targets[1..], ref, s);
    }
  }

  lemma {:induction false} KeysUncaptured(refs: seq<int>, s: Split)
    requires AllUncaptured(Exprs(s.targets), s)
    ensures AllUncaptured(KeyExprs(s.targets, refs), s)
  {
    if refs != [] {
      KeyUncaptured(s.targets, refs[0], s);
      KeysUncaptured(refs[1..], s);
      assert KeyExprs(s.targets, refs)[1..] == KeyExprs(s.targets, refs[1..]);
    }
  }

  /** A sound list and no captured column are enough. */
  lemma SoundQueryRight(outer: seq<Target>, ds: seq<WindowClause>, cs: seq<WindowClause>, sub: seq<Target>, s: Split)
    requires Rewritten(outer, s.targets, sub, s) && ClausesRewritten(ds, cs, sub, s)
    requires QueryUncaptured(cs, s) && GoodSub(sub, s)
    ensures QueryRight(cs, sub, s)
  {
    var ok := RightWindows(cs, sub, s);
    forall win: nat
      ensures ok(win)
    {
      if win < |cs| {
        KeysRecover(outer, s.targets, cs[win].keys, sub, s);
        KeysUncaptured(cs[win].keys, s);
        AllUncapturedRight(KeyExprs(outer, cs[win].keys), KeyExprs(s.targets, cs[win].keys), sub, s, ALWAYS);
        AllUncapturedRight(ds[win].offsets, cs[win].offsets, sub, s, ALWAYS);
      }
    }
    ExprsRecover(outer, s.targets, sub, s);
    AllUncapturedRight(Exprs(outer), Exprs(s.targets), sub, s, ok);
  }
}
