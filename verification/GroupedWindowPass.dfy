/**
  The pass that splits a grouped window query. Its context holds the growing
  target list of the subquery and the table that renumbers sort/group
  references; the mutator looks expressions up in that list, adds what must be
  computed in the subquery, and reports a column that is no grouping key.
 */
module GroupedWindowPass {
  import opened Options
  import opened GroupedWindows
  import opened GroupedWindowsExact

  predicate Forced(e: Expr) {
    e.Agg? || e.Grouping? || e.SubLink?
  }

  /** Appends entries for the expressions not yet listed. */
  function AddAll(ts: seq<Target>, es: seq<Expr>): seq<Target>
    decreases es
  {
    if es == [] then ts
    else AddAll(if Listed(es[0], ts) then ts else ts + [Target(es[0], |ts| + 1, 0)], es[1..])
  }

  predicate InBounds(refs: seq<int>, size: nat) {
    forall k | 0 <= k < |refs| :: 0 <= refs[k] < size
  }

  function Renumber(refs: seq<int>, m: seq<nat>): seq<int>
    requires InBounds(refs, |m|)
  {
    if refs == [] then [] else [m[refs[0]]] + Renumber(refs[1..], m)
  }

  /** Can the mutator rewrite the expression? */
  predicate Resolvable(e: Expr, s: Split, size: nat)
    decreases e, 0
  {
    match e
    case Agg(_, _) => true
    case SubLink(_, _) => true
    case Grouping(refs) => InBounds(refs, size)
    case Var(_, _, _) => Pick(e, s.rt, s.keys).Some?
    case Const(_) => true
    case Op(_, args) => Listed(e, s.keys) || AllResolvable(args, s, size)
    case Window(_, args) => Listed(e, s.keys) || AllResolvable(args, s, size)
  }

  predicate AllResolvable(es: seq<Expr>, s: Split, size: nat)
    decreases es, 1
  {
    es != [] ==> Resolvable(es[0], s, size) && AllResolvable(es[1..], s, size)
  }

  /** What the subquery must compute for the expression, beyond the keys. */
  function Needed(e: Expr, s: Split, m: seq<nat>): seq<Expr>
    decreases e, 0
  {
    match e
    case Agg(_, _) => [e]
    case SubLink(_, _) => [e]
    case Grouping(refs) => if InBounds(refs, |m|) then [Grouping(Renumber(refs, m))] else []
    case Op(_, args) => if Listed(e, s.keys) then [] else AllNeeded(args, s, m)
    case Window(_, args) => if Listed(e, s.keys) then [] else AllNeeded(args, s, m)
    case _ => []
  }

  function AllNeeded(es: seq<Expr>, s: Split, m: seq<nat>): seq<Expr>
    decreases es, 1
  {
    if es == [] then [] else Needed(es[0], s, m) + AllNeeded(es[1..], s, m)
  }

  /** GROUPING names grouping keys only. */
  predicate NamesKeys(e: Expr, refs: seq<nat>)
    decreases e, 0
  {
    match e
    case Grouping(rs) => forall k | 0 <= k < |rs| :: rs[k] in refs
    case Op(_, args) => AllNameKeys(args, refs)
    case Window(_, args) => AllNameKeys(args, refs)
    case _ => true
  }

  predicate AllNameKeys(es: seq<Expr>, refs: seq<nat>)
    decreases es, 1
  {
    es != [] ==> NamesKeys(es[0], refs) && AllNameKeys(es[1..], refs)
  }

  /** Renumbered references name, among the keys, what the old ones named among the targets. */
  predicate GoodMap(m: seq<nat>, s: Split) {
    forall r | 0 <= r < |m| :: m[r] != 0 ==> HasRef(s.keys, m[r]) && KeyExpr(s.keys, m[r]) == KeyExpr(s.targets, r)
  }

  predicate Covers(m: seq<nat>, refs: seq<nat>) {
    forall k | 0 <= k < |refs| :: refs[k] < |m| && m[refs[k]] != 0
  }

  lemma {:induction false} RenumberSame(refs: seq<int>, m: seq<nat>, s: Split)
    requires InBounds(refs, |m|) && GoodMap(m, s)
    requires forall k | 0 <= k < |refs| :: m[refs[k]] != 0
    ensures SameKeys(Renumber(refs, m), refs, s)
  {
    if refs != [] {
      RenumberSame(refs[1..], m, s);
      assert Renumber(refs, m)[1..] == Renumber(refs[1..], m);
    }
  }

  lemma {:induction false} ListedAt(e: Expr, ts: seq<Target>)
    ensures Listed(e, ts) <==> exists k | 0 <= k < |ts| :: ts[k].expr == e
  {
    if ts != [] {
      ListedAt(e, ts[1..]);
      if Listed(e, ts[1..]) {
        var k :| 0 <= k < |ts[1..]| && ts[1..][k].expr == e;
        assert ts[k + 1].expr == e;
      }
      if k :| 0 <= k < |ts| && ts[k].expr == e && k > 0 {
        assert ts[1..][k - 1].expr == e;
      }
    }
  }

  lemma ListedInKeys(e: Expr, keys: seq<Target>, ts: seq<Target>)
    requires keys <= ts && !Forced(e)
    requires forall k | |keys| <= k < |ts| :: Forced(ts[k].expr)
    ensures Listed(e, ts) == Listed(e, keys)
  {
    ListedAt(e, ts);
    ListedAt(e, keys);
    if k :| 0 <= k < |keys| && keys[k].expr == e {
      assert ts[k].expr == e;
    }
    if k :| 0 <= k < |ts| && ts[k].expr == e {
      assert keys[k].expr == e;
    }
  }

  lemma {:induction false} EntriesInKeys(keys: seq<Target>, ts: seq<Target>, varno: nat, attno: int)
    requires keys <= ts
    requires forall k | |keys| <= k < |ts| :: Forced(ts[k].expr)
    ensures FromEntries(ts, varno, attno) == FromEntries(keys, varno, attno)
  {
    if ts != [] {
      if keys == [] {
        EntriesInKeys([], ts[1..], varno, attno);
      } else {
        EntriesInKeys(keys[1..], ts[1..], varno, attno);
      }
    }
  }

  lemma {:induction false} AliasesInKeys(aliases: seq<Expr>, v: Expr, varno: nat, attno: int, keys: seq<Target>,
                                         ts: seq<Target>)
    requires keys <= ts
    requires forall k | |keys| <= k < |ts| :: Forced(ts[k].expr)
    ensures FromAliases(aliases, v, varno, attno, ts) == FromAliases(aliases, v, varno, attno, keys)
  {
    if aliases != [] {
      EntriesInKeys(keys, ts, varno, attno);
      AliasesInKeys(aliases[1..], v, varno, attno + 1, keys, ts);
    }
  }

  lemma {:induction false} JoinsInKeys(rt: seq<RangeEntry>, v: Expr, varno: nat, keys: seq<Target>, ts: seq<Target>)
    requires keys <= ts
    requires forall k | |keys| <= k < |ts| :: Forced(ts[k].expr)
    ensures FromJoins(rt, v, varno, ts) == FromJoins(rt, v, varno, keys)
  {
    if rt != [] {
      if rt[0].Join? {
        AliasesInKeys(rt[0].aliases, v, varno, 1, keys, ts);
      }
      JoinsInKeys(rt[1..], v, varno + 1, keys, ts);
    }
  }

  lemma {:induction false} FirstListedInKeys(es: seq<Expr>, keys: seq<Target>, ts: seq<Target>)
    requires keys <= ts
    requires forall k | |keys| <= k < |ts| :: Forced(ts[k].expr)
    requires forall k | 0 <= k < |es| :: es[k].Var?
    ensures FirstListed(es, ts) == FirstListed(es, keys)
  {
    if es != [] {
      ListedInKeys(es[0], keys, ts);
      FirstListedInKeys(es[1..], keys, ts);
    }
  }

  lemma AlternatesAreVars(v: Expr, rt: seq<RangeEntry>, ts: seq<Target>)
    requires v.Var?
    ensures forall k | 0 <= k < |Alternates(v, rt, ts)| :: Alternates(v, rt, ts)[k].Var?
  {
    var alts := Alternates(v, rt, ts);
    forall k | 0 <= k < |alts|
      ensures alts[k].Var?
    {
      if rt[v.varno - 1].Plain? {
        var _, _ := JoinsAt(rt, v, 1, ts, alts[k]);
      }
    }
  }

  /** Entries added for aggregates, GROUPING and sublinks never change how a column is resolved. */
  lemma PickInKeys(v: Expr, rt: seq<RangeEntry>, keys: seq<Target>, ts: seq<Target>)
    requires v.Var? && keys <= ts
    requires forall k | |keys| <= k < |ts| :: Forced(ts[k].expr)
    ensures Pick(v, rt, ts) == Pick(v, rt, keys)
  {
    ListedInKeys(v, keys, ts);
    JoinsInKeys(rt, v, 1, keys, ts);
    AlternatesAreVars(v, rt, keys);
    FirstListedInKeys(Alternates(v, rt, keys), keys, ts);
  }

  lemma {:induction false} AddAllSplit(ts: seq<Target>, a: seq<Expr>, b: seq<Expr>)
    ensures AddAll(ts, a + b) == AddAll(AddAll(ts, a), b)
    decreases a
  {
    if a == [] {
      assert a + b == b;
    } else {
      assert (a + b)[1..] == a[1..] + b;
      AddAllSplit(if Listed(a[0], ts) then ts else ts + [Target(a[0], |ts| + 1, 0)], a[1..], b);
    }
  }

  class Context {
    const rtable: seq<RangeEntry>
    const targets: seq<Target>
    var subtlist: seq<Target>
    var sgrMap: array<nat>
    ghost var keys: seq<Target>
    ghost var groupRefs: seq<nat>

    constructor (rtable: seq<RangeEntry>, targets: seq<Target>)
      ensures this.rtable == rtable && this.targets == targets && subtlist == [] && fresh(sgrMap)
    {
      this.rtable := rtable;
      this.targets := targets;
      subtlist := [];
      keys := [];
      groupRefs := [];
      sgrMap := new nat[0];
    }

    ghost function Whole(): Split
      reads this
    {
      Split(rtable, targets, keys)
    }

    ghost predicate Valid()
      reads this, sgrMap
    {
      && keys <= subtlist
      && (forall k | 0 <= k < |subtlist| :: subtlist[k].resno == k + 1)
      && (forall k | |keys| <= k < |subtlist| :: Forced(subtlist[k].expr) && subtlist[k].ref == 0)
      && GoodMap(sgrMap[..], Whole())
      && Covers(sgrMap[..], groupRefs)
    }

    /** The target entries the grouping clauses name, each once. */
    method GroupEntries(refs: seq<nat>) returns (ok: bool, tles: seq<Target>)
      ensures ok <==> forall k | 0 <= k < |refs| :: HasRef(targets, refs[k])
      ensures ok ==> tles == GroupTles(refs, targets)
    {
      ok, tles := true, [];
      for i := 0 to |refs|
        invariant tles == GroupTles(refs[..i], targets)
        invariant forall k | 0 <= k < i :: HasRef(targets, refs[k])
      {
        if !HasRef(targets, refs[i]) {
          return false, [];
        }
        var tle := FirstWith(targets, refs[i]);
        assert refs[..i + 1][..i] == refs[..i];
        if tle !in tles {
          tles := tles + [tle];
        }
      }
      assert refs[..|refs|] == refs;
    }

    /** The grouping keys, numbered by position, and the table that renumbers their references. */
    method BuildKeys(refs: seq<nat>) returns (ok: bool, sub: seq<Target>, m: array<nat>)
      ensures ok <==> forall k | 0 <= k < |refs| :: HasRef(targets, refs[k])
      ensures fresh(m)
      ensures ok ==> sub == KeysOf(refs, targets) && m[..] == TableOf(refs, targets)
    {
      var tles;
      ok, tles := GroupEntries(refs);
      if !ok {
        sub, m := [], new nat[0];
        return;
      }
      var size := MaxRef(tles);
      GroupRefs(refs, targets);
      assert forall k | 0 <= k < |tles| :: GroupOk(tles[k], refs, targets);
      sub, m := NumberKeys(tles, size + 1);
    }

    /** Primes the subquery's list with the grouping keys and fills the renumbering table. */
    method Init(refs: seq<nat>) returns (ok: bool)
      modifies this
      ensures ok <==> forall k | 0 <= k < |refs| :: HasRef(targets, refs[k])
      ensures ok ==> Valid() && keys == subtlist && groupRefs == refs && fresh(sgrMap)
      ensures ok ==> keys == KeysOf(refs, targets) && sgrMap[..] == TableOf(refs, targets)
      ensures ok ==> forall k | 0 <= k < |keys| :: KeyAt(keys[k], k, refs, targets)
    {
      var sub, m;
      ok, sub, m := BuildKeys(refs);
      if ok {
        TableGood(refs, targets, rtable);
      }
      subtlist, sgrMap, keys, groupRefs := sub, m, sub, refs;
    }

    /** Position of an expression's entry in the subquery's list, or its length. */
    method Member(e: Expr) returns (k: nat)
      ensures k <= |subtlist|
      ensures k < |subtlist| ==> subtlist[k].expr == e
      ensures k < |subtlist| <==> Listed(e, subtlist)
    {
      k := 0;
      while k < |subtlist| && subtlist[k].expr != e
        invariant k <= |subtlist|
        invariant forall j | 0 <= j < k :: subtlist[j].expr != e
      {
        k := k + 1;
      }
      ListedAt(e, subtlist);
    }

    /** A Var reading the expression's entry; a missing entry is added when `force` asks for it. */
    method VarFor(e: Expr, force: bool) returns (v: Option<Expr>)
      requires Valid() && (force ==> Forced(e))
      modifies this`subtlist
      ensures Valid()
      ensures subtlist == if force then AddAll(old(subtlist), [e]) else old(subtlist)
      ensures v.Some? <==> force || Listed(e, old(subtlist))
      ensures v.Some? ==> v.value.Var? && v.value == Var(0, 1, v.value.attno) && 1 <= v.value.attno <= |subtlist|
      ensures v.Some? ==> subtlist[v.value.attno - 1].expr == e
      ensures old(subtlist) <= subtlist
    {
      var k := Member(e);
      assert [e][1..] == [];
      if k == |subtlist| && force {
        subtlist := subtlist + [Target(e, |subtlist| + 1, 0)];
      }
      if k < |subtlist| {
        v := Some(Var(0, 1, subtlist[k].resno));
      } else {
        v := None;
      }
    }

    /** Renumbers GROUPING references; one outside the table is an error. */
    method MapRefs(refs: seq<int>) returns (r: Option<seq<int>>)
      ensures r.Some? <==> InBounds(refs, sgrMap.Length)
      ensures r.Some? ==> r.value == Renumber(refs, sgrMap[..])
    {
      var out: seq<int> := [];
      for i := 0 to |refs|
        invariant forall k | 0 <= k < i :: 0 <= refs[k] < sgrMap.Length
        invariant InBounds(refs, sgrMap.Length) ==> out + Renumber(refs[i..], sgrMap[..]) == Renumber(refs, sgrMap[..])
      {
        if refs[i] < 0 || refs[i] >= sgrMap.Length {
          return None;
        }
        out := out + [sgrMap[refs[i]] as int];
        assert InBounds(refs, sgrMap.Length) ==>
            Renumber(refs[i..], sgrMap[..]) == [sgrMap[refs[i]] as int] + Renumber(refs[i..][1..], sgrMap[..]);
        assert refs[i..][1..] == refs[i + 1..];
      }
      assert out + [] == out;
      r := Some(out);
    }

    /** A Var reading the first listed expression. */
    method FirstVar(es: seq<Expr>) returns (r: Option<Expr>)
      requires Valid()
      modifies this`subtlist
      ensures Valid() && subtlist == old(subtlist)
      ensures r.Some? <==> FirstListed(es, subtlist).Some?
      ensures r.Some? ==> r.value.Var? && r.value == Var(0, 1, r.value.attno) && 1 <= r.value.attno <= |subtlist|
      ensures r.Some? ==> Some(subtlist[r.value.attno - 1].expr) == FirstListed(es, subtlist)
    {
      if es == [] {
        return None;
      }
      r := VarFor(es[0], false);
      if r.None? {
        r := FirstVar(es[1..]);
      }
    }

    /** The key a column stands for, as a Var over the subquery. */
    method ResolveVar(v: Expr) returns (r: Option<Expr>)
      requires Valid() && v.Var?
      modifies this`subtlist
      ensures Valid() && subtlist == old(subtlist)
      ensures r.Some? <==> Pick(v, rtable, keys).Some?
      ensures r.Some? ==> Recovers(r.value, v, subtlist, Whole())
    {
      PickInKeys(v, rtable, keys, subtlist);
      r := VarFor(v, false);
      if r.None? {
        var alts := AlternateVars(v, rtable, subtlist);
        r := FirstVar(alts);
      }
    }

    /** The mutator: rewrites an expression over the subquery's columns, or fails on a column that is no key. */
    method Mutate(e: Expr) returns (r: Option<Expr>)
      requires Valid()
      modifies this`subtlist
      ensures Valid() && old(subtlist) <= subtlist
      ensures r.Some? <==> Resolvable(e, Whole(), sgrMap.Length)
      ensures r.Some? ==> subtlist == AddAll(old(subtlist), Needed(e, Whole(), sgrMap[..]))
      ensures r.Some? && NamesKeys(e, groupRefs) ==> Recovers(r.value, e, subtlist, Whole())
      decreases e, 1
    {
      if Forced(e) {
        r := MutateForced(e);
      } else if e.Var? {
        r := ResolveVar(e);
      } else {
        r := MutateOther(e);
      }
    }

    /** Aggregates, GROUPING and sublinks are always computed in the subquery. */
    method MutateForced(e: Expr) returns (r: Option<Expr>)
      requires Valid() && Forced(e)
      modifies this`subtlist
      ensures Valid() && old(subtlist) <= subtlist
      ensures r.Some? <==> Resolvable(e, Whole(), sgrMap.Length)
      ensures r.Some? ==> subtlist == AddAll(old(subtlist), Needed(e, Whole(), sgrMap[..]))
      ensures r.Some? && NamesKeys(e, groupRefs) ==> Recovers(r.value, e, subtlist, Whole())
    {
      if !e.Grouping? {
        r := VarFor(e, true);
        return;
      }
      var mapped := MapRefs(e.refs);
      if mapped.None? {
        return None;
      }
      if NamesKeys(e, groupRefs) {
        RenumberSame(e.refs, sgrMap[..], Whole());
      }
      r := VarFor(Grouping(mapped.value), true);
    }

    /** Any other node is a grouping key, or is rewritten part by part. */
    method MutateOther(e: Expr) returns (r: Option<Expr>)
      requires Valid() && !Forced(e) && !e.Var?
      modifies this`subtlist
      ensures Valid() && old(subtlist) <= subtlist
      ensures r.Some? <==> Resolvable(e, Whole(), sgrMap.Length)
      ensures r.Some? ==> subtlist == AddAll(old(subtlist), Needed(e, Whole(), sgrMap[..]))
      ensures r.Some? && NamesKeys(e, groupRefs) ==> Recovers(r.value, e, subtlist, Whole())
      decreases e, 0
    {
      ListedInKeys(e, keys, subtlist);
      r := VarFor(e, false);
      if r.Some? {
        return;
      }
      match e
      case Const(_) => r := Some(e);
      case Op(op, args) =>
        var rs := MutateAll(args);
        r := if rs.Some? then Some(Op(op, rs.value)) else None;
      case Window(win, args) =>
        var rs := MutateAll(args);
        r := if rs.Some? then Some(Window(win, rs.value)) else None;
    }

    /** Rewrites target entries in place of the old ones. */
    method MutateTargets(ts: seq<Target>) returns (r: Option<seq<Target>>)
      requires Valid()
      modifies this`subtlist
      ensures Valid() && old(subtlist) <= subtlist
      ensures r.Some? <==> AllResolvable(Exprs(ts), Whole(), sgrMap.Length)
      ensures r.Some? ==> subtlist == AddAll(old(subtlist), AllNeeded(Exprs(ts), Whole(), sgrMap[..]))
      ensures r.Some? && AllNameKeys(Exprs(ts), groupRefs) ==> Rewritten(r.value, ts, subtlist, Whole())
      decreases ts
    {
      if ts == [] {
        return Some([]);
      }
      assert Exprs(ts)[1..] == Exprs(ts[1..]);
      var first := Mutate(ts[0].expr);
      if first.None? {
        return None;
      }
      ghost var before := subtlist;
      var rest := MutateTargets(ts[1..]);
      if rest.None? {
        return None;
      }
      AddAllSplit(old(subtlist), Needed(ts[0].expr, Whole(), sgrMap[..]),
                  AllNeeded(Exprs(ts[1..]), Whole(), sgrMap[..]));
      if AllNameKeys(Exprs(ts), groupRefs) {
        RecoversGrows(first.value, ts[0].expr, before, subtlist, Whole());
      }
      r := Some([Target(first.value, ts[0].resno, ts[0].ref)] + rest.value);
      assert r.value[1..] == rest.value;
    }

    /** Rewrites the frame offsets of each window; its keys keep naming target entries. */
    method MutateClauses(cs: seq<WindowClause>) returns (r: Option<seq<WindowClause>>)
      requires Valid()
      modifies this`subtlist
      ensures Valid() && old(subtlist) <= subtlist
      ensures r.Some? <==> AllResolvable(Offsets(cs), Whole(), sgrMap.Length)
      ensures r.Some? ==> subtlist == AddAll(old(subtlist), AllNeeded(Offsets(cs), Whole(), sgrMap[..]))
      ensures r.Some? && AllNameKeys(Offsets(cs), groupRefs) ==> ClausesRewritten(r.value, cs, subtlist, Whole())
      decreases cs
    {
      if cs == [] {
        return Some([]);
      }
      ghost var now, later := cs[0].offsets, Offsets(cs[1..]);
      OffsetsSplit(now, later, Whole(), sgrMap[..], groupRefs);
      var first := MutateAll(cs[0].offsets);
      if first.None? {
        return None;
      }
      ghost var before := subtlist;
      var rest := MutateClauses(cs[1..]);
      if rest.None? {
        return None;
      }
      AddAllSplit(old(subtlist), AllNeeded(now, Whole(), sgrMap[..]), AllNeeded(later, Whole(), sgrMap[..]));
      r := Some([WindowClause(cs[0].keys, first.value)] + rest.value);
      if AllNameKeys(Offsets(cs), groupRefs) {
        AllRecoverGrows(first.value, now, before, subtlist, Whole());
        ClausesCons(first.value, rest.value, cs, subtlist, Whole());
      }
    }

    method MutateAll(es: seq<Expr>) returns (r: Option<seq<Expr>>)
      requires Valid()
      modifies this`subtlist
      ensures Valid() && old(subtlist) <= subtlist
      ensures r.Some? <==> AllResolvable(es, Whole(), sgrMap.Length)
      ensures r.Some? ==> subtlist == AddAll(old(subtlist), AllNeeded(es, Whole(), sgrMap[..]))
      ensures r.Some? && AllNameKeys(es, groupRefs) ==> AllRecover(r.value, es, subtlist, Whole())
      decreases es, 2
    {
      if es == [] {
        return Some([]);
      }
      var first := Mutate(es[0]);
      if first.None? {
        return None;
      }
      ghost var before := subtlist;
      var rest := MutateAll(es[1..]);
      if rest.None? {
        return None;
      }
      AddAllSplit(old(subtlist), Needed(es[0], Whole(), sgrMap[..]), AllNeeded(es[1..], Whole(), sgrMap[..]));
      if AllNameKeys(es, groupRefs) {
        RecoversGrows(first.value, es[0], before, subtlist, Whole());
      }
      r := Some([first.value] + rest.value);
      assert r.value[1..] == rest.value;
    }
  }

  lemma Assoc(a: seq<Expr>, b: seq<Expr>, c: seq<Expr>)
    ensures a + (b + c) == (a + b) + c && a + [] == [] + a
  {
  }

  function FromTarget(t: Target, varno: nat, attno: int): seq<Expr> {
    if t.expr.Var? && t.expr.varno == varno && t.expr.attno == attno then [t.expr] else []
  }

  lemma {:induction false} EntriesSnoc(ts: seq<Target>, t: Target, varno: nat, attno: int)
    ensures FromEntries(ts + [t], varno, attno) == FromEntries(ts, varno, attno) + FromTarget(t, varno, attno)
  {
    var last := FromTarget(t, varno, attno);
    if ts == [] {
      assert ts + [t] == [t] && [t][1..] == [];
      Assoc(last, [], []);
      assert FromEntries([t], varno, attno) == last + [];
    } else {
      var first, rest := FromTarget(ts[0], varno, attno), ts[1..] + [t];
      assert (ts + [t])[1..] == rest && (ts + [t])[0] == ts[0];
      EntriesSnoc(ts[1..], t, varno, attno);
      assert FromEntries(ts + [t], varno, attno) == first + FromEntries(rest, varno, attno);
      assert FromEntries(ts, varno, attno) == first + FromEntries(ts[1..], varno, attno);
      Assoc(first, FromEntries(ts[1..], varno, attno), last);
    }
  }

  function FromAlias(a: Expr, v: Expr, varno: nat, attno: int, ts: seq<Target>): seq<Expr> {
    if a == v then FromEntries(ts, varno, attno) else []
  }

  lemma {:induction false} AliasesSnoc(aliases: seq<Expr>, a: Expr, v: Expr, varno: nat, attno: int, ts: seq<Target>)
    ensures FromAliases(aliases + [a], v, varno, attno, ts)
            == FromAliases(aliases, v, varno, attno, ts) + FromAlias(a, v, varno, attno + |aliases|, ts)
  {
    var last := FromAlias(a, v, varno, attno + |aliases|, ts);
    if aliases == [] {
      assert aliases + [a] == [a] && [a][1..] == [];
      Assoc(last, [], []);
      assert FromAliases([a], v, varno, attno, ts) == last + [];
    } else {
      var first, rest := FromAlias(aliases[0], v, varno, attno, ts), aliases[1..] + [a];
      assert (aliases + [a])[1..] == rest && (aliases + [a])[0] == aliases[0];
      AliasesSnoc(aliases[1..], a, v, varno, attno + 1, ts);
      assert FromAliases(aliases + [a], v, varno, attno, ts) == first + FromAliases(rest, v, varno, attno + 1, ts);
      assert FromAliases(aliases, v, varno, attno, ts) == first + FromAliases(aliases[1..], v, varno, attno + 1, ts);
      Assoc(first, FromAliases(aliases[1..], v, varno, attno + 1, ts), last);
    }
  }

  /** What a range-table entry contributes. */
  function FromEntry(e: RangeEntry, v: Expr, varno: nat, ts: seq<Target>): seq<Expr> {
    if e.Join? then FromAliases(e.aliases, v, varno, 1, ts) else []
  }

  lemma {:induction false} JoinsSnoc(rt: seq<RangeEntry>, e: RangeEntry, v: Expr, varno: nat, ts: seq<Target>)
    ensures FromJoins(rt + [e], v, varno, ts) == FromJoins(rt, v, varno, ts) + FromEntry(e, v, varno + |rt|, ts)
  {
    if rt == [] {
      assert rt + [e] == [e] && [e][1..] == [];
      Assoc(FromEntry(e, v, varno, ts), [], []);
      assert FromJoins([e], v, varno, ts) == FromEntry(e, v, varno, ts) + [];
    } else {
      var rest := rt[1..] + [e];
      assert (rt + [e])[1..] == rest && (rt + [e])[0] == rt[0];
      JoinsSnoc(rt[1..], e, v, varno + 1, ts);
      var first := FromEntry(rt[0], v, varno, ts);
      assert FromJoins(rt + [e], v, varno, ts) == first + FromJoins(rest, v, varno + 1, ts);
      assert FromJoins(rt, v, varno, ts) == first + FromJoins(rt[1..], v, varno + 1, ts);
      Assoc(first, FromJoins(rt[1..], v, varno + 1, ts), FromEntry(e, v, varno + |rt|, ts));
    }
  }

  method EntryVars(ts: seq<Target>, varno: nat, attno: int) returns (alts: seq<Expr>)
    ensures alts == FromEntries(ts, varno, attno)
  {
    alts := [];
    for k := 0 to |ts|
      invariant alts == FromEntries(ts[..k], varno, attno)
    {
      EntriesSnoc(ts[..k], ts[k], varno, attno);
      assert ts[..k + 1] == ts[..k] + [ts[k]];
      var e := ts[k].expr;
      alts := alts + if e.Var? && e.varno == varno && e.attno == attno then [e] else [];
    }
    assert ts[..|ts|] == ts;
  }

  method AliasVars(aliases: seq<Expr>, v: Expr, varno: nat, ts: seq<Target>) returns (alts: seq<Expr>)
    ensures alts == FromAliases(aliases, v, varno, 1, ts)
  {
    alts := [];
    for j := 0 to |aliases|
      invariant alts == FromAliases(aliases[..j], v, varno, 1, ts)
    {
      AliasesSnoc(aliases[..j], aliases[j], v, varno, 1, ts);
      assert aliases[..j + 1] == aliases[..j] + [aliases[j]];
      var more := [];
      if aliases[j] == v {
        more := EntryVars(ts, varno, 1 + j);
      }
      alts := alts + more;
    }
    assert aliases[..|aliases|] == aliases;
  }

  method JoinVars(rt: seq<RangeEntry>, v: Expr, ts: seq<Target>) returns (alts: seq<Expr>)
    ensures alts == FromJoins(rt, v, 1, ts)
  {
    alts := [];
    for i := 0 to |rt|
      invariant alts == FromJoins(rt[..i], v, 1, ts)
    {
      JoinsSnoc(rt[..i], rt[i], v, 1, ts);
      assert rt[..i + 1] == rt[..i] + [rt[i]];
      var more := [];
      if rt[i].Join? {
        more := AliasVars(rt[i].aliases, v, 1 + i, ts);
      }
      alts := alts + more;
    }
    assert rt[..|rt|] == rt;
  }

  /** Join-alias spellings of a column, in range-table order. */
  method AlternateVars(v: Expr, rt: seq<RangeEntry>, ts: seq<Target>) returns (alts: seq<Expr>)
    requires v.Var?
    ensures alts == Alternates(v, rt, ts)
  {
    if !InTable(rt, v.varno) {
      return [];
    }
    match rt[v.varno - 1]
    case Join(aliases) =>
      alts := if 1 <= v.attno <= |aliases| && aliases[v.attno - 1].Var? then [aliases[v.attno - 1]] else [];
    case Plain =>
      alts := JoinVars(rt, v, ts);
  }

  function Offsets(cs: seq<WindowClause>): seq<Expr> {
    if cs == [] then [] else cs[0].offsets + Offsets(cs[1..])
  }

  lemma {:induction false} OffsetsSplit(a: seq<Expr>, b: seq<Expr>, s: Split, m: seq<nat>, refs: seq<nat>)
    ensures AllResolvable(a + b, s, |m|) <==> AllResolvable(a, s, |m|) && AllResolvable(b, s, |m|)
    ensures AllNameKeys(a + b, refs) <==> AllNameKeys(a, refs) && AllNameKeys(b, refs)
    ensures AllNeeded(a + b, s, m) == AllNeeded(a, s, m) + AllNeeded(b, s, m)
    decreases a
  {
    if a == [] {
      assert a + b == b && [] + AllNeeded(b, s, m) == AllNeeded(b, s, m);
    } else {
      assert (a + b)[1..] == a[1..] + b;
      OffsetsSplit(a[1..], b, s, m, refs);
    }
  }

  lemma ClausesCons(first: seq<Expr>, rest: seq<WindowClause>, cs: seq<WindowClause>, sub: seq<Target>, s: Split)
    requires cs != [] && AllRecover(first, cs[0].offsets, sub, s) && ClausesRewritten(rest, cs[1..], sub, s)
    ensures ClausesRewritten([WindowClause(cs[0].keys, first)] + rest, cs, sub, s)
  {
    var ds := [WindowClause(cs[0].keys, first)] + rest;
    forall k | 0 <= k < |cs|
      ensures ds[k].keys == cs[k].keys && AllRecover(ds[k].offsets, cs[k].offsets, sub, s)
    {
      if k > 0 {
        assert ds[k] == rest[k - 1] && cs[k] == cs[1..][k - 1];
      }
    }
  }

  lemma {:induction false} AddAllFrom(ts: seq<Target>, es: seq<Expr>)
    ensures ts <= AddAll(ts, es)
    ensures forall k | |ts| <= k < |AddAll(ts, es)| :: AddAll(ts, es)[k].expr in es && AddAll(ts, es)[k].ref == 0
    ensures forall e | e in es :: Listed(e, AddAll(ts, es))
    decreases es
  {
    if es != [] {
      var us := if Listed(es[0], ts) then ts else ts + [Target(es[0], |ts| + 1, 0)];
      AddAllFrom(us, es[1..]);
      ListedAt(es[0], ts);
      var j :| 0 <= j < |us| && us[j].expr == es[0];
      assert AddAll(ts, es)[j].expr == es[0];
      ListedAt(es[0], AddAll(ts, es));
    }
  }

  /** A node kept as it stands has the same value in the subquery as in the query; a GROUPING is renumbered instead. */
  ghost predicate SameValue(x: Expr, sub: seq<Target>, s: Split) {
    x.Grouping? || MovesTo(x, s.targets, sub)
  }

  lemma EntryGoodIff(x: Expr, sub: seq<Target>, s: Split)
    ensures GoodEntry(x, sub, s) <==> SameValue(x, sub, s)
  {
    MovesExactly(x, s.targets, sub);
  }

  /**
    The subquery's list is sound exactly when every key and every node moved has,
    in every group and whatever the window functions return, the value it had in
    the query.
   */
  lemma SubGoodIff(s: Split, needed: seq<Expr>, sub: seq<Target>)
    requires sub == AddAll(s.keys, needed) && LocalAliases(s.rt)
    ensures GoodSub(sub, s) <==>
              && (forall k | 0 <= k < |s.keys| :: SameValue(s.keys[k].expr, sub, s))
              && (forall k | 0 <= k < |needed| :: SameValue(needed[k], sub, s))
  {
    AddAllFrom(s.keys, needed);
    forall x: Expr
      ensures GoodEntry(x, sub, s) <==> SameValue(x, sub, s)
    {
      EntryGoodIff(x, sub, s);
    }
    if GoodSub(sub, s) {
      forall k | 0 <= k < |needed|
        ensures GoodEntry(needed[k], sub, s)
      {
        ListedAt(needed[k], sub);
        var j :| 0 <= j < |sub| && sub[j].expr == needed[k];
      }
      forall k | 0 <= k < |s.keys|
        ensures GoodEntry(s.keys[k].expr, sub, s)
      {
        assert sub[k] == s.keys[k];
      }
    }
  }

  datatype Outcome = Outcome(outer: seq<Target>, clauses: seq<WindowClause>, sub: seq<Target>)

  /** What the outer query needs from the subquery beyond the keys. */
  function QueryNeeds(targets: seq<Target>, cs: seq<WindowClause>, s: Split, m: seq<nat>): seq<Expr> {
    AllNeeded(Exprs(targets), s, m) + AllNeeded(Offsets(cs), s, m)
  }

  /**
    The whole split. It succeeds exactly when every grouping reference names a
    target and every column outside aggregates and sublinks is a grouping key;
    then the outer query recovers the original through the subquery's list,
    which holds the keys and, once each, what the outer query needs. The rows are
    the original's exactly when everything moved to that list is read right.
   */
  method SplitQuery(rt: seq<RangeEntry>, targets: seq<Target>, refs: seq<nat>, cs: seq<WindowClause>)
    returns (r: Option<Outcome>)
    ensures var s, m := Split(rt, targets, KeysOf(refs, targets)), TableOf(refs, targets);
            var sub := AddAll(s.keys, QueryNeeds(targets, cs, s, m));
            && (r.Some? <==>
                  && (forall k | 0 <= k < |refs| :: HasRef(targets, refs[k]))
                  && AllResolvable(Exprs(targets), s, |m|) && AllResolvable(Offsets(cs), s, |m|))
            && (r.Some? ==> r.value.sub == sub)
            && (r.Some? && AllNameKeys(Exprs(targets), refs) && AllNameKeys(Offsets(cs), refs) ==>
                  && Rewritten(r.value.outer, targets, sub, s)
                  && ClausesRewritten(r.value.clauses, cs, sub, s)
                  && (QueryUncaptured(cs, s) && GoodSub(sub, s) ==>
                        SameRows(r.value.outer, r.value.clauses, sub, cs, s))
                  && (LocalAliases(rt) && FlatWindows(cs, s) ==>
                        (SameRows(r.value.outer, r.value.clauses, sub, cs, s) <==> QueryRight(cs, sub, s))))
  {
    var ctx := new Context(rt, targets);
    var ok := ctx.Init(refs);
    if !ok {
      return None;
    }
    ghost var s, m := ctx.Whole(), ctx.sgrMap[..];
    var outer := ctx.MutateTargets(targets);
    if outer.None? {
      return None;
    }
    ghost var before := ctx.subtlist;
    var clauses := ctx.MutateClauses(cs);
    if clauses.None? {
      return None;
    }
    AddAllSplit(s.keys, AllNeeded(Exprs(targets), s, m), AllNeeded(Offsets(cs), s, m));
    if AllNameKeys(Exprs(targets), refs) {
      RewrittenGrows(outer.value, targets, before, ctx.subtlist, s);
    }
    r := Some(Outcome(outer.value, clauses.value, ctx.subtlist));
    if AllNameKeys(Exprs(targets), refs) && AllNameKeys(Offsets(cs), refs) {
      SplitRows(outer.value, clauses.value, cs, r.value.sub, s);
    }
  }

  lemma SplitRows(outer: seq<Target>, ds: seq<WindowClause>, cs: seq<WindowClause>, sub: seq<Target>, s: Split)
    requires Rewritten(outer, s.targets, sub, s) && ClausesRewritten(ds, cs, sub, s) && s.keys <= sub
    ensures QueryUncaptured(cs, s) && GoodSub(sub, s) ==> SameRows(outer, ds, sub, cs, s)
    ensures LocalAliases(s.rt) && FlatWindows(cs, s) ==> (SameRows(outer, ds, sub, cs, s) <==> QueryRight(cs, sub, s))
  {
    if QueryUncaptured(cs, s) && GoodSub(sub, s) {
      SoundQueryRight(outer, ds, cs, sub, s);
      AllRowsMean(outer, ds, cs, sub, s);
    }
    if LocalAliases(s.rt) && FlatWindows(cs, s) {
      QueryExact(outer, ds, cs, sub, s);
    }
  }

  lemma {:induction false} RewrittenGrows(outer: seq<Target>, targets: seq<Target>, sub: seq<Target>,
                                          more: seq<Target>, s: Split)
    requires Rewritten(outer, targets, sub, s) && sub <= more
    ensures Rewritten(outer, targets, more, s)
  {
    if targets != [] {
      RecoversGrows(outer[0].expr, targets[0].expr, sub, more, s);
      RewrittenGrows(outer[1..], targets[1..], sub, more, s);
    }
  }

  /** A query that groups by its second target and then its first. */
  lemma SwappedTles(first: Target, second: Target)
    requires first.ref == 1 && second.ref == 2
    ensures GroupTles([2, 1], [first, second]) == [second, first]
  {
    var targets, refs := [first, second], [2, 1];
    assert targets[1..] == [second];
    assert HasRef([second], 2) && FirstWith([second], 2) == second;
    assert FirstWith(targets, 2) == second && FirstWith(targets, 1) == first;
    assert refs[..1] == [2] && [2][..0] == [];
    assert GroupTles([], targets) == [];
    assert GroupTles([2], targets) == [second];
  }

  lemma SwappedPlaces(first: Target, second: Target)
    requires first.ref == 1 && second.ref == 2
    ensures var tles := [second, first];
            MaxOf(tles) == 2 && PlaceOf(tles, 0) == 0 && PlaceOf(tles, 1) == 2 && PlaceOf(tles, 2) == 1
  {
    var tles := [second, first];
    assert tles[..1] == [second] && [second][..0] == [];
    assert MaxOf([]) == 0 && MaxOf([second]) == 2;
    assert PlaceOf([second], 0) == 0 && PlaceOf([second], 2) == 1;
  }

  /** Its keys, and the table that renumbers their references. */
  lemma SwappedKeys(a: Expr, b: Expr)
    ensures var targets := [Target(a, 1, 1), Target(b, 2, 2)];
            && KeysOf([2, 1], targets) == [Target(b, 1, 1), Target(a, 2, 2)]
            && TableOf([2, 1], targets) == [0, 2, 1]
  {
    SwappedTles(Target(a, 1, 1), Target(b, 2, 2));
    SwappedPlaces(Target(a, 1, 1), Target(b, 2, 2));
  }

  /**
    A sublink whose test holds a GROUPING is moved without renumbering, and then
    returns another value: the query groups by its second target and then its
    first, so the references change places.
   */
  lemma GroupingInSublinkMisread()
    ensures var a, b := Var(0, 1, 1), Var(0, 1, 2);
            var targets := [Target(a, 1, 1), Target(b, 2, 2)];
            var m := TableOf([2, 1], targets);
            var s := Split([Plain], targets, KeysOf([2, 1], targets));
            var e := SubLink(0, [Grouping([1])]);
            && Resolvable(e, s, |m|) && Needed(e, s, m) == [e]
            && !SameValue(e, AddAll(s.keys, [e]), s)
            && Needed(Grouping([1]), s, m) == [Grouping([2])]
            && SameKeys([2], [1], s)
  {
    var a, b := Var(0, 1, 1), Var(0, 1, 2);
    SwappedKeys(a, b);
    var targets := [Target(a, 1, 1), Target(b, 2, 2)];
    var keys := [Target(b, 1, 1), Target(a, 2, 2)];
    var e := SubLink(0, [Grouping([1])]);
    var sub := AddAll(keys, [e]);
    AddAllFrom(keys, [e]);
    assert sub[0] == keys[0];
    assert [1][1..] == [] && [2][1..] == [];
    assert KeyExprs(sub, [1])[0] == KeyExpr(sub, 1) == b;
    assert KeyExprs(targets, [1])[0] == KeyExpr(targets, 1) == a;
    assert !AllKept([Grouping([1])], targets, sub);
    MovesExactly(e, targets, sub);
    var m: seq<nat> := [0, 2, 1];
    assert Renumber([1], m) == [2] + Renumber([1][1..], m);
    assert Renumber([1], m) == [2];
    assert keys[1..] == [Target(a, 2, 2)];
    assert KeyExpr(keys, 2) == KeyExpr(keys[1..], 2) == a;
    assert HasRef(keys[1..], 2);
  }

  /** A sublink whose test holds a window function is moved below the windows, and then returns another value. */
  lemma WindowInSublinkLost(s: Split, m: seq<nat>)
    ensures var e := SubLink(0, [Window(0, [])]);
            && Resolvable(e, s, |m|) && Needed(e, s, m) == [e]
            && !SameValue(e, AddAll(s.keys, [e]), s)
  {
    var e := SubLink(0, [Window(0, [])]);
    assert !AllWindowFree([Window(0, [])]);
    MovesExactly(e, s.targets, AddAll(s.keys, [e]));
  }

  /** Entry k of the keys: the expression some grouping reference names, renumbered to its position. */
  predicate KeyAt(t: Target, k: nat, refs: seq<nat>, targets: seq<Target>) {
    exists r | r in refs :: t == Target(KeyExpr(targets, r), k + 1, k + 1)
  }

  /** The target entries that grouping references name, each once, in the order of first mention. */
  function GroupTles(refs: seq<nat>, targets: seq<Target>): seq<Target> {
    if refs == [] then []
    else
      var before, r := GroupTles(refs[..|refs| - 1], targets), refs[|refs| - 1];
      if !HasRef(targets, r) || FirstWith(targets, r) in before then before else before + [FirstWith(targets, r)]
  }

  /** The grouping keys: those entries, renumbered by position. */
  function KeysOf(refs: seq<nat>, targets: seq<Target>): seq<Target> {
    var tles := GroupTles(refs, targets);
    seq(|tles|, k requires 0 <= k < |tles| => Target(tles[k].expr, k + 1, k + 1))
  }

  function MaxOf(tles: seq<Target>): nat {
    if tles == [] then 0
    else
      var m := MaxOf(tles[..|tles| - 1]);
      if tles[|tles| - 1].ref > m then tles[|tles| - 1].ref else m
  }

  /** Position of the entry with a reference, counted from 1; 0 for none. */
  function PlaceOf(tles: seq<Target>, r: int): nat {
    if tles == [] then 0 else if tles[|tles| - 1].ref == r then |tles| else PlaceOf(tles[..|tles| - 1], r)
  }

  /** The table that renumbers references of grouping keys. */
  function TableOf(refs: seq<nat>, targets: seq<Target>): seq<nat> {
    var tles := GroupTles(refs, targets);
    seq(MaxOf(tles) + 1, r requires 0 <= r => PlaceOf(tles, r))
  }

  method MaxRef(tles: seq<Target>) returns (max: nat)
    ensures max == MaxOf(tles)
    ensures forall k | 0 <= k < |tles| :: tles[k].ref <= max
  {
    max := 0;
    for i := 0 to |tles|
      invariant max == MaxOf(tles[..i])
      invariant forall k | 0 <= k < i :: tles[k].ref <= max
    {
      assert tles[..i + 1][..i] == tles[..i];
      if tles[i].ref > max {
        max := tles[i].ref;
      }
    }
    assert tles[..|tles|] == tles;
  }

  method NumberKeys(tles: seq<Target>, size: nat) returns (sub: seq<Target>, m: array<nat>)
    requires forall k | 0 <= k < |tles| :: 0 <= tles[k].ref < size
    ensures sub == seq(|tles|, k requires 0 <= k < |tles| => Target(tles[k].expr, k + 1, k + 1))
    ensures fresh(m) && m[..] == seq(size, r requires 0 <= r => PlaceOf(tles, r))
  {
    sub := [];
    m := new nat[size](_ => 0);
    for i := 0 to |tles|
      invariant |sub| == i && forall k | 0 <= k < i :: sub[k] == Target(tles[k].expr, k + 1, k + 1)
      invariant forall r | 0 <= r < size :: m[r] == PlaceOf(tles[..i], r)
    {
      assert tles[..i + 1][..i] == tles[..i];
      sub := sub + [Target(tles[i].expr, |sub| + 1, |sub| + 1)];
      m[tles[i].ref] := |sub|;
    }
    assert tles[..|tles|] == tles;
  }

  /** An entry that a grouping reference names. */
  predicate GroupOk(t: Target, refs: seq<nat>, targets: seq<Target>) {
    t.ref in refs && HasRef(targets, t.ref) && t == FirstWith(targets, t.ref)
  }

  lemma {:induction false} GroupRefs(refs: seq<nat>, targets: seq<Target>)
    ensures forall t | t in GroupTles(refs, targets) :: GroupOk(t, refs, targets)
  {
    if refs != [] {
      var before := refs[..|refs| - 1];
      GroupRefs(before, targets);
      forall t | t in GroupTles(refs, targets)
        ensures GroupOk(t, refs, targets)
      {
        if t in GroupTles(before, targets) {
          assert GroupOk(t, before, targets);
        }
      }
    }
  }

  lemma {:induction false} GroupCovers(refs: seq<nat>, targets: seq<Target>, k: nat)
    requires k < |refs| && HasRef(targets, refs[k])
    ensures FirstWith(targets, refs[k]) in GroupTles(refs, targets)
  {
    if k < |refs| - 1 {
      assert refs[..|refs| - 1][k] == refs[k];
      GroupCovers(refs[..|refs| - 1], targets, k);
    }
  }

  lemma {:induction false} PlaceFound(tles: seq<Target>, t: Target)
    requires t in tles
    ensures PlaceOf(tles, t.ref) != 0 && t.ref <= MaxOf(tles)
  {
    if tles[|tles| - 1] != t {
      assert t in tles[..|tles| - 1];
      PlaceFound(tles[..|tles| - 1], t);
    }
  }

  lemma {:induction false} PlaceIs(tles: seq<Target>, r: int)
    requires PlaceOf(tles, r) != 0
    ensures PlaceOf(tles, r) <= |tles| && tles[PlaceOf(tles, r) - 1].ref == r
  {
    if tles[|tles| - 1].ref != r {
      PlaceIs(tles[..|tles| - 1], r);
    }
  }

  lemma TableAt(refs: seq<nat>, targets: seq<Target>, r: nat)
    requires PlaceOf(GroupTles(refs, targets), r) != 0
    ensures var p := PlaceOf(GroupTles(refs, targets), r);
            HasRef(KeysOf(refs, targets), p) && KeyExpr(KeysOf(refs, targets), p) == KeyExpr(targets, r)
  {
    var tles := GroupTles(refs, targets);
    PlaceIs(tles, r);
    GroupRefs(refs, targets);
    assert GroupOk(tles[PlaceOf(tles, r) - 1], refs, targets);
    NumberedKey(KeysOf(refs, targets), PlaceOf(tles, r));
  }

  /** The renumbering table is sound and covers every grouping reference. */
  lemma TableGood(refs: seq<nat>, targets: seq<Target>, rt: seq<RangeEntry>)
    requires forall k | 0 <= k < |refs| :: HasRef(targets, refs[k])
    ensures GoodMap(TableOf(refs, targets), Split(rt, targets, KeysOf(refs, targets)))
    ensures Covers(TableOf(refs, targets), refs)
    ensures forall k | 0 <= k < |KeysOf(refs, targets)| :: KeyAt(KeysOf(refs, targets)[k], k, refs, targets)
  {
    var m, tles := TableOf(refs, targets), GroupTles(refs, targets);
    forall r | 0 <= r < |m| && m[r] != 0
      ensures HasRef(KeysOf(refs, targets), m[r]) && KeyExpr(KeysOf(refs, targets), m[r]) == KeyExpr(targets, r)
    {
      TableAt(refs, targets, r);
    }
    forall k | 0 <= k < |refs|
      ensures refs[k] < |m| && m[refs[k]] != 0
    {
      GroupCovers(refs, targets, k);
      PlaceFound(tles, FirstWith(targets, refs[k]));
    }
    GroupRefs(refs, targets);
    forall k | 0 <= k < |tles|
      ensures KeyAt(KeysOf(refs, targets)[k], k, refs, targets)
    {
      assert GroupOk(tles[k], refs, targets);
    }
  }

  function FirstWith(ts: seq<Target>, ref: int): (t: Target)
    requires HasRef(ts, ref)
    ensures t in ts && t.ref == ref && t.expr == KeyExpr(ts, ref)
  {
    if ts[0].ref == ref then ts[0] else FirstWith(ts[1..], ref)
  }

  lemma NumberedKey(keys: seq<Target>, r: nat)
    requires 1 <= r <= |keys| && forall k | 0 <= k < |keys| :: keys[k].ref == k + 1
    ensures HasRef(keys, r) && KeyExpr(keys, r) == keys[r - 1].expr
  {
    NumberedFrom(keys, 1, r);
  }

  lemma {:induction false} NumberedFrom(keys: seq<Target>, first: int, r: int)
    requires first <= r < first + |keys| && forall k | 0 <= k < |keys| :: keys[k].ref == k + first
    ensures HasRef(keys, r) && KeyExpr(keys, r) == keys[r - first].expr
  {
    if r > first {
      NumberedFrom(keys[1..], first + 1, r);
    }
  }
}
