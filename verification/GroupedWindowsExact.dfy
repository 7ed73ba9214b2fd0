/**
  The other half of what a split query keeps: when the outer query reads some
  node wrong, groups and window functions exist for which a row differs.
 */
module GroupedWindowsExact {
  import opened GroupedWindows

  // ----- window functions are not nested -----

  /** Every window function of an expression satisfies `ok`, and none is nested in another's arguments. */
  ghost predicate WinsOk(e: Expr, ok: nat -> bool)
    decreases e, 0
  {
    match e
    case SubLink(_, test) => AllWinsOk(test, ok)
    case Op(_, args) => AllWinsOk(args, ok)
    case Window(win, args) => ok(win) && AllWinsOk(args, NEVER)
    case _ => true
  }

  ghost predicate AllWinsOk(es: seq<Expr>, ok: nat -> bool)
    decreases es, 1
  {
    es != [] ==> WinsOk(es[0], ok) && AllWinsOk(es[1..], ok)
  }

  const NEVER: nat -> bool := win => false

  ghost function Below(n: nat): nat -> bool {
    (win: nat) => win < n
  }

  /** Window functions name a clause, and neither arguments nor keys nor offsets hold window functions. */
  ghost predicate FlatWindows(cs: seq<WindowClause>, s: Split) {
    && AllWinsOk(Exprs(s.targets), Below(|cs|))
    && forall k | 0 <= k < |cs| :: FlatClause(cs[k], s)
  }

  ghost predicate FlatClause(c: WindowClause, s: Split) {
    AllWinsOk(KeyExprs(s.targets, c.keys), NEVER) && AllWinsOk(c.offsets, NEVER)
  }

  ghost predicate HeardWhere(w: MarkedWindows, ok: nat -> bool) {
    forall mark, win: nat, args | ok(win) :: w(mark)(win, args) != 0
  }

  lemma {:induction false} WinsHeard(e: Expr, ok: nat -> bool, w: MarkedWindows)
    requires WinsOk(e, ok) && HeardWhere(w, ok)
    ensures Heard(e, w)
    decreases e, 0
  {
    match e
    case SubLink(_, test) => AllWinsHeard(test, ok, w);
    case Op(_, args) => AllWinsHeard(args, ok, w);
    case _ =>
  }

  lemma {:induction false} AllWinsHeard(es: seq<Expr>, ok: nat -> bool, w: MarkedWindows)
    requires AllWinsOk(es, ok) && HeardWhere(w, ok)
    ensures AllHeard(es, w)
    decreases es, 1
  {
    if es != [] {
      WinsHeard(es[0], ok, w);
      AllWinsHeard(es[1..], ok, w);
    }
  }

  // ----- what is read wrong shows -----

  /** A window function whose arguments or clause are read wrong can return different values. */
  ghost predicate WindowsShow(u: MarkedWindows, w: MarkedWindows, sub: seq<Target>, s: Split, ok: nat -> bool,
                              named: nat -> bool) {
    forall win: nat, ts: seq<Expr>, es: seq<Expr> |
      named(win) && AllRecover(ts, es, sub, s) && AllWinsOk(es, NEVER) && !(ok(win) && AllRight(es, sub, s, ALWAYS)) ::
      Differs(u, w, win, ts, es)
  }

  ghost predicate Differs(u: MarkedWindows, w: MarkedWindows, win: nat, ts: seq<Expr>, es: seq<Expr>) {
    exists mark :: u(mark)(win, ts) != w(mark)(win, es)
  }

  lemma RecorderJoins(mark: seq<Expr>, rt: seq<RangeEntry>)
    requires LocalAliases(rt)
    ensures JoinsAgree(Recorder(mark), rt)
  {
  }

  /** An entry read wrong shows in some recording group. */
  lemma EntryShows(x: Expr, e: Expr, sub: seq<Target>, s: Split, w: MarkedWindows) returns (mark: seq<Expr>)
    requires Computes(x, e, s) && Moved(e, s) && !RightEntry(e, sub, s) && LocalAliases(s.rt) && Heard(e, w)
    ensures Eval(x, Recorder(mark), sub, NO_WINDOWS) != Eval(e, Recorder(mark), s.targets, w(mark))
  {
    if e.Var? {
      FirstListedIn(Alternates(e, s.rt, s.keys), s.keys);
      PickLevel(e, s.rt, s.keys, x);
      mark := [];
    } else {
      mark := MoveShows(e, s.targets, sub, w);
    }
  }

  lemma {:induction false} ReadShows(t: Expr, e: Expr, sub: seq<Target>, s: Split, ok: nat -> bool, named: nat -> bool,
                                     u: MarkedWindows, w: MarkedWindows) returns (mark: seq<Expr>)
    requires Recovers(t, e, sub, s) && !Right(e, sub, s, ok) && LocalAliases(s.rt)
    requires WinsOk(e, named) && HeardWhere(w, named) && WindowsShow(u, w, sub, s, ok, named)
    ensures Eval(t, Seen(Recorder(mark), sub), [], u(mark)) != Eval(e, Recorder(mark), s.targets, w(mark))
    decreases e, 0
  {
    if Moved(e, s) {
      WinsHeard(e, named, w);
      mark := EntryShows(sub[t.attno - 1].expr, e, sub, s, w);
      RowAt(sub, Recorder(mark), sub, NO_WINDOWS, t.attno - 1);
    } else {
      match e
      case Op(_, args) =>
        mark := ReadsShow(t.args, args, sub, s, ok, named, u, w);
        CodesDiffer(EvalAll(t.args, Seen(Recorder(mark), sub), [], u(mark)),
                    EvalAll(args, Recorder(mark), s.targets, w(mark)));
      case Window(win, args) =>
        assert Differs(u, w, win, t.args, args);
        mark :| u(mark)(win, t.args) != w(mark)(win, args);
    }
  }

  lemma {:induction false} ReadsShow(ts: seq<Expr>, es: seq<Expr>, sub: seq<Target>, s: Split, ok: nat -> bool,
                                     named: nat -> bool, u: MarkedWindows, w: MarkedWindows) returns (mark: seq<Expr>)
    requires AllRecover(ts, es, sub, s) && !AllRight(es, sub, s, ok) && LocalAliases(s.rt)
    requires AllWinsOk(es, named) && HeardWhere(w, named) && WindowsShow(u, w, sub, s, ok, named)
    ensures EvalAll(ts, Seen(Recorder(mark), sub), [], u(mark)) != EvalAll(es, Recorder(mark), s.targets, w(mark))
    decreases es, 1
  {
    if !Right(es[0], sub, s, ok) {
      mark := ReadShows(ts[0], es[0], sub, s, ok, named, u, w);
      assert EvalAll(ts, Seen(Recorder(mark), sub), [], u(mark))[0]
        != EvalAll(es, Recorder(mark), s.targets, w(mark))[0];
    } else {
      mark := ReadsShow(ts[1..], es[1..], sub, s, ok, named, u, w);
      var g := Recorder(mark);
      assert EvalAll(ts, Seen(g, sub), [], u(mark))[1..] == EvalAll(ts[1..], Seen(g, sub), [], u(mark));
      assert EvalAll(es, g, s.targets, w(mark))[1..] == EvalAll(es[1..], g, s.targets, w(mark));
    }
  }

  const SILENT: MarkedWindows := mark => NO_WINDOWS

  /** The same below the window functions. */
  lemma FlatReadsShow(ts: seq<Expr>, es: seq<Expr>, sub: seq<Target>, s: Split) returns (mark: seq<Expr>)
    requires AllRecover(ts, es, sub, s) && !AllRight(es, sub, s, ALWAYS) && LocalAliases(s.rt) && AllWinsOk(es, NEVER)
    ensures EvalAll(ts, Seen(Recorder(mark), sub), [], NO_WINDOWS) != EvalAll(es, Recorder(mark), s.targets, NO_WINDOWS)
  {
    mark := ReadsShow(ts, es, sub, s, ALWAYS, NEVER, SILENT, SILENT);
  }

  // ----- window functions that forget nothing -----

  function Codes(rows: seq<seq<int>>): seq<int> {
    if rows == [] then [] else [Code(rows[0])] + Codes(rows[1..])
  }

  /** A window function that returns all it was given, as a code. */
  const TELLING: Frames := (win, i, keys, offsets, args) => Code([Code(Codes(keys)), Code(offsets), Code(Codes(args))])

  lemma TellingDiffers(win: nat, keys: seq<int>, offsets: seq<int>, args: seq<int>,
                       keys': seq<int>, offsets': seq<int>, args': seq<int>)
    requires keys != keys' || offsets != offsets' || args != args'
    ensures TELLING(win, 0, [keys], offsets, [args]) != TELLING(win, 0, [keys'], offsets', [args'])
  {
    var a := [Code(Codes([keys])), Code(offsets), Code(Codes([args]))];
    var b := [Code(Codes([keys'])), Code(offsets'), Code(Codes([args']))];
    if a == b {
      assert a[0] == b[0] && a[1] == b[1] && a[2] == b[2];
      CodeInjective(offsets, offsets');
      OneRow(keys, keys');
      OneRow(args, args');
    } else {
      CodesDiffer(a, b);
    }
  }

  lemma OneRow(row: seq<int>, row': seq<int>)
    requires Code(Codes([row])) == Code(Codes([row']))
    ensures row == row'
  {
    CodeInjective(Codes([row]), Codes([row']));
    assert Codes([row])[0] == Code(row) && Codes([row'])[0] == Code(row');
    CodeInjective(row, row');
  }

  // ----- the whole query -----

  /** The window functions of a query over one recording group. */
  ghost function Windows(cs: seq<WindowClause>, outer: seq<Target>, g: Group, ts: seq<Target>): WindowValue {
    (win: nat, args: seq<Expr>) => WindowAt(TELLING, cs, outer, [g], ts, 0, win, args)
  }

  ghost function OuterWindows(ds: seq<WindowClause>, outer: seq<Target>, sub: seq<Target>): MarkedWindows {
    (mark: seq<Expr>) => Windows(ds, outer, Seen(Recorder(mark), sub), [])
  }

  ghost function QueryWindows(cs: seq<WindowClause>, targets: seq<Target>): MarkedWindows {
    (mark: seq<Expr>) => Windows(cs, targets, Recorder(mark), targets)
  }

  lemma OneGroup(es: seq<Expr>, g: Group, ts: seq<Target>)
    ensures PerGroup(es, [g], ts) == [EvalAll(es, g, ts, NO_WINDOWS)]
  {
    assert [g][1..] == [];
  }

  lemma WindowsAt(cs: seq<WindowClause>, outer: seq<Target>, g: Group, ts: seq<Target>, win: nat, args: seq<Expr>)
    requires win < |cs|
    ensures Windows(cs, outer, g, ts)(win, args)
         == TELLING(win, 0, [EvalAll(KeyExprs(outer, cs[win].keys), g, ts, NO_WINDOWS)],
                    EvalAll(cs[win].offsets, g, ts, NO_WINDOWS), [EvalAll(args, g, ts, NO_WINDOWS)])
    ensures Windows(cs, outer, g, ts)(win, args) != 0
  {
    OneGroup(KeyExprs(outer, cs[win].keys), g, ts);
    OneGroup(args, g, ts);
  }

  lemma QueryHeard(cs: seq<WindowClause>, targets: seq<Target>)
    ensures HeardWhere(QueryWindows(cs, targets), Below(|cs|))
  {
    forall mark: seq<Expr>, win: nat, args: seq<Expr> | win < |cs|
      ensures QueryWindows(cs, targets)(mark)(win, args) != 0
    {
      WindowsAt(cs, targets, Recorder(mark), targets, win, args);
    }
  }

  lemma WindowShows(outer: seq<Target>, ds: seq<WindowClause>, cs: seq<WindowClause>, sub: seq<Target>, s: Split,
                    win: nat, ts: seq<Expr>, es: seq<Expr>)
    requires Rewritten(outer, s.targets, sub, s) && ClausesRewritten(ds, cs, sub, s) && LocalAliases(s.rt)
    requires FlatWindows(cs, s) && win < |cs| && AllRecover(ts, es, sub, s) && AllWinsOk(es, NEVER)
    requires !(RightWindow(win, cs, sub, s) && AllRight(es, sub, s, ALWAYS))
    ensures Differs(OuterWindows(ds, outer, sub), QueryWindows(cs, s.targets), win, ts, es)
  {
    var keys, keys' := KeyExprs(s.targets, cs[win].keys), KeyExprs(outer, cs[win].keys);
    KeysRecover(outer, s.targets, cs[win].keys, sub, s);
    assert FlatClause(cs[win], s);
    var mark;
    if !AllRight(es, sub, s, ALWAYS) {
      mark := FlatReadsShow(ts, es, sub, s);
    } else if !AllRight(keys, sub, s, ALWAYS) {
      mark := FlatReadsShow(keys', keys, sub, s);
    } else {
      mark := FlatReadsShow(ds[win].offsets, cs[win].offsets, sub, s);
    }
    var g, seen := Recorder(mark), Seen(Recorder(mark), sub);
    WindowsAt(ds, outer, seen, [], win, ts);
    WindowsAt(cs, s.targets, g, s.targets, win, es);
    TellingDiffers(win, EvalAll(keys', seen, [], NO_WINDOWS), EvalAll(ds[win].offsets, seen, [], NO_WINDOWS),
                   EvalAll(ts, seen, [], NO_WINDOWS),
                   EvalAll(keys, g, s.targets, NO_WINDOWS), EvalAll(cs[win].offsets, g, s.targets, NO_WINDOWS),
                   EvalAll(es, g, s.targets, NO_WINDOWS));
    assert OuterWindows(ds, outer, sub)(mark)(win, ts) != QueryWindows(cs, s.targets)(mark)(win, es);
  }

  /** A query that reads something wrong returns another row for some group and window functions. */
  lemma WrongRow(outer: seq<Target>, ds: seq<WindowClause>, cs: seq<WindowClause>, sub: seq<Target>, s: Split)
    requires Rewritten(outer, s.targets, sub, s) && ClausesRewritten(ds, cs, sub, s) && LocalAliases(s.rt)
    requires FlatWindows(cs, s) && !QueryRight(cs, sub, s)
    ensures !SameRows(outer, ds, sub, cs, s)
  {
    var u, w, ok := OuterWindows(ds, outer, sub), QueryWindows(cs, s.targets), RightWindows(cs, sub, s);
    forall win: nat, ts: seq<Expr>, es: seq<Expr> |
      win < |cs| && AllRecover(ts, es, sub, s) && AllWinsOk(es, NEVER) && !(ok(win) && AllRight(es, sub, s, ALWAYS))
      ensures Differs(u, w, win, ts, es)
    {
      WindowShows(outer, ds, cs, sub, s, win, ts, es);
    }
    QueryHeard(cs, s.targets);
    ExprsRecover(outer, s.targets, sub, s);
    var mark := ReadsShow(Exprs(outer), Exprs(s.targets), sub, s, ok, Below(|cs|), u, w);
    RowsOfOne(outer, ds, cs, sub, s, mark);
  }

  lemma RowsOfOne(outer: seq<Target>, ds: seq<WindowClause>, cs: seq<WindowClause>, sub: seq<Target>, s: Split,
                  mark: seq<Expr>)
    requires LocalAliases(s.rt)
    requires EvalAll(Exprs(outer), Seen(Recorder(mark), sub), [], OuterWindows(ds, outer, sub)(mark))
          != EvalAll(Exprs(s.targets), Recorder(mark), s.targets, QueryWindows(cs, s.targets)(mark))
    ensures !SameRows(outer, ds, sub, cs, s)
  {
    var g := Recorder(mark);
    var gs := [g];
    RecorderJoins(mark, s.rt);
    assert AllJoinsAgree(gs, s.rt);
    SeenAt(gs, sub, 0);
    assert SeenAll(gs, sub) == [Seen(g, sub)];
    assert QueryRow(TELLING, outer, ds, SeenAll(gs, sub), [], 0)
        == EvalAll(Exprs(outer), Seen(g, sub), [], OuterWindows(ds, outer, sub)(mark));
    assert QueryRow(TELLING, s.targets, cs, gs, s.targets, 0)
        == EvalAll(Exprs(s.targets), g, s.targets, QueryWindows(cs, s.targets)(mark));
    assert !SameRow(outer, ds, sub, cs, s, TELLING, gs, 0);
  }

  /** The split query and the original return the same rows exactly when the outer query reads everything right. */
  lemma QueryExact(outer: seq<Target>, ds: seq<WindowClause>, cs: seq<WindowClause>, sub: seq<Target>, s: Split)
    requires Rewritten(outer, s.targets, sub, s) && ClausesRewritten(ds, cs, sub, s)
    requires s.keys <= sub && LocalAliases(s.rt) && FlatWindows(cs, s)
    ensures SameRows(outer, ds, sub, cs, s) <==> QueryRight(cs, sub, s)
  {
    if QueryRight(cs, sub, s) {
      AllRowsMean(outer, ds, cs, sub, s);
    } else {
      WrongRow(outer, ds, cs, sub, s);
    }
  }
}
