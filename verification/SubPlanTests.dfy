/**
  The columns that the test of an ANY or ALL sublink compares. The test names
  them by column id, but its slots are filled with the first columns of each row
  of the body. The two readings agree exactly when the body's projection opens
  with the columns the test names.
 */
module SubPlanTests {
  import opened Options
  import opened Plans
  import opened Dxl
  import opened Closure
  import ClosureProof
  import ClosureSets

  // ----- tests in order -----

  /** The body's projection opens with the columns the test names. */
  predicate TestOpens(s: Scalar) {
    match s
    case Quantified(_, _, _, col, _, body) => body.cols != [] && body.cols[0] == col
    case RowTested(_, test, _, body) =>
      test.TwoColumns? ==> |body.cols| >= 2 && body.cols[0] == test.left && body.cols[1] == test.right
    case _ => true
  }

  /** A test on two columns names two different ones. */
  predicate NamesTwo(s: Scalar) {
    s.RowTested? && s.test.TwoColumns? ==> s.test.left != s.test.right
  }

  /** Every test, at any depth, is in order. */
  predicate InOrder(s: Scalar)
    decreases s, 0
  {
    && TestOpens(s) && NamesTwo(s)
    && match s
       case Apply(_, args) => forall a | a in args :: InOrder(a)
       case Subquery(_, _, body) => InOrderRel(body)
       case Quantified(_, _, lhs, _, _, body) => InOrder(lhs) && InOrderRel(body)
       case RowTested(_, _, _, body) => InOrderRel(body)
       case _ => true
  }

  predicate InOrderRel(r: Rel)
    decreases r, 0
  {
    && (forall s | s in r.exprs :: InOrder(s))
    && (forall s | s in r.filter :: InOrder(s))
    && (forall s | s in r.conds :: InOrder(s))
    && (forall k | k in r.children :: InOrderRel(k))
  }

  /** The first column is found at position 0, a different second one at position 1. */
  lemma OpensReads(rd: Reading, cols: seq<nat>, row: Row, env: Columns)
    ensures cols != [] ==> TestColumn(rd, cols[0], 0, cols, row, env) == At(row, 0)
    ensures |cols| >= 2 && cols[0] != cols[1] ==> TestColumn(rd, cols[1], 1, cols, row, env) == At(row, 1)
  {
    if |cols| >= 2 && cols[0] != cols[1] {
      assert cols[1..][0] == cols[1];
      assert Position(cols[1..], cols[1]) == 0;
      assert Position(cols, cols[1]) == 1;
    }
  }

  lemma OpensTests(db: Database, cmp: nat, v: Value, col: nat, cols: seq<nat>, rows: seq<Row>, env: Columns)
    requires cols != [] && cols[0] == col
    ensures Tests(db, ByName, cmp, v, col, cols, rows, env) == Tests(db, ByPosition, cmp, v, col, cols, rows, env)
  {
    forall i | 0 <= i < |rows|
      ensures TestColumn(ByName, col, 0, cols, rows[i], env) == TestColumn(ByPosition, col, 0, cols, rows[i], env)
    {
      OpensReads(ByName, cols, rows[i], env);
    }
  }

  lemma OpensRowTests(db: Database, test: RowTest, cols: seq<nat>, rows: seq<Row>, env: Columns)
    requires test.TwoColumns? ==>
               test.left != test.right && |cols| >= 2 && cols[0] == test.left && cols[1] == test.right
    ensures RowTests(db, ByName, test, cols, rows, env) == RowTests(db, ByPosition, test, cols, rows, env)
  {
    forall i | 0 <= i < |rows|
      ensures RowTestValue(db, ByName, test, cols, rows[i], env)
           == RowTestValue(db, ByPosition, test, cols, rows[i], env)
    {
      OpensReads(ByName, cols, rows[i], env);
    }
  }

  /** With every test in order a scalar means the same whichever way tests find their columns. */
  lemma {:induction false} NamesMean(db: Database, s: Scalar, env: Columns)
    requires InOrder(s)
    ensures Meaning(db, ByName, s, env) == Meaning(db, ByPosition, s, env)
    decreases s, 2
  {
    match s
    case Apply(_, args) => NamesMeanList(db, args, env);
    case Subquery(_, _, body) => NamesAnswer(db, body, env);
    case Quantified(_, cmp, lhs, col, _, body) =>
      NamesMean(db, lhs, env);
      NamesAnswer(db, body, env);
      OpensTests(db, cmp, Meaning(db, ByName, lhs, env), col, body.cols, Answer(db, ByName, body, env), env);
    case RowTested(_, test, _, body) =>
      NamesAnswer(db, body, env);
      OpensRowTests(db, test, body.cols, Answer(db, ByName, body, env), env);
    case _ =>
  }

  lemma {:induction false} NamesMeanList(db: Database, ss: seq<Scalar>, env: Columns)
    requires forall s | s in ss :: InOrder(s)
    ensures MeaningList(db, ByName, ss, env) == MeaningList(db, ByPosition, ss, env)
    decreases ss, 1
  {
    if ss != [] {
      NamesMean(db, ss[0], env);
      NamesMeanList(db, ss[1..], env);
    }
  }

  lemma {:induction false} NamesAnswer(db: Database, r: Rel, env: Columns)
    requires InOrderRel(r)
    ensures Answer(db, ByName, r, env) == Answer(db, ByPosition, r, env)
    decreases r, 2
  {
    NamesAnswers(db, r.children, env);
    forall e: Columns
      ensures MeaningList(db, ByName, r.exprs, e) == MeaningList(db, ByPosition, r.exprs, e)
      ensures MeaningList(db, ByName, r.filter, e) == MeaningList(db, ByPosition, r.filter, e)
      ensures MeaningList(db, ByName, r.conds, e) == MeaningList(db, ByPosition, r.conds, e)
    {
      NamesMeanList(db, r.exprs, e);
      NamesMeanList(db, r.filter, e);
      NamesMeanList(db, r.conds, e);
    }
    SameAnswer(db, r, env);
  }

  lemma {:induction false} NamesAnswers(db: Database, rs: seq<Rel>, env: Columns)
    requires forall r | r in rs :: InOrderRel(r)
    ensures AnswerList(db, ByName, rs, env) == AnswerList(db, ByPosition, rs, env)
    decreases rs, 1
  {
    if rs != [] {
      NamesAnswer(db, rs[0], env);
      NamesAnswers(db, rs[1..], env);
    }
  }

  /** An operator whose expressions and children read alike returns the same rows. */
  lemma SameAnswer(db: Database, r: Rel, env: Columns)
    requires AnswerList(db, ByName, r.children, env) == AnswerList(db, ByPosition, r.children, env)
    requires forall e: Columns :: MeaningList(db, ByName, r.exprs, e) == MeaningList(db, ByPosition, r.exprs, e)
    requires forall e: Columns :: MeaningList(db, ByName, r.filter, e) == MeaningList(db, ByPosition, r.filter, e)
    requires forall e: Columns :: MeaningList(db, ByName, r.conds, e) == MeaningList(db, ByPosition, r.conds, e)
    ensures Answer(db, ByName, r, env) == Answer(db, ByPosition, r, env)
  {
    var outer, inner := r.OuterCols(), r.InnerCols();
    var kids := AnswerList(db, ByName, r.children, env);
    var outs, inns := Input(kids, 0), Input(kids, 1);
    var x1 := seq(|outs|, i requires 0 <= i < |outs| =>
                seq(|inns|, j requires 0 <= j < |inns| =>
                  MeaningList(db, ByName, r.conds, Scope(env, outer, inner, (outs[i], inns[j])))));
    var x2 := seq(|outs|, i requires 0 <= i < |outs| =>
                seq(|inns|, j requires 0 <= j < |inns| =>
                  MeaningList(db, ByPosition, r.conds, Scope(env, outer, inner, (outs[i], inns[j])))));
    forall i | 0 <= i < |outs|
      ensures x1[i] == x2[i]
    {
    }
    assert x1 == x2;
    SameOutput(db, r, env, db.combine(r.kind, kids, x1));
  }

  lemma SameOutput(db: Database, r: Rel, env: Columns, ts: seq<Tuple>)
    requires forall e: Columns :: MeaningList(db, ByName, r.exprs, e) == MeaningList(db, ByPosition, r.exprs, e)
    requires forall e: Columns :: MeaningList(db, ByName, r.filter, e) == MeaningList(db, ByPosition, r.filter, e)
    ensures seq(|ts|, i requires 0 <= i < |ts| =>
              AllTrue(db, MeaningList(db, ByName, r.filter, Scope(env, r.OuterCols(), r.InnerCols(), ts[i]))))
         == seq(|ts|, i requires 0 <= i < |ts| =>
              AllTrue(db, MeaningList(db, ByPosition, r.filter, Scope(env, r.OuterCols(), r.InnerCols(), ts[i]))))
    ensures seq(|ts|, i requires 0 <= i < |ts| =>
              MeaningList(db, ByName, r.exprs, Scope(env, r.OuterCols(), r.InnerCols(), ts[i])))
         == seq(|ts|, i requires 0 <= i < |ts| =>
              MeaningList(db, ByPosition, r.exprs, Scope(env, r.OuterCols(), r.InnerCols(), ts[i])))
  {
  }

  /** A translated scalar has the value of the original, in which tests name their columns. */
  lemma ScalarMeans(db: Database, bodies: seq<Plan>, s: Scalar, pm: ParamMap, outer: seq<nat>, inner: seq<nat>,
                    st: State, lo: nat, env: Columns, params: Params, t: Tuple)
    requires Translate(s, pm, outer, inner, st).Ok?
    requires lo <= st.next && ClosureProof.InitSlots(st.inits, lo, st.next)
    requires NoShadow(s, pm.Keys) && ClosureProof.Disjoint(pm, outer, inner) && InOrder(s)
    requires ClosureProof.Runs(db, bodies, pm, lo, Translate(s, pm, outer, inner, st).st, env, params)
    ensures Eval(db, bodies, Translate(s, pm, outer, inner, st).v, params, t)
         == Meaning(db, ByName, s, Scope(env, outer, inner, t))
  {
    ClosureProof.TranslateMeans(db, bodies, s, pm, outer, inner, st, lo, env, params, t);
    NamesMean(db, s, Scope(env, outer, inner, t));
  }

  /** The translated statement returns the rows of the original, in which tests name their columns. */
  lemma StatementMeans(db: Database, r: Rel)
    requires TranslateStatement(r).Ok? && NoShadowRel(r, {}) && InOrderRel(r)
    ensures Rows(db, TranslateStatement(r).st.subplans, TranslateStatement(r).v, map[])
         == Answer(db, ByName, r, map[])
  {
    ClosureProof.StatementReads(db, r);
    NamesAnswer(db, r, map[]);
  }

  // ----- tests out of order -----

  /** The test's value does not depend on how it finds its columns. */
  ghost predicate ReadsAlike(s: Scalar) {
    forall db, env: Columns :: Meaning(db, ByPosition, s, env) == Meaning(db, ByName, s, env)
  }

  /** The body hands on columns of its input under their own ids. */
  predicate Projects(body: Rel) {
    |body.exprs| == |body.cols| && forall i | 0 <= i < |body.cols| :: body.exprs[i] == Ident(body.cols[i])
  }

  /** A row in which every column holds its own id. */
  function Coded(cols: seq<nat>): (row: Row)
    ensures |row| == |cols|
  {
    seq(|cols|, i requires 0 <= i < |cols| => Datum(cols[i]))
  }

  ghost predicate CodedIn(env: Columns, c: nat) {
    ColValue(env, c) == Datum(c)
  }

  predicate Compares(s: Scalar) {
    s.Quantified? || (s.RowTested? && s.test.TwoColumns?)
  }

  /** What a comparison returns, and a sublink over one row passes on, to tell the operands apart. */
  function Told(s: Scalar, args: seq<Value>): Value {
    if s.RowTested? && s.test.TwoColumns? then
      if args == [Datum(s.test.left), Datum(s.test.right)] then Datum(1) else Null
    else if |args| == 2 then args[1]
    else Null
  }

  /** Every operator returns one row whose columns hold their ids; a sublink returns the test of its first row. */
  function Telling(s: Scalar): Database
    requires Compares(s)
  {
    var t := (Coded(s.body.OuterCols()), Coded(s.body.InnerCols()));
    Database((op, args) => Told(s, args), v => true, (kind, kids, extra) => [t],
             (link, rows, tests) => if |tests| > 0 && |tests[0]| > 0 then tests[0][0] else Null)
  }

  lemma CodedScope(env: Columns, outer: seq<nat>, inner: seq<nat>, c: nat)
    requires c in outer || c in inner || CodedIn(env, c)
    ensures CodedIn(Scope(env, outer, inner, (Coded(outer), Coded(inner))), c)
  {
  }

  lemma {:induction false} CodedList(db: Database, rd: Reading, exprs: seq<Scalar>, cols: seq<nat>, env: Columns)
    requires |exprs| == |cols|
    requires forall i | 0 <= i < |cols| :: exprs[i] == Ident(cols[i]) && CodedIn(env, cols[i])
    ensures MeaningList(db, rd, exprs, env) == Coded(cols)
    decreases |exprs|
  {
    if exprs != [] {
      CodedList(db, rd, exprs[1..], cols[1..], env);
      assert Meaning(db, rd, exprs[0], env) == Datum(cols[0]);
      assert Coded(cols) == [Datum(cols[0])] + Coded(cols[1..]);
    }
  }

  lemma TellingAnswer(s: Scalar, rd: Reading, env: Columns)
    requires Compares(s) && Projects(s.body)
    requires forall c | c in s.body.cols :: c in s.body.OuterCols() || c in s.body.InnerCols() || CodedIn(env, c)
    ensures Answer(Telling(s), rd, s.body, env) == [Coded(s.body.cols)]
  {
    var body, db := s.body, Telling(s);
    var outer, inner := body.OuterCols(), body.InnerCols();
    var t := (Coded(outer), Coded(inner));
    var e := Scope(env, outer, inner, t);
    forall i | 0 <= i < |body.cols|
      ensures CodedIn(e, body.cols[i])
    {
      CodedScope(env, outer, inner, body.cols[i]);
    }
    CodedList(db, rd, body.exprs, body.cols, e);
    OneTuple(db, rd, body, env, t);
  }

  /** An operator that produces one tuple and drops none returns one row. */
  lemma OneTuple(db: Database, rd: Reading, r: Rel, env: Columns, t: Tuple)
    requires forall kids, extra :: db.combine(r.kind, kids, extra) == [t]
    requires forall v :: db.isTrue(v)
    ensures Answer(db, rd, r, env) == [MeaningList(db, rd, r.exprs, Scope(env, r.OuterCols(), r.InnerCols(), t))]
  {
    var outer, inner := r.OuterCols(), r.InnerCols();
    var kids := AnswerList(db, rd, r.children, env);
    var outs, inns := Input(kids, 0), Input(kids, 1);
    var extra := seq(|outs|, i requires 0 <= i < |outs| =>
                   seq(|inns|, j requires 0 <= j < |inns| =>
                     MeaningList(db, rd, r.conds, Scope(env, outer, inner, (outs[i], inns[j])))));
    var ts := db.combine(r.kind, kids, extra);
    assert ts == [t];
    var oks := seq(|ts|, i requires 0 <= i < |ts| =>
                 AllTrue(db, MeaningList(db, rd, r.filter, Scope(env, outer, inner, ts[i]))));
    var rows := seq(|ts|, i requires 0 <= i < |ts| => MeaningList(db, rd, r.exprs, Scope(env, outer, inner, ts[i])));
    assert oks == [true] && rows == [MeaningList(db, rd, r.exprs, Scope(env, outer, inner, t))];
    assert Select(oks[1..], rows[1..]) == [];
  }

  /** A sublink over the telling database has the value of the test on the one row of its body. */
  lemma TellingMeans(s: Scalar, rd: Reading, env: Columns)
    requires Compares(s) && Projects(s.body)
    requires forall c | c in s.body.cols :: c in s.body.OuterCols() || c in s.body.InnerCols() || CodedIn(env, c)
    ensures var row := Coded(s.body.cols);
            && (s.Quantified? ==>
                  Meaning(Telling(s), rd, s, env) == TestColumn(rd, s.col, 0, s.body.cols, row, env))
            && (s.RowTested? ==>
                  Meaning(Telling(s), rd, s, env)
                  == Told(s, [TestColumn(rd, s.test.left, 0, s.body.cols, row, env),
                              TestColumn(rd, s.test.right, 1, s.body.cols, row, env)]))
  {
    var db, row := Telling(s), Coded(s.body.cols);
    TellingAnswer(s, rd, env);
    if s.Quantified? {
      var v := Meaning(db, rd, s.lhs, env);
      var tests := Tests(db, rd, s.cmp, v, s.col, s.body.cols, [row], env);
      assert tests[0] == [Told(s, [v, TestColumn(rd, s.col, 0, s.body.cols, row, env)])];
    } else {
      var tests := RowTests(db, rd, s.test, s.body.cols, [row], env);
      assert tests[0] == [RowTestValue(db, rd, s.test, s.body.cols, row, env)];
    }
  }

  /** The column a test names holds its id, wherever the name is found. */
  lemma CodedColumn(c: nat, i: nat, cols: seq<nat>, env: Columns)
    requires c in cols || CodedIn(env, c)
    ensures TestColumn(ByName, c, i, cols, Coded(cols), env) == Datum(c)
    ensures TestColumn(ByPosition, c, i, cols, Coded(cols), env) == if i < |cols| then Datum(cols[i]) else Null
  {
  }

  /** The columns a test names are in its body's projection or coded in the environment. */
  ghost predicate NamesKnown(s: Scalar, env: Columns)
    requires Compares(s)
  {
    if s.Quantified? then s.col in s.body.cols || CodedIn(env, s.col)
    else
      && (s.test.left in s.body.cols || CodedIn(env, s.test.left))
      && (s.test.right in s.body.cols || CodedIn(env, s.test.right))
  }

  lemma OutOfOrderTold(s: Scalar, env: Columns)
    requires Compares(s) && Projects(s.body) && !TestOpens(s) && NamesKnown(s, env)
    requires forall c | c in s.body.cols :: c in s.body.OuterCols() || c in s.body.InnerCols() || CodedIn(env, c)
    ensures Meaning(Telling(s), ByPosition, s, env) != Meaning(Telling(s), ByName, s, env)
  {
    TellingMeans(s, ByName, env);
    TellingMeans(s, ByPosition, env);
    if s.Quantified? {
      CodedColumn(s.col, 0, s.body.cols, env);
    } else {
      CodedColumn(s.test.left, 0, s.body.cols, env);
      CodedColumn(s.test.right, 1, s.body.cols, env);
    }
  }

  /** The columns a comparison names. */
  function NamedBy(s: Scalar): seq<nat>
    requires Compares(s)
  {
    if s.Quantified? then [s.col] else [s.test.left, s.test.right]
  }

  /** For a body that hands on columns, a test has its value in every database exactly when the body opens with them. */
  lemma TestExact(s: Scalar)
    requires Compares(s) && NamesTwo(s) && Projects(s.body)
    requires InOrderRel(s.body) && (s.Quantified? ==> InOrder(s.lhs))
    ensures ReadsAlike(s) <==> TestOpens(s)
  {
    if TestOpens(s) {
      forall db, env: Columns
        ensures Meaning(db, ByPosition, s, env) == Meaning(db, ByName, s, env)
      {
        NamesMean(db, s, env);
      }
    } else {
      var env: Columns := map c | c in s.body.cols + NamedBy(s) :: Datum(c);
      assert forall c | c in s.body.cols :: CodedIn(env, c);
      assert forall c | c in NamedBy(s) :: CodedIn(env, c);
      assert NamesKnown(s, env) by {
        if s.RowTested? {
          assert s.test.left == NamedBy(s)[0] && s.test.right == NamedBy(s)[1];
        } else {
          assert s.col == NamedBy(s)[0];
        }
      }
      OutOfOrderTold(s, env);
    }
  }

  // ----- end to end -----

  /** A statement that computes one scalar. */
  function Computes(kind: nat, col: nat, s: Scalar): Rel {
    Rel(kind, [], [col], [s], [], [], [])
  }

  /** The translated statement returns the rows of the original in every database. */
  ghost predicate Preserved(r: Rel)
    requires TranslateStatement(r).Ok?
  {
    forall db :: Rows(db, TranslateStatement(r).st.subplans, TranslateStatement(r).v, map[])
              == Answer(db, ByName, r, map[])
  }

  lemma ComputesAnswer(kind: nat, col: nat, s: Scalar, rd: Reading)
    requires Compares(s)
    ensures Answer(Telling(s), rd, Computes(kind, col, s), map[]) == [[Meaning(Telling(s), rd, s, map[])]]
  {
    var r, db := Computes(kind, col, s), Telling(s);
    var t := (Coded(s.body.OuterCols()), Coded(s.body.InnerCols()));
    var none: Columns := map[];
    OneTuple(db, rd, r, none, t);
    assert r.OuterCols() == [] && r.InnerCols() == [];
    assert WithRow(none, [], t.0) == none && WithRow(none, [], t.1) == none;
    assert Scope(none, r.OuterCols(), r.InnerCols(), t) == none;
    assert r.exprs[1..] == [];
    assert MeaningList(db, rd, r.exprs, none) == [Meaning(db, rd, s, none)];
  }

  /** A body that is not correlated takes its columns from its own input. */
  lemma OwnColumns(s: Scalar)
    requires Compares(s) && ClosureSets.Resolves(s, {}, [], []) && Projects(s.body)
    ensures forall c | c in s.body.cols :: c in s.body.OuterCols() || c in s.body.InnerCols()
  {
    var outside: set<nat> := {};
    assert forall c | c in s.refs :: ClosureSets.InScope(c, outside, [], []);
    assert outside + (set c | c in s.refs) == outside;
    assert ClosureSets.ResolvesRel(s.body, outside);
    OwnList(s.body.exprs, s.body.cols, s.body.OuterCols(), s.body.InnerCols());
  }

  lemma {:induction false} OwnList(exprs: seq<Scalar>, cols: seq<nat>, outer: seq<nat>, inner: seq<nat>)
    requires |exprs| == |cols| && forall i | 0 <= i < |cols| :: exprs[i] == Ident(cols[i])
    requires ClosureSets.ResolvesList(exprs, {}, outer, inner)
    ensures forall c | c in cols :: c in outer || c in inner
    decreases |exprs|
  {
    if exprs != [] {
      assert ClosureSets.Resolves(exprs[0], {}, outer, inner) && exprs[0] == Ident(cols[0]);
      OwnList(exprs[1..], cols[1..], outer, inner);
      assert cols == [cols[0]] + cols[1..];
    }
  }

  /** End to end: a translated sublink keeps its value exactly when its body opens with the columns its test names. */
  lemma ComputesExact(kind: nat, col: nat, s: Scalar)
    requires TranslateStatement(Computes(kind, col, s)).Ok? && NoShadowRel(Computes(kind, col, s), {})
    requires Compares(s) && NamesTwo(s) && Projects(s.body) && (forall c | c in NamedBy(s) :: c in s.body.cols)
    requires InOrderRel(s.body) && (s.Quantified? ==> InOrder(s.lhs))
    ensures Preserved(Computes(kind, col, s)) <==> TestOpens(s)
  {
    var r := Computes(kind, col, s);
    if TestOpens(s) {
      forall db
        ensures Rows(db, TranslateStatement(r).st.subplans, TranslateStatement(r).v, map[])
             == Answer(db, ByName, r, map[])
      {
        StatementMeans(db, r);
      }
    } else {
      var db := Telling(s);
      ComputesResolves(kind, col, s);
      OwnColumns(s);
      NamedInBody(s);
      OutOfOrderTold(s, map[]);
      ComputesAnswer(kind, col, s, ByName);
      ComputesAnswer(kind, col, s, ByPosition);
      ClosureProof.StatementReads(db, r);
      assert [[Meaning(db, ByName, s, map[])]][0][0] != [[Meaning(db, ByPosition, s, map[])]][0][0];
    }
  }

  lemma NamedInBody(s: Scalar)
    requires Compares(s) && forall c | c in NamedBy(s) :: c in s.body.cols
    ensures NamesKnown(s, map[])
  {
    assert NamedBy(s)[0] in NamedBy(s);
    if s.RowTested? {
      assert NamedBy(s)[1] in NamedBy(s);
    }
  }

  lemma ComputesResolves(kind: nat, col: nat, s: Scalar)
    requires TranslateStatement(Computes(kind, col, s)).Ok?
    ensures ClosureSets.Resolves(s, {}, [], [])
  {
    var r := Computes(kind, col, s);
    var none: ParamMap := map[];
    assert none.Keys == {};
    ClosureSets.RelOk(r, none, State(0, [], []));
    assert ClosureSets.ResolvesList(r.exprs, {}, [], []);
  }

  // ----- the bodies the optimizer builds -----

  /** The listed columns, in the order of the projection. */
  function Kept(cols: seq<nat>, keep: set<nat>): seq<nat> {
    if cols == [] then []
    else (if cols[0] in keep then [cols[0]] else []) + Kept(cols[1..], keep)
  }

  function Idents(cols: seq<nat>): (r: seq<Scalar>)
    ensures |r| == |cols|
  {
    seq(|cols|, i requires 0 <= i < |cols| => Ident(cols[i]))
  }

  /** A Result over `node` that hands on the listed columns. */
  function Restricted(node: Rel, keep: set<nat>, result: nat): Rel {
    var cols := Kept(node.cols, keep);
    Rel(result, [], cols, Idents(cols), [], [], [node])
  }

  lemma {:induction false} KeptSnoc(cols: seq<nat>, c: nat, keep: set<nat>)
    ensures Kept(cols + [c], keep) == Kept(cols, keep) + if c in keep then [c] else []
    decreases |cols|
  {
    if cols == [] {
      assert [] + [c] == [c] && [c][1..] == [];
      assert Kept([c], keep) == (if c in keep then [c] else []) + Kept([], keep);
    } else {
      var head, last := if cols[0] in keep then [cols[0]] else [], if c in keep then [c] else [];
      assert (cols + [c])[1..] == cols[1..] + [c];
      KeptSnoc(cols[1..], c, keep);
      assert head + (Kept(cols[1..], keep) + last) == head + Kept(cols[1..], keep) + last;
    }
  }

  /** Restricts a projection to the required columns; one column is left as it is, and no column is an error. */
  method RestrictResult(node: Rel, keep: set<nat>, result: nat) returns (r: Option<Rel>)
    ensures r.None? <==> node.cols == []
    ensures |node.cols| == 1 ==> r == Some(node)
    ensures |node.cols| > 1 ==> r == Some(Restricted(node, keep, result))
  {
    if |node.cols| == 0 {
      return None;
    }
    if |node.cols| == 1 {
      return Some(node);
    }
    var cols, exprs := [], [];
    for i := 0 to |node.cols|
      invariant cols == Kept(node.cols[..i], keep) && exprs == Idents(cols)
    {
      var c := node.cols[i];
      assert node.cols[..i + 1] == node.cols[..i] + [c];
      KeptSnoc(node.cols[..i], c, keep);
      if c in keep {
        cols, exprs := cols + [c], exprs + [Ident(c)];
      }
    }
    assert node.cols[..|node.cols|] == node.cols;
    return Some(Rel(result, [], cols, exprs, [], [], [node]));
  }

  predicate Distinct(cols: seq<nat>) {
    forall i, j | 0 <= i < j < |cols| :: cols[i] != cols[j]
  }

  lemma {:induction false} KeptNone(cols: seq<nat>, keep: set<nat>)
    requires forall c | c in cols :: c !in keep
    ensures Kept(cols, keep) == []
    decreases |cols|
  {
    if cols != [] {
      assert cols[0] in cols;
      KeptNone(cols[1..], keep);
    }
  }

  lemma {:induction false} KeptOne(cols: seq<nat>, c: nat, keep: set<nat>)
    requires Distinct(cols) && c in cols && c in keep && forall d | d in cols && d in keep :: d == c
    ensures Kept(cols, keep) == [c]
    decreases |cols|
  {
    if cols[0] == c {
      forall d | d in cols[1..]
        ensures d !in keep
      {
        var j :| 1 <= j < |cols| && cols[j] == d;
        assert cols[0] != cols[j];
      }
      KeptNone(cols[1..], keep);
    } else {
      assert cols[0] !in keep by {
        assert cols[0] in cols;
      }
      KeptOne(cols[1..], c, keep);
    }
  }

  /** Two columns come out in the order the input has them in. */
  lemma {:induction false} KeptTwo(cols: seq<nat>, left: nat, right: nat)
    requires Distinct(cols) && left != right && left in cols && right in cols
    ensures Kept(cols, {left, right})
         == if Position(cols, left) < Position(cols, right) then [left, right] else [right, left]
    decreases |cols|
  {
    var keep := {left, right};
    if cols[0] == left || cols[0] == right {
      var other := if cols[0] == left then right else left;
      forall d | d in cols[1..] && d in keep
        ensures d == other
      {
        var j :| 1 <= j < |cols| && cols[j] == d;
        assert cols[0] != cols[j];
      }
      KeptOne(cols[1..], other, keep);
    } else {
      KeptTwo(cols[1..], left, right);
    }
  }

  lemma RestrictedOk(node: Rel, keep: set<nat>, result: nat)
    requires InOrderRel(node)
    ensures Projects(Restricted(node, keep, result)) && InOrderRel(Restricted(node, keep, result))
  {
    var body := Restricted(node, keep, result);
    forall s | s in body.exprs
      ensures InOrder(s)
    {
      var i :| 0 <= i < |body.cols| && s == Idents(body.cols)[i];
      assert s == Ident(body.cols[i]);
    }
  }

  /**
    The sublink built for a test on two columns of its input keeps its value
    exactly when the input happens to list the left column first.
   */
  lemma PairExact(node: Rel, quant: Link, cmp: nat, left: nat, right: nat, refs: seq<nat>, result: nat)
    requires Distinct(node.cols) && left != right && left in node.cols && right in node.cols && InOrderRel(node)
    ensures ReadsAlike(RowTested(quant, TwoColumns(cmp, left, right), refs, Restricted(node, {left, right}, result)))
            <==> Position(node.cols, left) < Position(node.cols, right)
  {
    var body := Restricted(node, {left, right}, result);
    var s := RowTested(quant, TwoColumns(cmp, left, right), refs, body);
    RestrictedOk(node, {left, right}, result);
    TestExact(s);
    PairOpens(s, node, result);
  }

  lemma PairOpens(s: Scalar, node: Rel, result: nat)
    requires s.RowTested? && s.test.TwoColumns? && s.test.left != s.test.right
    requires s.test.left in node.cols && s.test.right in node.cols && Distinct(node.cols)
    requires s.body == Restricted(node, {s.test.left, s.test.right}, result)
    ensures TestOpens(s) <==> Position(node.cols, s.test.left) < Position(node.cols, s.test.right)
  {
    KeptTwo(node.cols, s.test.left, s.test.right);
  }

  /** The sublink built for a test on one column of its input always keeps its value. */
  lemma SingleKept(node: Rel, quant: Link, cmp: nat, lhs: Scalar, col: nat, refs: seq<nat>, result: nat)
    requires Distinct(node.cols) && col in node.cols && InOrderRel(node) && InOrder(lhs)
    ensures ReadsAlike(Quantified(quant, cmp, lhs, col, refs, Restricted(node, {col}, result)))
  {
    KeptOne(node.cols, col, {col});
    RestrictedOk(node, {col}, result);
    TestExact(Quantified(quant, cmp, lhs, col, refs, Restricted(node, {col}, result)));
  }

  /** A scan that lists column 1 before column 2, and a test that compares column 2 with column 1. */
  const SCAN := Rel(0, [1, 2], [1, 2], [Ident(1), Ident(2)], [], [], [])
  const SWAPPED := RowTested(AnyLink, TwoColumns(5, 2, 1), [], Restricted(SCAN, {1, 2}, 1))

  lemma SwappedColumns()
    ensures TranslateStatement(Computes(1, 3, SWAPPED)).Ok? && !Preserved(Computes(1, 3, SWAPPED))
  {
    SwappedBody();
    SwappedResolves();
    ComputesExact(1, 3, SWAPPED);
  }

  lemma SwappedBody()
    ensures SWAPPED.body == Rel(1, [], [1, 2], [Ident(1), Ident(2)], [], [], [SCAN])
    ensures Compares(SWAPPED) && NamesTwo(SWAPPED) && Projects(SWAPPED.body) && !TestOpens(SWAPPED)
    ensures InOrderRel(SWAPPED.body) && forall c | c in NamedBy(SWAPPED) :: c in SWAPPED.body.cols
  {
    assert Position([1, 2], 1) == 0;
    KeptTwo([1, 2], 2, 1);
    assert Idents([1, 2]) == [Ident(1), Ident(2)];
    assert InOrderRel(SCAN);
  }

  lemma ScanResolves(outside: set<nat>)
    ensures ClosureSets.ResolvesList([Ident(1), Ident(2)], outside, [1, 2], [])
    ensures ClosureSets.ResolvesRel(SCAN, outside)
  {
    var exprs := [Ident(1), Ident(2)];
    assert exprs[1..] == [Ident(2)] && [Ident(2)][1..] == [];
    assert ClosureSets.ResolvesList([Ident(2)], outside, [1, 2], []);
    assert SCAN.OuterCols() == [1, 2] && SCAN.InnerCols() == [];
  }

  lemma SwappedResolves()
    ensures TranslateStatement(Computes(1, 3, SWAPPED)).Ok? && NoShadowRel(Computes(1, 3, SWAPPED), {})
  {
    SwappedBody();
    BodyResolves(SWAPPED.body, {});
    ComputesOk(1, 3, SWAPPED);
  }

  /** A statement that computes a sublink over a body of its own resolves when the body does. */
  lemma ComputesOk(kind: nat, col: nat, s: Scalar)
    requires s.RowTested? && s.refs == [] && ClosureSets.ResolvesRel(s.body, {}) && NoShadowRel(s.body, {})
    ensures TranslateStatement(Computes(kind, col, s)).Ok? && NoShadowRel(Computes(kind, col, s), {})
  {
    var r := Computes(kind, col, s);
    var none: ParamMap, outside: set<nat> := map[], {};
    assert none.Keys == outside && outside + (set c | c in s.refs) == outside;
    assert ClosureSets.Resolves(s, outside, [], []) && NoShadow(s, outside);
    assert r.exprs == [s] && r.exprs[1..] == [] && r.OuterCols() == [] && r.InnerCols() == [];
    assert ClosureSets.ResolvesList(r.exprs, outside, [], []);
    assert ClosureSets.ResolvesRel(r, outside);
    assert NoShadowRel(r, outside);
    ClosureSets.RelOk(r, none, State(0, [], []));
    assert TranslateRel(r, none, State(0, [], [])).Ok?;
  }

  lemma BodyResolves(body: Rel, outside: set<nat>)
    requires body == Rel(1, [], [1, 2], [Ident(1), Ident(2)], [], [], [SCAN]) && outside == {}
    ensures ClosureSets.ResolvesRel(body, outside) && NoShadowRel(body, outside)
  {
    ScanResolves(outside);
    assert body.OuterCols() == [1, 2] && body.InnerCols() == [] && body.children[1..] == [];
    assert NoShadowRel(SCAN, outside);
  }
}
