/**
  The driver that expands virtual generated columns in a whole statement, and
  the one-walk reference it agrees with. The driver enters range-table
  subqueries and WITH queries but not sublinks, and skips a query with
  grouping sets; a frame records, for one enclosing query, its virtual columns
  and whether the driver expanded them.
 */
module VirtualExpansion {
  import opened Queries
  import opened VirtualColumns

  datatype Frame = Frame(gens: map<nat, Columns>, active: bool)

  /** Which references to virtual columns are asked about. */
  datatype Kind = Any | NulledSeen | Skipped

  function GensUpTo(rs: seq<Entry<nat>>, cat: Catalog, i: nat): map<nat, Columns>
    requires i <= |rs|
  {
    if i == 0 then map[]
    else
      var m := GensUpTo(rs, cat, i - 1);
      if rs[i - 1].Relation? && rs[i - 1].relid in cat then m[i := ColumnsAt(cat[rs[i - 1].relid], i)] else m
  }

  function FrameOf(q: Query<nat>, cat: Catalog, entered: bool): Frame {
    Frame(GensUpTo(q.rtable, cat, |q.rtable|), entered && !q.groupingSets)
  }

  predicate Named(fs: seq<Frame>, k: nat, varno: nat, attno: nat) {
    k < |fs| && varno in fs[k].gens && attno in fs[k].gens[varno]
  }

  predicate Wanted(kind: Kind, active: bool, nulled: bool) {
    match kind
    case Any => true
    case NulledSeen => active && nulled
    case Skipped => !active
  }

  // ----- one walk over everything -----

  function Subst(e: Expr<nat>, fs: seq<Frame>, cat: Catalog): Expr<nat>
    decreases e, 0
  {
    match e
    case Var(k, varno, attno, nulled) =>
      if Named(fs, k, varno, attno) && fs[k].active && !nulled then Raise(fs[k].gens[varno][attno], k) else e
    case Aggregate(k, args) => Aggregate(k, SubstAll(args, fs, cat))
    case Lit(_) => e
    case Apply(op, args) => Apply(op, SubstAll(args, fs, cat))
    case SubLink(test, query) => SubLink(SubstAll(test, fs, cat), SubstQuery(query, fs, cat, false))
  }

  function SubstAll(es: seq<Expr<nat>>, fs: seq<Frame>, cat: Catalog): seq<Expr<nat>>
    decreases es, 1
  {
    if es == [] then [] else [Subst(es[0], fs, cat)] + SubstAll(es[1..], fs, cat)
  }

  function SubstEntry(r: Entry<nat>, fs: seq<Frame>, cat: Catalog, entered: bool): Entry<nat>
    decreases r, 0
  {
    match r
    case Derived(name, query) => Derived(name, SubstQuery(query, fs, cat, entered))
    case Computed(exprs) => Computed(SubstAll(exprs, fs, cat))
    case _ => r
  }

  function SubstEntries(rs: seq<Entry<nat>>, fs: seq<Frame>, cat: Catalog, entered: bool): seq<Entry<nat>>
    decreases rs, 1
  {
    if rs == [] then [] else [SubstEntry(rs[0], fs, cat, entered)] + SubstEntries(rs[1..], fs, cat, entered)
  }

  /** The query's contents, with the query's own frame at the head of `fs`. */
  function SubstBody(q: Query<nat>, fs: seq<Frame>, cat: Catalog, entered: bool): Query<nat>
    decreases q, 0
  {
    Query(SubstEntries(q.ctes, fs, cat, entered), SubstEntries(q.rtable, fs, cat, entered),
          SubstAll(q.targets, fs, cat), SubstAll(q.clauses, fs, cat), SubstAll(q.having, fs, cat), q.groupingSets)
  }

  function SubstQuery(q: Query<nat>, fs: seq<Frame>, cat: Catalog, entered: bool): Query<nat>
    decreases q, 1
  {
    SubstBody(q, [FrameOf(q, cat, entered)] + fs, cat, entered)
  }

  /** Does some reference of the given kind occur? */
  predicate Refers(e: Expr<nat>, fs: seq<Frame>, cat: Catalog, kind: Kind)
    decreases e, 0
  {
    match e
    case Var(k, varno, attno, nulled) => Named(fs, k, varno, attno) && Wanted(kind, fs[k].active, nulled)
    case Aggregate(_, args) => AnyRefers(args, fs, cat, kind)
    case Lit(_) => false
    case Apply(_, args) => AnyRefers(args, fs, cat, kind)
    case SubLink(test, query) => AnyRefers(test, fs, cat, kind) || QueryRefers(query, fs, cat, false, kind)
  }

  predicate AnyRefers(es: seq<Expr<nat>>, fs: seq<Frame>, cat: Catalog, kind: Kind)
    decreases es, 1
  {
    es != [] && (Refers(es[0], fs, cat, kind) || AnyRefers(es[1..], fs, cat, kind))
  }

  predicate EntryRefers(r: Entry<nat>, fs: seq<Frame>, cat: Catalog, entered: bool, kind: Kind)
    decreases r, 0
  {
    match r
    case Derived(_, query) => QueryRefers(query, fs, cat, entered, kind)
    case Computed(exprs) => AnyRefers(exprs, fs, cat, kind)
    case _ => false
  }

  predicate EntriesRefer(rs: seq<Entry<nat>>, fs: seq<Frame>, cat: Catalog, entered: bool, kind: Kind)
    decreases rs, 1
  {
    rs != [] && (EntryRefers(rs[0], fs, cat, entered, kind) || EntriesRefer(rs[1..], fs, cat, entered, kind))
  }

  predicate BodyRefers(q: Query<nat>, fs: seq<Frame>, cat: Catalog, entered: bool, kind: Kind)
    decreases q, 0
  {
    || EntriesRefer(q.ctes, fs, cat, entered, kind)
    || EntriesRefer(q.rtable, fs, cat, entered, kind)
    || AnyRefers(q.targets, fs, cat, kind)
    || AnyRefers(q.clauses, fs, cat, kind)
    || AnyRefers(q.having, fs, cat, kind)
  }

  predicate QueryRefers(q: Query<nat>, fs: seq<Frame>, cat: Catalog, entered: bool, kind: Kind)
    decreases q, 1
  {
    BodyRefers(q, [FrameOf(q, cat, entered)] + fs, cat, entered, kind)
  }

  // ----- the fallback flag of the walk for one relation -----

  predicate Flags(e: Expr<nat>, rt: nat, g: Columns, n: nat)
    decreases e, 0
  {
    match e
    case Var(k, varno, attno, nulled) => k == n && varno == rt && attno in g && nulled
    case Aggregate(_, args) => AnyFlags(args, rt, g, n)
    case Lit(_) => false
    case Apply(_, args) => AnyFlags(args, rt, g, n)
    case SubLink(test, query) => AnyFlags(test, rt, g, n) || QueryFlags(query, rt, g, n + 1)
  }

  predicate AnyFlags(es: seq<Expr<nat>>, rt: nat, g: Columns, n: nat)
    decreases es, 1
  {
    es != [] && (Flags(es[0], rt, g, n) || AnyFlags(es[1..], rt, g, n))
  }

  predicate EntryFlags(r: Entry<nat>, rt: nat, g: Columns, n: nat)
    decreases r, 0
  {
    match r
    case Derived(_, query) => QueryFlags(query, rt, g, n + 1)
    case Computed(exprs) => AnyFlags(exprs, rt, g, n)
    case _ => false
  }

  predicate EntriesFlag(rs: seq<Entry<nat>>, rt: nat, g: Columns, n: nat)
    decreases rs, 1
  {
    rs != [] && (EntryFlags(rs[0], rt, g, n) || EntriesFlag(rs[1..], rt, g, n))
  }

  predicate QueryFlags(q: Query<nat>, rt: nat, g: Columns, n: nat)
    decreases q, 0
  {
    || EntriesFlag(q.ctes, rt, g, n)
    || EntriesFlag(q.rtable, rt, g, n)
    || AnyFlags(q.targets, rt, g, n)
    || AnyFlags(q.clauses, rt, g, n)
    || AnyFlags(q.having, rt, g, n)
  }

  // ----- frames -----

  ghost predicate GoodFrame(f: Frame) {
    forall v | v in f.gens :: GoodColumns(f.gens[v], v)
  }

  ghost predicate GoodFrames(fs: seq<Frame>) {
    forall k | 0 <= k < |fs| :: GoodFrame(fs[k])
  }

  lemma {:induction false} GensGood(rs: seq<Entry<nat>>, cat: Catalog, i: nat)
    requires GoodCatalog(cat) && i <= |rs|
    ensures forall v | v in GensUpTo(rs, cat, i) :: v <= i && GoodColumns(GensUpTo(rs, cat, i)[v], v)
  {
    if i > 0 {
      GensGood(rs, cat, i - 1);
      if rs[i - 1].Relation? && rs[i - 1].relid in cat {
        ColumnsAtGood(cat[rs[i - 1].relid], i);
      }
    }
  }

  lemma FrameGood(q: Query<nat>, cat: Catalog, entered: bool)
    requires GoodCatalog(cat)
    ensures GoodFrame(FrameOf(q, cat, entered))
  {
    GensGood(q.rtable, cat, |q.rtable|);
  }

  lemma {:induction false} GensOfSubst(rs: seq<Entry<nat>>, ts: seq<Entry<nat>>, cat: Catalog, i: nat)
    requires i <= |rs| == |ts|
    requires forall j | 0 <= j < |rs| :: rs[j].Relation? || ts[j].Relation? ==> rs[j] == ts[j]
    ensures GensUpTo(rs, cat, i) == GensUpTo(ts, cat, i)
  {
    if i > 0 {
      GensOfSubst(rs, ts, cat, i - 1);
    }
  }

  lemma {:induction false} SubstEntriesAt(rs: seq<Entry<nat>>, fs: seq<Frame>, cat: Catalog, entered: bool)
    ensures |SubstEntries(rs, fs, cat, entered)| == |rs|
    ensures forall j | 0 <= j < |rs| :: SubstEntries(rs, fs, cat, entered)[j] == SubstEntry(rs[j], fs, cat, entered)
  {
    if rs != [] {
      SubstEntriesAt(rs[1..], fs, cat, entered);
    }
  }

  // ----- a frame the driver does not use -----

  ghost predicate Idle(f: Frame) {
    !f.active || f.gens == map[]
  }

  lemma {:induction false} IdleLast(e: Expr<nat>, fs: seq<Frame>, f: Frame, cat: Catalog)
    requires Idle(f)
    ensures Subst(e, fs + [f], cat) == Subst(e, fs, cat)
    ensures Refers(e, fs + [f], cat, NulledSeen) == Refers(e, fs, cat, NulledSeen)
    decreases e, 0
  {
    match e
    case Var(k, _, _, _) =>
      if k < |fs| {
        assert (fs + [f])[k] == fs[k];
      }
    case Aggregate(_, args) => IdleLastAll(args, fs, f, cat);
    case Lit(_) =>
    case Apply(_, args) => IdleLastAll(args, fs, f, cat);
    case SubLink(test, query) => IdleLastAll(test, fs, f, cat); IdleLastQuery(query, fs, f, cat, false);
  }

  lemma {:induction false} IdleLastAll(es: seq<Expr<nat>>, fs: seq<Frame>, f: Frame, cat: Catalog)
    requires Idle(f)
    ensures SubstAll(es, fs + [f], cat) == SubstAll(es, fs, cat)
    ensures AnyRefers(es, fs + [f], cat, NulledSeen) == AnyRefers(es, fs, cat, NulledSeen)
    decreases es, 1
  {
    if es != [] {
      IdleLast(es[0], fs, f, cat);
      IdleLastAll(es[1..], fs, f, cat);
    }
  }

  lemma {:induction false} IdleLastEntry(r: Entry<nat>, fs: seq<Frame>, f: Frame, cat: Catalog, entered: bool)
    requires Idle(f)
    ensures SubstEntry(r, fs + [f], cat, entered) == SubstEntry(r, fs, cat, entered)
    ensures EntryRefers(r, fs + [f], cat, entered, NulledSeen) == EntryRefers(r, fs, cat, entered, NulledSeen)
    decreases r, 0
  {
    match r
    case Derived(_, query) => IdleLastQuery(query, fs, f, cat, entered);
    case Computed(exprs) => IdleLastAll(exprs, fs, f, cat);
    case _ =>
  }

  lemma {:induction false} IdleLastEntries(rs: seq<Entry<nat>>, fs: seq<Frame>, f: Frame, cat: Catalog, entered: bool)
    requires Idle(f)
    ensures SubstEntries(rs, fs + [f], cat, entered) == SubstEntries(rs, fs, cat, entered)
    ensures EntriesRefer(rs, fs + [f], cat, entered, NulledSeen) == EntriesRefer(rs, fs, cat, entered, NulledSeen)
    decreases rs, 1
  {
    if rs != [] {
      IdleLastEntry(rs[0], fs, f, cat, entered);
      IdleLastEntries(rs[1..], fs, f, cat, entered);
    }
  }

  lemma {:induction false} IdleLastBody(q: Query<nat>, fs: seq<Frame>, f: Frame, cat: Catalog, entered: bool)
    requires Idle(f)
    ensures SubstBody(q, fs + [f], cat, entered) == SubstBody(q, fs, cat, entered)
    ensures BodyRefers(q, fs + [f], cat, entered, NulledSeen) == BodyRefers(q, fs, cat, entered, NulledSeen)
    decreases q, 0
  {
    IdleLastEntries(q.ctes, fs, f, cat, entered);
    IdleLastEntries(q.rtable, fs, f, cat, entered);
    IdleLastAll(q.targets, fs, f, cat);
    IdleLastAll(q.clauses, fs, f, cat);
    IdleLastAll(q.having, fs, f, cat);
  }

  /** An unused outermost frame changes nothing. */
  lemma {:induction false} IdleLastQuery(q: Query<nat>, fs: seq<Frame>, f: Frame, cat: Catalog, entered: bool)
    requires Idle(f)
    ensures SubstQuery(q, fs + [f], cat, entered) == SubstQuery(q, fs, cat, entered)
    ensures QueryRefers(q, fs + [f], cat, entered, NulledSeen) == QueryRefers(q, fs, cat, entered, NulledSeen)
    decreases q, 1
  {
    var own := [FrameOf(q, cat, entered)];
    assert own + (fs + [f]) == (own + fs) + [f];
    IdleLastBody(q, own + fs, f, cat, entered);
  }

  // ----- nothing in use: the walk is the identity -----

  lemma {:induction false} Quiet(e: Expr<nat>, fs: seq<Frame>, cat: Catalog)
    requires forall k | 0 <= k < |fs| :: Idle(fs[k])
    ensures Subst(e, fs, cat) == e && !Refers(e, fs, cat, NulledSeen)
    decreases e, 0
  {
    match e
    case Var(_, _, _, _) =>
    case Aggregate(_, args) => QuietAll(args, fs, cat);
    case Lit(_) =>
    case Apply(_, args) => QuietAll(args, fs, cat);
    case SubLink(test, query) => QuietAll(test, fs, cat); QuietQuery(query, fs, cat);
  }

  lemma {:induction false} QuietAll(es: seq<Expr<nat>>, fs: seq<Frame>, cat: Catalog)
    requires forall k | 0 <= k < |fs| :: Idle(fs[k])
    ensures SubstAll(es, fs, cat) == es && !AnyRefers(es, fs, cat, NulledSeen)
    decreases es, 1
  {
    if es != [] {
      Quiet(es[0], fs, cat);
      QuietAll(es[1..], fs, cat);
    }
  }

  lemma {:induction false} QuietEntry(r: Entry<nat>, fs: seq<Frame>, cat: Catalog)
    requires forall k | 0 <= k < |fs| :: Idle(fs[k])
    ensures SubstEntry(r, fs, cat, false) == r && !EntryRefers(r, fs, cat, false, NulledSeen)
    decreases r, 0
  {
    match r
    case Derived(_, query) => QuietQuery(query, fs, cat);
    case Computed(exprs) => QuietAll(exprs, fs, cat);
    case _ =>
  }

  lemma {:induction false} QuietEntries(rs: seq<Entry<nat>>, fs: seq<Frame>, cat: Catalog)
    requires forall k | 0 <= k < |fs| :: Idle(fs[k])
    ensures SubstEntries(rs, fs, cat, false) == rs && !EntriesRefer(rs, fs, cat, false, NulledSeen)
    decreases rs, 1
  {
    if rs != [] {
      QuietEntry(rs[0], fs, cat);
      QuietEntries(rs[1..], fs, cat);
    }
  }

  lemma {:induction false} QuietQuery(q: Query<nat>, fs: seq<Frame>, cat: Catalog)
    requires forall k | 0 <= k < |fs| :: Idle(fs[k])
    ensures SubstQuery(q, fs, cat, false) == q && !QueryRefers(q, fs, cat, false, NulledSeen)
    decreases q, 0
  {
    var gs := [FrameOf(q, cat, false)] + fs;
    QuietEntries(q.ctes, gs, cat);
    QuietEntries(q.rtable, gs, cat);
    QuietAll(q.targets, gs, cat);
    QuietAll(q.clauses, gs, cat);
    QuietAll(q.having, gs, cat);
  }

  // ----- one more relation -----

  /** A frame with the columns of one more relation. */
  function With(m: Frame, rt: nat, g: Columns): Frame {
    m.(gens := m.gens[rt := g])
  }

  /** The walk for entry `rt` of the outermost query adds exactly that entry's columns to what is already replaced. */
  ghost predicate CanStep(fs: seq<Frame>, m: Frame, rt: nat, g: Columns, n: nat, cat: Catalog) {
    && |fs| == n && GoodFrames(fs) && GoodFrame(m) && GoodCatalog(cat)
    && m.active && rt !in m.gens && GoodColumns(g, rt)
  }

  lemma {:induction false} RaiseStays(e: Expr<nat>, v: nat, k: nat, rt: nat, g: Columns, n: nat)
    requires Over(e, v) && (k != n || v != rt)
    ensures Replace(Raise(e, k), rt, g, n) == Raise(e, k) && !Flags(Raise(e, k), rt, g, n)
    decreases e, 0
  {
    match e
    case Apply(_, args) => RaiseAllStays(args, v, k, rt, g, n);
    case _ =>
  }

  lemma {:induction false} RaiseAllStays(es: seq<Expr<nat>>, v: nat, k: nat, rt: nat, g: Columns, n: nat)
    requires AllOver(es, v) && (k != n || v != rt)
    ensures ReplaceAll(RaiseAll(es, k), rt, g, n) == RaiseAll(es, k) && !AnyFlags(RaiseAll(es, k), rt, g, n)
    decreases es, 1
  {
    if es != [] {
      RaiseStays(es[0], v, k, rt, g, n);
      RaiseAllStays(es[1..], v, k, rt, g, n);
      assert RaiseAll(es, k)[1..] == RaiseAll(es[1..], k);
    }
  }

  lemma StepVar(k: nat, varno: nat, attno: nat, nulled: bool, fs: seq<Frame>, m: Frame, rt: nat, g: Columns, n: nat,
                cat: Catalog)
    requires CanStep(fs, m, rt, g, n, cat)
    ensures var e := Var(k, varno, attno, nulled);
            && Replace(Subst(e, fs + [m], cat), rt, g, n) == Subst(e, fs + [With(m, rt, g)], cat)
            && Flags(Subst(e, fs + [m], cat), rt, g, n) == Flags(e, rt, g, n)
            && (Refers(e, fs + [With(m, rt, g)], cat, NulledSeen) <==>
                Refers(e, fs + [m], cat, NulledSeen) || Flags(e, rt, g, n))
  {
    var gs := fs + [m];
    var hs := fs + [With(m, rt, g)];
    if k < n {
      assert gs[k] == fs[k] == hs[k];
    }
    if Named(gs, k, varno, attno) && gs[k].active && !nulled {
      assert GoodColumns(gs[k].gens[varno], varno) by { assert GoodFrame(gs[k]); }
      RaiseStays(gs[k].gens[varno][attno], varno, k, rt, g, n);
    }
  }

  lemma {:induction false} Step(e: Expr<nat>, fs: seq<Frame>, m: Frame, rt: nat, g: Columns, n: nat, cat: Catalog)
    requires CanStep(fs, m, rt, g, n, cat)
    ensures Replace(Subst(e, fs + [m], cat), rt, g, n) == Subst(e, fs + [With(m, rt, g)], cat)
    ensures Flags(Subst(e, fs + [m], cat), rt, g, n) == Flags(e, rt, g, n)
    ensures Refers(e, fs + [With(m, rt, g)], cat, NulledSeen) <==>
              Refers(e, fs + [m], cat, NulledSeen) || Flags(e, rt, g, n)
    decreases e, 0
  {
    match e
    case Var(k, varno, attno, nulled) => StepVar(k, varno, attno, nulled, fs, m, rt, g, n, cat);
    case Aggregate(_, args) => StepAll(args, fs, m, rt, g, n, cat);
    case Lit(_) =>
    case Apply(_, args) => StepAll(args, fs, m, rt, g, n, cat);
    case SubLink(test, query) => StepAll(test, fs, m, rt, g, n, cat); StepQuery(query, fs, m, rt, g, n, cat, false);
  }

  lemma {:induction false} StepAll(es: seq<Expr<nat>>, fs: seq<Frame>, m: Frame, rt: nat, g: Columns, n: nat,
                                   cat: Catalog)
    requires CanStep(fs, m, rt, g, n, cat)
    ensures ReplaceAll(SubstAll(es, fs + [m], cat), rt, g, n) == SubstAll(es, fs + [With(m, rt, g)], cat)
    ensures AnyFlags(SubstAll(es, fs + [m], cat), rt, g, n) == AnyFlags(es, rt, g, n)
    ensures AnyRefers(es, fs + [With(m, rt, g)], cat, NulledSeen)
            <==> AnyRefers(es, fs + [m], cat, NulledSeen) || AnyFlags(es, rt, g, n)
    decreases es, 1
  {
    if es != [] {
      Step(es[0], fs, m, rt, g, n, cat);
      StepAll(es[1..], fs, m, rt, g, n, cat);
      assert SubstAll(es, fs + [m], cat)[1..] == SubstAll(es[1..], fs + [m], cat);
    }
  }

  lemma {:induction false} StepEntry(r: Entry<nat>, fs: seq<Frame>, m: Frame, rt: nat, g: Columns, n: nat,
                                     cat: Catalog, entered: bool)
    requires CanStep(fs, m, rt, g, n, cat)
    ensures ReplaceEntry(SubstEntry(r, fs + [m], cat, entered), rt, g, n)
         == SubstEntry(r, fs + [With(m, rt, g)], cat, entered)
    ensures EntryFlags(SubstEntry(r, fs + [m], cat, entered), rt, g, n) == EntryFlags(r, rt, g, n)
    ensures EntryRefers(r, fs + [With(m, rt, g)], cat, entered, NulledSeen)
            <==> EntryRefers(r, fs + [m], cat, entered, NulledSeen) || EntryFlags(r, rt, g, n)
    decreases r, 0
  {
    match r
    case Derived(_, query) => StepQuery(query, fs, m, rt, g, n, cat, entered);
    case Computed(exprs) => StepAll(exprs, fs, m, rt, g, n, cat);
    case _ =>
  }

  lemma {:induction false} StepEntries(rs: seq<Entry<nat>>, fs: seq<Frame>, m: Frame, rt: nat, g: Columns, n: nat,
                                       cat: Catalog, entered: bool)
    requires CanStep(fs, m, rt, g, n, cat)
    ensures ReplaceEntries(SubstEntries(rs, fs + [m], cat, entered), rt, g, n)
         == SubstEntries(rs, fs + [With(m, rt, g)], cat, entered)
    ensures EntriesFlag(SubstEntries(rs, fs + [m], cat, entered), rt, g, n) == EntriesFlag(rs, rt, g, n)
    ensures EntriesRefer(rs, fs + [With(m, rt, g)], cat, entered, NulledSeen)
            <==> EntriesRefer(rs, fs + [m], cat, entered, NulledSeen) || EntriesFlag(rs, rt, g, n)
    decreases rs, 1
  {
    if rs != [] {
      StepEntry(rs[0], fs, m, rt, g, n, cat, entered);
      StepEntries(rs[1..], fs, m, rt, g, n, cat, entered);
      assert SubstEntries(rs, fs + [m], cat, entered)[1..] == SubstEntries(rs[1..], fs + [m], cat, entered);
    }
  }

  lemma {:induction false} StepBody(q: Query<nat>, fs: seq<Frame>, m: Frame, rt: nat, g: Columns, n: nat, cat: Catalog,
                                    entered: bool)
    requires CanStep(fs, m, rt, g, n, cat)
    ensures ReplaceQuery(SubstBody(q, fs + [m], cat, entered), rt, g, n)
         == SubstBody(q, fs + [With(m, rt, g)], cat, entered)
    ensures QueryFlags(SubstBody(q, fs + [m], cat, entered), rt, g, n) == QueryFlags(q, rt, g, n)
    ensures BodyRefers(q, fs + [With(m, rt, g)], cat, entered, NulledSeen)
            <==> BodyRefers(q, fs + [m], cat, entered, NulledSeen) || QueryFlags(q, rt, g, n)
    decreases q, 0
  {
    StepEntries(q.ctes, fs, m, rt, g, n, cat, entered);
    StepEntries(q.rtable, fs, m, rt, g, n, cat, entered);
    StepAll(q.targets, fs, m, rt, g, n, cat);
    StepAll(q.clauses, fs, m, rt, g, n, cat);
    StepAll(q.having, fs, m, rt, g, n, cat);
  }

  lemma {:induction false} StepQuery(q: Query<nat>, fs: seq<Frame>, m: Frame, rt: nat, g: Columns, n: nat,
                                     cat: Catalog, entered: bool)
    requires CanStep(fs, m, rt, g, n, cat)
    ensures ReplaceQuery(SubstQuery(q, fs + [m], cat, entered), rt, g, n + 1)
         == SubstQuery(q, fs + [With(m, rt, g)], cat, entered)
    ensures QueryFlags(SubstQuery(q, fs + [m], cat, entered), rt, g, n + 1) == QueryFlags(q, rt, g, n + 1)
    ensures QueryRefers(q, fs + [With(m, rt, g)], cat, entered, NulledSeen)
            <==> QueryRefers(q, fs + [m], cat, entered, NulledSeen) || QueryFlags(q, rt, g, n + 1)
    decreases q, 1
  {
    var own := [FrameOf(q, cat, entered)];
    FrameGood(q, cat, entered);
    assert own + (fs + [m]) == (own + fs) + [m];
    assert own + (fs + [With(m, rt, g)]) == (own + fs) + [With(m, rt, g)];
    StepBody(q, own + fs, m, rt, g, n + 1, cat, entered);
  }

  // ----- what is left afterwards -----

  lemma {:induction false} RaiseStored(e: Expr<nat>, v: nat, k: nat, fs: seq<Frame>, cat: Catalog)
    requires Over(e, v) && k < |fs| && v in fs[k].gens && Stored(e, fs[k].gens[v].Keys)
    ensures !Refers(Raise(e, k), fs, cat, Any)
    decreases e, 0
  {
    match e
    case Apply(_, args) => RaiseAllStored(args, v, k, fs, cat);
    case _ =>
  }

  lemma {:induction false} RaiseAllStored(es: seq<Expr<nat>>, v: nat, k: nat, fs: seq<Frame>, cat: Catalog)
    requires AllOver(es, v) && k < |fs| && v in fs[k].gens && AllStored(es, fs[k].gens[v].Keys)
    ensures !AnyRefers(RaiseAll(es, k), fs, cat, Any)
    decreases es, 1
  {
    if es != [] {
      RaiseStored(es[0], v, k, fs, cat);
      RaiseAllStored(es[1..], v, k, fs, cat);
      assert RaiseAll(es, k)[1..] == RaiseAll(es[1..], k);
    }
  }

  lemma {:induction false} Left(e: Expr<nat>, fs: seq<Frame>, cat: Catalog)
    requires GoodFrames(fs) && GoodCatalog(cat)
    ensures Refers(Subst(e, fs, cat), fs, cat, Any) <==> Refers(e, fs, cat, NulledSeen) || Refers(e, fs, cat, Skipped)
    decreases e, 0
  {
    match e
    case Var(k, varno, attno, nulled) =>
      if Named(fs, k, varno, attno) && fs[k].active && !nulled {
        assert GoodFrame(fs[k]);
        RaiseStored(fs[k].gens[varno][attno], varno, k, fs, cat);
      }
    case Aggregate(_, args) => LeftAll(args, fs, cat);
    case Lit(_) =>
    case Apply(_, args) => LeftAll(args, fs, cat);
    case SubLink(test, query) => LeftAll(test, fs, cat); LeftQuery(query, fs, cat, false);
  }

  lemma {:induction false} LeftAll(es: seq<Expr<nat>>, fs: seq<Frame>, cat: Catalog)
    requires GoodFrames(fs) && GoodCatalog(cat)
    ensures AnyRefers(SubstAll(es, fs, cat), fs, cat, Any)
            <==> AnyRefers(es, fs, cat, NulledSeen) || AnyRefers(es, fs, cat, Skipped)
    decreases es, 1
  {
    if es != [] {
      Left(es[0], fs, cat);
      LeftAll(es[1..], fs, cat);
      assert SubstAll(es, fs, cat)[1..] == SubstAll(es[1..], fs, cat);
    }
  }

  lemma {:induction false} LeftEntry(r: Entry<nat>, fs: seq<Frame>, cat: Catalog, entered: bool)
    requires GoodFrames(fs) && GoodCatalog(cat)
    ensures EntryRefers(SubstEntry(r, fs, cat, entered), fs, cat, entered, Any)
            <==> EntryRefers(r, fs, cat, entered, NulledSeen) || EntryRefers(r, fs, cat, entered, Skipped)
    decreases r, 0
  {
    match r
    case Derived(_, query) => LeftQuery(query, fs, cat, entered);
    case Computed(exprs) => LeftAll(exprs, fs, cat);
    case _ =>
  }

  lemma {:induction false} LeftEntries(rs: seq<Entry<nat>>, fs: seq<Frame>, cat: Catalog, entered: bool)
    requires GoodFrames(fs) && GoodCatalog(cat)
    ensures EntriesRefer(SubstEntries(rs, fs, cat, entered), fs, cat, entered, Any)
            <==> EntriesRefer(rs, fs, cat, entered, NulledSeen) || EntriesRefer(rs, fs, cat, entered, Skipped)
    decreases rs, 1
  {
    if rs != [] {
      LeftEntry(rs[0], fs, cat, entered);
      LeftEntries(rs[1..], fs, cat, entered);
      assert SubstEntries(rs, fs, cat, entered)[1..] == SubstEntries(rs[1..], fs, cat, entered);
    }
  }

  /**
    After the walk a reference to a virtual column remains exactly when the
    original had one nulled by an outer join, or one bound by a query the
    driver skipped.
   */
  lemma {:induction false} LeftQuery(q: Query<nat>, fs: seq<Frame>, cat: Catalog, entered: bool)
    requires GoodFrames(fs) && GoodCatalog(cat)
    ensures QueryRefers(SubstQuery(q, fs, cat, entered), fs, cat, entered, Any)
            <==> QueryRefers(q, fs, cat, entered, NulledSeen) || QueryRefers(q, fs, cat, entered, Skipped)
    decreases q, 0
  {
    var gs := [FrameOf(q, cat, entered)] + fs;
    var t := SubstQuery(q, fs, cat, entered);
    assert t == SubstBody(q, gs, cat, entered);
    SubstEntriesAt(q.rtable, gs, cat, entered);
    GensOfSubst(q.rtable, t.rtable, cat, |q.rtable|);
    assert FrameOf(t, cat, entered) == FrameOf(q, cat, entered);
    FrameGood(q, cat, entered);
    LeftEntries(q.ctes, gs, cat, entered);
    LeftEntries(q.rtable, gs, cat, entered);
    LeftAll(q.targets, gs, cat);
    LeftAll(q.clauses, gs, cat);
    LeftAll(q.having, gs, cat);
  }

  // ----- the driver -----

  /** The frame of a query none of whose relations has been treated yet. */
  const START := Frame(map[], true)

  lemma {:induction false} EntriesSnoc(rs: seq<Entry<nat>>, r: Entry<nat>, fs: seq<Frame>, cat: Catalog, entered: bool)
    ensures SubstEntries(rs + [r], fs, cat, entered)
         == SubstEntries(rs, fs, cat, entered) + [SubstEntry(r, fs, cat, entered)]
    ensures EntriesRefer(rs + [r], fs, cat, entered, NulledSeen)
            <==> EntriesRefer(rs, fs, cat, entered, NulledSeen) || EntryRefers(r, fs, cat, entered, NulledSeen)
  {
    if rs == [] {
      assert rs + [r] == [r] && [r][1..] == [];
    } else {
      assert (rs + [r])[1..] == rs[1..] + [r];
      EntriesSnoc(rs[1..], r, fs, cat, entered);
    }
  }

  lemma StartEntry(r: Entry<nat>, cat: Catalog)
    ensures !r.Derived? ==> SubstEntry(r, [START], cat, true) == r && !EntryRefers(r, [START], cat, true, NulledSeen)
    ensures r.Derived? ==>
              && SubstEntry(r, [START], cat, true) == Derived(r.name, SubstQuery(r.query, [], cat, true))
              && EntryRefers(r, [START], cat, true, NulledSeen) == QueryRefers(r.query, [], cat, true, NulledSeen)
  {
    match r
    case Derived(_, query) =>
      assert [] + [START] == [START];
      IdleLastQuery(query, [], START, cat, true);
    case Computed(exprs) => QuietAll(exprs, [START], cat);
    case _ =>
  }

  method ExpandEntry(r: Entry<nat>, cat: Catalog) returns (t: Entry<nat>, fallback: bool)
    requires GoodCatalog(cat)
    ensures t == SubstEntry(r, [START], cat, true)
    ensures fallback == EntryRefers(r, [START], cat, true, NulledSeen)
    decreases r, 0
  {
    t, fallback := r, false;
    StartEntry(r, cat);
    if r.Derived? {
      var sub;
      sub, fallback := Expand(r.query, cat);
      t := Derived(r.name, sub);
    }
  }

  /** Expands every subquery among the entries, in order. */
  method ExpandEntries(rs: seq<Entry<nat>>, cat: Catalog) returns (ts: seq<Entry<nat>>, fallback: bool)
    requires GoodCatalog(cat)
    ensures ts == SubstEntries(rs, [START], cat, true)
    ensures fallback == EntriesRefer(rs, [START], cat, true, NulledSeen)
    decreases rs, 1
  {
    ts, fallback := [], false;
    for i := 0 to |rs|
      invariant ts == SubstEntries(rs[..i], [START], cat, true)
      invariant fallback == EntriesRefer(rs[..i], [START], cat, true, NulledSeen)
    {
      var t, flag := ExpandEntry(rs[i], cat);
      fallback := fallback || flag;
      ts := ts + [t];
      assert rs[..i + 1] == rs[..i] + [rs[i]];
      EntriesSnoc(rs[..i], rs[i], [START], cat, true);
    }
    assert rs[..|rs|] == rs;
  }

  lemma TakeRelation(q: Query<nat>, cat: Catalog, i: nat)
    requires GoodCatalog(cat) && i < |q.rtable|
    ensures var before := Frame(GensUpTo(q.rtable, cat, i), true);
            var after := Frame(GensUpTo(q.rtable, cat, i + 1), true);
            var r := q.rtable[i];
            if r.Relation? && r.relid in cat then
              var g := ColumnsAt(cat[r.relid], i + 1);
              && ReplaceQuery(SubstBody(q, [before], cat, true), i + 1, g, 0) == SubstBody(q, [after], cat, true)
              && (BodyRefers(q, [after], cat, true, NulledSeen)
                  <==> BodyRefers(q, [before], cat, true, NulledSeen)
                       || QueryFlags(SubstBody(q, [before], cat, true), i + 1, g, 0))
            else
              before == after
  {
    var r := q.rtable[i];
    if r.Relation? && r.relid in cat {
      var before := Frame(GensUpTo(q.rtable, cat, i), true);
      var g := ColumnsAt(cat[r.relid], i + 1);
      GensGood(q.rtable, cat, i);
      ColumnsAtGood(cat[r.relid], i + 1);
      assert [] + [before] == [before];
      assert [] + [With(before, i + 1, g)] == [With(before, i + 1, g)];
      StepBody(q, [], before, i + 1, g, 0, cat, true);
    }
  }

  lemma StartBody(q: Query<nat>, cat: Catalog)
    ensures SubstBody(q, [START], cat, true)
            == q.(ctes := SubstEntries(q.ctes, [START], cat, true),
                  rtable := SubstEntries(q.rtable, [START], cat, true))
    ensures BodyRefers(q, [START], cat, true, NulledSeen)
            <==> (EntriesRefer(q.ctes, [START], cat, true, NulledSeen) ||
                  EntriesRefer(q.rtable, [START], cat, true, NulledSeen))
  {
    QuietAll(q.targets, [START], cat);
    QuietAll(q.clauses, [START], cat);
    QuietAll(q.having, [START], cat);
  }

  lemma SkippedBody(q: Query<nat>, cat: Catalog)
    requires q.groupingSets
    ensures SubstQuery(q, [], cat, true) == SubstBody(q, [START], cat, true)
    ensures QueryRefers(q, [], cat, true, NulledSeen) == BodyRefers(q, [START], cat, true, NulledSeen)
  {
    var own := FrameOf(q, cat, true);
    assert [own] + [] == [own] && [] + [own] == [own] && [] + [START] == [START];
    IdleLastBody(q, [], own, cat, true);
    IdleLastBody(q, [], START, cat, true);
  }

  /**
    The driver: subqueries first, then one walk per relation over the query so
    far. It computes the one-walk expansion, and asks for the fallback exactly
    when an expanded query's virtual column is referenced under an outer join.
   */
  method Expand(q: Query<nat>, cat: Catalog) returns (r: Query<nat>, fallback: bool)
    requires GoodCatalog(cat)
    ensures r == SubstQuery(q, [], cat, true)
    ensures fallback == QueryRefers(q, [], cat, true, NulledSeen)
    decreases q, 0
  {
    var rtable, inTable := ExpandEntries(q.rtable, cat);
    var ctes, inCtes := ExpandEntries(q.ctes, cat);
    r := q.(ctes := ctes, rtable := rtable);
    fallback := inTable || inCtes;
    StartBody(q, cat);
    if q.groupingSets {
      SkippedBody(q, cat);
      return;
    }
    for i := 0 to |q.rtable|
      invariant r == SubstBody(q, [Frame(GensUpTo(q.rtable, cat, i), true)], cat, true)
      invariant fallback == BodyRefers(q, [Frame(GensUpTo(q.rtable, cat, i), true)], cat, true, NulledSeen)
    {
      TakeRelation(q, cat, i);
      if q.rtable[i].Relation? && q.rtable[i].relid in cat {
        var g := ColumnsAt(cat[q.rtable[i].relid], i + 1);
        fallback := fallback || QueryFlags(r, i + 1, g, 0);
        r := ReplaceQuery(r, i + 1, g, 0);
      }
    }
    assert [FrameOf(q, cat, true)] + [] == [FrameOf(q, cat, true)];
  }

  /**
    A sublink over a table with a virtual column: the driver neither replaces
    the reference nor asks for the fallback.
   */
  lemma SublinkMissed(cat: Catalog)
    requires GoodCatalog(cat) && 7 in cat && 1 in cat[7]
    ensures var inner := Query([], [Relation(7)], [Var(0, 1, 1, false)], [], [], false);
            var q := Query([], [], [SubLink([], inner)], [], [], false);
            && SubstQuery(q, [], cat, true) == q
            && !QueryRefers(q, [], cat, true, NulledSeen)
            && QueryRefers(q, [], cat, true, Any)
  {
    var inner: Query<nat> := Query([], [Relation(7)], [Var(0, 1, 1, false)], [], [], false);
    var q := Query([], [], [SubLink([], inner)], [], [], false);
    var gs := [FrameOf(q, cat, true)] + [];
    var hs := [FrameOf(inner, cat, false)] + gs;
    assert GensUpTo(q.rtable, cat, 0) == map[];
    QuietAll(q.targets, gs, cat);
    assert SubstQuery(q, [], cat, true) == SubstBody(q, gs, cat, true) == q;
    assert !BodyRefers(q, gs, cat, true, NulledSeen);
    assert GensUpTo(inner.rtable, cat, 0) == map[];
    assert 1 in FrameOf(inner, cat, false).gens;
    assert Refers(inner.targets[0], hs, cat, Any);
    assert BodyRefers(inner, hs, cat, false, Any);
    assert QueryRefers(inner, gs, cat, false, Any);
    assert Refers(q.targets[0], gs, cat, Any);
  }
}
