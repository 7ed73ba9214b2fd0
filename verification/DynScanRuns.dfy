/**
  Dynamic partition elimination as a state machine: a selector on the build side
  of a hash join and a scan on the probe side share one slot. Over every allowed
  run, rescans included, the join over the scan equals the join over all
  partitions.
 */
module DynScanRuns {
  import opened Plans
  import opened Partitions

  /** The fixed part of a scan: its table, quals, projection and statically selected partitions ({} for no pruning). */
  datatype Config = Config(table: Table, probe: Row -> Value, qual: Row -> bool, proj: Row -> Row,
                           staticParts: set<nat>)

  /** Pruning by quals keeps every partition that holds a qualifying row. */
  ghost predicate StaticSound(c: Config) {
    c.staticParts == {} ||
    forall i, k | 0 <= i < |c.table.parts| && 0 <= k < |c.table.parts[i].rows| ::
      c.qual(c.table.parts[i].Root(c.table.parts[i].rows[k])) ==> i in c.staticParts
  }

  ghost predicate Sound(c: Config) {
    c.table.Valid() && Routed(c.table) && StaticSound(c)
  }

  // ----- what a scan returns -----

  /** Qualifying rows of one partition from position `k` on, projected. */
  function PartRows(c: Config, p: Partition, k: nat): seq<Row>
    decreases |p.rows| - k
  {
    if k >= |p.rows| then []
    else
      var r := p.Root(p.rows[k]);
      (if c.qual(r) then [c.proj(r)] else []) + PartRows(c, p, k + 1)
  }

  /** Qualifying rows of the partitions in `parts` numbered `i` and up, in ascending order. */
  function ScanRows(c: Config, parts: set<nat>, i: nat): seq<Row>
    decreases |c.table.parts| - i
  {
    if i >= |c.table.parts| then []
    else (if i in parts then PartRows(c, c.table.parts[i], 0) else []) + ScanRows(c, parts, i + 1)
  }

  function FirstParts(n: nat): (r: set<nat>)
    ensures forall i: nat :: i in r <==> i < n
  {
    if n == 0 then {} else FirstParts(n - 1) + {n - 1}
  }

  function AllParts(c: Config): set<nat> {
    FirstParts(|c.table.parts|)
  }

  /** The partitions a scan opens when it starts. */
  function Chosen(c: Config, finalized: bool, approved: set<nat>): set<nat> {
    if finalized then
      if c.staticParts != {} then approved * c.staticParts else approved
    else if c.staticParts != {} then c.staticParts
    else AllParts(c)
  }

  // ----- runs -----

  /**
    `build` is the selector's input in the current cycle and `taken` how much of
    it has passed; `visited` are the partitions of the current scan, `pending` the
    rows it has still to return and `emitted` those it has returned.
   */
  datatype St = St(build: seq<Row>, taken: nat, approved: set<nat>, finalized: bool,
                   started: bool, stale: bool, done: bool, visited: set<nat>, pending: seq<Row>, emitted: seq<Row>)

  datatype Step = SelectorExec | SelectorRescan(input: seq<Row>) | ScanExec | ScanRescan

  function Begin(input: seq<Row>): St {
    St(input, 0, {}, false, false, false, false, {}, [], [])
  }

  /**
    What the executor promises: after the selector is rescanned the scan is
    rescanned before it is called again, and a scan that has returned NULL is not
    called before a rescan.
   */
  predicate Allowed(st: St, step: Step) {
    step.ScanExec? ==> !st.stale && !st.done
  }

  function SelectorNext(c: Config, st: St): St
    requires c.table.Valid()
  {
    if st.taken < |st.build| then
      st.(taken := st.taken + 1,
          approved := st.approved + Approves(c.table, c.probe(st.build[st.taken])))
    else st.(finalized := true)
  }

  function ScanStart(c: Config, st: St): St {
    if st.started then st
    else
      var visited := Chosen(c, st.finalized, st.approved);
      st.(started := true, visited := visited, pending := ScanRows(c, visited, 0))
  }

  function ScanNext(c: Config, st: St): St {
    var s := ScanStart(c, st);
    if s.pending == [] then s.(done := true)
    else s.(pending := s.pending[1..], emitted := s.emitted + [s.pending[0]])
  }

  function Next(c: Config, st: St, step: Step): St
    requires c.table.Valid()
  {
    match step
    case SelectorExec => SelectorNext(c, st)
    case SelectorRescan(input) =>
      st.(build := input, taken := 0, approved := {}, finalized := false, stale := st.started)
    case ScanExec => ScanNext(c, st)
    case ScanRescan => st.(started := false, stale := false, done := false, visited := {}, pending := [], emitted := [])
  }

  /** A run all of whose steps are allowed. */
  ghost predicate AllowedRun(c: Config, st: St, steps: seq<Step>)
    requires c.table.Valid()
    decreases |steps|
  {
    steps != [] ==> Allowed(st, steps[0]) && AllowedRun(c, Next(c, st, steps[0]), steps[1..])
  }

  function RunOf(c: Config, st: St, steps: seq<Step>): St
    requires c.table.Valid()
    decreases |steps|
  {
    if steps == [] then st else RunOf(c, Next(c, st, steps[0]), steps[1..])
  }

  // ----- the invariant -----

  /** Every partition with a qualifying row whose key equals a build key is visited. */
  ghost predicate Covers(c: Config, build: seq<Row>, visited: set<nat>)
    requires c.table.Valid()
  {
    forall i, k, b | 0 <= i < |c.table.parts| && 0 <= k < |c.table.parts[i].rows| && 0 <= b < |build| ::
      var r := c.table.parts[i].Root(c.table.parts[i].rows[k]);
      c.qual(r) && c.table.Key(r) == c.probe(build[b]) ==> i in visited
  }

  ghost predicate Inv(c: Config, st: St)
    requires c.table.Valid()
  {
    && st.taken <= |st.build|
    && (st.finalized ==> st.taken == |st.build|)
    && (forall b | 0 <= b < st.taken :: Approves(c.table, c.probe(st.build[b])) <= st.approved)
    && (st.started && !st.stale ==>
          Covers(c, st.build, st.visited) && st.emitted + st.pending == ScanRows(c, st.visited, 0))
    && (!st.started ==> !st.stale && !st.done && st.emitted == [])
    && (st.done ==> st.started && st.pending == [])
  }

  lemma ChosenCovers(c: Config, st: St)
    requires Sound(c) && Inv(c, st)
    ensures Covers(c, st.build, Chosen(c, st.finalized, st.approved))
  {
    forall i, k, b | 0 <= i < |c.table.parts| && 0 <= k < |c.table.parts[i].rows| && 0 <= b < |st.build|
      ensures var r := c.table.parts[i].Root(c.table.parts[i].rows[k]);
              c.qual(r) && c.table.Key(r) == c.probe(st.build[b]) ==> i in Chosen(c, st.finalized, st.approved)
    {
      var r := c.table.parts[i].Root(c.table.parts[i].rows[k]);
      if c.qual(r) && c.table.Key(r) == c.probe(st.build[b]) {
        assert Route(c.table, c.table.Key(r)) == i;
        assert i in Approves(c.table, c.probe(st.build[b]));
      }
    }
  }

  lemma InvKept(c: Config, st: St, step: Step)
    requires Sound(c) && Inv(c, st) && Allowed(st, step)
    ensures Inv(c, Next(c, st, step))
  {
    match step
    case SelectorExec => SelectorKept(c, st);
    case SelectorRescan(input) =>
    case ScanRescan =>
    case ScanExec => ScanKept(c, st);
  }

  lemma SelectorKept(c: Config, st: St)
    requires Sound(c) && Inv(c, st)
    ensures Inv(c, SelectorNext(c, st))
  {
  }

  lemma ScanKept(c: Config, st: St)
    requires Sound(c) && Inv(c, st) && !st.stale && !st.done
    ensures Inv(c, ScanNext(c, st))
  {
    var s := ScanStart(c, st);
    if !st.started {
      ChosenCovers(c, st);
    }
    assert s.emitted + s.pending == ScanRows(c, s.visited, 0);
    if s.pending != [] {
      assert s.emitted + [s.pending[0]] + s.pending[1..] == s.emitted + s.pending;
    }
  }

  lemma {:induction false} InvAlways(c: Config, st: St, steps: seq<Step>)
    requires Sound(c) && Inv(c, st) && AllowedRun(c, st, steps)
    ensures Inv(c, RunOf(c, st, steps))
    decreases |steps|
  {
    if steps != [] {
      InvKept(c, st, steps[0]);
      InvAlways(c, Next(c, st, steps[0]), steps[1..]);
    }
  }

  // ----- joins -----

  /** The pairs of the join, one probe row after the other. */
  function Pairs(probe: Row, build: seq<Row>, on: (Row, Row) -> bool): seq<(Row, Row)> {
    if build == [] then []
    else (if on(probe, build[0]) then [(probe, build[0])] else []) + Pairs(probe, build[1..], on)
  }

  function InnerJoin(probes: seq<Row>, build: seq<Row>, on: (Row, Row) -> bool): seq<(Row, Row)> {
    if probes == [] then [] else Pairs(probes[0], build, on) + InnerJoin(probes[1..], build, on)
  }

  function SemiJoin(probes: seq<Row>, build: seq<Row>, on: (Row, Row) -> bool): seq<Row> {
    if probes == [] then []
    else (if Pairs(probes[0], build, on) != [] then [probes[0]] else []) + SemiJoin(probes[1..], build, on)
  }

  /** The join condition implies equality of the partition key with the probe value; a NULL value matches nothing. */
  ghost predicate OnKey(c: Config, on: (Row, Row) -> bool) {
    forall r, b | on(c.proj(r), b) :: c.probe(b) != Null && c.table.Key(r) == c.probe(b)
  }

  lemma Assoc<T>(a: seq<T>, b: seq<T>, c: seq<T>)
    ensures a + (b + c) == (a + b) + c
  {
  }

  lemma {:induction false} InnerAppend(xs: seq<Row>, ys: seq<Row>, build: seq<Row>, on: (Row, Row) -> bool)
    ensures InnerJoin(xs + ys, build, on) == InnerJoin(xs, build, on) + InnerJoin(ys, build, on)
  {
    if xs == [] {
      assert xs + ys == ys;
    } else {
      assert (xs + ys)[1..] == xs[1..] + ys && (xs + ys)[0] == xs[0];
      InnerAppend(xs[1..], ys, build, on);
      Assoc(Pairs(xs[0], build, on), InnerJoin(xs[1..], build, on), InnerJoin(ys, build, on));
    }
  }

  lemma {:induction false} SemiAppend(xs: seq<Row>, ys: seq<Row>, build: seq<Row>, on: (Row, Row) -> bool)
    ensures SemiJoin(xs + ys, build, on) == SemiJoin(xs, build, on) + SemiJoin(ys, build, on)
  {
    if xs == [] {
      assert xs + ys == ys;
    } else {
      assert (xs + ys)[1..] == xs[1..] + ys && (xs + ys)[0] == xs[0];
      SemiAppend(xs[1..], ys, build, on);
      var first := if Pairs(xs[0], build, on) != [] then [xs[0]] else [];
      Assoc(first, SemiJoin(xs[1..], build, on), SemiJoin(ys, build, on));
    }
  }

  lemma JoinAppend(xs: seq<Row>, ys: seq<Row>, build: seq<Row>, on: (Row, Row) -> bool)
    ensures InnerJoin(xs + ys, build, on) == InnerJoin(xs, build, on) + InnerJoin(ys, build, on)
    ensures SemiJoin(xs + ys, build, on) == SemiJoin(xs, build, on) + SemiJoin(ys, build, on)
  {
    InnerAppend(xs, ys, build, on);
    SemiAppend(xs, ys, build, on);
  }

  lemma {:induction false} NoPairs(probe: Row, build: seq<Row>, on: (Row, Row) -> bool)
    requires forall b | 0 <= b < |build| :: !on(probe, build[b])
    ensures Pairs(probe, build, on) == []
  {
    if build != [] {
      NoPairs(probe, build[1..], on);
    }
  }

  /** A partition that was not visited contributes nothing to the join. */
  lemma {:induction false} UnvisitedPart(c: Config, build: seq<Row>, visited: set<nat>, i: nat, k: nat,
                                         on: (Row, Row) -> bool)
    requires c.table.Valid() && OnKey(c, on) && Covers(c, build, visited)
    requires i < |c.table.parts| && i !in visited && k <= |c.table.parts[i].rows|
    ensures InnerJoin(PartRows(c, c.table.parts[i], k), build, on) == []
    ensures SemiJoin(PartRows(c, c.table.parts[i], k), build, on) == []
    decreases |c.table.parts[i].rows| - k
  {
    var p := c.table.parts[i];
    if k < |p.rows| {
      UnvisitedPart(c, build, visited, i, k + 1, on);
      var r := p.Root(p.rows[k]);
      var rest := PartRows(c, p, k + 1);
      assert [] + rest == rest;
      if c.qual(r) {
        forall b | 0 <= b < |build|
          ensures !on(c.proj(r), build[b])
        {
          assert c.table.Key(r) != c.probe(build[b]);
        }
        NoPairs(c.proj(r), build, on);
        JoinAppend([c.proj(r)], rest, build, on);
        assert [c.proj(r)][1..] == [];
        assert PartRows(c, p, k) == [c.proj(r)] + rest;
      }
    }
  }

  /** What partition i contributes to a scan. */
  function Contribution(c: Config, parts: set<nat>, i: nat): seq<Row>
    requires i < |c.table.parts|
  {
    if i in parts then PartRows(c, c.table.parts[i], 0) else []
  }

  lemma SameContribution(c: Config, build: seq<Row>, visited: set<nat>, i: nat, on: (Row, Row) -> bool)
    requires c.table.Valid() && OnKey(c, on) && Covers(c, build, visited) && i < |c.table.parts|
    ensures InnerJoin(Contribution(c, visited, i), build, on) == InnerJoin(Contribution(c, AllParts(c), i), build, on)
    ensures SemiJoin(Contribution(c, visited, i), build, on) == SemiJoin(Contribution(c, AllParts(c), i), build, on)
  {
    assert i in AllParts(c);
    if i !in visited {
      UnvisitedPart(c, build, visited, i, 0, on);
    }
  }

  lemma {:induction false} SameJoin(c: Config, build: seq<Row>, visited: set<nat>, i: nat, on: (Row, Row) -> bool)
    requires c.table.Valid() && OnKey(c, on) && Covers(c, build, visited) && i <= |c.table.parts|
    ensures InnerJoin(ScanRows(c, visited, i), build, on) == InnerJoin(ScanRows(c, AllParts(c), i), build, on)
    ensures SemiJoin(ScanRows(c, visited, i), build, on) == SemiJoin(ScanRows(c, AllParts(c), i), build, on)
    decreases |c.table.parts| - i
  {
    if i < |c.table.parts| {
      SameJoin(c, build, visited, i + 1, on);
      SameContribution(c, build, visited, i, on);
      assert ScanRows(c, visited, i) == Contribution(c, visited, i) + ScanRows(c, visited, i + 1);
      assert ScanRows(c, AllParts(c), i) == Contribution(c, AllParts(c), i) + ScanRows(c, AllParts(c), i + 1);
      JoinAppend(Contribution(c, visited, i), ScanRows(c, visited, i + 1), build, on);
      JoinAppend(Contribution(c, AllParts(c), i), ScanRows(c, AllParts(c), i + 1), build, on);
    }
  }

  /**
    Partition elimination is sound over whole runs: whenever the scan has
    returned NULL, joining what it returned with the current build rows gives
    exactly the join over a scan of all partitions.
   */
  lemma RunJoins(c: Config, input: seq<Row>, steps: seq<Step>, on: (Row, Row) -> bool)
    requires Sound(c) && OnKey(c, on) && AllowedRun(c, Begin(input), steps)
    ensures var st := RunOf(c, Begin(input), steps);
            st.done && !st.stale ==>
              && InnerJoin(st.emitted, st.build, on) == InnerJoin(ScanRows(c, AllParts(c), 0), st.build, on)
              && SemiJoin(st.emitted, st.build, on) == SemiJoin(ScanRows(c, AllParts(c), 0), st.build, on)
  {
    InvAlways(c, Begin(input), steps);
    var st := RunOf(c, Begin(input), steps);
    if st.done && !st.stale {
      assert st.emitted + st.pending == st.emitted;
      SameJoin(c, st.build, st.visited, 0, on);
    }
  }
}
