/**
  The executor nodes of dynamic partition elimination: the selector on the build
  side, the partition-by-partition scan on the probe side, and the slot they
  share. Each call makes the step of `DynScanRuns` it stands for.
 */
module DynScan {
  import opened Options
  import opened Plans
  import opened Partitions
  import opened DynScanRuns

  class SharedState {
    var approved: set<nat>
    var finalized: bool

    constructor ()
      ensures approved == {} && !finalized
    {
      approved, finalized := {}, false;
    }
  }

  /** PARAM_EXEC slots of a query; the first node to begin allocates the shared state. */
  class ExecState {
    var slots: map<nat, SharedState>

    constructor ()
      ensures slots == map[]
    {
      slots := map[];
    }

    method Attach(id: nat) returns (shared: SharedState)
      modifies this
      ensures id in slots && shared == slots[id]
      ensures id in old(slots) ==> slots == old(slots)
      ensures id !in old(slots) ==>
                fresh(shared) && slots == old(slots)[id := shared] && shared.approved == {} && !shared.finalized
    {
      if id !in slots {
        var s := new SharedState();
        slots := slots[id := s];
      }
      shared := slots[id];
    }
  }

  class Selector {
    const config: Config
    const shared: SharedState
    var input: seq<Row>
    var taken: nat

    constructor (config: Config, shared: SharedState, input: seq<Row>)
      ensures this.config == config && this.shared == shared && this.input == input && taken == 0
    {
      this.config, this.shared, this.input, taken := config, shared, input, 0;
    }

    /** Passes one row through and records the partitions its key may meet. */
    method Exec() returns (row: Option<Row>)
      requires config.table.Valid() && taken <= |input|
      modifies this`taken, shared
      ensures taken <= |input|
      ensures old(taken) == |input| ==>
                && row == None && taken == old(taken)
                && shared.approved == old(shared.approved) && shared.finalized
      ensures old(taken) < |input| ==>
                && row == Some(input[old(taken)]) && taken == old(taken) + 1
                && shared.approved == old(shared.approved) + Approves(config.table, config.probe(input[old(taken)]))
                && shared.finalized == old(shared.finalized)
    {
      if taken == |input| {
        shared.finalized := true;
        return None;
      }
      var slot := input[taken];
      taken := taken + 1;
      var index := FindPartition(config.table.bounds, config.probe(slot));
      if 0 <= index < |config.table.parts| {
        shared.approved := shared.approved + {index};
      }
      if config.table.bounds.defaultIndex >= 0 {
        shared.approved := shared.approved + {config.table.bounds.defaultIndex};
      }
      row := Some(slot);
    }

    method Rescan(newInput: seq<Row>)
      modifies this, shared
      ensures input == newInput && taken == 0 && shared.approved == {} && !shared.finalized
    {
      shared.approved := {};
      shared.finalized := false;
      input, taken := newInput, 0;
    }
  }

  /** The smallest member above `prev`, or -2. */
  method NextMember(s: set<nat>, prev: int) returns (r: int)
    ensures r == -2 || (r in s && prev < r)
    ensures r == -2 ==> forall x | x in s :: x <= prev
    ensures r != -2 ==> forall x | x in s :: x <= prev || r <= x
  {
    r := -2;
    var rest := s;
    while rest != {}
      invariant rest <= s
      invariant r == -2 || (r in s && prev < r)
      invariant forall x | x in s && x !in rest :: x <= prev || (r != -2 && r <= x)
      decreases rest
    {
      var x :| x in rest;
      if prev < x && (r == -2 || x < r) {
        r := x;
      }
      rest := rest - {x};
    }
  }

  lemma SkipPart(c: Config, parts: set<nat>, i: nat)
    requires i !in parts
    ensures ScanRows(c, parts, i) == ScanRows(c, parts, i + 1)
  {
    if i < |c.table.parts| {
      assert ScanRows(c, parts, i) == [] + ScanRows(c, parts, i + 1);
    }
  }

  lemma {:induction false} SkipParts(c: Config, parts: set<nat>, i: nat, j: nat)
    requires i <= j && forall x | x in parts :: x < i || j <= x
    ensures ScanRows(c, parts, i) == ScanRows(c, parts, j)
    decreases j - i
  {
    if i < j {
      SkipPart(c, parts, i);
      SkipParts(c, parts, i + 1, j);
    }
  }

  /** The rows left in partition `cur` from position `k` on, followed by those of later partitions. */
  ghost function RowsFrom(c: Config, parts: set<nat>, cur: nat, k: nat): seq<Row>
    requires cur < |c.table.parts|
  {
    PartRows(c, c.table.parts[cur], k) + ScanRows(c, parts, cur + 1)
  }

  lemma RowStep(c: Config, parts: set<nat>, cur: nat, k: nat)
    requires cur < |c.table.parts|
    ensures k < |c.table.parts[cur].rows| ==>
              var r := c.table.parts[cur].Root(c.table.parts[cur].rows[k]);
              RowsFrom(c, parts, cur, k) == (if c.qual(r) then [c.proj(r)] else []) + RowsFrom(c, parts, cur, k + 1)
    ensures k >= |c.table.parts[cur].rows| ==> RowsFrom(c, parts, cur, k) == ScanRows(c, parts, cur + 1)
    ensures cur in parts ==> ScanRows(c, parts, cur) == RowsFrom(c, parts, cur, 0)
  {
    if k < |c.table.parts[cur].rows| {
      var r := c.table.parts[cur].Root(c.table.parts[cur].rows[k]);
      var head := if c.qual(r) then [c.proj(r)] else [];
      assert PartRows(c, c.table.parts[cur], k) == head + PartRows(c, c.table.parts[cur], k + 1);
    }
  }

  ghost function AboveOf(parts: set<nat>, i: int): set<nat> {
    set x | x in parts && x > i
  }

  lemma FewerAbove(parts: set<nat>, i: int, j: nat)
    requires i < j && j in parts
    ensures AboveOf(parts, j) < AboveOf(parts, i)
  {
    assert j in AboveOf(parts, i) && j !in AboveOf(parts, j);
  }

  /** No chosen partition is above `prev`: nothing is left. */
  lemma NoneNext(c: Config, parts: set<nat>, prev: int)
    requires -1 <= prev && forall x | x in parts :: x <= prev
    ensures ScanRows(c, parts, prev + 1) == []
  {
    SkipParts(c, parts, prev + 1, prev + 1 + |c.table.parts|);
  }

  /** `cur` is the next chosen partition: what was left starts with its first row. */
  lemma NextOpened(c: Config, parts: set<nat>, prev: int, cur: nat)
    requires -1 <= prev < cur && cur in parts && forall x | x in parts :: x <= prev || cur <= x
    ensures AboveOf(parts, cur) < AboveOf(parts, prev)
    ensures ScanRows(c, parts, prev + 1)
         == if cur < |c.table.parts| then RowsFrom(c, parts, cur, 0) else ScanRows(c, parts, cur + 1)
  {
    FewerAbove(parts, prev, cur);
    SkipParts(c, parts, prev + 1, cur);
    if cur < |c.table.parts| {
      RowStep(c, parts, cur, 0);
    }
  }

  class DynamicScan {
    const config: Config
    const shared: SharedState
    var started: bool
    var approved: set<nat>
    var curPart: int
    var cursor: nat
    var scanOpen: bool
    var relOpen: bool
    var slotOpen: bool
    var mapOpen: bool
    var rootOpen: bool
    var opens: nat
    var closes: nat

    constructor (config: Config, shared: SharedState)
      ensures this.config == config && this.shared == shared && Valid() && !started && opens == 0
      ensures approved == {} && rootOpen
    {
      this.config, this.shared := config, shared;
      started, approved, curPart, cursor := false, {}, -1, 0;
      scanOpen, relOpen, slotOpen, mapOpen, opens, closes := false, false, false, false, 0, 0;
      rootOpen := true;
    }

    /** Scan, relation and slot are open together or not at all; at most one partition is open. */
    ghost predicate Valid()
      reads this
    {
      && scanOpen == relOpen == slotOpen
      && opens == closes + (if relOpen then 1 else 0)
      && (mapOpen ==> scanOpen)
      && (scanOpen ==>
            && started && 0 <= curPart < |config.table.parts|
            && cursor <= |config.table.parts[curPart].rows|
            && mapOpen == config.table.parts[curPart].remapped)
      && (started && !scanOpen ==> curPart == -2)
    }

    /** What the scan has still to return. */
    ghost function Pending(): seq<Row>
      reads this
    {
      if !started || curPart < -1 then []
      else if scanOpen && 0 <= curPart < |config.table.parts| then RowsFrom(config, approved, curPart, cursor)
      else ScanRows(config, approved, curPart + 1)
    }

    /** What the next calls return: the pending rows, or all rows of the partitions chosen now. */
    ghost function Todo(): seq<Row>
      reads this, shared
    {
      if started then Pending() else ScanRows(config, Chosen(config, shared.finalized, shared.approved), 0)
    }

    method Start()
      requires !started
      modifies this`started, this`approved, this`curPart
      ensures started && curPart == -1
      ensures approved == Chosen(config, shared.finalized, shared.approved)
    {
      approved := {};
      if shared.finalized {
        var dpe := shared.approved;
        if config.staticParts != {} {
          approved := dpe * config.staticParts;
        } else {
          approved := dpe;
        }
      } else if config.staticParts != {} {
        approved := config.staticParts;
      } else {
        for i := 0 to |config.table.parts|
          invariant approved == FirstParts(i)
        {
          approved := approved + {i};
        }
      }
      curPart := -1;
      started := true;
    }

    method Close()
      requires scanOpen && relOpen && slotOpen && opens == closes + 1
      modifies this`scanOpen, this`relOpen, this`slotOpen, this`mapOpen, this`closes
      ensures !scanOpen && !relOpen && !slotOpen && !mapOpen && closes == opens
    {
      scanOpen := false;
      relOpen := false;
      closes := closes + 1;
      slotOpen := false;
      mapOpen := false;
    }

    method Open()
      requires !scanOpen && !relOpen && !slotOpen && opens == closes && 0 <= curPart < |config.table.parts|
      modifies this`scanOpen, this`relOpen, this`slotOpen, this`mapOpen, this`opens, this`cursor
      ensures scanOpen && relOpen && slotOpen && opens == closes + 1 && cursor == 0
      ensures mapOpen == config.table.parts[curPart].remapped
    {
      relOpen := true;
      opens := opens + 1;
      slotOpen := true;
      mapOpen := config.table.parts[curPart].remapped;
      scanOpen := true;
      cursor := 0;
    }

    ghost function Above(): set<nat>
      reads this
    {
      AboveOf(approved, curPart)
    }

    /** `Valid` while a call is looking for the next row. */
    ghost predicate Running()
      reads this
    {
      && started && curPart >= -1
      && scanOpen == relOpen == slotOpen
      && opens == closes + (if relOpen then 1 else 0)
      && (mapOpen ==> scanOpen)
      && (scanOpen ==>
            && curPart < |config.table.parts|
            && 0 <= curPart
            && cursor <= |config.table.parts[curPart].rows|
            && mapOpen == config.table.parts[curPart].remapped)
    }

    /** Reads one tuple of the open partition, in root column order, and applies the quals. */
    method Fetch() returns (row: Option<Row>)
      requires Running() && scanOpen && cursor < |config.table.parts[curPart].rows|
      modifies this`cursor
      ensures Running() && cursor == old(cursor) + 1
      ensures row == None ==> old(Pending()) == Pending()
      ensures row.Some? ==> old(Pending()) == [row.value] + Pending()
    {
      RowStep(config, approved, curPart, cursor);
      var part := config.table.parts[curPart];
      var raw := part.rows[cursor];
      var slot := part.Root(raw);
      cursor := cursor + 1;
      row := if config.qual(slot) then Some(config.proj(slot)) else None;
    }

    /** Moves to the next approved partition and opens it; false when there is none. */
    method Advance() returns (more: bool)
      requires Running() && !scanOpen
      modifies this
      ensures approved == old(approved) && started
      ensures !more ==> old(Pending()) == [] && Pending() == [] && Valid() && !scanOpen
      ensures more ==> Running() && Pending() == old(Pending()) && Above() < old(Above())
    {
      ghost var prev := curPart;
      curPart := NextMember(approved, curPart);
      if curPart < 0 {
        NoneNext(config, approved, prev);
        return false;
      }
      NextOpened(config, approved, prev, curPart);
      if curPart < |config.table.parts| {
        Open();
      }
      more := true;
    }

    /**
      Returns the next qualifying row of the chosen partitions in ascending order,
      or None when there is none; not called again after None before a rescan.
     */
    method Exec() returns (row: Option<Row>)
      requires Valid() && (started ==> scanOpen)
      modifies this
      ensures Valid() && started
      ensures approved == if old(started) then old(approved) else Chosen(config, shared.finalized, shared.approved)
      ensures old(Todo()) == [] ==> row == None && !scanOpen && Pending() == []
      ensures old(Todo()) != [] ==> row == Some(old(Todo())[0]) && scanOpen && Pending() == old(Todo())[1..]
    {
      ghost var todo := Todo();
      if !started {
        Start();
      }
      ghost var parts := approved;
      while true
        invariant Running() && approved == parts && Pending() == todo
        decreases Above(), scanOpen, if scanOpen then |config.table.parts[curPart].rows| - cursor else 0
      {
        if scanOpen {
          if cursor < |config.table.parts[curPart].rows| {
            row := Fetch();
            if row.Some? {
              return;
            }
            continue;
          }
          Exhausted();
        }
        var more := Advance();
        if !more {
          return None;
        }
      }
    }

    method Exhausted()
      requires Running() && scanOpen && cursor == |config.table.parts[curPart].rows|
      modifies this`scanOpen, this`relOpen, this`slotOpen, this`mapOpen, this`closes
      ensures Running() && !scanOpen && Pending() == old(Pending()) && Above() == old(Above())
    {
      RowStep(config, approved, curPart, cursor);
      Close();
    }

    /** Back to the state before the first call; nothing stays open. */
    method Rescan()
      requires Valid()
      modifies this
      ensures Valid() && !started && !scanOpen && opens == closes && approved == {} && rootOpen == old(rootOpen)
    {
      if scanOpen {
        Close();
      }
      approved := {};
      started := false;
      curPart := -1;
    }

    /** Every partition that was opened has been closed, and so is the root. */
    method End()
      requires Valid()
      modifies this
      ensures !scanOpen && !relOpen && !slotOpen && !mapOpen && !rootOpen && opens == closes
    {
      if scanOpen {
        Close();
      }
      rootOpen := false;
      approved := {};
    }
  }

  /** The two nodes of one join, with the history that runs are judged by. */
  class JoinNodes {
    const selector: Selector
    const scan: DynamicScan
    ghost var stale: bool
    ghost var done: bool
    ghost var emitted: seq<Row>

    ghost predicate Valid()
      reads this, selector, scan
    {
      && selector.shared == scan.shared && selector.config == scan.config
      && selector.config.table.Valid() && selector.taken <= |selector.input|
      && scan.Valid()
      && (scan.started ==> scan.scanOpen == !done)
      && (!scan.started ==> scan.approved == {} && !done)
    }

    ghost function View(): St
      reads this, selector, scan, scan.shared
    {
      St(selector.input, selector.taken, scan.shared.approved, scan.shared.finalized,
         scan.started, stale, done, scan.approved, scan.Pending(), emitted)
    }

    /** Begins the scan, then the selector, on one slot. */
    constructor (exec: ExecState, id: nat, config: Config, input: seq<Row>)
      requires config.table.Valid() && id !in exec.slots
      modifies exec
      ensures Valid() && View() == Begin(input) && selector.config == config
    {
      var s := exec.Attach(id);
      var d := new DynamicScan(config, s);
      var s' := exec.Attach(id);
      var p := new Selector(config, s', input);
      selector, scan := p, d;
      stale, done, emitted := false, false, [];
    }

    method SelectorCall() returns (row: Option<Row>)
      requires Valid()
      modifies selector, scan.shared
      ensures Valid() && View() == Next(selector.config, old(View()), SelectorExec)
      ensures row == if old(selector.taken) < |selector.input| then Some(selector.input[old(selector.taken)]) else None
    {
      row := selector.Exec();
    }

    method RescanSelector(input: seq<Row>)
      requires Valid()
      modifies this, selector, scan.shared
      ensures Valid() && View() == Next(selector.config, old(View()), SelectorRescan(input))
    {
      selector.Rescan(input);
      stale := scan.started;
    }

    method ScanCall() returns (row: Option<Row>)
      requires Valid() && Allowed(View(), ScanExec)
      modifies this, scan
      ensures Valid() && View() == Next(scan.config, old(View()), ScanExec)
      ensures row == if old(scan.Todo()) == [] then None else Some(old(scan.Todo())[0])
    {
      row := scan.Exec();
      if row == None {
        done := true;
      } else {
        emitted := emitted + [row.value];
      }
    }

    method RescanScan()
      requires Valid()
      modifies this, scan
      ensures Valid() && View() == Next(scan.config, old(View()), ScanRescan)
    {
      scan.Rescan();
      stale, done, emitted := false, false, [];
    }
  }
}
