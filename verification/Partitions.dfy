/**
  Partitioned tables: bounds, routing of a key value, and the rows of each
  partition in root column order.
 */
module Partitions {
  import opened Plans

  datatype Strategy = HashStrategy | ListStrategy | RangeStrategy

  /**
    `datums` are the sorted list values or range bounds; `indexes` maps a hash
    remainder, a list value or a range to a partition (or -1); `nullIndex` and
    `defaultIndex` are -1 when there is no such partition.
   */
  datatype Bounds = Bounds(strategy: Strategy, datums: seq<int>, indexes: seq<int>,
                           nullIndex: int, defaultIndex: int, hash: Value -> nat)
  {
    predicate Valid() {
      match strategy
      case HashStrategy => indexes != []
      case ListStrategy => |indexes| == |datums|
      case RangeStrategy => |indexes| == |datums| + 1
    }
  }

  /** Position of the last bound not above `x`, or -1. */
  function LastNotAbove(datums: seq<int>, x: int): (i: int)
    ensures -1 <= i < |datums|
  {
    var n := |datums| - 1;
    if n < 0 then -1 else if datums[n] <= x then n else LastNotAbove(datums[..n], x)
  }

  /** The partition whose bounds accept the value; -1 if none does. */
  function FindPartition(b: Bounds, v: Value): int
    requires b.Valid()
  {
    match b.strategy
    case HashStrategy => b.indexes[b.hash(v) % |b.indexes|]
    case ListStrategy =>
      (match v
       case Null => if b.nullIndex != -1 then b.nullIndex else -1
       case Datum(x) =>
         var o := LastNotAbove(b.datums, x);
         if o >= 0 && b.datums[o] == x then b.indexes[o] else -1)
    case RangeStrategy =>
      (match v
       case Null => -1
       case Datum(x) => b.indexes[LastNotAbove(b.datums, x) + 1])
  }

  /** A partition's stored rows and, when its columns are ordered differently, the map to root order. */
  datatype Partition = Partition(rows: seq<Row>, attrMap: seq<nat>, remapped: bool) {
    function Root(raw: Row): Row {
      if remapped then seq(|attrMap|, i requires 0 <= i < |attrMap| => At(raw, attrMap[i])) else raw
    }
  }

  datatype Table = Table(bounds: Bounds, parts: seq<Partition>, keyCol: nat) {
    predicate Valid() {
      bounds.Valid()
    }

    function Key(row: Row): Value {
      At(row, keyCol)
    }
  }

  /** Where a row with this key is stored: its partition, else the default one. */
  function Route(t: Table, v: Value): int
    requires t.Valid()
  {
    var i := FindPartition(t.bounds, v);
    if i >= 0 then i else t.bounds.defaultIndex
  }

  /** Every row sits in the partition its key routes to. */
  ghost predicate Routed(t: Table)
    requires t.Valid()
  {
    forall i, k | 0 <= i < |t.parts| && 0 <= k < |t.parts[i].rows| ::
      Route(t, t.Key(t.parts[i].Root(t.parts[i].rows[k]))) == i
  }

  /** The partitions a probe value approves: the one found and always the default. */
  function Approves(t: Table, v: Value): set<nat>
    requires t.Valid()
  {
    var i := FindPartition(t.bounds, v);
    (if 0 <= i < |t.parts| then {i} else {}) + (if t.bounds.defaultIndex >= 0 then {t.bounds.defaultIndex} else {})
  }
}
