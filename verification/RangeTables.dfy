/**
  Numbering of the range-table entries of table scans. A scan whose table is the
  target of a data-modifying statement carries the id of that statement's query
  and reuses its entry; every other scan gets an entry of its own.
 */
module RangeTables {

  /** Query id of a scan that is not of a target table. */
  const UNASSIGNED: nat := 0

  datatype Scan = Scan(queryId: nat, relid: nat)

  class RangeTable {
    var entries: seq<nat>
    var used: map<nat, nat>

    constructor ()
      ensures Valid() && entries == [] && used == map[]
    {
      entries, used := [], map[];
    }

    /** Reusable entries exist and belong to one query id each. */
    ghost predicate Valid()
      reads this
    {
      && (forall q | q in used :: q != UNASSIGNED && 1 <= used[q] <= |entries|)
      && (forall q, p | q in used && p in used && used[q] == used[p] :: q == p)
    }

    method IndexFor(queryId: nat) returns (index: nat, found: bool)
      ensures found <==> queryId != UNASSIGNED && queryId in used
      ensures index == if found then used[queryId] else |entries| + 1
    {
      if queryId == UNASSIGNED {
        return |entries| + 1, false;
      }
      if queryId in used {
        return used[queryId], true;
      }
      return |entries| + 1, false;
    }

    /** Finds or adds the entry of a scan; only target tables are remembered. */
    method Process(scan: Scan) returns (index: nat)
      requires Valid()
      modifies this
      ensures Valid()
      ensures scan.queryId != UNASSIGNED && scan.queryId in old(used) ==>
                index == old(used)[scan.queryId] && entries == old(entries) && used == old(used)
      ensures scan.queryId == UNASSIGNED || scan.queryId !in old(used) ==>
                index == |entries| && entries == old(entries) + [scan.relid]
      ensures scan.queryId != UNASSIGNED ==> used == old(used)[scan.queryId := index]
      ensures scan.queryId == UNASSIGNED ==> used == old(used)
    {
      var found;
      index, found := IndexFor(scan.queryId);
      if found {
        return;
      }
      entries := entries + [scan.relid];
      if scan.queryId != UNASSIGNED {
        used := used[scan.queryId := index];
      }
    }
  }

  /** Two scans share an entry exactly when both are of the target of one statement. */
  predicate Apart(scans: seq<Scan>, index: seq<nat>)
    requires |scans| == |index|
  {
    forall j, k | 0 <= j < k < |scans| ::
      index[j] == index[k] <==> scans[k].queryId != UNASSIGNED && scans[j].queryId == scans[k].queryId
  }

  /** Entry `index` of a scan under the remembered entries. */
  predicate EntryOf(scan: Scan, index: nat, used: map<nat, nat>, size: nat) {
    && 1 <= index <= size
    && (scan.queryId != UNASSIGNED ==> scan.queryId in used && used[scan.queryId] == index)
    && (scan.queryId == UNASSIGNED ==> forall q | q in used :: used[q] != index)
  }

  /** The effect of one more scan on the remembered entries and the size of the table. */
  predicate Processed(was: map<nat, nat>, n: nat, scan: Scan, next: nat, used: map<nat, nat>, size: nat) {
    && (forall q | q in was :: q != UNASSIGNED && 1 <= was[q] <= n)
    && (forall q, p | q in was && p in was && was[q] == was[p] :: q == p)
    && used == (if scan.queryId == UNASSIGNED then was else was[scan.queryId := next])
    && if scan.queryId != UNASSIGNED && scan.queryId in was then next == was[scan.queryId] && size == n
       else next == size == n + 1
  }

  lemma EntryKept(scan: Scan, index: nat, was: map<nat, nat>, n: nat, other: Scan, next: nat, used: map<nat, nat>,
                  size: nat)
    requires EntryOf(scan, index, was, n) && Processed(was, n, other, next, used, size)
    ensures EntryOf(scan, index, used, size)
    ensures index == next <==> other.queryId != UNASSIGNED && scan.queryId == other.queryId
  {
  }

  ghost predicate Entries(scans: seq<Scan>, index: seq<nat>, used: map<nat, nat>, size: nat) {
    && |scans| == |index| && Apart(scans, index)
    && forall k | 0 <= k < |scans| :: EntryOf(scans[k], index[k], used, size)
  }

  lemma OneMore(scans: seq<Scan>, index: seq<nat>, was: map<nat, nat>, n: nat, scan: Scan, next: nat, used: map<nat,
                nat>, size: nat)
    requires Entries(scans, index, was, n) && Processed(was, n, scan, next, used, size)
    ensures Entries(scans + [scan], index + [next], used, size)
  {
    forall k | 0 <= k < |scans|
      ensures EntryOf(scans[k], index[k], used, size)
      ensures index[k] == next <==> scan.queryId != UNASSIGNED && scans[k].queryId == scan.queryId
    {
      EntryKept(scans[k], index[k], was, n, scan, next, used, size);
    }
  }

  method ProcessAll(scans: seq<Scan>) returns (index: seq<nat>, size: nat)
    ensures |index| == |scans| && forall k | 0 <= k < |index| :: 1 <= index[k] <= size
    ensures Apart(scans, index)
  {
    var table := new RangeTable();
    index := [];
    for i := 0 to |scans|
      invariant fresh(table) && table.Valid()
      invariant Entries(scans[..i], index, table.used, |table.entries|)
    {
      ghost var was, n := table.used, |table.entries|;
      var next := table.Process(scans[i]);
      OneMore(scans[..i], index, was, n, scans[i], next, table.used, |table.entries|);
      assert scans[..i + 1] == scans[..i] + [scans[i]];
      index := index + [next];
    }
    size := |table.entries|;
    assert scans[..|scans|] == scans;
    assert forall k | 0 <= k < |scans| :: EntryOf(scans[k], index[k], table.used, size);
  }
}
