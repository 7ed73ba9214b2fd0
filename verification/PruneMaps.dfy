/**
  The tables that connect partitions, subplans and range-table entries for
  run-time pruning, and the set of entries the executor opens unconditionally.
 */
module PruneMaps {
  import opened Options
  import opened PruneSteps
  import RangeTables

  datatype PruneInfo = PruneInfo(subplanMap: seq<int>, relidMap: seq<nat>, leafMap: seq<nat>, present: set<nat>,
                                 initial: seq<Step>, exec: seq<Step>, execParams: set<nat>)

  predicate Increasing(xs: seq<nat>, n: nat) {
    && (forall k | 0 <= k < |xs| :: xs[k] < n)
    && (forall j, k | 0 <= j < k < |xs| :: xs[j] < xs[k])
  }

  /** Entry j of the tables when the subplans are the partitions `kept`. */
  predicate EntryOk(j: nat, sub: int, relid: nat, leaf: nat, kept: seq<nat>, oids: seq<nat>, children: seq<nat>)
    requires j < |oids|
  {
    || (sub == -1 && relid == 0 && leaf == 0 && j !in kept)
    || (0 <= sub < |kept| && kept[sub] == j && relid == oids[j] && leaf == if sub < |children| then children[sub]
        else 0)
  }

  /** The tables for the surviving partitions: `subplanMap` inverts the list, `present` is its set. */
  ghost predicate MapsOk(sub: seq<int>, relid: seq<nat>, leaf: seq<nat>, present: set<nat>,
                   kept: seq<nat>, oids: seq<nat>, children: seq<nat>)
  {
    && |sub| == |relid| == |leaf| == |oids|
    && (forall j | 0 <= j < |oids| :: EntryOk(j, sub[j], relid[j], leaf[j], kept, oids, children))
    && (forall k | 0 <= k < |kept| :: kept[k] < |oids| && sub[kept[k]] == k)
    && (forall j: nat :: j in present <==> j in kept)
  }

  /**
    The merge loop over the partition descriptor. It consumes a prefix of the
    surviving indexes, all of them exactly when they are increasing and in
    range, and the tables are those of the consumed prefix.
   */
  method BuildMaps(survivors: seq<nat>, oids: seq<nat>, children: seq<nat>)
    returns (sub: array<int>, relid: array<nat>, leaf: array<nat>, present: set<nat>, ptr: nat)
    ensures ptr <= |survivors|
    ensures ptr == |survivors| <==> Increasing(survivors, |oids|)
    ensures Increasing(survivors[..ptr], |oids|)
    ensures ptr < |survivors| ==> !Increasing(survivors[..ptr + 1], |oids|)
    ensures MapsOk(sub[..], relid[..], leaf[..], present, survivors[..ptr], oids, children)
    ensures fresh(sub) && fresh(relid) && fresh(leaf)
  {
    var n := |oids|;
    sub, relid, leaf := new int[n], new nat[n], new nat[n];
    present, ptr := {}, 0;
    for i := 0 to n
      invariant ptr <= |survivors| && Increasing(survivors[..ptr], i) && Stuck(survivors, ptr, i)
      invariant MapsOk(sub[..i], relid[..i], leaf[..i], present, survivors[..ptr], oids[..i], children)
    {
      ghost var s, r, l := sub[..i], relid[..i], leaf[..i];
      assert oids[..i + 1] == oids[..i] + [oids[i]];
      if ptr < |survivors| && i == survivors[ptr] {
        MapsTake(s, r, l, present, survivors[..ptr], oids[..i], children, oids[i]);
        Store(sub, relid, leaf, i, ptr, oids[i], if ptr < |children| then children[ptr] else 0);
        assert survivors[..ptr + 1] == survivors[..ptr] + [i];
        present := present + {i};
        ptr := ptr + 1;
      } else {
        MapsSkip(s, r, l, present, survivors[..ptr], oids[..i], children, oids[i]);
        Store(sub, relid, leaf, i, -1, 0, 0);
      }
    }
    assert sub[..n] == sub[..] && relid[..n] == relid[..] && leaf[..n] == leaf[..] && oids[..n] == oids;
    StuckMeans(survivors, ptr, n);
  }

  method Store(sub: array<int>, relid: array<nat>, leaf: array<nat>, i: nat, plan: int, oid: nat, rt: nat)
    requires i < sub.Length && i < relid.Length && i < leaf.Length && relid != leaf
    modifies sub, relid, leaf
    ensures sub[..i + 1] == old(sub[..i]) + [plan]
    ensures relid[..i + 1] == old(relid[..i]) + [oid]
    ensures leaf[..i + 1] == old(leaf[..i]) + [rt]
  {
    sub[i], relid[i], leaf[i] := plan, oid, rt;
  }

  /** The next survivor is still ahead, or can never be met again. */
  predicate Stuck(survivors: seq<nat>, ptr: nat, i: nat)
    requires ptr <= |survivors|
  {
    ptr < |survivors| && survivors[ptr] < i ==> ptr > 0 && survivors[ptr] <= survivors[ptr - 1]
  }

  lemma StuckMeans(survivors: seq<nat>, ptr: nat, n: nat)
    requires ptr <= |survivors| && Increasing(survivors[..ptr], n) && Stuck(survivors, ptr, n)
    ensures ptr == |survivors| <==> Increasing(survivors, n)
    ensures ptr < |survivors| ==> !Increasing(survivors[..ptr + 1], n)
  {
    if ptr == |survivors| {
      assert survivors[..ptr] == survivors;
    } else if survivors[ptr] < n {
      var more := survivors[..ptr + 1];
      assert more[ptr] <= more[ptr - 1];
      assert survivors[ptr] <= survivors[ptr - 1];
    } else {
      assert survivors[..ptr + 1][ptr] >= n;
    }
  }

  lemma MapsTake(sub: seq<int>, relid: seq<nat>, leaf: seq<nat>, present: set<nat>,
                 kept: seq<nat>, oids: seq<nat>, children: seq<nat>, oid: nat)
    requires MapsOk(sub, relid, leaf, present, kept, oids, children) && Increasing(kept, |oids|)
    ensures var i := |oids|;
            MapsOk(sub + [|kept|], relid + [oid], leaf + [if |kept| < |children| then children[|kept|] else 0],
                   present + {i}, kept + [i], oids + [oid], children)
  {
    var i := |oids|;
    forall j | 0 <= j < i
      ensures EntryOk(j, sub[j], relid[j], leaf[j], kept + [i], oids + [oid], children)
    {
      assert EntryOk(j, sub[j], relid[j], leaf[j], kept, oids, children);
    }
  }

  lemma MapsSkip(sub: seq<int>, relid: seq<nat>, leaf: seq<nat>, present: set<nat>,
                 kept: seq<nat>, oids: seq<nat>, children: seq<nat>, oid: nat)
    requires MapsOk(sub, relid, leaf, present, kept, oids, children) && Increasing(kept, |oids|)
    ensures MapsOk(sub + [-1], relid + [0], leaf + [0], present, kept, oids + [oid], children)
  {
    forall j | 0 <= j < |oids|
      ensures EntryOk(j, sub[j], relid[j], leaf[j], kept, oids + [oid], children)
    {
      assert EntryOk(j, sub[j], relid[j], leaf[j], kept, oids, children);
    }
  }

  /** What a pruning record states about its Append: tables, steps and their split by run time. */
  ghost predicate GoodInfo(info: PruneInfo, f: Filter, fam: Family, kept: seq<nat>, oids: seq<nat>, children: seq<nat>,
                           w: World) {
    && MapsOk(info.subplanMap, info.relidMap, info.leafMap, info.present, kept, oids, children)
    && (info.initial == [] || info.exec == []) && (info.initial + info.exec != [])
    && StepParams(info.initial) == {} && info.execParams == StepParams(info.exec)
    && (info.exec != [] ==> info.execParams != {})
    && StepParams(info.initial + info.exec) == FilterParams(f)
    && Runnable(info.initial + info.exec)
    && (NoEmptyOr(f) ==> Holds(info.initial + info.exec, |info.initial + info.exec| - 1, f, fam, w))
  }

  /** Builds the record of one Append; `children` are the range-table indexes of its scans. */
  method CreatePruneInfo(f: Filter, fam: Family, survivors: seq<nat>, oids: seq<nat>, children: seq<nat>,
                         ghost w: World)
    returns (r: Option<PruneInfo>, ghost kept: seq<nat>)
    ensures r.Some? <==> Supported(f, fam)
    ensures kept <= survivors && (kept == survivors <==> Increasing(survivors, |oids|)) && Increasing(kept, |oids|)
    ensures kept != survivors ==> !Increasing(survivors[..|kept| + 1], |oids|)
    ensures r.Some? ==> GoodInfo(r.value, f, fam, kept, oids, children, w)
  {
    var sub, relid, leaf, present, ptr := BuildMaps(survivors, oids, children);
    kept := survivors[..ptr];
    assert ptr < |survivors| ==> |kept| < |survivors|;
    var ok, _, steps := StepsFromFilter(f, fam, 0, [], w);
    if !ok {
      return None, kept;
    }
    var params := CollectExecParams(steps);
    if params != {} {
      assert [] + steps == steps;
      r := Some(PruneInfo(sub[..], relid[..], leaf[..], present, [], steps, params));
    } else {
      assert steps + [] == steps;
      r := Some(PruneInfo(sub[..], relid[..], leaf[..], present, steps, [], {}));
    }
  }

  // ----- entries opened at start-up -----

  predicate Covered(infos: seq<PruneInfo>, rt: nat) {
    exists i | 0 <= i < |infos| :: infos[i].initial != [] && rt != 0 && rt in infos[i].leafMap
  }

  method RemoveLeaves(relids: set<nat>, leaves: seq<nat>) returns (r: set<nat>)
    ensures forall rt: nat :: rt in r <==> rt in relids && (rt == 0 || rt !in leaves)
  {
    r := relids;
    for j := 0 to |leaves|
      invariant forall rt: nat :: rt in r <==> rt in relids && (rt == 0 || rt !in leaves[..j])
    {
      assert leaves[..j + 1] == leaves[..j] + [leaves[j]];
      if leaves[j] != 0 {
        r := r - {leaves[j]};
      }
    }
    assert leaves[..|leaves|] == leaves;
  }

  /** Every entry, except the leaves of an Append with start-up pruning steps. */
  method UnprunableRelids(size: nat, infos: seq<PruneInfo>) returns (r: set<nat>)
    ensures forall rt: nat :: rt in r <==> 1 <= rt <= size && !Covered(infos, rt)
  {
    r := {};
    for i := 1 to size + 1
      invariant forall rt: nat :: rt in r <==> 1 <= rt < i
    {
      r := r + {i};
    }
    for i := 0 to |infos|
      invariant forall rt: nat :: rt in r <==> 1 <= rt <= size && !Covered(infos[..i], rt)
    {
      ghost var before := r;
      if infos[i].initial != [] {
        r := RemoveLeaves(r, infos[i].leafMap);
      }
      forall rt: nat
        ensures Covered(infos[..i + 1], rt) <==>
                  Covered(infos[..i], rt) || (infos[i].initial != [] && rt != 0 && rt in infos[i].leafMap)
      {
        CoveredSnoc(infos[..i], infos[i], rt);
        assert infos[..i + 1] == infos[..i] + [infos[i]];
      }
    }
    assert infos[..|infos|] == infos;
  }

  lemma CoveredSnoc(infos: seq<PruneInfo>, info: PruneInfo, rt: nat)
    ensures Covered(infos + [info], rt) <==> Covered(infos, rt) || (info.initial != [] && rt != 0 && rt in info.leafMap)
  {
    var all := infos + [info];
    if Covered(infos, rt) {
      var i :| 0 <= i < |infos| && infos[i].initial != [] && rt != 0 && rt in infos[i].leafMap;
      assert all[i] == infos[i];
    }
    if info.initial != [] && rt != 0 && rt in info.leafMap {
      assert all[|infos|] == info;
    }
  }

  // ----- what the executor finds open -----

  /** One Append: its filter and operator family, its partitions and scans, and what comparisons select in its table. */
  datatype PrunedAppend = PrunedAppend(f: Filter, fam: Family, kept: seq<nat>, oids: seq<nat>, children: seq<nat>,
                                       w: World) {
    /** The filter compares the key with constants only. */
    predicate StartUp() {
      FilterParams(f) == {}
    }

    /** Scan k reads entry rt. */
    predicate Scans(k: nat, rt: nat) {
      k < |kept| && k < |children| && children[k] == rt
    }

    predicate Keeps(k: nat)
      requires Supported(f, fam) && k < |kept|
    {
      Selects(f, fam, w, kept[k])
    }
  }

  /** The record was built for the Append, whose boolean operators have operands. */
  ghost predicate Built(info: PruneInfo, a: PrunedAppend) {
    && Supported(a.f, a.fam) && NoEmptyOr(a.f)
    && GoodInfo(info, a.f, a.fam, a.kept, a.oids, a.children, a.w)
    && (forall j: nat | j < |a.oids| :: j in a.w.parts)
  }

  ghost predicate AllBuilt(infos: seq<PruneInfo>, apps: seq<PrunedAppend>) {
    |infos| == |apps| && forall i | 0 <= i < |infos| :: Built(infos[i], apps[i])
  }

  /** Start-up pruning opens the leaf of each partition with a subplan that its last step yields. */
  ghost predicate OpensLeaf(info: PruneInfo, j: nat, rt: nat, w: World) {
    && Runnable(info.initial) && info.initial != [] && j < |info.leafMap| == |info.subplanMap|
    && info.subplanMap[j] >= 0 && info.leafMap[j] == rt && j in Run(info.initial, w)[|info.initial| - 1]
  }

  ghost predicate Reopened(infos: seq<PruneInfo>, apps: seq<PrunedAppend>, rt: nat)
    requires |infos| == |apps|
  {
    exists i, j | 0 <= i < |infos| && 0 <= j < |infos[i].leafMap| :: OpensLeaf(infos[i], j, rt, apps[i].w)
  }

  /** After start-up pruning an entry is open if it is unprunable or was opened by some record. */
  ghost predicate Open(infos: seq<PruneInfo>, apps: seq<PrunedAppend>, unprunable: set<nat>, rt: nat)
    requires |infos| == |apps|
  {
    rt in unprunable || Reopened(infos, apps, rt)
  }

  /** Some Append that prunes at start-up scans the entry. */
  ghost predicate ScannedAtStart(apps: seq<PrunedAppend>, rt: nat) {
    exists i, k | 0 <= i < |apps| && 0 <= k < |apps[i].kept| :: apps[i].StartUp() && apps[i].Scans(k, rt)
  }

  /** Some Append that prunes at start-up scans the entry for a partition its own filter selects. */
  ghost predicate SelectedAtStart(apps: seq<PrunedAppend>, rt: nat)
    requires forall i | 0 <= i < |apps| :: Supported(apps[i].f, apps[i].fam)
  {
    exists i, k | 0 <= i < |apps| && 0 <= k < |apps[i].kept| ::
      apps[i].StartUp() && apps[i].Scans(k, rt) && apps[i].Keeps(k)
  }

  /** Steps run at start-up exactly when the filter has no PARAM_EXEC. */
  lemma StartsUp(info: PruneInfo, a: PrunedAppend)
    requires Built(info, a)
    ensures info.initial != [] <==> a.StartUp()
    ensures a.StartUp() ==> info.initial + info.exec == info.initial
  {
    if info.initial != [] {
      assert info.initial + [] == info.initial;
    } else {
      assert [] + info.exec == info.exec;
    }
  }

  lemma LeafListed(info: PruneInfo, a: PrunedAppend, rt: nat)
    requires Built(info, a) && rt != 0
    ensures rt in info.leafMap <==> exists k | 0 <= k < |a.kept| :: a.Scans(k, rt)
  {
    if rt in info.leafMap {
      var j :| 0 <= j < |info.leafMap| && info.leafMap[j] == rt;
      assert EntryOk(j, info.subplanMap[j], info.relidMap[j], info.leafMap[j], a.kept, a.oids, a.children);
      assert a.Scans(info.subplanMap[j], rt);
    }
    if k :| 0 <= k < |a.kept| && a.Scans(k, rt) {
      var j := a.kept[k];
      assert EntryOk(j, info.subplanMap[j], info.relidMap[j], info.leafMap[j], a.kept, a.oids, a.children);
      assert info.leafMap[j] == rt;
    }
  }

  lemma LeafOpened(info: PruneInfo, a: PrunedAppend, rt: nat)
    requires Built(info, a) && rt != 0 && a.StartUp()
    ensures (exists j | 0 <= j < |info.leafMap| :: OpensLeaf(info, j, rt, a.w))
            <==> exists k | 0 <= k < |a.kept| :: a.Scans(k, rt) && a.Keeps(k)
  {
    StartsUp(info, a);
    if j :| 0 <= j < |info.leafMap| && OpensLeaf(info, j, rt, a.w) {
      assert EntryOk(j, info.subplanMap[j], info.relidMap[j], info.leafMap[j], a.kept, a.oids, a.children);
      var k := info.subplanMap[j];
      assert a.Scans(k, rt) && a.kept[k] == j && a.Keeps(k);
    }
    if k :| 0 <= k < |a.kept| && a.Scans(k, rt) && a.Keeps(k) {
      var j := a.kept[k];
      assert EntryOk(j, info.subplanMap[j], info.relidMap[j], info.leafMap[j], a.kept, a.oids, a.children);
      assert OpensLeaf(info, j, rt, a.w);
    }
  }

  lemma CoveredIff(infos: seq<PruneInfo>, apps: seq<PrunedAppend>, rt: nat)
    requires AllBuilt(infos, apps) && rt != 0
    ensures Covered(infos, rt) <==> ScannedAtStart(apps, rt)
  {
    if Covered(infos, rt) {
      var i :| 0 <= i < |infos| && infos[i].initial != [] && rt in infos[i].leafMap;
      assert Built(infos[i], apps[i]);
      StartsUp(infos[i], apps[i]);
      LeafListed(infos[i], apps[i], rt);
    }
    if ScannedAtStart(apps, rt) {
      var i, k :| 0 <= i < |apps| && 0 <= k < |apps[i].kept| && apps[i].StartUp() && apps[i].Scans(k, rt);
      assert Built(infos[i], apps[i]);
      StartsUp(infos[i], apps[i]);
      LeafListed(infos[i], apps[i], rt);
    }
  }

  lemma ReopenedIff(infos: seq<PruneInfo>, apps: seq<PrunedAppend>, rt: nat)
    requires AllBuilt(infos, apps) && rt != 0
    ensures Reopened(infos, apps, rt) <==> SelectedAtStart(apps, rt)
  {
    if Reopened(infos, apps, rt) {
      var i, j :| 0 <= i < |infos| && 0 <= j < |infos[i].leafMap| && OpensLeaf(infos[i], j, rt, apps[i].w);
      assert Built(infos[i], apps[i]);
      StartsUp(infos[i], apps[i]);
      LeafOpened(infos[i], apps[i], rt);
    }
    if SelectedAtStart(apps, rt) {
      var i, k :| 0 <= i < |apps| && 0 <= k < |apps[i].kept| && apps[i].StartUp() && apps[i].Scans(k, rt) &&
          apps[i].Keeps(k);
      assert Built(infos[i], apps[i]);
      LeafOpened(infos[i], apps[i], rt);
    }
  }

  /**
    Which entries are open, read off the Appends alone: those that no Append
    with start-up pruning scans, and those such an Append scans for a partition
    its filter selects.
   */
  lemma OpenIff(infos: seq<PruneInfo>, apps: seq<PrunedAppend>, size: nat, unprunable: set<nat>, rt: nat)
    requires AllBuilt(infos, apps) && 1 <= rt <= size
    requires forall r: nat :: r in unprunable <==> 1 <= r <= size && !Covered(infos, r)
    ensures Open(infos, apps, unprunable, rt) <==> !ScannedAtStart(apps, rt) || SelectedAtStart(apps, rt)
  {
    CoveredIff(infos, apps, rt);
    ReopenedIff(infos, apps, rt);
  }

  /**
    The scan of a partition that its Append's filter selects finds its entry
    open exactly when the Append prunes at start-up, or no start-up Append scans
    that entry, or one that does selects a partition for it.
   */
  lemma SurvivorOpens(infos: seq<PruneInfo>, apps: seq<PrunedAppend>, size: nat, unprunable: set<nat>, i: nat, k: nat)
    requires AllBuilt(infos, apps) && i < |apps| && k < |apps[i].kept| && k < |apps[i].children|
    requires 1 <= apps[i].children[k] <= size && apps[i].Keeps(k)
    requires forall r: nat :: r in unprunable <==> 1 <= r <= size && !Covered(infos, r)
    ensures var rt := apps[i].children[k];
            Open(infos, apps, unprunable, rt) <==>
                apps[i].StartUp() || !ScannedAtStart(apps, rt) || SelectedAtStart(apps, rt)
  {
    var rt := apps[i].children[k];
    OpenIff(infos, apps, size, unprunable, rt);
    assert apps[i].Scans(k, rt);
  }

  /** Different Appends scan different entries. */
  predicate OwnEntries(apps: seq<PrunedAppend>) {
    forall i, j, k, l | 0 <= i < |apps| && 0 <= j < |apps| && i != j && 0 <= k < |apps[i].children| &&
        0 <= l < |apps[j].children| ::
      apps[i].children[k] != apps[j].children[l]
  }

  /** With entries of their own, every selected partition's scan finds its entry open. */
  lemma OwnEntriesOpen(infos: seq<PruneInfo>, apps: seq<PrunedAppend>, size: nat, unprunable: set<nat>, i: nat, k: nat)
    requires AllBuilt(infos, apps) && i < |apps| && k < |apps[i].kept| && k < |apps[i].children|
    requires 1 <= apps[i].children[k] <= size && apps[i].Keeps(k)
    requires forall r: nat :: r in unprunable <==> 1 <= r <= size && !Covered(infos, r)
    requires OwnEntries(apps)
    ensures Open(infos, apps, unprunable, apps[i].children[k])
  {
    var rt := apps[i].children[k];
    SurvivorOpens(infos, apps, size, unprunable, i, k);
    assert ScannedAtStart(apps, rt) ==> apps[i].StartUp();
  }

  /** The Appends scan consecutive stretches of the numbered scans. */
  predicate Stretches(index: seq<nat>, apps: seq<PrunedAppend>, first: seq<nat>) {
    && |first| == |apps|
    && (forall i | 0 <= i < |apps| ::
          first[i] + |apps[i].children| <= |index| &&
              apps[i].children == index[first[i]..first[i] + |apps[i].children|])
    && (forall i, j | 0 <= i < j < |apps| :: first[i] + |apps[i].children| <= first[j])
  }

  predicate NoQueryId(scans: seq<RangeTables.Scan>, from: nat, count: nat)
    requires from + count <= |scans|
  {
    forall n | from <= n < from + count :: scans[n].queryId == RangeTables.UNASSIGNED
  }

  /** The scans under the Appends carry no query id; other scans may be of the target of a statement. */
  predicate Untagged(scans: seq<RangeTables.Scan>, apps: seq<PrunedAppend>, first: seq<nat>)
    requires |first| == |apps| && forall i | 0 <= i < |apps| :: first[i] + |apps[i].children| <= |scans|
  {
    forall i | 0 <= i < |apps| :: NoQueryId(scans, first[i], |apps[i].children|)
  }

  /** Scans of tables that no statement modifies give their Appends entries of their own. */
  lemma UntaggedAreOwn(scans: seq<RangeTables.Scan>, index: seq<nat>, apps: seq<PrunedAppend>, first: seq<nat>)
    requires |scans| == |index| && RangeTables.Apart(scans, index) && Stretches(index, apps, first)
    requires Untagged(scans, apps, first)
    ensures OwnEntries(apps)
  {
    forall i, j, k, l | 0 <= i < |apps| && 0 <= j < |apps| && i != j && 0 <= k < |apps[i].children| &&
        0 <= l < |apps[j].children|
      ensures apps[i].children[k] != apps[j].children[l]
    {
      assert apps[i].children[k] == index[first[i] + k] && apps[j].children[l] == index[first[j] + l];
      assert first[i] + |apps[i].children| <= first[j] || first[j] + |apps[j].children| <= first[i];
      assert NoQueryId(scans, first[i], |apps[i].children|) && NoQueryId(scans, first[j], |apps[j].children|);
    }
  }

  /**
    From numbering to execution: partition scans carry no query id, because
    updates and deletes of partitioned tables are not translated, so every
    partition that its Append's filter selects is scanned through an open entry.
   */
  lemma SelectedScansOpen(scans: seq<RangeTables.Scan>, index: seq<nat>, first: seq<nat>, infos: seq<PruneInfo>,
                          apps: seq<PrunedAppend>, size: nat, unprunable: set<nat>, i: nat, k: nat)
    requires |scans| == |index| && RangeTables.Apart(scans, index) && Stretches(index, apps, first)
    requires Untagged(scans, apps, first) && forall n | 0 <= n < |index| :: 1 <= index[n] <= size
    requires AllBuilt(infos, apps) && i < |apps| && k < |apps[i].kept| && k < |apps[i].children| && apps[i].Keeps(k)
    requires forall r: nat :: r in unprunable <==> 1 <= r <= size && !Covered(infos, r)
    ensures Open(infos, apps, unprunable, apps[i].children[k])
  {
    UntaggedAreOwn(scans, index, apps, first);
    assert apps[i].children[k] == index[first[i] + k];
    OwnEntriesOpen(infos, apps, size, unprunable, i, k);
  }

  // ----- a shared entry -----

  /** Pruned at start-up to nothing. */
  const DROPPING := PrunedAppend(Cmp(0, Value(1)), map[0 := 3], [0], [7], [1], World({0}, (strategy, e) => {}))

  /** Pruned at run time, and selecting its one partition, which it scans through the same entry. */
  const KEEPING := PrunedAppend(Cmp(0, ExecParam(0)), map[0 := 3], [0], [7], [1], World({0}, (strategy, e) => {0}))

  function DroppingInfo(): PruneInfo {
    PruneInfo([0], [7], [1], {0}, [Compare(0, 3, Value(1))], [], {})
  }

  function KeepingInfo(): PruneInfo {
    PruneInfo([0], [7], [1], {0}, [], [Compare(0, 3, ExecParam(0))], {0})
  }

  lemma OneStep(step: Step, w: World)
    requires step.Compare? && step.id == 0
    ensures Runnable([step]) && Run([step], w) == [w.pick(step.strategy, step.expr)]
    ensures StepParams([step]) == ExecParams(step.expr)
  {
    assert [step][..0] == [] && [step][1..] == [];
    assert StepParams([step]) == ExecParams(step.expr) + StepParams([step][1..]);
  }

  lemma SharedBuilt()
    ensures Built(DroppingInfo(), DROPPING) && Built(KeepingInfo(), KEEPING)
  {
    OneStep(Compare(0, 3, Value(1)), DROPPING.w);
    OneStep(Compare(0, 3, ExecParam(0)), KEEPING.w);
    assert EntryOk(0, 0, 7, 1, [0], [7], [1]);
    assert DroppingInfo().initial + DroppingInfo().exec == DroppingInfo().initial;
    assert KeepingInfo().initial + KeepingInfo().exec == KeepingInfo().exec;
  }

  /** Two Appends that share an entry: start-up pruning of the one closes it for a partition the other selects. */
  lemma SharedEntryLost(unprunable: set<nat>)
    requires forall r: nat :: r in unprunable <==> 1 <= r <= 1 && !Covered([DroppingInfo(), KeepingInfo()], r)
    ensures AllBuilt([DroppingInfo(), KeepingInfo()], [DROPPING, KEEPING])
    ensures KEEPING.Keeps(0) && KEEPING.children[0] == 1
    ensures !Open([DroppingInfo(), KeepingInfo()], [DROPPING, KEEPING], unprunable, 1)
  {
    var infos, apps := [DroppingInfo(), KeepingInfo()], [DROPPING, KEEPING];
    SharedBuilt();
    assert apps[0].StartUp() && apps[0].Scans(0, 1);
    OpenIff(infos, apps, 1, unprunable, 1);
  }
}
