/**
  Compilation of a partition filter into a numbered, linear list of pruning
  steps, and the meaning of such a list when it is run once from front to back.
 */
module PruneSteps {
  import opened Options

  datatype Scalar = Value(v: int) | ExecParam(id: nat) | ExternParam(id: nat) | Call(fn: nat, args: seq<Scalar>)

  datatype Filter =
    | Cmp(opno: nat, rhs: Scalar)
    | And(args: seq<Filter>)
    | Or(args: seq<Filter>)
    | Not(arg: Filter)
    | Unsupported

  datatype Step =
    | Compare(id: nat, strategy: nat, expr: Scalar)
    | Combine(id: nat, union: bool, sources: seq<nat>)

  /** Strategy numbers of the operators in the partition key's operator family. */
  type Family = map<nat, nat>

  /** All partitions, and those a comparison with the key may select. */
  datatype World = World(parts: set<nat>, pick: (nat, Scalar) -> set<nat>)

  // ----- meaning of a filter -----

  /** Filters the builder can translate; the boolean operators have operands. */
  predicate Supported(f: Filter, fam: Family) {
    match f
    case Cmp(opno, _) => opno in fam
    case And(args) => forall k | 0 <= k < |args| :: Supported(args[k], fam)
    case Or(args) => forall k | 0 <= k < |args| :: Supported(args[k], fam)
    case _ => false
  }

  predicate NoEmptyOr(f: Filter) {
    match f
    case And(args) => forall k | 0 <= k < |args| :: NoEmptyOr(args[k])
    case Or(args) => args != [] && forall k | 0 <= k < |args| :: NoEmptyOr(args[k])
    case _ => true
  }

  predicate Selects(f: Filter, fam: Family, w: World, p: nat)
    requires Supported(f, fam)
  {
    match f
    case Cmp(opno, rhs) => p in w.pick(fam[opno], rhs)
    case And(args) => forall k | 0 <= k < |args| :: Selects(args[k], fam, w, p)
    case Or(args) => exists k | 0 <= k < |args| :: Selects(args[k], fam, w, p)
  }

  // ----- running a list of steps -----

  function UnionOf(ids: seq<nat>, results: seq<set<nat>>): set<nat>
    requires forall k | 0 <= k < |ids| :: ids[k] < |results|
  {
    if ids == [] then {} else results[ids[0]] + UnionOf(ids[1..], results)
  }

  function IntersectionOf(ids: seq<nat>, results: seq<set<nat>>): set<nat>
    requires ids != [] && forall k | 0 <= k < |ids| :: ids[k] < |results|
  {
    if |ids| == 1 then results[ids[0]] else results[ids[0]] * IntersectionOf(ids[1..], results)
  }

  /** A combine step refers to earlier results only. */
  predicate RefersBack(step: Step, n: nat) {
    step.Combine? ==> forall k | 0 <= k < |step.sources| :: step.sources[k] < n
  }

  predicate Runnable(steps: seq<Step>) {
    forall k | 0 <= k < |steps| :: steps[k].id == k && RefersBack(steps[k], k)
  }

  /** The value of one step; combining nothing means no pruning. */
  function StepValue(step: Step, results: seq<set<nat>>, w: World): set<nat>
    requires RefersBack(step, |results|)
  {
    match step
    case Compare(_, strategy, expr) => w.pick(strategy, expr)
    case Combine(_, union, sources) =>
      if sources == [] then w.parts
      else if union then UnionOf(sources, results) else IntersectionOf(sources, results)
  }

  function Run(steps: seq<Step>, w: World): (results: seq<set<nat>>)
    requires Runnable(steps)
    ensures |results| == |steps|
  {
    if steps == [] then []
    else
      var results := Run(steps[..|steps| - 1], w);
      results + [StepValue(steps[|steps| - 1], results, w)]
  }

  lemma {:induction false} RunAppend(steps: seq<Step>, more: seq<Step>, w: World)
    requires Runnable(steps + more)
    ensures Runnable(steps) && Run(steps, w) <= Run(steps + more, w)
    decreases more
  {
    assert forall k | 0 <= k < |steps| :: (steps + more)[k] == steps[k];
    if more == [] {
      assert steps + more == steps;
    } else {
      var init := more[..|more| - 1];
      assert (steps + more)[..|steps + more| - 1] == steps + init;
      assert forall k | 0 <= k < |steps + init| :: (steps + init)[k] == (steps + more)[k];
      RunAppend(steps, init, w);
    }
  }

  lemma RunGrows(steps: seq<Step>, longer: seq<Step>, w: World)
    requires Runnable(longer) && steps <= longer
    ensures Runnable(steps) && Run(steps, w) <= Run(longer, w)
  {
    assert longer == steps + longer[|steps|..];
    RunAppend(steps, longer[|steps|..], w);
  }

  lemma {:induction false} InUnion(ids: seq<nat>, results: seq<set<nat>>, p: nat)
    requires forall k | 0 <= k < |ids| :: ids[k] < |results|
    ensures p in UnionOf(ids, results) <==> exists k | 0 <= k < |ids| :: p in results[ids[k]]
  {
    if ids != [] {
      InUnion(ids[1..], results, p);
      if k :| 0 <= k < |ids| && p in results[ids[k]] && k > 0 {
        assert ids[1..][k - 1] == ids[k];
      }
      if k :| 0 <= k < |ids[1..]| && p in results[ids[1..][k]] {
        assert p in results[ids[k + 1]];
      }
    }
  }

  lemma {:induction false} InIntersection(ids: seq<nat>, results: seq<set<nat>>, p: nat)
    requires ids != [] && forall k | 0 <= k < |ids| :: ids[k] < |results|
    ensures p in IntersectionOf(ids, results) <==> forall k | 0 <= k < |ids| :: p in results[ids[k]]
  {
    if |ids| > 1 {
      InIntersection(ids[1..], results, p);
      if forall k | 0 <= k < |ids| :: p in results[ids[k]] {
        forall k | 0 <= k < |ids[1..]|
          ensures p in results[ids[1..][k]]
        {
          assert ids[1..][k] == ids[k + 1];
        }
      } else {
        var k :| 0 <= k < |ids| && p !in results[ids[k]];
        if k > 0 {
          assert ids[1..][k - 1] == ids[k];
        }
      }
    }
  }

  // ----- parameters of the steps -----

  function ExecParams(e: Scalar): set<nat>
    decreases e, 0
  {
    match e
    case ExecParam(id) => {id}
    case Call(_, args) => AllExecParams(args)
    case _ => {}
  }

  function AllExecParams(es: seq<Scalar>): set<nat>
    decreases es, 1
  {
    if es == [] then {} else ExecParams(es[0]) + AllExecParams(es[1..])
  }

  function StepParams(steps: seq<Step>): set<nat> {
    if steps == [] then {}
    else (if steps[0].Compare? then ExecParams(steps[0].expr) else {}) + StepParams(steps[1..])
  }

  lemma {:induction false} StepParamsSnoc(steps: seq<Step>, step: Step)
    ensures StepParams(steps + [step]) == StepParams(steps) + (if step.Compare? then ExecParams(step.expr) else {})
  {
    if steps == [] {
      assert steps + [step] == [step] && [step][1..] == [];
    } else {
      assert (steps + [step])[1..] == steps[1..] + [step];
      StepParamsSnoc(steps[1..], step);
    }
  }

  /** The PARAM_EXEC ids a filter compares the key with. */
  function FilterParams(f: Filter): set<nat>
    decreases f, 0
  {
    match f
    case Cmp(_, rhs) => ExecParams(rhs)
    case And(args) => AllFilterParams(args)
    case Or(args) => AllFilterParams(args)
    case _ => {}
  }

  function AllFilterParams(fs: seq<Filter>): set<nat>
    decreases fs, 1
  {
    if fs == [] then {} else AllFilterParams(fs[..|fs| - 1]) + FilterParams(fs[|fs| - 1])
  }

  // ----- the builder -----

  /** The value of step `id` is the filter's set. */
  ghost predicate Holds(steps: seq<Step>, id: nat, f: Filter, fam: Family, w: World) {
    Runnable(steps) && id < |steps| && Supported(f, fam) &&
    forall p | p in w.parts :: p in Run(steps, w)[id] <==> Selects(f, fam, w, p)
  }

  lemma HoldsGrows(steps: seq<Step>, longer: seq<Step>, id: nat, f: Filter, fam: Family, w: World)
    requires Holds(steps, id, f, fam, w) && Runnable(longer) && steps <= longer
    ensures Holds(longer, id, f, fam, w)
  {
    RunGrows(steps, longer, w);
  }

  lemma RunLast(steps: seq<Step>, step: Step, w: World)
    requires Runnable(steps) && step.id == |steps| && RefersBack(step, |steps|)
    ensures Runnable(steps + [step]) && Run(steps + [step], w) == Run(steps, w) + [StepValue(step, Run(steps, w), w)]
  {
    assert (steps + [step])[..|steps|] == steps;
  }

  /** Combining the values of the operands gives the value of the whole. */
  lemma CombineYields(steps: seq<Step>, step: Step, f: Filter, fam: Family, w: World)
    requires Runnable(steps) && Supported(f, fam) && (f.And? || f.Or?) && NoEmptyOr(f)
    requires step.Combine? && step.id == |steps| && step.union == f.Or? && |step.sources| == |f.args|
    requires forall k | 0 <= k < |f.args| :: Holds(steps, step.sources[k], f.args[k], fam, w)
    ensures Holds(steps + [step], step.id, f, fam, w)
  {
    RunLast(steps, step, w);
    var results := Run(steps, w);
    forall p | p in w.parts
      ensures p in StepValue(step, results, w) <==> Selects(f, fam, w, p)
    {
      if step.sources != [] {
        if f.Or? {
          InUnion(step.sources, results, p);
          OperandsAgree(steps, step.sources, f.args, fam, w, p);
        } else {
          InIntersection(step.sources, results, p);
          OperandsAgree(steps, step.sources, f.args, fam, w, p);
        }
      }
    }
  }

  lemma OperandsAgree(steps: seq<Step>, ids: seq<nat>, args: seq<Filter>, fam: Family, w: World, p: nat)
    requires Runnable(steps) && |ids| == |args| && p in w.parts
    requires forall k | 0 <= k < |args| :: Holds(steps, ids[k], args[k], fam, w)
    ensures forall k | 0 <= k < |args| ::
              ids[k] < |steps| && Supported(args[k], fam) &&
                  (p in Run(steps, w)[ids[k]] <==> Selects(args[k], fam, w, p))
  {
    forall k | 0 <= k < |args|
      ensures ids[k] < |steps| && Supported(args[k], fam)
      ensures (p in Run(steps, w)[ids[k]] <==> Selects(args[k], fam, w, p))
    {
      assert Holds(steps, ids[k], args[k], fam, w);
    }
  }

  /** Result of translating a filter after `steps`, for every meaning `w` of the comparisons. */
  ghost predicate Extends(steps: seq<Step>, r: seq<Step>, f: Filter, fam: Family, w: World) {
    && steps < r && Runnable(r)
    && StepParams(r) == StepParams(steps) + FilterParams(f)
    && (NoEmptyOr(f) ==> Holds(r, |r| - 1, f, fam, w))
  }

  /** Appends the step of one comparison; an operator outside the family is an error. */
  method StepFromCmp(f: Filter, fam: Family, stepId: nat, steps: seq<Step>, ghost w: World)
    returns (ok: bool, nextId: nat, r: seq<Step>)
    requires f.Cmp? && stepId == |steps| && Runnable(steps)
    ensures ok <==> Supported(f, fam)
    ensures ok ==> nextId == |r| && Extends(steps, r, f, fam, w)
  {
    if f.opno !in fam {
      return false, stepId, steps;
    }
    var step := Compare(stepId, fam[f.opno], f.rhs);
    RunLast(steps, step, w);
    StepParamsSnoc(steps, step);
    return true, stepId + 1, steps + [step];
  }

  /** The steps `ids` hold the sets of the first operands. */
  ghost predicate OperandsHold(r: seq<Step>, ids: seq<nat>, args: seq<Filter>, fam: Family, w: World) {
    |ids| <= |args| && forall k | 0 <= k < |ids| :: Holds(r, ids[k], args[k], fam, w)
  }

  lemma OperandsGrow(before: seq<Step>, r: seq<Step>, ids: seq<nat>, args: seq<Filter>, fam: Family, w: World)
    requires OperandsHold(before, ids, args, fam, w) && before <= r && Runnable(r) && |ids| < |args|
    requires r != [] && Holds(r, |r| - 1, args[|ids|], fam, w)
    ensures OperandsHold(r, ids + [|r| - 1], args, fam, w)
  {
    forall k | 0 <= k < |ids|
      ensures Holds(r, ids[k], args[k], fam, w)
    {
      HoldsGrows(before, r, ids[k], args[k], fam, w);
    }
  }

  lemma Joined(a: set<nat>, b: set<nat>, c: set<nat>)
    ensures a + b + c == a + (b + c)
  {
  }

  /** What the steps of the first operands amount to. */
  ghost predicate OperandsDone(steps: seq<Step>, r: seq<Step>, ids: seq<nat>, args: seq<Filter>, fam: Family,
                               w: World) {
    && steps <= r && Runnable(r) && |ids| <= |args|
    && (forall k | 0 <= k < |ids| :: Supported(args[k], fam) && ids[k] < |r|)
    && StepParams(r) == StepParams(steps) + AllFilterParams(args[..|ids|])
    && ((forall k | 0 <= k < |args| :: NoEmptyOr(args[k])) ==> OperandsHold(r, ids, args, fam, w))
  }

  lemma OneOperand(steps: seq<Step>, before: seq<Step>, r: seq<Step>, ids: seq<nat>, args: seq<Filter>, fam: Family,
                   w: World)
    requires OperandsDone(steps, before, ids, args, fam, w) && |ids| < |args|
    requires Supported(args[|ids|], fam) && Extends(before, r, args[|ids|], fam, w)
    ensures r != [] && OperandsDone(steps, r, ids + [|r| - 1], args, fam, w)
  {
    var i := |ids|;
    if forall k | 0 <= k < |args| :: NoEmptyOr(args[k]) {
      OperandsGrow(before, r, ids, args, fam, w);
    }
    assert args[..i + 1][..i] == args[..i];
    Joined(StepParams(steps), AllFilterParams(args[..i]), FilterParams(args[i]));
  }

  /** Appends the steps of the operands in order and notes the last step of each. */
  method OperandSteps(args: seq<Filter>, fam: Family, stepId: nat, steps: seq<Step>, ghost w: World)
    returns (ok: bool, nextId: nat, r: seq<Step>, ids: seq<nat>)
    requires stepId == |steps| && Runnable(steps)
    ensures ok <==> forall k | 0 <= k < |args| :: Supported(args[k], fam)
    ensures ok ==> nextId == |r| && |ids| == |args| && OperandsDone(steps, r, ids, args, fam, w)
    decreases args, 2
  {
    ok, nextId, r, ids := true, stepId, steps, [];
    for i := 0 to |args|
      invariant nextId == |r| && |ids| == i && OperandsDone(steps, r, ids, args, fam, w)
    {
      ghost var before := r;
      ok, nextId, r := StepsFromFilter(args[i], fam, nextId, r, w);
      if !ok {
        return;
      }
      OneOperand(steps, before, r, ids, args, fam, w);
      ids := ids + [r[|r| - 1].id];
    }
  }

  /** The combining step completes the translation of the operands. */
  lemma Combined(steps: seq<Step>, r: seq<Step>, step: Step, f: Filter, fam: Family, w: World)
    requires (f.And? || f.Or?) && Supported(f, fam)
    requires step.Combine? && step.id == |r| && step.union == f.Or? && |step.sources| == |f.args|
    requires OperandsDone(steps, r, step.sources, f.args, fam, w)
    ensures Extends(steps, r + [step], f, fam, w)
  {
    assert f.args[..|f.args|] == f.args;
    RunLast(r, step, w);
    StepParamsSnoc(r, step);
    if NoEmptyOr(f) {
      CombineYields(r, step, f, fam, w);
    }
  }

  /** Appends the steps of the operands, then the step that combines them. */
  method StepsFromBool(f: Filter, fam: Family, stepId: nat, steps: seq<Step>, ghost w: World)
    returns (ok: bool, nextId: nat, r: seq<Step>)
    requires (f.And? || f.Or? || f.Not?) && stepId == |steps| && Runnable(steps)
    ensures ok <==> Supported(f, fam)
    ensures ok ==> nextId == |r| && Extends(steps, r, f, fam, w)
    decreases f, 0
  {
    if f.Not? {
      return false, stepId, steps;
    }
    var ids;
    ok, nextId, r, ids := OperandSteps(f.args, fam, stepId, steps, w);
    if !ok {
      return;
    }
    var step := Combine(nextId, f.Or?, ids);
    Combined(steps, r, step, f, fam, w);
    nextId, r := nextId + 1, r + [step];
  }

  /**
    Translates a filter after the given steps. It succeeds exactly on supported
    filters; ids stay positions, combine steps look back only, and the last
    step yields the partitions the filter selects.
   */
  method StepsFromFilter(f: Filter, fam: Family, stepId: nat, steps: seq<Step>, ghost w: World)
    returns (ok: bool, nextId: nat, r: seq<Step>)
    requires stepId == |steps| && Runnable(steps)
    ensures ok <==> Supported(f, fam)
    ensures ok ==> nextId == |r| && Extends(steps, r, f, fam, w)
    decreases f, 1
  {
    match f
    case Cmp(_, _) => ok, nextId, r := StepFromCmp(f, fam, stepId, steps, w);
    case Unsupported => ok, nextId, r := false, stepId, steps;
    case _ => ok, nextId, r := StepsFromBool(f, fam, stepId, steps, w);
  }

  method CollectExecParams(steps: seq<Step>) returns (ids: set<nat>)
    ensures ids == StepParams(steps)
  {
    ids := {};
    for i := 0 to |steps|
      invariant ids == StepParams(steps[..i])
    {
      assert steps[..i + 1] == steps[..i] + [steps[i]];
      StepParamsSnoc(steps[..i], steps[i]);
      if steps[i].Compare? {
        ids := ids + ExecParams(steps[i].expr);
      }
    }
    assert steps[..|steps|] == steps;
  }
}
