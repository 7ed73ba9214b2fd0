/**
  Numbering of the aggregate calls of one Agg node. Equal calls share a result
  slot, and different aggregates over the same input may share a transition
  state; the numbering must not change what any call returns.
 */
module AggSharing {
  import opened Options

  /** What determines the stream of values a transition function is fed. */
  datatype Inputs = Inputs(collation: nat, transtype: nat, star: bool, variadic: bool, kind: nat,
                           args: nat, order: nat, distinct: nat, filter: nat)

  /** What distinguishes calls over the same input. */
  datatype Call = Call(fnoid: nat, resulttype: nat, collation: nat, directArgs: nat)

  datatype Aggref = Aggref(inputs: Inputs, call: Call)

  /** An aggregate's catalog entry; `shareable` unless its final function writes to the state. */
  datatype Form = Form(transfn: nat, finalfn: nat, combinefn: nat, serialfn: nat, deserialfn: nat,
                       init: Option<int>, shareable: bool)

  datatype Catalog = Catalog(form: nat -> Form, transtype: (nat, Inputs) -> nat,
                             volatileInputs: Inputs -> bool, volatileDirect: nat -> bool)

  datatype AggInfo = AggInfo(aggref: Aggref, finalfn: nat, shareable: bool, transno: nat)

  datatype TransInfo = TransInfo(inputs: Inputs, transfn: nat, combinefn: nat, serialfn: nat, deserialfn: nat,
                                 transtype: nat, init: Option<int>)

  predicate Volatile(cat: Catalog, a: Aggref) {
    cat.volatileInputs(a.inputs) || cat.volatileDirect(a.call.directArgs)
  }

  // ----- meaning -----

  type State = Option<int>

  /**
    Transition, final-function and input meanings. Input may depend on the
    slot it is drawn for; `after` is what a final function leaves behind.
   */
  datatype World = World(feed: (Inputs, nat) -> seq<int>, step: (nat, nat, Inputs, State, int) -> State,
                         result: (nat, Call, State) -> int, after: (nat, State) -> State)

  /** Input without volatile parts is the same at every slot, and only unshareable aggregates write to the state. */
  ghost predicate Lawful(w: World, cat: Catalog) {
    && (forall i: Inputs, s: nat, t: nat | !cat.volatileInputs(i) :: w.feed(i, s) == w.feed(i, t))
    && (forall f: nat, s: State | cat.form(f).shareable :: w.after(f, s) == s)
  }

  function Fold(w: World, transfn: nat, transtype: nat, i: Inputs, s: State, xs: seq<int>): State
    decreases |xs|
  {
    if xs == [] then s else Fold(w, transfn, transtype, i, w.step(transfn, transtype, i, s, xs[0]), xs[1..])
  }

  /** The result of the call computed by itself, on the input drawn at slot t. */
  function Alone(w: World, cat: Catalog, a: Aggref, t: nat): int {
    var f := cat.form(a.call.fnoid);
    w.result(f.finalfn, a.call,
             Fold(w, f.transfn, cat.transtype(a.call.fnoid, a.inputs), a.inputs, f.init, w.feed(a.inputs, t)))
  }

  function SlotState(w: World, t: TransInfo, k: nat): State {
    Fold(w, t.transfn, t.transtype, t.inputs, t.init, w.feed(t.inputs, k))
  }

  predicate InRange(infos: seq<AggInfo>, n: nat) {
    forall k | 0 <= k < |infos| :: infos[k].transno < n
  }

  /** The executor finalizes the calls in order, each possibly changing the state it reads. */
  function Finalize(w: World, infos: seq<AggInfo>, states: seq<State>): seq<int>
    requires InRange(infos, |states|)
    decreases |infos|
  {
    if infos == [] then []
    else
      var i := infos[0];
      var s := states[i.transno];
      [w.result(i.finalfn, i.aggref.call, s)]
      + Finalize(w, infos[1..], states[i.transno := w.after(i.aggref.call.fnoid, s)])
  }

  function States(w: World, ts: seq<TransInfo>): (states: seq<State>)
    ensures |states| == |ts|
    ensures forall k | 0 <= k < |ts| :: states[k] == SlotState(w, ts[k], k)
  {
    seq(|ts|, k requires 0 <= k < |ts| => SlotState(w, ts[k], k))
  }

  // ----- what the numbering keeps -----

  predicate InfoOk(cat: Catalog, i: AggInfo, ts: seq<TransInfo>) {
    var f := cat.form(i.aggref.call.fnoid);
    && i.finalfn == f.finalfn && i.shareable == f.shareable
    && i.transno < |ts| && SlotFor(cat, i.aggref, ts[i.transno])
  }

  /** The slot folds exactly what the call would fold by itself. */
  predicate SlotFor(cat: Catalog, a: Aggref, t: TransInfo) {
    var f := cat.form(a.call.fnoid);
    && t.inputs == a.inputs && t.transfn == f.transfn && t.transtype == cat.transtype(a.call.fnoid, a.inputs)
    && t.combinefn == f.combinefn && t.serialfn == f.serialfn && t.deserialfn == f.deserialfn && t.init == f.init
  }

  /** Two entries read one state only if both may, and the later one is not volatile. */
  predicate MayShare(cat: Catalog, early: AggInfo, late: AggInfo) {
    early.transno == late.transno ==> early.shareable && late.shareable && !Volatile(cat, late.aggref)
  }

  ghost predicate Good(cat: Catalog, infos: seq<AggInfo>, ts: seq<TransInfo>) {
    && (forall k | 0 <= k < |infos| :: InfoOk(cat, infos[k], ts))
    && (forall j, k | 0 <= j < k < |infos| :: MayShare(cat, infos[j], infos[k]))
    && (forall j, k | 0 <= j < k < |infos| :: infos[j].aggref == infos[k].aggref ==> Volatile(cat, infos[k].aggref))
  }

  /** Entries that share a state leave it alone. */
  ghost predicate Peaceful(cat: Catalog, infos: seq<AggInfo>) {
    && (forall j, k | 0 <= j < k < |infos| :: infos[j].transno == infos[k].transno ==> infos[j].shareable)
    && (forall k | 0 <= k < |infos| :: infos[k].shareable == cat.form(infos[k].aggref.call.fnoid).shareable)
  }

  lemma {:induction false} FinalizeReads(w: World, cat: Catalog, infos: seq<AggInfo>, states: seq<State>, k: nat)
    requires InRange(infos, |states|) && Peaceful(cat, infos) && Lawful(w, cat) && k < |infos|
    ensures |Finalize(w, infos, states)| == |infos|
    ensures Finalize(w, infos, states)[k] == w.result(infos[k].finalfn, infos[k].aggref.call, states[infos[k].transno])
    decreases |infos|
  {
    var i := infos[0];
    var next := states[i.transno := w.after(i.aggref.call.fnoid, states[i.transno])];
    assert Peaceful(cat, infos[1..]);
    if |infos| == 1 {
      assert Finalize(w, infos[1..], next) == [];
    } else {
      FinalizeReads(w, cat, infos[1..], next, if k == 0 then 0 else k - 1);
      if k > 0 {
        assert infos[1..][k - 1] == infos[k];
      }
    }
  }

  /** Reading the shared fold through a call's final function gives what the call computes by itself. */
  lemma SharingMeans(w: World, cat: Catalog, infos: seq<AggInfo>, ts: seq<TransInfo>, k: nat)
    requires Good(cat, infos, ts) && Lawful(w, cat) && k < |infos|
    ensures InRange(infos, |ts|) && |Finalize(w, infos, States(w, ts))| == |infos|
    ensures Finalize(w, infos, States(w, ts))[k] == Alone(w, cat, infos[k].aggref, infos[k].transno)
  {
    assert forall j | 0 <= j < |infos| :: InfoOk(cat, infos[j], ts);
    forall i, j | 0 <= i < j < |infos| && infos[i].transno == infos[j].transno
      ensures infos[i].shareable
    {
      assert MayShare(cat, infos[i], infos[j]);
    }
    FinalizeReads(w, cat, infos, States(w, ts), k);
  }

  /** States fed by volatile input are never shared. */
  lemma VolatileInputAlone(cat: Catalog, infos: seq<AggInfo>, ts: seq<TransInfo>, j: nat, k: nat)
    requires Good(cat, infos, ts) && j < |infos| && k < |infos| && j != k && infos[j].transno == infos[k].transno
    ensures !cat.volatileInputs(infos[j].aggref.inputs) && !cat.volatileInputs(infos[k].aggref.inputs)
  {
    assert InfoOk(cat, infos[j], ts) && InfoOk(cat, infos[k], ts);
    assert MayShare(cat, if j < k then infos[j] else infos[k], if j < k then infos[k] else infos[j]);
  }

  // ----- the numbering -----

  /** Some shareable entry over the same input reads state t. */
  ghost predicate Offered(infos: seq<AggInfo>, a: Aggref, t: nat) {
    exists k | 0 <= k < |infos| :: infos[k].transno == t && infos[k].aggref.inputs == a.inputs && infos[k].shareable
  }

  class Context {
    const cat: Catalog
    var infos: seq<AggInfo>
    var trans: seq<TransInfo>

    constructor (cat: Catalog)
      ensures this.cat == cat && infos == [] && trans == []
    {
      this.cat := cat;
      infos, trans := [], [];
    }

    /**
      The first entry with the same call, or failing that the states of
      shareable entries over the same input. A volatile call matches nothing.
     */
    method FindCompatibleAgg(a: Aggref) returns (aggno: int, transnos: seq<nat>)
      ensures -1 <= aggno < |infos|
      ensures aggno >= 0 ==> !Volatile(cat, a) && infos[aggno].aggref == a && transnos == []
      ensures aggno == -1 && !Volatile(cat, a) ==> forall k | 0 <= k < |infos| :: infos[k].aggref != a
      ensures Volatile(cat, a) ==> transnos == []
      ensures aggno == -1 && !Volatile(cat, a) ==>
                forall k | 0 <= k < |infos| && infos[k].aggref.inputs == a.inputs && infos[k].shareable ::
                    infos[k].transno in transnos
      ensures forall j | 0 <= j < |transnos| :: Offered(infos, a, transnos[j])
    {
      aggno, transnos := -1, [];
      if Volatile(cat, a) {
        return;
      }
      for k := 0 to |infos|
        invariant aggno == -1
        invariant forall i | 0 <= i < k :: infos[i].aggref != a
        invariant forall i | 0 <= i < k && infos[i].aggref.inputs == a.inputs && infos[i].shareable ::
                    infos[i].transno in transnos
        invariant forall j | 0 <= j < |transnos| :: Offered(infos, a, transnos[j])
      {
        if infos[k].aggref.inputs == a.inputs {
          if infos[k].aggref.call == a.call {
            return k, [];
          }
          if infos[k].shareable {
            assert Offered(infos, a, infos[k].transno);
            transnos := transnos + [infos[k].transno];
          }
        }
      }
    }

    /** The first of the candidate states that this aggregate could have built itself; none for an unshareable one. */
    method FindCompatibleTrans(a: Aggref, transnos: seq<nat>) returns (transno: int)
      requires forall j | 0 <= j < |transnos| :: transnos[j] < |trans| && trans[transnos[j]].inputs == a.inputs
      ensures transno == -1 ||
                (transno in transnos && cat.form(a.call.fnoid).shareable && SlotFor(cat, a, trans[transno]))
      ensures transno == -1 && cat.form(a.call.fnoid).shareable ==>
                forall t | t in transnos :: !SlotFor(cat, a, trans[t])
    {
      var f := cat.form(a.call.fnoid);
      if !f.shareable {
        return -1;
      }
      for j := 0 to |transnos|
        invariant forall i | 0 <= i < j :: !SlotFor(cat, a, trans[transnos[i]])
      {
        var t := trans[transnos[j]];
        if t.transfn == f.transfn && t.transtype == cat.transtype(a.call.fnoid, a.inputs)
           && t.serialfn == f.serialfn && t.deserialfn == f.deserialfn && t.combinefn == f.combinefn &&
               t.init == f.init {
          return transnos[j];
        }
      }
      transno := -1;
    }

    /**
      Numbers one more call. A call seen before keeps its slots unless it is
      volatile; a volatile or unshareable new call starts a state of its own.
     */
    method FillInfo(a: Aggref) returns (aggno: nat, transno: nat)
      requires Good(cat, infos, trans)
      modifies this
      ensures Good(cat, infos, trans)
      ensures old(infos) <= infos && old(trans) <= trans
      ensures aggno < |infos| && infos[aggno].aggref == a && infos[aggno].transno == transno < |trans|
      ensures aggno < |old(infos)| <==>
                !Volatile(cat, a) && exists k | 0 <= k < |old(infos)| :: old(infos)[k].aggref == a
      ensures |infos| == |old(infos)| + if aggno < |old(infos)| then 0 else 1
      ensures Volatile(cat, a) ==> aggno == |old(infos)| && transno == |old(trans)|
      ensures transno >= |old(trans)| ==> |trans| == |old(trans)| + 1 == transno + 1
      ensures transno < |old(trans)| ==> trans == old(trans)
      ensures aggno >= |old(infos)| && !Volatile(cat, a) && cat.form(a.call.fnoid).shareable &&
                transno >= |old(trans)| ==>
                forall k | 0 <= k < |old(infos)| && old(infos)[k].shareable ::
                    !SlotFor(cat, a, old(trans)[old(infos)[k].transno])
    {
      var found, transnos := FindCompatibleAgg(a);
      if found >= 0 {
        assert InfoOk(cat, infos[found], trans);
        return found, infos[found].transno;
      }
      aggno := |infos|;
      forall j | 0 <= j < |transnos|
        ensures transnos[j] < |trans| && trans[transnos[j]].inputs == a.inputs
      {
        var k :| 0 <= k < |infos| && infos[k].transno == transnos[j] && infos[k].aggref.inputs == a.inputs;
        assert InfoOk(cat, infos[k], trans);
      }
      var shared := FindCompatibleTrans(a, transnos);
      var f := cat.form(a.call.fnoid);
      if shared >= 0 {
        transno := shared;
        SharedBySome(cat, infos, trans, a, transnos, transno);
      } else {
        transno := |trans|;
        NotYetBuilt(cat, infos, trans, a, transnos);
        FreshSlot(cat, infos, trans, a);
        trans := trans + [TransInfo(a.inputs, f.transfn, f.combinefn, f.serialfn, f.deserialfn,
                                    cat.transtype(a.call.fnoid, a.inputs), f.init)];
      }
      AddInfo(cat, infos, trans, AggInfo(a, f.finalfn, f.shareable, transno));
      infos := infos + [AggInfo(a, f.finalfn, f.shareable, transno)];
    }
  }

  // ----- steps of the numbering -----

  ghost predicate Unused(infos: seq<AggInfo>, t: nat) {
    forall k | 0 <= k < |infos| :: infos[k].transno != t
  }

  /** Every entry reading state t is shareable. */
  ghost predicate AllShareable(infos: seq<AggInfo>, t: nat) {
    forall k | 0 <= k < |infos| && infos[k].transno == t :: infos[k].shareable
  }

  lemma SharedBySome(cat: Catalog, infos: seq<AggInfo>, ts: seq<TransInfo>, a: Aggref, transnos: seq<nat>, t: nat)
    requires Good(cat, infos, ts) && t in transnos
    requires forall j | 0 <= j < |transnos| :: Offered(infos, a, transnos[j])
    ensures AllShareable(infos, t)
  {
    var j :| 0 <= j < |transnos| && transnos[j] == t;
    var i :| 0 <= i < |infos| && infos[i].transno == t && infos[i].shareable;
    forall k | 0 <= k < |infos| && infos[k].transno == t
      ensures infos[k].shareable
    {
      if i < k {
        assert MayShare(cat, infos[i], infos[k]);
      } else if k < i {
        assert MayShare(cat, infos[k], infos[i]);
      }
    }
  }

  lemma NotYetBuilt(cat: Catalog, infos: seq<AggInfo>, ts: seq<TransInfo>, a: Aggref, transnos: seq<nat>)
    requires Good(cat, infos, ts)
    requires forall j | 0 <= j < |transnos| :: transnos[j] < |ts|
    requires cat.form(a.call.fnoid).shareable ==> forall t | t in transnos :: !SlotFor(cat, a, ts[t])
    requires !Volatile(cat, a) ==>
               forall k | 0 <= k < |infos| && infos[k].aggref.inputs == a.inputs && infos[k].shareable ::
                   infos[k].transno in transnos
    ensures !Volatile(cat, a) && cat.form(a.call.fnoid).shareable ==>
              forall k | 0 <= k < |infos| && infos[k].shareable ::
                  infos[k].transno < |ts| && !SlotFor(cat, a, ts[infos[k].transno])
  {
    forall k | 0 <= k < |infos| && infos[k].shareable && !Volatile(cat, a) && cat.form(a.call.fnoid).shareable
      ensures infos[k].transno < |ts| && !SlotFor(cat, a, ts[infos[k].transno])
    {
      assert InfoOk(cat, infos[k], ts);
    }
  }

  lemma FreshSlot(cat: Catalog, infos: seq<AggInfo>, ts: seq<TransInfo>, a: Aggref)
    requires Good(cat, infos, ts)
    ensures Unused(infos, |ts|)
    ensures forall t: TransInfo :: Good(cat, infos, ts + [t])
  {
    assert forall k | 0 <= k < |infos| :: InfoOk(cat, infos[k], ts);
    forall t: TransInfo, k | 0 <= k < |infos|
      ensures InfoOk(cat, infos[k], ts + [t])
    {
      assert (ts + [t])[infos[k].transno] == ts[infos[k].transno];
    }
  }

  lemma AddInfo(cat: Catalog, infos: seq<AggInfo>, ts: seq<TransInfo>, i: AggInfo)
    requires Good(cat, infos, ts) && InfoOk(cat, i, ts)
    requires Unused(infos, i.transno) || (AllShareable(infos, i.transno) && i.shareable && !Volatile(cat, i.aggref))
    requires Volatile(cat, i.aggref) || forall k | 0 <= k < |infos| :: infos[k].aggref != i.aggref
    ensures Good(cat, infos + [i], ts)
  {
    var all := infos + [i];
    forall j, k | 0 <= j < k < |all|
      ensures MayShare(cat, all[j], all[k])
    {
      if k < |infos| {
        assert MayShare(cat, infos[j], infos[k]);
      }
    }
  }

  /** The calls of one node, numbered in the order they are met. */
  method FillAll(cat: Catalog, aggs: seq<Aggref>)
    returns (nos: seq<nat>, infos: seq<AggInfo>, trans: seq<TransInfo>)
    ensures Good(cat, infos, trans)
    ensures |nos| == |aggs| && forall k | 0 <= k < |aggs| :: nos[k] < |infos| && infos[nos[k]].aggref == aggs[k]
    ensures forall j, k | 0 <= j < k < |aggs| && Volatile(cat, aggs[k]) :: nos[j] < nos[k]
    ensures forall j, k | 0 <= j < k < |aggs| && aggs[j] == aggs[k] && !Volatile(cat, aggs[k]) :: nos[j] == nos[k]
  {
    var ctx := new Context(cat);
    nos := [];
    for i := 0 to |aggs|
      invariant ctx.cat == cat && fresh(ctx) && Good(cat, ctx.infos, ctx.trans)
      invariant |nos| == i && forall k | 0 <= k < i :: nos[k] < |ctx.infos| && ctx.infos[nos[k]].aggref == aggs[k]
      invariant forall j, k | 0 <= j < k < i && Volatile(cat, aggs[k]) :: nos[j] < nos[k]
      invariant forall j, k | 0 <= j < k < i && aggs[j] == aggs[k] && !Volatile(cat, aggs[k]) :: nos[j] == nos[k]
    {
      ghost var before := ctx.infos;
      var aggno, _ := ctx.FillInfo(aggs[i]);
      forall j | 0 <= j < i && aggs[j] == aggs[i] && !Volatile(cat, aggs[i])
        ensures nos[j] == aggno
      {
        OneEntry(cat, ctx.infos, ctx.trans, nos[j], aggno);
      }
      nos := nos + [aggno];
    }
    infos, trans := ctx.infos, ctx.trans;
  }

  lemma OneEntry(cat: Catalog, infos: seq<AggInfo>, ts: seq<TransInfo>, j: nat, k: nat)
    requires Good(cat, infos, ts) && j < |infos| && k < |infos|
    requires infos[j].aggref == infos[k].aggref && !Volatile(cat, infos[k].aggref)
    ensures j == k
  {
  }
}
