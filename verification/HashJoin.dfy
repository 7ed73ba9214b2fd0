/**
  Hash joins with NULL-safe conditions. When some condition is IS NOT DISTINCT
  FROM, every hash key on both sides is wrapped in COALESCE with a zero of its
  type, so that NULL keys are hashed instead of skipped; the original conditions
  stay as the recheck.
 */
module HashJoin {
  import opened Options

  type Row = seq<Option<int>>

  datatype Key = Key(column: nat, typ: nat)

  /** `=` or IS NOT DISTINCT FROM between an outer and an inner key. */
  datatype Cond = Cond(nullSafe: bool, op: nat, outer: Key, inner: Key)

  /** The three layouts of a zero, by length and passing mode of the type. */
  datatype Zero = ByValue | Bytes(length: nat) | EmptyVarlena

  datatype HashKey = Raw(key: Key) | Coalesce(key: Key, zero: Zero)

  datatype HashPlan = HashPlan(clauses: seq<Cond>, operators: seq<nat>, outerKeys: seq<HashKey>,
                               innerKeys: seq<HashKey>)

  /** Type layouts, operator meanings, hash functions and how the hashes of several keys are mixed. */
  datatype World = World(byValue: nat -> bool, length: nat -> int, zero: (nat, Zero) -> int,
                         equal: (nat, int, int) -> bool, hash: (nat, int) -> int, mix: (int, int) -> int)

  /** Equal values have equal hashes. */
  ghost predicate Respects(w: World) {
    forall op, a, b | w.equal(op, a, b) :: w.hash(op, a) == w.hash(op, b)
  }

  function At(row: Row, key: Key): Option<int> {
    if key.column < |row| then row[key.column] else None
  }

  // ----- meaning of the conditions -----

  predicate CondTrue(w: World, c: Cond, o: Row, i: Row) {
    match (At(o, c.outer), At(i, c.inner))
    case (Some(a), Some(b)) => w.equal(c.op, a, b)
    case (None, None) => c.nullSafe
    case _ => false
  }

  predicate AllTrue(w: World, cs: seq<Cond>, o: Row, i: Row) {
    forall k | 0 <= k < |cs| :: CondTrue(w, cs[k], o, i)
  }

  /** The nested-loop reference: the inner rows that match, in order. */
  function Matches(w: World, cs: seq<Cond>, o: Row, inner: seq<Row>): seq<Row> {
    if inner == [] then []
    else (if AllTrue(w, cs, o, inner[0]) then [inner[0]] else []) + Matches(w, cs, o, inner[1..])
  }

  // ----- the executor -----

  function KeyValue(w: World, k: HashKey, row: Row): Option<int> {
    match k
    case Raw(key) => At(row, key)
    case Coalesce(key, zero) => if At(row, key).None? then Some(w.zero(key.typ, zero)) else At(row, key)
  }

  /** The hash of a row's keys; none when some key is NULL, and then the row is skipped. */
  function HashOf(w: World, ops: seq<nat>, keys: seq<HashKey>, row: Row, seed: int): Option<int>
    requires |ops| == |keys|
    decreases |keys|
  {
    if keys == [] then Some(seed)
    else
      match KeyValue(w, keys[0], row)
      case None => None
      case Some(v) => HashOf(w, ops[1..], keys[1..], row, w.mix(seed, w.hash(ops[0], v)))
  }

  predicate WellFormed(p: HashPlan) {
    |p.operators| == |p.outerKeys| == |p.innerKeys|
  }

  /** The inner rows stored under a hash value. */
  function Bucket(w: World, p: HashPlan, inner: seq<Row>, h: int): seq<Row>
    requires WellFormed(p)
  {
    if inner == [] then []
    else
      (if HashOf(w, p.operators, p.innerKeys, inner[0], 0) == Some(h) then [inner[0]] else [])
      + Bucket(w, p, inner[1..], h)
  }

  /** Probing: the rows of the outer row's bucket that pass the recheck. */
  function Probe(w: World, p: HashPlan, o: Row, inner: seq<Row>): seq<Row>
    requires WellFormed(p)
  {
    match HashOf(w, p.operators, p.outerKeys, o, 0)
    case None => []
    case Some(h) => Matches(w, p.clauses, o, Bucket(w, p, inner, h))
  }

  // ----- the translation -----

  predicate HasNullSafe(cs: seq<Cond>) {
    exists k | 0 <= k < |cs| :: cs[k].nullSafe
  }

  function ZeroFor(w: World, typ: nat): Zero {
    if w.byValue(typ) then ByValue else if w.length(typ) > 0 then Bytes(w.length(typ)) else EmptyVarlena
  }

  /** A key whose value is never NULL and is the old one wherever that was not NULL. */
  method WrapHashKey(w: World, key: Key) returns (r: HashKey)
    ensures r == Coalesce(key, ZeroFor(w, key.typ))
    ensures forall row: Row :: KeyValue(w, r, row).Some?
    ensures forall row: Row | At(row, key).Some? :: KeyValue(w, r, row) == At(row, key)
  {
    var zero;
    if w.byValue(key.typ) {
      zero := ByValue;
    } else if w.length(key.typ) > 0 {
      zero := Bytes(w.length(key.typ));
    } else {
      zero := EmptyVarlena;
    }
    r := Coalesce(key, zero);
  }

  /** What the plan of a list of conditions looks like: both key lists are wrapped, or neither is. */
  predicate PlanFor(w: World, p: HashPlan, cs: seq<Cond>) {
    && p.clauses == cs && WellFormed(p) && |p.operators| == |cs|
    && forall k | 0 <= k < |cs| ::
         && p.operators[k] == cs[k].op
         && p.outerKeys[k]
           == (if HasNullSafe(cs) then Coalesce(cs[k].outer, ZeroFor(w, cs[k].outer.typ)) else Raw(cs[k].outer))
         && p.innerKeys[k]
           == (if HasNullSafe(cs) then Coalesce(cs[k].inner, ZeroFor(w, cs[k].inner.typ)) else Raw(cs[k].inner))
  }

  method TranslateHashJoin(w: World, cs: seq<Cond>) returns (p: HashPlan)
    ensures PlanFor(w, p, cs)
  {
    var nullSafe := false;
    for k := 0 to |cs|
      invariant nullSafe <==> exists j | 0 <= j < k :: cs[j].nullSafe
    {
      if cs[k].nullSafe {
        nullSafe := true;
      }
    }
    var ops, outer, inner := [], [], [];
    for k := 0 to |cs|
      invariant |ops| == |outer| == |inner| == k
      invariant forall j | 0 <= j < k :: ops[j] == cs[j].op
      invariant forall j | 0 <= j < k ::
                  outer[j] == if nullSafe then Coalesce(cs[j].outer, ZeroFor(w, cs[j].outer.typ)) else Raw(cs[j].outer)
      invariant forall j | 0 <= j < k ::
                  inner[j] == if nullSafe then Coalesce(cs[j].inner, ZeroFor(w, cs[j].inner.typ)) else Raw(cs[j].inner)
    {
      ops := ops + [cs[k].op];
      var o, i := Raw(cs[k].outer), Raw(cs[k].inner);
      if nullSafe {
        o := WrapHashKey(w, cs[k].outer);
        i := WrapHashKey(w, cs[k].inner);
      }
      outer, inner := outer + [o], inner + [i];
    }
    p := HashPlan(cs, ops, outer, inner);
  }

  // ----- no match is lost -----

  /** The zeros of a NULL-safe condition's two types fall together; they do when the types are the same. */
  predicate ZerosMeet(w: World, c: Cond) {
    c.nullSafe ==>
      var a, b := c.outer.typ, c.inner.typ;
      w.hash(c.op, w.zero(a, ZeroFor(w, a))) == w.hash(c.op, w.zero(b, ZeroFor(w, b)))
  }

  /** Rows that satisfy a condition have hashable keys with the same hash. */
  predicate KeysMeet(w: World, op: nat, ok: HashKey, ik: HashKey, o: Row, i: Row) {
    match (KeyValue(w, ok, o), KeyValue(w, ik, i))
    case (Some(a), Some(b)) => w.hash(op, a) == w.hash(op, b)
    case _ => false
  }

  lemma {:induction false} HashesMeet(w: World, ops: seq<nat>, ok: seq<HashKey>, ik: seq<HashKey>, o: Row, i: Row,
                                      seed: int)
    requires |ops| == |ok| == |ik|
    requires forall k | 0 <= k < |ops| :: KeysMeet(w, ops[k], ok[k], ik[k], o, i)
    ensures HashOf(w, ops, ok, o, seed).Some? && HashOf(w, ops, ok, o, seed) == HashOf(w, ops, ik, i, seed)
    decreases |ops|
  {
    if ops != [] {
      assert KeysMeet(w, ops[0], ok[0], ik[0], o, i);
      HashesMeet(w, ops[1..], ok[1..], ik[1..], o, i, w.mix(seed, w.hash(ops[0], KeyValue(w, ok[0], o).value)));
    }
  }

  /**
    Probing finds exactly the inner rows the nested loop would, NULL keys and
    hash collisions included, for every hash that respects equality.
   */
  lemma ProbeMeans(w: World, p: HashPlan, cs: seq<Cond>, o: Row, inner: seq<Row>)
    requires PlanFor(w, p, cs) && Respects(w)
    requires forall k | 0 <= k < |cs| :: ZerosMeet(w, cs[k])
    ensures Probe(w, p, o, inner) == Matches(w, cs, o, inner)
  {
    MeetingRefines(w, p, cs, o, inner);
  }

  // ----- what wrapping gives -----

  /** With wrapped keys every row has a hash, so none is skipped on either side. */
  lemma {:induction false} WrappedNeverSkips(w: World, ops: seq<nat>, keys: seq<HashKey>, row: Row, seed: int)
    requires |ops| == |keys| && forall k | 0 <= k < |keys| :: keys[k].Coalesce?
    ensures HashOf(w, ops, keys, row, seed).Some?
    decreases |keys|
  {
    if keys != [] {
      WrappedNeverSkips(w, ops[1..], keys[1..], row, w.mix(seed, w.hash(ops[0], KeyValue(w, keys[0], row).value)));
    }
  }

  lemma PlanSkips(w: World, p: HashPlan, cs: seq<Cond>, row: Row)
    requires PlanFor(w, p, cs) && HasNullSafe(cs)
    ensures HashOf(w, p.operators, p.outerKeys, row, 0).Some? && HashOf(w, p.operators, p.innerKeys, row, 0).Some?
  {
    WrappedNeverSkips(w, p.operators, p.outerKeys, row, 0);
    WrappedNeverSkips(w, p.operators, p.innerKeys, row, 0);
  }

  // ----- exactly when the refinement holds -----

  /** Rows that satisfy all conditions, with NULL on both sides of condition k. */
  ghost predicate NullPair(w: World, cs: seq<Cond>, k: nat, o: Row, i: Row) {
    k < |cs| && AllTrue(w, cs, o, i) && At(o, cs[k].outer).None?
  }

  /** Conditions whose NULL case can occur have zeros that fall together. */
  ghost predicate NullsMeet(w: World, cs: seq<Cond>) {
    forall k | 0 <= k < |cs| && (exists o: Row, i: Row :: NullPair(w, cs, k, o, i)) :: ZerosMeet(w, cs[k])
  }

  /** Different hashes never mix to the same value. */
  ghost predicate NoCollision(w: World) {
    forall a, b, c, d | w.mix(a, b) == w.mix(c, d) :: a == c && b == d
  }

  lemma CondMeetsHere(w: World, p: HashPlan, cs: seq<Cond>, k: nat, o: Row, i: Row)
    requires PlanFor(w, p, cs) && Respects(w) && k < |cs| && NullsMeet(w, cs) && AllTrue(w, cs, o, i)
    ensures KeysMeet(w, p.operators[k], p.outerKeys[k], p.innerKeys[k], o, i)
  {
    assert CondTrue(w, cs[k], o, i);
    if At(o, cs[k].outer).None? {
      assert cs[k].nullSafe;
      assert NullPair(w, cs, k, o, i);
    }
  }

  /** A pair that satisfies the conditions but hashes apart at position k. */
  lemma {:induction false} HashesApart(w: World, ops: seq<nat>, ok: seq<HashKey>, ik: seq<HashKey>, o: Row, i: Row,
                                       k: nat, a: int, b: int)
    requires NoCollision(w) && |ops| == |ok| == |ik| && k < |ops|
    requires forall j | 0 <= j < |ops| :: KeyValue(w, ok[j], o).Some? && KeyValue(w, ik[j], i).Some?
    requires !KeysMeet(w, ops[k], ok[k], ik[k], o, i)
    ensures HashOf(w, ops, ok, o, a) != HashOf(w, ops, ik, i, b)
    decreases |ops|
  {
    var x, y := w.hash(ops[0], KeyValue(w, ok[0], o).value), w.hash(ops[0], KeyValue(w, ik[0], i).value);
    if k == 0 {
      assert w.mix(a, x) != w.mix(b, y);
      HashesStayApart(w, ops[1..], ok[1..], ik[1..], o, i, w.mix(a, x), w.mix(b, y));
    } else {
      HashesApart(w, ops[1..], ok[1..], ik[1..], o, i, k - 1, w.mix(a, x), w.mix(b, y));
    }
  }

  lemma {:induction false} HashesStayApart(w: World, ops: seq<nat>, ok: seq<HashKey>, ik: seq<HashKey>, o: Row, i: Row,
                                           a: int, b: int)
    requires NoCollision(w) && |ops| == |ok| == |ik| && a != b
    requires forall j | 0 <= j < |ops| :: KeyValue(w, ok[j], o).Some? && KeyValue(w, ik[j], i).Some?
    ensures HashOf(w, ops, ok, o, a) != HashOf(w, ops, ik, i, b)
    decreases |ops|
  {
    if ops != [] {
      var x, y := w.hash(ops[0], KeyValue(w, ok[0], o).value), w.hash(ops[0], KeyValue(w, ik[0], i).value);
      assert w.mix(a, x) != w.mix(b, y);
      HashesStayApart(w, ops[1..], ok[1..], ik[1..], o, i, w.mix(a, x), w.mix(b, y));
    }
  }

  /** One inner row is found exactly when its hash is the outer row's and the conditions hold. */
  lemma ProbeOne(w: World, p: HashPlan, cs: seq<Cond>, o: Row, i: Row)
    requires PlanFor(w, p, cs)
    ensures Matches(w, cs, o, [i]) == if AllTrue(w, cs, o, i) then [i] else []
    ensures AllTrue(w, cs, o, i) ==>
              (Probe(w, p, o, [i]) == [i] <==>
                 && HashOf(w, p.operators, p.outerKeys, o, 0).Some?
                 && HashOf(w, p.operators, p.outerKeys, o, 0) == HashOf(w, p.operators, p.innerKeys, i, 0))
  {
    assert [i][1..] == [];
    match HashOf(w, p.operators, p.outerKeys, o, 0)
    case None =>
    case Some(h) =>
      assert Bucket(w, p, [i], h) == if HashOf(w, p.operators, p.innerKeys, i, 0) == Some(h) then [i] else [];
  }

  /** When every satisfying pair meets, probing refines the nested loop. */
  lemma {:induction false} MeetingRefines(w: World, p: HashPlan, cs: seq<Cond>, o: Row, inner: seq<Row>)
    requires PlanFor(w, p, cs) && Respects(w) && NullsMeet(w, cs)
    ensures Probe(w, p, o, inner) == Matches(w, cs, o, inner)
  {
    if inner != [] {
      MeetingRefines(w, p, cs, o, inner[1..]);
      if AllTrue(w, cs, o, inner[0]) {
        forall k | 0 <= k < |cs|
          ensures KeysMeet(w, p.operators[k], p.outerKeys[k], p.innerKeys[k], o, inner[0])
        {
          CondMeetsHere(w, p, cs, k, o, inner[0]);
        }
        HashesMeet(w, p.operators, p.outerKeys, p.innerKeys, o, inner[0], 0);
      }
      ProbeCons(w, p, cs, o, inner);
    }
  }

  lemma ProbeCons(w: World, p: HashPlan, cs: seq<Cond>, o: Row, inner: seq<Row>)
    requires PlanFor(w, p, cs) && inner != []
    requires Probe(w, p, o, inner[1..]) == Matches(w, cs, o, inner[1..])
    requires AllTrue(w, cs, o, inner[0]) ==>
               && HashOf(w, p.operators, p.outerKeys, o, 0).Some?
               && HashOf(w, p.operators, p.outerKeys, o, 0) == HashOf(w, p.operators, p.innerKeys, inner[0], 0)
    ensures Probe(w, p, o, inner) == Matches(w, cs, o, inner)
  {
    match HashOf(w, p.operators, p.outerKeys, o, 0)
    case None =>
      assert Matches(w, cs, o, inner) == Matches(w, cs, o, inner[1..]);
    case Some(h) =>
      var rest := Bucket(w, p, inner[1..], h);
      if HashOf(w, p.operators, p.innerKeys, inner[0], 0) == Some(h) {
        assert Bucket(w, p, inner, h) == [inner[0]] + rest;
        assert ([inner[0]] + rest)[1..] == rest;
      } else {
        assert Bucket(w, p, inner, h) == rest;
        assert Matches(w, cs, o, inner) == Matches(w, cs, o, inner[1..]);
      }
  }

  /**
    Any list of conditions, when mixing loses nothing: the hash join refines the
    nested loop on all rows exactly when each NULL-safe condition that can be
    met by NULLs has key types whose zeros hash alike.
   */
  lemma ProbeExact(w: World, p: HashPlan, cs: seq<Cond>)
    requires PlanFor(w, p, cs) && Respects(w) && NoCollision(w)
    ensures (forall o: Row, inner: seq<Row> :: Probe(w, p, o, inner) == Matches(w, cs, o, inner)) <==> NullsMeet(w, cs)
  {
    if NullsMeet(w, cs) {
      forall o: Row, inner: seq<Row>
        ensures Probe(w, p, o, inner) == Matches(w, cs, o, inner)
      {
        MeetingRefines(w, p, cs, o, inner);
      }
    } else {
      var k :| 0 <= k < |cs| && (exists o: Row, i: Row :: NullPair(w, cs, k, o, i)) && !ZerosMeet(w, cs[k]);
      var o: Row, i: Row :| NullPair(w, cs, k, o, i);
      NullPairMissed(w, p, cs, k, o, i);
    }
  }

  /** NULLs on both sides of a condition whose zeros hash apart: the pair satisfies the conditions and is not found. */
  lemma NullPairMissed(w: World, p: HashPlan, cs: seq<Cond>, k: nat, o: Row, i: Row)
    requires PlanFor(w, p, cs) && NoCollision(w) && NullPair(w, cs, k, o, i) && !ZerosMeet(w, cs[k])
    ensures Probe(w, p, o, [i]) != Matches(w, cs, o, [i])
  {
    assert CondTrue(w, cs[k], o, i) && cs[k].nullSafe;
    assert HasNullSafe(cs);
    HashesApart(w, p.operators, p.outerKeys, p.innerKeys, o, i, k, 0, 0);
    ProbeOne(w, p, cs, o, i);
  }

  /**
    For one NULL-safe condition the refinement holds on all rows exactly when
    the zeros of its two types have the same mixed hash.
   */
  lemma SingleCondExact(w: World, p: HashPlan, c: Cond)
    requires PlanFor(w, p, [c]) && Respects(w) && c.nullSafe
    ensures var a, b := c.outer.typ, c.inner.typ;
            (forall o: Row, inner: seq<Row> :: Probe(w, p, o, inner) == Matches(w, [c], o, inner))
            <==> w.mix(0, w.hash(c.op, w.zero(a, ZeroFor(w, a)))) == w.mix(0, w.hash(c.op, w.zero(b, ZeroFor(w, b))))
  {
    var za, zb := w.zero(c.outer.typ, ZeroFor(w, c.outer.typ)), w.zero(c.inner.typ, ZeroFor(w, c.inner.typ));
    assert [c][0].nullSafe && HasNullSafe([c]);
    SingleHash(w, p, c);
    if w.mix(0, w.hash(c.op, za)) == w.mix(0, w.hash(c.op, zb)) {
      forall o: Row, inner: seq<Row>
        ensures Probe(w, p, o, inner) == Matches(w, [c], o, inner)
      {
        SingleBucket(w, p, c, o, inner);
      }
    } else {
      var o: Row := [];
      var inner: seq<Row> := [[]];
      assert AllTrue(w, [c], o, []);
      assert Matches(w, [c], o, inner) == [[]] + Matches(w, [c], o, inner[1..]);
      var h := w.mix(0, w.hash(c.op, za));
      assert HashOf(w, p.operators, p.outerKeys, o, 0) == Some(h);
      assert Bucket(w, p, inner, h) == Bucket(w, p, inner[1..], h) == [];
      assert Probe(w, p, o, inner) == [];
    }
  }

  /** A by-value type 0 whose zero is 0 and a varlena type 1 whose zero is 7, compared and hashed by value. */
  const TWO_TYPES := World(typ => typ == 0, typ => if typ == 0 then 4 else -1, (typ, zero) => if typ == 0 then 0 else 7,
                           (op, a, b) => a == b, (op, v) => v, (seed, h) => 31 * seed + h)
  const NULL_SAFE := Cond(true, 0, Key(0, 0), Key(0, 1))
  const BOTH_WRAPPED := HashPlan([NULL_SAFE], [0], [Coalesce(Key(0, 0), ByValue)], [Coalesce(Key(0, 1), EmptyVarlena)])

  /** Two NULLs that are not distinct, and the join does not find them. */
  lemma ZerosApart()
    ensures PlanFor(TWO_TYPES, BOTH_WRAPPED, [NULL_SAFE]) && Respects(TWO_TYPES)
    ensures exists o: Row, inner: seq<Row> ::
              Probe(TWO_TYPES, BOTH_WRAPPED, o, inner) != Matches(TWO_TYPES, [NULL_SAFE], o, inner)
  {
    assert [NULL_SAFE][0].nullSafe && HasNullSafe([NULL_SAFE]);
    SingleCondExact(TWO_TYPES, BOTH_WRAPPED, NULL_SAFE);
  }

  lemma SingleHash(w: World, p: HashPlan, c: Cond)
    requires PlanFor(w, p, [c]) && c.nullSafe
    ensures forall row: Row ::
              HashOf(w, p.operators, p.outerKeys, row, 0)
                == Some(w.mix(0, w.hash(c.op, KeyValue(w, p.outerKeys[0], row).value)))
    ensures forall row: Row ::
              HashOf(w, p.operators, p.innerKeys, row, 0)
                == Some(w.mix(0, w.hash(c.op, KeyValue(w, p.innerKeys[0], row).value)))
  {
    assert [c][0].nullSafe && HasNullSafe([c]);
    assert p.outerKeys[1..] == [] && p.innerKeys[1..] == [];
  }

  lemma {:induction false} SingleBucket(w: World, p: HashPlan, c: Cond, o: Row, inner: seq<Row>)
    requires PlanFor(w, p, [c]) && Respects(w) && c.nullSafe
    requires var a, b := c.outer.typ, c.inner.typ;
             w.mix(0, w.hash(c.op, w.zero(a, ZeroFor(w, a)))) == w.mix(0, w.hash(c.op, w.zero(b, ZeroFor(w, b))))
    ensures Probe(w, p, o, inner) == Matches(w, [c], o, inner)
  {
    assert [c][0].nullSafe && HasNullSafe([c]);
    SingleHash(w, p, c);
    if inner != [] {
      SingleBucket(w, p, c, o, inner[1..]);
      var h := HashOf(w, p.operators, p.outerKeys, o, 0).value;
      if HashOf(w, p.operators, p.innerKeys, inner[0], 0) == Some(h) {
        assert Bucket(w, p, inner, h)[1..] == Bucket(w, p, inner[1..], h);
      } else {
        assert !CondTrue(w, [c][0], o, inner[0]);
        assert Bucket(w, p, inner, h) == Bucket(w, p, inner[1..], h);
        assert Matches(w, [c], o, inner) == Matches(w, [c], o, inner[1..]);
      }
    }
  }
}
