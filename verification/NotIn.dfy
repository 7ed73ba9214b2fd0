/**
  NOT IN as an ordinary anti join: each conjunct of the join condition is
  wrapped in IS NOT FALSE, so that an unknown comparison suppresses the outer
  row as a true one does.
 */
module NotIn {

  datatype Truth = True | False | Unknown

  datatype Qual = Compare(id: nat) | IsNotFalse(arg: Qual)

  datatype JoinType = Inner | Anti | NotInAnti

  // ----- three-valued logic, as in section 8.4 of ISO/IEC 9075-2 -----

  function And(a: Truth, b: Truth): Truth {
    if a == False || b == False then False else if a == Unknown || b == Unknown then Unknown else True
  }

  function Or(a: Truth, b: Truth): Truth {
    if a == True || b == True then True else if a == Unknown || b == Unknown then Unknown else False
  }

  function Neg(a: Truth): Truth {
    match a case True => False case False => True case Unknown => Unknown
  }

  /** Truth of a comparison between an outer and an inner row. */
  type Meaning = (nat, int, int) -> Truth

  function Value(m: Meaning, q: Qual, o: int, i: int): Truth {
    match q
    case Compare(id) => m(id, o, i)
    case IsNotFalse(arg) => if Value(m, arg, o, i) == False then False else True
  }

  function Conjunction(m: Meaning, qs: seq<Qual>, o: int, i: int): Truth {
    if qs == [] then True else And(Value(m, qs[0], o, i), Conjunction(m, qs[1..], o, i))
  }

  /** The quantified comparison: some inner row satisfies the condition. */
  function In(m: Meaning, qs: seq<Qual>, o: int, inner: seq<int>): Truth {
    if inner == [] then False else Or(Conjunction(m, qs, o, inner[0]), In(m, qs, o, inner[1..]))
  }

  // ----- the anti join -----

  /** A join condition passes when every conjunct is true; unknown does not pass. */
  predicate Passes(m: Meaning, qs: seq<Qual>, o: int, i: int) {
    forall k | 0 <= k < |qs| :: Value(m, qs[k], o, i) == True
  }

  /** The rows an anti join keeps. */
  function AntiJoin(m: Meaning, qs: seq<Qual>, outer: seq<int>, inner: seq<int>): seq<int> {
    if outer == [] then []
    else
      (if exists k | 0 <= k < |inner| :: Passes(m, qs, outer[0], inner[k]) then [] else [outer[0]])
      + AntiJoin(m, qs, outer[1..], inner)
  }

  /** The rows for which NOT IN is true. */
  function NotInRows(m: Meaning, qs: seq<Qual>, outer: seq<int>, inner: seq<int>): seq<int> {
    if outer == [] then []
    else (if Neg(In(m, qs, outer[0], inner)) == True then [outer[0]] else []) + NotInRows(m, qs, outer[1..], inner)
  }

  predicate Wrapped(ws: seq<Qual>, qs: seq<Qual>) {
    |ws| == |qs| && forall k | 0 <= k < |qs| :: ws[k] == IsNotFalse(qs[k])
  }

  /** Wraps every conjunct in place, for the NOT IN join type only. */
  method WrapJoinQuals(jt: JoinType, quals: array<Qual>)
    modifies quals
    ensures jt == NotInAnti ==> Wrapped(quals[..], old(quals[..]))
    ensures jt != NotInAnti ==> quals[..] == old(quals[..])
  {
    if jt == NotInAnti {
      for i := 0 to quals.Length
        invariant forall k | 0 <= k < i :: quals[k] == IsNotFalse(old(quals[k]))
        invariant forall k | i <= k < quals.Length :: quals[k] == old(quals[k])
      {
        quals[i] := IsNotFalse(quals[i]);
      }
    }
  }

  // ----- the two agree -----

  /** Wrapping each conjunct matches exactly the pairs on which the whole condition is not false. */
  lemma {:induction false} WrappedPasses(m: Meaning, ws: seq<Qual>, qs: seq<Qual>, o: int, i: int)
    requires Wrapped(ws, qs)
    ensures Passes(m, ws, o, i) <==> Conjunction(m, qs, o, i) != False
  {
    if qs != [] {
      WrappedPasses(m, ws[1..], qs[1..], o, i);
      assert Passes(m, ws, o, i) <==> Value(m, ws[0], o, i) == True && Passes(m, ws[1..], o, i) by {
        assert forall k | 0 <= k < |ws[1..]| :: ws[1..][k] == ws[k + 1];
        assert forall k | 1 <= k < |ws| :: ws[k] == ws[1..][k - 1];
      }
    }
  }

  lemma {:induction false} InIsFalse(m: Meaning, qs: seq<Qual>, o: int, inner: seq<int>)
    ensures In(m, qs, o, inner) == False <==> forall k | 0 <= k < |inner| :: Conjunction(m, qs, o, inner[k]) == False
  {
    if inner != [] {
      InIsFalse(m, qs, o, inner[1..]);
      assert (forall k | 0 <= k < |inner| :: Conjunction(m, qs, o, inner[k]) == False)
        <==> (Conjunction(m, qs, o, inner[0]) == False
              && forall k | 0 <= k < |inner[1..]| :: Conjunction(m, qs, o, inner[1..][k]) == False) by {
        assert forall k | 0 <= k < |inner[1..]| :: inner[1..][k] == inner[k + 1];
        assert forall k | 1 <= k < |inner| :: inner[k] == inner[1..][k - 1];
      }
    }
  }

  lemma KeptIffNotIn(m: Meaning, ws: seq<Qual>, qs: seq<Qual>, o: int, inner: seq<int>)
    requires Wrapped(ws, qs)
    ensures (exists k | 0 <= k < |inner| :: Passes(m, ws, o, inner[k])) <==> Neg(In(m, qs, o, inner)) != True
  {
    InIsFalse(m, qs, o, inner);
    forall k | 0 <= k < |inner|
      ensures Passes(m, ws, o, inner[k]) <==> Conjunction(m, qs, o, inner[k]) != False
    {
      WrappedPasses(m, ws, qs, o, inner[k]);
    }
  }

  /** The anti join over wrapped conjuncts returns the outer rows for which NOT IN is true, in order. */
  lemma {:induction false} AntiJoinIsNotIn(m: Meaning, ws: seq<Qual>, qs: seq<Qual>, outer: seq<int>, inner: seq<int>)
    requires Wrapped(ws, qs)
    ensures AntiJoin(m, ws, outer, inner) == NotInRows(m, qs, outer, inner)
  {
    if outer != [] {
      KeptIffNotIn(m, ws, qs, outer[0], inner);
      AntiJoinIsNotIn(m, ws, qs, outer[1..], inner);
    }
  }
}
