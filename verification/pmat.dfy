/** The `PMat` value itself: a magnitude with two per-dimension arrays, `p`
    (powers of ten contributed by prefixes) and `e` (exponents of the seven
    base dimensions m, g, s, K, mol, A, cd). */
module Quantity {
  import opened Results
  import opened Sorting
  import opened CustomUnits
  import opened Decomposer

  /** Which of the two arrays a triple is added into: `e` takes its power,
      `p` its prefix exponent times its power. */
  datatype Measure = Power | Scaled

  function Weight(t: Triple, m: Measure): int
  {
    match m
    case Power => t.power
    case Scaled => t.prefix * t.power
  }

  /** The total weight of the triples that name dimension `i`, summed from the
      front: an order-free reference for what the constructor's loop adds up. */
  function DimSum(ts: seq<Triple>, i: int, m: Measure): (r: int)
  {
    if ts == [] then 0
    else Contribution(ts[0], i, m) + DimSum(ts[1..], i, m)
  }

  function Contribution(t: Triple, i: int, m: Measure): int
  {
    if t.dim == i then Weight(t, m) else 0
  }

  /** The seven per-dimension totals. */
  function Totals(ts: seq<Triple>, m: Measure): (r: seq<int>)
    ensures |r| == 7
  {
    seq(7, i => DimSum(ts, i, m))
  }

  /** A dimension that no triple names totals zero, as an exponent of zero
      stands for an absent unit. */
  lemma {:induction false} AbsentDimensionIsZero(ts: seq<Triple>, i: int, m: Measure)
    requires forall t :: t in ts ==> t.dim != i
    ensures DimSum(ts, i, m) == 0
    ensures 0 <= i < 7 ==> Totals(ts, m)[i] == 0
  {
    if ts != [] {
      assert ts[0] in ts;
      forall t | t in ts[1..]
        ensures t.dim != i
      {
        assert t in ts;
      }
      AbsentDimensionIsZero(ts[1..], i, m);
    }
  }

  /** The total weight of all the triples, whatever their dimension. */
  function WeightSum(ts: seq<Triple>, m: Measure): int
  {
    if ts == [] then 0 else Weight(ts[0], m) + WeightSum(ts[1..], m)
  }

  function SlotSum(r: seq<int>): int
    requires |r| == 7
  {
    r[0] + r[1] + r[2] + r[3] + r[4] + r[5] + r[6]
  }

  /** The fold loses nothing and counts nothing twice: when every triple names
      one of the seven slots, the slots together hold the weight of all of them. */
  lemma {:induction false} TotalsKeepEveryWeight(ts: seq<Triple>, m: Measure)
    requires InRange(ts)
    ensures SlotSum(Totals(ts, m)) == WeightSum(ts, m)
  {
    if ts != [] {
      TotalsKeepEveryWeight(ts[1..], m);
      var t := ts[0];
      assert t in ts;
      assert SlotSum(Totals(ts, m)) == SlotSum(Totals(ts[1..], m)) + Contribution(t, 0, m) + Contribution(t, 1, m)
        + Contribution(t, 2, m) + Contribution(t, 3, m) + Contribution(t, 4, m) + Contribution(t, 5, m)
        + Contribution(t, 6, m);
    }
  }

  lemma {:induction false} DimSumAppend(a: seq<Triple>, b: seq<Triple>, i: int, m: Measure)
    ensures DimSum(a + b, i, m) == DimSum(a, i, m) + DimSum(b, i, m)
    decreases |a|
  {
    if a == [] {
      assert a + b == b;
    } else {
      assert (a + b)[0] == a[0] && (a + b)[1..] == a[1..] + b;
      DimSumAppend(a[1..], b, i, m);
    }
  }

  lemma DimSumRemove(b: seq<Triple>, k: nat, i: int, m: Measure)
    requires k < |b|
    ensures DimSum(b, i, m) == Contribution(b[k], i, m) + DimSum(b[..k] + b[k + 1..], i, m)
  {
    assert b == b[..k] + [b[k]] + b[k + 1..];
    DimSumAppend(b[..k] + [b[k]], b[k + 1..], i, m);
    DimSumAppend(b[..k], [b[k]], i, m);
    DimSumAppend(b[..k], b[k + 1..], i, m);
    assert [b[k]][1..] == [];
  }

  lemma MultisetRemoveAt(b: seq<Triple>, k: nat)
    requires k < |b|
    ensures multiset(b[..k] + b[k + 1..]) == multiset(b) - multiset{b[k]}
  {
    assert b == b[..k] + [b[k]] + b[k + 1..];
  }

  /** The totals do not depend on the order of the triples, which is why the
      source can sort them ("so that order doesn't matter"). */
  lemma {:induction false} DimSumPermutation(a: seq<Triple>, b: seq<Triple>, i: int, m: Measure)
    requires multiset(a) == multiset(b)
    ensures DimSum(a, i, m) == DimSum(b, i, m)
    decreases |a|
  {
    if a == [] {
      assert |multiset(b)| == 0;
    } else {
      var k := RemoveMatching(a, b);
      DimSumPermutation(a[1..], b[..k] + b[k + 1..], i, m);
      DimSumRemove(b, k, i, m);
    }
  }

  /** The head of `a` sits somewhere in its permutation `b`; taking it out of
      both leaves two permutations. */
  lemma RemoveMatching(a: seq<Triple>, b: seq<Triple>) returns (k: nat)
    requires a != [] && multiset(a) == multiset(b)
    ensures k < |b| && b[k] == a[0]
    ensures multiset(a[1..]) == multiset(b[..k] + b[k + 1..])
  {
    k := Occurrence(b, a[0]);
    HeadRemoved(a);
    MultisetRemoveAt(b, k);
  }

  lemma Occurrence(b: seq<Triple>, x: Triple) returns (k: nat)
    requires x in multiset(b)
    ensures k < |b| && b[k] == x
  {
    k :| 0 <= k < |b| && b[k] == x;
  }

  lemma HeadRemoved(a: seq<Triple>)
    requires a != []
    ensures multiset(a[1..]) == multiset(a) - multiset{a[0]}
  {
    assert a == [a[0]] + a[1..];
  }

  /** Sorting the decomposition leaves the totals as the scan produced them. */
  lemma DecomposeKeepsTotals(order: seq<string>, meaning: map<string, string>, s: string, top: int,
                             fuel: nat, m: Measure)
    requires WellFormed(order, meaning)
    requires Scan(order, meaning, s, top, fuel, []).Ok?
    ensures Decompose(order, meaning, s, top, fuel).Ok?
    ensures Totals(Decompose(order, meaning, s, top, fuel).value, m) ==
            Totals(Scan(order, meaning, s, top, fuel, []).value, m)
  {
    var v := Scan(order, meaning, s, top, fuel, []).value;
    forall i | 0 <= i < 7
      ensures DimSum(InsertionSort(v, TripleLe), i, m) == DimSum(v, i, m)
    {
      DimSumPermutation(InsertionSort(v, TripleLe), v, i, m);
    }
  }

  /** Adding one more triple to the fold changes only its own dimension. */
  lemma TotalsSnoc(ts: seq<Triple>, t: Triple, m: Measure)
    requires 0 <= t.dim < 7
    ensures Totals(ts + [t], m) == Totals(ts, m)[t.dim := Totals(ts, m)[t.dim] + Weight(t, m)]
  {
    forall i | 0 <= i < 7
      ensures DimSum(ts + [t], i, m) == DimSum(ts, i, m) + (if t.dim == i then Weight(t, m) else 0)
    {
      DimSumAppend(ts, [t], i, m);
    }
  }

  class PMat {
    /** `_n`: the magnitude, carried along and never computed on. */
    var n: real
    /** `_p`: per dimension, the sum of prefix exponent times power. */
    var p: array<int>
    /** `_e`: per dimension, the sum of powers. */
    var e: array<int>

    ghost predicate Valid()
      reads this
    {
      p.Length == 7 && e.Length == 7
    }

    /** `PMat(num, unit)` once the unit has been decomposed: both arrays
        start at zero and each triple adds `prefix * power` to `p` and
        `power` to `e` at its dimension. */
    constructor FromTriples(num: real, ts: seq<Triple>)
      requires InRange(ts)
      ensures Valid() && fresh(p) && fresh(e) && n == num
      ensures p[..] == Totals(ts, Scaled) && e[..] == Totals(ts, Power)
    {
      n := num;
      p := new int[7](_ => 0);
      e := new int[7](_ => 0);
      new;
      assert p[..] == Totals([], Scaled) && e[..] == Totals([], Power);
      var j := 0;
      while j < |ts|
        invariant j <= |ts|
        invariant fresh(p) && fresh(e) && p != e && n == num
        invariant p.Length == 7 && e.Length == 7
        invariant p[..] == Totals(ts[..j], Scaled) && e[..] == Totals(ts[..j], Power)
      {
        var t := ts[j];
        assert t in ts;
        TotalsSnoc(ts[..j], t, Scaled);
        TotalsSnoc(ts[..j], t, Power);
        assert ts[..j + 1] == ts[..j] + [t];
        p[t.dim] := p[t.dim] + t.prefix * t.power;
        e[t.dim] := e[t.dim] + t.power;
        j := j + 1;
      }
      assert ts[..j] == ts;
    }

    /** `PMat(other)`: shares the other value's arrays instead of copying
        them, as the source does. */
    constructor Copy(other: PMat)
      requires other.Valid()
      ensures Valid() && n == other.n && p == other.p && e == other.e
    {
      n := other.n;
      p := other.p;
      e := other.e;
    }

    /** `PMat(num, unit)`: decomposes `unit` against the registry (sorting
        its symbol list as the source does) and folds the triples; a unit the
        decomposer rejects yields its failure and no value. */
    static method Create(num: real, unit: string, reg: Registry, fuel: nat) returns (r: Result<PMat>)
      requires reg.Valid()
      modifies reg
      ensures reg.Valid() && reg.meaning == old(reg.meaning)
      ensures reg.symbols == InsertionSort(old(reg.symbols), StrLe)
      ensures Decompose(reg.symbols, reg.meaning, unit, 1, fuel).Err? ==>
                r == Err(Decompose(reg.symbols, reg.meaning, unit, 1, fuel).failure)
      ensures Decompose(reg.symbols, reg.meaning, unit, 1, fuel).Ok? ==>
                && r.Ok? && fresh(r.value.p) && fresh(r.value.e) && r.value.Valid() && r.value.n == num
                && r.value.p[..] == Totals(Decompose(reg.symbols, reg.meaning, unit, 1, fuel).value, Scaled)
                && r.value.e[..] == Totals(Decompose(reg.symbols, reg.meaning, unit, 1, fuel).value, Power)
    {
      var triples := DecomposeUnit(reg, unit, 1, fuel);
      if triples.Err? {
        return Err(triples.failure);
      }
      var value := new PMat.FromTriples(num, triples.value);
      r := Ok(value);
    }

    /** `isSame`: the two values have the same exponent in every dimension;
        prefixes and magnitudes are ignored. */
    method IsSame(other: PMat) returns (same: bool)
      requires Valid() && other.Valid()
      ensures same <==> e[..] == other.e[..]
    {
      var i := 0;
      while i < 7
        invariant i <= 7
        invariant e[..i] == other.e[..i]
      {
        if e[i] != other.e[i] {
          assert e[..][i] != other.e[..][i];
          return false;
        }
        assert e[..i + 1] == e[..i] + [e[i]];
        assert other.e[..i + 1] == other.e[..i] + [other.e[i]];
        i := i + 1;
      }
      assert e[..] == e[..7] && other.e[..] == other.e[..7];
      return true;
    }

    /** `isUnitless`: every exponent is zero. */
    method IsUnitless() returns (unitless: bool)
      requires Valid()
      ensures unitless <==> forall i :: 0 <= i < 7 ==> e[i] == 0
    {
      var i := 0;
      while i < 7
        invariant i <= 7
        invariant forall j :: 0 <= j < i ==> e[j] == 0
      {
        if e[i] != 0 {
          return false;
        }
        i := i + 1;
      }
      return true;
    }
  }
}
