/** Concrete behaviours of the decomposer and the fold on a few unit
    strings, with small registries holding the source's own demo
    definitions. Each lemma pins the exact result for one string; the steps
    it chains live in `ExampleSteps`. */
module Examples {
  import opened Results
  import opened Sorting
  import opened Symbols
  import opened CustomUnits
  import opened Decomposer
  import opened Quantity
  import opened ExampleSteps

  // ---- Whole unit strings, with no custom units ----

  /** `kmkm`: two kilometres, so ten to the sixth in `p` and a square in `e`. */
  lemma KiloMetreTwice(s: string, fuel: nat)
    requires s == "kmkm"
    ensures Decompose([], map[], s, 1, fuel) == Ok([Triple(3, 0, 1), Triple(3, 0, 1)])
  {
    var t := Triple(3, 0, 1);
    KiloMetreTwiceScan(s, fuel);
    assert Sorted([t, t], TripleLe);
    DecomposeAs([], map[], s, 1, fuel, [t, t], [t, t]);
  }

  /** Folded, `kmkm` gives ten to the sixth in `p` and a square in `e`. */
  lemma KiloMetreTwiceTotals()
    ensures Totals([Triple(3, 0, 1), Triple(3, 0, 1)], Scaled) == [6, 0, 0, 0, 0, 0, 0]
    ensures Totals([Triple(3, 0, 1), Triple(3, 0, 1)], Power) == [2, 0, 0, 0, 0, 0, 0]
  {
    var t := Triple(3, 0, 1);
    var ts := [t, t];
    assert ts[1..] == [t] && [t][1..] == [];
    forall i, m | 0 <= i < 7
      ensures DimSum(ts, i, m) == 2 * Contribution(t, i, m)
    {
      assert DimSum([t], i, m) == Contribution(t, i, m) + DimSum([], i, m);
      assert DimSum(ts, i, m) == Contribution(t, i, m) + DimSum([t], i, m);
    }
  }

  /** `mol` is the mole, not a milli-prefixed unit. */
  lemma MoleAlone(s: string, fuel: nat)
    requires s == "mol"
    ensures Decompose([], map[], s, 1, fuel) == Ok([Triple(0, 4, 1)])
  {
    var t := Triple(0, 4, 1);
    EmptyRegistry();
    MoleSlices(s);
    Mole([], map[], s, s[3..], 1, fuel, [], [t]);
    DecomposeAs([], map[], s, 1, fuel, [t], [t]);
  }

  /** A lone `m` is the metre: `m` is not a prefix at the end of the text. */
  lemma MetreAlone(s: string, fuel: nat)
    requires s == "m"
    ensures Decompose([], map[], s, 1, fuel) == Ok([Triple(0, 0, 1)])
  {
    var t := Triple(0, 0, 1);
    EmptyRegistry();
    MetreSlices(s);
    Metre([], map[], s, s[1..], 1, fuel, [], [t]);
    DecomposeAs([], map[], s, 1, fuel, [t], [t]);
  }

  /** `mm`: the first `m` is the milli prefix, the second the metre. */
  lemma MilliMetreAlone(s: string, fuel: nat)
    requires s == "mm"
    ensures Decompose([], map[], s, 1, fuel) == Ok([Triple(-3, 0, 1)])
  {
    var t := Triple(-3, 0, 1);
    EmptyRegistry();
    MilliMetreSlices(s);
    MilliMetre([], map[], s, s[2..], 1, fuel, [], [t]);
    DecomposeAs([], map[], s, 1, fuel, [t], [t]);
  }

  /** `m/s2`: everything after `/` is negated. */
  lemma Acceleration(s: string, fuel: nat)
    requires s == "m/s2"
    ensures Decompose([], map[], s, 1, fuel) == Ok([Triple(0, 0, 1), Triple(0, 2, -2)])
  {
    var t1, t2 := Triple(0, 0, 1), Triple(0, 2, -2);
    EmptyRegistry();
    MetrePerSecondSquared([], map[], s, 1, fuel, [], [t1, t2]);
    assert Sorted([t1, t2], TripleLe);
    DecomposeAs([], map[], s, 1, fuel, [t1, t2], [t1, t2]);
  }

  /** `sr` is read as the second followed by an unknown `r`, which fails. */
  lemma SteradianFails(s: string, fuel: nat)
    requires s == "sr"
    ensures Decompose([], map[], s, 1, fuel) == Err(NoUnitFound("r"))
  {
    EmptyRegistry();
    SteradianSlices(s);
    Second([], map[], s, s[1..], 1, fuel, [], [Triple(0, 2, 1)]);
    NoUnit([], map[], s[1..], 1, fuel, [Triple(0, 2, 1)]);
  }

  /** With `sr` registered, as in the source's demo, the base unit `s` still
      comes first in the unit pattern, so `sr` is read as the second followed
      by an unknown `r`: the registered steradian is never found. */
  lemma SteradianShadowed(order: seq<string>, meaning: map<string, string>, s: string, fuel: nat)
    requires order == ["sr"] && WellFormed(order, meaning) && s == "sr"
    ensures Decompose(order, meaning, s, 1, fuel) == Err(NoUnitFound("r"))
  {
    SteradianSlices(s);
    assert !StartsWith(s[1..], order[0]);
    Second(order, meaning, s, s[1..], 1, fuel, [], [Triple(0, 2, 1)]);
    NoUnit(order, meaning, s[1..], 1, fuel, [Triple(0, 2, 1)]);
    DecomposeAs(order, meaning, s, 1, fuel, [], []);
  }

  /** A symbol that was never defined is not a unit. */
  lemma UndefinedFails(s: string, fuel: nat)
    requires s == "N"
    ensures Decompose([], map[], s, 1, fuel) == Err(NoUnitFound("N"))
  {
    EmptyRegistry();
    NewtonHeads(s, []);
    NoUnit([], map[], s, 1, fuel, []);
  }

  // ---- `ms`, `dam` and a bare `da` ----

  /** `ms`: milli before the second, since `m(?!($|ol))` allows `m` before `s`. */
  lemma MilliSecond(s: string, fuel: nat)
    requires s == "ms"
    ensures Decompose([], map[], s, 1, fuel) == Ok([Triple(-3, 2, 1)])
  {
    var t := Triple(-3, 2, 1);
    EmptyRegistry();
    assert s == "ms" + s[2..] && s[2..] == [] && Plain(s[2..]);
    MilliSecondStep([], map[], s, s[2..], 1, fuel, [], [t]);
    DecomposeAs([], map[], s, 1, fuel, [t], [t]);
  }

  /** `dam`: the two-letter prefix `da` (ten to the first) before the metre. */
  lemma DekaMetre(s: string, fuel: nat)
    requires s == "dam"
    ensures Decompose([], map[], s, 1, fuel) == Ok([Triple(1, 0, 1)])
  {
    var t := Triple(1, 0, 1);
    EmptyRegistry();
    assert s == "dam" + s[3..] && s[3..] == [] && Plain(s[3..]) && !StartsWith(s[3..], "ol");
    DekaMetreStep([], map[], s, s[3..], 1, fuel, [], [t]);
    DecomposeAs([], map[], s, 1, fuel, [t], [t]);
  }

  /** A bare `da`: the prefix matches, but no unit follows it, so no prefix is
      consumed and `da` itself is no unit. */
  lemma DekaAlone(s: string, fuel: nat)
    requires s == "da"
    ensures Decompose([], map[], s, 1, fuel) == Err(NoUnitFound("da"))
  {
    EmptyRegistry();
    DekaAloneSlices(s);
    NoUnitAt([], s[2..]);
    PrefixWithoutUnit(s, [], 7);
    NoUnitAt([], s);
    ScanStep([], map[], s, 1, fuel, []);
    DecomposeAs([], map[], s, 1, fuel, [], []);
  }

  // ---- A registry holding the newton ----

  /** The definition of the newton, read with the sign `top`. */
  lemma NewtonDefinition(order: seq<string>, meaning: map<string, string>, s: string, top: int, fuel: nat)
    requires order == ["N"] && meaning == map["N" := "kgm/s2"] && s == "kgm/s2"
    ensures Decompose(order, meaning, s, top, fuel) ==
            Ok([Triple(0, 0, top), Triple(0, 2, -2 * top), Triple(3, 1, top)])
  {
    var t1, t2, t3 := Triple(3, 1, top), Triple(0, 0, top), Triple(0, 2, -2 * top);
    NewtonDefinitionScan(order, meaning, s, top, fuel);
    NewtonDefinitionSorted(top);
    DecomposeAs(order, meaning, s, top, fuel, [t1, t2, t3], [t2, t3, t1]);
  }

  lemma NewtonExpands(order: seq<string>, meaning: map<string, string>, top: int, fuel: nat)
    requires order == ["N"] && meaning == map["N" := "kgm/s2"] && fuel > 0
    ensures WellFormed(order, meaning) && order[0] in meaning
    ensures Decompose(order, meaning, meaning[order[0]], top, Nested(fuel)) ==
            Ok([Triple(0, 0, top), Triple(0, 2, -2 * top), Triple(3, 1, top)])
  {
    NewtonRegistry(order, meaning);
    NewtonDefinition(order, meaning, meaning[order[0]], top, Nested(fuel));
  }

  /** `N` expands to the definition read with the same sign, then raised to
      the signed exponent of the atom, so the sign counts twice. */
  lemma Newton(order: seq<string>, meaning: map<string, string>, rest: string, tail: string,
               top: int, fuel: nat, acc: seq<Triple>, next: seq<Triple>)
    requires order == ["N"] && meaning == map["N" := "kgm/s2"]
    requires InRange(acc) && fuel > 0 && rest == "N" + tail && Plain(tail)
    requires next == acc + Raise([Triple(0, 0, top), Triple(0, 2, -2 * top), Triple(3, 1, top)], top)
    ensures WellFormed(order, meaning)
    ensures Scan(order, meaning, rest, top, fuel, acc) == Scan(order, meaning, tail, top, fuel, next)
  {
    NewtonExpands(order, meaning, top, fuel);
    NewtonHeads(rest, tail);
    assert order[0] == "N" && order[0] != "/";
    FirstCustom(order, meaning, rest, tail, top, fuel, acc,
                [Triple(0, 0, top), Triple(0, 2, -2 * top), Triple(3, 1, top)], next);
  }

  /** `N` alone gives its definition. */
  lemma NewtonAlone(order: seq<string>, meaning: map<string, string>, s: string, fuel: nat)
    requires order == ["N"] && meaning == map["N" := "kgm/s2"] && s == "N" && fuel > 0
    ensures Decompose(order, meaning, s, 1, fuel) ==
            Ok([Triple(0, 0, 1), Triple(0, 2, -2), Triple(3, 1, 1)])
  {
    var v := [Triple(0, 0, 1), Triple(0, 2, -2), Triple(3, 1, 1)];
    NewtonAloneScan(order, meaning, s, fuel);
    NewtonDefinitionSorted(1);
    DecomposeAs(order, meaning, s, 1, fuel, v, v);
  }

  lemma NewtonAloneScan(order: seq<string>, meaning: map<string, string>, s: string, fuel: nat)
    requires order == ["N"] && meaning == map["N" := "kgm/s2"] && s == "N" && fuel > 0
    ensures WellFormed(order, meaning)
    ensures Scan(order, meaning, s, 1, fuel, []) == Ok([Triple(0, 0, 1), Triple(0, 2, -2), Triple(3, 1, 1)])
  {
    var v := [Triple(0, 0, 1), Triple(0, 2, -2), Triple(3, 1, 1)];
    LoneSymbol(s);
    RaiseByOne(v);
    assert [] + Raise(v, 1) == v;
    Newton(order, meaning, s, s[1..], 1, fuel, [], v);
  }

  lemma NewtonFlipped(order: seq<string>, meaning: map<string, string>, rest: string, fuel: nat)
    requires order == ["N"] && meaning == map["N" := "kgm/s2"] && rest == "N" && fuel > 0
    ensures Scan(order, meaning, rest, -1, fuel, [Triple(0, 0, 1)]) ==
            Ok([Triple(0, 0, 1), Triple(0, 0, 1), Triple(0, 2, -2), Triple(3, 1, 1)])
  {
    var m := Triple(0, 0, 1);
    LoneSymbol(rest);
    PerNewtonRaised(m);
    Newton(order, meaning, rest, rest[1..], -1, fuel, [m],
           [Triple(0, 0, 1), Triple(0, 0, 1), Triple(0, 2, -2), Triple(3, 1, 1)]);
  }

  lemma PerNewtonScan(order: seq<string>, meaning: map<string, string>, rest: string, fuel: nat)
    requires order == ["N"] && meaning == map["N" := "kgm/s2"] && rest == "/N" && fuel > 0
    ensures WellFormed(order, meaning)
    ensures Scan(order, meaning, rest, 1, fuel, [Triple(0, 0, 1)]) ==
            Ok([Triple(0, 0, 1), Triple(0, 0, 1), Triple(0, 2, -2), Triple(3, 1, 1)])
  {
    NewtonRegistry(order, meaning);
    assert rest == "/" + rest[1..] && rest[1..] == "N";
    NewtonAhead(order, rest);
    StepSlash(order, meaning, rest, rest[1..], 1, fuel, [Triple(0, 0, 1)]);
    assert Flip(1) == -1;
    NewtonFlipped(order, meaning, rest[1..], fuel);
  }

  lemma MetrePerNewtonScan(order: seq<string>, meaning: map<string, string>, s: string, fuel: nat)
    requires order == ["N"] && meaning == map["N" := "kgm/s2"] && s == "m/N" && fuel > 0
    ensures WellFormed(order, meaning)
    ensures Scan(order, meaning, s, 1, fuel, []) ==
            Ok([Triple(0, 0, 1), Triple(0, 0, 1), Triple(0, 2, -2), Triple(3, 1, 1)])
  {
    var m := Triple(0, 0, 1);
    NewtonRegistry(order, meaning);
    PerNewtonSlices(s);
    NewtonAhead(order, s[1..]);
    Metre(order, meaning, s, s[1..], 1, fuel, [], [m]);
    PerNewtonScan(order, meaning, s[1..], fuel);
  }

  /** `m/N`: the newton after `/` is expanded with the sign already flipped and
      then raised to the flipped exponent, so it counts positively: the result
      is kilogram times square metre per square second, where one metre per
      newton is a second squared per kilogram. */
  lemma MetrePerNewton(order: seq<string>, meaning: map<string, string>, s: string, fuel: nat)
    requires order == ["N"] && meaning == map["N" := "kgm/s2"] && s == "m/N" && fuel > 0
    ensures Decompose(order, meaning, s, 1, fuel) ==
            Ok([Triple(0, 0, 1), Triple(0, 0, 1), Triple(0, 2, -2), Triple(3, 1, 1)])
  {
    var v := [Triple(0, 0, 1), Triple(0, 0, 1), Triple(0, 2, -2), Triple(3, 1, 1)];
    MetrePerNewtonScan(order, meaning, s, fuel);
    MetrePerNewtonSorted();
    DecomposeAs(order, meaning, s, 1, fuel, v, v);
  }

  /** Folded, `m/N` has the exponents of kg m2/s2. */
  lemma MetrePerNewtonTotals()
    ensures Totals([Triple(0, 0, 1), Triple(0, 0, 1), Triple(0, 2, -2), Triple(3, 1, 1)], Power) ==
            [2, 1, -2, 0, 0, 0, 0]
  {
    var t0, t1, t2 := Triple(0, 0, 1), Triple(0, 2, -2), Triple(3, 1, 1);
    var ts := [t0, t0, t1, t2];
    assert ts[1..] == [t0, t1, t2] && [t0, t1, t2][1..] == [t1, t2] && [t1, t2][1..] == [t2] && [t2][1..] == [];
    forall i | 0 <= i < 7
      ensures DimSum(ts, i, Power) == [2, 1, -2, 0, 0, 0, 0][i]
    {
      assert DimSum([t2], i, Power) == Contribution(t2, i, Power);
      assert DimSum([t1, t2], i, Power) == Contribution(t1, i, Power) + DimSum([t2], i, Power);
      assert DimSum([t0, t1, t2], i, Power) == Contribution(t0, i, Power) + DimSum([t1, t2], i, Power);
      assert DimSum(ts, i, Power) == Contribution(t0, i, Power) + DimSum([t0, t1, t2], i, Power);
    }
  }

  /** A custom unit defined as itself expands until the nesting bound runs out. */
  lemma SelfReference(order: seq<string>, meaning: map<string, string>, s: string, fuel: nat)
    requires order == ["X"] && meaning == map["X" := "X"] && s == "X"
    ensures Decompose(order, meaning, s, 1, fuel) == Err(RecursionLimit("X"))
  {
    SelfReferenceRegistry(order, meaning);
    SelfReferenceToken(order, s);
    SelfReferenceFails(order, meaning, s, 1, fuel);
  }

  // ---- `*` and a second `/` ----

  lemma PerSecondTimesSecond(s: string, fuel: nat)
    requires s == "m/s*s"
    ensures Decompose([], map[], s, 1, fuel) == Ok([Triple(0, 0, 1), Triple(0, 2, -1), Triple(0, 2, -1)])
  {
    var v := [Triple(0, 0, 1), Triple(0, 2, -1), Triple(0, 2, -1)];
    var one := [Triple(0, 0, 1)];
    var two := one + [Triple(0, 2, -1)];
    assert s == "m/" + "s*s";
    assert two + [Triple(0, 2, -1)] == v;
    PerSecondTimesSecondScan(s, "s*s", fuel, one, two, v);
    assert Sorted(v, TripleLe);
    DecomposeAs([], map[], s, 1, fuel, v, v);
  }

  /** `m/s/s`: a second `/` flips the sign back, so the last second multiplies. */
  lemma PerSecondPerSecond(s: string, fuel: nat)
    requires s == "m/s/s"
    ensures Decompose([], map[], s, 1, fuel) == Ok([Triple(0, 0, 1), Triple(0, 2, -1), Triple(0, 2, 1)])
  {
    var v := [Triple(0, 0, 1), Triple(0, 2, -1), Triple(0, 2, 1)];
    var one := [Triple(0, 0, 1)];
    var two := one + [Triple(0, 2, -1)];
    assert s == "m/" + "s/s";
    assert two + [Triple(0, 2, 1)] == v;
    PerSecondPerSecondScan(s, "s/s", fuel, one, two, v);
    assert Sorted(v, TripleLe);
    DecomposeAs([], map[], s, 1, fuel, v, v);
  }

  /** Folded, `m/s*s` is an acceleration and `m/s/s` a plain length. */
  lemma SecondsFolded()
    ensures Totals([Triple(0, 0, 1), Triple(0, 2, -1), Triple(0, 2, -1)], Power) == [1, 0, -2, 0, 0, 0, 0]
    ensures Totals([Triple(0, 0, 1), Triple(0, 2, -1), Triple(0, 2, 1)], Power) == [1, 0, 0, 0, 0, 0, 0]
  {
    var m, t, u := Triple(0, 0, 1), Triple(0, 2, -1), Triple(0, 2, 1);
    forall i, x | 0 <= i < 7 && (x == t || x == u)
      ensures DimSum([m, t, x], i, Power) == Contribution(m, i, Power) + Contribution(t, i, Power) + Contribution(x, i, Power)
    {
      assert [m, t, x][1..] == [t, x] && [t, x][1..] == [x] && [x][1..] == [];
      assert DimSum([x], i, Power) == Contribution(x, i, Power) + DimSum([], i, Power);
    }
  }

  // ---- The newton squared ----

  lemma NewtonExpandsTo(order: seq<string>, meaning: map<string, string>, fuel: nat, v: seq<Triple>)
    requires order == ["N"] && meaning == map["N" := "kgm/s2"] && fuel > 0
    requires v == [Triple(0, 0, 1), Triple(0, 2, -2), Triple(3, 1, 1)]
    ensures WellFormed(order, meaning) && order[0] in meaning
    ensures Decompose(order, meaning, meaning[order[0]], 1, Nested(fuel)) == Ok(v)
  {
    NewtonExpands(order, meaning, 1, fuel);
  }

  lemma NewtonSquaredScan(order: seq<string>, meaning: map<string, string>, s: string, fuel: nat)
    requires order == ["N"] && meaning == map["N" := "kgm/s2"] && s == "N^2" && fuel > 0
    ensures WellFormed(order, meaning)
    ensures Scan(order, meaning, s, 1, fuel, []) == Ok([Triple(0, 0, 2), Triple(0, 2, -4), Triple(3, 1, 2)])
  {
    var v := [Triple(0, 0, 1), Triple(0, 2, -2), Triple(3, 1, 1)];
    var w := [Triple(0, 0, 2), Triple(0, 2, -4), Triple(3, 1, 2)];
    NewtonExpandsTo(order, meaning, fuel, v);
    NewtonSquaredText(order, s);
    NewtonSquaredRaised(v, w);
    FirstCustomPowered(order, meaning, s, s[1..], "^2", [], Some(2), 1, fuel, [], v, w);
  }

  /** `N^2` raises every power of the newton's definition to the square. */
  lemma NewtonSquared(order: seq<string>, meaning: map<string, string>, s: string, fuel: nat)
    requires order == ["N"] && meaning == map["N" := "kgm/s2"] && s == "N^2" && fuel > 0
    ensures Decompose(order, meaning, s, 1, fuel) == Ok([Triple(0, 0, 2), Triple(0, 2, -4), Triple(3, 1, 2)])
  {
    var w := [Triple(0, 0, 2), Triple(0, 2, -4), Triple(3, 1, 2)];
    NewtonSquaredScan(order, meaning, s, fuel);
    assert Sorted(w, TripleLe);
    DecomposeAs(order, meaning, s, 1, fuel, w, w);
  }

  /** Folded, `N^2` has the exponents of kg2 m2/s4. */
  lemma NewtonSquaredTotals()
    ensures Totals([Triple(0, 0, 2), Triple(0, 2, -4), Triple(3, 1, 2)], Power) == [2, 2, -4, 0, 0, 0, 0]
  {
    var a, b, c := Triple(0, 0, 2), Triple(0, 2, -4), Triple(3, 1, 2);
    assert [a, b, c][1..] == [b, c] && [b, c][1..] == [c] && [c][1..] == [];
    forall i | 0 <= i < 7
      ensures DimSum([a, b, c], i, Power) == [2, 2, -4, 0, 0, 0, 0][i]
    {
      assert DimSum([c], i, Power) == Contribution(c, i, Power);
      assert DimSum([b, c], i, Power) == Contribution(b, i, Power) + DimSum([c], i, Power);
    }
  }

  // ---- A registry holding `W` and `Wb` ----

  /** With both `W` and `Wb` registered, `Wb` is read as `W` followed by an
      unknown `b`: first match, not longest match. Whatever the two symbols
      mean, `Wb` fails, with `W`'s own failure if its definition fails. */
  lemma WeberShadowed(order: seq<string>, meaning: map<string, string>, s: string, fuel: nat)
    requires order == ["W", "Wb"] && WellFormed(order, meaning) && s == "Wb" && fuel > 0
    ensures "W" in meaning
    ensures var sub := Decompose(order, meaning, meaning["W"], 1, Nested(fuel));
            Decompose(order, meaning, s, 1, fuel) == if sub.Err? then Err(sub.failure) else Err(NoUnitFound("b"))
  {
    assert "W" in order;
    WeberToken(order, s);
    WeberText(order, s);
    var sub := Decompose(order, meaning, meaning["W"], 1, Nested(fuel));
    ScanCustomStep(order, meaning, s, 1, fuel, [], sub);
    if sub.Ok? {
      NoUnit(order, meaning, "b", 1, fuel, [] + Raise(sub.value, Exponent(None, 1)));
    }
  }

  // ---- A prefix before a custom unit: `dC` beside `C` ----

  /** With `C` and `dC` registered, as in the source's demo, `dC` is read as
      the prefix `d` before the custom unit `C`, and the prefix is dropped: `dC`
      decomposes exactly as `C` does, so the definition of `dC` is never used. */
  lemma DeciCoulomb(order: seq<string>, meaning: map<string, string>, top: int, fuel: nat)
    requires order == ["C", "dC"] && WellFormed(order, meaning)
    ensures Decompose(order, meaning, "dC", top, fuel) == Decompose(order, meaning, "C", top, fuel)
  {
    CoulombTokens(order);
    assert "dC"[2..] == [] && "C"[1..] == [];
    ScanStep(order, meaning, "C", top, fuel, []);
    ScanStep(order, meaning, "dC", top, fuel, []);
    if fuel > 0 {
      var sub := Decompose(order, meaning, meaning["C"], top, Nested(fuel));
      ScanCustomStep(order, meaning, "C", top, fuel, [], sub);
      ScanCustomStep(order, meaning, "dC", top, fuel, [], sub);
    }
  }

  // ---- The empty unit, and two units of one kind ----

  /** The empty unit string decomposes to no triples, in any registry, and its
      exponents are all zero: `isUnitless` holds. */
  lemma EmptyUnit(order: seq<string>, meaning: map<string, string>, top: int, fuel: nat)
    requires WellFormed(order, meaning)
    ensures Decompose(order, meaning, "", top, fuel) == Ok([])
    ensures Totals([], Power) == [0, 0, 0, 0, 0, 0, 0]
  {
    assert Sorted([], TripleLe);
    DecomposeAs(order, meaning, "", top, fuel, [], []);
  }

  /** `km` and `m` have the same kind (`isSame` compares the `e` arrays only)
      although their `p` arrays differ. */
  lemma KiloMetreSameKindAsMetre(fuel: nat)
    ensures Decompose([], map[], "km", 1, fuel) == Ok([Triple(3, 0, 1)])
    ensures Decompose([], map[], "m", 1, fuel) == Ok([Triple(0, 0, 1)])
    ensures Totals([Triple(3, 0, 1)], Power) == Totals([Triple(0, 0, 1)], Power)
    ensures Totals([Triple(3, 0, 1)], Scaled) != Totals([Triple(0, 0, 1)], Scaled)
  {
    KiloMetreAlone("km", fuel);
    MetreAlone("m", fuel);
    KiloMetreTotals();
  }

  // ---- `undefine` ----

  /** After `define("N", "kgm/s2")`, the newton of the source's demo, and then
      `undefine("N")`, the unit string `N` is no unit any more. */
  method UndefinedAfterUndefine(fuel: nat) returns (r: Result<seq<Triple>>)
    ensures r == Err(NoUnitFound("N"))
  {
    var reg := new Registry();
    reg.Define("N", "kgm/s2");
    reg.Undefine("N");
    assert reg.symbols == [] && reg.meaning == map[];
    r := DecomposeUnit(reg, "N", 1, fuel);
    UndefinedFails("N", fuel);
  }
}
