/** Proof steps for the worked unit strings: reading one atom at the cursor,
    one scan step per kind of atom, and the slicing and table facts the
    solver needs for each literal string. */
module ExampleSteps {
  import opened Results
  import opened Sorting
  import opened Symbols
  import opened CustomUnits
  import opened Decomposer
  import opened Quantity

  // ---- Reading one atom ----

  lemma NoPrefixHere(s: string, order: seq<string>)
    requires s != [] && s[0] !in PrefixHeads
    ensures ConsumedPrefix(s, order) == ""
  {
    NoPrefixAt(s);
    NoPrefixBeforeUnit(s, order);
  }

  lemma PrefixHere(s: string, order: seq<string>, k: nat)
    requires k < |PrefixRules| && Matches(PrefixRules[k], s)
    requires FirstMatch(UnitRules(order), s[|PrefixRules[k].symbol|..]).Some?
    ensures ConsumedPrefix(s, order) == PrefixRules[k].symbol
  {
    PrefixBeforeUnitFound(s, order, k);
  }

  lemma PrefixWithoutUnit(s: string, order: seq<string>, k: nat)
    requires k < |PrefixRules| && Matches(PrefixRules[k], s)
    requires FirstMatch(UnitRules(order), s[|PrefixRules[k].symbol|..]).None?
    ensures ConsumedPrefix(s, order) == ""
  {
    PrefixFound(s, k);
    NoPrefixBeforeUnit(s, order);
  }

  lemma OnlyMilliStartsWithM(j: nat)
    requires j < |PrefixRules| && PrefixRules[j].symbol != [] && PrefixRules[j].symbol[0] == 'm'
    ensures j == 10
  {
  }

  /** `m` is not a prefix at the end of the text or before `ol`. */
  lemma MilliExcluded(s: string, order: seq<string>)
    requires s != [] && s[0] == 'm' && !Matches(PrefixRules[10], s)
    ensures ConsumedPrefix(s, order) == ""
  {
    var r := FirstMatch(PrefixRules, s);
    if r.Some? {
      PrefixHead(r.value);
      OnlyMilliStartsWithM(r.value);
    }
    NoPrefixBeforeUnit(s, order);
  }

  /** What the exponent text `expo` in front of `tail` reads as. */
  predicate ReadsExponent(expo: string, tail: string, digits: Option<nat>)
  {
    match digits
    case None => expo == [] && ParseExponent(tail) == None
    case Some(d) => ParseExponent(expo + tail) == Some((d, |expo|))
  }

  lemma Slices(rest: string, pre: string, unit: string, expo: string, tail: string)
    requires rest == pre + unit + expo + tail
    ensures rest[|pre|..] == unit + expo + tail
    ensures (unit + expo + tail)[|unit|..] == expo + tail
    ensures rest[|pre| + |unit| + |expo|..] == tail
  {
  }

  /** One unit atom `pre unit expo` at the head of `rest`, read as a token. */
  lemma ReadsAtom(order: seq<string>, rest: string, pre: string, unit: string, k: nat,
                  expo: string, tail: string, digits: Option<nat>)
    requires forall u :: u in order ==> u != []
    requires rest == pre + unit + expo + tail && rest != [] && rest[0] != '*'
    requires ConsumedPrefix(rest, order) == pre
    requires k < |TokenRules(order)| && TokenRules(order)[k].symbol == unit && unit != "/"
    requires FirstMatch(TokenRules(order), unit + expo + tail) == Some(k)
    requires ReadsExponent(expo, tail, digits)
    ensures ReadToken(order, rest).BaseUnit? || ReadToken(order, rest).CustomUnit?
    ensures ReadToken(order, rest).width == |pre| + |unit| + |expo|
    ensures rest[ReadToken(order, rest).width..] == tail
    ensures ReadToken(order, rest).digits == digits
    ensures unit in order ==> ReadToken(order, rest).CustomUnit? && ReadToken(order, rest).symbol == unit
    ensures unit !in order ==> && ReadToken(order, rest).BaseUnit? && unit in DimensionIndex
                               && ReadToken(order, rest).prefix == PrefixExponent[pre]
                               && ReadToken(order, rest).dim == DimensionIndex[unit]
  {
    Slices(rest, pre, unit, expo, tail);
    var afterPrefix := rest[|ConsumedPrefix(rest, order)|..];
    assert afterPrefix == unit + expo + tail;
    assert FirstMatch(TokenRules(order), afterPrefix) == Some(k);
    var afterUnit := afterPrefix[|unit|..];
    assert afterUnit == expo + tail;
    assert digits.None? ==> ParseExponent(afterUnit) == None;
    assert digits.Some? ==> ParseExponent(afterUnit) == Some((digits.value, |expo|));
    if unit !in order {
      TokenIsBaseUnit(order, k);
    }
  }

  lemma StepBase(order: seq<string>, meaning: map<string, string>, rest: string, pre: string, unit: string,
                 k: nat, expo: string, tail: string, digits: Option<nat>, top: int, fuel: nat, acc: seq<Triple>,
                 next: seq<Triple>)
    requires WellFormed(order, meaning) && InRange(acc)
    requires rest == pre + unit + expo + tail && rest != [] && rest[0] != '*'
    requires ConsumedPrefix(rest, order) == pre
    requires k < |TokenRules(order)| && TokenRules(order)[k].symbol == unit
    requires FirstMatch(TokenRules(order), unit + expo + tail) == Some(k)
    requires unit !in order && unit != "/" && unit in DimensionIndex && 0 <= DimensionIndex[unit] < 7
    requires ReadsExponent(expo, tail, digits)
    requires next == acc + [Triple(PrefixExponent[pre], DimensionIndex[unit], Exponent(digits, top))]
    ensures Scan(order, meaning, rest, top, fuel, acc) == Scan(order, meaning, tail, top, fuel, next)
  {
    ReadsAtom(order, rest, pre, unit, k, expo, tail, digits);
    ScanStep(order, meaning, rest, top, fuel, acc);
  }

  lemma StepCustom(order: seq<string>, meaning: map<string, string>, rest: string, pre: string, i: nat,
                   expo: string, tail: string, digits: Option<nat>, top: int, fuel: nat, acc: seq<Triple>,
                   sub: seq<Triple>, next: seq<Triple>)
    requires WellFormed(order, meaning) && InRange(acc) && fuel > 0
    requires i < |order| && order[i] != "/" && rest == pre + order[i] + expo + tail && rest != [] && rest[0] != '*'
    requires ConsumedPrefix(rest, order) == pre
    requires FirstMatch(TokenRules(order), order[i] + expo + tail) == Some(|BaseUnitRules| + i)
    requires ReadsExponent(expo, tail, digits)
    requires Decompose(order, meaning, meaning[order[i]], top, Nested(fuel)) == Ok(sub)
    requires next == acc + Raise(sub, Exponent(digits, top))
    ensures Scan(order, meaning, rest, top, fuel, acc) == Scan(order, meaning, tail, top, fuel, next)
  {
    assert TokenRules(order)[|BaseUnitRules| + i].symbol == order[i] && order[i] in order;
    ReadsAtom(order, rest, pre, order[i], |BaseUnitRules| + i, expo, tail, digits);
    ScanStep(order, meaning, rest, top, fuel, acc);
    ScanCustomStep(order, meaning, rest, top, fuel, acc, Ok(sub));
  }

  lemma StepSlash(order: seq<string>, meaning: map<string, string>, rest: string, tail: string,
                  top: int, fuel: nat, acc: seq<Triple>)
    requires WellFormed(order, meaning) && InRange(acc)
    requires rest == "/" + tail
    requires forall j :: 0 <= j < |order| ==> !StartsWith(rest, order[j])
    ensures Scan(order, meaning, rest, top, fuel, acc) == Scan(order, meaning, tail, Flip(top), fuel, acc)
  {
    NoPrefixHere(rest, order);
    NoUnitAt(order, rest);
    assert TokenRules(order)[|UnitRules(order)|] == Divide;
    ScanStep(order, meaning, rest, top, fuel, acc);
  }

  /** No exponent follows: the next character is neither a caret nor a digit. */
  predicate Plain(tail: string)
  {
    tail == [] || (tail[0] != '^' && !IsDigit(tail[0]))
  }

  lemma PlainReadsNothing(tail: string)
    requires Plain(tail)
    ensures ReadsExponent("", tail, None)
  {
  }

  /** The text starts with none of the registry's symbols. */
  predicate NoCustomAt(order: seq<string>, s: string)
  {
    forall j :: 0 <= j < |order| ==> !StartsWith(s, order[j])
  }

  // ---- `km`: the prefix `k` before the base unit `m` ----

  lemma MetreFirst(order: seq<string>, s: string, tail: string)
    requires s == "m" + tail && !StartsWith(tail, "ol")
    ensures FirstMatch(TokenRules(order), s) == Some(1)
    ensures FirstMatch(UnitRules(order), s) == Some(1)
  {
    assert BaseUnitRules[1] == Rule("m", [Text("ol")]);
    assert s[1..] == tail;
    assert Matches(BaseUnitRules[1], s) by {
      assert StartsWith(s, "m");
    }
    BaseUnitFound(order, s, 1);
  }

  /** `k` is read as a prefix when a unit follows it. */
  lemma KiloBefore(order: seq<string>, rest: string, tail: string)
    requires rest == "k" + tail && FirstMatch(UnitRules(order), tail).Some?
    ensures ConsumedPrefix(rest, order) == "k"
  {
    assert PrefixRules[5] == Rule("k", []);
    assert rest[1..] == tail;
    assert Matches(PrefixRules[5], rest);
    PrefixHere(rest, order, 5);
  }

  lemma KiloSplit(rest: string, unit: string, tail: string)
    requires rest == "k" + unit + tail
    ensures rest == "k" + (unit + tail) && rest == "k" + unit + "" + tail
    ensures unit + tail == unit + "" + tail
  {
  }

  lemma PrefixConstants()
    ensures PrefixExponent["k"] == 3 && PrefixExponent["m"] == -3 && PrefixExponent[""] == 0
  {
  }

  lemma MetreConstants(order: seq<string>)
    ensures 1 < |TokenRules(order)| && TokenRules(order)[1].symbol == "m"
    ensures "m" in DimensionIndex && DimensionIndex["m"] == 0
  {
    assert TokenRules(order)[1] == BaseUnitRules[1];
  }

  lemma KiloMetre(order: seq<string>, meaning: map<string, string>, rest: string, tail: string,
                  top: int, fuel: nat, acc: seq<Triple>, next: seq<Triple>)
    requires WellFormed(order, meaning) && InRange(acc) && "m" !in order
    requires rest == "km" + tail && Plain(tail) && !StartsWith(tail, "ol")
    requires next == acc + [Triple(3, 0, top)]
    ensures Scan(order, meaning, rest, top, fuel, acc) == Scan(order, meaning, tail, top, fuel, next)
  {
    KiloSplit(rest, "m", tail);
    MetreFirst(order, "m" + tail, tail);
    KiloBefore(order, rest, "m" + tail);
    PrefixConstants();
    PlainReadsNothing(tail);
    MetreConstants(order);
    StepBase(order, meaning, rest, "k", "m", 1, "", tail, None, top, fuel, acc, next);
  }

  // ---- `m` without a prefix: at the end of the text, or before `/` ----

  lemma MetreBare(order: seq<string>, rest: string, tail: string)
    requires rest == "m" + tail
    requires tail == [] || (tail[0] == '/' && NoCustomAt(order, tail))
    ensures ConsumedPrefix(rest, order) == ""
  {
    assert PrefixRules[10] == Rule("m", [EndOfText, Text("ol")]);
    assert rest[1..] == tail;
    if tail == [] {
      assert LookaheadMatches(EndOfText, rest[1..]);
      MilliExcluded(rest, order);
    } else {
      assert Matches(PrefixRules[10], rest) by {
        assert !LookaheadMatches(EndOfText, tail) && !LookaheadMatches(Text("ol"), tail);
      }
      NoUnitAt(order, tail);
      PrefixWithoutUnit(rest, order, 10);
    }
  }

  lemma Metre(order: seq<string>, meaning: map<string, string>, rest: string, tail: string,
              top: int, fuel: nat, acc: seq<Triple>, next: seq<Triple>)
    requires WellFormed(order, meaning) && InRange(acc) && "m" !in order
    requires rest == "m" + tail
    requires tail == [] || (tail[0] == '/' && NoCustomAt(order, tail))
    requires next == acc + [Triple(0, 0, top)]
    ensures Scan(order, meaning, rest, top, fuel, acc) == Scan(order, meaning, tail, top, fuel, next)
  {
    assert rest == "" + "m" + "" + tail && "m" + tail == "m" + "" + tail;
    MetreFirst(order, "m" + tail, tail);
    MetreBare(order, rest, tail);
    PrefixConstants();
    PlainReadsNothing(tail);
    MetreConstants(order);
    StepBase(order, meaning, rest, "", "m", 1, "", tail, None, top, fuel, acc, next);
  }

  // ---- `mm`: the prefix `m` before the base unit `m` ----

  /** `m` is read as a prefix when a unit follows it. */
  lemma MilliBefore(order: seq<string>, rest: string, tail: string)
    requires rest == "m" + tail && tail != [] && tail[0] != 'o' && tail[0] != '\n'
    requires FirstMatch(UnitRules(order), tail).Some?
    ensures ConsumedPrefix(rest, order) == "m"
  {
    assert PrefixRules[10] == Rule("m", [EndOfText, Text("ol")]);
    assert rest[1..] == tail;
    assert Matches(PrefixRules[10], rest) by {
      assert !LookaheadMatches(EndOfText, tail) && !LookaheadMatches(Text("ol"), tail);
    }
    PrefixHere(rest, order, 10);
  }

  lemma MilliSplit(rest: string, tail: string)
    requires rest == "mm" + tail
    ensures rest == "m" + ("m" + tail) && rest == "m" + "m" + "" + tail
    ensures "m" + tail != [] && ("m" + tail)[0] == 'm' && "m" + tail == "m" + "" + tail
  {
  }

  lemma MilliMetre(order: seq<string>, meaning: map<string, string>, rest: string, tail: string,
                   top: int, fuel: nat, acc: seq<Triple>, next: seq<Triple>)
    requires WellFormed(order, meaning) && InRange(acc) && "m" !in order
    requires rest == "mm" + tail && Plain(tail) && !StartsWith(tail, "ol")
    requires next == acc + [Triple(-3, 0, top)]
    ensures Scan(order, meaning, rest, top, fuel, acc) == Scan(order, meaning, tail, top, fuel, next)
  {
    MilliSplit(rest, tail);
    MetreFirst(order, "m" + tail, tail);
    MilliBefore(order, rest, "m" + tail);
    PrefixConstants();
    PlainReadsNothing(tail);
    MetreConstants(order);
    StepBase(order, meaning, rest, "m", "m", 1, "", tail, None, top, fuel, acc, next);
  }

  // ---- `mol`: `m` is not a prefix before `ol` ----

  lemma MoleFacts(order: seq<string>, rest: string, tail: string)
    requires rest == "mol" + tail
    ensures FirstMatch(TokenRules(order), rest) == Some(0)
    ensures ConsumedPrefix(rest, order) == ""
  {
    assert BaseUnitRules[0] == Rule("mol", []);
    assert Matches(BaseUnitRules[0], rest) by {
      assert rest[..3] == "mol";
      StartsWithSlice(rest, "mol");
    }
    BaseUnitFound(order, rest, 0);
    assert PrefixRules[10] == Rule("m", [EndOfText, Text("ol")]);
    assert rest[1..] == "ol" + tail && rest[1..][..2] == "ol";
    StartsWithSlice(rest[1..], "ol");
    assert !NoneAhead(PrefixRules[10].notBefore, rest[1..]) by {
      assert LookaheadMatches(PrefixRules[10].notBefore[1], rest[1..]);
    }
    MilliExcluded(rest, order);
  }

  lemma MoleConstants(order: seq<string>)
    ensures 0 < |TokenRules(order)| && TokenRules(order)[0].symbol == "mol"
    ensures "mol" in DimensionIndex && DimensionIndex["mol"] == 4
  {
    assert TokenRules(order)[0] == BaseUnitRules[0];
  }

  lemma Mole(order: seq<string>, meaning: map<string, string>, rest: string, tail: string,
             top: int, fuel: nat, acc: seq<Triple>, next: seq<Triple>)
    requires WellFormed(order, meaning) && InRange(acc) && "mol" !in order
    requires rest == "mol" + tail && Plain(tail)
    requires next == acc + [Triple(0, 4, top)]
    ensures Scan(order, meaning, rest, top, fuel, acc) == Scan(order, meaning, tail, top, fuel, next)
  {
    assert rest == "" + "mol" + "" + tail && "mol" + "" + tail == rest;
    MoleFacts(order, rest, tail);
    PrefixConstants();
    PlainReadsNothing(tail);
    MoleConstants(order);
    StepBase(order, meaning, rest, "", "mol", 0, "", tail, None, top, fuel, acc, next);
  }

  // ---- `s`, `s2` and `kg` ----

  lemma SecondFirst(order: seq<string>, s: string)
    requires s != [] && s[0] == 's'
    ensures FirstMatch(TokenRules(order), s) == Some(3)
    ensures FirstMatch(UnitRules(order), s) == Some(3)
    ensures ConsumedPrefix(s, order) == ""
  {
    NoPrefixHere(s, order);
    SecondUnit(order, s);
  }

  lemma SecondUnit(order: seq<string>, s: string)
    requires s != [] && s[0] == 's'
    ensures FirstMatch(TokenRules(order), s) == Some(3)
    ensures FirstMatch(UnitRules(order), s) == Some(3)
  {
    SecondMatches(s);
    BaseUnitFound(order, s, 3);
  }

  lemma SecondMatches(s: string)
    requires s != [] && s[0] == 's'
    ensures 3 < |BaseUnitRules| && Matches(BaseUnitRules[3], s)
  {
    assert BaseUnitRules[3] == Rule("s", []);
  }

  lemma SecondConstants(order: seq<string>)
    ensures 3 < |TokenRules(order)| && TokenRules(order)[3].symbol == "s"
    ensures "s" in DimensionIndex && DimensionIndex["s"] == 2
  {
    assert TokenRules(order)[3] == BaseUnitRules[3];
  }

  lemma Second(order: seq<string>, meaning: map<string, string>, rest: string, tail: string,
               top: int, fuel: nat, acc: seq<Triple>, next: seq<Triple>)
    requires WellFormed(order, meaning) && InRange(acc) && "s" !in order
    requires rest == "s" + tail && Plain(tail)
    requires next == acc + [Triple(0, 2, top)]
    ensures Scan(order, meaning, rest, top, fuel, acc) == Scan(order, meaning, tail, top, fuel, next)
  {
    assert rest == "" + "s" + "" + tail && "s" + "" + tail == rest;
    SecondFirst(order, rest);
    PrefixConstants();
    PlainReadsNothing(tail);
    SecondConstants(order);
    StepBase(order, meaning, rest, "", "s", 1 + 2, "", tail, None, top, fuel, acc, next);
  }

  /** The exponent `2`, with no further digit after it. */
  lemma SquaredExponent(tail: string)
    requires tail == [] || !IsDigit(tail[0])
    ensures ReadsExponent("2", tail, Some(2))
  {
    var s := "2" + tail;
    assert s[0..] == s && s[1..] == tail;
    assert DigitRun(s[1..]) == 0;
    assert DigitRun(s) == 1;
    assert s[0..1] == "2" && "2"[..0] == [];
    assert DigitsValue("2") == 2;
  }

  lemma SecondSquared(order: seq<string>, meaning: map<string, string>, rest: string, tail: string,
                      top: int, fuel: nat, acc: seq<Triple>, next: seq<Triple>)
    requires WellFormed(order, meaning) && InRange(acc) && "s" !in order
    requires rest == "s2" + tail && (tail == [] || !IsDigit(tail[0]))
    requires next == acc + [Triple(0, 2, 2 * top)]
    ensures Scan(order, meaning, rest, top, fuel, acc) == Scan(order, meaning, tail, top, fuel, next)
  {
    assert rest == "" + "s" + "2" + tail && "s" + "2" + tail == rest;
    SecondFirst(order, rest);
    PrefixConstants();
    SquaredExponent(tail);
    SecondConstants(order);
    StepBase(order, meaning, rest, "", "s", 1 + 2, "2", tail, Some(2), top, fuel, acc, next);
  }

  lemma GramFirst(order: seq<string>, s: string)
    requires s != [] && s[0] == 'g'
    ensures FirstMatch(TokenRules(order), s) == Some(2)
    ensures FirstMatch(UnitRules(order), s) == Some(2)
  {
    assert BaseUnitRules[2] == Rule("g", []);
    assert Matches(BaseUnitRules[2], s);
    BaseUnitFound(order, s, 2);
  }

  lemma GramConstants(order: seq<string>)
    ensures 2 < |TokenRules(order)| && TokenRules(order)[2].symbol == "g"
    ensures "g" in DimensionIndex && DimensionIndex["g"] == 1
  {
    assert TokenRules(order)[2] == BaseUnitRules[2];
  }

  lemma KiloGram(order: seq<string>, meaning: map<string, string>, rest: string, tail: string,
                 top: int, fuel: nat, acc: seq<Triple>, next: seq<Triple>)
    requires WellFormed(order, meaning) && InRange(acc) && "g" !in order
    requires rest == "kg" + tail && Plain(tail)
    requires next == acc + [Triple(3, 1, top)]
    ensures Scan(order, meaning, rest, top, fuel, acc) == Scan(order, meaning, tail, top, fuel, next)
  {
    KiloSplit(rest, "g", tail);
    GramFirst(order, "g" + tail);
    KiloBefore(order, rest, "g" + tail);
    PrefixConstants();
    PlainReadsNothing(tail);
    GramConstants(order);
    StepBase(order, meaning, rest, "k", "g", 2, "", tail, None, top, fuel, acc, next);
  }

  /** Text that starts with no prefix, unit, `/` or `*` stops the scan. */
  lemma NoUnit(order: seq<string>, meaning: map<string, string>, rest: string, top: int, fuel: nat,
               acc: seq<Triple>)
    requires WellFormed(order, meaning) && InRange(acc)
    requires rest != [] && rest[0] !in PrefixHeads && rest[0] !in BaseUnitHeads && rest[0] != '/' && rest[0] != '*'
    requires NoCustomAt(order, rest)
    ensures Scan(order, meaning, rest, top, fuel, acc) == Err(NoUnitFound(rest))
  {
    NoPrefixHere(rest, order);
    NoUnitAt(order, rest);
    assert rest[|""|..] == rest;
    ScanStep(order, meaning, rest, top, fuel, acc);
  }

  // ---- Whole unit strings, with no custom units ----

  lemma EmptyRegistry()
    ensures WellFormed([], map[])
  {
  }

  lemma KmKmSlices(s: string)
    requires s == "kmkm"
    ensures s == "km" + s[2..] && s[2..] == "km" + s[4..] && s[4..] == []
    ensures Plain(s[2..]) && !StartsWith(s[2..], "ol") && Plain(s[4..]) && !StartsWith(s[4..], "ol")
  {
  }

  lemma KiloMetreTwiceScan(s: string, fuel: nat)
    requires s == "kmkm"
    ensures WellFormed([], map[])
    ensures Scan([], map[], s, 1, fuel, []) == Ok([Triple(3, 0, 1), Triple(3, 0, 1)])
  {
    var t := Triple(3, 0, 1);
    EmptyRegistry();
    KmKmSlices(s);
    KiloMetreThenKiloMetre([], map[], s, s[2..], s[4..], 1, fuel, [], [t], [t, t]);
  }

  lemma KiloMetreThenKiloMetre(order: seq<string>, meaning: map<string, string>, rest: string, mid: string,
                               tail: string, top: int, fuel: nat, acc: seq<Triple>, one: seq<Triple>,
                               two: seq<Triple>)
    requires WellFormed(order, meaning) && InRange(acc) && "m" !in order
    requires rest == "km" + mid && Plain(mid) && !StartsWith(mid, "ol")
    requires mid == "km" + tail && Plain(tail) && !StartsWith(tail, "ol")
    requires one == acc + [Triple(3, 0, top)] && two == one + [Triple(3, 0, top)]
    ensures Scan(order, meaning, rest, top, fuel, acc) == Scan(order, meaning, tail, top, fuel, two)
  {
    InRangeSnoc(acc, Triple(3, 0, top), one);
    KiloMetre(order, meaning, rest, mid, top, fuel, acc, one);
    KiloMetre(order, meaning, mid, tail, top, fuel, one, two);
  }

  lemma MoleSlices(s: string)
    requires s == "mol"
    ensures s == "mol" + s[3..] && s[3..] == [] && Plain(s[3..])
  {
  }

  lemma MetreSlices(s: string)
    requires s == "m"
    ensures s == "m" + s[1..] && s[1..] == []
  {
  }

  lemma MilliMetreSlices(s: string)
    requires s == "mm"
    ensures s == "mm" + s[2..] && s[2..] == [] && Plain(s[2..]) && !StartsWith(s[2..], "ol")
  {
  }

  lemma PerSecondSquaredSlices(rest: string)
    requires rest == "/s2"
    ensures rest == "/" + rest[1..] && rest[1..] == "s2" + rest[3..] && rest[3..] == []
  {
  }

  /** `/s2` at the end of the text: the second squared, with the sign flipped. */
  lemma PerSecondSquared(order: seq<string>, meaning: map<string, string>, rest: string, top: int, fuel: nat,
                         acc: seq<Triple>, next: seq<Triple>)
    requires WellFormed(order, meaning) && InRange(acc) && "s" !in order
    requires rest == "/s2" && NoCustomAt(order, rest)
    requires next == acc + [Triple(0, 2, -2 * top)]
    ensures Scan(order, meaning, rest, top, fuel, acc) == Ok(next)
  {
    PerSecondSquaredSlices(rest);
    StepSlash(order, meaning, rest, rest[1..], top, fuel, acc);
    assert 2 * Flip(top) == -2 * top;
    SecondSquared(order, meaning, rest[1..], rest[3..], Flip(top), fuel, acc, next);
  }

  lemma MetrePerSecondSquaredSlices(rest: string)
    requires rest == "m/s2"
    ensures rest == "m" + rest[1..] && rest[1..] == "/s2" && rest[1..][0] == '/'
  {
  }

  /** `m/s2` at the end of the text, as in the acceleration and in the
      newton's definition. */
  lemma MetrePerSecondSquared(order: seq<string>, meaning: map<string, string>, rest: string, top: int,
                              fuel: nat, acc: seq<Triple>, next: seq<Triple>)
    requires WellFormed(order, meaning) && InRange(acc) && "m" !in order && "s" !in order
    requires rest == "m/s2" && NoCustomAt(order, rest[1..])
    requires next == acc + [Triple(0, 0, top), Triple(0, 2, -2 * top)]
    ensures Scan(order, meaning, rest, top, fuel, acc) == Ok(next)
  {
    MetrePerSecondSquaredSlices(rest);
    MetreThenPerSecondSquared(order, meaning, rest, rest[1..], top, fuel, acc, acc + [Triple(0, 0, top)], next);
  }

  lemma MetreThenPerSecondSquared(order: seq<string>, meaning: map<string, string>, rest: string, mid: string,
                                  top: int, fuel: nat, acc: seq<Triple>, metre: seq<Triple>, next: seq<Triple>)
    requires WellFormed(order, meaning) && InRange(acc) && "m" !in order && "s" !in order
    requires rest == "m" + mid && mid == "/s2" && mid[0] == '/' && NoCustomAt(order, mid)
    requires metre == acc + [Triple(0, 0, top)] && next == metre + [Triple(0, 2, -2 * top)]
    ensures Scan(order, meaning, rest, top, fuel, acc) == Ok(next)
  {
    InRangeSnoc(acc, Triple(0, 0, top), metre);
    Metre(order, meaning, rest, mid, top, fuel, acc, metre);
    PerSecondSquared(order, meaning, mid, top, fuel, metre, next);
  }

  lemma SteradianSlices(s: string)
    requires s == "sr"
    ensures s == "s" + s[1..] && s[1..] == "r" && Plain(s[1..])
    ensures s[1..][0] !in PrefixHeads && s[1..][0] !in BaseUnitHeads
  {
  }

  // ---- `ms`, `dam` and a bare `da` ----

  lemma MilliSecondSplit(rest: string, tail: string)
    requires rest == "ms" + tail
    ensures rest == "m" + ("s" + tail) && rest == "m" + "s" + "" + tail
    ensures "s" + tail != [] && ("s" + tail)[0] == 's' && "s" + tail == "s" + "" + tail
  {
  }

  lemma MilliSecondStep(order: seq<string>, meaning: map<string, string>, rest: string, tail: string,
                        top: int, fuel: nat, acc: seq<Triple>, next: seq<Triple>)
    requires WellFormed(order, meaning) && InRange(acc) && "s" !in order
    requires rest == "ms" + tail && Plain(tail)
    requires next == acc + [Triple(-3, 2, top)]
    ensures Scan(order, meaning, rest, top, fuel, acc) == Scan(order, meaning, tail, top, fuel, next)
  {
    MilliSecondSplit(rest, tail);
    SecondUnit(order, "s" + tail);
    MilliBefore(order, rest, "s" + tail);
    PrefixConstants();
    PlainReadsNothing(tail);
    SecondConstants(order);
    StepBase(order, meaning, rest, "m", "s", 3, "", tail, None, top, fuel, acc, next);
  }

  lemma DekaSplit(rest: string, tail: string)
    requires rest == "dam" + tail
    ensures rest == "da" + "m" + "" + tail && rest[2..] == "m" + tail && "m" + "" + tail == "m" + tail
    ensures 7 < |PrefixRules| && PrefixRules[7].symbol == "da" && Matches(PrefixRules[7], rest)
    ensures "da" in PrefixExponent && PrefixExponent["da"] == 1
  {
    assert PrefixRules[7] == Rule("da", []);
    StartsWithSlice(rest, "da");
  }

  lemma DekaMetreStep(order: seq<string>, meaning: map<string, string>, rest: string, tail: string,
                      top: int, fuel: nat, acc: seq<Triple>, next: seq<Triple>)
    requires WellFormed(order, meaning) && InRange(acc) && "m" !in order
    requires rest == "dam" + tail && Plain(tail) && !StartsWith(tail, "ol")
    requires next == acc + [Triple(1, 0, top)]
    ensures Scan(order, meaning, rest, top, fuel, acc) == Scan(order, meaning, tail, top, fuel, next)
  {
    DekaSplit(rest, tail);
    MetreFirst(order, "m" + tail, tail);
    PrefixHere(rest, order, 7);
    PlainReadsNothing(tail);
    MetreConstants(order);
    StepBase(order, meaning, rest, "da", "m", 1, "", tail, None, top, fuel, acc, next);
  }

  lemma DekaAloneSlices(s: string)
    requires s == "da"
    ensures s[2..] == [] && s != [] && s[0] !in BaseUnitHeads && s[0] != '*' && !StartsWith(s, "/")
    ensures 7 < |PrefixRules| && PrefixRules[7].symbol == "da" && Matches(PrefixRules[7], s)
    ensures s[|""|..] == s
  {
    assert PrefixRules[7] == Rule("da", []);
    StartsWithSlice(s, "da");
  }

  // ---- A registry holding the newton ----

  /** The registry after `define("N", "kgm/s2")`. */
  lemma NewtonRegistry(order: seq<string>, meaning: map<string, string>)
    requires order == ["N"] && meaning == map["N" := "kgm/s2"]
    ensures WellFormed(order, meaning)
    ensures "m" !in order && "g" !in order && "s" !in order && order[0] != "/"
    ensures "N" in meaning && meaning["N"] == "kgm/s2"
  {
    assert multiset(order) == multiset{"N"};
  }

  lemma NewtonAhead(order: seq<string>, tail: string)
    requires order == ["N"] && tail != [] && tail[0] != 'N'
    ensures NoCustomAt(order, tail)
  {
  }

  lemma NewtonSlices(s: string)
    requires s == "kgm/s2"
    ensures s == "kg" + s[2..] && s[2..] == "m/s2" && Plain(s[2..])
    ensures s[2..][1..] != [] && s[2..][1..][0] != 'N'
  {
  }

  /** `kg` and then `m/s2`, in any registry that names none of the base units. */
  lemma KiloGramThenAcceleration(order: seq<string>, meaning: map<string, string>, s: string, t: string,
                                 top: int, fuel: nat, one: seq<Triple>, three: seq<Triple>)
    requires WellFormed(order, meaning) && "m" !in order && "g" !in order && "s" !in order
    requires s == "kg" + t && t == "m/s2" && Plain(t) && NoCustomAt(order, t[1..])
    requires one == [Triple(3, 1, top)] && three == one + [Triple(0, 0, top), Triple(0, 2, -2 * top)]
    ensures Scan(order, meaning, s, top, fuel, []) == Ok(three)
  {
    InRangeSnoc([], Triple(3, 1, top), one);
    KiloGram(order, meaning, s, t, top, fuel, [], one);
    MetrePerSecondSquared(order, meaning, t, top, fuel, one, three);
  }

  /** The scan of the newton's definition: `kg`, then `m/s2`. */
  lemma NewtonDefinitionScan(order: seq<string>, meaning: map<string, string>, s: string, top: int, fuel: nat)
    requires order == ["N"] && meaning == map["N" := "kgm/s2"] && s == "kgm/s2"
    ensures WellFormed(order, meaning)
    ensures Scan(order, meaning, s, top, fuel, []) ==
            Ok([Triple(3, 1, top), Triple(0, 0, top), Triple(0, 2, -2 * top)])
  {
    var t1, t2, t3 := Triple(3, 1, top), Triple(0, 0, top), Triple(0, 2, -2 * top);
    NewtonRegistry(order, meaning);
    NewtonSlices(s);
    NewtonAhead(order, s[2..][1..]);
    assert [t1] + [t2, t3] == [t1, t2, t3];
    KiloGramThenAcceleration(order, meaning, s, s[2..], top, fuel, [t1], [t1, t2, t3]);
  }

  lemma NewtonDefinitionSorted(top: int)
    ensures Sorted([Triple(0, 0, top), Triple(0, 2, -2 * top), Triple(3, 1, top)], TripleLe)
    ensures multiset([Triple(3, 1, top), Triple(0, 0, top), Triple(0, 2, -2 * top)]) ==
            multiset([Triple(0, 0, top), Triple(0, 2, -2 * top), Triple(3, 1, top)])
  {
  }

  lemma FirstCustomFound(order: seq<string>, rest: string, tail: string)
    requires |order| > 0 && rest == order[0] + tail
    requires rest != [] && rest[0] !in BaseUnitHeads && rest[0] !in PrefixHeads
    ensures FirstMatch(TokenRules(order), order[0] + "" + tail) == Some(|BaseUnitRules| + 0)
    ensures ConsumedPrefix(rest, order) == ""
    ensures rest == "" + order[0] + "" + tail
  {
    assert order[0] + "" + tail == rest == "" + order[0] + "" + tail;
    assert rest[..|order[0]|] == order[0];
    NoPrefixHere(rest, order);
    StartsWithSlice(rest, order[0]);
    CustomFound(order, rest, 0);
  }

  /** The first registered symbol, with no prefix and no exponent. */
  lemma FirstCustom(order: seq<string>, meaning: map<string, string>, rest: string, tail: string,
                    top: int, fuel: nat, acc: seq<Triple>, sub: seq<Triple>, next: seq<Triple>)
    requires WellFormed(order, meaning) && InRange(acc) && fuel > 0
    requires |order| > 0 && order[0] != "/" && rest == order[0] + tail && Plain(tail)
    requires rest != [] && rest[0] !in BaseUnitHeads && rest[0] !in PrefixHeads && rest[0] != '*'
    requires Decompose(order, meaning, meaning[order[0]], top, Nested(fuel)) == Ok(sub)
    requires next == acc + Raise(sub, top)
    ensures Scan(order, meaning, rest, top, fuel, acc) == Scan(order, meaning, tail, top, fuel, next)
  {
    FirstCustomFound(order, rest, tail);
    PlainReadsNothing(tail);
    StepCustom(order, meaning, rest, "", 0, "", tail, None, top, fuel, acc, sub, next);
  }

  /** The first registered symbol, with an exponent. */
  lemma FirstCustomPowered(order: seq<string>, meaning: map<string, string>, rest: string, mid: string,
                           expo: string, tail: string, digits: Option<nat>, top: int, fuel: nat, acc: seq<Triple>,
                           sub: seq<Triple>, next: seq<Triple>)
    requires WellFormed(order, meaning) && InRange(acc) && fuel > 0
    requires |order| > 0 && order[0] != "/" && rest == order[0] + mid && mid == expo + tail
    requires ReadsExponent(expo, tail, digits)
    requires rest != [] && rest[0] !in BaseUnitHeads && rest[0] !in PrefixHeads && rest[0] != '*'
    requires Decompose(order, meaning, meaning[order[0]], top, Nested(fuel)) == Ok(sub)
    requires next == acc + Raise(sub, Exponent(digits, top))
    ensures Scan(order, meaning, rest, top, fuel, acc) == Scan(order, meaning, tail, top, fuel, next)
  {
    FirstCustomFound(order, rest, mid);
    AtomSplit(order[0], mid, expo, tail, rest);
    StepCustom(order, meaning, rest, "", 0, expo, tail, digits, top, fuel, acc, sub, next);
  }

  lemma AtomSplit(unit: string, mid: string, expo: string, tail: string, rest: string)
    requires rest == unit + mid && mid == expo + tail
    ensures rest == "" + unit + expo + tail && unit + "" + mid == unit + expo + tail
  {
  }

  lemma NewtonHeads(rest: string, tail: string)
    requires rest == "N" + tail
    ensures rest != [] && rest[0] !in BaseUnitHeads && rest[0] !in PrefixHeads && rest[0] != '*'
  {
  }

  lemma RaiseByOne(ts: seq<Triple>)
    ensures Raise(ts, 1) == ts
  {
  }

  lemma PerNewtonSlices(s: string)
    requires s == "m/N"
    ensures s == "m" + s[1..] && s[1..] == "/N"
    ensures s[1..][0] == '/' && s[1..][0] != 'N' && s[1..] != []
  {
  }

  lemma PerNewtonRaised(m: Triple)
    requires m == Triple(0, 0, 1)
    ensures [m] + Raise([Triple(0, 0, -1), Triple(0, 2, -2 * -1), Triple(3, 1, -1)], -1) ==
            [Triple(0, 0, 1), Triple(0, 0, 1), Triple(0, 2, -2), Triple(3, 1, 1)]
  {
    assert Raise([Triple(0, 0, -1), Triple(0, 2, 2), Triple(3, 1, -1)], -1) ==
           [Triple(0, 0, 1), Triple(0, 2, -2), Triple(3, 1, 1)];
  }

  lemma LoneSymbol(rest: string)
    requires |rest| == 1
    ensures rest == rest[..1] + rest[1..] && rest[1..] == [] && Plain(rest[1..])
  {
  }

  lemma MetrePerNewtonSorted()
    ensures Sorted([Triple(0, 0, 1), Triple(0, 0, 1), Triple(0, 2, -2), Triple(3, 1, 1)], TripleLe)
  {
  }

  lemma SelfReferenceRegistry(order: seq<string>, meaning: map<string, string>)
    requires order == ["X"] && meaning == map["X" := "X"]
    ensures WellFormed(order, meaning)
  {
    assert multiset(order) == multiset{"X"};
  }

  /** `X` alone is read as the custom unit `X`, with no prefix and no exponent. */
  lemma SelfReferenceToken(order: seq<string>, s: string)
    requires order == ["X"] && s == "X"
    ensures ReadToken(order, s) == CustomUnit(|s|, s, None)
  {
    SelfReferenceText(order, s);
    FirstCustomFound(order, s, []);
    PlainReadsNothing([]);
    ReadsAtom(order, s, "", "X", |BaseUnitRules| + 0, "", [], None);
  }

  lemma SelfReferenceText(order: seq<string>, s: string)
    requires order == ["X"] && s == "X"
    ensures s == order[0] + [] && s[0] !in BaseUnitHeads && s[0] !in PrefixHeads && s[0] != '*'
    ensures forall u :: u in order ==> u != []
    ensures |BaseUnitRules| + 0 < |TokenRules(order)| && TokenRules(order)[|BaseUnitRules| + 0].symbol == "X"
  {
    assert TokenRules(order)[|BaseUnitRules| + 0] == CustomRules(order)[0];
  }

  // ---- `*` and a second `/` ----

  /** `*` is skipped: the scan goes on after it and appends nothing. */
  lemma StepStar(order: seq<string>, meaning: map<string, string>, rest: string, tail: string,
                 top: int, fuel: nat, acc: seq<Triple>)
    requires WellFormed(order, meaning) && InRange(acc)
    requires rest == "*" + tail
    ensures Scan(order, meaning, rest, top, fuel, acc) == Scan(order, meaning, tail, top, fuel, acc)
  {
    assert rest[0] == '*' && rest[1..] == tail;
    ScanStep(order, meaning, rest, top, fuel, acc);
  }

  /** `m/` at the start of the text: the metre, then the sign flips. */
  lemma MetreThenSlash(s: string, tail: string, fuel: nat)
    requires s == "m/" + tail
    ensures WellFormed([], map[])
    ensures Scan([], map[], s, 1, fuel, []) == Scan([], map[], tail, -1, fuel, [Triple(0, 0, 1)])
  {
    var m := Triple(0, 0, 1);
    EmptyRegistry();
    assert s == "m" + s[1..] && s[1..] == "/" + tail && s[1..][0] == '/';
    InRangeSnoc([], m, [m]);
    Metre([], map[], s, s[1..], 1, fuel, [], [m]);
    StepSlash([], map[], s[1..], tail, 1, fuel, [m]);
    assert Flip(1) == -1;
  }

  lemma SecondTimesSecond(r: string, fuel: nat, acc: seq<Triple>, mid: seq<Triple>, next: seq<Triple>)
    requires r == "s*s" && InRange(acc)
    requires mid == acc + [Triple(0, 2, -1)] && next == mid + [Triple(0, 2, -1)]
    ensures WellFormed([], map[])
    ensures Scan([], map[], r, -1, fuel, acc) == Ok(next)
  {
    EmptyRegistry();
    SecondThenRest(r, "*s");
    InRangeSnoc(acc, Triple(0, 2, -1), mid);
    Second([], map[], r, r[1..], -1, fuel, acc, mid);
    TimesSecond(r[1..], fuel, mid, next);
  }

  lemma SecondThenRest(r: string, rest: string)
    requires r == "s" + rest && rest != [] && !IsDigit(rest[0]) && rest[0] != '^'
    ensures r == "s" + r[1..] && r[1..] == rest && Plain(r[1..])
  {
  }

  /** `*s` at the end of the text, after `/`. */
  lemma TimesSecond(r: string, fuel: nat, acc: seq<Triple>, next: seq<Triple>)
    requires r == "*s" && InRange(acc) && next == acc + [Triple(0, 2, -1)]
    ensures WellFormed([], map[])
    ensures Scan([], map[], r, -1, fuel, acc) == Ok(next)
  {
    EmptyRegistry();
    assert r == "*" + r[1..] && r[1..] == "s" + r[2..] && r[2..] == [] && Plain(r[2..]);
    StepStar([], map[], r, r[1..], -1, fuel, acc);
    Second([], map[], r[1..], r[2..], -1, fuel, acc, next);
  }

  lemma PerSecondTimesSecondScan(s: string, t: string, fuel: nat, one: seq<Triple>, two: seq<Triple>,
                                  three: seq<Triple>)
    requires s == "m/" + t && t == "s*s"
    requires one == [Triple(0, 0, 1)] && two == one + [Triple(0, 2, -1)] && three == two + [Triple(0, 2, -1)]
    ensures WellFormed([], map[])
    ensures Scan([], map[], s, 1, fuel, []) == Ok(three)
  {
    MetreThenSlash(s, t, fuel);
    SecondTimesSecond(t, fuel, one, two, three);
  }

  lemma SecondPerSecond(r: string, fuel: nat, acc: seq<Triple>, mid: seq<Triple>, next: seq<Triple>)
    requires r == "s/s" && InRange(acc)
    requires mid == acc + [Triple(0, 2, -1)] && next == mid + [Triple(0, 2, 1)]
    ensures WellFormed([], map[])
    ensures Scan([], map[], r, -1, fuel, acc) == Ok(next)
  {
    EmptyRegistry();
    SecondThenRest(r, "/s");
    InRangeSnoc(acc, Triple(0, 2, -1), mid);
    Second([], map[], r, r[1..], -1, fuel, acc, mid);
    PerSecondAgain(r[1..], fuel, mid, next);
  }

  /** `/s` at the end of the text, after a first `/`: the sign is back to one. */
  lemma PerSecondAgain(r: string, fuel: nat, acc: seq<Triple>, next: seq<Triple>)
    requires r == "/s" && InRange(acc) && next == acc + [Triple(0, 2, 1)]
    ensures WellFormed([], map[])
    ensures Scan([], map[], r, -1, fuel, acc) == Ok(next)
  {
    EmptyRegistry();
    assert r == "/" + r[1..] && r[1..] == "s" + r[2..] && r[2..] == [] && Plain(r[2..]);
    StepSlash([], map[], r, r[1..], -1, fuel, acc);
    assert Flip(-1) == 1;
    Second([], map[], r[1..], r[2..], 1, fuel, acc, next);
  }

  lemma PerSecondPerSecondScan(s: string, t: string, fuel: nat, one: seq<Triple>, two: seq<Triple>,
                                 three: seq<Triple>)
    requires s == "m/" + t && t == "s/s"
    requires one == [Triple(0, 0, 1)] && two == one + [Triple(0, 2, -1)] && three == two + [Triple(0, 2, 1)]
    ensures WellFormed([], map[])
    ensures Scan([], map[], s, 1, fuel, []) == Ok(three)
  {
    MetreThenSlash(s, t, fuel);
    SecondPerSecond(t, fuel, one, two, three);
  }

  // ---- The newton squared ----

  /** The exponent `^2` at the end of the text. */
  lemma CaretSquared()
    ensures ReadsExponent("^2", [], Some(2))
  {
    var s := "^2" + [];
    assert s[0] == '^' && s[1..] == "2";
    assert "2"[1..] == [] && DigitRun("2") == 1;
    assert s[1..2] == "2" && "2"[..0] == [];
    assert DigitsValue("2") == 2;
  }

  lemma NewtonSquaredRaised(v: seq<Triple>, w: seq<Triple>)
    requires v == [Triple(0, 0, 1), Triple(0, 2, -2), Triple(3, 1, 1)]
    requires w == [Triple(0, 0, 2), Triple(0, 2, -4), Triple(3, 1, 2)]
    ensures w == [] + Raise(v, Exponent(Some(2), 1))
  {
    assert Exponent(Some(2), 1) == 2;
  }

  lemma NewtonSquaredText(order: seq<string>, s: string)
    requires order == ["N"] && s == "N^2"
    ensures |order| > 0 && order[0] != "/" && s == order[0] + s[1..] && s[1..] == "^2" + []
    ensures s != [] && s[0] !in BaseUnitHeads && s[0] !in PrefixHeads && s[0] != '*'
    ensures ReadsExponent("^2", [], Some(2))
  {
    NewtonHeads(s, "^2");
    CaretSquared();
  }

  // ---- A registry holding `W` and `Wb` ----

  lemma WeberText(order: seq<string>, s: string)
    requires order == ["W", "Wb"] && s == "Wb"
    ensures s == order[0] + "b" && s[0] !in BaseUnitHeads && s[0] !in PrefixHeads && s[0] != '*'
    ensures forall u :: u in order ==> u != []
    ensures |BaseUnitRules| + 0 < |TokenRules(order)| && TokenRules(order)[|BaseUnitRules| + 0].symbol == "W"
    ensures Plain("b") && "b"[0] !in PrefixHeads && "b"[0] !in BaseUnitHeads && "b"[0] != '/' && "b"[0] != '*'
    ensures NoCustomAt(order, "b")
  {
    assert TokenRules(order)[|BaseUnitRules| + 0] == CustomRules(order)[0];
  }

  /** `Wb` starts with the registered `W`, which comes first in the sorted list. */
  lemma WeberToken(order: seq<string>, s: string)
    requires order == ["W", "Wb"] && s == "Wb"
    ensures ReadToken(order, s) == CustomUnit(1, "W", None) && s[1..] == "b"
  {
    WeberText(order, s);
    FirstCustomFound(order, s, "b");
    PlainReadsNothing("b");
    ReadsAtom(order, s, "", "W", |BaseUnitRules| + 0, "", "b", None);
  }

  // ---- A prefix before a custom unit: `dC` beside `C` ----

  lemma CoulombText(order: seq<string>)
    requires order == ["C", "dC"]
    ensures "C" == order[0] + [] && "C"[0] !in BaseUnitHeads && "C"[0] !in PrefixHeads && "C"[0] != '*'
    ensures forall u :: u in order ==> u != []
    ensures |BaseUnitRules| + 0 < |TokenRules(order)| && TokenRules(order)[|BaseUnitRules| + 0].symbol == "C"
    ensures "dC" == "d" + "C" + "" + [] && "dC"[0] != '*' && "dC"[1..] == "C"
    ensures 8 < |PrefixRules| && PrefixRules[8].symbol == "d" && Matches(PrefixRules[8], "dC")
  {
    assert TokenRules(order)[|BaseUnitRules| + 0] == CustomRules(order)[0];
    assert PrefixRules[8] == Rule("d", [Text("a")]);
    assert "dC"[1..] == "C";
    assert !LookaheadMatches(Text("a"), "C");
  }

  lemma CoulombTokens(order: seq<string>)
    requires order == ["C", "dC"]
    ensures ReadToken(order, "C") == CustomUnit(1, "C", None)
    ensures ReadToken(order, "dC") == CustomUnit(2, "C", None)
  {
    CoulombText(order);
    FirstCustomFound(order, "C", []);
    PlainReadsNothing([]);
    ReadsAtom(order, "C", "", "C", |BaseUnitRules| + 0, "", [], None);
    CustomUnitFound(order, "C", 0);
    PrefixHere("dC", order, 8);
    ReadsAtom(order, "dC", "d", "C", |BaseUnitRules| + 0, "", [], None);
  }

  // ---- The empty unit, and two units of one kind ----

  lemma KiloMetreAlone(s: string, fuel: nat)
    requires s == "km"
    ensures Decompose([], map[], s, 1, fuel) == Ok([Triple(3, 0, 1)])
  {
    var t := Triple(3, 0, 1);
    EmptyRegistry();
    assert s == "km" + s[2..] && s[2..] == [] && Plain(s[2..]) && !StartsWith(s[2..], "ol");
    KiloMetre([], map[], s, s[2..], 1, fuel, [], [t]);
    DecomposeAs([], map[], s, 1, fuel, [t], [t]);
  }

  lemma KiloMetreTotals()
    ensures Totals([Triple(3, 0, 1)], Power) == Totals([Triple(0, 0, 1)], Power)
    ensures Totals([Triple(3, 0, 1)], Scaled) != Totals([Triple(0, 0, 1)], Scaled)
  {
    var a, b := Triple(3, 0, 1), Triple(0, 0, 1);
    assert [a][1..] == [] && [b][1..] == [];
    assert Totals([a], Scaled)[0] == DimSum([a], 0, Scaled) == 3;
    assert Totals([b], Scaled)[0] == DimSum([b], 0, Scaled) == 0;
    forall i | 0 <= i < 7
      ensures DimSum([a], i, Power) == DimSum([b], i, Power)
    {
      assert DimSum([a], i, Power) == Contribution(a, i, Power) + DimSum([], i, Power);
      assert DimSum([b], i, Power) == Contribution(b, i, Power) + DimSum([], i, Power);
    }
  }
}
