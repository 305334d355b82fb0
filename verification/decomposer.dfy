/** `PMat._decomposeUnit`: turns a unit string into a sorted list of
    `[prefix exponent, dimension index, power]` triples. `Scan` and `Decompose`
    state what the scan computes; `DecomposeUnit` is the scan itself, a loop
    over a cursor, proved to compute it. */
module Decomposer {
  import opened Results
  import opened Sorting
  import opened Symbols
  import opened CustomUnits

  /** One parsed unit atom: the power of ten of its prefix, its slot in the
      per-dimension arrays, and its power (already signed). */
  datatype Triple = Triple(prefix: int, dim: int, power: int)

  /** Python's order on the three-element lists: lexicographic. */
  predicate TripleLe(a: Triple, b: Triple)
  {
    || a.prefix < b.prefix
    || (a.prefix == b.prefix && (a.dim < b.dim || (a.dim == b.dim && a.power <= b.power)))
  }

  /** A triple as the list `[prefix, index, exponent]` the source stores. */
  function Key(t: Triple): seq<int>
  {
    [t.prefix, t.dim, t.power]
  }

  /** `TripleLe` is Python's comparison of those lists: they are equal, or the
      first is smaller at the first position where they differ. */
  lemma TripleLeIsListOrder(a: Triple, b: Triple)
    ensures TripleLe(a, b) <==>
            Key(a) == Key(b) || exists k :: 0 <= k < 3 && Key(a)[..k] == Key(b)[..k] && Key(a)[k] < Key(b)[k]
  {
    var x, y := Key(a), Key(b);
    assert x[..0] == y[..0];
    assert a.prefix == b.prefix ==> x[..1] == y[..1];
    assert a.prefix == b.prefix && a.dim == b.dim ==> x[..2] == y[..2];
    forall k | 0 < k < 3 && x[..k] == y[..k]
      ensures a.prefix == b.prefix && (k == 2 ==> a.dim == b.dim)
    {
      assert x[..k][0] == y[..k][0];
      if k == 2 {
        assert x[..k][1] == y[..k][1];
      }
    }
  }

  lemma TripleLeTotalOrder()
    ensures Total(TripleLe) && Transitive(TripleLe) && Antisymmetric(TripleLe)
  {
  }

  /** Every triple names one of the seven stored dimensions. */
  predicate InRange(ts: seq<Triple>)
  {
    forall t :: t in ts ==> 0 <= t.dim < 7
  }

  lemma InRangeSnoc(ts: seq<Triple>, t: Triple, next: seq<Triple>)
    requires InRange(ts) && 0 <= t.dim < 7 && next == ts + [t]
    ensures InRange(next)
  {
  }

  /** The triples of an expanded custom unit, each power multiplied by `k`. */
  function Raise(ts: seq<Triple>, k: int): (r: seq<Triple>)
    ensures |r| == |ts|
    ensures forall i :: 0 <= i < |ts| ==> r[i] == ts[i].(power := ts[i].power * k)
    ensures InRange(ts) ==> InRange(r)
  {
    if ts == [] then [] else [ts[0].(power := ts[0].power * k)] + Raise(ts[1..], k)
  }

  lemma TokenSymbolNonEmpty(order: seq<string>, k: nat)
    requires forall u :: u in order ==> u != []
    requires k < |TokenRules(order)|
    ensures TokenRules(order)[k].symbol != []
  {
    var n := |BaseUnitRules|;
    if k < n {
      BaseUnitHead(k);
      assert TokenRules(order)[k] == BaseUnitRules[k];
    } else if k < n + |order| {
      assert TokenRules(order)[k] == Rule(order[k - n], []);
      assert order[k - n] in order;
    } else {
      assert TokenRules(order)[k] == Divide;
    }
  }

  /** A token that is neither `/` nor a custom symbol is a base unit. */
  lemma TokenIsBaseUnit(order: seq<string>, k: nat)
    requires k < |TokenRules(order)|
    requires TokenRules(order)[k].symbol !in order && TokenRules(order)[k].symbol != "/"
    ensures k < |BaseUnitRules| && TokenRules(order)[k] == BaseUnitRules[k]
    ensures TokenRules(order)[k].symbol in DimensionIndex
    ensures 0 <= DimensionIndex[TokenRules(order)[k].symbol] < 7
  {
    if k < |BaseUnitRules| {
      assert TokenRules(order)[k] == BaseUnitRules[k];
    }
  }

  /** What one step of the scan reads at the cursor: a `*` to skip, a `/`,
      a base unit with its prefix, a custom unit (its prefix is read and
      dropped), or nothing the unit pattern accepts. `width` is how far the
      cursor moves, `digits` the exponent written after the unit, if any. */
  datatype Token =
    | Star
    | Slash(width: nat)
    | BaseUnit(width: nat, prefix: int, dim: int, digits: Option<nat>)
    | CustomUnit(width: nat, symbol: string, digits: Option<nat>)
    | Unknown(rest: string)

  /** One iteration's matching: the optional prefix (`ConsumedPrefix`), then
      the first of the base units, the custom units in `order` and `/` that
      the text starts with, then an optional `^` and digit run. */
  function ReadToken(order: seq<string>, rest: string): (t: Token)
    requires rest != []
    requires forall u :: u in order ==> u != []
    ensures t.Star? <==> rest[0] == '*'
    ensures t.Slash? || t.BaseUnit? || t.CustomUnit? ==> 0 < t.width <= |rest|
    ensures t.BaseUnit? ==> 0 <= t.dim < 7
    ensures t.CustomUnit? ==> t.symbol in order
    ensures t.Unknown? ==> rest[0] != '*' && t.rest == rest[|ConsumedPrefix(rest, order)|..] &&
                           FirstMatch(TokenRules(order), t.rest).None?
  {
    if rest[0] == '*' then Star
    else
      var prefix := ConsumedPrefix(rest, order);
      var afterPrefix := rest[|prefix|..];
      match FirstMatch(TokenRules(order), afterPrefix)
      case None => Unknown(afterPrefix)
      case Some(k) =>
        TokenSymbolNonEmpty(order, k);
        var unit := TokenRules(order)[k].symbol;
        var afterUnit := afterPrefix[|unit|..];
        if unit == "/" then Slash(|prefix| + |unit|)
        else
          var digits := match ParseExponent(afterUnit) case None => None case Some(e) => Some(e.0);
          var used := match ParseExponent(afterUnit) case None => 0 case Some(e) => e.1;
          var width := |prefix| + |unit| + used;
          if unit in order then CustomUnit(width, unit, digits)
          else
            TokenIsBaseUnit(order, k);
            BaseUnit(width, PrefixExponent[prefix], DimensionIndex[unit], digits)
  }

  /** The signed exponent of an atom: its digits (one when absent) times the
      running sign. It is zero only for a zero sign or a written `0`, and under
      a sign of one or minus one the sign gives back the exponent as written. */
  function Exponent(digits: Option<nat>, top: int): (e: int)
    ensures e == 0 <==> top == 0 || digits == Some(0)
    ensures top == 1 || top == -1 ==> e * top == (match digits case None => 1 case Some(d) => d)
  {
    match digits
    case None => top
    case Some(d) => d * top
  }

  // `Nested` and `Flip` name the two integer terms of the scan, so that the
  // loop of `ScanUnits` and the specification `Scan` share one term each
  // (`Nested(fuel)`, `Flip(top)`) instead of leaving the solver to show that
  // separately built `fuel - 1` and `-top` are equal.

  /** The nesting depth left to the expansion of a custom unit's definition. */
  function Nested(fuel: nat): nat
    requires fuel > 0
  {
    fuel - 1
  }

  /** The running sign after a `/`. */
  function Flip(top: int): int
  {
    -top
  }

  /** The scan of `_decomposeUnit` from the cursor on: `rest` is the text not yet
      read, `top` the running sign, `acc` the triples appended so far (unsorted).
      `/` flips the sign for the rest of the text. A custom unit is replaced by
      the decomposition of its definition, taken with the same sign `top`, with
      every power multiplied by the atom's signed exponent; a prefix before it
      is dropped. */
  function Scan(order: seq<string>, meaning: map<string, string>, rest: string, top: int,
                fuel: nat, acc: seq<Triple>): (r: Result<seq<Triple>>)
    requires WellFormed(order, meaning)
    requires InRange(acc)
    ensures r.Ok? ==> InRange(r.value)
    decreases fuel, 0, |rest|
  {
    if rest == [] then Ok(acc)
    else match ReadToken(order, rest)
      case Star => Scan(order, meaning, rest[1..], top, fuel, acc)
      case Unknown(after) => Err(NoUnitFound(after))
      case Slash(w) => Scan(order, meaning, rest[w..], Flip(top), fuel, acc)
      case BaseUnit(w, prefix, dim, digits) =>
        Scan(order, meaning, rest[w..], top, fuel, acc + [Triple(prefix, dim, Exponent(digits, top))])
      case CustomUnit(w, unit, digits) =>
        if fuel == 0 then Err(RecursionLimit(unit))
        else match Decompose(order, meaning, meaning[unit], top, Nested(fuel))
          case Err(f) => Err(f)
          case Ok(sub) => Scan(order, meaning, rest[w..], top, fuel, acc + Raise(sub, Exponent(digits, top)))
  }

  /** One unfolding of `Scan`, case by case on the token at the cursor. */
  lemma ScanStep(order: seq<string>, meaning: map<string, string>, rest: string, top: int,
                 fuel: nat, acc: seq<Triple>)
    requires WellFormed(order, meaning) && InRange(acc) && rest != []
    ensures var t := ReadToken(order, rest);
      && (t.Star? ==> Scan(order, meaning, rest, top, fuel, acc) == Scan(order, meaning, rest[1..], top, fuel, acc))
      && (t.Unknown? ==> Scan(order, meaning, rest, top, fuel, acc) == Err(NoUnitFound(t.rest)))
      && (t.Slash? ==>
            Scan(order, meaning, rest, top, fuel, acc) == Scan(order, meaning, rest[t.width..], Flip(top), fuel, acc))
      && (t.BaseUnit? ==>
            Scan(order, meaning, rest, top, fuel, acc) ==
            Scan(order, meaning, rest[t.width..], top, fuel, acc + [Triple(t.prefix, t.dim, Exponent(t.digits, top))]))
      && (t.CustomUnit? ==> t.symbol in meaning)
      && (t.CustomUnit? && fuel == 0 ==> Scan(order, meaning, rest, top, fuel, acc) == Err(RecursionLimit(t.symbol)))
  {
  }

  /** The unfolding of `Scan` at a custom unit, once its definition has been
      decomposed (with one less level of nesting) into `sub`. */
  lemma ScanCustomStep(order: seq<string>, meaning: map<string, string>, rest: string, top: int,
                       fuel: nat, acc: seq<Triple>, sub: Result<seq<Triple>>)
    requires WellFormed(order, meaning) && InRange(acc) && rest != [] && fuel > 0
    requires ReadToken(order, rest).CustomUnit? && ReadToken(order, rest).symbol in meaning
    requires sub == Decompose(order, meaning, meaning[ReadToken(order, rest).symbol], top, Nested(fuel))
    ensures sub.Err? ==> Scan(order, meaning, rest, top, fuel, acc) == Err(sub.failure)
    ensures sub.Ok? ==>
      Scan(order, meaning, rest, top, fuel, acc) ==
      Scan(order, meaning, rest[ReadToken(order, rest).width..], top, fuel,
           acc + Raise(sub.value, Exponent(ReadToken(order, rest).digits, top)))
  {
  }

  /** `_decomposeUnit(s, top)` with custom units tried in `order`: the scan's
      triples in ascending order. `fuel` bounds how deeply custom units may
      nest. */
  function Decompose(order: seq<string>, meaning: map<string, string>, s: string, top: int,
                     fuel: nat): (r: Result<seq<Triple>>)
    requires WellFormed(order, meaning)
    ensures r.Ok? ==> InRange(r.value) && Sorted(r.value, TripleLe)
    decreases fuel, 1, 0
  {
    match Scan(order, meaning, s, top, fuel, [])
    case Err(f) => Err(f)
    case Ok(v) =>
      TripleLeTotalOrder();
      SortSorted(v, TripleLe);
      var sorted := InsertionSort(v, TripleLe);
      assert forall t :: t in sorted <==> t in multiset(v);
      Ok(sorted)
  }

  /** Decomposing is sorting the scan: a scan that fails gives its failure, and
      a scan that succeeds gives any sorted permutation of its triples (there
      is exactly one). */
  lemma DecomposeAs(order: seq<string>, meaning: map<string, string>, s: string, top: int, fuel: nat,
                    v: seq<Triple>, w: seq<Triple>)
    requires WellFormed(order, meaning)
    ensures Scan(order, meaning, s, top, fuel, []).Err? ==>
              Decompose(order, meaning, s, top, fuel) == Err(Scan(order, meaning, s, top, fuel, []).failure)
    ensures Scan(order, meaning, s, top, fuel, []) == Ok(v) && Sorted(w, TripleLe) && multiset(v) == multiset(w) ==>
              Decompose(order, meaning, s, top, fuel) == Ok(w)
  {
    if Scan(order, meaning, s, top, fuel, []) == Ok(v) && Sorted(w, TripleLe) && multiset(v) == multiset(w) {
      TripleLeTotalOrder();
      SortSorted(v, TripleLe);
      SortedPermutationUnique(InsertionSort(v, TripleLe), w, TripleLe);
    }
  }

  /** `_decomposeUnit` as the source runs it: it sorts the registry's symbol
      list in place (through `_re_cu`), scans the text and sorts the triples.
      The result is the specification `Decompose` over the sorted symbol list. */
  method DecomposeUnit(reg: Registry, s: string, top: int, fuel: nat) returns (r: Result<seq<Triple>>)
    requires reg.Valid()
    modifies reg
    ensures reg.Valid() && reg.meaning == old(reg.meaning)
    ensures reg.symbols == InsertionSort(old(reg.symbols), StrLe)
    ensures r == Decompose(reg.symbols, reg.meaning, s, top, fuel)
    decreases fuel, 1
  {
    reg.SortSymbols();
    SortedUnchanged(reg.symbols, StrLe);
    var scanned := ScanUnits(reg, s, top, fuel);
    if scanned.Err? {
      return Err(scanned.failure);
    }
    TripleLeTotalOrder();
    r := Ok(InsertionSort(scanned.value, TripleLe));
  }

  /** The loop of `_decomposeUnit`: a cursor `pos` moves along `s` while the
      running sign flips at each `/`; a base unit appends one triple, a custom
      unit the raised triples of its own decomposition. The registry's list is
      already sorted, so the nested calls leave it as it is. */
  method ScanUnits(reg: Registry, s: string, top: int, fuel: nat) returns (r: Result<seq<Triple>>)
    requires reg.Valid() && InsertionSort(reg.symbols, StrLe) == reg.symbols
    modifies reg
    ensures reg.Valid() && reg.symbols == old(reg.symbols) && reg.meaning == old(reg.meaning)
    ensures r == Scan(reg.symbols, reg.meaning, s, top, fuel, [])
    decreases fuel, 0
  {
    var order := reg.symbols;
    ghost var meaning := reg.meaning;
    var vector: seq<Triple> := [];
    var pos := 0;
    var sign := top;
    ghost var goal := Scan(order, meaning, s, top, fuel, []);
    while pos < |s|
      invariant pos <= |s|
      invariant reg.Valid() && reg.symbols == order && reg.meaning == meaning
      invariant InRange(vector)
      invariant Scan(order, meaning, s[pos..], sign, fuel, vector) == goal
      decreases |s| - pos
    {
      var rest := s[pos..];
      ScanStep(order, meaning, rest, sign, fuel, vector);
      var token := ReadToken(order, rest);
      var width := 1;
      if token.Unknown? {
        return Err(NoUnitFound(token.rest));
      } else if token.Slash? {
        width := token.width;
        sign := Flip(sign);
      } else if token.BaseUnit? {
        width := token.width;
        vector := vector + [Triple(token.prefix, token.dim, Exponent(token.digits, sign))];
      } else if token.CustomUnit? {
        if fuel == 0 {
          return Err(RecursionLimit(token.symbol));
        }
        var sub := DecomposeUnit(reg, reg.meaning[token.symbol], sign, Nested(fuel));
        ScanCustomStep(order, meaning, rest, sign, fuel, vector, sub);
        if sub.Err? {
          return Err(sub.failure);
        }
        width := token.width;
        vector := AppendRaised(vector, sub.value, Exponent(token.digits, sign));
      }
      var next := pos + width;
      SliceAfter(s, rest, pos, width, next);
      pos := next;
    }
    assert s[pos..] == [];
    r := Ok(vector);
  }

  /** Moving the cursor by `width` over `rest`, the text from `pos` on. */
  lemma SliceAfter(s: string, rest: string, pos: nat, width: nat, next: nat)
    requires pos <= |s| && rest == s[pos..] && width <= |rest| && next == pos + width
    ensures s[next..] == rest[width..]
  {
  }

  /** The inner loop that copies a custom unit's triples, each power
      multiplied by the atom's exponent. */
  method AppendRaised(vector: seq<Triple>, sub: seq<Triple>, exponent: int) returns (v: seq<Triple>)
    ensures v == vector + Raise(sub, exponent)
  {
    v := vector;
    var j := 0;
    while j < |sub|
      invariant j <= |sub|
      invariant v == vector + Raise(sub[..j], exponent)
    {
      var t := sub[j];
      var w := v + [t.(power := t.power * exponent)];
      RaisedStep(vector, sub, j, exponent, v, w);
      v := w;
      j := j + 1;
    }
    assert sub[..j] == sub;
  }

  /** One more triple copied: the raised prefix grows by one. */
  lemma RaisedStep(vector: seq<Triple>, sub: seq<Triple>, j: nat, exponent: int, v: seq<Triple>, w: seq<Triple>)
    requires j < |sub| && v == vector + Raise(sub[..j], exponent)
    requires w == v + [sub[j].(power := sub[j].power * exponent)]
    ensures w == vector + Raise(sub[..j + 1], exponent)
  {
    var t := sub[j];
    var x := t.(power := t.power * exponent);
    assert sub[..j + 1] == sub[..j] + [t];
    RaiseAppend(sub[..j], [t], exponent);
    assert Raise([t], exponent) == [x];
    assert vector + Raise(sub[..j], exponent) + [x] == vector + (Raise(sub[..j], exponent) + [x]);
  }

  /** `Raise` distributes over concatenation. */
  lemma {:induction false} RaiseAppend(a: seq<Triple>, b: seq<Triple>, k: int)
    ensures Raise(a + b, k) == Raise(a, k) + Raise(b, k)
    decreases |a|
  {
    if a == [] {
      assert a + b == b;
    } else {
      var x := a[0].(power := a[0].power * k);
      assert (a + b)[0] == a[0] && (a + b)[1..] == a[1..] + b;
      RaiseAppend(a[1..], b, k);
      assert [x] + (Raise(a[1..], k) + Raise(b, k)) == [x] + Raise(a[1..], k) + Raise(b, k);
    }
  }

  lemma ExponentUnderFlip(digits: Option<nat>, top: int)
    ensures Exponent(digits, Flip(top)) == Exponent(digits, top) * -1
  {
  }

  /** The scan's result with every power multiplied by `k`; errors unchanged. */
  function RaiseResult(r: Result<seq<Triple>>, k: int): Result<seq<Triple>>
  {
    match r
    case Err(f) => Err(f)
    case Ok(v) => Ok(Raise(v, k))
  }

  /** The `/` flip is sticky: with no custom units defined, scanning the rest
      of the text under the flipped sign yields exactly the negated powers,
      so every atom after a `/` is negated until the next `/` flips it back. */
  lemma {:induction false} ScanUnderFlip(meaning: map<string, string>, rest: string, top: int,
                                         fuel: nat, acc: seq<Triple>)
    requires WellFormed([], meaning) && InRange(acc)
    ensures Scan([], meaning, rest, Flip(top), fuel, Raise(acc, -1)) ==
            RaiseResult(Scan([], meaning, rest, top, fuel, acc), -1)
    decreases |rest|
  {
    if rest != [] {
      ScanStep([], meaning, rest, top, fuel, acc);
      ScanStep([], meaning, rest, Flip(top), fuel, Raise(acc, -1));
      match ReadToken([], rest)
      case Star => ScanUnderFlip(meaning, rest[1..], top, fuel, acc);
      case Unknown(_) =>
      case Slash(w) => ScanUnderFlip(meaning, rest[w..], Flip(top), fuel, acc);
      case BaseUnit(w, prefix, dim, digits) =>
        var t := Triple(prefix, dim, Exponent(digits, top));
        RaiseAppend(acc, [t], -1);
        ExponentUnderFlip(digits, top);
        assert Raise([t], -1) == [Triple(prefix, dim, Exponent(digits, Flip(top)))];
        ScanUnderFlip(meaning, rest[w..], top, fuel, acc + [t]);
    }
  }

  /** More nesting depth never changes a decomposition that succeeded: the
      depth bound only cuts off expansions that would recurse further. */
  lemma {:induction false} ScanFuelMonotone(order: seq<string>, meaning: map<string, string>, rest: string,
                                            top: int, fuel: nat, more: nat, acc: seq<Triple>)
    requires WellFormed(order, meaning) && InRange(acc) && fuel <= more
    requires Scan(order, meaning, rest, top, fuel, acc).Ok?
    ensures Scan(order, meaning, rest, top, more, acc) == Scan(order, meaning, rest, top, fuel, acc)
    decreases fuel, 0, |rest|
  {
    if rest != [] {
      ScanStep(order, meaning, rest, top, fuel, acc);
      ScanStep(order, meaning, rest, top, more, acc);
      match ReadToken(order, rest)
      case Star => ScanFuelMonotone(order, meaning, rest[1..], top, fuel, more, acc);
      case Unknown(_) =>
      case Slash(w) => ScanFuelMonotone(order, meaning, rest[w..], Flip(top), fuel, more, acc);
      case BaseUnit(w, prefix, dim, digits) =>
        ScanFuelMonotone(order, meaning, rest[w..], top, fuel, more,
                         acc + [Triple(prefix, dim, Exponent(digits, top))]);
      case CustomUnit(w, unit, digits) =>
        if fuel > 0 {
          var sub := Decompose(order, meaning, meaning[unit], top, Nested(fuel));
          ScanCustomStep(order, meaning, rest, top, fuel, acc, sub);
          DecomposeFuelMonotone(order, meaning, meaning[unit], top, Nested(fuel), Nested(more));
          ScanCustomStep(order, meaning, rest, top, more, acc, sub);
          ScanFuelMonotone(order, meaning, rest[w..], top, fuel, more, acc + Raise(sub.value, Exponent(digits, top)));
        }
    }
  }

  lemma {:induction false} DecomposeFuelMonotone(order: seq<string>, meaning: map<string, string>, s: string,
                                                 top: int, fuel: nat, more: nat)
    requires WellFormed(order, meaning) && fuel <= more
    requires Decompose(order, meaning, s, top, fuel).Ok?
    ensures Decompose(order, meaning, s, top, more) == Decompose(order, meaning, s, top, fuel)
    decreases fuel, 1, 0
  {
    ScanFuelMonotone(order, meaning, s, top, fuel, more, []);
  }

  /** A custom unit defined as itself never resolves, whatever the depth
      bound: the source recurses until the interpreter's recursion limit. */
  lemma {:induction false} SelfReferenceFails(order: seq<string>, meaning: map<string, string>,
                                              u: string, top: int, fuel: nat)
    requires WellFormed(order, meaning) && u != []
    requires ReadToken(order, u) == CustomUnit(|u|, u, None)
    requires u in meaning && meaning[u] == u
    ensures Decompose(order, meaning, u, top, fuel) == Err(RecursionLimit(u))
  {
    ScanStep(order, meaning, u, top, fuel, []);
    if fuel > 0 {
      SelfReferenceFails(order, meaning, u, top, Nested(fuel));
      ScanCustomStep(order, meaning, u, top, fuel, [], Decompose(order, meaning, u, top, Nested(fuel)));
    }
  }
}
