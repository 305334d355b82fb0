/** The symbol tables of `PMat` and the matching rules its regular expressions
    encode, written as ordered lists of rules. A rule is a literal symbol with
    negative lookaheads: it matches when the text starts with the symbol and no
    lookahead matches right after it. Alternation takes the first rule that
    matches, as Python's `re` does for the patterns built from these lists. */
module Symbols {
  import opened Results

  /** `t` is a prefix of `s`, compared character by character. */
  predicate StartsWith(s: string, t: string)
    ensures StartsWith(s, t) ==> |t| <= |s|
  {
    t == [] || (s != [] && s[0] == t[0] && StartsWith(s[1..], t[1..]))
  }

  lemma {:induction false} StartsWithSlice(s: string, t: string)
    ensures StartsWith(s, t) <==> |t| <= |s| && s[..|t|] == t
  {
    if t != [] && s != [] {
      StartsWithSlice(s[1..], t[1..]);
      if |t| <= |s| {
        assert s[..|t|] == [s[0]] + s[1..][..|t| - 1];
        assert t == [t[0]] + t[1..];
        if s[..|t|] == t {
          assert s[0] == t[0];
          assert s[1..][..|t| - 1] == t[1..];
        }
      }
    }
  }

  /** One alternative of a negative lookahead: the regex `$` (end of text, or a
      final newline, as Python's `$` also matches there) or a literal text. */
  datatype Lookahead = EndOfText | Text(t: string)

  datatype Rule = Rule(symbol: string, notBefore: seq<Lookahead>)

  predicate LookaheadMatches(a: Lookahead, s: string)
  {
    match a
    case EndOfText => s == [] || s == "\n"
    case Text(t) => StartsWith(s, t)
  }

  /** None of the lookaheads matches `s`. */
  predicate NoneAhead(ahead: seq<Lookahead>, s: string)
  {
    ahead == [] || (!LookaheadMatches(ahead[0], s) && NoneAhead(ahead[1..], s))
  }

  predicate Matches(r: Rule, s: string)
  {
    StartsWith(s, r.symbol) && NoneAhead(r.notBefore, s[|r.symbol|..])
  }

  /** The metric prefixes in the order the source tries them; `d` is refused
      before `a` (that is `da`), `m` at the end of the text and before `ol`. */
  const PrefixRules: seq<Rule> := [
    Rule("E", []), Rule("P", []), Rule("T", []), Rule("G", []), Rule("M", []),
    Rule("k", []), Rule("h", []), Rule("da", []), Rule("d", [Text("a")]),
    Rule("c", []), Rule("m", [EndOfText, Text("ol")]), Rule("u", []),
    Rule("n", []), Rule("p", []), Rule("f", []), Rule("a", [])]

  /** Power of ten of each prefix; the empty prefix is 10^0. */
  const PrefixExponent: map<string, int> := map[
    "E" := 18, "P" := 15, "T" := 12, "G" := 9, "M" := 6, "k" := 3, "h" := 2,
    "da" := 1, "" := 0, "d" := -1, "c" := -2, "m" := -3, "u" := -6, "n" := -9,
    "p" := -12, "f" := -15, "a" := -18]

  /** The seven SI base units in the order the source tries them. */
  const BaseUnitRules: seq<Rule> := [
    Rule("mol", []), Rule("m", [Text("ol")]), Rule("g", []), Rule("s", []),
    Rule("K", []), Rule("A", []), Rule("cd", [])]

  /** Slot of each base unit in the two per-dimension arrays; `/` has the
      sentinel -1 and is never stored. */
  const DimensionIndex: map<string, int> := map[
    "m" := 0, "g" := 1, "s" := 2, "K" := 3, "mol" := 4, "A" := 5, "cd" := 6,
    "/" := -1]

  const Divide: Rule := Rule("/", [])

  /** Custom symbols are plain alternatives in the order given. */
  function CustomRules(order: seq<string>): (rs: seq<Rule>)
    ensures |rs| == |order|
    ensures forall i :: 0 <= i < |order| ==> rs[i] == Rule(order[i], [])
  {
    if order == [] then [] else [Rule(order[0], [])] + CustomRules(order[1..])
  }

  /** The unit group of the source's prefix pattern: base units, then custom units. */
  function UnitRules(order: seq<string>): seq<Rule>
  {
    BaseUnitRules + CustomRules(order)
  }

  /** The unit pattern of the scan: base units, custom units, then `/`. */
  function TokenRules(order: seq<string>): seq<Rule>
  {
    UnitRules(order) + [Divide]
  }

  /** Index of the first rule, from `k` on, that matches the start of `s`. */
  function FirstMatch(rules: seq<Rule>, s: string, k: nat := 0): (r: Option<nat>)
    requires k <= |rules|
    ensures r.Some? ==> k <= r.value < |rules| && Matches(rules[r.value], s)
    ensures r.Some? ==> forall j :: k <= j < r.value ==> !Matches(rules[j], s)
    ensures r.None? <==> forall j :: k <= j < |rules| ==> !Matches(rules[j], s)
    decreases |rules| - k
  {
    if k == |rules| then None
    else if Matches(rules[k], s) then Some(k)
    else FirstMatch(rules, s, k + 1)
  }

  /** The first match is a matching rule with no matching rule before it. */
  lemma FirstMatchIs(rules: seq<Rule>, s: string, k: nat)
    requires k < |rules| && Matches(rules[k], s)
    requires forall j :: 0 <= j < k ==> !Matches(rules[j], s)
    ensures FirstMatch(rules, s) == Some(k)
  {
  }

  /** Rules appended to an alternation are tried only when none before them
      matches. */
  lemma {:induction false} FirstMatchAppend(a: seq<Rule>, b: seq<Rule>, ab: seq<Rule>, s: string)
    requires ab == a + b
    ensures FirstMatch(a, s).Some? ==> FirstMatch(ab, s) == FirstMatch(a, s)
    ensures FirstMatch(a, s).None? && FirstMatch(b, s).Some? ==>
              FirstMatch(ab, s) == Some(|a| + FirstMatch(b, s).value)
    ensures FirstMatch(a, s).None? && FirstMatch(b, s).None? ==> FirstMatch(ab, s) == None
  {
    if FirstMatch(a, s).Some? {
      FirstMatchAppendLeft(a, b, ab, s);
    } else if FirstMatch(b, s).Some? {
      FirstMatchAppendRight(a, b, ab, s, FirstMatch(b, s).value);
    } else {
      FirstMatchAppendNone(a, b, ab, s);
    }
  }

  lemma {:induction false} FirstMatchAppendLeft(a: seq<Rule>, b: seq<Rule>, ab: seq<Rule>, s: string)
    requires ab == a + b && FirstMatch(a, s).Some?
    ensures FirstMatch(ab, s) == FirstMatch(a, s)
  {
    var k := FirstMatch(a, s).value;
    assert ab[k] == a[k];
    forall j | 0 <= j < k
      ensures !Matches(ab[j], s)
    {
      assert ab[j] == a[j];
    }
    FirstMatchIs(ab, s, k);
  }

  lemma {:induction false} FirstMatchAppendRight(a: seq<Rule>, b: seq<Rule>, ab: seq<Rule>, s: string, k: nat)
    requires ab == a + b && FirstMatch(a, s).None? && FirstMatch(b, s) == Some(k)
    ensures FirstMatch(ab, s) == Some(|a| + k)
  {
    forall j | 0 <= j < |a| + k
      ensures !Matches(ab[j], s)
    {
      if j < |a| {
        assert ab[j] == a[j];
      } else {
        assert ab[j] == b[j - |a|];
      }
    }
    assert ab[|a| + k] == b[k];
    FirstMatchIs(ab, s, |a| + k);
  }

  lemma {:induction false} FirstMatchAppendNone(a: seq<Rule>, b: seq<Rule>, ab: seq<Rule>, s: string)
    requires ab == a + b && FirstMatch(a, s).None? && FirstMatch(b, s).None?
    ensures FirstMatch(ab, s) == None
  {
    forall j | 0 <= j < |ab|
      ensures !Matches(ab[j], s)
    {
      if j < |a| {
        assert ab[j] == a[j];
      } else {
        assert ab[j] == b[j - |a|];
      }
    }
  }

  lemma FirstMatchSingle(r: Rule, s: string)
    ensures FirstMatch([r], s) == if Matches(r, s) then Some(0) else None
  {
  }

  /** An alternation followed by a group, with backtracking: the first rule of
      `rules`, from `k` on, that matches the start of `s` and is directly
      followed by a match of one of `next`. */
  function FirstFollowedBy(rules: seq<Rule>, next: seq<Rule>, s: string, k: nat := 0): (r: Option<nat>)
    requires k <= |rules|
    ensures r.Some? ==> k <= r.value < |rules| && Matches(rules[r.value], s)
    ensures r.Some? ==> FirstMatch(next, s[|rules[r.value].symbol|..]).Some?
    ensures r.None? <==> forall j :: k <= j < |rules| && Matches(rules[j], s) ==>
                         FirstMatch(next, s[|rules[j].symbol|..]).None?
    decreases |rules| - k
  {
    if k == |rules| then None
    else if Matches(rules[k], s) && FirstMatch(next, s[|rules[k].symbol|..]).Some? then Some(k)
    else FirstFollowedBy(rules, next, s, k + 1)
  }

  /** The source's `^(prefix)(unit)` pattern: the first prefix rule that
      matches `s` and is directly followed by a base or custom unit symbol. */
  function PrefixBeforeUnit(s: string, order: seq<string>): (r: Option<nat>)
    ensures r.Some? ==> r.value < |PrefixRules| && Matches(PrefixRules[r.value], s)
    ensures r.Some? ==> FirstMatch(UnitRules(order), s[|PrefixRules[r.value].symbol|..]).Some?
    ensures r.None? <==> forall j :: 0 <= j < |PrefixRules| && Matches(PrefixRules[j], s) ==>
                         FirstMatch(UnitRules(order), s[|PrefixRules[j].symbol|..]).None?
  {
    FirstFollowedBy(PrefixRules, UnitRules(order), s)
  }

  /** No two prefix rules match at the same position. */
  lemma PrefixRulesExclusive(s: string, j: nat, k: nat)
    requires j < |PrefixRules| && k < |PrefixRules|
    requires Matches(PrefixRules[j], s) && Matches(PrefixRules[k], s)
    ensures j == k
  {
    PrefixInitial(j);
    PrefixInitial(k);
    assert s[0] == PrefixInitials[j] && s[0] == PrefixInitials[k];
    if j < k {
      PrefixInitialsDistinct(j, k);
      DecaExcludesDeci(s);
    } else if k < j {
      PrefixInitialsDistinct(k, j);
      DecaExcludesDeci(s);
    }
  }

  /** The first character of each prefix symbol, in rule order. */
  const PrefixInitials: string := "EPTGMkhddcmunpfa"

  lemma PrefixInitial(j: nat)
    requires j < |PrefixRules|
    ensures PrefixRules[j].symbol != [] && PrefixRules[j].symbol[0] == PrefixInitials[j]
  {
  }

  /** Only `da` and `d` share a first character. */
  lemma PrefixInitialsDistinct(j: nat, k: nat)
    requires j < k < |PrefixInitials| && PrefixInitials[j] == PrefixInitials[k]
    ensures j == 7 && k == 8
  {
  }

  /** Where `da` matches, the lookahead of `d` refuses. */
  lemma DecaExcludesDeci(s: string)
    requires Matches(PrefixRules[7], s)
    ensures !Matches(PrefixRules[8], s)
  {
    assert PrefixRules[7] == Rule("da", []) && PrefixRules[8] == Rule("d", [Text("a")]);
    assert "da"[1..] == "a" && "a"[1..] == [];
    assert StartsWith(s[1..], "a");
    assert s[|"d"|..] == s[1..];
    assert LookaheadMatches(Text("a"), s[1..]);
  }

  /** The characters a prefix symbol or a base-unit symbol starts with. */
  const PrefixHeads: set<char> := {'E', 'P', 'T', 'G', 'M', 'k', 'h', 'd', 'c', 'm', 'u', 'n', 'p', 'f', 'a'}
  const BaseUnitHeads: set<char> := {'m', 'g', 's', 'K', 'A', 'c'}

  lemma PrefixHead(j: nat)
    requires j < |PrefixRules|
    ensures PrefixRules[j].symbol != [] && PrefixRules[j].symbol[0] in PrefixHeads
  {
  }

  lemma BaseUnitHead(j: nat)
    requires j < |BaseUnitRules|
    ensures BaseUnitRules[j].symbol != [] && BaseUnitRules[j].symbol[0] in BaseUnitHeads
  {
  }

  /** A prefix rule that matches is the one the prefix pattern finds. */
  lemma PrefixFound(s: string, k: nat)
    requires k < |PrefixRules| && Matches(PrefixRules[k], s)
    ensures FirstMatch(PrefixRules, s) == Some(k)
  {
    var r := FirstMatch(PrefixRules, s);
    PrefixRulesExclusive(s, r.value, k);
  }

  /** No prefix starts with a character outside `PrefixHeads`. */
  lemma NoPrefixAt(s: string)
    requires s == [] || s[0] !in PrefixHeads
    ensures FirstMatch(PrefixRules, s) == None
  {
    var r := FirstMatch(PrefixRules, s);
    if r.Some? {
      PrefixHead(r.value);
    }
  }

  lemma PrefixBeforeUnitFound(s: string, order: seq<string>, k: nat)
    requires k < |PrefixRules| && Matches(PrefixRules[k], s)
    requires FirstMatch(UnitRules(order), s[|PrefixRules[k].symbol|..]).Some?
    ensures PrefixBeforeUnit(s, order) == Some(k)
  {
    var r := PrefixBeforeUnit(s, order);
    PrefixRulesExclusive(s, r.value, k);
  }

  lemma NoPrefixBeforeUnit(s: string, order: seq<string>)
    requires match FirstMatch(PrefixRules, s)
             case None => true
             case Some(k) => FirstMatch(UnitRules(order), s[|PrefixRules[k].symbol|..]).None?
    ensures PrefixBeforeUnit(s, order) == None
  {
    var r := PrefixBeforeUnit(s, order);
    if r.Some? {
      var k := FirstMatch(PrefixRules, s).value;
      PrefixRulesExclusive(s, r.value, k);
    }
  }

  /** No two base-unit rules match at the same position: `mol` and `m` exclude
      each other through the lookahead on `m`. */
  lemma BaseUnitRulesExclusive(s: string, j: nat, k: nat)
    requires j < |BaseUnitRules| && k < |BaseUnitRules|
    requires Matches(BaseUnitRules[j], s) && Matches(BaseUnitRules[k], s)
    ensures j == k
  {
    assert s[0] == BaseUnitRules[j].symbol[0];
    assert s[0] == BaseUnitRules[k].symbol[0];
  }

  lemma BaseUnitFound(order: seq<string>, s: string, k: nat)
    requires k < |BaseUnitRules| && Matches(BaseUnitRules[k], s)
    ensures FirstMatch(UnitRules(order), s) == Some(k)
    ensures FirstMatch(TokenRules(order), s) == Some(k)
  {
    BaseUnitMatch(s, k);
    BaseBeforeCustom(order, s, k);
  }

  lemma BaseUnitMatch(s: string, k: nat)
    requires k < |BaseUnitRules| && Matches(BaseUnitRules[k], s)
    ensures FirstMatch(BaseUnitRules, s) == Some(k)
  {
    forall j | 0 <= j < k
      ensures !Matches(BaseUnitRules[j], s)
    {
      if Matches(BaseUnitRules[j], s) {
        BaseUnitRulesExclusive(s, j, k);
      }
    }
    FirstMatchIs(BaseUnitRules, s, k);
  }

  lemma BaseBeforeCustom(order: seq<string>, s: string, k: nat)
    requires FirstMatch(BaseUnitRules, s) == Some(k)
    ensures FirstMatch(UnitRules(order), s) == Some(k)
    ensures FirstMatch(TokenRules(order), s) == Some(k)
  {
    FirstMatchAppendLeft(BaseUnitRules, CustomRules(order), UnitRules(order), s);
    FirstMatchAppendLeft(UnitRules(order), [Divide], TokenRules(order), s);
  }

  /** No base unit starts with a character outside `BaseUnitHeads`. */
  lemma NoBaseUnit(s: string)
    requires s == [] || s[0] !in BaseUnitHeads
    ensures FirstMatch(BaseUnitRules, s) == None
  {
    forall j | 0 <= j < |BaseUnitRules|
      ensures !Matches(BaseUnitRules[j], s)
    {
      BaseUnitHead(j);
    }
  }

  /** The `i`-th custom symbol is found when no base unit can match and no
      earlier custom symbol starts the text. */
  lemma CustomFound(order: seq<string>, s: string, i: nat)
    requires s == [] || s[0] !in BaseUnitHeads
    requires i < |order| && StartsWith(s, order[i])
    requires forall j :: 0 <= j < i ==> !StartsWith(s, order[j])
    ensures FirstMatch(UnitRules(order), s) == Some(|BaseUnitRules| + i)
    ensures FirstMatch(TokenRules(order), s) == Some(|BaseUnitRules| + i)
  {
    CustomUnitFound(order, s, i);
    FirstMatchAppendLeft(UnitRules(order), [Divide], TokenRules(order), s);
  }

  lemma CustomUnitFound(order: seq<string>, s: string, i: nat)
    requires s == [] || s[0] !in BaseUnitHeads
    requires i < |order| && StartsWith(s, order[i])
    requires forall j :: 0 <= j < i ==> !StartsWith(s, order[j])
    ensures FirstMatch(UnitRules(order), s) == Some(|BaseUnitRules| + i)
  {
    CustomMatch(order, s, i);
    NoBaseUnit(s);
    CustomAfterBase(order, s, i);
  }

  lemma CustomAfterBase(order: seq<string>, s: string, i: nat)
    requires FirstMatch(BaseUnitRules, s).None? && FirstMatch(CustomRules(order), s) == Some(i)
    ensures FirstMatch(UnitRules(order), s) == Some(|BaseUnitRules| + i)
  {
    FirstMatchAppendRight(BaseUnitRules, CustomRules(order), UnitRules(order), s, i);
  }

  lemma CustomMatch(order: seq<string>, s: string, i: nat)
    requires i < |order| && StartsWith(s, order[i])
    requires forall j :: 0 <= j < i ==> !StartsWith(s, order[j])
    ensures FirstMatch(CustomRules(order), s) == Some(i)
  {
    var c := CustomRules(order);
    assert Matches(c[i], s);
    FirstMatchIs(c, s, i);
  }

  lemma NoCustomMatch(order: seq<string>, s: string)
    requires forall j :: 0 <= j < |order| ==> !StartsWith(s, order[j])
    ensures FirstMatch(CustomRules(order), s) == None
  {
  }

  /** Neither a base nor a custom unit starts the text. */
  lemma NoUnitAt(order: seq<string>, s: string)
    requires s == [] || s[0] !in BaseUnitHeads
    requires forall j :: 0 <= j < |order| ==> !StartsWith(s, order[j])
    ensures FirstMatch(UnitRules(order), s) == None
    ensures FirstMatch(TokenRules(order), s) == (if StartsWith(s, "/") then Some(|UnitRules(order)|) else None)
  {
    NoBaseUnit(s);
    NoCustomMatch(order, s);
    FirstMatchAppendNone(BaseUnitRules, CustomRules(order), UnitRules(order), s);
    TokenExtendsUnit(order, s);
  }

  /** The scan's unit pattern finds a base or custom unit exactly where the
      prefix pattern's unit group does, and `/` only where neither can. */
  lemma TokenExtendsUnit(order: seq<string>, s: string)
    ensures FirstMatch(UnitRules(order), s).Some? ==> FirstMatch(TokenRules(order), s) == FirstMatch(UnitRules(order), s)
    ensures FirstMatch(UnitRules(order), s).None? ==>
              FirstMatch(TokenRules(order), s) == (if Matches(Divide, s) then Some(|UnitRules(order)|) else None)
  {
    FirstMatchAppend(UnitRules(order), [Divide], TokenRules(order), s);
    FirstMatchSingle(Divide, s);
  }

  /** The unit token is the FIRST base or custom symbol, in the order
      `mol, m, g, s, K, A, cd` and then the custom order, that the text starts
      with; an earlier shorter symbol wins over a later longer one. The lookahead
      on `m` never changes the outcome, since `mol` is tried first. */
  lemma UnitIsFirstSymbolStartingText(order: seq<string>, s: string)
    ensures var r := FirstMatch(UnitRules(order), s);
            r.Some? ==> StartsWith(s, UnitRules(order)[r.value].symbol)
    ensures var r := FirstMatch(UnitRules(order), s);
            r.Some? ==> forall j :: 0 <= j < r.value ==> !StartsWith(s, UnitRules(order)[j].symbol)
    ensures FirstMatch(UnitRules(order), s).None? ==>
              forall j :: 0 <= j < |UnitRules(order)| ==> !StartsWith(s, UnitRules(order)[j].symbol)
  {
    var u := UnitRules(order);
    var n := |BaseUnitRules|;
    assert forall j :: n <= j < |u| ==> u[j] == Rule(order[j - n], []);
    assert u[0] == Rule("mol", []) && u[1] == Rule("m", [Text("ol")]);
    var r := FirstMatch(u, s);
    if StartsWith(s, "m") && !Matches(u[1], s) {
      assert !NoneAhead([Text("ol")], s[1..]);
      assert [Text("ol")][1..] == [] && NoneAhead([], s[1..]);
      assert LookaheadMatches(Text("ol"), s[1..]);
      assert StartsWith(s[1..], "ol");
      assert StartsWith(s, "mol");
      assert Matches(u[0], s);
    }
  }

  /** Every prefix symbol has a power of ten. */
  lemma PrefixSymbolsHaveExponents(j: nat)
    requires j < |PrefixRules|
    ensures PrefixRules[j].symbol in PrefixExponent && PrefixRules[j].symbol != ""
  {
  }

  /** Distinct prefixes have distinct powers of ten, so the power stored for an
      atom identifies its prefix. */
  lemma PrefixExponentsDistinct()
    ensures forall p, q :: p in PrefixExponent && q in PrefixExponent && p != q ==>
                           PrefixExponent[p] != PrefixExponent[q]
  {
  }

  /** The slot table gives each base unit its own one of the seven slots, every
      slot belongs to a base unit, and `/` has the sentinel -1. */
  lemma BaseUnitSlots()
    ensures forall j :: 0 <= j < |BaseUnitRules| ==>
                        BaseUnitRules[j].symbol in DimensionIndex && 0 <= DimensionIndex[BaseUnitRules[j].symbol] < 7
    ensures forall j, k :: 0 <= j < k < |BaseUnitRules| ==>
                           DimensionIndex[BaseUnitRules[j].symbol] != DimensionIndex[BaseUnitRules[k].symbol]
    ensures forall u :: u in DimensionIndex ==>
                        u == "/" || exists j :: 0 <= j < |BaseUnitRules| && BaseUnitRules[j].symbol == u
    ensures DimensionIndex["/"] == -1
  {
    var slots := [4, 0, 1, 2, 3, 5, 6];
    BaseUnitSlotValues(slots);
    DimensionIndexKeys();
  }

  /** The slot of the j-th base unit rule, one rule at a time. */
  lemma BaseUnitSlotValues(slots: seq<int>)
    requires slots == [4, 0, 1, 2, 3, 5, 6]
    ensures |BaseUnitRules| == |slots|
    ensures forall j :: 0 <= j < |BaseUnitRules| ==>
                        BaseUnitRules[j].symbol in DimensionIndex && DimensionIndex[BaseUnitRules[j].symbol] == slots[j]
  {
    forall j | 0 <= j < |BaseUnitRules|
      ensures BaseUnitRules[j].symbol in DimensionIndex && DimensionIndex[BaseUnitRules[j].symbol] == slots[j]
    {
      if j == 0 { assert BaseUnitRules[j].symbol == "mol"; }
      else if j == 1 { assert BaseUnitRules[j].symbol == "m"; }
      else if j == 2 { assert BaseUnitRules[j].symbol == "g"; }
      else if j == 3 { assert BaseUnitRules[j].symbol == "s"; }
      else if j == 4 { assert BaseUnitRules[j].symbol == "K"; }
      else if j == 5 { assert BaseUnitRules[j].symbol == "A"; }
      else { assert BaseUnitRules[j].symbol == "cd"; }
    }
  }

  lemma DimensionIndexKeys()
    ensures forall u :: u in DimensionIndex ==>
                        u == "/" || exists j :: 0 <= j < |BaseUnitRules| && BaseUnitRules[j].symbol == u
  {
    forall u | u in DimensionIndex && u != "/"
      ensures exists j :: 0 <= j < |BaseUnitRules| && BaseUnitRules[j].symbol == u
    {
      assert u in {"m", "g", "s", "K", "mol", "A", "cd"};
      if u == "mol" { assert BaseUnitRules[0].symbol == u; }
      else if u == "m" { assert BaseUnitRules[1].symbol == u; }
      else if u == "g" { assert BaseUnitRules[2].symbol == u; }
      else if u == "s" { assert BaseUnitRules[3].symbol == u; }
      else if u == "K" { assert BaseUnitRules[4].symbol == u; }
      else if u == "A" { assert BaseUnitRules[5].symbol == u; }
      else { assert BaseUnitRules[6].symbol == u; }
    }
  }

  /** The prefix the scan consumes at the start of `s` (`pmat.py` lines 160-166): the
      match of `^(prefix)`, taken only when `^(prefix)(unit)` matches. */
  function ConsumedPrefix(s: string, order: seq<string>): (p: string)
    ensures StartsWith(s, p) && p in PrefixExponent
    ensures p == "" <==> PrefixBeforeUnit(s, order).None?
    ensures p != "" ==> p == PrefixRules[PrefixBeforeUnit(s, order).value].symbol
  {
    match PrefixBeforeUnit(s, order)
    case None => ""
    case Some(k) =>
      match FirstMatch(PrefixRules, s)
      case None => ""
      case Some(j) =>
        PrefixRulesExclusive(s, j, k);
        PrefixSymbolsHaveExponents(j);
        PrefixRules[j].symbol
  }

  predicate IsDigit(c: char)
  {
    '0' <= c <= '9'
  }

  /** Length of the run of decimal digits at the start of `s`. */
  function DigitRun(s: string): (n: nat)
    ensures n <= |s|
    ensures forall i :: 0 <= i < n ==> IsDigit(s[i])
    ensures n < |s| ==> !IsDigit(s[n])
  {
    if s == [] || !IsDigit(s[0]) then 0 else 1 + DigitRun(s[1..])
  }

  /** Decimal value of a string of digits, as Python's `int` reads it. */
  function DigitValue(c: char): nat
    requires IsDigit(c)
  {
    c as int - '0' as int
  }

  /** Ten to the power `n`. */
  function Pow10(n: nat): (p: nat)
    ensures p >= 1
  {
    if n == 0 then 1 else 10 * Pow10(n - 1)
  }

  /** Horner's rule over the digits, last digit least significant: the value has
      at most `|d|` decimal digits, and it is zero exactly when every digit is
      `0` (leading zeros are accepted, as `int("007")` accepts them). */
  function DigitsValue(d: string): (v: nat)
    requires forall i :: 0 <= i < |d| ==> IsDigit(d[i])
    ensures v < Pow10(|d|)
    ensures v == 0 <==> forall i :: 0 <= i < |d| ==> d[i] == '0'
  {
    if d == [] then 0 else 10 * DigitsValue(d[..|d| - 1]) + DigitValue(d[|d| - 1])
  }

  /** The source's `[\^]?\d+` pattern: an optional caret and a maximal run of
      digits. Gives the value and the number of characters consumed. */
  function ParseExponent(s: string): (r: Option<(nat, nat)>)
    ensures r.Some? ==> 0 < r.value.1 <= |s|
    ensures r.Some? ==> r.value.1 == |s| || !IsDigit(s[r.value.1])
    ensures r.None? <==> (if s != [] && s[0] == '^' then s[1..] else s) == [] ||
                         !IsDigit((if s != [] && s[0] == '^' then s[1..] else s)[0])
    ensures r.Some? ==> var skip := if s != [] && s[0] == '^' then 1 else 0;
                        && r.value.1 == skip + DigitRun(s[skip..])
                        && r.value.0 == DigitsValue(s[skip..r.value.1])
  {
    var skip := if s != [] && s[0] == '^' then 1 else 0;
    var n := DigitRun(s[skip..]);
    if n == 0 then None else Some((DigitsValue(s[skip..skip + n]), skip + n))
  }
}
