# PMat dimensional analysis, modelled in Dafny

`PMat` (`pmat.py`) is a number tagged with SI units. A unit string such as
`kmkm`, `m/s2` or `kgm/s^2` is decomposed into triples
`[prefix exponent, dimension index, power]`, one per unit atom. The triples are
then folded into two seven-slot arrays, one slot per base dimension
(m, g, s, K, mol, A, cd):

- `_p` sums the prefix exponent times the power;
- `_e` sums the power.

Two values have the same kind when their `_e` arrays agree. Users can register
custom units such as `N := kgm/s2`. These live in a class-level list and a
dictionary, and are expanded recursively whenever a unit string that uses them
is decomposed.

The project models:

- **The symbol tables** (`symbols.dfy`, module `Symbols`). These are the
  prefixes with their powers of ten, the base units with their slots, and the
  regular expressions built from them. Each alternation becomes an ordered list
  of rules. A rule is a literal symbol plus negative lookaheads, such as `m`
  refused at the end of the text or before `ol`. Matching takes the first rule
  that matches, as Python's `re` does. `^(prefix)(unit)` backtracks over the
  prefix alternatives (`PrefixBeforeUnit`). `^(prefix)` alone takes the first
  one. The prefix alternatives never overlap, so the two agree on which prefix
  is consumed. `[\^]?\d+` is read by `ParseExponent`.
- **The custom-unit registry** (`registry.dfy`, class `Registry`):
  - `define` and both forms of `undefine` update the list and the
    dictionary in place;
  - `_re_cu` sorts the list in place, using Python's string order.

  Every method keeps the registry well formed: no duplicate symbols, the list
  holds exactly the dictionary's keys, and no symbol is empty.
- **`_decomposeUnit`** (`decomposer.dfy`). `Scan` and `Decompose` specify what
  the scan computes. `ReadToken` covers one step at the cursor: `*`, `/`, a base
  unit with its prefix and exponent, a custom unit, or nothing. `DecomposeUnit`
  and `ScanUnits` are the imperative loop itself: a cursor, a sticky sign and
  recursive expansion of custom units. They are proved equal to the
  specification. The result is sorted with Python's order on lists.
- **The value** (`pmat.dfy`, class `PMat`):
  - the constructor's fold into `_p` and `_e`, a loop proved equal to
    `Totals`;
  - the copy constructor;
  - `isSame` and `isUnitless`.

  Lemmas show that the totals do not depend on the order of the triples, which
  is why the source can sort them.
- **Worked unit strings** (`examples.dfy`, module `Examples`). Each lemma pins
  the exact result of decomposing one string. The scan steps they chain, one per
  kind of atom, are in `example_steps.dfy` (module `ExampleSteps`). The strings
  are:
  - `kmkm` (from the source's demo), `mm`, `ms`, `dam`, a bare `da`, `m`, `km`,
    `mol`, `m/s2`, `m/s*s`, `m/s/s`, `sr` and the empty string, all with no
    custom units;
  - the demo's newton `N := kgm/s2` alone, as `N`, `N^2` and `m/N`;
  - `sr` with `sr` registered, `Wb` with `W` and `Wb` registered, and `dC`
    with `C` and `dC` registered;
  - an undefined symbol, a symbol removed again by `undefine`, and a
    self-referential unit.

Behaviours of the code that the model keeps as written:

- **The sign counts twice on an expanded custom unit.** A custom unit's
  definition is decomposed with the running sign `top`. The resulting powers are
  then multiplied by the atom's exponent, which already carries that sign. After
  a `/` the two signs cancel. So `m/N` decomposes to kg·m²/s², not to s²/kg
  (`Examples.MetrePerNewton`, `Examples.MetrePerNewtonTotals`).
- **A prefix in front of a custom unit is read and then dropped.**
- **Units are matched first-found, not longest-match.** Even with `sr`
  registered, as the demo does, `sr` reads as `s` followed by an unknown `r`,
  because the base units come before the custom ones
  (`Examples.SteradianShadowed`, shown with `sr` as the only custom unit).
- **The copy constructor shares the other value's `_p` and `_e` arrays** instead
  of duplicating them. The comment at `pmat.py:45` says the other value is
  simply copied, but lines 46-48 assign the same list objects. The model follows
  the code, so `PMat.Copy` ensures the arrays are the same objects.
- **A prefixed custom symbol can be unreachable.** The demo registers both `C`
  and `dC`. Because `d` is a prefix and `C` a registered unit, `dC` is read as
  deci plus `C`, the prefix is dropped, and the definition of `dC` is never used
  (`Examples.DeciCoulomb`).

## Model

| member | source | states |
|---|---|---|
| Symbols.FirstMatch | pmat.py:134-142 | an alternation picks the first rule that matches; no earlier rule matches, and None exactly when no rule matches |
| Symbols.FirstMatchAppend | pmat.py:134 | alternatives appended to a group are tried only when none of the group matches: the group's match stands, otherwise the match is shifted past the group, and None when neither part matches |
| Symbols.FirstFollowedBy | pmat.py:131 | a group followed by a second group, with backtracking: a rule of the first group that matches and leaves text on which the second group matches; None exactly when every matching rule leaves text the second group rejects |
| Symbols.PrefixBeforeUnit | pmat.py:131 | `^(prefix)(unit)` backtracks: the first prefix that matches and is directly followed by a base or custom unit; None exactly when every matching prefix has no unit after it |
| Symbols.ConsumedPrefix | pmat.py:160-166 | the prefix consumed is a prefix of the text and has a power of ten; it is empty exactly when `^(prefix)(unit)` fails, and otherwise is the prefix that pattern found |
| Symbols.PrefixRulesExclusive | pmat.py:8 | no two prefix alternatives match at the same place (`da` and `d(?!a)` exclude each other) |
| Symbols.PrefixFound | pmat.py:164 | a matching prefix is the one `^(prefix)` finds |
| Symbols.PrefixSymbolsHaveExponents | pmat.py:21-31 | every prefix in the pattern has an entry in the power-of-ten table |
| Symbols.BaseUnitRulesExclusive | pmat.py:10 | no two base-unit alternatives match at the same place (`mol` and `m(?!ol)`) |
| Symbols.BaseUnitFound | pmat.py:134 | a matching base unit is what the unit pattern finds, with or without custom units and `/` |
| Symbols.CustomFound | pmat.py:134 | the first custom symbol the text starts with is found when no base unit matches |
| Symbols.NoUnitAt | pmat.py:134 | with no base or custom unit at the cursor, the unit pattern finds `/` or nothing |
| Symbols.TokenExtendsUnit | pmat.py:131-134 | the scan's unit pattern agrees with the prefix pattern's unit group, and adds `/` only where that group fails |
| Symbols.UnitIsFirstSymbolStartingText | pmat.py:134 | the unit found is the first symbol, in table order then registry order, that starts the text; earlier shorter symbols win |
| Symbols.ParseExponent | pmat.py:183-190 | an optional caret and a maximal non-empty digit run; the width consumed is the caret plus the whole run, the value is the decimal value of those digits, and it fails exactly when no digit follows the optional caret |
| Symbols.DigitsValue | pmat.py:189-190 | `int` of a digit string: below ten to the number of digits, and zero exactly when every digit is `0` |
| Symbols.PrefixExponentsDistinct | pmat.py:21-31 | different prefixes stand for different powers of ten |
| Symbols.BaseUnitSlots | pmat.py:14-19 | every base unit has its own slot among the seven, no two share one, `_lookup_u` has no other key than the base units and `/`, and `/` maps to -1 |
| CustomUnits.StrLeIsLexicographic | pmat.py:92 | the string order used by `sort` is Python's: a prefix comes first, otherwise the first differing character decides |
| CustomUnits.WellFormedDistinct | pmat.py:33-34 | in a well-formed registry no symbol is listed twice |
| CustomUnits.StrLeTotalOrder | pmat.py:92 | the string order used by `sort` is total, transitive and antisymmetric |
| CustomUnits.SortKeepsWellFormed | pmat.py:92 | sorting the symbol list keeps the registry well formed |
| CustomUnits.RemoveKeepsWellFormed | pmat.py:112-116 | removing one symbol and its meaning keeps the registry well formed and every other symbol defined |
| CustomUnits.Registry.constructor | pmat.py:33-34 | the registry starts with no symbols and no meanings |
| CustomUnits.Registry.Define | pmat.py:96-101 | appends the symbol only if absent, and sets its meaning, so the last definition wins |
| CustomUnits.Registry.Undefine | pmat.py:111-116 | removes the first occurrence and its meaning; a symbol that is not defined changes nothing; no other symbol is affected |
| CustomUnits.Registry.UndefineAll | pmat.py:105-109 | `undefine(True)` empties both the list and the dictionary |
| CustomUnits.Registry.SortSymbols | pmat.py:86-93 | the list becomes its sorted permutation; the meanings are unchanged |
| Sorting.InsertionSort | pmat.py:92 | `sort` keeps the length and the multiset of elements |
| Sorting.SortSorted | pmat.py:210 | under a total order the result is sorted |
| Sorting.SortedUnchanged | pmat.py:92 | sorting an already sorted list changes nothing, so `_re_cu`'s second call and nested calls leave the list as it is |
| Sorting.SortedPermutationUnique | pmat.py:210 | two sorted permutations of the same elements are equal, so the sorted result is determined |
| Decomposer.TripleLeIsListOrder | pmat.py:210 | triples are compared as Python compares the lists `[prefix, index, exponent]`: element by element, the first difference deciding |
| Decomposer.TripleLeTotalOrder | pmat.py:210 | Python's order on `[prefix, index, exponent]` lists is a total order |
| Decomposer.Raise | pmat.py:198-202 | an expanded unit's triples, each power multiplied by the atom's exponent; the dimension slots stay in range |
| Decomposer.TokenIsBaseUnit | pmat.py:174-178 | a unit that is neither `/` nor a custom symbol is a base unit with a slot in `_lookup_u` |
| Decomposer.ReadToken | pmat.py:149-190 | one step at the cursor: `*` exactly when the text starts with it; otherwise the width consumed is within the text, a base unit's slot is one of the seven, a custom unit is registered, and failure carries the text after the prefix where no unit matches |
| Decomposer.Exponent | pmat.py:151-190 | the atom's signed exponent: zero exactly when the sign is zero or the digits are `0`, and under a sign of one or minus one it is the digits, or 1 without digits, times that sign |
| Decomposer.Scan | pmat.py:146-205 | the cursor loop as a function: `*` is skipped, `/` flips the sign for the rest, a base atom appends its triple, a custom atom appends its raised definition, no unit fails; every slot of a success is in range |
| Decomposer.DecomposeAs | pmat.py:207-211 | a failed scan is the decomposition's failure, and a successful scan's sorted permutation is the decomposition |
| Decomposer.Decompose | pmat.py:207-211 | a successful decomposition is sorted and its slots are all in range |
| Decomposer.DecomposeUnit | pmat.py:119-211 | sorts the registry's list in place, and its result is `Decompose` over the sorted list |
| Decomposer.ScanUnits | pmat.py:146-205 | the cursor loop, with nested calls for custom units, computes `Scan` and leaves the registry unchanged |
| Decomposer.AppendRaised | pmat.py:198-202 | the inner loop appends exactly the raised triples |
| Decomposer.RaiseAppend | pmat.py:198-202 | raising distributes over concatenation |
| Decomposer.ScanUnderFlip | pmat.py:174-190 | without custom units, scanning under the flipped sign gives exactly the negated powers, so `/` is sticky |
| Decomposer.ScanFuelMonotone | pmat.py:193-195 | a scan that succeeds within a nesting bound gives the same result with any larger bound |
| Decomposer.DecomposeFuelMonotone | pmat.py:193-195 | the same for the sorted decomposition |
| Decomposer.SelfReferenceFails | pmat.py:193-195 | a unit defined as itself never resolves, whatever the bound |
| Quantity.AbsentDimensionIsZero | pmat.py:54-60 | a slot no triple names stays zero after the fold |
| Quantity.TotalsKeepEveryWeight | pmat.py:54-60 | the seven slots together hold the weight of every triple, none lost to an out-of-range index |
| Quantity.DimSumAppend | pmat.py:54-60 | the per-dimension sum of two lists is the sum of their sums |
| Quantity.DimSumPermutation | pmat.py:209-210 | per-dimension sums do not depend on the order of the triples |
| Quantity.DecomposeKeepsTotals | pmat.py:52-60 | folding the sorted decomposition gives the same `_p` and `_e` as folding the unsorted scan |
| Quantity.TotalsSnoc | pmat.py:59-60 | one more triple changes only its own slot, by its weight |
| Quantity.PMat.FromTriples | pmat.py:36-60 | fresh zeroed arrays; after the fold, `_p` holds the totals of prefix times power and `_e` the totals of power |
| Quantity.PMat.Copy | pmat.py:44-48 | the copy has the same magnitude and the very same arrays |
| Quantity.PMat.Create | pmat.py:36-60 | the value of `PMat(num, unit)`: the fold of `Decompose` over the sorted registry, or the decomposer's failure |
| Quantity.PMat.IsSame | pmat.py:65-70 | true exactly when the two `_e` arrays agree in every slot |
| Quantity.PMat.IsUnitless | pmat.py:72-76 | true exactly when every exponent is zero |
| ExampleSteps.ReadsAtom | pmat.py:160-190 | a prefix, a unit and an exponent at the cursor read as one token of the right width, kind, slot and digits |
| ExampleSteps.StepBase | pmat.py:160-205 | a base atom appends the triple of its prefix, its slot and its signed exponent, and the scan goes on after it |
| ExampleSteps.StepCustom | pmat.py:193-202 | a custom atom appends its definition's triples raised to its signed exponent |
| ExampleSteps.StepSlash | pmat.py:174-176 | `/` flips the sign for the rest of the text |
| ExampleSteps.MilliExcluded | pmat.py:8 | `m` is no prefix at the end of the text or before `ol` |
| Examples.KiloMetreTwice | pmat.py:268 | `kmkm` decomposes to two kilometre triples |
| Examples.KiloMetreTwiceTotals | pmat.py:54-60 | folded, `kmkm` gives 6 in `_p` and 2 in `_e` for the metre |
| Examples.MilliMetreAlone | pmat.py:271 | `mm` is one millimetre: milli prefix, then the metre |
| Examples.MilliSecond | pmat.py:8 | `ms` is milli before the second: `m` is a prefix before any letter other than the end of the text or `ol` |
| Examples.DekaMetre | pmat.py:21-26 | `dam` is the two-letter prefix `da`, ten to the first, before the metre |
| Examples.DekaAlone | pmat.py:160-181 | a bare `da` matches as a prefix but no unit follows it, so nothing is consumed and `da` fails as no unit |
| Examples.MetreAlone | pmat.py:8 | a lone `m` is the metre, not a prefix |
| Examples.MoleAlone | pmat.py:8-10 | `mol` is the mole, not milli-something |
| Examples.Acceleration | pmat.py:174-190 | `m/s2` is metre to the 1 and second to the -2 |
| Examples.SteradianFails | pmat.py:180-181 | `sr` with no custom units stops at the unknown `r` |
| Examples.SteradianShadowed | pmat.py:134 | with `sr` registered, `sr` still reads as the base unit `s` and then fails at `r` |
| Examples.UndefinedFails | pmat.py:180-181 | an unregistered `N` is no unit |
| Examples.NewtonDefinition | pmat.py:244 | the newton's definition `kgm/s2`, read with any sign |
| Examples.NewtonAlone | pmat.py:193-202 | `N` gives its definition's triples |
| Examples.MetrePerNewton | pmat.py:174-202 | `m/N` gives two metres, a kilogram and a second to the -2: the sign counts twice |
| Examples.MetrePerNewtonTotals | pmat.py:54-60 | folded, `m/N` has the exponents of kg·m²/s² |
| Examples.SelfReference | pmat.py:193-195 | a unit defined as itself fails at the nesting bound |
| ExampleSteps.StepStar | pmat.py:154-158 | `*` is skipped and appends nothing |
| Examples.PerSecondTimesSecond | pmat.py:154-176 | `m/s*s` is metre to the 1 and two seconds to the -1: `*` does not end the division |
| Examples.PerSecondPerSecond | pmat.py:174-176 | `m/s/s` is metre to the 1, a second to the -1 and a second to the 1: a second `/` flips the sign back |
| Examples.SecondsFolded | pmat.py:54-60 | folded, `m/s*s` has the exponents of m/s² and `m/s/s` those of m |
| Examples.NewtonSquared | pmat.py:193-202 | `N^2` is the newton's definition with every power doubled: kg², m², s⁻⁴ |
| Examples.NewtonSquaredTotals | pmat.py:54-60 | folded, `N^2` gives 2 for m, 2 for g and -4 for s |
| Examples.WeberShadowed | pmat.py:134 | with `W` and `Wb` registered, `Wb` reads as `W` and then fails at `b`, or fails inside `W` |
| Examples.DeciCoulomb | pmat.py:160-166 | with `C` and `dC` registered, `dC` decomposes exactly as `C`: deci is read and dropped |
| Examples.EmptyUnit | pmat.py:72-76 | the empty unit string has no triples, in any registry, and folds to all-zero exponents |
| Examples.KiloMetreSameKindAsMetre | pmat.py:65-70 | `km` and `m` have equal exponent arrays but different prefix arrays |
| Examples.UndefinedAfterUndefine | pmat.py:111-116 | after defining and then undefining `N`, decomposing `N` fails with no unit found |

## Left out

- Building the regular expressions as text (`_re_un`, `_re_pf`, the joins in
  `_re_cu` and the compilation at lines 131-144). The patterns are modelled by
  their meaning as ordered rule lists; the textual regex syntax is not.
- `_compressVector`. It is only referenced in a commented-out line of
  `_decomposeUnit`, and it works on floating-point logarithms.
- `__str__`, the `debug` access in the demo and the `__main__` demo itself.
  The demo registers 24 symbols; the example lemmas use small registries
  holding the few symbols each string needs (`N`, `sr`, `W` and `Wb`, `C` and
  `dC`),
  and the empty registry elsewhere.
- The constructor's default arguments (`num_or_pmat=0, unit=""`, pmat.py:36).
  Dafny has no default parameters: `PMat()` is `PMat.Create(0.0, "", reg, fuel)`,
  whose unit string decomposes to no triples (`Examples.EmptyUnit`).
- The magnitude `_n`. It is carried along as a `real` and never computed on.
  A number of any Python type is not modelled.
- The exception text. `raise Exception("No unit found:", ...)` becomes
  `Err(NoUnitFound(rest))`.
- Python's recursion limit. A custom unit that never resolves raises
  `RecursionError` in the source. The model takes an explicit nesting bound
  `fuel` and returns `Err(RecursionLimit(symbol))` when it runs out. Where the
  source would instead succeed under a deeper stack, the model may fail at a
  small bound; `Decomposer.ScanFuelMonotone` shows a larger bound never changes
  a success.
- Unicode digits. `\d` in Python also matches non-ASCII digits. The model reads
  ASCII `0`-`9` only.
- Custom symbols are matched literally. Regex metacharacters inside a custom
  symbol are not interpreted.
- CustomUnits.Registry.Define: requires a non-empty symbol. An empty symbol
  alone joins into an empty custom pattern, and the scan behaves as with no
  custom units. Beside another symbol it becomes an empty alternative of the
  unit pattern, which matches without advancing the cursor.
- `undefine` with an argument that is neither a symbol nor `True`, such as the
  default `False` or `1`, which Python treats as equal to `True`. Only
  `undefine(True)` (`UndefineAll`) and `undefine(symbol)` (`Undefine`) are
  modelled.
- Class-level state shared between `PMat` instances is an explicit `Registry`
  object passed to the operations that read it.
- Concurrency: none is modelled.
