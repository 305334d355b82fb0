/** The custom-unit registry of `PMat`: the class-level list `_customunit` of
    custom symbols and the dictionary `_custommean` from each symbol to the unit
    expression that defines it. Definitions are plain text and are decomposed
    only when a unit string that uses them is (so redefining a symbol changes
    every unit defined through it). */
module CustomUnits {
  import opened Sorting

  /** Python's string order: lexicographic on characters, a proper prefix first. */
  predicate StrLe(a: string, b: string)
  {
    a == [] || (b != [] && (a[0] < b[0] || (a[0] == b[0] && StrLe(a[1..], b[1..]))))
  }

  lemma {:induction false} StrLeConnex(a: string, b: string)
    ensures StrLe(a, b) || StrLe(b, a)
  {
    if a != [] && b != [] && a[0] == b[0] {
      StrLeConnex(a[1..], b[1..]);
    }
  }

  lemma {:induction false} StrLeTrans(a: string, b: string, c: string)
    requires StrLe(a, b) && StrLe(b, c)
    ensures StrLe(a, c)
  {
    if a != [] && b != [] && c != [] && a[0] == b[0] == c[0] {
      StrLeTrans(a[1..], b[1..], c[1..]);
    }
  }

  lemma {:induction false} StrLeAntisym(a: string, b: string)
    requires StrLe(a, b) && StrLe(b, a)
    ensures a == b
  {
    if a != [] && b != [] {
      StrLeAntisym(a[1..], b[1..]);
      assert a == [a[0]] + a[1..] && b == [b[0]] + b[1..];
    }
  }

  /** The textbook lexicographic order: `a` is a prefix of `b`, or at the
      first position where they differ `a` has the smaller character. */
  ghost predicate Lexicographic(a: string, b: string)
  {
    || (|a| <= |b| && b[..|a|] == a)
    || exists k :: 0 <= k < |a| && k < |b| && a[..k] == b[..k] && a[k] < b[k]
  }

  /** `StrLe`, Python's order on strings, is that lexicographic order. */
  lemma {:induction false} StrLeIsLexicographic(a: string, b: string)
    ensures StrLe(a, b) <==> Lexicographic(a, b)
  {
    if a != [] && b != [] {
      if a[0] == b[0] {
        StrLeIsLexicographic(a[1..], b[1..]);
        LexicographicSameHead(a, b);
      } else {
        LexicographicHeadsDiffer(a, b);
      }
    }
  }

  lemma LexicographicSameHead(a: string, b: string)
    requires a != [] && b != [] && a[0] == b[0]
    ensures Lexicographic(a, b) <==> Lexicographic(a[1..], b[1..])
  {
    var a', b' := a[1..], b[1..];
    PrefixSameHead(a, b);
    if exists k :: 0 <= k < |a| && k < |b| && a[..k] == b[..k] && a[k] < b[k] {
      var k :| 0 <= k < |a| && k < |b| && a[..k] == b[..k] && a[k] < b[k];
      DifferenceShiftsDown(a, b, k);
    }
    if exists k :: 0 <= k < |a'| && k < |b'| && a'[..k] == b'[..k] && a'[k] < b'[k] {
      var k :| 0 <= k < |a'| && k < |b'| && a'[..k] == b'[..k] && a'[k] < b'[k];
      DifferenceShiftsUp(a, b, k);
    }
  }

  lemma PrefixSameHead(a: string, b: string)
    requires a != [] && b != [] && a[0] == b[0]
    ensures (|a| <= |b| && b[..|a|] == a) <==> (|a[1..]| <= |b[1..]| && b[1..][..|a[1..]|] == a[1..])
  {
    assert a == [a[0]] + a[1..];
    if |a| <= |b| {
      assert b[..|a|] == [b[0]] + b[1..][..|a[1..]|];
    }
  }

  lemma DifferenceShiftsDown(a: string, b: string, k: nat)
    requires a != [] && b != [] && a[0] == b[0]
    requires k < |a| && k < |b| && a[..k] == b[..k] && a[k] < b[k]
    ensures 0 < k && a[1..][..k - 1] == b[1..][..k - 1] && a[1..][k - 1] < b[1..][k - 1]
  {
    assert a[1..][..k - 1] == a[..k][1..];
    assert b[1..][..k - 1] == b[..k][1..];
  }

  lemma DifferenceShiftsUp(a: string, b: string, k: nat)
    requires a != [] && b != [] && a[0] == b[0]
    requires k < |a[1..]| && k < |b[1..]| && a[1..][..k] == b[1..][..k] && a[1..][k] < b[1..][k]
    ensures a[..k + 1] == b[..k + 1] && a[k + 1] < b[k + 1]
  {
    assert a[..k + 1] == [a[0]] + a[1..][..k];
    assert b[..k + 1] == [b[0]] + b[1..][..k];
  }

  lemma LexicographicHeadsDiffer(a: string, b: string)
    requires a != [] && b != [] && a[0] != b[0]
    ensures Lexicographic(a, b) <==> a[0] < b[0]
  {
    assert a[..0] == b[..0];
    forall k | 0 < k < |a| && k < |b|
      ensures a[..k] != b[..k]
    {
      assert a[..k][0] != b[..k][0];
    }
    if |a| <= |b| {
      assert b[..|a|][0] != a[0];
    }
  }

  /** `StrLe` is a total order, so sorting the symbols by it has one outcome. */
  lemma StrLeTotalOrder()
    ensures Total(StrLe) && Transitive(StrLe) && Antisymmetric(StrLe)
  {
    forall a, b ensures StrLe(a, b) || StrLe(b, a) { StrLeConnex(a, b); }
    forall a, b, c | StrLe(a, b) && StrLe(b, c) ensures StrLe(a, c) { StrLeTrans(a, b, c); }
    forall a, b | StrLe(a, b) && StrLe(b, a) ensures a == b { StrLeAntisym(a, b); }
  }

  ghost predicate NoDuplicates(s: seq<string>)
  {
    forall x :: multiset(s)[x] <= 1
  }

  /** What `define` and `undefine` keep true of the two class-level variables:
      the list holds each symbol once, exactly the keys of the dictionary, and
      no symbol is empty. (An empty symbol alone joins into an empty pattern and
      is ignored; beside another symbol it becomes an empty alternative of the
      unit pattern, which is then read without advancing the cursor.) */
  ghost predicate WellFormed(symbols: seq<string>, meaning: map<string, string>)
  {
    && NoDuplicates(symbols)
    && (forall u :: u in meaning <==> u in symbols)
    && (forall u :: u in symbols ==> u != [])
  }

  /** In a well-formed registry no symbol appears at two positions of the list. */
  lemma WellFormedDistinct(symbols: seq<string>, meaning: map<string, string>)
    requires WellFormed(symbols, meaning)
    ensures forall i, j :: 0 <= i < j < |symbols| ==> symbols[i] != symbols[j]
  {
    forall i, j | 0 <= i < j < |symbols|
      ensures symbols[i] != symbols[j]
    {
      assert symbols == symbols[..j] + symbols[j..];
      assert multiset(symbols) == multiset(symbols[..j]) + multiset(symbols[j..]);
      assert symbols[i] in symbols[..j] && symbols[j] in symbols[j..];
      assert multiset(symbols)[symbols[j]] >= 1 + multiset(symbols[..j])[symbols[j]];
    }
  }

  /** Position of the first occurrence of `x` in `s`. */
  function IndexOf(s: seq<string>, x: string): (i: nat)
    requires x in s
    ensures i < |s| && s[i] == x && x !in s[..i]
  {
    if s[0] == x then 0 else 1 + IndexOf(s[1..], x)
  }

  /** Sorting keeps the registry well formed: it only reorders the symbols. */
  lemma SortKeepsWellFormed(symbols: seq<string>, meaning: map<string, string>)
    requires WellFormed(symbols, meaning)
    ensures WellFormed(InsertionSort(symbols, StrLe), meaning)
  {
    var sorted := InsertionSort(symbols, StrLe);
    assert forall u :: u in sorted <==> u in multiset(sorted);
    assert forall u :: u in symbols <==> u in multiset(symbols);
  }

  /** Removing a symbol from the list and its meaning from the dictionary keeps
      the registry well formed and leaves the other symbols defined. */
  lemma RemoveKeepsWellFormed(s: seq<string>, meaning: map<string, string>, i: nat)
    requires WellFormed(s, meaning) && i < |s|
    ensures WellFormed(s[..i] + s[i + 1..], meaning - {s[i]})
    ensures s[i] !in s[..i] + s[i + 1..]
    ensures forall x :: x != s[i] ==> (x in s[..i] + s[i + 1..] <==> x in s)
  {
    RemoveAtNoDuplicates(s, i);
    RemoveAtMembers(s, i);
    var r := s[..i] + s[i + 1..];
    assert forall u :: u in meaning - {s[i]} <==> u in r;
  }

  lemma RemoveAtMultiset(s: seq<string>, i: nat)
    requires i < |s|
    ensures multiset(s) == multiset(s[..i] + s[i + 1..]) + multiset{s[i]}
  {
    assert s == s[..i] + [s[i]] + s[i + 1..];
  }

  lemma RemoveAtNoDuplicates(s: seq<string>, i: nat)
    requires NoDuplicates(s) && i < |s|
    ensures NoDuplicates(s[..i] + s[i + 1..]) && s[i] !in s[..i] + s[i + 1..]
  {
    var r := s[..i] + s[i + 1..];
    RemoveAtMultiset(s, i);
    assert multiset(s)[s[i]] <= 1;
    assert multiset(r)[s[i]] == 0;
    forall x
      ensures multiset(r)[x] <= 1
    {
      assert multiset(r)[x] <= multiset(s)[x];
    }
  }

  lemma RemoveAtMembers(s: seq<string>, i: nat)
    requires i < |s|
    ensures forall x :: x != s[i] ==> (x in s[..i] + s[i + 1..] <==> x in s)
  {
    var r := s[..i] + s[i + 1..];
    RemoveAtMultiset(s, i);
    forall x | x != s[i]
      ensures x in r <==> x in s
    {
      assert x in r <==> x in multiset(r);
      assert x in s <==> x in multiset(s);
    }
  }

  class Registry {
    /** `_customunit`, in its current order. */
    var symbols: seq<string>
    /** `_custommean`. */
    var meaning: map<string, string>

    ghost predicate Valid()
      reads this
    {
      WellFormed(symbols, meaning)
    }

    /** The registry at program start: both class-level variables empty. */
    constructor ()
      ensures Valid() && symbols == [] && meaning == map[]
    {
      symbols := [];
      meaning := map[];
    }

    /** `define(short, long)`: adds the symbol at the end of the list unless it is
        already there, and sets its meaning (the last definition wins). */
    method Define(short: string, long: string)
      requires Valid()
      requires short != []
      modifies this
      ensures Valid()
      ensures symbols == if short in old(symbols) then old(symbols) else old(symbols) + [short]
      ensures meaning == old(meaning)[short := long]
    {
      if short !in symbols {
        symbols := symbols + [short];
      }
      meaning := meaning[short := long];
    }

    /** `undefine(short)`: looks for the symbol in list order and, at the first
        (only) occurrence, deletes its meaning and removes it from the list;
        does nothing when the symbol is not defined. */
    method Undefine(short: string)
      requires Valid()
      modifies this
      ensures Valid()
      ensures meaning == old(meaning) - {short}
      ensures short !in old(symbols) ==> symbols == old(symbols)
      ensures short in old(symbols) ==>
                var i := IndexOf(old(symbols), short);
                symbols == old(symbols)[..i] + old(symbols)[i + 1..]
      ensures short !in symbols
      ensures forall x :: x != short ==> (x in symbols <==> x in old(symbols))
    {
      var i := 0;
      while i < |symbols|
        invariant 0 <= i <= |symbols|
        invariant short !in symbols[..i]
        invariant symbols == old(symbols) && meaning == old(meaning)
      {
        if symbols[i] == short {
          assert i == IndexOf(symbols, short);
          RemoveKeepsWellFormed(symbols, meaning, i);
          meaning := meaning - {short};
          symbols := symbols[..i] + symbols[i + 1..];
          return;
        }
        assert symbols[..i + 1] == symbols[..i] + [symbols[i]];
        i := i + 1;
      }
      assert symbols[..i] == symbols;
    }

    /** `undefine(True)`: forgets every custom unit. */
    method UndefineAll()
      modifies this
      ensures Valid() && symbols == [] && meaning == map[]
    {
      symbols := [];
      meaning := map[];
    }

    /** The in-place `sort` that `_re_cu` performs on the list each time a unit
        string is decomposed; custom symbols are then tried in this order. */
    method SortSymbols()
      requires Valid()
      modifies this
      ensures Valid() && meaning == old(meaning)
      ensures symbols == InsertionSort(old(symbols), StrLe)
      ensures Sorted(symbols, StrLe)
    {
      SortKeepsWellFormed(symbols, meaning);
      StrLeTotalOrder();
      SortSorted(symbols, StrLe);
      symbols := InsertionSort(symbols, StrLe);
    }
  }
}
