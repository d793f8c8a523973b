/**
 The score multiplier of a mod list (app/calculators/score_multiplier.py, _evaluate).

 Combinations are taken greedily in table order, each using up its mods; the mods left over count one by
 one.  The reference assigns every mod to one combination or to itself, whatever order the mods come in.
 */
module Multiplier {
  import opened Common
  import opened ModMerge

  datatype Combination = Combination(acronyms: set<Acronym>, factor: map<Acronym, Mod> -> real)

  type Singles = map<Acronym, Mod -> real>

  /** The mods by acronym; the last occurrence stays. */
  function ByAcronym(mods: seq<Mod>): map<Acronym, Mod> {
    if mods == [] then map[]
    else
      var last := mods[|mods| - 1];
      ByAcronym(mods[..|mods| - 1])[last.acronym := last]
  }

  /** Every entry is one of the mods, under its own acronym. */
  lemma {:induction false} EntriesAreMods(mods: seq<Mod>, a: Acronym)
    requires a in ByAcronym(mods)
    ensures ByAcronym(mods)[a].acronym == a && ByAcronym(mods)[a] in mods
  {
    var front, last := mods[..|mods| - 1], mods[|mods| - 1];
    assert mods == front + [last];
    if a != last.acronym {
      EntriesAreMods(front, a);
    }
  }

  lemma {:induction false} DistinctModsEntered(mods: seq<Mod>, i: nat)
    requires DistinctMods(mods) && i < |mods|
    ensures mods[i].acronym in ByAcronym(mods) && ByAcronym(mods)[mods[i].acronym] == mods[i]
  {
    if i < |mods| - 1 {
      DistinctModsEntered(mods[..|mods| - 1], i);
    }
  }

  lemma SameEntry(mods: seq<Mod>, other: seq<Mod>, a: Acronym)
    requires DistinctMods(other) && a in ByAcronym(mods)
    requires forall m :: m in mods <==> m in other
    ensures a in ByAcronym(other) && ByAcronym(other)[a] == ByAcronym(mods)[a]
  {
    EntriesAreMods(mods, a);
    var i :| 0 <= i < |other| && other[i] == ByAcronym(mods)[a];
    DistinctModsEntered(other, i);
  }

  /** Lists without duplicates that hold the same mods give the same dictionary, in whatever order. */
  lemma DictionaryOrderFree(mods: seq<Mod>, other: seq<Mod>)
    requires DistinctMods(mods) && DistinctMods(other)
    requires forall m :: m in mods <==> m in other
    ensures ByAcronym(mods) == ByAcronym(other)
  {
    var x, y := ByAcronym(mods), ByAcronym(other);
    forall a
      ensures a in x <==> a in y
      ensures a in x ==> x[a] == y[a]
    {
      if a in x {
        SameEntry(mods, other, a);
      }
      if a in y {
        SameEntry(other, mods, a);
      }
    }
  }

  /** With duplicates the last one counts, while the merge lets the first one win. */
  lemma LastCountsUnlessMerged(first: Mod, last: Mod)
    requires first.acronym == last.acronym
    ensures ByAcronym([first, last]) == map[first.acronym := last]
    ensures IsMerged([first, last], [Filled(first, last)])
  {
    assert [first, last][..1] == [first] && [first][..0] == [];
    assert ByAcronym([first]) == map[first.acronym := first];
    AmountsNew([], first);
    assert [] + [first] == [first] && [first] + [last] == [first, last];
    AmountsAgain([first], last, first);
    assert FirstOccurrences([first]) == [first.acronym];
    assert Occurs([first], last.acronym);
  }

  // ----- The greedy choice.

  /** The acronyms not used up by the first n combinations. */
  function Remaining(keys: set<Acronym>, combos: seq<Combination>, n: nat): set<Acronym>
    requires n <= |combos|
  {
    if n == 0 then keys
    else
      var left := Remaining(keys, combos, n - 1);
      if combos[n - 1].acronyms <= left then left - combos[n - 1].acronyms else left
  }

  predicate Fires(keys: set<Acronym>, combos: seq<Combination>, k: nat)
    requires k < |combos|
  {
    combos[k].acronyms <= Remaining(keys, combos, k)
  }

  /** An acronym is left over exactly if no combination that fired has it. */
  lemma {:induction false} LeftOver(keys: set<Acronym>, combos: seq<Combination>, n: nat, a: Acronym)
    requires n <= |combos|
    ensures a in Remaining(keys, combos, n) <==>
      a in keys && forall k | 0 <= k < n && Fires(keys, combos, k) :: a !in combos[k].acronyms
  {
    if n > 0 {
      LeftOver(keys, combos, n - 1, a);
    }
  }

  /** A combination fires exactly if its mods are there and no earlier one that fired shares a mod with it. */
  lemma FiresExactly(keys: set<Acronym>, combos: seq<Combination>, k: nat)
    requires k < |combos|
    ensures Fires(keys, combos, k) <==>
      combos[k].acronyms <= keys && forall j | 0 <= j < k && Fires(keys, combos, j) ::
        combos[j].acronyms !! combos[k].acronyms
  {
    forall a
      ensures a in Remaining(keys, combos, k) <==>
        a in keys && forall j | 0 <= j < k && Fires(keys, combos, j) :: a !in combos[j].acronyms
    {
      LeftOver(keys, combos, k, a);
    }
  }

  /** Every mod feeds exactly one combination that fired, or is left over to count on its own. */
  lemma Partition(keys: set<Acronym>, combos: seq<Combination>, a: Acronym)
    requires a in keys
    ensures a in Remaining(keys, combos, |combos|) <==>
      !exists k :: 0 <= k < |combos| && Fires(keys, combos, k) && a in combos[k].acronyms
    ensures forall j, k | 0 <= j < k < |combos| && Fires(keys, combos, j) && Fires(keys, combos, k) ::
      !(a in combos[j].acronyms && a in combos[k].acronyms)
  {
    LeftOver(keys, combos, |combos|, a);
    forall j, k | 0 <= j < k < |combos| && Fires(keys, combos, j) && Fires(keys, combos, k)
      ensures !(a in combos[j].acronyms && a in combos[k].acronyms)
    {
      FiresExactly(keys, combos, k);
    }
  }

  // ----- The products.

  function CombinationProduct(dict: map<Acronym, Mod>, combos: seq<Combination>, n: nat): real
    requires n <= |combos|
  {
    if n == 0 then 1.0
    else if Fires(dict.Keys, combos, n - 1) then CombinationProduct(dict, combos, n - 1) * combos[n - 1].factor(dict)
    else CombinationProduct(dict, combos, n - 1)
  }

  /** What the mods of s count on their own; a mod without an entry does not count. */
  function SinglesOf(dict: map<Acronym, Mod>, singles: Singles, s: set<Acronym>): map<Acronym, real> {
    map a | a in s && a in singles && a in dict :: singles[a](dict[a])
  }

  ghost function SomeKey(m: map<Acronym, real>): (k: Acronym)
    requires m != map[]
    ensures k in m
  {
    var k :| k in m;
    k
  }

  ghost function Product(m: map<Acronym, real>): real {
    if m == map[] then 1.0 else m[SomeKey(m)] * Product(m - {SomeKey(m)})
  }

  lemma Regroup(x: real, y: real, z: real, yz: real, xz: real)
    requires yz == y * z && xz == x * z
    ensures x * yz == y * xz
  {
  }

  lemma Absorb(x: real, y: real, z: real, yz: real)
    requires yz == y * z
    ensures (x * y) * z == x * yz
  {
  }

  /** Any factor may be taken first. */
  lemma {:induction false} ProductSplit(m: map<Acronym, real>, k: Acronym)
    requires k in m
    ensures Product(m) == m[k] * Product(m - {k})
    decreases |m|
  {
    var c := SomeKey(m);
    if c != k {
      ProductSplit(m - {c}, k);
      ProductSplit(m - {k}, c);
      assert m - {c} - {k} == m - {k} - {c};
      Regroup(m[c], m[k], Product(m - {c} - {k}), Product(m - {c}), Product(m - {k}));
    }
  }

  /** What a partial result comes to when the mods of s are multiplied in. */
  ghost function Completed(result: real, dict: map<Acronym, Mod>, singles: Singles, s: set<Acronym>): real {
    result * Product(SinglesOf(dict, singles, s))
  }

  lemma TakeOne(result: real, dict: map<Acronym, Mod>, singles: Singles, s: set<Acronym>, a: Acronym)
    requires a in s && a in dict && a in singles
    ensures Completed(result * singles[a](dict[a]), dict, singles, s - {a}) == Completed(result, dict, singles, s)
  {
    assert SinglesOf(dict, singles, s - {a}) == SinglesOf(dict, singles, s) - {a};
    FactorOut(result, SinglesOf(dict, singles, s), a);
  }

  lemma FactorOut(x: real, m: map<Acronym, real>, k: Acronym)
    requires k in m
    ensures (x * m[k]) * Product(m - {k}) == x * Product(m)
  {
    ProductSplit(m, k);
    Absorb(x, m[k], Product(m - {k}), Product(m));
  }

  lemma PassOver(result: real, dict: map<Acronym, Mod>, singles: Singles, s: set<Acronym>, a: Acronym)
    requires a !in singles
    ensures Completed(result, dict, singles, s - {a}) == Completed(result, dict, singles, s)
  {
    assert SinglesOf(dict, singles, s - {a}) == SinglesOf(dict, singles, s);
  }

  lemma TakenAll(result: real, dict: map<Acronym, Mod>, singles: Singles, s: set<Acronym>)
    requires s == {}
    ensures Completed(result, dict, singles, s) == result
  {
  }

  /** The product over the combinations that fire and the mods left over. */
  ghost function Multiplied(dict: map<Acronym, Mod>, singles: Singles, combos: seq<Combination>): real {
    Completed(CombinationProduct(dict, combos, |combos|), dict, singles, Remaining(dict.Keys, combos, |combos|))
  }

  /** Combinations of two mods or more. */
  ghost predicate Proper(combos: seq<Combination>) {
    forall k | 0 <= k < |combos| :: |combos[k].acronyms| >= 2
  }

  /** A single mod fires no combination. */
  lemma {:induction false} NoCombination(dict: map<Acronym, Mod>, combos: seq<Combination>, n: nat)
    requires Proper(combos) && |dict| <= 1 && n <= |combos|
    ensures Remaining(dict.Keys, combos, n) == dict.Keys && CombinationProduct(dict, combos, n) == 1.0
  {
    if n > 0 {
      NoCombination(dict, combos, n - 1);
      var combo := combos[n - 1].acronyms;
      assert |dict.Keys| == |dict|;
      if combo <= dict.Keys {
        SubsetCount(combo, dict.Keys);
      }
    }
  }

  lemma NothingToTake(dict: map<Acronym, Mod>, singles: Singles, combos: seq<Combination>)
    requires Proper(combos) && dict == map[]
    ensures Multiplied(dict, singles, combos) == 1.0
  {
    NoCombination(dict, combos, |combos|);
    TakenAll(1.0, dict, singles, dict.Keys);
  }

  /** One mod counts for its factor, and an unknown one for nothing. */
  lemma OneMod(m: Mod, singles: Singles, combos: seq<Combination>)
    requires Proper(combos)
    ensures Multiplied(map[m.acronym := m], singles, combos) ==
      if m.acronym in singles then singles[m.acronym](m) else 1.0
  {
    var dict := map[m.acronym := m];
    NoCombination(dict, combos, |combos|);
    var factors := SinglesOf(dict, singles, dict.Keys);
    if m.acronym in singles {
      assert factors == map[m.acronym := singles[m.acronym](m)];
      assert factors - {m.acronym} == map[];
      ProductSplit(factors, m.acronym);
    } else {
      assert factors == map[];
    }
  }

  lemma {:induction false} UsedUp(dict: map<Acronym, Mod>, combos: seq<Combination>, n: nat)
    requires Proper(combos) && 1 <= n <= |combos| && dict.Keys == combos[0].acronyms
    ensures Remaining(dict.Keys, combos, n) == {} && CombinationProduct(dict, combos, n) == combos[0].factor(dict)
  {
    if n == 1 {
      assert Remaining(dict.Keys, combos, 0) == dict.Keys && CombinationProduct(dict, combos, 0) == 1.0;
    } else {
      UsedUp(dict, combos, n - 1);
      assert |combos[n - 1].acronyms| >= 2;
    }
  }

  /** The mods of the first combination alone count for its factor, whatever each of them would count for. */
  lemma FirstCombination(dict: map<Acronym, Mod>, singles: Singles, combos: seq<Combination>)
    requires Proper(combos) && combos != [] && dict.Keys == combos[0].acronyms
    ensures Multiplied(dict, singles, combos) == combos[0].factor(dict)
  {
    UsedUp(dict, combos, |combos|);
    assert SinglesOf(dict, singles, {}) == map[];
  }

  method Evaluate(mods: seq<Mod>, singles: Singles, combos: seq<Combination>) returns (result: real)
    requires Proper(combos)
    ensures result == Multiplied(ByAcronym(mods), singles, combos)
  {
    var dict := ByAcronym(mods);
    var remaining := dict.Keys;
    result := 1.0;
    if dict == map[] {
      NothingToTake(dict, singles, combos);
      return;
    }
    if |dict| > 1 {
      result, remaining := TakeCombinations(dict, combos);
    } else {
      NoCombination(dict, combos, |combos|);
    }
    result := TakeSingles(dict, singles, remaining, result);
  }

  method TakeCombinations(dict: map<Acronym, Mod>, combos: seq<Combination>)
    returns (result: real, remaining: set<Acronym>)
    ensures result == CombinationProduct(dict, combos, |combos|)
    ensures remaining == Remaining(dict.Keys, combos, |combos|) <= dict.Keys
  {
    remaining := dict.Keys;
    result := 1.0;
    for k := 0 to |combos|
      invariant result == CombinationProduct(dict, combos, k)
      invariant remaining == Remaining(dict.Keys, combos, k) <= dict.Keys
    {
      if combos[k].acronyms <= remaining {
        result := result * combos[k].factor(dict);
        remaining := remaining - combos[k].acronyms;
      }
    }
  }

  /** The mods left over, in any order. */
  method TakeSingles(dict: map<Acronym, Mod>, singles: Singles, remaining: set<Acronym>, start: real)
    returns (result: real)
    requires remaining <= dict.Keys
    ensures result == Completed(start, dict, singles, remaining)
  {
    result := start;
    var todo := remaining;
    while todo != {}
      invariant todo <= remaining
      invariant Completed(result, dict, singles, todo) == Completed(start, dict, singles, remaining)
      decreases |todo|
    {
      var a := AnyMember(todo);
      if a in singles {
        TakeOne(result, dict, singles, todo, a);
        result := result * singles[a](dict[a]);
      } else {
        PassOver(result, dict, singles, todo, a);
      }
      todo := todo - {a};
    }
    TakenAll(result, dict, singles, todo);
  }

  /** On merged lists the order of the mods plays no part. */
  lemma OrderFree(mods: seq<Mod>, other: seq<Mod>, singles: Singles, combos: seq<Combination>)
    requires DistinctMods(mods) && DistinctMods(other)
    requires forall m :: m in mods <==> m in other
    ensures Multiplied(ByAcronym(mods), singles, combos) == Multiplied(ByAcronym(other), singles, combos)
  {
    DictionaryOrderFree(mods, other);
  }

  // ----- The osu! combinations.

  function Pair(a: string, b: string): set<Acronym> {
    {Acronym(a), Acronym(b)}
  }

  ghost predicate IsOsuTable(combos: seq<Combination>) {
    && |combos| == 8
    && combos[0].acronyms == Pair("HD", "BL") && combos[1].acronyms == Pair("HD", "WG")
    && combos[2].acronyms == Pair("HD", "GR") && combos[3].acronyms == Pair("HD", "DF")
    && combos[4].acronyms == Pair("HD", "RP") && combos[5].acronyms == Pair("HD", "DP")
    && combos[6].acronyms == Pair("TC", "BL") && combos[7].acronyms == Pair("FL", "FR")
  }

  predicate Has(keys: set<Acronym>, name: string) {
    Acronym(name) in keys
  }

  function HiddenPartners(): seq<string> {
    ["BL", "WG", "GR", "DF", "RP", "DP"]
  }

  /** Hidden combines with its first partner in the table, traceable with blinds only when hidden is not
      there, and flashlight with freeze frame always. */
  lemma OsuCombinations(keys: set<Acronym>, combos: seq<Combination>)
    requires IsOsuTable(combos)
    ensures forall k | 0 <= k < 6 ::
      Fires(keys, combos, k) <==>
        Has(keys, "HD") && Has(keys, HiddenPartners()[k]) && forall j | 0 <= j < k :: !Has(keys, HiddenPartners()[j])
    ensures Fires(keys, combos, 6) <==> Has(keys, "TC") && Has(keys, "BL") && !Has(keys, "HD")
    ensures Fires(keys, combos, 7) <==> Has(keys, "FL") && Has(keys, "FR")
  {
    forall k | 0 <= k < 8
      ensures Fires(keys, combos, k) <==>
        combos[k].acronyms <= keys && forall j | 0 <= j < k && Fires(keys, combos, j) ::
          combos[j].acronyms !! combos[k].acronyms
    {
      FiresExactly(keys, combos, k);
    }
  }

  /** All of them are pairs; the other rulesets have no combinations at all. */
  lemma OsuTableIsProper(combos: seq<Combination>)
    requires IsOsuTable(combos)
    ensures Proper(combos)
  {
  }
}
