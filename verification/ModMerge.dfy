/**
 The merge of duplicate mods in a submitted score (app/database/score.py, process_score).

 The first occurrence of a mod keeps its place; for each of its settings the first occurrence that has it wins.
 */
module ModMerge {
  import opened Common

  datatype Acronym = Acronym(name: string)
  datatype Key = Key(name: string)
  datatype Value = Number(n: real) | Flag(on: bool) | Null

  /** A mod as the client sends it; the settings may be missing. */
  datatype Mod = Mod(acronym: Acronym, settings: Option<map<Key, Value>>)

  function SettingsOf(m: Mod): map<Key, Value> {
    if m.settings.Some? then m.settings.value else map[]
  }

  /** The earlier of two occurrences with the settings of the later one filled in. */
  function Filled(first: Mod, later: Mod): Mod {
    var joined := SettingsOf(later) + SettingsOf(first);
    if joined != map[] then first.(settings := Some(joined)) else first
  }

  ghost predicate DistinctMods(mods: seq<Mod>) {
    forall i, j | 0 <= i < j < |mods| :: mods[i].acronym != mods[j].acronym
  }

  predicate Occurs(mods: seq<Mod>, a: Acronym) {
    exists i :: 0 <= i < |mods| && mods[i].acronym == a
  }

  // ----- The reference, occurrence by occurrence.

  /** The acronyms in the order of their first occurrence. */
  function FirstOccurrences(mods: seq<Mod>): seq<Acronym> {
    if mods == [] then []
    else
      var front, m := mods[..|mods| - 1], mods[|mods| - 1];
      FirstOccurrences(front) + (if Occurs(front, m.acronym) then [] else [m.acronym])
  }

  /** The first occurrence of a mod. */
  function First(mods: seq<Mod>, a: Acronym): Mod
    requires Occurs(mods, a)
  {
    if mods[0].acronym == a then mods[0] else First(mods[1..], a)
  }

  /** The value of a setting: from the first occurrence of the mod that has it. */
  function Setting(mods: seq<Mod>, a: Acronym, k: Key): Option<Value> {
    if mods == [] then None
    else if mods[0].acronym == a && k in SettingsOf(mods[0]) then Some(SettingsOf(mods[0])[k])
    else Setting(mods[1..], a, k)
  }

  function Lookup(m: Mod, k: Key): Option<Value> {
    if k in SettingsOf(m) then Some(SettingsOf(m)[k]) else None
  }

  /** m is what the occurrences of a amount to. */
  ghost predicate Amounts(mods: seq<Mod>, a: Acronym, m: Mod) {
    && Occurs(mods, a) && m.acronym == a
    && (forall k :: Lookup(m, k) == Setting(mods, a, k))
    && (SettingsOf(m) == map[] ==> m == First(mods, a))
    && (SettingsOf(m) != map[] ==> m.settings.Some?)
  }

  ghost predicate IsMerged(mods: seq<Mod>, merged: seq<Mod>) {
    && |merged| == |FirstOccurrences(mods)|
    && forall i | 0 <= i < |merged| :: Amounts(mods, FirstOccurrences(mods)[i], merged[i])
  }

  // ----- One more occurrence.

  lemma OccursSnoc(mods: seq<Mod>, m: Mod, a: Acronym)
    ensures Occurs(mods + [m], a) <==> Occurs(mods, a) || m.acronym == a
  {
    var longer := mods + [m];
    assert forall i | 0 <= i < |mods| :: longer[i] == mods[i];
    assert longer[|mods|] == m;
  }

  lemma OccursTail(mods: seq<Mod>, a: Acronym)
    requires mods != []
    ensures Occurs(mods, a) <==> mods[0].acronym == a || Occurs(mods[1..], a)
  {
  }

  lemma {:induction false} SettingSnoc(mods: seq<Mod>, m: Mod, a: Acronym, k: Key)
    ensures Setting(mods + [m], a, k) ==
      if Setting(mods, a, k).Some? then Setting(mods, a, k) else if m.acronym == a then Lookup(m, k) else None
  {
    if mods == [] {
      assert (mods + [m])[1..] == [];
    } else {
      assert (mods + [m])[1..] == mods[1..] + [m];
      SettingSnoc(mods[1..], m, a, k);
    }
  }

  lemma {:induction false} FirstSnoc(mods: seq<Mod>, m: Mod, a: Acronym)
    requires Occurs(mods + [m], a)
    ensures First(mods + [m], a) == if Occurs(mods, a) then First(mods, a) else m
  {
    OccursSnoc(mods, m, a);
    if mods != [] {
      assert (mods + [m])[1..] == mods[1..] + [m];
      OccursTail(mods, a);
      OccursTail(mods + [m], a);
      if mods[0].acronym != a {
        FirstSnoc(mods[1..], m, a);
      }
    }
  }

  lemma {:induction false} NoSetting(mods: seq<Mod>, a: Acronym, k: Key)
    requires !Occurs(mods, a)
    ensures Setting(mods, a, k) == None
  {
    if mods != [] {
      OccursTail(mods, a);
      NoSetting(mods[1..], a, k);
    }
  }

  lemma FilledLookup(first: Mod, later: Mod, k: Key)
    ensures Lookup(Filled(first, later), k) == if Lookup(first, k).Some? then Lookup(first, k) else Lookup(later, k)
  {
    var joined := SettingsOf(later) + SettingsOf(first);
    if joined == map[] {
      assert k !in joined;
    }
  }

  /** Another mod leaves the meaning of the occurrences alone. */
  lemma AmountsOther(mods: seq<Mod>, m: Mod, a: Acronym, was: Mod)
    requires Amounts(mods, a, was) && m.acronym != a
    ensures Amounts(mods + [m], a, was)
  {
    OccursSnoc(mods, m, a);
    FirstSnoc(mods, m, a);
    forall k
      ensures Setting(mods + [m], a, k) == Lookup(was, k)
    {
      SettingSnoc(mods, m, a, k);
    }
  }

  lemma AmountsNew(mods: seq<Mod>, m: Mod)
    requires !Occurs(mods, m.acronym)
    ensures Amounts(mods + [m], m.acronym, m)
  {
    OccursSnoc(mods, m, m.acronym);
    FirstSnoc(mods, m, m.acronym);
    forall k
      ensures Setting(mods + [m], m.acronym, k) == Lookup(m, k)
    {
      SettingSnoc(mods, m, m.acronym, k);
      NoSetting(mods, m.acronym, k);
    }
  }

  lemma AmountsAgain(mods: seq<Mod>, m: Mod, was: Mod)
    requires Amounts(mods, m.acronym, was)
    ensures Amounts(mods + [m], m.acronym, Filled(was, m))
  {
    var a, now := m.acronym, Filled(was, m);
    OccursSnoc(mods, m, a);
    FirstSnoc(mods, m, a);
    forall k
      ensures Setting(mods + [m], a, k) == Lookup(now, k)
    {
      SettingSnoc(mods, m, a, k);
      FilledLookup(was, m, k);
    }
    if SettingsOf(now) == map[] {
      assert SettingsOf(m) + SettingsOf(was) == map[];
      assert SettingsOf(was) == map[] by {
        assert forall k | k in SettingsOf(was) :: k in SettingsOf(m) + SettingsOf(was);
      }
    }
  }

  // ----- The loop.

  ghost predicate Collected(mods: seq<Mod>, merged: map<Acronym, Mod>, order: seq<Acronym>) {
    && order == FirstOccurrences(mods)
    && (forall a :: a in merged <==> Occurs(mods, a))
    && (forall a | a in merged :: Amounts(mods, a, merged[a]))
  }

  lemma {:induction false} OccurrencesListed(mods: seq<Mod>)
    ensures NoDuplicates(FirstOccurrences(mods))
    ensures forall a :: a in FirstOccurrences(mods) <==> Occurs(mods, a)
  {
    if mods != [] {
      var front, m := mods[..|mods| - 1], mods[|mods| - 1];
      OccurrencesListed(front);
      assert mods == front + [m];
      forall a
        ensures a in FirstOccurrences(mods) <==> Occurs(mods, a)
      {
        OccursSnoc(front, m, a);
      }
      assert m.acronym in FirstOccurrences(front) <==> Occurs(front, m.acronym);
    }
  }

  lemma CollectStep(mods: seq<Mod>, m: Mod, merged: map<Acronym, Mod>, order: seq<Acronym>)
    requires Collected(mods, merged, order)
    ensures m.acronym in merged ==> Collected(mods + [m], merged[m.acronym := Filled(merged[m.acronym], m)], order)
    ensures m.acronym !in merged ==> Collected(mods + [m], merged[m.acronym := m], order + [m.acronym])
  {
    assert (mods + [m])[..|mods|] == mods;
    forall a
      ensures Occurs(mods + [m], a) <==> Occurs(mods, a) || m.acronym == a
    {
      OccursSnoc(mods, m, a);
    }
    forall a | a in merged && a != m.acronym
      ensures Amounts(mods + [m], a, merged[a])
    {
      AmountsOther(mods, m, a, merged[a]);
    }
    if m.acronym in merged {
      AmountsAgain(mods, m, merged[m.acronym]);
    } else {
      AmountsNew(mods, m);
    }
  }

  /** The list built from the dictionary. */
  function Listed(merged: map<Acronym, Mod>, order: seq<Acronym>): seq<Mod>
    requires forall i | 0 <= i < |order| :: order[i] in merged
  {
    seq(|order|, i requires 0 <= i < |order| => merged[order[i]])
  }

  /** As long as nothing has been merged, the dictionary holds the mods themselves. */
  ghost predicate Untouched(mods: seq<Mod>, merged: map<Acronym, Mod>, order: seq<Acronym>) {
    && |order| <= |mods|
    && (|order| == |mods| ==>
          forall i | 0 <= i < |mods| ::
            order[i] == mods[i].acronym && order[i] in merged && merged[order[i]] == mods[i])
    && (DistinctMods(mods) ==> |order| == |mods|)
  }

  lemma UntouchedStep(mods: seq<Mod>, m: Mod, merged: map<Acronym, Mod>, order: seq<Acronym>)
    requires Collected(mods, merged, order) && Untouched(mods, merged, order)
    ensures m.acronym in merged ==> Untouched(mods + [m], merged[m.acronym := Filled(merged[m.acronym], m)], order)
    ensures m.acronym !in merged ==> Untouched(mods + [m], merged[m.acronym := m], order + [m.acronym])
  {
    var longer := mods + [m];
    assert forall i | 0 <= i < |mods| :: longer[i] == mods[i];
    assert longer[|mods|] == m;
    if DistinctMods(longer) {
      assert DistinctMods(mods) && !Occurs(mods, m.acronym);
    }
  }

  ghost predicate CollectedUntouched(mods: seq<Mod>, merged: map<Acronym, Mod>, order: seq<Acronym>) {
    Collected(mods, merged, order) && Untouched(mods, merged, order)
  }

  /** The loop over the mods: the merged mods by acronym, and the acronyms in order. */
  method CollectMods(mods: seq<Mod>) returns (merged: map<Acronym, Mod>, order: seq<Acronym>)
    ensures CollectedUntouched(mods, merged, order)
  {
    merged, order := map[], [];
    var k := 0;
    assert mods[..0] == [];
    while k < |mods|
      invariant 0 <= k <= |mods|
      invariant CollectedUntouched(mods[..k], merged, order)
    {
      var m := mods[k];
      CollectStep(mods[..k], m, merged, order);
      UntouchedStep(mods[..k], m, merged, order);
      assert mods[..k + 1] == mods[..k] + [m];
      if m.acronym !in merged {
        merged, order := merged[m.acronym := m], order + [m.acronym];
      } else {
        merged := merged[m.acronym := Filled(merged[m.acronym], m)];
      }
      k := k + 1;
    }
    assert mods[..k] == mods;
  }

  /** The mods that are kept with the score. */
  method MergeDuplicates(mods: seq<Mod>) returns (kept: seq<Mod>)
    ensures IsMerged(mods, kept)
    ensures DistinctMods(mods) ==> kept == mods
  {
    var merged, order := CollectMods(mods);
    OccurrencesListed(mods);
    assert forall i | 0 <= i < |order| :: order[i] in merged;
    if |order| != |mods| {
      kept := Listed(merged, order);
    } else {
      kept := mods;
      assert kept == Listed(merged, order);
    }
  }

  // ----- What the merge is.

  /** No acronym occurs twice in the result. */
  lemma MergedIsDistinct(mods: seq<Mod>, merged: seq<Mod>)
    requires IsMerged(mods, merged)
    ensures DistinctMods(merged)
    ensures forall a :: Occurs(merged, a) <==> Occurs(mods, a)
  {
    var order := FirstOccurrences(mods);
    OccurrencesListed(mods);
    forall a
      ensures Occurs(merged, a) <==> Occurs(mods, a)
    {
      if Occurs(mods, a) {
        var i :| 0 <= i < |order| && order[i] == a;
        assert merged[i].acronym == a;
      }
      if Occurs(merged, a) {
        var i :| 0 <= i < |merged| && merged[i].acronym == a;
        assert Amounts(mods, order[i], merged[i]);
      }
    }
  }

  /** The merged settings are the union of all occurrences, earlier ones first. */
  lemma MergedSettings(mods: seq<Mod>, merged: seq<Mod>, i: nat, k: Key)
    requires IsMerged(mods, merged) && i < |merged|
    ensures Lookup(merged[i], k) == Setting(mods, merged[i].acronym, k)
  {
  }

  lemma SameMod(mods: seq<Mod>, a: Acronym, m: Mod, n: Mod)
    requires Amounts(mods, a, m) && Amounts(mods, a, n)
    ensures m == n
  {
    forall k
      ensures k in SettingsOf(m) <==> k in SettingsOf(n)
      ensures k in SettingsOf(m) ==> SettingsOf(m)[k] == SettingsOf(n)[k]
    {
      assert Lookup(m, k) == Lookup(n, k);
    }
    assert SettingsOf(m) == SettingsOf(n);
  }

  /** The result is determined by the list. */
  lemma MergedUnique(mods: seq<Mod>, a: seq<Mod>, b: seq<Mod>)
    requires IsMerged(mods, a) && IsMerged(mods, b)
    ensures a == b
  {
    forall i | 0 <= i < |a|
      ensures a[i] == b[i]
    {
      SameMod(mods, FirstOccurrences(mods)[i], a[i], b[i]);
    }
  }

  /** Two occurrences become one: where both have a setting the first one wins, and the others are all kept. */
  lemma TwoOfAKind(x: Mod, y: Mod, merged: seq<Mod>)
    requires x.acronym == y.acronym && x.settings.Some? && y.settings.Some? && IsMerged([x, y], merged)
    ensures |merged| == 1 && merged[0].acronym == x.acronym
    ensures forall k: Key ::
      Lookup(merged[0], k) ==
        if k in x.settings.value then Some(x.settings.value[k])
        else if k in y.settings.value then Some(y.settings.value[k])
        else None
  {
    var mods, a := [x, y], x.acronym;
    assert mods[..1] == [x] && [x][..0] == [] && mods[1..] == [y] && [y][1..] == [];
    assert [x][0].acronym == a;
    assert FirstOccurrences([x]) == [a] && Occurs([x], a);
    assert FirstOccurrences(mods) == [a];
    forall k: Key
      ensures Setting(mods, a, k) ==
        if k in x.settings.value then Some(x.settings.value[k])
        else if k in y.settings.value then Some(y.settings.value[k])
        else None
    {
      assert Setting([y], a, k) == if k in y.settings.value then Some(y.settings.value[k]) else None;
    }
  }

  /** Merging twice is merging once. */
  lemma MergeIdempotent(mods: seq<Mod>, once: seq<Mod>, twice: seq<Mod>)
    requires IsMerged(mods, once) && IsMerged(once, twice)
    ensures twice == once
  {
    MergedIsDistinct(mods, once);
    DistinctIsMerged(once);
    MergedUnique(once, once, twice);
  }

  lemma {:induction false} DistinctIsMerged(mods: seq<Mod>)
    requires DistinctMods(mods)
    ensures IsMerged(mods, mods)
  {
    if mods != [] {
      var front, m := mods[..|mods| - 1], mods[|mods| - 1];
      DistinctIsMerged(front);
      assert mods == front + [m];
      assert !Occurs(front, m.acronym);
      AmountsNew(front, m);
      forall i | 0 <= i < |front|
        ensures Amounts(mods, FirstOccurrences(front)[i], front[i])
      {
        AmountsOther(front, m, FirstOccurrences(front)[i], front[i]);
      }
    }
  }
}
