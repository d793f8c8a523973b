/**
 The list of cached beatmaps kept by the recalculation tool (tools/recalculate.py, BeatmapCacheManager).

 The reference is the whole access history: the distinct ids in the order of their last use.
 */
module BeatmapCache {
  import opened Common

  datatype Id = Id(number: int)

  /** list.remove: takes out the first occurrence. */
  function Without(s: seq<Id>, x: Id): seq<Id> {
    if s == [] then [] else if s[0] == x then s[1..] else [s[0]] + Without(s[1..], x)
  }

  function Moved(s: seq<Id>, x: Id): seq<Id> {
    Without(s, x) + [x]
  }

  /** The ids of a history, each once, ordered by their last use. */
  function Recency(history: seq<Id>): seq<Id> {
    if history == [] then []
    else Moved(Recency(history[..|history| - 1]), history[|history| - 1])
  }

  /** The index of the last use. */
  function LastUse(history: seq<Id>, x: Id): nat
    requires x in history
  {
    if history[|history| - 1] == x then |history| - 1 else LastUse(history[..|history| - 1], x)
  }

  lemma LastUseAt(history: seq<Id>, x: Id)
    requires x in history
    ensures LastUse(history, x) < |history| && history[LastUse(history, x)] == x
    ensures forall i | LastUse(history, x) < i < |history| :: history[i] != x
  {
  }

  lemma {:induction false} WithoutAbsent(s: seq<Id>, x: Id)
    requires x !in s
    ensures Without(s, x) == s
  {
    if s != [] {
      WithoutAbsent(s[1..], x);
    }
  }

  lemma {:induction false} WithoutSplit(s: seq<Id>, t: seq<Id>, x: Id)
    ensures Without(s + t, x) == if x in s then Without(s, x) + t else s + Without(t, x)
  {
    if s == [] {
      assert s + t == t;
    } else {
      assert (s + t)[1..] == s[1..] + t;
      WithoutSplit(s[1..], t, x);
    }
  }

  lemma ElementsConcat(s: seq<Id>, t: seq<Id>)
    ensures Elements(s + t) == Elements(s) + Elements(t)
  {
  }

  lemma HeadOut(s: seq<Id>)
    requires NoDuplicates(s) && s != []
    ensures Elements(s) - {s[0]} == Elements(s[1..])
    ensures NoDuplicates(s[1..])
  {
  }

  lemma HeadOn(x: Id, s: seq<Id>)
    requires NoDuplicates(s) && x !in Elements(s)
    ensures NoDuplicates([x] + s)
  {
  }

  /** On a list without duplicates the id is gone and nothing else is. */
  lemma {:induction false} WithoutDistinct(s: seq<Id>, x: Id)
    requires NoDuplicates(s)
    ensures NoDuplicates(Without(s, x)) && Elements(Without(s, x)) == Elements(s) - {x}
    ensures |Without(s, x)| == |s| - (if x in s then 1 else 0)
  {
    if s != [] {
      HeadOut(s);
      assert s == [s[0]] + s[1..];
      ElementsConcat([s[0]], s[1..]);
      if s[0] != x {
        WithoutDistinct(s[1..], x);
        ElementsConcat([s[0]], Without(s[1..], x));
        HeadOn(s[0], Without(s[1..], x));
      }
    }
  }

  lemma MovedDistinct(s: seq<Id>, x: Id)
    requires NoDuplicates(s)
    ensures NoDuplicates(Moved(s, x)) && Elements(Moved(s, x)) == Elements(s) + {x}
  {
    WithoutDistinct(s, x);
    assert forall y :: y in Without(s, x) <==> y in Elements(Without(s, x));
  }

  lemma {:induction false} RecencyDistinct(history: seq<Id>)
    ensures NoDuplicates(Recency(history)) && Elements(Recency(history)) == Elements(history)
  {
    if history != [] {
      var front, x := history[..|history| - 1], history[|history| - 1];
      RecencyDistinct(front);
      MovedDistinct(Recency(front), x);
      assert history == front + [x];
    }
  }

  ghost predicate ByLastUse(history: seq<Id>, s: seq<Id>) {
    && (forall i | 0 <= i < |s| :: s[i] in history)
    && (forall i, j | 0 <= i < j < |s| :: LastUse(history, s[i]) < LastUse(history, s[j]))
  }

  lemma {:induction false} WithoutKeepsOrder(history: seq<Id>, s: seq<Id>, x: Id)
    requires ByLastUse(history, s)
    ensures ByLastUse(history, Without(s, x))
    ensures forall i | 0 <= i < |Without(s, x)| :: Without(s, x)[i] in s
  {
    if s != [] && s[0] != x {
      var rest := s[1..];
      WithoutKeepsOrder(history, rest, x);
      var kept := Without(rest, x);
      forall i | 0 <= i < |kept|
        ensures LastUse(history, s[0]) < LastUse(history, kept[i])
      {
        var j :| 0 <= j < |rest| && rest[j] == kept[i];
        assert rest[j] == s[j + 1];
      }
    }
  }

  /** The reference really is ordered by last use. */
  lemma {:induction false} RecencyByLastUse(history: seq<Id>)
    ensures ByLastUse(history, Recency(history))
  {
    if history != [] {
      var front, x := history[..|history| - 1], history[|history| - 1];
      RecencyByLastUse(front);
      RecencyDistinct(front);
      WithoutKeepsOrder(front, Recency(front), x);
      WithoutDistinct(Recency(front), x);
      var kept := Without(Recency(front), x);
      forall i | 0 <= i < |kept|
        ensures kept[i] in history && LastUse(history, kept[i]) == LastUse(front, kept[i]) < |front|
      {
        assert kept[i] in Elements(kept);
        LastUseAt(front, kept[i]);
      }
    }
  }

  ghost predicate IsSuffix(s: seq<Id>, t: seq<Id>) {
    |s| <= |t| && s == t[|t| - |s|..]
  }

  /** What is not in a suffix stands before everything in it. */
  lemma BeforeSuffix(all: seq<Id>, s: seq<Id>, a: Id, b: Id) returns (j: nat, i: nat)
    requires IsSuffix(s, all) && a in s && b in all && b !in s
    ensures j < i < |all| && all[i] == a && all[j] == b
  {
    var from := |all| - |s|;
    var k :| 0 <= k < |s| && s[k] == a;
    assert all == all[..from] + s;
    assert b in all[..from];
    j :| 0 <= j < from && all[j] == b;
    i := from + k;
  }

  /** A suffix of the reference holds the most recently used ids: each of them was used after all others. */
  lemma SuffixIsMostRecent(history: seq<Id>, s: seq<Id>, a: Id, b: Id)
    requires IsSuffix(s, Recency(history))
    requires a in s && b in history && b !in s
    ensures a in history && LastUse(history, b) < LastUse(history, a)
  {
    RecencyDistinct(history);
    assert b in Elements(Recency(history));
    var j, i := BeforeSuffix(Recency(history), s, a, b);
    RecencyByLastUse(history);
  }

  /** Using an id keeps the tracked list a suffix. */
  lemma SuffixMoves(s: seq<Id>, t: seq<Id>, x: Id)
    requires IsSuffix(s, t) && NoDuplicates(t)
    ensures IsSuffix(Moved(s, x), Moved(t, x))
  {
    var before := t[..|t| - |s|];
    assert t == before + s;
    WithoutSplit(before, s, x);
    if x in before {
      assert x !in s;
      WithoutAbsent(s, x);
      assert Moved(t, x) == Without(before, x) + Moved(s, x);
    } else {
      assert Moved(t, x) == before + Moved(s, x);
    }
  }

  lemma RecencyGrows(history: seq<Id>, x: Id)
    ensures Recency(history + [x]) == Moved(Recency(history), x)
  {
  }

  lemma SuffixShrinks(s: seq<Id>, t: seq<Id>, k: nat)
    requires IsSuffix(s, t) && k <= |s|
    ensures IsSuffix(s[k..], t)
  {
  }

  lemma EmptySuffix(s: seq<Id>, t: seq<Id>)
    requires s == []
    ensures IsSuffix(s, t)
  {
  }

  function Max(a: int, b: int): int {
    if a >= b then a else b
  }

  class BeatmapCacheManager {
    const maxCount: int
    const additionalCount: int
    var beatmapIds: seq<Id>
    var beatmapIdSet: set<Id>

    /** Every id used, in order; every id newly put on the list; every id handed to a cleanup. */
    ghost var history: seq<Id>
    ghost var entered: seq<Id>
    ghost var cleaned: seq<Id>

    function Threshold(): int {
      maxCount + Max(0, additionalCount)
    }

    ghost predicate Valid()
      reads this
    {
      && NoDuplicates(beatmapIds) && beatmapIdSet == Elements(beatmapIds)
      && IsSuffix(beatmapIds, Recency(history))
      && (maxCount > 0 ==> |beatmapIds| <= Threshold())
      && (maxCount <= 0 ==> beatmapIds == [])
      && Conserved(entered, cleaned, beatmapIds)
    }

    constructor (maxCount: int, additionalCount: int)
      ensures Valid() && history == [] && beatmapIds == [] && cleaned == []
      ensures this.maxCount == maxCount && this.additionalCount == additionalCount
    {
      this.maxCount, this.additionalCount := maxCount, additionalCount;
      beatmapIds, beatmapIdSet := [], {};
      history, entered, cleaned := [], [], [];
    }

    /** Records one use; the ids returned go to the cleanup. */
    method AddBeatmap(id: Id) returns (toRemove: seq<Id>)
      requires Valid()
      modifies this
      ensures Valid() && history == old(history) + [id]
      ensures maxCount <= 0 ==> toRemove == [] && beatmapIds == [] && entered == old(entered)
      ensures maxCount > 0 ==> toRemove + beatmapIds == Moved(old(beatmapIds), id)
      ensures maxCount > 0 ==> beatmapIds != [] && beatmapIds[|beatmapIds| - 1] == id
      ensures toRemove != [] <==>
        && maxCount > 0 && id !in old(beatmapIds)
        && |old(beatmapIds)| == maxCount + (if additionalCount > 0 then additionalCount else 0)
      ensures toRemove != [] ==> |beatmapIds| == maxCount + (if additionalCount > 0 then 1 else 0)
      ensures maxCount > 0 ==> |beatmapIds| <= maxCount + (if additionalCount > 0 then additionalCount else 0)
      ensures cleaned == old(cleaned) + toRemove
      ensures maxCount > 0 ==> entered == old(entered) + (if id in old(beatmapIds) then [] else [id])
    {
      toRemove := [];
      if maxCount <= 0 {
        history := history + [id];
        EmptySuffix(beatmapIds, Recency(history));
      } else if id in beatmapIdSet {
        Touch(id);
      } else {
        WithoutAbsent(beatmapIds, id);
        toRemove := Enter(id);
      }
    }

    /** An id on the list moves to its end. */
    method Touch(id: Id)
      requires Valid() && maxCount > 0 && id in beatmapIds
      modifies `history, `beatmapIds
      ensures Valid() && history == old(history) + [id] && beatmapIds == Moved(old(beatmapIds), id)
    {
      UseStep(beatmapIds, history, id);
      ConservedMove(entered, cleaned, beatmapIds, id);
      beatmapIds := Without(beatmapIds, id);
      beatmapIds := beatmapIds + [id];
      history := history + [id];
    }

    /** Any other id is appended, and the oldest ids give way when the list is full. */
    method Enter(id: Id) returns (toRemove: seq<Id>)
      requires Valid() && maxCount > 0 && id !in beatmapIds
      modifies this
      ensures Valid() && history == old(history) + [id]
      ensures toRemove + beatmapIds == old(beatmapIds) + [id] && beatmapIds != []
      ensures toRemove != [] <==> |old(beatmapIds)| == Threshold()
      ensures toRemove != [] ==> |beatmapIds| == maxCount + (if additionalCount > 0 then 1 else 0)
      ensures cleaned == old(cleaned) + toRemove && entered == old(entered) + [id]
    {
      NewId(beatmapIds, id);
      toRemove := Insert(id);
      EnterStep(old(beatmapIds), old(history), id, toRemove, beatmapIds);
      ConservedEntry(old(entered), old(cleaned), old(beatmapIds), id, toRemove, beatmapIds);
      history := history + [id];
    }

    /** The list and the set themselves. */
    method Insert(id: Id) returns (toRemove: seq<Id>)
      requires maxCount > 0 && |beatmapIds| <= Threshold()
      requires NoDuplicates(beatmapIds + [id]) && beatmapIdSet == Elements(beatmapIds)
      modifies `beatmapIds, `beatmapIdSet, `entered, `cleaned
      ensures toRemove + beatmapIds == old(beatmapIds) + [id] && beatmapIds != []
      ensures beatmapIdSet == Elements(beatmapIds)
      ensures |beatmapIds| <= Threshold()
      ensures toRemove != [] <==> |old(beatmapIds)| == Threshold()
      ensures toRemove != [] ==> |beatmapIds| == maxCount + (if additionalCount > 0 then 1 else 0)
      ensures cleaned == old(cleaned) + toRemove && entered == old(entered) + [id]
    {
      toRemove := [];
      beatmapIds := beatmapIds + [id];
      beatmapIdSet := beatmapIdSet + {id};
      entered := entered + [id];
      if |beatmapIds| > Threshold() {
        var toRemoveCount := Max(1, additionalCount);
        ghost var all := beatmapIds;
        toRemove := beatmapIds[..toRemoveCount];
        beatmapIds := beatmapIds[toRemoveCount..];
        assert all == toRemove + beatmapIds;
        DiscardAll(toRemove);
        cleaned := cleaned + toRemove;
      }
    }

    /** Takes the removed ids out of the set. */
    method DiscardAll(toRemove: seq<Id>)
      requires NoDuplicates(toRemove + beatmapIds) && beatmapIdSet == Elements(toRemove + beatmapIds)
      modifies `beatmapIdSet
      ensures beatmapIdSet == Elements(beatmapIds)
    {
      ghost var all := toRemove + beatmapIds;
      assert all[0..] == all;
      var k := 0;
      while k < |toRemove|
        invariant 0 <= k <= |toRemove|
        invariant beatmapIdSet == Elements(all[k..])
      {
        HeadOut(all[k..]);
        assert all[k] == toRemove[k] && all[k..][1..] == all[k + 1..];
        beatmapIdSet := beatmapIdSet - {toRemove[k]};
        k := k + 1;
      }
      assert all[k..] == beatmapIds;
    }
  }

  /** What one use does to the list before any cleaning. */
  lemma UseStep(s: seq<Id>, history: seq<Id>, id: Id)
    requires NoDuplicates(s) && IsSuffix(s, Recency(history))
    ensures NoDuplicates(Moved(s, id)) && Elements(Moved(s, id)) == Elements(s) + {id}
    ensures IsSuffix(Moved(s, id), Recency(history + [id]))
    ensures |Moved(s, id)| == |s| + (if id in s then 0 else 1)
  {
    RecencyGrows(history, id);
    RecencyDistinct(history);
    SuffixMoves(s, Recency(history), id);
    MovedDistinct(s, id);
    WithoutDistinct(s, id);
  }

  lemma NewId(s: seq<Id>, id: Id)
    requires NoDuplicates(s) && id !in s
    ensures NoDuplicates(s + [id])
  {
  }

  /** Appending a new id and dropping some old ones. */
  lemma EnterStep(ids: seq<Id>, history: seq<Id>, id: Id, dropped: seq<Id>, kept: seq<Id>)
    requires NoDuplicates(ids) && IsSuffix(ids, Recency(history)) && id !in ids
    requires dropped + kept == ids + [id]
    ensures NoDuplicates(kept) && IsSuffix(kept, Recency(history + [id]))
  {
    UseStep(ids, history, id);
    WithoutAbsent(ids, id);
    assert kept == (dropped + kept)[|dropped|..];
    SuffixShrinks(ids + [id], Recency(history + [id]), |dropped|);
  }

  function Count(s: seq<Id>, x: Id): nat {
    if s == [] then 0 else Count(s[..|s| - 1], x) + (if s[|s| - 1] == x then 1 else 0)
  }

  lemma {:induction false} CountConcat(s: seq<Id>, t: seq<Id>, x: Id)
    ensures Count(s + t, x) == Count(s, x) + Count(t, x)
  {
    if t == [] {
      assert s + t == s;
    } else {
      assert (s + t)[..|s + t| - 1] == s + t[..|t| - 1];
      CountConcat(s, t[..|t| - 1], x);
    }
  }

  lemma {:induction false} WithoutCounts(s: seq<Id>, x: Id, y: Id)
    requires x in s
    ensures Count(Without(s, x), y) + (if y == x then 1 else 0) == Count(s, y)
  {
    assert s == [s[0]] + s[1..];
    CountConcat([s[0]], s[1..], y);
    if s[0] != x {
      WithoutCounts(s[1..], x, y);
      CountConcat([s[0]], Without(s[1..], x), y);
    }
  }

  /** Every id put on the list is still there or was handed to exactly one cleanup, as often as it entered. */
  ghost predicate Conserved(entered: seq<Id>, cleaned: seq<Id>, ids: seq<Id>) {
    forall y :: Count(entered, y) == Count(cleaned, y) + Count(ids, y)
  }

  lemma ConservedMove(entered: seq<Id>, cleaned: seq<Id>, ids: seq<Id>, x: Id)
    requires Conserved(entered, cleaned, ids) && x in ids
    ensures Conserved(entered, cleaned, Moved(ids, x))
  {
    forall y
      ensures Count(Moved(ids, x), y) == Count(ids, y)
    {
      WithoutCounts(ids, x, y);
    }
  }

  lemma ConservedEntry(entered: seq<Id>, cleaned: seq<Id>, ids: seq<Id>, x: Id, dropped: seq<Id>, kept: seq<Id>)
    requires Conserved(entered, cleaned, ids) && dropped + kept == ids + [x]
    ensures Conserved(entered + [x], cleaned + dropped, kept)
  {
    forall y
      ensures Count(entered + [x], y) == Count(cleaned + dropped, y) + Count(kept, y)
    {
      CountConcat(dropped, kept, y);
      CountConcat(ids, [x], y);
      CountConcat(entered, [x], y);
      CountConcat(cleaned, dropped, y);
    }
  }
}
