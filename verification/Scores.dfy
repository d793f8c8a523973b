/**
 Submitted plays and what a history of plays is worth, map by map.

 Nothing here knows about the leaderboard table: these are the reference definitions that both the
 incremental ledger and the from-scratch recalculation are compared with.
 */
module Scores {
  import opened Common

  datatype Rank = X | XH | S | SH | A | B | C | D | F

  /** The five grade counters of a profile. */
  datatype Grade = GradeSS | GradeSSH | GradeS | GradeSH | GradeA

  function GradeOf(rank: Rank): Option<Grade> {
    match rank
    case X => Some(GradeSS)
    case XH => Some(GradeSSH)
    case S => Some(GradeS)
    case SH => Some(GradeSH)
    case A => Some(GradeA)
    case _ => None
  }

  datatype BeatmapStatus = Graveyard | Wip | Pending | Ranked | Approved | Qualified | Loved
  {
    predicate HasLeaderboard() {
      Ranked? || Approved? || Qualified? || Loved?
    }

    predicate HasPp() {
      Ranked? || Approved?
    }

    predicate IsRanked() {
      Ranked? || Approved? || Loved?
    }
  }

  /** The two global switches, and the status of every beatmap. */
  datatype Config = Config(allPp: bool, allBoards: bool, status: int -> BeatmapStatus)
  {
    predicate PpMap(beatmap: int) {
      status(beatmap).HasPp() || allPp
    }

    predicate RankedMap(beatmap: int) {
      status(beatmap).IsRanked() || allPp
    }

    predicate BoardMap(beatmap: int) {
      status(beatmap).HasLeaderboard() || allBoards
    }
  }

  datatype UserId = UserId(number: int)

  /** A profile: one user in one game mode. */
  datatype Account = Account(user: UserId, mode: int)

  /** A submitted score.  `mods` is the acronym set that rows are keyed by; `modsOk` says whether the
      full mod list, settings included, may earn anything. */
  datatype Play = Play(
    id: int,
    account: Account,
    beatmap: int,
    mods: set<string>,
    modsOk: bool,
    total: nat,
    rank: Rank,
    passed: bool,
    maxCombo: int)

  /** Each score is processed once. */
  ghost predicate UniqueIds(h: seq<Play>) {
    forall i, j | 0 <= i < j < |h| :: h[i].id != h[j].id
  }

  /** p counts for account a on map m, gates on the map aside. */
  predicate Eligible(p: Play, a: Account, m: int) {
    p.account == a && p.beatmap == m && p.passed && p.modsOk
  }

  function Init(h: seq<Play>): seq<Play>
    requires h != []
  {
    h[..|h| - 1]
  }

  function Last(h: seq<Play>): Play
    requires h != []
  {
    h[|h| - 1]
  }

  /** The maps an account has played at all. */
  function Maps(h: seq<Play>, a: Account): set<int> {
    set p | p in h && p.account == a :: p.beatmap
  }

  /** The sum of the totals of all plays of an account, failed ones included. */
  function TotalSum(h: seq<Play>, a: Account): nat {
    if h == [] then 0
    else TotalSum(Init(h), a) + (if Last(h).account == a then Last(h).total else 0)
  }

  /** The best eligible total on a map, 0 when there is none. */
  function Best(h: seq<Play>, a: Account, m: int): nat {
    if h == [] then 0
    else
      var b := Best(Init(h), a, m);
      if Eligible(Last(h), a, m) && Last(h).total > b then Last(h).total else b
  }

  /** The sum of all eligible totals on a map. */
  function EligibleSum(h: seq<Play>, a: Account, m: int): nat {
    if h == [] then 0
    else EligibleSum(Init(h), a, m) + (if Eligible(Last(h), a, m) then Last(h).total else 0)
  }

  /** The play a map's credit belongs to: the first to reach the best positive total. */
  function BestPlay(h: seq<Play>, a: Account, m: int): Option<Play> {
    if h == [] then None
    else if Eligible(Last(h), a, m) && Last(h).total > Best(Init(h), a, m) then Some(Last(h))
    else BestPlay(Init(h), a, m)
  }

  /** The number of eligible plays with a positive total. */
  function PositiveCount(h: seq<Play>, a: Account, m: int): nat {
    if h == [] then 0
    else PositiveCount(Init(h), a, m) + (if Eligible(Last(h), a, m) && Last(h).total > 0 then 1 else 0)
  }

  lemma MapsGrow(h: seq<Play>, p: Play, a: Account)
    ensures Maps(h + [p], a) == Maps(h, a) + (if p.account == a then {p.beatmap} else {})
  {
  }

  lemma Snoc(h: seq<Play>, p: Play)
    ensures Init(h + [p]) == h && Last(h + [p]) == p
  {
  }

  /** Best really is the maximum, and it is attained unless it is 0. */
  lemma {:induction false} BestIsMaximum(h: seq<Play>, a: Account, m: int)
    ensures forall p | p in h && Eligible(p, a, m) :: p.total <= Best(h, a, m)
    ensures Best(h, a, m) > 0 ==> exists p :: p in h && Eligible(p, a, m) && p.total == Best(h, a, m)
  {
    if h != [] {
      BestIsMaximum(Init(h), a, m);
      assert forall p :: p in h <==> p in Init(h) || p == Last(h) by {
        assert h == Init(h) + [Last(h)];
      }
    }
  }

  /** The credited play is an eligible play with the best total, and no earlier one reaches it. */
  lemma {:induction false} BestPlayIsFirst(h: seq<Play>, a: Account, m: int)
    ensures BestPlay(h, a, m).None? <==> Best(h, a, m) == 0
    ensures BestPlay(h, a, m).Some? ==>
      exists i :: 0 <= i < |h| && h[i] == BestPlay(h, a, m).value && Eligible(h[i], a, m)
        && h[i].total == Best(h, a, m)
        && forall j | 0 <= j < i && Eligible(h[j], a, m) :: h[j].total < h[i].total
  {
    if h != [] {
      BestPlayIsFirst(Init(h), a, m);
      BestIsMaximum(Init(h), a, m);
      if Eligible(Last(h), a, m) && Last(h).total > Best(Init(h), a, m) {
        var i := |h| - 1;
        forall j | 0 <= j < i && Eligible(h[j], a, m)
          ensures h[j].total < h[i].total
        {
          assert h[j] == Init(h)[j];
        }
      } else if BestPlay(h, a, m).Some? {
        var i :| 0 <= i < |Init(h)| && Init(h)[i] == BestPlay(Init(h), a, m).value
                 && Eligible(Init(h)[i], a, m) && Init(h)[i].total == Best(Init(h), a, m)
                 && forall j | 0 <= j < i && Eligible(Init(h)[j], a, m) :: Init(h)[j].total < Init(h)[i].total;
        assert h[i] == Init(h)[i];
        forall j | 0 <= j < i && Eligible(h[j], a, m)
          ensures h[j].total < h[i].total
        {
          assert h[j] == Init(h)[j];
        }
      }
    }
  }

  /** A map's best never exceeds its sum, and equals it exactly when at most one total is positive. */
  lemma {:induction false} BestVersusSum(h: seq<Play>, a: Account, m: int)
    ensures Best(h, a, m) <= EligibleSum(h, a, m)
    ensures Best(h, a, m) == EligibleSum(h, a, m) <==> PositiveCount(h, a, m) <= 1
    ensures PositiveCount(h, a, m) == 0 <==> Best(h, a, m) == 0
  {
    if h != [] {
      BestVersusSum(Init(h), a, m);
    }
  }
}
