/** The XP level and rank helpers (src/lib/levelSystem.ts): the level an
    XP total reaches, the XP the next level needs, the rank an XP total
    earns, the card themes it unlocks and the badge class of a rank colour. */
module LevelSystem {
  import opened Seqs

  datatype Rank = Rank(id: string, name: string, minXp: int, badgeColor: string, icon: string)

  datatype CardTheme = CardTheme(id: string, name: string, requiredXp: int, style: string,
                                 effects: seq<string>, isDefault: bool)

  /** The XP scale of the level curve: level L + 1 starts at 100·L² XP. */
  const XpScale: nat := 100

  // ---------------------------------------------------------------------
  // Levels

  lemma SquareMonotone(a: nat, b: nat)
    requires a <= b
    ensures a * a <= b * b
  {
    assert a * a <= a * b;
  }

  /** `Math.floor(Math.sqrt(xp / 100))`: the largest k with 100·k² <= xp,
      found by raising the root of `xp - 1` when `xp` reaches the next
      square. */
  function Root(xp: nat): (k: nat)
    ensures XpScale * k * k <= xp < XpScale * (k + 1) * (k + 1)
  {
    if xp == 0 then 0
    else
      var r := Root(xp - 1);
      if XpScale * (r + 1) * (r + 1) <= xp then
        assert (r + 1) * (r + 1) < (r + 2) * (r + 2);
        r + 1
      else r
  }

  /** The bounds of Root pin it down: no other k satisfies them. */
  lemma RootUnique(xp: nat, k: nat)
    requires XpScale * k * k <= xp < XpScale * (k + 1) * (k + 1)
    ensures Root(xp) == k
  {
    var r := Root(xp);
    if r < k {
      SquareMonotone(r + 1, k);
    } else if r > k {
      SquareMonotone(k + 1, r);
    }
  }

  /** `calculateLevel`: one more than the largest k with 100·k² <= xp. */
  function CalculateLevel(xp: nat): (level: nat)
    ensures level >= 1
    ensures XpScale * (level - 1) * (level - 1) <= xp < XpScale * level * level
  {
    Root(xp) + 1
  }

  /** No k with 100·k² <= xp reaches the level: it is the largest such k plus one. */
  lemma LevelIsLargestRoot(xp: nat, k: nat)
    requires XpScale * k * k <= xp
    ensures k < CalculateLevel(xp)
  {
    var level := CalculateLevel(xp);
    if k >= level {
      SquareMonotone(level, k);
    }
  }

  /** More XP never means a lower level. */
  lemma LevelMonotone(a: nat, b: nat)
    requires a <= b
    ensures CalculateLevel(a) <= CalculateLevel(b)
  {
    LevelIsLargestRoot(b, CalculateLevel(a) - 1);
  }

  /** `xpForNextLevel`: `Math.pow(currentLevel, 2) * 100`. */
  function XpForNextLevel(currentLevel: int): (xp: int)
    ensures xp >= 0
    ensures xp == 0 <==> currentLevel == 0
  {
    XpScale * currentLevel * currentLevel
  }

  /** The XP total lies between the threshold of its level and that of the
      next one. */
  lemma LevelThresholds(xp: nat)
    ensures XpForNextLevel(CalculateLevel(xp) - 1) <= xp < XpForNextLevel(CalculateLevel(xp))
  {
  }

  /** Reaching xpForNextLevel(L) reaches level L + 1. */
  lemma ThresholdReachesNextLevel(level: nat)
    ensures XpForNextLevel(level) >= 0
    ensures CalculateLevel(XpForNextLevel(level)) == level + 1
  {
    var xp := XpForNextLevel(level);
    assert xp == XpScale * level * level;
    assert level * level < (level + 1) * (level + 1);
    RootUnique(xp, level);
  }

  // ---------------------------------------------------------------------
  // Ranks

  /** Sorted by `b.min_xp - a.min_xp`: largest minimum XP first. */
  ghost predicate Descending(ranks: seq<Rank>)
  {
    forall i, j :: 0 <= i < j < |ranks| ==> ranks[i].minXp >= ranks[j].minXp
  }

  /** `rank` placed before the first rank of `sorted` whose minimum XP does
      not exceed its own. */
  function Insert(rank: Rank, sorted: seq<Rank>): (r: seq<Rank>)
    ensures |r| == |sorted| + 1
    ensures multiset(r) == multiset(sorted) + multiset{rank}
    ensures r[0] == rank || (sorted != [] && r[0] == sorted[0])
  {
    if sorted == [] || rank.minXp >= sorted[0].minXp then
      [rank] + sorted
    else
      assert sorted == [sorted[0]] + sorted[1..];
      [sorted[0]] + Insert(rank, sorted[1..])
  }

  /** Inserting into a descending list keeps it descending. */
  lemma {:induction false} InsertDescending(rank: Rank, sorted: seq<Rank>)
    requires Descending(sorted)
    ensures Descending(Insert(rank, sorted))
  {
    if sorted != [] && rank.minXp < sorted[0].minXp {
      var rest := Insert(rank, sorted[1..]);
      InsertDescending(rank, sorted[1..]);
      var r := [sorted[0]] + rest;
      assert sorted[0].minXp >= rest[0].minXp;
      forall i, j | 0 <= i < j < |r|
        ensures r[i].minXp >= r[j].minXp
      {
        if i == 0 && j > 1 {
          assert r[j] == rest[j - 1];
        }
      }
    }
  }

  /** `[...ranks].sort((a, b) => b.min_xp - a.min_xp)`: a stable sort by
      descending minimum XP, on a copy. */
  function SortByMinXp(ranks: seq<Rank>): (sorted: seq<Rank>)
    ensures |sorted| == |ranks|
    ensures multiset(sorted) == multiset(ranks)
    ensures Descending(sorted)
  {
    if ranks == [] then []
    else
      assert ranks == [ranks[0]] + ranks[1..];
      InsertDescending(ranks[0], SortByMinXp(ranks[1..]));
      Insert(ranks[0], SortByMinXp(ranks[1..]))
  }

  /** `r => xp >= r.min_xp`. */
  function Reached(xp: int): Rank -> bool
  {
    (r: Rank) => xp >= r.minXp
  }

  /** `getRank`: the first rank of the sorted copy that `xp` reaches, or
      else its last rank; nothing for an empty list, where the source
      yields `undefined`. */
  function GetRank(xp: int, ranks: seq<Rank>): (r: Option<Rank>)
    ensures r.None? <==> ranks == []
    ensures r.Some? ==> r.value in ranks
    // Some rank is reached: the result is reached and no reached rank asks more.
    ensures (exists k :: 0 <= k < |ranks| && ranks[k].minXp <= xp) ==>
              r.Some? && r.value.minXp <= xp
              && forall k :: 0 <= k < |ranks| && ranks[k].minXp <= xp ==> ranks[k].minXp <= r.value.minXp
    // No rank is reached: the result asks least.
    ensures r.Some? && (forall k :: 0 <= k < |ranks| ==> xp < ranks[k].minXp) ==>
              forall k :: 0 <= k < |ranks| ==> r.value.minXp <= ranks[k].minXp
  {
    var sorted := SortByMinXp(ranks);
    match IndexOf(sorted, Reached(xp))
    case Some(i) =>
      HighestReached(xp, ranks, sorted);
      Some(sorted[i])
    case None =>
      NoneReached(xp, ranks, sorted);
      if sorted == [] then None
      else
        LastIsLowest(ranks, sorted);
        Some(sorted[|sorted| - 1])
  }

  /** The first rank of the sorted copy that `xp` reaches is a rank of
      `ranks`, and no rank `xp` reaches asks more. */
  lemma HighestReached(xp: int, ranks: seq<Rank>, sorted: seq<Rank>)
    requires multiset(sorted) == multiset(ranks) && Descending(sorted)
    requires IndexOf(sorted, Reached(xp)).Some?
    ensures var found := sorted[IndexOf(sorted, Reached(xp)).value];
      found in ranks && found.minXp <= xp
      && forall k :: 0 <= k < |ranks| && ranks[k].minXp <= xp ==> ranks[k].minXp <= found.minXp
  {
    var i := IndexOf(sorted, Reached(xp)).value;
    assert sorted[i] in multiset(ranks);
    forall k | 0 <= k < |ranks| && ranks[k].minXp <= xp
      ensures ranks[k].minXp <= sorted[i].minXp
    {
      assert ranks[k] in multiset(sorted);
      var j :| 0 <= j < |sorted| && sorted[j] == ranks[k];
      if j < i {
        assert !Reached(xp)(sorted[j]);
      }
    }
  }

  /** When the sorted copy holds no rank `xp` reaches, neither does `ranks`. */
  lemma NoneReached(xp: int, ranks: seq<Rank>, sorted: seq<Rank>)
    requires multiset(sorted) == multiset(ranks)
    requires IndexOf(sorted, Reached(xp)).None?
    ensures sorted == [] <==> ranks == []
    ensures forall k :: 0 <= k < |ranks| ==> xp < ranks[k].minXp
  {
    assert |sorted| == |multiset(ranks)|;
    forall k | 0 <= k < |ranks|
      ensures xp < ranks[k].minXp
    {
      assert ranks[k] in multiset(sorted);
      var j :| 0 <= j < |sorted| && sorted[j] == ranks[k];
      assert !Reached(xp)(sorted[j]);
    }
  }

  /** The last rank of the sorted copy is a rank of `ranks` that asks least. */
  lemma LastIsLowest(ranks: seq<Rank>, sorted: seq<Rank>)
    requires multiset(sorted) == multiset(ranks) && Descending(sorted) && sorted != []
    ensures sorted[|sorted| - 1] in ranks
    ensures forall k :: 0 <= k < |ranks| ==> sorted[|sorted| - 1].minXp <= ranks[k].minXp
  {
    assert sorted[|sorted| - 1] in multiset(ranks);
    forall k | 0 <= k < |ranks|
      ensures sorted[|sorted| - 1].minXp <= ranks[k].minXp
    {
      assert ranks[k] in multiset(sorted);
    }
  }

  // ---------------------------------------------------------------------
  // Themes

  /** `t => xp >= t.required_xp`. */
  function Unlocks(xp: int): CardTheme -> bool
  {
    (t: CardTheme) => xp >= t.requiredXp
  }

  /** `getUnlockedThemes`: the themes `xp` unlocks, in their order. */
  function GetUnlockedThemes(xp: int, themes: seq<CardTheme>): (unlocked: seq<CardTheme>)
    ensures forall t: CardTheme :: t in unlocked <==> t in themes && t.requiredXp <= xp
    ensures forall t: CardTheme :: t.requiredXp <= xp ==> multiset(unlocked)[t] == multiset(themes)[t]
  {
    FilterElements(themes, Unlocks(xp));
    Filter(themes, Unlocks(xp))
  }

  /** The unlocked themes keep the list order: those of a split list are
      the unlocked themes of the first part followed by those of the
      second, and a single theme is kept exactly when `xp` reaches it. */
  lemma UnlockedThemesInOrder(xp: int, a: seq<CardTheme>, b: seq<CardTheme>, t: CardTheme)
    ensures GetUnlockedThemes(xp, a + b) == GetUnlockedThemes(xp, a) + GetUnlockedThemes(xp, b)
    ensures GetUnlockedThemes(xp, [t]) == if t.requiredXp <= xp then [t] else []
  {
    FilterConcat(a, b, Unlocks(xp));
  }

  /** Raising the XP only adds themes: the themes of the lower total are
      those of the higher one that the lower total unlocks, in order. */
  lemma UnlockedThemesGrow(low: int, high: int, themes: seq<CardTheme>)
    requires low <= high
    ensures Filter(GetUnlockedThemes(high, themes), Unlocks(low)) == GetUnlockedThemes(low, themes)
    ensures forall t :: t in GetUnlockedThemes(low, themes) ==> t in GetUnlockedThemes(high, themes)
  {
    FilterOfFilter(themes, Unlocks(low), Unlocks(high));
  }

  // ---------------------------------------------------------------------
  // Badge classes

  /** The `colorMap` of getBadgeColorClass. */
  const BadgeClasses: map<string, string> := map[
    "gray" := "bg-gray-500",
    "green" := "bg-uno-green",
    "blue" := "bg-uno-blue",
    "purple" := "bg-purple-500",
    "orange" := "bg-orange-500",
    "red" := "bg-uno-red",
    "yellow" := "bg-uno-yellow text-black",
    "rainbow" := "rainbow-border"
  ]

  /** The class of an unknown colour. */
  const DefaultBadgeClass: string := "bg-gray-500"

  /** `getBadgeColorClass`: `colorMap[color] || 'bg-gray-500'`. */
  function GetBadgeColorClass(color: string): (badge: string)
    ensures badge != ""
    ensures color in BadgeClasses ==> badge == BadgeClasses[color]
    ensures color !in BadgeClasses ==> badge == DefaultBadgeClass
  {
    if color in BadgeClasses && BadgeClasses[color] != "" then BadgeClasses[color] else DefaultBadgeClass
  }

  /** The eight known colours get their own classes, and only gray and the
      colours not in the map get the gray default. */
  lemma BadgeClassDefault(color: string)
    ensures color in BadgeClasses ==> GetBadgeColorClass(color) == BadgeClasses[color]
    ensures GetBadgeColorClass(color) == DefaultBadgeClass <==> color == "gray" || color !in BadgeClasses
  {
  }
}
