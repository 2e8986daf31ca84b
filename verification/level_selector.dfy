/**
  The level selector of one world: which of the world's five levels are open, which one is
  marked current, what a click starts, and the figures of the world's information panel.
 */
module LevelSelector {
  import opened Wrappers
  import opened Intervals
  import Levels

  /** `maxLevelInWorld`: how many of the world's levels the current global level has reached. */
  function MaxLevelInWorld(world: int, currentLevel: int): (r: int)
    ensures r <= 5
    ensures r <= currentLevel - (world - 1) * 5
    ensures r == 5 || r == currentLevel - (world - 1) * 5
  {
    Min(5, currentLevel - (world - 1) * 5)
  }

  /** Nothing of a world is open before the current level has reached it, and all of it is
      open once the current level is past its level 5. */
  lemma MaxLevelInWorldBounds(world: int, currentLevel: int)
    ensures MaxLevelInWorld(world, currentLevel) <= 0 <==> currentLevel <= (world - 1) * 5
    ensures MaxLevelInWorld(world, currentLevel) == 5 <==> currentLevel >= world * 5
  {
  }

  predicate IsUnlocked(world: int, currentLevel: int, level: int) {
    level <= MaxLevelInWorld(world, currentLevel)
  }

  predicate IsCurrent(world: int, currentLevel: int, level: int) {
    Levels.GlobalLevelId(world, level) == currentLevel
  }

  /** A click on a level's button: a locked level does nothing, an open one starts its
      global id. */
  function SelectLevel(world: int, currentLevel: int, level: int): (r: Option<int>)
    ensures r.Some? <==> IsUnlocked(world, currentLevel, level)
    ensures r.Some? ==> r.value == Levels.GlobalLevelId(world, level)
    ensures r.Some? && 1 <= world <= 5 && 1 <= level ==>
      Levels.WorldOfId(r.value) == world && Levels.LevelOfId(r.value) == level
  {
    if IsUnlocked(world, currentLevel, level) then
      if 1 <= world <= 5 && 1 <= level then
        Levels.GlobalLevelIdRoundTrip(world, level);
        Some(Levels.GlobalLevelId(world, level))
      else Some(Levels.GlobalLevelId(world, level))
    else None
  }

  /** The level numbers of a list of rows, in order. */
  function LevelNumbers(rows: seq<Levels.LevelConfig>): (r: seq<int>)
    ensures |r| == |rows|
    ensures forall i :: 0 <= i < |r| ==> r[i] == rows[i].level
  {
    if rows == [] then [] else [rows[0].level] + LevelNumbers(rows[1..])
  }

  /** The levels shown open, in the order the buttons are drawn. */
  function UnlockedLevels(world: int, currentLevel: int): seq<int> {
    AtMost(LevelNumbers(Levels.GetLevelsByWorld(world)), MaxLevelInWorld(world, currentLevel))
  }

  /** A world's buttons are its levels 1..5. */
  lemma WorldLevelNumbers(world: int)
    requires 1 <= world <= Levels.WorldCount
    ensures LevelNumbers(Levels.GetLevelsByWorld(world)) == Range(1, 5)
  {
    Levels.LevelsByWorldExact(world);
  }

  /** The open levels of a world 1..5 are always a prefix 1..k of its levels, with k the
      maximum level clipped to 5. */
  lemma UnlockedLevelsPrefix(world: int, currentLevel: int)
    requires 1 <= world <= Levels.WorldCount
    ensures UnlockedLevels(world, currentLevel) == Range(1, MaxLevelInWorld(world, currentLevel))
  {
    WorldLevelNumbers(world);
    AtMostRange(1, 5, MaxLevelInWorld(world, currentLevel));
  }

  /** The level marked current is open. */
  lemma CurrentIsUnlocked(world: int, currentLevel: int, level: int)
    requires level <= 5 && IsCurrent(world, currentLevel, level)
    ensures IsUnlocked(world, currentLevel, level)
  {
  }

  /** When the current global level lies in this world, exactly one of its levels is marked
      current, and it is open. */
  lemma CurrentLevelInWorld(world: int, currentLevel: int)
    requires (world - 1) * 5 < currentLevel <= world * 5
    ensures var l := currentLevel - (world - 1) * 5;
      && 1 <= l <= 5 && IsCurrent(world, currentLevel, l) && IsUnlocked(world, currentLevel, l)
    ensures forall l :: IsCurrent(world, currentLevel, l) ==> l == currentLevel - (world - 1) * 5
  {
  }

  /** The sum of the rewards of a list of rows, as the panel's `reduce` adds them. */
  function SumRewards(rows: seq<Levels.LevelConfig>): int {
    if rows == [] then 0 else SumRewards(rows[..|rows| - 1]) + rows[|rows| - 1].unlockReward
  }

  /** The panel's figures: the first and fifth levels' time limits and pair counts, and the
      total reward. */
  datatype WorldInfo = WorldInfo(
    firstTime: int,
    lastTime: int,
    firstPairs: int,
    lastPairs: int,
    totalReward: int)

  /** The panel reads the first and fifth rows directly; for a world with no rows the render
      throws, which is no panel here. */
  function InfoPanel(world: int): (r: Option<WorldInfo>)
    ensures r.Some? <==> |Levels.GetLevelsByWorld(world)| >= 5
  {
    var rows := Levels.GetLevelsByWorld(world);
    if |rows| < 5 then None
    else Some(WorldInfo(rows[0].timeLimit, rows[4].timeLimit, rows[0].pairs, rows[4].pairs, SumRewards(rows)))
  }

  /** The panel exists exactly for worlds 1..5; its times fall and its pair counts rise from
      level 1 to level 5, and its total is the sum of the rewards of the world's five keys. */
  lemma InfoPanelFacts(world: int)
    ensures InfoPanel(world).Some? <==> 1 <= world <= Levels.WorldCount
    ensures InfoPanel(world).Some? ==>
      && InfoPanel(world).value.firstTime > InfoPanel(world).value.lastTime
      && InfoPanel(world).value.firstPairs < InfoPanel(world).value.lastPairs
      && InfoPanel(world).value.totalReward
           == Levels.RewardOf(Levels.GlobalLevelId(world, 1)) + Levels.RewardOf(Levels.GlobalLevelId(world, 2))
            + Levels.RewardOf(Levels.GlobalLevelId(world, 3)) + Levels.RewardOf(Levels.GlobalLevelId(world, 4))
            + Levels.RewardOf(Levels.GlobalLevelId(world, 5))
  {
    Levels.LevelsByWorldExact(world);
    if 1 <= world <= Levels.WorldCount {
      var rows := Levels.GetLevelsByWorld(world);
      Levels.WorldDifficultyMonotone(world);
      assert rows[0].timeLimit > rows[1].timeLimit > rows[2].timeLimit > rows[3].timeLimit > rows[4].timeLimit;
      assert rows[0].pairs < rows[1].pairs < rows[2].pairs < rows[3].pairs < rows[4].pairs;
      SumFive(rows);
      forall i | 0 <= i < 5
        ensures rows[i].unlockReward == Levels.RewardOf(Levels.GlobalLevelId(world, i + 1))
      {
        Levels.LevelsByWorldAt(world, i);
      }
    }
  }

  /** The total over five rows, written out. */
  lemma SumFive(rows: seq<Levels.LevelConfig>)
    requires |rows| == 5
    ensures SumRewards(rows) == rows[0].unlockReward + rows[1].unlockReward + rows[2].unlockReward
                              + rows[3].unlockReward + rows[4].unlockReward
  {
    assert rows[..4][..3] == rows[..3] && rows[..3][..2] == rows[..2] && rows[..2][..1] == rows[..1];
    assert SumRewards(rows[..1]) == rows[0].unlockReward by {
      assert rows[..1][..0] == [];
    }
    assert SumRewards(rows[..2]) == SumRewards(rows[..1]) + rows[1].unlockReward;
    assert SumRewards(rows[..3]) == SumRewards(rows[..2]) + rows[2].unlockReward;
    assert SumRewards(rows[..4]) == SumRewards(rows[..3]) + rows[3].unlockReward;
  }

  /** The totals the five panels show: 155, 198, 247, 350 and 760 coins. */
  lemma WorldRewardTotals(world: int)
    requires 1 <= world <= Levels.WorldCount
    ensures InfoPanel(world).Some?
    ensures InfoPanel(world).value.totalReward == [155, 198, 247, 350, 760][world - 1]
  {
    InfoPanelFacts(world);
    Levels.WorldRewardSum(world);
  }
}
