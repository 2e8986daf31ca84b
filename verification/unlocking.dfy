/**
  What the screens show after a level is completed: the progress `completeLevel` writes,
  read back through the world map and the level selector.
 */
module Unlocking {
  import opened Intervals
  import Levels
  import Progression
  import WorldMap
  import LevelSelector

  /** Completing level 5 of world w < 5: the map shows w completed, w + 1 open and badged, and
      nothing beyond it open; the selector of world w + 1 opens exactly its level 1, marked
      current. */
  lemma WorldEndUnlocksNext(p: Progression.Profile, w: int)
    requires 1 <= w < Levels.WorldCount
    ensures var q := Progression.CompleteLevel(p, Levels.GlobalLevelId(w, 5)).profile;
      && WorldMap.IsCompleted(q.worldsCompleted, w)
      && WorldMap.IsUnlocked(q.worldsCompleted, w + 1)
      && !WorldMap.IsCompleted(q.worldsCompleted, w + 1)
      && WorldMap.ShowsBadge(q.currentWorld, q.worldsCompleted, w + 1)
      && WorldMap.OpenWorlds(Range(1, 5), q.worldsCompleted) == Range(1, w + 1)
      && LevelSelector.UnlockedLevels(w + 1, q.currentLevel) == [1]
      && LevelSelector.IsCurrent(w + 1, q.currentLevel, 1)
  {
    var q := Progression.CompleteLevel(p, Levels.GlobalLevelId(w, 5)).profile;
    Progression.CompleteWorldEnd(p, w);
    WorldMap.OpenWorldsPrefix(q.worldsCompleted);
    LevelSelector.UnlockedLevelsPrefix(w + 1, q.currentLevel);
  }

  /** Completing level l < 5 of world w: the selector of w opens levels 1..l + 1 and marks
      l + 1 current. */
  lemma InnerLevelOpensNext(p: Progression.Profile, w: int, l: int)
    requires 1 <= w <= Levels.WorldCount && 1 <= l < Levels.LevelsPerWorld
    ensures var q := Progression.CompleteLevel(p, Levels.GlobalLevelId(w, l)).profile;
      && LevelSelector.UnlockedLevels(w, q.currentLevel) == Range(1, l + 1)
      && LevelSelector.IsCurrent(w, q.currentLevel, l + 1)
  {
    var id := Levels.GlobalLevelId(w, l);
    Levels.GlobalLevelIdRoundTrip(w, l);
    Progression.CompleteInnerLevel(p, id);
    var q := Progression.CompleteLevel(p, id).profile;
    LevelSelector.UnlockedLevelsPrefix(w, q.currentLevel);
  }

  /** Completing level 25: every world shows completed, no badge is drawn, and the selector
      of world 5 has all five levels open with level 5 current. */
  lemma FinalLevelCompletesMap(p: Progression.Profile)
    ensures var q := Progression.CompleteLevel(p, 25).profile;
      && (forall w :: 1 <= w <= 5 ==> WorldMap.IsCompleted(q.worldsCompleted, w))
      && (forall w :: 1 <= w <= 5 ==> !WorldMap.ShowsBadge(q.currentWorld, q.worldsCompleted, w))
      && LevelSelector.UnlockedLevels(5, q.currentLevel) == Range(1, 5)
      && LevelSelector.IsCurrent(5, q.currentLevel, 5)
  {
    Progression.CompleteFinalLevel(p);
    LevelSelector.UnlockedLevelsPrefix(5, 25);
  }

  /** Replaying level 5 of a world two or more behind the completed count locks again a
      world that was open: the map goes backwards. */
  lemma ReplayRelocksWorld(p: Progression.Profile, w: int)
    requires 1 <= w <= Levels.WorldCount - 2 && p.worldsCompleted >= w + 1
    ensures WorldMap.IsUnlocked(p.worldsCompleted, w + 2)
    ensures !WorldMap.IsUnlocked(
      Progression.CompleteLevel(p, Levels.GlobalLevelId(w, 5)).profile.worldsCompleted, w + 2)
  {
    Progression.ReplayRewindsWorlds(p, w);
  }
}
