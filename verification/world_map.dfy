/**
  The world map: which of the five worlds are open and completed, which icon each shows,
  where the current-level badge appears, and what a click selects. All of it follows
  from `worldsCompleted`, and the badge from `currentWorld` too.
 */
module WorldMap {
  import opened Wrappers
  import opened Intervals

  const WorldCount: int := 5

  predicate IsUnlocked(worldsCompleted: int, world: int) {
    worldsCompleted >= world - 1
  }

  predicate IsCompleted(worldsCompleted: int, world: int) {
    worldsCompleted >= world
  }

  predicate IsCurrent(currentWorld: int, world: int) {
    currentWorld == world
  }

  /** The "current level" badge shows on the current world unless it is completed. */
  predicate ShowsBadge(currentWorld: int, worldsCompleted: int, world: int) {
    IsCurrent(currentWorld, world) && !IsCompleted(worldsCompleted, world)
  }

  datatype StatusIcon = TrophyIcon | LockIcon | NoIcon

  /** A trophy for a completed world, a lock for a closed one, nothing otherwise. */
  function Icon(worldsCompleted: int, world: int): (r: StatusIcon)
    ensures r == TrophyIcon <==> IsCompleted(worldsCompleted, world)
    ensures r == LockIcon <==> !IsUnlocked(worldsCompleted, world)
    ensures r == NoIcon <==> world - 1 == worldsCompleted
  {
    if IsCompleted(worldsCompleted, world) then TrophyIcon
    else if !IsUnlocked(worldsCompleted, world) then LockIcon
    else NoIcon
  }

  /** A click on a world's card: a world of the map is selected exactly when it lies in the
      open prefix the map draws. */
  function SelectWorld(worldsCompleted: int, world: int): (r: Option<int>)
    ensures 1 <= world <= WorldCount ==>
      (r.Some? <==> world in Range(1, Min(WorldCount, worldsCompleted + 1)))
    ensures r.Some? <==> IsUnlocked(worldsCompleted, world)
    ensures r.Some? ==> r.value == world
  {
    RangeMembers(Min(WorldCount, worldsCompleted + 1), world);
    if IsUnlocked(worldsCompleted, world) then Some(world) else None
  }

  /** The worlds of `worlds` that are open, in order. */
  function OpenWorlds(worlds: seq<int>, worldsCompleted: int): (r: seq<int>)
    ensures |r| <= |worlds|
  {
    if worlds == [] then []
    else if IsUnlocked(worldsCompleted, worlds[0]) then [worlds[0]] + OpenWorlds(worlds[1..], worldsCompleted)
    else OpenWorlds(worlds[1..], worldsCompleted)
  }

  /** Being open is being at most one past the completed worlds. */
  lemma {:induction false} OpenWorldsAtMost(worlds: seq<int>, worldsCompleted: int)
    ensures OpenWorlds(worlds, worldsCompleted) == AtMost(worlds, worldsCompleted + 1)
  {
    if worlds != [] {
      OpenWorldsAtMost(worlds[1..], worldsCompleted);
    }
  }

  /** The open worlds on the map are the prefix 1..min(5, worldsCompleted + 1). */
  lemma OpenWorldsPrefix(worldsCompleted: int)
    ensures OpenWorlds(Range(1, WorldCount), worldsCompleted) == Range(1, Min(WorldCount, worldsCompleted + 1))
  {
    OpenWorldsAtMost(Range(1, WorldCount), worldsCompleted);
    AtMostRange(1, WorldCount, worldsCompleted + 1);
  }

  /** World 1 is always open once the count is not negative, and a completed world is open. */
  lemma CompletedIsUnlocked(worldsCompleted: int, world: int)
    ensures worldsCompleted >= 0 ==> IsUnlocked(worldsCompleted, 1)
    ensures IsCompleted(worldsCompleted, world) ==> IsUnlocked(worldsCompleted, world)
  {
  }

  /** At most one world carries the badge. */
  lemma BadgeUnique(currentWorld: int, worldsCompleted: int, a: int, b: int)
    requires ShowsBadge(currentWorld, worldsCompleted, a) && ShowsBadge(currentWorld, worldsCompleted, b)
    ensures a == b
  {
  }
}
