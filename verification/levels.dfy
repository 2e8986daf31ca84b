/**
  The static level catalogue: five worlds of five levels each, stored under a
  global level id 1..25 with id = (world - 1) * 5 + level.
 */
module Levels {
  import opened Wrappers

  const WorldCount: int := 5
  const LevelsPerWorld: int := 5
  const LevelCount: int := 25

  datatype Theme = Nature | Sports | Arcade | Animals | Space

  datatype LevelConfig = LevelConfig(
    world: int,
    level: int,
    pairs: int,
    timeLimit: int,
    theme: Theme,
    unlockReward: int)

  /** The `LEVELS` record as its rows in ascending key order: Table[id - 1] is the row under
      key id, and this is also the order `Object.values` lists them in. */
  const Table: seq<LevelConfig> := [
    LevelConfig(1, 1,  6, 60, Nature,   10),  // 1
    LevelConfig(1, 2,  7, 55, Nature,   12),  // 2
    LevelConfig(1, 3,  8, 52, Nature,   15),  // 3
    LevelConfig(1, 4,  9, 48, Nature,   18),  // 4
    LevelConfig(1, 5, 10, 45, Nature,  100),  // 5

    LevelConfig(2, 1,  8, 55, Sports,   15),  // 6
    LevelConfig(2, 2,  9, 52, Sports,   18),  // 7
    LevelConfig(2, 3, 10, 48, Sports,   20),  // 8
    LevelConfig(2, 4, 11, 44, Sports,   25),  // 9
    LevelConfig(2, 5, 12, 40, Sports,  120),  // 10

    LevelConfig(3, 1, 10, 50, Arcade,   20),  // 11
    LevelConfig(3, 2, 11, 47, Arcade,   22),  // 12
    LevelConfig(3, 3, 12, 44, Arcade,   25),  // 13
    LevelConfig(3, 4, 13, 40, Arcade,   30),  // 14
    LevelConfig(3, 5, 14, 35, Arcade,  150),  // 15

    LevelConfig(4, 1, 12, 45, Animals,  30),  // 16
    LevelConfig(4, 2, 13, 42, Animals,  35),  // 17
    LevelConfig(4, 3, 14, 38, Animals,  40),  // 18
    LevelConfig(4, 4, 15, 34, Animals,  45),  // 19
    LevelConfig(4, 5, 16, 30, Animals, 200),  // 20

    LevelConfig(5, 1, 14, 40, Space,    50),  // 21
    LevelConfig(5, 2, 15, 36, Space,    60),  // 22
    LevelConfig(5, 3, 16, 32, Space,    70),  // 23
    LevelConfig(5, 4, 17, 28, Space,    80),  // 24
    LevelConfig(5, 5, 18, 25, Space,   500)  // 25
  ]

  /** `getLevelConfig`: the row stored under a key of the record, or nothing. */
  function GetLevelConfig(levelId: int): Option<LevelConfig> {
    if 1 <= levelId <= |Table| then Some(Table[levelId - 1]) else None
  }

  /** The coins a key pays on completion: its row's reward, or nothing for a key without a row. */
  function RewardOf(levelId: int): int {
    match GetLevelConfig(levelId)
    case Some(config) => config.unlockReward
    case None => 0
  }

  /** The facts about one row, checked key by key: the row exists exactly for keys 1..25,
      it sits under the key its world and level name, and its reward, pair count and time
      limit are positive. */
  lemma RowShape(levelId: int)
    ensures GetLevelConfig(levelId).Some? <==> 1 <= levelId <= LevelCount
    ensures 1 <= levelId <= LevelCount ==>
      && 1 <= GetLevelConfig(levelId).value.world <= WorldCount
      && 1 <= GetLevelConfig(levelId).value.level <= LevelsPerWorld
      && GlobalLevelId(GetLevelConfig(levelId).value.world, GetLevelConfig(levelId).value.level) == levelId
      && GetLevelConfig(levelId).value.unlockReward > 0
      && GetLevelConfig(levelId).value.pairs > 0
      && GetLevelConfig(levelId).value.timeLimit > 0
  {
    match levelId
    case 1 =>
    case 2 =>
    case 3 =>
    case 4 =>
    case 5 =>
    case 6 =>
    case 7 =>
    case 8 =>
    case 9 =>
    case 10 =>
    case 11 =>
    case 12 =>
    case 13 =>
    case 14 =>
    case 15 =>
    case 16 =>
    case 17 =>
    case 18 =>
    case 19 =>
    case 20 =>
    case 21 =>
    case 22 =>
    case 23 =>
    case 24 =>
    case 25 =>
    case _ =>
  }

  /** Row by row, compared with the next level of its world: the pair count rises, the time
      limit falls, the theme is shared and the reward stays below the world's level-5 reward. */
  lemma RowStep(levelId: int)
    requires 1 <= levelId <= LevelCount && GetLevelConfig(levelId).value.level < LevelsPerWorld
    ensures GetLevelConfig(levelId + 1).Some?
    ensures GetLevelConfig(levelId + 1).value.world == GetLevelConfig(levelId).value.world
    ensures GetLevelConfig(levelId).value.pairs < GetLevelConfig(levelId + 1).value.pairs
    ensures GetLevelConfig(levelId).value.timeLimit > GetLevelConfig(levelId + 1).value.timeLimit
    ensures GetLevelConfig(levelId).value.theme == GetLevelConfig(levelId + 1).value.theme
    ensures GetLevelConfig(levelId + LevelsPerWorld - GetLevelConfig(levelId).value.level).Some?
    ensures GetLevelConfig(levelId).value.unlockReward
              < GetLevelConfig(levelId + LevelsPerWorld - GetLevelConfig(levelId).value.level).value.unlockReward
  {
    match levelId
    case 1 =>
    case 2 =>
    case 3 =>
    case 4 =>
    case 5 =>
    case 6 =>
    case 7 =>
    case 8 =>
    case 9 =>
    case 10 =>
    case 11 =>
    case 12 =>
    case 13 =>
    case 14 =>
    case 15 =>
    case 16 =>
    case 17 =>
    case 18 =>
    case 19 =>
    case 20 =>
    case 21 =>
    case 22 =>
    case 23 =>
    case 24 =>
    case 25 =>
    case _ =>
  }

  /** `getLevelConfig` is defined exactly on 1..25, and each row's world and level name its key. */
  lemma GetLevelConfigDomain(levelId: int)
    ensures GetLevelConfig(levelId).Some? <==> 1 <= levelId <= LevelCount
    ensures GetLevelConfig(levelId).Some? ==>
      && 1 <= GetLevelConfig(levelId).value.world <= WorldCount
      && 1 <= GetLevelConfig(levelId).value.level <= LevelsPerWorld
      && GlobalLevelId(GetLevelConfig(levelId).value.world, GetLevelConfig(levelId).value.level) == levelId
      && GetLevelConfig(levelId).value.unlockReward > 0
  {
    RowShape(levelId);
  }

  /** `getGlobalLevelId`: the key of a (world, level) pair. */
  function GlobalLevelId(world: int, level: int): int {
    (world - 1) * 5 + level
  }

  /** The world a key belongs to; inverse of GlobalLevelId on 1..25. */
  function WorldOfId(id: int): int {
    (id - 1) / 5 + 1
  }

  /** The level within its world of a key; inverse of GlobalLevelId on 1..25. */
  function LevelOfId(id: int): int {
    (id - 1) % 5 + 1
  }

  /** GlobalLevelId maps [1,5] x [1,5] into 1..25 and WorldOfId / LevelOfId recover the pair. */
  lemma GlobalLevelIdRoundTrip(world: int, level: int)
    requires 1 <= world <= WorldCount && 1 <= level <= LevelsPerWorld
    ensures 1 <= GlobalLevelId(world, level) <= LevelCount
    ensures WorldOfId(GlobalLevelId(world, level)) == world
    ensures LevelOfId(GlobalLevelId(world, level)) == level
  {
    var k := GlobalLevelId(world, level) - 1;
    assert k == (world - 1) * 5 + (level - 1);
    assert k / 5 == world - 1 && k % 5 == level - 1;
  }

  /** Every id 1..25 is the GlobalLevelId of exactly the pair (WorldOfId, LevelOfId), so
      GlobalLevelId is onto 1..25; with GlobalLevelIdRoundTrip it is a bijection. */
  lemma LevelIdDecomposes(id: int)
    requires 1 <= id <= LevelCount
    ensures 1 <= WorldOfId(id) <= WorldCount && 1 <= LevelOfId(id) <= LevelsPerWorld
    ensures GlobalLevelId(WorldOfId(id), LevelOfId(id)) == id
  {
  }

  /** GlobalLevelId is one-to-one on [1,5] x [1,5]. */
  lemma GlobalLevelIdInjective(w1: int, l1: int, w2: int, l2: int)
    requires 1 <= w1 <= WorldCount && 1 <= l1 <= LevelsPerWorld
    requires 1 <= w2 <= WorldCount && 1 <= l2 <= LevelsPerWorld
    requires GlobalLevelId(w1, l1) == GlobalLevelId(w2, l2)
    ensures w1 == w2 && l1 == l2
  {
    GlobalLevelIdRoundTrip(w1, l1);
    GlobalLevelIdRoundTrip(w2, l2);
  }

  /** The row under a key 1..25 is the one for the world and level the key decomposes into. */
  lemma ConfigOfId(id: int)
    requires 1 <= id <= LevelCount
    ensures GetLevelConfig(id).Some?
    ensures GetLevelConfig(id).value.world == WorldOfId(id)
    ensures GetLevelConfig(id).value.level == LevelOfId(id)
    ensures GetLevelConfig(id).value.unlockReward > 0
  {
    RowShape(id);
    GlobalLevelIdRoundTrip(GetLevelConfig(id).value.world, GetLevelConfig(id).value.level);
  }

  /** The row under the key of level l of world w is that world's level l. */
  lemma ConfigAt(w: int, l: int)
    requires 1 <= w <= WorldCount && 1 <= l <= LevelsPerWorld
    ensures GetLevelConfig(GlobalLevelId(w, l)).Some?
    ensures GetLevelConfig(GlobalLevelId(w, l)).value.world == w
    ensures GetLevelConfig(GlobalLevelId(w, l)).value.level == l
  {
    GlobalLevelIdRoundTrip(w, l);
    ConfigOfId(GlobalLevelId(w, l));
  }

  /** The rewards of a world's five keys add up to 155, 198, 247, 350 and 760 coins. */
  lemma WorldRewardSum(w: int)
    requires 1 <= w <= WorldCount
    ensures RewardOf(GlobalLevelId(w, 1)) + RewardOf(GlobalLevelId(w, 2)) + RewardOf(GlobalLevelId(w, 3))
          + RewardOf(GlobalLevelId(w, 4)) + RewardOf(GlobalLevelId(w, 5))
         == [155, 198, 247, 350, 760][w - 1]
  {
    var first := GlobalLevelId(w, 1);
    assert first in {1, 6, 11, 16, 21};
    RewardsFrom(first);
  }

  /** The five rewards from the first key of a world on, added up. */
  lemma RewardsFrom(first: int)
    requires first in {1, 6, 11, 16, 21}
    ensures RewardOf(first) + RewardOf(first + 1) + RewardOf(first + 2) + RewardOf(first + 3)
          + RewardOf(first + 4)
         == if first == 1 then 155 else if first == 6 then 198 else if first == 11 then 247
            else if first == 16 then 350 else 760
  {
  }

  // ---------------------------------------------------------------------------
  // getLevelsByWorld: Object.values (ascending keys), filter on world, sort on level.
  // ---------------------------------------------------------------------------

  /** The rows of `rows` whose world is `world`, in their original order. */
  function FilterWorld(rows: seq<LevelConfig>, world: int): (r: seq<LevelConfig>)
    ensures |r| <= |rows|
  {
    if rows == [] then []
    else
      var last := rows[|rows| - 1];
      FilterWorld(rows[..|rows| - 1], world) + (if last.world == world then [last] else [])
  }

  /** The filter keeps exactly the rows of the requested world. */
  lemma {:induction false} FilterWorldMembers(rows: seq<LevelConfig>, world: int)
    ensures forall x :: x in FilterWorld(rows, world) <==> x in rows && x.world == world
  {
    if rows != [] {
      FilterWorldMembers(rows[..|rows| - 1], world);
      assert rows == rows[..|rows| - 1] + [rows[|rows| - 1]];
    }
  }

  lemma {:induction false} FilterWorldAppend(a: seq<LevelConfig>, b: seq<LevelConfig>, world: int)
    ensures FilterWorld(a + b, world) == FilterWorld(a, world) + FilterWorld(b, world)
  {
    if b == [] {
      assert a + b == a;
    } else {
      assert (a + b)[..|a + b| - 1] == a + b[..|b| - 1];
      FilterWorldAppend(a, b[..|b| - 1], world);
    }
  }

  lemma {:induction false} FilterWorldAll(rows: seq<LevelConfig>, world: int)
    requires forall i :: 0 <= i < |rows| ==> rows[i].world == world
    ensures FilterWorld(rows, world) == rows
  {
    if rows != [] {
      FilterWorldAll(rows[..|rows| - 1], world);
    }
  }

  lemma {:induction false} FilterWorldNone(rows: seq<LevelConfig>, world: int)
    requires forall i :: 0 <= i < |rows| ==> rows[i].world != world
    ensures FilterWorld(rows, world) == []
  {
    if rows != [] {
      FilterWorldNone(rows[..|rows| - 1], world);
    }
  }

  predicate SortedByLevel(rows: seq<LevelConfig>) {
    forall i, j :: 0 <= i < j < |rows| ==> rows[i].level <= rows[j].level
  }

  lemma SortedCons(x: LevelConfig, rows: seq<LevelConfig>)
    requires SortedByLevel(rows)
    requires rows == [] || x.level <= rows[0].level
    ensures SortedByLevel([x] + rows)
  {
    forall i, j | 0 <= i < j < |[x] + rows| ensures ([x] + rows)[i].level <= ([x] + rows)[j].level {
      if i == 0 {
        assert ([x] + rows)[j] == rows[j - 1];
        assert rows[0].level <= rows[j - 1].level;
      } else {
        assert ([x] + rows)[i] == rows[i - 1] && ([x] + rows)[j] == rows[j - 1];
      }
    }
  }

  /** Stable insertion of one row: it goes before the first row of a level not below its own. */
  function InsertByLevel(x: LevelConfig, rows: seq<LevelConfig>): (r: seq<LevelConfig>)
    ensures multiset(r) == multiset(rows) + multiset{x}
    ensures |r| == |rows| + 1
    ensures r[0] == x || (rows != [] && r[0] == rows[0])
  {
    if rows == [] || x.level <= rows[0].level then
      [x] + rows
    else
      assert rows == [rows[0]] + rows[1..];
      [rows[0]] + InsertByLevel(x, rows[1..])
  }

  /** Inserting into rows in level order keeps them in level order. */
  lemma {:induction false} InsertKeepsSorted(x: LevelConfig, rows: seq<LevelConfig>)
    requires SortedByLevel(rows)
    ensures SortedByLevel(InsertByLevel(x, rows))
  {
    if rows == [] || x.level <= rows[0].level {
      SortedCons(x, rows);
    } else {
      var tail := InsertByLevel(x, rows[1..]);
      InsertKeepsSorted(x, rows[1..]);
      assert tail[0] == x || tail[0] == rows[1];
      SortedCons(rows[0], tail);
    }
  }

  /** The array sort with comparator `a.level - b.level`, as a stable insertion sort. */
  function SortByLevel(rows: seq<LevelConfig>): (r: seq<LevelConfig>)
    ensures multiset(r) == multiset(rows)
  {
    if rows == [] then []
    else
      assert rows == [rows[0]] + rows[1..];
      InsertByLevel(rows[0], SortByLevel(rows[1..]))
  }

  /** The sort leaves its rows in level order. */
  lemma {:induction false} SortByLevelSorted(rows: seq<LevelConfig>)
    ensures SortedByLevel(SortByLevel(rows))
  {
    if rows != [] {
      SortByLevelSorted(rows[1..]);
      InsertKeepsSorted(rows[0], SortByLevel(rows[1..]));
    }
  }

  /** Sorting rows that are already in level order leaves them as they are. */
  lemma {:induction false} SortByLevelOfSorted(rows: seq<LevelConfig>)
    requires SortedByLevel(rows)
    ensures SortByLevel(rows) == rows
  {
    if rows != [] {
      SortByLevelOfSorted(rows[1..]);
    }
  }

  /** `getLevelsByWorld`. */
  function GetLevelsByWorld(worldId: int): seq<LevelConfig> {
    SortByLevel(FilterWorld(Table, worldId))
  }

  /** Rows that each sit at the position their key names: row i has key i + 1. */
  predicate KeyedRows(rows: seq<LevelConfig>) {
    forall i :: 0 <= i < |rows| ==>
      && 1 <= rows[i].world <= WorldCount
      && 1 <= rows[i].level <= LevelsPerWorld
      && GlobalLevelId(rows[i].world, rows[i].level) == i + 1
  }

  /** The table lists every key 1..25 once, in order. */
  lemma TableKeyed()
    ensures |Table| == LevelCount
    ensures KeyedRows(Table)
  {
    forall i | 0 <= i < LevelCount
      ensures GlobalLevelId(Table[i].world, Table[i].level) == i + 1
      ensures 1 <= Table[i].world <= WorldCount && 1 <= Table[i].level <= LevelsPerWorld
    {
      RowShape(i + 1);
    }
  }

  /** In keyed rows, world w occupies exactly positions (w - 1) * 5 .. w * 5, with levels 1..5. */
  lemma KeyedWorldPositions(rows: seq<LevelConfig>, w: int)
    requires KeyedRows(rows)
    ensures forall i :: 0 <= i < |rows| ==>
      (rows[i].world == w <==> (w - 1) * 5 <= i < w * 5)
    ensures forall i :: 0 <= i < |rows| && rows[i].world == w ==> rows[i].level == i + 1 - (w - 1) * 5
  {
  }

  /** Filtering keyed rows on a world 1..5 keeps exactly its block of five consecutive rows,
      which is in level order 1..5. */
  lemma FilterKeyedOnWorld(rows: seq<LevelConfig>, w: int)
    requires |rows| == LevelCount && KeyedRows(rows)
    requires 1 <= w <= WorldCount
    ensures FilterWorld(rows, w) == Block(rows, w)
  {
    KeyedWorldPositions(rows, w);
    FilterOnPositions(rows, w);
  }

  /** Filtering rows whose world is w exactly at positions (w - 1) * 5 .. w * 5 - 1. */
  lemma FilterOnPositions(rows: seq<LevelConfig>, w: int)
    requires |rows| == LevelCount && 1 <= w <= WorldCount
    requires forall i :: 0 <= i < |rows| ==> (rows[i].world == w <==> (w - 1) * 5 <= i < w * 5)
    ensures FilterWorld(rows, w) == Block(rows, w)
  {
    var lo, hi := (w - 1) * 5, w * 5;
    var before, block, after := rows[..lo], rows[lo..hi], rows[hi..];
    assert rows == before + block + after;
    FilterWorldAppend(before + block, after, w);
    FilterWorldAppend(before, block, w);
    forall i | 0 <= i < |before| ensures before[i].world != w {
      assert before[i] == rows[i];
    }
    FilterWorldNone(before, w);
    forall i | 0 <= i < |block| ensures block[i].world == w {
      assert block[i] == rows[lo + i];
    }
    FilterWorldAll(block, w);
    forall i | 0 <= i < |after| ensures after[i].world != w {
      assert after[i] == rows[hi + i];
    }
    FilterWorldNone(after, w);
  }



  /** The five consecutive rows a world 1..5 occupies in keyed rows. */
  function Block(rows: seq<LevelConfig>, w: int): seq<LevelConfig>
    requires |rows| == LevelCount && 1 <= w <= WorldCount
  {
    rows[(w - 1) * 5 .. w * 5]
  }

  /** The block of a world 1..5 in keyed rows holds that world's levels 1..5 in order. */
  lemma KeyedBlock(rows: seq<LevelConfig>, w: int)
    requires |rows| == LevelCount && KeyedRows(rows)
    requires 1 <= w <= WorldCount
    ensures |Block(rows, w)| == LevelsPerWorld
    ensures forall i :: 0 <= i < LevelsPerWorld ==>
      && Block(rows, w)[i] == rows[GlobalLevelId(w, i + 1) - 1]
      && Block(rows, w)[i].world == w
      && Block(rows, w)[i].level == i + 1
    ensures SortedByLevel(Block(rows, w))
  {
    var lo := (w - 1) * 5;
    var block := rows[lo .. w * 5];
    KeyedWorldPositions(rows, w);
    forall i | 0 <= i < |block| ensures block[i] == rows[lo + i] && block[i].world == w && block[i].level == i + 1 {
    }
  }

  /** For any keyed 25-row list, filtering on a world and sorting by level gives that world's
      block of five rows, levels 1..5 in order; any other world gives nothing. */
  lemma KeyedLevelsByWorld(rows: seq<LevelConfig>, w: int)
    requires |rows| == LevelCount && KeyedRows(rows)
    ensures 1 <= w <= WorldCount ==>
      && |SortByLevel(FilterWorld(rows, w))| == LevelsPerWorld
      && forall i :: 0 <= i < LevelsPerWorld ==>
           && SortByLevel(FilterWorld(rows, w))[i] == rows[GlobalLevelId(w, i + 1) - 1]
           && SortByLevel(FilterWorld(rows, w))[i].world == w
           && SortByLevel(FilterWorld(rows, w))[i].level == i + 1
    ensures !(1 <= w <= WorldCount) ==> SortByLevel(FilterWorld(rows, w)) == []
  {
    if 1 <= w <= WorldCount {
      FilterKeyedOnWorld(rows, w);
      KeyedBlock(rows, w);
      SortByLevelOfSorted(Block(rows, w));
    } else {
      KeyedWorldPositions(rows, w);
      FilterWorldNone(rows, w);
    }
  }

  /** `getLevelsByWorld(w)` holds world w's rows for levels 1..5 in ascending level order,
      each the row `getLevelConfig` finds under its key; any world outside 1..5 has none. */
  lemma LevelsByWorldExact(w: int)
    ensures 1 <= w <= WorldCount ==>
      && |GetLevelsByWorld(w)| == LevelsPerWorld
      && forall i :: 0 <= i < LevelsPerWorld ==>
           && Some(GetLevelsByWorld(w)[i]) == GetLevelConfig(GlobalLevelId(w, i + 1))
           && GetLevelsByWorld(w)[i].world == w
           && GetLevelsByWorld(w)[i].level == i + 1
    ensures !(1 <= w <= WorldCount) ==> GetLevelsByWorld(w) == []
  {
    if 1 <= w <= WorldCount {
      LevelsByWorldSize(w);
      forall i | 0 <= i < LevelsPerWorld
        ensures Some(GetLevelsByWorld(w)[i]) == GetLevelConfig(GlobalLevelId(w, i + 1))
        ensures GetLevelsByWorld(w)[i].world == w && GetLevelsByWorld(w)[i].level == i + 1
      {
        LevelsByWorldAt(w, i);
      }
    } else {
      TableKeyed();
      KeyedLevelsByWorld(Table, w);
    }
  }

  lemma LevelsByWorldSize(w: int)
    requires 1 <= w <= WorldCount
    ensures |GetLevelsByWorld(w)| == LevelsPerWorld
  {
    TableKeyed();
    KeyedLevelsByWorld(Table, w);
  }

  lemma LevelsByWorldAt(w: int, i: int)
    requires 1 <= w <= WorldCount && 0 <= i < LevelsPerWorld
    ensures |GetLevelsByWorld(w)| == LevelsPerWorld
    ensures Some(GetLevelsByWorld(w)[i]) == GetLevelConfig(GlobalLevelId(w, i + 1))
    ensures GetLevelsByWorld(w)[i].world == w && GetLevelsByWorld(w)[i].level == i + 1
  {
    var id := GlobalLevelId(w, i + 1);
    TableKeyed();
    KeyedLevelAt(Table, w, i);
    assert GetLevelConfig(id) == Some(Table[id - 1]);
  }

  /** One position of KeyedLevelsByWorld, without the quantifier. */
  lemma KeyedLevelAt(rows: seq<LevelConfig>, w: int, i: int)
    requires |rows| == LevelCount && KeyedRows(rows)
    requires 1 <= w <= WorldCount && 0 <= i < LevelsPerWorld
    ensures |SortByLevel(FilterWorld(rows, w))| == LevelsPerWorld
    ensures 1 <= GlobalLevelId(w, i + 1) <= |rows|
    ensures SortByLevel(FilterWorld(rows, w))[i] == rows[GlobalLevelId(w, i + 1) - 1]
    ensures SortByLevel(FilterWorld(rows, w))[i].world == w
    ensures SortByLevel(FilterWorld(rows, w))[i].level == i + 1
  {
    KeyedLevelsByWorld(rows, w);
  }

  /** `getLevelConfig` of a key 1..25 is the table row at that key's position. */
  lemma TableLookup(id: int)
    requires 1 <= id <= LevelCount
    ensures GetLevelConfig(id) == Some(Table[id - 1])
  {
  }

  /** Within a world, as the level rises, the pair count strictly rises, the time limit
      strictly falls, the theme is shared, every reward is positive and level 5 pays the most. */
  lemma WorldDifficultyMonotone(w: int)
    requires 1 <= w <= WorldCount
    ensures |GetLevelsByWorld(w)| == LevelsPerWorld
    ensures forall i :: 0 <= i < LevelsPerWorld - 1 ==>
      && GetLevelsByWorld(w)[i].pairs < GetLevelsByWorld(w)[i + 1].pairs
      && GetLevelsByWorld(w)[i].timeLimit > GetLevelsByWorld(w)[i + 1].timeLimit
      && GetLevelsByWorld(w)[i + 1].theme == GetLevelsByWorld(w)[i].theme
      && GetLevelsByWorld(w)[i].unlockReward < GetLevelsByWorld(w)[LevelsPerWorld - 1].unlockReward
    ensures forall i :: 0 <= i < LevelsPerWorld ==> GetLevelsByWorld(w)[i].unlockReward > 0
  {
    LevelsByWorldSize(w);
    forall i | 0 <= i < LevelsPerWorld - 1
      ensures GetLevelsByWorld(w)[i].pairs < GetLevelsByWorld(w)[i + 1].pairs
      ensures GetLevelsByWorld(w)[i].timeLimit > GetLevelsByWorld(w)[i + 1].timeLimit
      ensures GetLevelsByWorld(w)[i + 1].theme == GetLevelsByWorld(w)[i].theme
      ensures GetLevelsByWorld(w)[i].unlockReward < GetLevelsByWorld(w)[LevelsPerWorld - 1].unlockReward
    {
      WorldLevelStep(w, i);
    }
    forall i | 0 <= i < LevelsPerWorld
      ensures GetLevelsByWorld(w)[i].unlockReward > 0
    {
      WorldLevelPositive(w, i);
    }
  }

  /** Every level of a world pays a positive reward. */
  lemma WorldLevelPositive(w: int, i: int)
    requires 1 <= w <= WorldCount && 0 <= i < LevelsPerWorld
    ensures |GetLevelsByWorld(w)| == LevelsPerWorld
    ensures GetLevelsByWorld(w)[i].unlockReward > 0
  {
    LevelsByWorldAt(w, i);
    RowShape(GlobalLevelId(w, i + 1));
  }

  /** One level of a world below level 5 against the next one and against level 5. */
  lemma WorldLevelStep(w: int, i: int)
    requires 1 <= w <= WorldCount && 0 <= i < LevelsPerWorld - 1
    ensures |GetLevelsByWorld(w)| == LevelsPerWorld
    ensures GetLevelsByWorld(w)[i].pairs < GetLevelsByWorld(w)[i + 1].pairs
    ensures GetLevelsByWorld(w)[i].timeLimit > GetLevelsByWorld(w)[i + 1].timeLimit
    ensures GetLevelsByWorld(w)[i + 1].theme == GetLevelsByWorld(w)[i].theme
    ensures GetLevelsByWorld(w)[i].unlockReward < GetLevelsByWorld(w)[LevelsPerWorld - 1].unlockReward
  {
    var id := GlobalLevelId(w, i + 1);
    LevelsByWorldAt(w, i);
    LevelsByWorldAt(w, i + 1);
    LevelsByWorldAt(w, LevelsPerWorld - 1);
    assert id + 1 == GlobalLevelId(w, i + 2);
    assert id + LevelsPerWorld - (i + 1) == GlobalLevelId(w, LevelsPerWorld);
    RowStep(id);
  }
}
