/**
  The player's profile and the operations of the progression engine: coins, the
  once-per-UTC-day reward, skins, world progress and the level-completion cascade.
  The stored profile is a value; each operation maps a profile to a new one and a result.
 */
module Progression {
  import opened Wrappers
  import opened UtcDate
  import Levels

  /** What the device stores: coins, skins, the equipped skin, the last daily claim (the
      stored text, absent when never claimed) and the world progress. */
  datatype Profile = Profile(
    coins: int,
    ownedSkins: seq<string>,
    equippedSkin: Option<string>,
    lastDailyAt: Option<string>,
    currentWorld: int,
    currentLevel: int,
    worldsCompleted: int)

  /** A new profile: what the getters read from empty storage. */
  const DefaultProfile: Profile := Profile(0, [], None, None, 1, 1, 0)

  const DailyReward: int := 50

  /** The profile after an operation and what the operation returned. */
  datatype Outcome<T> = Outcome(profile: Profile, result: T)

  /** The profile state the rest of the game relies on: a balance that is not negative and an
      equipped skin, if any, that is owned. */
  predicate Consistent(p: Profile) {
    p.coins >= 0 && (p.equippedSkin.Some? ==> p.equippedSkin.value in p.ownedSkins)
  }

  // ---------------------------------------------------------------------------
  // Coins
  // ---------------------------------------------------------------------------

  /** `addCoins`: stores and returns the new total. */
  function AddCoins(p: Profile, amount: int): (r: Outcome<int>)
    ensures r.profile.coins == p.coins + amount && r.result == r.profile.coins
    ensures r.profile == p.(coins := r.profile.coins)
  {
    var total := p.coins + amount;
    Outcome(p.(coins := total), total)
  }

  /** `spendCoins`: refused, changing nothing, when the balance is below the amount. */
  function SpendCoins(p: Profile, amount: int): (r: Outcome<bool>)
    ensures r.result <==> amount <= p.coins
    ensures !r.result ==> r.profile == p
    ensures r.result ==> r.profile == p.(coins := p.coins - amount)
    ensures r.result ==> r.profile.coins >= 0
  {
    if p.coins < amount then Outcome(p, false) else Outcome(p.(coins := p.coins - amount), true)
  }

  /** From a balance that is not negative, spending what was just added succeeds and
      restores the profile. */
  lemma AddThenSpend(p: Profile, amount: int)
    requires p.coins >= 0
    ensures SpendCoins(AddCoins(p, amount).profile, amount) == Outcome(p, true)
  {
    var q := AddCoins(p, amount).profile;
    assert q.(coins := q.coins - amount) == p;
  }

  /** Adding back what was spent restores the profile. */
  lemma SpendThenAdd(p: Profile, amount: int)
    requires SpendCoins(p, amount).result
    ensures AddCoins(SpendCoins(p, amount).profile, amount).profile == p
  {
  }

  // ---------------------------------------------------------------------------
  // The daily reward
  // ---------------------------------------------------------------------------

  /** `canClaimDaily` on the UTC calendar date `today`: with no claim recorded (or an empty
      one) it holds; otherwise the stored text is read as a date and both dates go through
      `Date.UTC`; text that reads as no date makes the comparison false. */
  function CanClaimDaily(p: Profile, today: Date): bool
    requires Valid(today)
  {
    match p.lastDailyAt
    case None => true
    case Some(s) =>
      if s == "" then true
      else
        match ParseFullDate(s)
        case None => false
        case Some(last) => UtcDayNumber(today) > UtcDayNumber(last)
  }

  /** From the year 100 on, the gate opens exactly when today's calendar date is later than
      the last claim's; the time of day never matters. */
  lemma CanClaimDailyIffLater(p: Profile, today: Date)
    requires Valid(today) && today.year >= 100
    ensures p.lastDailyAt == None || p.lastDailyAt == Some("") ==> CanClaimDaily(p, today)
    ensures p.lastDailyAt.Some? && p.lastDailyAt != Some("") && ParseFullDate(p.lastDailyAt.value).None?
      ==> !CanClaimDaily(p, today)
    ensures p.lastDailyAt.Some? && ParseFullDate(p.lastDailyAt.value).Some?
      && ParseFullDate(p.lastDailyAt.value).value.year >= 100
      ==> (CanClaimDaily(p, today) <==> Before(ParseFullDate(p.lastDailyAt.value).value, today))
  {
    if p.lastDailyAt.Some? && ParseFullDate(p.lastDailyAt.value).Some? {
      var last := ParseFullDate(p.lastDailyAt.value).value;
      if last.year >= 100 {
        UtcDayNumberOrder(last, today);
      }
    }
  }

  /** A stored claim in the years 0..99 holds the gate shut until the same day of 19xx has
      passed: "0050-06-01" opens exactly on dates after 1950-06-01. */
  lemma CanClaimDailyTwoDigitYear(p: Profile, today: Date)
    requires Valid(today) && today.year >= 100
    requires p.lastDailyAt.Some? && ParseFullDate(p.lastDailyAt.value).Some?
    requires var last := ParseFullDate(p.lastDailyAt.value).value;
      last.year <= 99 && Valid(Date(1900 + last.year, last.month, last.day))
    ensures var last := ParseFullDate(p.lastDailyAt.value).value;
      CanClaimDaily(p, today) <==> Before(Date(1900 + last.year, last.month, last.day), today)
  {
    var last := ParseFullDate(p.lastDailyAt.value).value;
    TwoDigitYearComparesAs19xx(last, today);
  }

  /** `claimDailyReward`: 0 and no change when the gate is shut; otherwise today's date is
      recorded as `YYYY-MM-DD`, 50 coins are added and the new total is returned. */
  function ClaimDailyReward(p: Profile, today: Date): (r: Outcome<int>)
    requires Valid(today)
    ensures !CanClaimDaily(p, today) ==> r == Outcome(p, 0)
    ensures CanClaimDaily(p, today) ==>
      && r.profile.coins == p.coins + DailyReward
      && r.result == r.profile.coins
      && r.profile.lastDailyAt == Some(FormatDate(today))
      && r.profile == p.(coins := r.profile.coins, lastDailyAt := r.profile.lastDailyAt)
  {
    if !CanClaimDaily(p, today) then Outcome(p, 0)
    else
      var stamped := p.(lastDailyAt := Some(FormatDate(today)));
      AddCoins(stamped, DailyReward)
  }

  /** A second claim on the same UTC day returns 0 and changes nothing. */
  lemma ClaimTwiceSameDay(p: Profile, today: Date)
    requires Valid(today) && 1000 <= today.year <= 9999
    requires CanClaimDaily(p, today)
    ensures ClaimDailyReward(ClaimDailyReward(p, today).profile, today)
         == Outcome(ClaimDailyReward(p, today).profile, 0)
  {
    FormatParse(today);
  }

  /** After a claim, the gate opens again on exactly the later calendar days. */
  lemma ClaimReopensLater(p: Profile, today: Date, later: Date)
    requires Valid(today) && 1000 <= today.year <= 9999
    requires Valid(later) && later.year >= 100
    requires CanClaimDaily(p, today)
    ensures CanClaimDaily(ClaimDailyReward(p, today).profile, later) <==> Before(today, later)
  {
    FormatParse(today);
    UtcDayNumberOrder(today, later);
  }

  /** In particular the next calendar day can claim again. */
  lemma ClaimNextDay(p: Profile, today: Date)
    requires Valid(today) && 1000 <= today.year <= 9999
    requires CanClaimDaily(p, today)
    ensures CanClaimDaily(ClaimDailyReward(p, today).profile, NextDay(today))
  {
    ClaimReopensLater(p, today, NextDay(today));
  }

  // ---------------------------------------------------------------------------
  // Skins
  // ---------------------------------------------------------------------------

  predicate OwnsSkin(p: Profile, skinId: string) {
    skinId in p.ownedSkins
  }

  /** `buySkin`: refused when the skin is owned or the balance is short; otherwise the price
      is paid and the skin appended to the owned list. */
  function BuySkin(p: Profile, skinId: string, price: int): (r: Outcome<bool>)
    ensures r.result <==> !OwnsSkin(p, skinId) && price <= p.coins
    ensures !r.result ==> r.profile == p
    ensures r.result ==>
      && r.profile.coins == p.coins - price
      && r.profile.ownedSkins == p.ownedSkins + [skinId]
      && multiset(r.profile.ownedSkins)[skinId] == 1
      && r.profile == p.(coins := r.profile.coins, ownedSkins := r.profile.ownedSkins)
  {
    if OwnsSkin(p, skinId) then Outcome(p, false)
    else
      var paid := SpendCoins(p, price);
      if !paid.result then Outcome(p, false)
      else Outcome(paid.profile.(ownedSkins := paid.profile.ownedSkins + [skinId]), true)
  }

  /** `equipSkin`: only an owned skin can be equipped. */
  function EquipSkin(p: Profile, skinId: string): (r: Outcome<bool>)
    ensures r.result <==> OwnsSkin(p, skinId)
    ensures !r.result ==> r.profile == p
    ensures r.result ==> r.profile == p.(equippedSkin := Some(skinId))
  {
    if !OwnsSkin(p, skinId) then Outcome(p, false)
    else Outcome(p.(equippedSkin := Some(skinId)), true)
  }

  /** Buying a skin twice charges once. */
  lemma BuySkinOnce(p: Profile, skinId: string, price: int)
    requires BuySkin(p, skinId, price).result
    ensures BuySkin(BuySkin(p, skinId, price).profile, skinId, price)
         == Outcome(BuySkin(p, skinId, price).profile, false)
  {
  }

  /** A bought skin can be equipped. */
  lemma BuyThenEquip(p: Profile, skinId: string, price: int)
    requires BuySkin(p, skinId, price).result
    ensures EquipSkin(BuySkin(p, skinId, price).profile, skinId).result
  {
  }

  /** Buying and equipping keep the balance non-negative and the equipped skin owned. */
  lemma SkinsKeepConsistent(p: Profile, skinId: string, price: int)
    requires Consistent(p)
    ensures Consistent(BuySkin(p, skinId, price).profile)
    ensures Consistent(EquipSkin(p, skinId).profile)
  {
  }

  // ---------------------------------------------------------------------------
  // World progress
  // ---------------------------------------------------------------------------

  datatype WorldProgress = WorldProgress(currentWorld: int, currentLevel: int, worldsCompleted: int)

  /** `Partial<WorldProgress>`: a field that is None is left as it is. */
  datatype ProgressUpdate = ProgressUpdate(
    currentWorld: Option<int>,
    currentLevel: Option<int>,
    worldsCompleted: Option<int>)

  function GetWorldProgress(p: Profile): (r: WorldProgress)
    ensures p == DefaultProfile ==> r == WorldProgress(1, 1, 0)
  {
    WorldProgress(p.currentWorld, p.currentLevel, p.worldsCompleted)
  }

  function Apply(u: Option<int>, current: int): int {
    match u
    case None => current
    case Some(v) => v
  }

  /** `setWorldProgress`: writes exactly the fields the update carries. */
  function SetWorldProgress(p: Profile, u: ProgressUpdate): (r: Profile)
    ensures GetWorldProgress(r) == WorldProgress(
      Apply(u.currentWorld, p.currentWorld),
      Apply(u.currentLevel, p.currentLevel),
      Apply(u.worldsCompleted, p.worldsCompleted))
    ensures r.coins == p.coins && r.ownedSkins == p.ownedSkins
    ensures r.equippedSkin == p.equippedSkin && r.lastDailyAt == p.lastDailyAt
  {
    p.(currentWorld := Apply(u.currentWorld, p.currentWorld),
       currentLevel := Apply(u.currentLevel, p.currentLevel),
       worldsCompleted := Apply(u.worldsCompleted, p.worldsCompleted))
  }

  /** An empty update, or writing back what was read, changes nothing; writing what was read
      after an update returns the update's values. */
  lemma SetWorldProgressLaws(p: Profile, u: ProgressUpdate)
    ensures SetWorldProgress(p, ProgressUpdate(None, None, None)) == p
    ensures var g := GetWorldProgress(p);
      SetWorldProgress(p, ProgressUpdate(Some(g.currentWorld), Some(g.currentLevel), Some(g.worldsCompleted))) == p
    ensures SetWorldProgress(SetWorldProgress(p, u), u) == SetWorldProgress(p, u)
  {
  }

  // ---------------------------------------------------------------------------
  // Completing a level
  // ---------------------------------------------------------------------------

  /** What finishing a world reports. */
  datatype WorldUnlockEvent = WorldUnlockEvent(
    completedWorld: int,
    unlockedWorld: int,
    coinsEarned: int,
    isGameComplete: bool)

  /** `completeLevel`: an unknown id does nothing; otherwise the level's reward is paid, and
      a level 5 records its world as completed and moves on to the next world's first level
      (or stays on the last level after world 5), while any other level moves on to the
      next id. The stored progress is never consulted. */
  function CompleteLevel(p: Profile, levelId: int): (r: Outcome<Option<WorldUnlockEvent>>)
    ensures Levels.GetLevelConfig(levelId).None? ==> r == Outcome(p, None)
    ensures r.profile.ownedSkins == p.ownedSkins && r.profile.equippedSkin == p.equippedSkin
    ensures r.profile.lastDailyAt == p.lastDailyAt
  {
    match Levels.GetLevelConfig(levelId)
    case None => Outcome(p, None)
    case Some(config) => CompleteWithConfig(p, levelId, config)
  }

  /** The body of `completeLevel` once the id's row is found. */
  function CompleteWithConfig(p: Profile, levelId: int, config: Levels.LevelConfig): (r: Outcome<Option<WorldUnlockEvent>>)
    ensures r.profile.coins == p.coins + config.unlockReward
    ensures r.profile.ownedSkins == p.ownedSkins && r.profile.equippedSkin == p.equippedSkin
    ensures r.profile.lastDailyAt == p.lastDailyAt
  {
    var paid := AddCoins(p, config.unlockReward).profile;
    if config.level == 5 then
      var nextWorld := config.world + 1;
      var moved := SetWorldProgress(paid, ProgressUpdate(
        Some(if nextWorld <= 5 then nextWorld else config.world),
        Some(if nextWorld <= 5 then (nextWorld - 1) * 5 + 1 else levelId),
        Some(config.world)));
      if nextWorld <= 5 then
        Outcome(moved, Some(WorldUnlockEvent(config.world, nextWorld, config.unlockReward, false)))
      else
        Outcome(moved, Some(WorldUnlockEvent(config.world, config.world, config.unlockReward, true)))
    else
      Outcome(SetWorldProgress(paid, ProgressUpdate(None, Some(levelId + 1), None)), None)
  }

  /** Every known id pays its reward, which is positive. */
  lemma CompleteLevelPays(p: Profile, levelId: int)
    requires 1 <= levelId <= Levels.LevelCount
    ensures CompleteLevel(p, levelId).profile.coins == p.coins + Levels.RewardOf(levelId)
    ensures Levels.RewardOf(levelId) > 0
  {
    Levels.ConfigOfId(levelId);
  }

  /** Ids outside 1..25 change nothing and report nothing. */
  lemma CompleteLevelUnknown(p: Profile, levelId: int)
    requires !(1 <= levelId <= Levels.LevelCount)
    ensures CompleteLevel(p, levelId) == Outcome(p, None)
  {
    Levels.GetLevelConfigDomain(levelId);
  }

  /** Levels 1..4 of a world move the current level to the next id and touch nothing else
      of the progress. */
  lemma CompleteInnerLevel(p: Profile, levelId: int)
    requires 1 <= levelId <= Levels.LevelCount && Levels.LevelOfId(levelId) < 5
    ensures CompleteLevel(p, levelId).result == None
    ensures GetWorldProgress(CompleteLevel(p, levelId).profile)
         == WorldProgress(p.currentWorld, levelId + 1, p.worldsCompleted)
  {
    Levels.ConfigOfId(levelId);
  }

  /** Level 5 of worlds 1..4 completes the world and opens the next world at its level 1. */
  lemma CompleteWorldEnd(p: Profile, w: int)
    requires 1 <= w < Levels.WorldCount
    ensures CompleteLevel(p, Levels.GlobalLevelId(w, 5)).result
      == Some(WorldUnlockEvent(w, w + 1, Levels.RewardOf(Levels.GlobalLevelId(w, 5)), false))
    ensures GetWorldProgress(CompleteLevel(p, Levels.GlobalLevelId(w, 5)).profile)
      == WorldProgress(w + 1, w * 5 + 1, w)
  {
    var id := Levels.GlobalLevelId(w, 5);
    Levels.ConfigAt(w, 5);
    var config := Levels.GetLevelConfig(id).value;
    WorldEndWithConfig(p, id, config);
    var e := CompleteLevel(p, id).result.value;
    assert e.completedWorld == w && e.unlockedWorld == w + 1;
    assert e.coinsEarned == Levels.RewardOf(id) && !e.isGameComplete;
  }

  /** The world-end branch on its own: a level-5 row of a world below 5 moves the player to
      level 1 of the next world and reports that world unlocked. */
  lemma WorldEndWithConfig(p: Profile, levelId: int, config: Levels.LevelConfig)
    requires config.level == 5 && 1 <= config.world < Levels.WorldCount
    ensures CompleteWithConfig(p, levelId, config).result
      == Some(WorldUnlockEvent(config.world, config.world + 1, config.unlockReward, false))
    ensures GetWorldProgress(CompleteWithConfig(p, levelId, config).profile)
      == WorldProgress(config.world + 1, config.world * 5 + 1, config.world)
  {
  }

  /** Level 5 of world 5 completes the game: 500 coins, and the progress stays on level 25. */
  lemma CompleteFinalLevel(p: Profile)
    ensures CompleteLevel(p, 25).result == Some(WorldUnlockEvent(5, 5, 500, true))
    ensures CompleteLevel(p, 25).profile.coins == p.coins + 500
    ensures GetWorldProgress(CompleteLevel(p, 25).profile) == WorldProgress(5, 25, 5)
  {
    Levels.TableLookup(25);
  }

  /** Not idempotent: completing the same level twice pays twice. */
  lemma CompleteLevelPaysEveryTime(p: Profile, levelId: int)
    requires 1 <= levelId <= Levels.LevelCount
    ensures CompleteLevel(CompleteLevel(p, levelId).profile, levelId).profile.coins
         == p.coins + 2 * Levels.RewardOf(levelId)
    ensures CompleteLevel(CompleteLevel(p, levelId).profile, levelId).profile.coins
         > CompleteLevel(p, levelId).profile.coins
  {
    CompleteLevelPays(p, levelId);
    CompleteLevelPays(CompleteLevel(p, levelId).profile, levelId);
  }

  /** The progress before the call plays no part: what is reported and the level moved to
      depend on the id alone, and so does every progress field for a level 5. */
  lemma CompleteLevelIgnoresProgress(p: Profile, q: Profile, levelId: int)
    requires 1 <= levelId <= Levels.LevelCount
    ensures CompleteLevel(p, levelId).result == CompleteLevel(q, levelId).result
    ensures CompleteLevel(p, levelId).profile.currentLevel == CompleteLevel(q, levelId).profile.currentLevel
    ensures Levels.LevelOfId(levelId) == 5 ==>
      GetWorldProgress(CompleteLevel(p, levelId).profile) == GetWorldProgress(CompleteLevel(q, levelId).profile)
  {
    Levels.ConfigOfId(levelId);
  }

  /** Replaying an earlier world's level 5 lowers `worldsCompleted` to that world. */
  lemma ReplayRewindsWorlds(p: Profile, w: int)
    requires 1 <= w <= Levels.WorldCount && p.worldsCompleted > w
    ensures CompleteLevel(p, Levels.GlobalLevelId(w, 5)).profile.worldsCompleted == w
    ensures CompleteLevel(p, Levels.GlobalLevelId(w, 5)).profile.worldsCompleted < p.worldsCompleted
  {
    Levels.GlobalLevelIdRoundTrip(w, 5);
    Levels.ConfigOfId(Levels.GlobalLevelId(w, 5));
  }

  /** Replaying an inner level behind the current one moves the current level back. */
  lemma ReplayRewindsLevel(p: Profile, levelId: int)
    requires 1 <= levelId <= Levels.LevelCount && Levels.LevelOfId(levelId) < 5
    requires p.currentLevel > levelId + 1
    ensures CompleteLevel(p, levelId).profile.currentLevel < p.currentLevel
  {
    CompleteInnerLevel(p, levelId);
  }

  /** Completion keeps the profile consistent: rewards are positive and skins untouched. */
  lemma CompleteLevelKeepsConsistent(p: Profile, levelId: int)
    requires Consistent(p)
    ensures Consistent(CompleteLevel(p, levelId).profile)
  {
    Levels.GetLevelConfigDomain(levelId);
  }

  /** A new player finishing level 5 earns 100 coins and moves to world 2, level 6; finishing
      level 3 earns 15 and moves to level 4; id 999 does nothing. */
  lemma FreshPlayerExamples()
    ensures var r := CompleteLevel(DefaultProfile, 5);
      && r.profile.coins == 100
      && GetWorldProgress(r.profile) == WorldProgress(2, 6, 1)
      && r.result == Some(WorldUnlockEvent(1, 2, 100, false))
    ensures var r := CompleteLevel(DefaultProfile, 3);
      && r.profile.coins == 15 && r.result == None
      && GetWorldProgress(r.profile) == WorldProgress(1, 4, 0)
    ensures CompleteLevel(DefaultProfile, 999) == Outcome(DefaultProfile, None)
  {
    Levels.TableLookup(5);
    Levels.TableLookup(3);
  }
}
