/**
  Sequences of profile operations, and the profile facts every operation keeps: the
  balance is not negative, an equipped skin is owned, and the progress fields stay in
  the ranges the screens are built for.
 */
module Session {
  import opened UtcDate
  import opened Progression
  import Levels

  /** One call into the progression engine. Rewards are the only coins the game adds, so an
      addition here is never negative. */
  datatype Op =
    | Add(credit: nat)
    | Spend(amount: int)
    | Claim(today: Date)
    | Buy(skinId: string, price: int)
    | Equip(skinId: string)
    | Complete(levelId: int)

  /** A claim is made on a date that exists. */
  predicate WellFormed(op: Op) {
    op.Claim? ==> Valid(op.today)
  }

  function Step(p: Profile, op: Op): Profile
    requires WellFormed(op)
  {
    match op
    case Add(credit) => AddCoins(p, credit).profile
    case Spend(amount) => SpendCoins(p, amount).profile
    case Claim(today) => ClaimDailyReward(p, today).profile
    case Buy(skinId, price) => BuySkin(p, skinId, price).profile
    case Equip(skinId) => EquipSkin(p, skinId).profile
    case Complete(levelId) => CompleteLevel(p, levelId).profile
  }

  function Run(p: Profile, ops: seq<Op>): Profile
    requires forall i :: 0 <= i < |ops| ==> WellFormed(ops[i])
    decreases |ops|
  {
    if ops == [] then p else Run(Step(p, ops[0]), ops[1..])
  }

  /** The progress fields in the ranges the world map and level selector expect. */
  predicate ProgressInRange(p: Profile) {
    && 1 <= p.currentWorld <= Levels.WorldCount
    && 1 <= p.currentLevel <= Levels.LevelCount
    && 0 <= p.worldsCompleted <= Levels.WorldCount
  }

  predicate Invariant(p: Profile) {
    Consistent(p) && ProgressInRange(p)
  }

  lemma DefaultInvariant()
    ensures Invariant(DefaultProfile)
  {
  }

  /** Completing any id keeps the progress in range. */
  lemma CompleteLevelInRange(p: Profile, levelId: int)
    requires ProgressInRange(p)
    ensures ProgressInRange(CompleteLevel(p, levelId).profile)
  {
    Levels.GetLevelConfigDomain(levelId);
    if 1 <= levelId <= Levels.LevelCount {
      Levels.ConfigOfId(levelId);
    }
  }

  /** Every single operation keeps the invariant. */
  lemma StepKeepsInvariant(p: Profile, op: Op)
    requires WellFormed(op) && Invariant(p)
    ensures Invariant(Step(p, op))
  {
    match op
    case Buy(skinId, price) => SkinsKeepConsistent(p, skinId, price);
    case Equip(skinId) => SkinsKeepConsistent(p, skinId, 0);
    case Complete(levelId) =>
      CompleteLevelKeepsConsistent(p, levelId);
      CompleteLevelInRange(p, levelId);
    case _ =>
  }

  /** Any sequence of operations keeps the invariant. */
  lemma {:induction false} RunKeepsInvariant(p: Profile, ops: seq<Op>)
    requires forall i :: 0 <= i < |ops| ==> WellFormed(ops[i])
    requires Invariant(p)
    ensures Invariant(Run(p, ops))
    decreases |ops|
  {
    if ops != [] {
      StepKeepsInvariant(p, ops[0]);
      RunKeepsInvariant(Step(p, ops[0]), ops[1..]);
    }
  }

  /** The coins a run of completions pays: the sum of the rewards of its known ids. */
  function Earned(ids: seq<int>): int {
    if ids == [] then 0
    else Levels.RewardOf(ids[0]) + Earned(ids[1..])
  }

  function Completions(ids: seq<int>): (r: seq<Op>)
    ensures |r| == |ids|
    ensures forall i :: 0 <= i < |r| ==> r[i] == Complete(ids[i])
  {
    if ids == [] then [] else [Complete(ids[0])] + Completions(ids[1..])
  }

  /** Completions pay every time, replays included: the balance grows by the sum of the
      rewards of all known ids completed. */
  lemma {:induction false} CompletionsPay(p: Profile, ids: seq<int>)
    ensures Run(p, Completions(ids)).coins == p.coins + Earned(ids)
    decreases |ids|
  {
    if ids != [] {
      var first := Complete(ids[0]);
      assert Completions(ids)[1..] == Completions(ids[1..]);
      if 1 <= ids[0] <= Levels.LevelCount {
        CompleteLevelPays(p, ids[0]);
      } else {
        CompleteLevelUnknown(p, ids[0]);
        Levels.GetLevelConfigDomain(ids[0]);
      }
      CompletionsPay(Step(p, first), ids[1..]);
    }
  }
}
