# Memory-match progression engine, modelled in Dafny

This project models the progression engine of a five-world, twenty-five-level memory card
game, and the rules its screens apply to that engine's state:

- **Level catalogue** (`src/lib/levels.ts`). The `LEVELS` record maps keys 1..25 to a world,
  a level within the world, a pair count, a time limit, a theme and an unlock reward. Around
  it sit `getLevelConfig`, `getLevelsByWorld` (the record's values filtered on the world,
  then sorted on level) and `getGlobalLevelId`.
- **Player profile** (`src/lib/progression.ts`). The profile holds:
  - a coin balance, with `addCoins` and `spendCoins`;
  - the once-per-UTC-day reward, through `canClaimDaily` and `claimDailyReward`, with the
    `YYYY-MM-DD` stamp it stores;
  - owned and equipped skins, through `ownsSkin`, `buySkin` and `equipSkin`;
  - world progress, through `getWorldProgress` and `setWorldProgress`;
  - `completeLevel`, which pays a level's reward and moves the progress on;
  - the remote mirror: the snapshot `syncToSupabase` uploads, and the merge
    `loadFromSupabase` applies to a fetched row.
- **Screens** (`GameShell.tsx`, `LevelSelector.tsx`, `WorldMap.tsx`).
  - The game screen lets a level's first completion through and ignores repeats until the
    level changes.
  - The level selector decides which of a world's levels are open and which is current,
    and shows an information panel.
  - The world map decides which worlds are open, completed or badged.

Local storage is one immutable `Profile` value. Every operation is a pure function from a
profile to an `Outcome` (the new profile, plus what the source function returns). The clock
is a parameter: a valid UTC calendar date. The network is a `FetchResult` value.

Modules:

- `Wrappers`: `Option`.
- `Intervals`: `Range`, `AtMost` and `Min`.
- `Levels`: the catalogue.
- `UtcDate`:
  - the proleptic Gregorian day count behind `Date.UTC`;
  - the remapping of years 0..99 that `Date.UTC` applies;
  - the `YYYY-MM-DD` format and its parser.
- `Progression`: the profile operations.
- `Sync`: the remote snapshot and merge, with JavaScript's `undefined`, `null` and
  truthiness written out.
- `Session`: sequences of operations and the invariant they keep.
- `GameShell`, `LevelSelector` and `WorldMap`: the screens.
- `Unlocking`: what the screens show after `completeLevel`.

Some behaviours of the code differ from what a reader of the game might expect. The model
follows the code:

- A fresh profile owns no skins, so there is no starting skin. `getOwnedSkins` returns `[]`
  when nothing is stored, and no default skin is ever added.
- `completeLevel(25)` writes `currentWorld := 5` and `currentLevel := 25` whatever the
  progress was before. It does not leave the profile's progress as it was.
- `loadFromSupabase` overwrites the equipped skin and the last-claim date only when the
  fetched value is truthy. It writes the three progress fields whenever they are not
  `undefined`, and a `null` there throws at `.toString()`, which abandons the remaining
  writes. So the merge is not a wholesale replacement.
- `GameShell` receives a global level id (1..25) but counts to `TOTAL_LEVELS = 5`. From any
  level 5 or higher it offers level 1 under the end-of-game banner. This is kept as written:
  see `GameShell.WrapsAtFive`.
- `spendCoins` and `buySkin` do not check that the amount is non-negative, and neither does
  the model.

## Model

| member | source | states |
|---|---|---|
| Levels.GetLevelConfigDomain | src/lib/levels.ts:10-44 | a row exists exactly for keys 1..25; each row's world and level lie in 1..5, re-encode to its own key, and its reward is positive |
| Levels.RowShape | src/lib/levels.ts:10-40 | key by key: a row exists exactly for 1..25, sits under the key of its (world, level), and has a positive reward, pair count and time limit |
| Levels.RowStep | src/lib/levels.ts:10-40 | going up one level in a world raises the pair count, lowers the time limit, keeps the theme, and stays below the world's level-5 reward |
| Levels.GlobalLevelIdRoundTrip | src/lib/levels.ts:52-54 | `getGlobalLevelId` maps [1,5]x[1,5] into 1..25, and world/level can be recovered from the key |
| Levels.LevelIdDecomposes | src/lib/levels.ts:52-54 | every key 1..25 is `getGlobalLevelId` of exactly its own world and level |
| Levels.GlobalLevelIdInjective | src/lib/levels.ts:52-54 | two different (world, level) pairs in range never share a key |
| Levels.ConfigOfId | src/lib/levels.ts:42-44 | the row under a key 1..25 has the world and level the key decomposes into, and a positive reward |
| Levels.ConfigAt | src/lib/levels.ts:42-44 | the row under the key of (w, l) exists and is world w, level l |
| Levels.FilterWorldMembers | src/lib/levels.ts:47-48 | the filter keeps exactly the rows of the requested world |
| Levels.FilterWorldAppend | src/lib/levels.ts:47-48 | filtering distributes over concatenation |
| Levels.InsertByLevel | src/lib/levels.ts:49 | one insertion step of the sort adds exactly the inserted row (multiset) and puts it first or keeps the old head first |
| Levels.InsertKeepsSorted | src/lib/levels.ts:49 | inserting into level-ordered rows keeps them level-ordered |
| Levels.SortByLevel | src/lib/levels.ts:49 | the sort is a permutation of its input |
| Levels.SortByLevelSorted | src/lib/levels.ts:49 | the sort's output is in level order |
| Levels.SortByLevelOfSorted | src/lib/levels.ts:49 | rows already in level order come out unchanged |
| Levels.TableKeyed | src/lib/levels.ts:10-40 | the record's values, in key order, each sit at the position their key names |
| Levels.FilterKeyedOnWorld | src/lib/levels.ts:46-48 | filtering keyed rows on world w keeps exactly the five consecutive rows of that world |
| Levels.LevelsByWorldExact | src/lib/levels.ts:46-50 | `getLevelsByWorld(w)` is, for w in 1..5, the five rows of keys (w-1)*5+1..w*5 in level order 1..5, and empty for any other w |
| Levels.LevelsByWorldAt | src/lib/levels.ts:46-50 | position i of `getLevelsByWorld(w)` holds the row `getLevelConfig` finds under the key of level i+1 |
| Levels.LevelsByWorldSize | src/lib/levels.ts:46-50 | each of worlds 1..5 has exactly five rows |
| Levels.WorldLevelPositive | src/lib/levels.ts:46-50 | every row of a world's list pays a positive reward |
| Levels.WorldLevelStep | src/lib/levels.ts:46-50 | from each row of a world's list to the next, pairs rise, the time limit falls and the theme stays; the last row pays the most |
| Levels.WorldDifficultyMonotone | src/lib/levels.ts:10-40 | within a world, pairs rise, time limits fall, the theme is shared, every reward is positive and level 5 pays the most |
| Levels.WorldRewardSum | src/lib/levels.ts:10-40 | the rewards of a world's five keys add up to 155, 198, 247, 350 and 760 |
| Progression.AddCoins | src/lib/progression.ts:40-46 | the balance grows by the amount, the new total is returned, and nothing else changes |
| Progression.SpendCoins | src/lib/progression.ts:48-55 | succeeds exactly when the balance covers the amount; on success deducts it and nothing else, on failure changes nothing |
| Progression.AddThenSpend | src/lib/progression.ts:40-55 | spending what was just added succeeds and restores the profile |
| Progression.SpendThenAdd | src/lib/progression.ts:40-55 | adding back what a successful spend took restores the profile |
| Progression.CanClaimDailyIffLater | src/lib/progression.ts:65-76 | with no claim recorded (or an empty one) the claim is open; with unparsable text it is closed; otherwise it is open exactly when today's UTC date is after the last claim's date |
| Progression.CanClaimDailyTwoDigitYear | src/lib/progression.ts:65-76 | a stored claim stamped in years 0..99 keeps the claim shut until the same day of 19xx has passed: "0050-06-01" opens exactly after 1950-06-01 |
| Progression.ClaimDailyReward | src/lib/progression.ts:78-87 | a refused claim returns 0 and changes nothing; an accepted one adds 50, stamps today as `YYYY-MM-DD`, returns the new total and touches nothing else |
| Progression.ClaimTwiceSameDay | src/lib/progression.ts:65-87 | a second claim on the same UTC day returns 0 and changes nothing |
| Progression.ClaimReopensLater | src/lib/progression.ts:65-87 | after a claim, a later claim is open exactly on strictly later dates |
| Progression.ClaimNextDay | src/lib/progression.ts:65-87 | after a claim, the claim is open again on the next calendar day |
| Progression.BuySkin | src/lib/progression.ts:102-111 | succeeds exactly when the skin is not owned and the balance covers the price; on success pays the price and appends the skin once; on failure changes nothing |
| Progression.EquipSkin | src/lib/progression.ts:117-123 | succeeds exactly for an owned skin, and then sets only the equipped skin |
| Progression.BuySkinOnce | src/lib/progression.ts:98-111 | buying the same skin again fails and changes nothing |
| Progression.BuyThenEquip | src/lib/progression.ts:102-123 | a bought skin can be equipped |
| Progression.SkinsKeepConsistent | src/lib/progression.ts:102-123 | buying and equipping keep the balance non-negative and the equipped skin owned |
| Progression.GetWorldProgress | src/lib/progression.ts:125-131 | a fresh profile reads as world 1, level 1, 0 worlds completed |
| Progression.SetWorldProgress | src/lib/progression.ts:133-144 | every field given is written, every field left undefined keeps its value, and coins and skins are untouched |
| Progression.SetWorldProgressLaws | src/lib/progression.ts:125-144 | an empty update is the identity, writing back what was read is the identity, and the same update twice equals it once |
| Progression.CompleteLevel | src/lib/progression.ts:153-155 | an id without a row returns null and changes nothing; skins and the daily stamp are never touched |
| Progression.CompleteWithConfig | src/lib/progression.ts:157-191 | once the row is found, the balance grows by exactly its reward and skins and the daily stamp are untouched |
| Progression.CompleteLevelPays | src/lib/progression.ts:153-157 | every key 1..25 pays its positive reward |
| Progression.CompleteLevelUnknown | src/lib/progression.ts:154-155 | an id outside 1..25 returns null and leaves the profile as it was |
| Progression.CompleteInnerLevel | src/lib/progression.ts:186-193 | levels 1..4 of a world return null and move only `currentLevel`, to the next key |
| Progression.CompleteWorldEnd | src/lib/progression.ts:161-177 | level 5 of worlds 1..4 reports world w completed and w+1 unlocked with its reward, and sets the progress to world w+1, its first key and w completed |
| Progression.WorldEndWithConfig | src/lib/progression.ts:161-177 | the level-5 branch for a row of world 1..4, stated for the row itself |
| Progression.CompleteFinalLevel | src/lib/progression.ts:161-185 | key 25 pays 500, reports game complete with world 5 as both completed and unlocked, and sets world 5, level 25, 5 completed |
| Progression.CompleteLevelPaysEveryTime | src/lib/progression.ts:153-157 | replaying a level pays its reward again; there is no first-time-only guard |
| Progression.CompleteLevelIgnoresProgress | src/lib/progression.ts:159-191 | the result and the written level depend on the id alone, not on the stored progress, and so does all progress after a level 5 |
| Progression.ReplayRewindsWorlds | src/lib/progression.ts:161-167 | replaying level 5 of an earlier world lowers `worldsCompleted` back to that world |
| Progression.ReplayRewindsLevel | src/lib/progression.ts:186-191 | replaying an inner level behind the current one moves `currentLevel` backwards |
| Progression.CompleteLevelKeepsConsistent | src/lib/progression.ts:153-194 | completing any id keeps the balance non-negative and the equipped skin owned |
| Progression.FreshPlayerExamples | src/lib/progression.ts:153-194 | from a fresh profile: key 5 pays 100 and moves to world 2 / key 6 / 1 completed; key 3 pays 15 and moves to key 4; key 999 does nothing |
| Sync.Snapshot | src/lib/progression.ts:196-215 | the upload always carries coins, skins and the three progress fields, and carries an equipped skin and a claim date exactly when the profile has one |
| Sync.MergeRecord | src/lib/progression.ts:236-257 | a row without coins changes nothing; otherwise coins and skins (`[]` for a missing list) are written, each progress field is written when present, provided no earlier progress field was `null`; a `null` world leaves all three as they were, and a `null` level keeps the level and worlds completed but still writes the world |
| Sync.Merge | src/lib/progression.ts:221-261 | a failed fetch or a missing row leaves the profile as it was |
| Sync.SameDeviceRoundTrip | src/lib/progression.ts:196-261 | merging the snapshot of a profile into that same profile gives it back unchanged |
| Sync.OtherDeviceAdopts | src/lib/progression.ts:236-246 | merging p's snapshot into another profile q yields exactly p if and only if p's equipped skin and claim date can be carried over q's (present and non-empty, or equal to q's) |
| Sync.MergeIdempotent | src/lib/progression.ts:236-257 | merging the same fetch twice equals merging it once |
| Sync.NullStopsProgress | src/lib/progression.ts:248-256 | a `null` world writes the coins but leaves the level and worlds-completed fields as they were |
| Sync.MergeCanBreakConsistency | src/lib/progression.ts:236-242 | a fetched row with an empty skin list and no equipped skin leaves a locally equipped skin that is no longer owned |
| Sync.MergeKeepsConsistent | src/lib/progression.ts:236-246 | with nothing equipped locally, a row whose coins are non-negative and whose equipped skin is in its own list keeps the profile consistent |
| Session.DefaultInvariant | src/lib/progression.ts:40-131 | a fresh profile (0 coins, no skins, world 1, level 1, 0 completed) satisfies the invariant |
| Session.CompleteLevelInRange | src/lib/progression.ts:153-194 | completing any id keeps world in 1..5, level in 1..25 and worlds completed in 0..5 |
| Session.StepKeepsInvariant | src/lib/progression.ts:40-194 | every engine operation keeps the balance non-negative, the equipped skin owned and the progress in range |
| Session.RunKeepsInvariant | src/lib/progression.ts:40-194 | any sequence of operations from a profile satisfying the invariant keeps it |
| Session.CompletionsPay | src/lib/progression.ts:153-157 | a run of completions adds to the balance exactly the sum of the rewards of its known ids, replays included |
| UtcDate.TwoDigitYearComparesAs19xx | src/lib/progression.ts:72-75 | because `Date.UTC` reads years 0..99 as 1900..1999, a date in those years compares against any date from the year 100 on as its 19xx twin does |
| UtcDate.DayCountOrder | src/lib/progression.ts:72-75 | day numbers of valid dates compare as the dates do, lexicographically on (year, month, day), and are equal only for equal dates |
| UtcDate.UtcDayNumberOrder | src/lib/progression.ts:72-75 | for years from 100 on, comparing the `Date.UTC` day numbers is comparing the calendar dates |
| UtcDate.NextDay | src/lib/progression.ts:72-75 | the next calendar day is a valid date after the given one |
| UtcDate.NextDayCount | src/lib/progression.ts:72-75 | the next calendar day's day number is one more |
| UtcDate.DaysBeforeYearStep | src/lib/progression.ts:72-73 | consecutive years start 365 or 366 days apart, by the Gregorian leap rule |
| UtcDate.MonthsMakeYear | src/lib/progression.ts:72-73 | the twelve month lengths add up to the year's length |
| UtcDate.DayCountInYear | src/lib/progression.ts:72-73 | a valid date's day number falls inside its year |
| UtcDate.ParseFullDate | src/lib/progression.ts:69 | a date text that parses gives a valid date with a four-digit year |
| UtcDate.DecimalStringValue | src/lib/progression.ts:82 | a year's decimal text reads back as the year |
| UtcDate.DigitsValueString | src/lib/progression.ts:82 | digit text without a leading zero is the decimal text of its value |
| UtcDate.PadStart2Value | src/lib/progression.ts:82 | `padStart(2, '0')` of 1..99 is two digits that read back as the number |
| UtcDate.PadStart2Text | src/lib/progression.ts:82 | two digits with value 1..99 are the padded text of their value |
| UtcDate.FormatDatePieces | src/lib/progression.ts:82 | the stamp is year, '-', two-digit month, '-', two-digit day: ten characters for four-digit years |
| UtcDate.FormatParse | src/lib/progression.ts:82 | the stamp of a valid date with a four-digit year parses back to that date |
| UtcDate.ParseFormat | src/lib/progression.ts:82 | a date text that parses, with a year from 1000 on, is the stamp of its date |
| GameShell.Mount | src/components/GameShell.tsx:16-21 | the screen opens on its initial level, not completed, with no banner |
| GameShell.MountInv | src/components/GameShell.tsx:16-21 | the opening state satisfies the shell's invariant |
| GameShell.Candidate | src/components/GameShell.tsx:30 | the next level offered is level + 1 below 5 and 1 from 5 on, and is never the level itself |
| GameShell.OnLevelCompleted | src/components/GameShell.tsx:23-35 | a repeat is ignored; a first completion sets the flag, picks the candidate, and shows the level banner below 5 and the end banner from 5 on |
| GameShell.HandleNextLevel | src/components/GameShell.tsx:37-49 | with nothing pending nothing happens; otherwise the pending level becomes current, the banner closes and the flag clears when the level changed |
| GameShell.HandleInv | src/components/GameShell.tsx:23-49 | both events keep "completed exactly while a level is pending, with the matching banner", and pressing on always clears the flag |
| GameShell.OneCompletionPerLevel | src/components/GameShell.tsx:21-40 | across any event sequence, accepted completions are at most the level changes plus one for the level on screen at the start |
| GameShell.RepeatedCompletionsOnce | src/components/GameShell.tsx:23-28 | any number of completion reports without pressing on is accepted at most once |
| GameShell.CompletedIgnoresCompletions | src/components/GameShell.tsx:23-28 | once completed, further reports change nothing |
| GameShell.WrapsAtFive | src/components/GameShell.tsx:30-33 | from any level of 5 or more the screen offers level 1 under the end banner |
| LevelSelector.MaxLevelInWorld | src/components/LevelSelector.tsx:16 | the highest open level is at most 5 and at most how far the current key reaches into the world |
| LevelSelector.MaxLevelInWorldBounds | src/components/LevelSelector.tsx:16 | nothing of a world is open before the current key reaches it, and all of it once the key is past its level 5 |
| LevelSelector.SelectLevel | src/components/LevelSelector.tsx:35-43 | a click starts a game exactly on an open level, with that level's global key, which decomposes back to the world and level |
| LevelSelector.WorldLevelNumbers | src/components/LevelSelector.tsx:13 | a world's buttons show levels 1..5 in order |
| LevelSelector.UnlockedLevelsPrefix | src/components/LevelSelector.tsx:35-36 | the open levels of a world form the prefix 1..k, with k the clipped maximum |
| LevelSelector.CurrentIsUnlocked | src/components/LevelSelector.tsx:36-38 | the level marked current is open |
| LevelSelector.CurrentLevelInWorld | src/components/LevelSelector.tsx:37-38 | when the current key lies in the world, exactly one level is marked current, and it is open |
| LevelSelector.InfoPanel | src/components/LevelSelector.tsx:80-82 | the panel is drawn exactly when the world has at least five rows |
| LevelSelector.InfoPanelFacts | src/components/LevelSelector.tsx:80-82 | the panel exists exactly for worlds 1..5; its time range falls, its pair range rises, and its total is the sum of the world's five rewards |
| LevelSelector.SumFive | src/components/LevelSelector.tsx:82 | the `reduce` over five rows is the sum of their rewards |
| LevelSelector.WorldRewardTotals | src/components/LevelSelector.tsx:82 | the panels show 155, 198, 247, 350 and 760 coins |
| WorldMap.Icon | src/components/WorldMap.tsx:64-73 | a trophy exactly for completed worlds, a lock exactly for closed ones, no icon exactly for the one open world not yet completed |
| WorldMap.SelectWorld | src/components/WorldMap.tsx:36-45 | a click selects a world exactly when it is open; for worlds 1..5, exactly when it lies in the open prefix 1..min(5, worldsCompleted + 1) the map draws, and then it selects that world |
| WorldMap.OpenWorldsAtMost | src/components/WorldMap.tsx:35-36 | the open worlds are those at most one past the completed count |
| WorldMap.OpenWorldsPrefix | src/components/WorldMap.tsx:35-36 | the open worlds are the prefix 1..min(5, worldsCompleted + 1) |
| WorldMap.CompletedIsUnlocked | src/components/WorldMap.tsx:36-40 | world 1 is always open, and a completed world is open |
| WorldMap.BadgeUnique | src/components/WorldMap.tsx:77 | at most one world carries the current-level badge |
| Unlocking.WorldEndUnlocksNext | src/lib/progression.ts:161-167 | after completing level 5 of world w < 5: the map shows w completed, w+1 open and badged, nothing beyond it open; the selector of w+1 opens exactly its level 1, marked current |
| Unlocking.InnerLevelOpensNext | src/lib/progression.ts:186-191 | after completing inner level l, the selector opens levels 1..l+1 and marks l+1 current |
| Unlocking.FinalLevelCompletesMap | src/lib/progression.ts:161-167 | after key 25, every world shows completed, no badge is drawn, and world 5 has all five levels open with level 5 current |
| Unlocking.ReplayRelocksWorld | src/lib/progression.ts:163-164 | replaying level 5 of a world two or more behind locks again a world that was open |

## Left out

- Storage and the network. `localStorage` and Supabase are not modelled as services. The
  profile is a value, a fetch is a `FetchResult`, and the upload is the `Snapshot` record.
  `syncToSupabase` fires without being awaited, so none of its failures can change the
  local profile.
- Text encodings. Storing numbers as text and reading them back with `parseInt`, and
  `JSON.stringify`/`JSON.parse` of the skin list, are taken as exact round trips. Coins are
  integers; the source's `number` is a float.
- The two clock reads in `claimDailyReward` (one inside `canClaimDaily`, one for the stamp)
  are modelled as one `today`. A claim made across midnight UTC is not modelled.
- Progression.CanClaimDaily: the stored claim text is read only as an RFC 3339 full-date
  (`YYYY-MM-DD`, year 0000..9999). Other text that `new Date` would accept, such as a full
  timestamp from the remote column, counts as unparsable, so the claim is refused.
- Progression.CanClaimDailyIffLater, Progression.ClaimReopensLater: stated for years from
  100 on. Below that, `Date.UTC`'s remapping of years 0..99 makes the comparison differ
  from calendar order. `Progression.CanClaimDailyTwoDigitYear` states what the gate does for
  a stored claim in those years. A `today` before the year 100 is not covered.
- Progression.ClaimTwiceSameDay, Progression.ClaimNextDay: stated for four-digit years,
  because only those make the stored stamp parse back to the same date.
- `completeLevel`'s `createConfetti()`, and its `getWorldProgress()` read whose value is
  never used.
- GameShell.HandleNextLevel: the render between `setLevel` and the effect that clears the
  completed flag is folded into one step. A completion reported inside that window is not
  modelled.
- `GameCore`, which calls `onComplete`, is not part of this model. So no lemma composes
  the game screen with `completeLevel`.
- Out of scope: `getThemeName` and the theme names; the music manager; the shop and skin
  prices; the initial screen; routing in `App.tsx`; the card component.
- Sync.MergeKeepsConsistent: stated only for a profile with nothing equipped. With a skin
  equipped locally the merge can break consistency, and `Sync.MergeCanBreakConsistency`
  exhibits that case.
- `getOrCreateClientId`, `updated_at` and the `client_id` column are not modelled: they
  identify the row and do not affect the profile.
