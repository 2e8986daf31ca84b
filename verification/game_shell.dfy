/**
  The game screen's completion guard: the first completion of a level raises the banner
  and picks the next level, repeats are ignored until the level changes, and pressing on
  moves to the picked level. The React state and the completed ref form one record.
 */
module GameShell {
  import opened Wrappers

  /** `TOTAL_LEVELS`: the shell counts levels 1..5, whatever numbering its caller uses. */
  const TotalLevels: int := 5

  datatype BannerType = LevelBanner | EndBanner

  datatype Shell = Shell(
    level: int,
    nextLevel: Option<int>,
    showBanner: bool,
    bannerType: Option<BannerType>,
    completed: bool)

  /** The state when the screen opens on `initialLevel`. */
  function Mount(initialLevel: int): (s: Shell)
    ensures s.level == initialLevel && !s.completed && !BannerVisible(s)
  {
    Shell(initialLevel, None, false, None, false)
  }

  /** The level offered after `level`: the next one up to 5, then back to 1. */
  function Candidate(level: int): (r: int)
    ensures r != level
    ensures level < TotalLevels ==> r == level + 1
    ensures level >= TotalLevels ==> r == 1
    ensures 0 <= level ==> 1 <= r <= TotalLevels
  {
    if level < TotalLevels then level + 1 else 1
  }

  /** `onLevelCompleted`: only the first call per level does anything. */
  function OnLevelCompleted(s: Shell): (r: Shell)
    ensures s.completed ==> r == s
    ensures !s.completed ==>
      && r.completed && r.level == s.level
      && r.nextLevel == Some(Candidate(s.level))
      && BannerVisible(r)
      && (r.bannerType == Some(LevelBanner) <==> s.level < TotalLevels)
      && (r.bannerType == Some(EndBanner) <==> s.level >= TotalLevels)
  {
    if s.completed then s
    else
      s.(completed := true,
         nextLevel := Some(Candidate(s.level)),
         bannerType := Some(if s.level < TotalLevels then LevelBanner else EndBanner),
         showBanner := true)
  }

  /** `handleNextLevel`, followed by the level-change effect that clears the completed flag
      when the level actually changed. */
  function HandleNextLevel(s: Shell): (r: Shell)
    ensures s.nextLevel.None? ==> r == s
    ensures s.nextLevel.Some? ==>
      && r.level == s.nextLevel.value
      && r.nextLevel.None? && !r.showBanner && r.bannerType.None?
      && (r.level != s.level ==> !r.completed)
  {
    match s.nextLevel
    case None => s
    case Some(n) =>
      Shell(n, None, false, None, if n != s.level then false else s.completed)
  }

  /** The banner is drawn only when it is shown and a next level is set. */
  predicate BannerVisible(s: Shell) {
    s.showBanner && s.nextLevel.Some?
  }

  /** The states the shell can reach: completed exactly while a next level is pending, the
      pending level being the candidate, with the matching banner shown. */
  predicate Inv(s: Shell) {
    && (s.completed <==> s.nextLevel.Some?)
    && (s.nextLevel.Some? ==>
          && s.nextLevel.value == Candidate(s.level)
          && s.showBanner
          && s.bannerType == Some(if s.level < TotalLevels then LevelBanner else EndBanner))
    && (s.nextLevel.None? ==> !s.showBanner && s.bannerType.None?)
  }

  /** The user-facing events: the game reports a completion, or the player presses on. */
  datatype UiEvent = LevelCompleted | NextPressed

  function Handle(s: Shell, e: UiEvent): Shell {
    match e
    case LevelCompleted => OnLevelCompleted(s)
    case NextPressed => HandleNextLevel(s)
  }

  lemma MountInv(initialLevel: int)
    ensures Inv(Mount(initialLevel))
  {
  }

  /** Every event keeps the invariant; in particular pressing on always changes the level,
      so the flag is always cleared. */
  lemma HandleInv(s: Shell, e: UiEvent)
    requires Inv(s)
    ensures Inv(Handle(s, e))
    ensures e == NextPressed && s.nextLevel.Some? ==> !Handle(s, e).completed
  {
  }

  function Replay(s: Shell, events: seq<UiEvent>): Shell
    decreases |events|
  {
    if events == [] then s else Replay(Handle(s, events[0]), events[1..])
  }

  /** How many completions in a replay were accepted (raised the flag). */
  function Accepted(s: Shell, events: seq<UiEvent>): nat
    decreases |events|
  {
    if events == [] then 0
    else
      (if events[0] == LevelCompleted && !s.completed then 1 else 0)
        + Accepted(Handle(s, events[0]), events[1..])
  }

  /** How many level changes a replay made. */
  function LevelChanges(s: Shell, events: seq<UiEvent>): nat
    decreases |events|
  {
    if events == [] then 0
    else
      (if Handle(s, events[0]).level != s.level then 1 else 0)
        + LevelChanges(Handle(s, events[0]), events[1..])
  }

  /** One accepted completion per level instance: across any sequence of events, the
      accepted completions are at most the level changes, plus one for the level on screen
      at the start if it was not yet completed. */
  lemma {:induction false} OneCompletionPerLevel(s: Shell, events: seq<UiEvent>)
    requires Inv(s)
    ensures Accepted(s, events) <= LevelChanges(s, events) + (if s.completed then 0 else 1)
    ensures Inv(Replay(s, events))
    decreases |events|
  {
    if events != [] {
      var t := Handle(s, events[0]);
      HandleInv(s, events[0]);
      OneCompletionPerLevel(t, events[1..]);
    }
  }

  /** Completions reported without pressing on are accepted at most once. */
  lemma {:induction false} RepeatedCompletionsOnce(s: Shell, n: nat)
    ensures Accepted(s, seq(n, _ => LevelCompleted)) == (if n > 0 && !s.completed then 1 else 0)
    decreases n
  {
    if n > 0 {
      var events := seq(n, _ => LevelCompleted);
      assert events[0] == LevelCompleted && events[1..] == seq(n - 1, _ => LevelCompleted);
      var t := OnLevelCompleted(s);
      assert t.completed;
      CompletedIgnoresCompletions(t, n - 1);
    }
  }

  /** From a completed state, further completions change nothing and are never accepted. */
  lemma {:induction false} CompletedIgnoresCompletions(s: Shell, n: nat)
    requires s.completed
    ensures Accepted(s, seq(n, _ => LevelCompleted)) == 0
    ensures Replay(s, seq(n, _ => LevelCompleted)) == s
    decreases n
  {
    if n > 0 {
      var events := seq(n, _ => LevelCompleted);
      assert events[0] == LevelCompleted && events[1..] == seq(n - 1, _ => LevelCompleted);
      CompletedIgnoresCompletions(s, n - 1);
    }
  }

  /** The shell wraps at 5: from any level 5 or higher the next level offered is 1, under the
      end-of-game banner. */
  lemma WrapsAtFive(level: int)
    requires level >= TotalLevels
    ensures OnLevelCompleted(Mount(level)).nextLevel == Some(1)
    ensures OnLevelCompleted(Mount(level)).bannerType == Some(EndBanner)
  {
  }
}
