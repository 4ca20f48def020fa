/** The persistent game manager: lives, coins, the current level, the saved
    checkpoint, the global pause (time scale 0 or 1) and the scene loads it
    requests. Death handling runs as coroutines that wait in unscaled time;
    they are modelled as pending entries completed by ResumeDeathSequence. */
module Progression {
  import opened Engine

  const InitialLives := 3
  const CoinsForExtraLife := 100
  const FinalLevelIndex := 10
  /** Reaching (and finishing) one of these levels saves it as the checkpoint. */
  const CheckpointLevels: seq<int> := [3, 6, 9]

  /** The counters the manager keeps; `paused` is a time scale of 0. */
  datatype Progress = Progress(lives: int, coins: int, level: int, checkpoint: int, paused: bool)

  /** A running death coroutine and the unscaled time its wait ends. */
  datatype DeathSequence = Respawn(until: real) | GameOver(until: real)

  // ---------------------------------------------------------------
  // The transitions, as functions of the counters
  // ---------------------------------------------------------------

  /** StartGame: fresh stats, no checkpoint, level 1, clock running. */
  function Started(p: Progress): (r: Progress)
    ensures r == Reset(p).(level := 1, paused := false)
    ensures RestartLevel(r) == r.level
  {
    Progress(InitialLives, 0, 1, 0, false)
  }

  /** AdvanceLevel: a checkpoint level being left is saved, then the level grows by one. */
  function Advanced(p: Progress): (r: Progress)
    ensures r.level == p.level + 1
    ensures r.lives == p.lives && r.coins == p.coins && r.paused == p.paused
    ensures RestartLevel(r) == if p.level in CheckpointLevels then p.level else RestartLevel(p)
  {
    var checkpoint := if p.level in CheckpointLevels then p.level else p.checkpoint;
    p.(checkpoint := checkpoint, level := p.level + 1)
  }

  function AdvancedTimes(p: Progress, n: nat): Progress
    decreases n
  {
    if n == 0 then p else AdvancedTimes(Advanced(p), n - 1)
  }

  /** PlayerDied: ignored while the clock is stopped; otherwise one life is
      lost and the clock stops. */
  function Died(p: Progress): (r: Progress)
    ensures p.paused ==> r == p
    ensures !p.paused ==> r.lives == p.lives - 1 && r.paused && r.(lives := p.lives, paused := false) == p
  {
    if p.paused then p else p.(lives := p.lives - 1, paused := true)
  }

  /** The level a respawn restarts: the saved checkpoint, or level 1 without one. */
  function RestartLevel(p: Progress): (r: int)
    ensures r >= 1
    ensures p.checkpoint > 0 ==> r == p.checkpoint
    ensures CheckpointInvariant(p) ==> r == 1 || r in CheckpointLevels
  {
    if p.checkpoint > 0 then p.checkpoint else 1
  }

  /** End of the respawn coroutine: clock running, back at the restart level. */
  function Respawned(p: Progress): (r: Progress)
    ensures r.lives == p.lives && r.coins == p.coins && r.checkpoint == p.checkpoint
    ensures !r.paused && r.level >= 1 && r.level == RestartLevel(r)
  {
    p.(paused := false, level := RestartLevel(p))
  }

  /** ResetGame: fresh stats, no checkpoint, level 0 (the pause is not touched). */
  function Reset(p: Progress): (r: Progress)
    ensures r.paused == p.paused && r.level == 0 && CheckpointInvariant(r)
    ensures r.lives == InitialLives && r.coins == 0 && RestartLevel(r) == 1
  {
    Progress(InitialLives, 0, 0, 0, p.paused)
  }

  /** End of the game-over coroutine: reset, and the clock running again. */
  function GameOverCompleted(p: Progress): (r: Progress)
    ensures r == Started(p).(level := 0)
  {
    Reset(p).(paused := false)
  }

  /** CollectCoin: add the coins; reaching the threshold converts one
      threshold's worth into one extra life (once per call). */
  function Collected(p: Progress, amount: int): (r: Progress)
    ensures r.level == p.level && r.checkpoint == p.checkpoint && r.paused == p.paused
    ensures r.lives == p.lives + 1 <==> p.coins + amount >= CoinsForExtraLife
    ensures r.lives == p.lives <==> p.coins + amount < CoinsForExtraLife
  {
    var coins := p.coins + amount;
    if coins >= CoinsForExtraLife then p.(coins := coins - CoinsForExtraLife, lives := p.lives + 1)
    else p.(coins := coins)
  }

  /** The saved checkpoint is none (0) or one of the checkpoint levels, and
      never ahead of the current level. */
  ghost predicate CheckpointInvariant(p: Progress)
  {
    (p.checkpoint == 0 || p.checkpoint in CheckpointLevels) && 0 <= p.checkpoint <= p.level
  }

  lemma TransitionsKeepCheckpointInvariant(p: Progress, amount: int)
    requires CheckpointInvariant(p)
    ensures CheckpointInvariant(Started(p)) && CheckpointInvariant(Advanced(p))
    ensures CheckpointInvariant(Died(p)) && CheckpointInvariant(Respawned(p))
    ensures CheckpointInvariant(Reset(p)) && CheckpointInvariant(GameOverCompleted(p))
    ensures CheckpointInvariant(Collected(p, amount))
  {
  }

  /** Advancing never loses a saved checkpoint, and n advances move n levels on. */
  lemma {:induction false} AdvancesKeepCheckpoint(p: Progress, n: nat)
    requires CheckpointInvariant(p)
    ensures CheckpointInvariant(AdvancedTimes(p, n))
    ensures AdvancedTimes(p, n).checkpoint >= p.checkpoint
    ensures AdvancedTimes(p, n).level == p.level + n
    ensures AdvancedTimes(p, n).lives == p.lives && AdvancedTimes(p, n).coins == p.coins
    decreases n
  {
    if n > 0 {
      TransitionsKeepCheckpointInvariant(p, 0);
      AdvancesKeepCheckpoint(Advanced(p), n - 1);
    }
  }

  /** Finishing a checkpoint level saves it, and a death that leaves lives
      then restarts at that very level. */
  lemma CheckpointIsWhereRespawnRestarts(p: Progress)
    requires p.level in CheckpointLevels && !p.paused && p.lives > 1
    ensures Advanced(p).checkpoint == p.level
    ensures Died(Advanced(p)).lives > 0
    ensures Respawned(Died(Advanced(p))).level == p.level
    ensures !Respawned(Died(Advanced(p))).paused
  {
  }

  /** Without any saved checkpoint a respawn restarts at level 1. */
  lemma RespawnWithoutCheckpoint(p: Progress)
    requires CheckpointInvariant(p) && p.checkpoint == 0
    ensures Respawned(p).level == 1
  {
  }

  /** A second death report while the clock is stopped is ignored. */
  lemma DeathWhilePausedIgnored(p: Progress)
    ensures Died(Died(p)) == Died(p)
    ensures !p.paused ==> Died(p).lives == p.lives - 1 && Died(p).paused
  {
  }

  /** Coins are never lost: a life stands for one threshold's worth of coins,
      and one call grants at most one life, whatever the amount. */
  lemma CollectCoinConservesValue(p: Progress, amount: int)
    ensures Collected(p, amount).lives * CoinsForExtraLife + Collected(p, amount).coins
            == p.lives * CoinsForExtraLife + p.coins + amount
    ensures p.lives <= Collected(p, amount).lives <= p.lives + 1
    ensures Collected(p, amount).lives == p.lives + 1 <==> p.coins + amount >= CoinsForExtraLife
    ensures Collected(p, amount).level == p.level && Collected(p, amount).checkpoint == p.checkpoint
  {
  }

  /** A single pickup worth 250 coins from none yields one life and leaves 150
      coins on the counter (not two lives and 50 coins). */
  lemma LargePickupGrantsOneLife(p: Progress)
    requires p.coins == 0
    ensures Collected(p, 250).lives == p.lives + 1 && Collected(p, 250).coins == 150
  {
  }

  // ---------------------------------------------------------------
  // Scene names
  // ---------------------------------------------------------------

  /** C#'s `n.ToString("00")`: at least two digits, with a leading zero below 10. */
  function Format00(n: int): (s: string)
    ensures n >= 0 ==> AllDigits(s) && |s| >= 2
    ensures 0 <= n < 100 ==> |s| == 2
    ensures n < 0 ==> |s| >= 3 && s[0] == '-'
  {
    if n < 0 then "-" + PadTwoDigits(-n) else PadTwoDigits(n)
  }

  function PadTwoDigits(n: nat): (s: string)
    ensures AllDigits(s) && |s| >= 2
    ensures n < 100 ==> |s| == 2
  {
    if n < 10 then "0" + Decimal(n) else Decimal(n)
  }

  lemma Format00RoundTrip(n: nat)
    ensures ParseDecimal(Format00(n)) == n
  {
    DecimalRoundTrip(n);
    if n < 10 {
      var s := Format00(n);
      assert s[..|s| - 1] == "0";
    }
  }

  /** The scene of level `level`: the prefix followed by the two-digit number. */
  function LevelSceneName(prefix: string, level: int): (r: string)
    ensures |r| >= |prefix| + 2 && r[..|prefix|] == prefix
    ensures 0 <= level < 100 ==> |r| == |prefix| + 2
  {
    prefix + Format00(level)
  }

  /** Different levels load different scenes. */
  lemma LevelSceneNamesDistinct(prefix: string, i: nat, j: nat)
    requires LevelSceneName(prefix, i) == LevelSceneName(prefix, j)
    ensures i == j
  {
    var a, b := Format00(i), Format00(j);
    assert a == LevelSceneName(prefix, i)[|prefix|..];
    assert b == LevelSceneName(prefix, j)[|prefix|..];
    Format00RoundTrip(i);
    Format00RoundTrip(j);
  }

  lemma LevelSceneNameExamples()
    ensures LevelSceneName("Level_", 1) == "Level_01"
    ensures LevelSceneName("Level_", 9) == "Level_09"
    ensures LevelSceneName("Level_", 10) == "Level_10"
  {
  }

  // ---------------------------------------------------------------
  // The manager object
  // ---------------------------------------------------------------

  class GameManager {
    const levelPrefix: string
    const menuSceneName: string
    const deathDisplayDelay: real

    var currentLives: int
    var currentCoins: int
    var currentLevelIndex: int
    var savedCheckpointIndex: int
    /** The global time scale is 0. */
    var paused: bool
    /** The scenes requested from the scene manager, in order. */
    var sceneLoads: seq<string>
    /** Death coroutines started and not yet finished. */
    var deathSequences: seq<DeathSequence>

    function State(): Progress
      reads this
    {
      Progress(currentLives, currentCoins, currentLevelIndex, savedCheckpointIndex, paused)
    }

    ghost predicate Valid()
      reads this
    {
      CheckpointInvariant(State())
    }

    constructor (levelPrefix: string, menuSceneName: string, deathDisplayDelay: real)
      ensures Valid()
      ensures this.levelPrefix == levelPrefix && this.menuSceneName == menuSceneName
      ensures this.deathDisplayDelay == deathDisplayDelay
      ensures State() == Progress(InitialLives, 0, 0, 0, false)
      ensures sceneLoads == [] && deathSequences == []
    {
      this.levelPrefix := levelPrefix;
      this.menuSceneName := menuSceneName;
      this.deathDisplayDelay := deathDisplayDelay;
      currentLives := InitialLives;
      currentCoins := 0;
      currentLevelIndex := 0;
      savedCheckpointIndex := 0;
      paused := false;
      sceneLoads := [];
      deathSequences := [];
    }

    /** Request the scene of level `levelIndex`. */
    method LoadLevel(levelIndex: int)
      modifies this`sceneLoads
      ensures sceneLoads == old(sceneLoads) + [LevelSceneName(levelPrefix, levelIndex)]
    {
      sceneLoads := sceneLoads + [LevelSceneName(levelPrefix, levelIndex)];
    }

    method StartGame()
      requires Valid()
      modifies this
      ensures Valid()
      ensures State() == Started(old(State()))
      ensures sceneLoads == old(sceneLoads) + [LevelSceneName(levelPrefix, 1)]
      ensures deathSequences == old(deathSequences)
    {
      ResetStats();
      savedCheckpointIndex := 0;
      currentLevelIndex := 1;
      paused := false;
      LoadLevel(currentLevelIndex);
    }

    /** Finish the current level: the next level's scene is loaded, and past
        the final level nothing is loaded (the victory screen is empty). */
    method AdvanceLevel()
      requires Valid()
      modifies this
      ensures Valid()
      ensures State() == Advanced(old(State()))
      ensures currentLevelIndex <= FinalLevelIndex
              ==> sceneLoads == old(sceneLoads) + [LevelSceneName(levelPrefix, currentLevelIndex)]
      ensures currentLevelIndex > FinalLevelIndex ==> sceneLoads == old(sceneLoads)
      ensures deathSequences == old(deathSequences)
    {
      if currentLevelIndex in CheckpointLevels {
        savedCheckpointIndex := currentLevelIndex;
      }
      currentLevelIndex := currentLevelIndex + 1;
      if currentLevelIndex <= FinalLevelIndex {
        LoadLevel(currentLevelIndex);
      }
    }

    /** A death report at unscaled time `realNow`: ignored while paused;
        otherwise a life is lost, the clock stops, and the game-over sequence
        (no lives left) or the respawn sequence starts. */
    method PlayerDied(realNow: real)
      requires Valid()
      modifies this
      ensures Valid()
      ensures State() == Died(old(State()))
      ensures sceneLoads == old(sceneLoads)
      ensures old(paused) ==> deathSequences == old(deathSequences)
      ensures !old(paused) && currentLives <= 0
              ==> deathSequences == old(deathSequences) + [GameOver(realNow + deathDisplayDelay + 1.0)]
      ensures !old(paused) && currentLives > 0
              ==> deathSequences == old(deathSequences) + [Respawn(realNow + deathDisplayDelay)]
    {
      if paused {
        return;
      }
      currentLives := currentLives - 1;
      paused := true;
      if currentLives <= 0 {
        deathSequences := deathSequences + [GameOver(realNow + deathDisplayDelay + 1.0)];
      } else {
        deathSequences := deathSequences + [Respawn(realNow + deathDisplayDelay)];
      }
    }

    /** Resume the `k`-th running death sequence at unscaled time `realNow`;
        nothing happens before its wait has elapsed. A respawn restarts the
        checkpoint (read when the wait ends); a game over resets the game and
        loads the menu. */
    method ResumeDeathSequence(k: nat, realNow: real)
      requires Valid()
      modifies this
      ensures Valid()
      ensures !(k < |old(deathSequences)| && old(deathSequences)[k].until <= realNow)
              ==> State() == old(State()) && sceneLoads == old(sceneLoads)
                  && deathSequences == old(deathSequences)
      ensures k < |old(deathSequences)| && old(deathSequences)[k].until <= realNow
              ==> deathSequences == old(deathSequences[..k] + deathSequences[k + 1..])
      ensures k < |old(deathSequences)| && old(deathSequences)[k].until <= realNow
              && old(deathSequences)[k].Respawn?
              ==> State() == Respawned(old(State()))
                  && sceneLoads == old(sceneLoads) + [LevelSceneName(levelPrefix, RestartLevel(old(State())))]
      ensures k < |old(deathSequences)| && old(deathSequences)[k].until <= realNow
              && old(deathSequences)[k].GameOver?
              ==> State() == GameOverCompleted(old(State()))
                  && sceneLoads == old(sceneLoads) + [menuSceneName]
    {
      if k < |deathSequences| && deathSequences[k].until <= realNow {
        var finished := deathSequences[k];
        deathSequences := deathSequences[..k] + deathSequences[k + 1..];
        match finished
        case Respawn(_) =>
          paused := false;
          var restart := if savedCheckpointIndex > 0 then savedCheckpointIndex else 1;
          currentLevelIndex := restart;
          LoadLevel(currentLevelIndex);
        case GameOver(_) =>
          ResetGame();
          sceneLoads := sceneLoads + [menuSceneName];
          paused := false;
      }
    }

    method CollectCoin(amount: int)
      requires Valid()
      modifies this`currentCoins, this`currentLives
      ensures Valid()
      ensures State() == Collected(old(State()), amount)
    {
      currentCoins := currentCoins + amount;
      if currentCoins >= CoinsForExtraLife {
        currentCoins := currentCoins - CoinsForExtraLife;
        currentLives := currentLives + 1;
      }
    }

    method ResetStats()
      modifies this`currentLives, this`currentCoins
      ensures currentLives == InitialLives && currentCoins == 0
    {
      currentLives := InitialLives;
      currentCoins := 0;
    }

    method ResetGame()
      modifies this`currentLives, this`currentCoins, this`savedCheckpointIndex, this`currentLevelIndex
      ensures Valid()
      ensures State() == Reset(old(State()))
    {
      ResetStats();
      savedCheckpointIndex := 0;
      currentLevelIndex := 0;
    }
  }
}
