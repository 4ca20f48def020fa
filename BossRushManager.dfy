/** The boss-rush level: the orc prefabs are spawned one after another at a
    fixed point, separated by a settle time and a spawn interval (deaths do
    not speed this up). After the last spawn and its interval the level waits
    for the last orc's death if that orc exposes a death query, then advances
    the game, unlocks the blocking wall and, after a delay, shows the victory
    text and stops the clock. Coroutine waits run in scaled time. */
module BossRush {
  import opened Engine
  import opened Progression

  /** SpawnNextOrc's wait after each spawn. */
  const SpawnSettleTime := 0.5
  const MinimumPrefabs := 3
  const VictoryMessage := "¡HAS GANADO!"

  /** An orc prefab: its name, and whether its instance carries a component
      answering the death query (none of the three orc controllers does). */
  datatype Prefab = Prefab(name: string, hasDeathQuery: bool)

  /** Where the rush is. */
  datatype RushPhase =
    | NotStarted
    /** Start found no spawn point or fewer than three prefabs. */
    | Refused
    /** The settle wait after a spawn. */
    | Settling(until: real)
    /** The spawn interval wait. */
    | Interval(until: real)
    | AwaitingLastDeath
    /** The wait before the victory message. */
    | Celebrating(until: real)
    | Finished

  /** The name given to the instance of prefab `prefabName` spawned at `index`
      (counted from 0): the prefab name followed by " (Rush n)", n counted from 1. */
  function InstanceName(prefabName: string, index: nat): (r: string)
    ensures |r| > |prefabName| + 7 && r[..|prefabName|] == prefabName && r[|r| - 1] == ')'
  {
    prefabName + " (Rush " + Decimal(index + 1) + ")"
  }

  /** Two spawns of the same prefab at different positions get different names. */
  lemma InstanceNamesDistinct(prefabName: string, i: nat, j: nat)
    requires InstanceName(prefabName, i) == InstanceName(prefabName, j)
    ensures i == j
  {
    var prefix := prefabName + " (Rush ";
    var a, b := InstanceName(prefabName, i), InstanceName(prefabName, j);
    assert a == prefix + Decimal(i + 1) + ")";
    assert b == prefix + Decimal(j + 1) + ")";
    assert Decimal(i + 1) == a[|prefix|..|a| - 1];
    assert Decimal(j + 1) == b[|prefix|..|b| - 1];
    DecimalInjective(i + 1, j + 1);
  }

  class BossRushManager {
    const hasSpawnPoint: bool
    const orcPrefabs: seq<Prefab>
    const spawnInterval: real
    /** A blocking wall to unlock on victory is assigned. */
    const hasWall: bool
    /** A victory text element is assigned. */
    const hasVictoryText: bool
    const delayBeforeWinMessage: real

    var currentOrcIndex: nat
    /** The names of the spawned instances, in spawn order. */
    var spawned: seq<string>
    /** When each instance was spawned. */
    var spawnTimes: seq<real>
    /** The last instance answers the death query (it has been spawned and carries one). */
    var awaitsLastDeath: bool
    var phase: RushPhase
    /** Unlock requests sent to the blocking wall. */
    var wallUnlocks: nat
    var victoryTextShown: bool
    var victoryText: string

    ghost predicate Valid()
      reads this
    {
      && |spawned| == |spawnTimes| <= |orcPrefabs|
      && (forall k :: 0 <= k < |spawned| ==> spawned[k] == InstanceName(orcPrefabs[k].name, k))
      && (forall k :: 0 <= k < |spawnTimes| - 1
            ==> spawnTimes[k + 1] >= spawnTimes[k] + SpawnSettleTime + spawnInterval)
      && (match phase
          case NotStarted => |spawned| == 0 && currentOrcIndex == 0
          case Refused => |spawned| == 0 && currentOrcIndex == 0
          case Settling(t) =>
            |spawned| == currentOrcIndex + 1 && t == spawnTimes[currentOrcIndex] + SpawnSettleTime
          case Interval(t) =>
            |spawned| == currentOrcIndex >= 1
            && t >= spawnTimes[currentOrcIndex - 1] + SpawnSettleTime + spawnInterval
          case AwaitingLastDeath => |spawned| == currentOrcIndex == |orcPrefabs| && awaitsLastDeath
          case Celebrating(_) => |spawned| == currentOrcIndex == |orcPrefabs|
          case Finished => |spawned| == currentOrcIndex == |orcPrefabs|)
      && awaitsLastDeath == (|spawned| == |orcPrefabs| > 0 && orcPrefabs[|orcPrefabs| - 1].hasDeathQuery)
      && wallUnlocks == (if (phase.Celebrating? || phase.Finished?) && hasWall then 1 else 0)
      && (victoryTextShown ==> phase.Finished? && victoryText == VictoryMessage)
    }

    constructor (hasSpawnPoint: bool, orcPrefabs: seq<Prefab>, spawnInterval: real,
                 hasWall: bool, hasVictoryText: bool, delayBeforeWinMessage: real)
      ensures Valid()
      ensures this.hasSpawnPoint == hasSpawnPoint && this.orcPrefabs == orcPrefabs
      ensures this.spawnInterval == spawnInterval && this.hasWall == hasWall
      ensures this.hasVictoryText == hasVictoryText && this.delayBeforeWinMessage == delayBeforeWinMessage
      ensures phase == NotStarted && spawned == [] && wallUnlocks == 0 && !victoryTextShown
    {
      this.hasSpawnPoint := hasSpawnPoint;
      this.orcPrefabs := orcPrefabs;
      this.spawnInterval := spawnInterval;
      this.hasWall := hasWall;
      this.hasVictoryText := hasVictoryText;
      this.delayBeforeWinMessage := delayBeforeWinMessage;
      currentOrcIndex := 0;
      spawned := [];
      spawnTimes := [];
      awaitsLastDeath := false;
      phase := NotStarted;
      wallUnlocks := 0;
      victoryTextShown := false;
      victoryText := "";
    }

    /** Start at time `now`: without a spawn point or with fewer than three
        prefabs nothing ever happens; otherwise the victory text is hidden and
        the first orc is spawned at once. */
    method Start(now: real)
      requires Valid() && phase == NotStarted
      modifies this
      ensures Valid()
      ensures !hasSpawnPoint || |orcPrefabs| < MinimumPrefabs ==> phase == Refused && spawned == []
      ensures hasSpawnPoint && |orcPrefabs| >= MinimumPrefabs
              ==> spawned == [InstanceName(orcPrefabs[0].name, 0)] && spawnTimes == [now]
                  && phase == Settling(now + SpawnSettleTime) && !victoryTextShown
    {
      if !hasSpawnPoint || |orcPrefabs| < MinimumPrefabs {
        phase := Refused;
        return;
      }
      victoryTextShown := false;
      SpawnNextOrc(now);
    }

    /** Spawn the next prefab at time `now`, name it after its position, and
        keep the death query only of the last one. */
    method SpawnNextOrc(now: real)
      requires Valid() && currentOrcIndex < |orcPrefabs| && |spawned| == currentOrcIndex
      requires phase.NotStarted? || (phase.Interval? && now >= phase.until)
      modifies this`spawned, this`spawnTimes, this`awaitsLastDeath, this`phase
      ensures Valid()
      ensures spawned == old(spawned) + [InstanceName(orcPrefabs[currentOrcIndex].name, currentOrcIndex)]
      ensures spawnTimes == old(spawnTimes) + [now]
      ensures phase == Settling(now + SpawnSettleTime)
    {
      spawned := spawned + [InstanceName(orcPrefabs[currentOrcIndex].name, currentOrcIndex)];
      spawnTimes := spawnTimes + [now];
      if currentOrcIndex == |orcPrefabs| - 1 {
        awaitsLastDeath := orcPrefabs[currentOrcIndex].hasDeathQuery;
      }
      phase := Settling(now + SpawnSettleTime);
    }

    /** Resume the rush at scaled time `now`; `lastOrcDead` answers the death
        query of the last instance. Waits end when their time has come:
        - after the settle wait, the index moves on and the interval starts;
        - after an interval, the next orc spawns while prefabs remain;
          otherwise the rush waits for the last orc's death when it can ask,
          and is won at once when it cannot;
        - while waiting for that death, a dead last orc wins the rush;
        - after the celebration wait, the victory text shows and the clock stops.
        Winning advances the game once and unlocks the wall when assigned. */
    method Tick(now: real, lastOrcDead: bool, gm: GameManager)
      requires Valid() && gm.Valid()
      modifies this, gm
      ensures Valid() && gm.Valid()
      ensures old(phase).Settling? && now >= old(phase).until
              ==> currentOrcIndex == old(currentOrcIndex) + 1 && phase == Interval(now + spawnInterval)
                  && spawned == old(spawned) && gm.State() == old(gm.State())
      ensures old(phase).Interval? && now >= old(phase).until && old(currentOrcIndex) < |orcPrefabs|
              ==> spawned == old(spawned) + [InstanceName(orcPrefabs[old(currentOrcIndex)].name, old(currentOrcIndex))]
                  && spawnTimes == old(spawnTimes) + [now]
                  && phase == Settling(now + SpawnSettleTime) && gm.State() == old(gm.State())
      ensures old(phase).Interval? && now >= old(phase).until && old(currentOrcIndex) >= |orcPrefabs|
              && old(awaitsLastDeath)
              ==> phase == AwaitingLastDeath && spawned == old(spawned) && gm.State() == old(gm.State())
                  && victoryTextShown == old(victoryTextShown)
      ensures Won(old(phase), old(currentOrcIndex), old(awaitsLastDeath), lastOrcDead, now)
              ==> phase == Celebrating(now + delayBeforeWinMessage)
                  && gm.State() == Advanced(old(gm.State()))
                  && (gm.currentLevelIndex <= FinalLevelIndex
                      ==> gm.sceneLoads == old(gm.sceneLoads) + [LevelSceneName(gm.levelPrefix, gm.currentLevelIndex)])
                  && (gm.currentLevelIndex > FinalLevelIndex ==> gm.sceneLoads == old(gm.sceneLoads))
                  && wallUnlocks == (if hasWall then 1 else 0)
      ensures !Won(old(phase), old(currentOrcIndex), old(awaitsLastDeath), lastOrcDead, now)
              ==> gm.sceneLoads == old(gm.sceneLoads)
      ensures gm.deathSequences == old(gm.deathSequences)
      ensures old(phase).Celebrating? && now >= old(phase).until
              ==> phase == Finished && gm.paused && victoryTextShown == hasVictoryText
                  && gm.State() == old(gm.State()).(paused := true)
      ensures !Advances(old(phase), now, lastOrcDead)
              ==> phase == old(phase) && spawned == old(spawned) && gm.State() == old(gm.State())
                  && victoryTextShown == old(victoryTextShown)
    {
      match phase
      case Settling(until) =>
        if now >= until {
          currentOrcIndex := currentOrcIndex + 1;
          phase := Interval(now + spawnInterval);
        }
      case Interval(until) =>
        if now >= until {
          if currentOrcIndex < |orcPrefabs| {
            SpawnNextOrc(now);
          } else if awaitsLastDeath {
            phase := AwaitingLastDeath;
          } else {
            HandleVictory(now, gm);
          }
        }
      case AwaitingLastDeath =>
        if lastOrcDead {
          HandleVictory(now, gm);
        }
      case Celebrating(until) =>
        if now >= until {
          DisplayWinMessage(gm);
        }
      case NotStarted =>
      case Refused =>
      case Finished =>
    }

    /** Victory: the game advances a level (loading the next level's scene
        while one remains), the wall is unlocked when assigned, and the
        celebration wait starts. */
    method HandleVictory(now: real, gm: GameManager)
      requires Valid() && gm.Valid()
      requires |spawned| == currentOrcIndex == |orcPrefabs|
      requires phase.Interval? || phase.AwaitingLastDeath?
      modifies this`phase, this`wallUnlocks, gm
      ensures Valid() && gm.Valid()
      ensures phase == Celebrating(now + delayBeforeWinMessage)
      ensures gm.State() == Advanced(old(gm.State()))
      ensures gm.currentLevelIndex <= FinalLevelIndex
              ==> gm.sceneLoads == old(gm.sceneLoads) + [LevelSceneName(gm.levelPrefix, gm.currentLevelIndex)]
      ensures gm.currentLevelIndex > FinalLevelIndex ==> gm.sceneLoads == old(gm.sceneLoads)
      ensures gm.deathSequences == old(gm.deathSequences)
      ensures wallUnlocks == (if hasWall then 1 else 0)
    {
      gm.AdvanceLevel();
      if hasWall {
        wallUnlocks := wallUnlocks + 1;
      }
      phase := Celebrating(now + delayBeforeWinMessage);
    }

    /** The end of the celebration wait: show the text when assigned and stop the clock. */
    method DisplayWinMessage(gm: GameManager)
      requires Valid() && gm.Valid() && phase.Celebrating?
      modifies this`victoryTextShown, this`victoryText, this`phase, gm`paused
      ensures Valid() && gm.Valid()
      ensures phase == Finished && gm.paused
      ensures victoryTextShown == (old(victoryTextShown) || hasVictoryText)
    {
      if hasVictoryText {
        victoryTextShown := true;
        victoryText := VictoryMessage;
      }
      gm.paused := true;
      phase := Finished;
    }

    /** A tick wins the rush: the final interval ends with nobody to wait
        for, or the awaited last orc is dead. */
    predicate Won(phase0: RushPhase, index0: nat, awaits0: bool, lastOrcDead: bool, now: real)
    {
      || (phase0.Interval? && now >= phase0.until && index0 >= |orcPrefabs| && !awaits0)
      || (phase0.AwaitingLastDeath? && lastOrcDead)
    }
  }

  /** Whether a tick at `now` moves the rush on from `phase0` at all. */
  predicate Advances(phase0: RushPhase, now: real, lastOrcDead: bool)
  {
    match phase0
    case Settling(t) => now >= t
    case Interval(t) => now >= t
    case AwaitingLastDeath => lastOrcDead
    case Celebrating(t) => now >= t
    case NotStarted => false
    case Refused => false
    case Finished => false
  }
}
