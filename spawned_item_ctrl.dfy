/** The behaviour of one spawned item: its speed, its movement, and the events by
    which it scores or ends the match. */
module ItemControl {
  import opened SpawnedItems
  import opened GameRules
  import Progression
  import Settings
  import Utility

  /** The tag of the player's collider. */
  const PlayerTag: string := "Player"

  /** The speed an item moves at when it starts at the given level. */
  function ItemMoveSpeed(level: int): (speed: real)
    ensures MinItemMoveSpeed <= speed <= MaxItemMoveSpeed
  {
    if level >= MaxSpeedLevel then MaxItemMoveSpeed
    else Utility.Remap(level as real, 1.0, MaxSpeedLevel as real, MinItemMoveSpeed, MaxItemMoveSpeed)
  }

  /** Items start at the minimum speed on level 1, reach the maximum at level 8 and
      never slow down as the level rises. */
  lemma ItemMoveSpeedCurve(level: int, higher: int)
    requires level <= higher
    ensures ItemMoveSpeed(1) == MinItemMoveSpeed
    ensures higher >= MaxSpeedLevel ==> ItemMoveSpeed(higher) == MaxItemMoveSpeed
    ensures ItemMoveSpeed(level) <= ItemMoveSpeed(higher)
  {
    Utility.RemapEndpoints(1.0, MaxSpeedLevel as real, MinItemMoveSpeed, MaxItemMoveSpeed);
    if higher < MaxSpeedLevel {
      Utility.RemapMonotone(level as real, higher as real, 1.0, MaxSpeedLevel as real, MinItemMoveSpeed, MaxItemMoveSpeed);
    }
  }

  /** Whether the lifetime running out ends the match: it does for every kind of
      item except inert waste. */
  predicate ExpiryLoses(t: SpawnType)
  {
    t != InertWaste
  }

  class SpawnedItemCtrl {
    const spawnType: SpawnType
    /** The progression controller the item reports to. */
    const gm: Progression.GameManager

    var moveSpeed: real
    var isMovementHalted: bool
    /** Distance moved towards the player's start position. */
    var travelled: real
    /** Whether the lifetime timer is running. */
    var lifetimeRunning: bool
    /** Whether the item has been removed after a successful interaction. */
    var destroyed: bool
    /** Whether start-up computed the direction towards the player; until then the
        direction is the zero vector and a frame's translation moves nothing. */
    var aimed: bool

    constructor(spawnType: SpawnType, gm: Progression.GameManager)
      ensures this.spawnType == spawnType && this.gm == gm
      ensures moveSpeed == 1.0 && !isMovementHalted && travelled == 0.0
      ensures !lifetimeRunning && !destroyed && !aimed
    {
      this.spawnType := spawnType;
      this.gm := gm;
      moveSpeed := 1.0;
      isMovementHalted := false;
      travelled := 0.0;
      lifetimeRunning := false;
      destroyed := false;
      aimed := false;
    }

    /** First frame: picks one of the `modelCount` models of its kind, takes the speed
        of the current level and starts the lifetime timer. With no model of its kind
        the model lookup fails and the rest of the start-up, the aim at the player
        included, does not happen. */
    method Start(modelCount: nat)
      modifies this`moveSpeed, this`lifetimeRunning, this`aimed
      ensures modelCount > 0 ==> aimed && moveSpeed == ItemMoveSpeed(gm.level) && lifetimeRunning
      ensures modelCount == 0 ==>
                aimed == old(aimed) && moveSpeed == old(moveSpeed) && lifetimeRunning == old(lifetimeRunning)
    {
      if modelCount == 0 {
        return;
      }
      aimed := true;
      if gm.level >= MaxSpeedLevel {
        moveSpeed := MaxItemMoveSpeed;
      } else {
        moveSpeed := Utility.Remap(gm.level as real, 1.0, MaxSpeedLevel as real, MinItemMoveSpeed, MaxItemMoveSpeed);
      }
      lifetimeRunning := true;
    }

    /** One frame of `dt` seconds: moves at the item's speed unless halted. An item
        that was never aimed has a zero direction and stays where it is. */
    method Update(dt: real)
      modifies this`travelled
      ensures isMovementHalted || !aimed ==> travelled == old(travelled)
      ensures !isMovementHalted && aimed ==> travelled == old(travelled) + moveSpeed * dt
    {
      if isMovementHalted {
        return;
      }
      if aimed {
        travelled := travelled + moveSpeed * dt;
      }
    }

    /** Halts or resumes the movement. */
    method SetMoving(move: bool)
      modifies this`isMovementHalted
      ensures isMovementHalted == !move
    {
      isMovementHalted := !move;
    }

    /** Ends the match unless it has already ended: a second loss signal in the same
        match submits nothing. */
    method LoseGame()
      requires gm.settings.Valid()
      modifies gm`liveObjects, gm`state, gm.ui`panels, gm.settings, gm.settings.currentPlayerData
      ensures gm.settings.Valid() && gm.settings.currentPlayerData == old(gm.settings.currentPlayerData)
      ensures old(gm.state) == Results ==>
                unchanged(gm, gm.ui, gm.settings, gm.settings.currentPlayerData)
      ensures old(gm.state) != Results ==>
                MatchEnded(gm, old(gm.score), old(gm.settings.currentPlayerData.highscores),
                           old(gm.settings.saveCount), old(gm.ui.panels.Keys))
    {
      if gm.state != Results {
        gm.LoseGame();
      }
    }

    /** Contact with another collider: sends the loss signal when it is the player. */
    method OnTriggerEnter(otherTag: string)
      requires gm.settings.Valid()
      modifies gm`liveObjects, gm`state, gm.ui`panels, gm.settings, gm.settings.currentPlayerData
      ensures gm.settings.Valid() && gm.settings.currentPlayerData == old(gm.settings.currentPlayerData)
      ensures otherTag != PlayerTag || old(gm.state) == Results ==>
                unchanged(gm, gm.ui, gm.settings, gm.settings.currentPlayerData)
      ensures otherTag == PlayerTag && old(gm.state) != Results ==>
                MatchEnded(gm, old(gm.score), old(gm.settings.currentPlayerData.highscores),
                           old(gm.settings.saveCount), old(gm.ui.panels.Keys))
    {
      if otherTag == PlayerTag {
        LoseGame();
      }
    }

    /** A successful interaction: scores the item's own kind once and removes it. The
        controller advances the level when the new score reaches the threshold. */
    method Despawn()
      modifies this`destroyed, this`lifetimeRunning
      modifies gm`score, gm`cleared, gm`level, gm`liveObjects, gm`anchorIncFactor,
               gm`numAnchorsRequired, gm`nextAnchorIncLevel, gm`state, gm.ui`panels
      ensures destroyed && !lifetimeRunning
      ensures gm.score == old(gm.score) + Points(spawnType)
      ensures gm.cleared == old(gm.cleared) + [spawnType]
      ensures gm.score >= gm.scoreThreshold ==>
                && gm.level == old(gm.level) + 1 && gm.liveObjects == [] && gm.state == Preparation
                && gm.Schedule() == RaiseRequirement(gm.level, old(gm.Schedule()))
                && gm.ui.panels.Keys == old(gm.ui.panels).Keys
                && Progression.OnlyActive(gm.ui.panels, Progression.PreparationPanelId)
      ensures gm.score < gm.scoreThreshold ==>
                && gm.level == old(gm.level) && gm.liveObjects == old(gm.liveObjects)
                && gm.state == old(gm.state) && gm.Schedule() == old(gm.Schedule())
                && gm.ui.panels == old(gm.ui.panels)
      ensures old(gm.Valid()) ==> gm.Valid()
    {
      gm.AddScore(spawnType);
      destroyed := true;
      lifetimeRunning := false;
    }

    /** The lifetime has run out: sends the loss signal unless the item is inert waste. */
    method LifetimeElapsed()
      requires gm.settings.Valid()
      modifies this`lifetimeRunning
      modifies gm`liveObjects, gm`state, gm.ui`panels, gm.settings, gm.settings.currentPlayerData
      ensures gm.settings.Valid() && gm.settings.currentPlayerData == old(gm.settings.currentPlayerData)
      ensures !lifetimeRunning
      ensures !old(lifetimeRunning) || !ExpiryLoses(spawnType) || old(gm.state) == Results ==>
                unchanged(gm, gm.ui, gm.settings, gm.settings.currentPlayerData)
      ensures old(lifetimeRunning) && ExpiryLoses(spawnType) && old(gm.state) != Results ==>
                MatchEnded(gm, old(gm.score), old(gm.settings.currentPlayerData.highscores),
                           old(gm.settings.saveCount), old(gm.ui.panels.Keys))
    {
      if !lifetimeRunning {
        return;
      }
      lifetimeRunning := false;
      if spawnType == InertWaste {
        return;
      }
      LoseGame();
    }
  }

  /** The controller and the store once a match has ended on a score of `score`, given
      the high-score list `highscores`, the number of saves `saves` and the panel names
      `panelNames` from before: the results are shown alone, the match objects are
      cleared, and the score was offered to the list once, with a save if admitted. */
  ghost predicate MatchEnded(gm: Progression.GameManager, score: int, highscores: seq<int>,
                             saves: nat, panelNames: set<string>)
    reads gm, gm.ui, gm.settings, gm.settings.currentPlayerData
  {
    && gm.settings.Valid()
    && gm.state == Results && gm.liveObjects == []
    && gm.settings.currentPlayerData.highscores == Settings.OfferScore(highscores, score).highscores
    && gm.settings.saveCount == saves + (if Settings.OfferScore(highscores, score).saved then 1 else 0)
    && gm.ui.panels.Keys == panelNames
    && Progression.OnlyActive(gm.ui.panels, Progression.ResultsPanelId)
  }
}
