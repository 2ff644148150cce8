/** The progression controller and the UI panel switcher. The controller's state
    setter notifies the UI manager directly, and the UI manager's commands drive the
    controller, so both classes share this module. */
module Progression {
  import opened SpawnedItems
  import opened GameRules
  import Settings

  const MainMenuPanelId: string := "MainMenu"
  const ResultsPanelId: string := "ResultsPanel"
  const PreparationPanelId: string := "PreparationPanel"
  const InPlayPanelId: string := "InPlayPanel"

  /** The panel shown in each phase of a match. */
  function PanelFor(state: AppState): string
  {
    match state
    case Menu => MainMenuPanelId
    case Preparation => PreparationPanelId
    case InPlay => InPlayPanelId
    case Results => ResultsPanelId
  }

  /** Different phases show different panels. */
  lemma PanelForDistinct(a: AppState, b: AppState)
    ensures PanelFor(a) == PanelFor(b) <==> a == b
  {
  }

  /** Every panel is inactive except the one named `target`, if there is one. */
  ghost predicate OnlyActive(panels: map<string, bool>, target: string)
  {
    forall k :: k in panels ==> panels[k] == (k == target)
  }

  /** No two different panels are active. */
  ghost predicate AtMostOneActive(panels: map<string, bool>)
  {
    forall a, b :: a in panels && b in panels && panels[a] && panels[b] ==> a == b
  }

  /** A child of the UI canvas: its name and whether its object starts active. */
  datatype CanvasChild = CanvasChild(name: string, active: bool)

  ghost predicate DistinctNames(canvas: seq<CanvasChild>)
  {
    forall i, j :: 0 <= i < j < |canvas| ==> canvas[i].name != canvas[j].name
  }

  class UIManager {
    /** The panel catalog: each panel's name and the active flag of its object. */
    var panels: map<string, bool>
    /** Set when filling the catalog stopped at a repeated panel name (adding a key
        twice raises an exception, which ends the initialisation). */
    var awakeFailed: bool

    /** Fills the catalog from the canvas children, then shows the main menu alone. */
    constructor(canvas: seq<CanvasChild>)
      ensures awakeFailed <==> !DistinctNames(canvas)
      ensures !awakeFailed ==> panels.Keys == set i | 0 <= i < |canvas| :: canvas[i].name
      ensures !awakeFailed ==> OnlyActive(panels, MainMenuPanelId)
    {
      panels := map[];
      awakeFailed := false;
      new;
      var i := 0;
      while i < |canvas| && !awakeFailed
        invariant 0 <= i <= |canvas|
        invariant !awakeFailed ==> DistinctNames(canvas[..i])
        invariant !awakeFailed ==> panels.Keys == set j | 0 <= j < i :: canvas[j].name
        invariant awakeFailed ==> !DistinctNames(canvas)
        decreases |canvas| - i, if awakeFailed then 0 else 1
      {
        if canvas[i].name in panels {
          var j :| 0 <= j < i && canvas[j].name == canvas[i].name;
          awakeFailed := true;
        } else {
          panels := panels[canvas[i].name := canvas[i].active];
          i := i + 1;
        }
      }
      if !awakeFailed {
        assert canvas[..i] == canvas;
        SetPanelActive(MainMenuPanelId);
      }
    }

    /** Activates the panel named `target` and deactivates every other panel. */
    method SetPanelActive(target: string)
      modifies this`panels
      ensures panels.Keys == old(panels).Keys
      ensures OnlyActive(panels, target)
      ensures AtMostOneActive(panels)
      ensures target !in panels ==> forall k :: k in panels ==> !panels[k]
    {
      var remaining := panels.Keys;
      while remaining != {}
        invariant remaining <= panels.Keys && panels.Keys == old(panels).Keys
        invariant forall k :: k in panels && k !in remaining ==> panels[k] == (k == target)
        decreases remaining
      {
        var k :| k in remaining;
        panels := panels[k := k == target];
        remaining := remaining - {k};
      }
    }

    /** Shows the panel of the new phase and hides the others. */
    method OnGameStateChanged(state: AppState)
      modifies this`panels
      ensures panels.Keys == old(panels).Keys
      ensures OnlyActive(panels, PanelFor(state))
    {
      SetPanelActive(InPlayPanelId);
      match state
      case Menu => SetPanelActive(MainMenuPanelId);
      case Preparation => SetPanelActive(PreparationPanelId);
      case InPlay => SetPanelActive(InPlayPanelId);
      case Results => SetPanelActive(ResultsPanelId);
    }

    /** The start button: enters preparation without resetting the game data. */
    method StartGame(gm: GameManager)
      requires gm.ui == this
      modifies gm`state, this`panels
      ensures gm.state == Preparation
      ensures panels.Keys == old(panels).Keys && OnlyActive(panels, PreparationPanelId)
    {
      gm.SetCurrentState(Preparation);
    }

    /** The menu button: resets the game data, then returns to the menu. */
    method ReturnToMenu(gm: GameManager)
      requires gm.ui == this && gm.settings.Valid()
      modifies gm`level, gm`score, gm`scoreThreshold, gm`anchorIncFactor, gm`nextAnchorIncLevel,
               gm`numAnchorsRequired, gm`currentSpawnPool, gm`cleared,
               gm`state, this`panels
      ensures gm.Valid() && gm.IsReset()
      ensures gm.state == Menu && gm.liveObjects == old(gm.liveObjects)
      ensures panels.Keys == old(panels).Keys && OnlyActive(panels, MainMenuPanelId)
    {
      gm.ResetGame();
      gm.SetCurrentState(Menu);
    }

    /** The restart button: resets the game data, then enters preparation. */
    method RestartGame(gm: GameManager)
      requires gm.ui == this && gm.settings.Valid()
      modifies gm`level, gm`score, gm`scoreThreshold, gm`anchorIncFactor, gm`nextAnchorIncLevel,
               gm`numAnchorsRequired, gm`currentSpawnPool, gm`cleared,
               gm`state, this`panels
      ensures gm.Valid() && gm.IsReset()
      ensures gm.state == Preparation && gm.liveObjects == old(gm.liveObjects)
      ensures panels.Keys == old(panels).Keys && OnlyActive(panels, PreparationPanelId)
    {
      gm.ResetGame();
      StartGame(gm);
    }
  }

  class GameManager {
    /** The archetype catalog loaded at start-up. */
    const catalog: seq<SpawnedItem>
    /** The UI manager notified of every state change. */
    const ui: UIManager
    /** The store final scores are submitted to. */
    const settings: Settings.SettingsManager

    var state: AppState
    var level: int
    var score: int
    var scoreThreshold: int
    var anchorIncFactor: int
    var nextAnchorIncLevel: int
    var numAnchorsRequired: int
    var currentSpawnPool: seq<Prefab>
    var currentMaxSpawnWait: real
    /** The objects under the in-game root. */
    var liveObjects: seq<LiveObject>
    /** The kinds of the items cleared since the last reset. */
    ghost var cleared: seq<SpawnType>

    function Schedule(): AnchorSchedule
      reads this
    {
      AnchorSchedule(anchorIncFactor, numAnchorsRequired, nextAnchorIncLevel)
    }

    ghost predicate Valid()
      reads this, settings
    {
      && settings.Valid()
      && ScheduleInvariant(level, Schedule())
      && score == TotalPoints(cleared)
    }

    /** The game data as a reset leaves it. */
    ghost predicate IsReset()
      reads this
    {
      && level == 1 && score == 0 && scoreThreshold == 0
      && Schedule() == InitialSchedule
      && currentSpawnPool == [] && cleared == []
    }

    /** Creation and start-up: the menu phase at level 1 with the default schedule. */
    constructor(catalog: seq<SpawnedItem>, ui: UIManager, settings: Settings.SettingsManager)
      requires settings.Valid()
      ensures Valid() && IsReset()
      ensures state == Menu && liveObjects == []
      ensures this.catalog == catalog && this.ui == ui && this.settings == settings
    {
      this.catalog := catalog;
      this.ui := ui;
      this.settings := settings;
      state := Menu;
      level := 1;
      score := 0;
      scoreThreshold := 0;
      anchorIncFactor := DefaultAnchorIncFactor;
      numAnchorsRequired := DefaultNumAnchorsRequired;
      nextAnchorIncLevel := 1 + DefaultAnchorIncFactor;
      currentSpawnPool := [];
      currentMaxSpawnWait := 0.0;
      liveObjects := [];
      cleared := [];
    }

    /** The state setter: records the new state and notifies the UI manager. */
    method SetCurrentState(s: AppState)
      modifies this`state, ui`panels
      ensures state == s
      ensures ui.panels.Keys == old(ui.panels).Keys && OnlyActive(ui.panels, PanelFor(s))
    {
      state := s;
      ui.OnGameStateChanged(s);
    }

    /** Sets up the current level and starts play: the pool, one spawner per anchor up
        to the requirement, the threshold and the spawn-wait ceiling. */
    method StartGame(anchors: seq<Anchor>)
      modifies this`currentSpawnPool, this`liveObjects, this`scoreThreshold, this`currentMaxSpawnWait,
               this`state, ui`panels
      ensures state == InPlay
      ensures currentSpawnPool == SpawnPool(catalog, level)
      ensures liveObjects == old(liveObjects) + Placements(anchors, numAnchorsRequired)
      ensures scoreThreshold == ScoreThreshold(score, level, numAnchorsRequired)
      ensures currentMaxSpawnWait == SpawnWaitCeiling(level)
      ensures level == old(level) && score == old(score) && Schedule() == old(Schedule())
      ensures cleared == old(cleared)
      ensures ui.panels.Keys == old(ui.panels).Keys && OnlyActive(ui.panels, InPlayPanelId)
    {
      UpdateSpawnPool();
      UpdateSpawnAnchors(anchors);
      UpdateScoreThreshold();
      if level >= MaxSpawnWaitLvl {
        currentMaxSpawnWait := MinSpawnWait;
      } else {
        currentMaxSpawnWait := Utility.Remap(level as real, 1.0, MaxSpawnWaitLvl as real, MaxSpawnWait, MinSpawnWait);
      }
      SetCurrentState(InPlay);
    }

    /** Moves to the next level: one level up, the match objects cleared, the anchor
        requirement updated, and back to preparation. */
    method ProceedToNextLevel()
      modifies this`level, this`liveObjects, this`anchorIncFactor, this`numAnchorsRequired,
               this`nextAnchorIncLevel, this`state, ui`panels
      ensures level == old(level) + 1
      ensures liveObjects == []
      ensures Schedule() == RaiseRequirement(level, old(Schedule()))
      ensures state == Preparation
      ensures score == old(score) && scoreThreshold == old(scoreThreshold)
      ensures currentSpawnPool == old(currentSpawnPool) && cleared == old(cleared)
      ensures old(Valid()) ==> Valid()
      ensures ui.panels.Keys == old(ui.panels).Keys && OnlyActive(ui.panels, PreparationPanelId)
    {
      level := level + 1;
      ClearInGameObjects();
      UpdateNumAnchorsRequired();
      SetCurrentState(Preparation);
      if old(Valid()) {
        RaisePreservesSchedule(old(level), old(Schedule()));
      }
    }

    /** Resets the game data for a new match; the state is left as it is. */
    method ResetGame()
      requires settings.Valid()
      modifies this`level, this`score, this`scoreThreshold, this`anchorIncFactor, this`nextAnchorIncLevel,
               this`numAnchorsRequired, this`currentSpawnPool, this`cleared
      ensures Valid() && IsReset()
      ensures state == old(state) && liveObjects == old(liveObjects)
    {
      level := 1;
      score := 0;
      scoreThreshold := 0;
      anchorIncFactor := DefaultAnchorIncFactor;
      nextAnchorIncLevel := level + anchorIncFactor;
      numAnchorsRequired := DefaultNumAnchorsRequired;
      currentSpawnPool := [];
      cleared := [];
    }

    /** Ends the match: clears the match objects, submits the score, shows the results. */
    method LoseGame()
      requires settings.Valid()
      modifies this`liveObjects, this`state, ui`panels, settings, settings.currentPlayerData
      ensures state == Results && liveObjects == []
      ensures settings.Valid() && settings.currentPlayerData == old(settings.currentPlayerData)
      ensures settings.currentPlayerData.highscores ==
                Settings.OfferScore(old(settings.currentPlayerData.highscores), old(score)).highscores
      ensures settings.saveCount == old(settings.saveCount) +
                (if Settings.OfferScore(old(settings.currentPlayerData.highscores), old(score)).saved then 1 else 0)
      ensures score == old(score) && level == old(level) && Schedule() == old(Schedule())
      ensures cleared == old(cleared)
      ensures ui.panels.Keys == old(ui.panels).Keys && OnlyActive(ui.panels, ResultsPanelId)
    {
      ClearInGameObjects();
      settings.AddHighscore(score);
      SetCurrentState(Results);
    }

    method UpdateScoreThreshold()
      modifies this`scoreThreshold
      ensures scoreThreshold == ScoreThreshold(score, level, numAnchorsRequired)
    {
      scoreThreshold := score + Utility.Truncate((BaseScoreThreshold * level) as real * ((numAnchorsRequired - 1) as real * 0.8 + 1.0));
    }

    /** Rebuilds the pool from the catalog entries available at the current level. */
    method UpdateSpawnPool()
      modifies this`currentSpawnPool
      ensures currentSpawnPool == SpawnPool(catalog, level)
    {
      currentSpawnPool := [];
      for i := 0 to |catalog|
        invariant currentSpawnPool == SpawnPool(catalog[..i], level)
      {
        if catalog[i].minLevel <= level {
          currentSpawnPool := currentSpawnPool + [catalog[i].prefab];
        }
        assert catalog[..i + 1][..i] == catalog[..i];
      }
      assert catalog[..|catalog|] == catalog;
    }

    /** Places a spawner on each of the first anchors, stopping once the required
        number is placed. */
    method UpdateSpawnAnchors(anchors: seq<Anchor>)
      modifies this`liveObjects
      ensures liveObjects == old(liveObjects) + Placements(anchors, numAnchorsRequired)
    {
      var i := 0;
      while i < |anchors|
        invariant 0 <= i <= PlacedCount(|anchors|, numAnchorsRequired)
        invariant liveObjects == old(liveObjects) + Placements(anchors[..i], i)
        decreases |anchors| - i
      {
        if i + 1 > numAnchorsRequired {
          break;
        }
        liveObjects := liveObjects + [ItemSpawnerAt(anchors[i])];
        i := i + 1;
        assert Placements(anchors[..i], i) == Placements(anchors[..i - 1], i - 1) + [ItemSpawnerAt(anchors[i - 1])];
      }
      assert Placements(anchors[..i], i) == Placements(anchors, numAnchorsRequired);
    }

    /** Destroys every object of the match. */
    method ClearInGameObjects()
      modifies this`liveObjects
      ensures liveObjects == []
    {
      liveObjects := [];
    }

    /** Scores a cleared item and advances the level once the threshold is reached. */
    method AddScore(spawnType: SpawnType)
      modifies this`score, this`cleared, this`level, this`liveObjects, this`anchorIncFactor,
               this`numAnchorsRequired, this`nextAnchorIncLevel, this`state, ui`panels
      ensures score == old(score) + Points(spawnType) && cleared == old(cleared) + [spawnType]
      ensures scoreThreshold == old(scoreThreshold) && currentSpawnPool == old(currentSpawnPool)
      ensures score >= scoreThreshold ==>
                && level == old(level) + 1 && liveObjects == [] && state == Preparation
                && Schedule() == RaiseRequirement(level, old(Schedule()))
                && ui.panels.Keys == old(ui.panels).Keys && OnlyActive(ui.panels, PreparationPanelId)
      ensures score < scoreThreshold ==>
                && level == old(level) && liveObjects == old(liveObjects) && state == old(state)
                && Schedule() == old(Schedule()) && ui.panels == old(ui.panels)
      ensures old(Valid()) ==> Valid()
    {
      var incAmt := 0;
      match spawnType {
        case PlasticWaste => incAmt := incAmt + 1;
        case OrganicWaste => incAmt := incAmt + 1;
        case MetalWaste => incAmt := incAmt + 1;
        case ElectronicWaste => incAmt := incAmt + 1;
        case HazardousWaste => incAmt := incAmt + 2;
        case Animal => incAmt := incAmt + 3;
        case InertWaste =>
      }
      score := score + incAmt;
      cleared := cleared + [spawnType];
      TotalPointsAppend(old(cleared), spawnType);
      if score >= scoreThreshold {
        ProceedToNextLevel();
      }
    }

    /** Raises the anchor requirement once the level reaches the scheduled level. */
    method UpdateNumAnchorsRequired()
      modifies this`anchorIncFactor, this`numAnchorsRequired, this`nextAnchorIncLevel
      ensures Schedule() == RaiseRequirement(level, old(Schedule()))
    {
      if level < nextAnchorIncLevel {
        return;
      }
      anchorIncFactor := anchorIncFactor + 1;
      numAnchorsRequired := numAnchorsRequired + 1;
      nextAnchorIncLevel := level + anchorIncFactor;
    }
  }

  /** The spawners placed on the first anchors, one each, up to `required` of them. */
  function Placements(anchors: seq<Anchor>, required: int): (r: seq<LiveObject>)
    ensures |r| == PlacedCount(|anchors|, required)
    ensures forall i :: 0 <= i < |r| ==> r[i] == ItemSpawnerAt(anchors[i])
  {
    var k := PlacedCount(|anchors|, required);
    seq(k, i requires 0 <= i < k => ItemSpawnerAt(anchors[i]))
  }
}
