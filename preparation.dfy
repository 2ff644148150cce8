/** The preparation panel: the new-level introduction, the wait for enough tracked
    anchors, and the countdown that starts play. */
module Preparation {
  import opened GameRules
  import Progression
  import DecimalText

  const ReadyText: string := "Ready..."
  const StartText: string := "Start!"
  const LevelPrefix: string := "Level "
  const RequiredPrefix: string := "Waste Sources Required: "

  /** Where the countdown routine is: not running, waiting after "Ready...", or
      waiting after "Start!". */
  datatype Countdown = Idle | ShowingReady | ShowingStart

  class PreparationPanel {
    /** The progression controller the panel starts play on. */
    const gm: Progression.GameManager

    var isPrepReady: bool
    var showNewLevel: bool
    var snackBarActive: bool
    var countDownActive: bool
    var newLevelIntroActive: bool
    var trackableCntText: string
    var countDownText: string
    var newLevelText: string
    var numAnchorRequiredText: string
    var countdown: Countdown
    /** Whether the new-level introduction routine is waiting. */
    var introRunning: bool
    /** How many times play was started since the panel was last enabled. */
    ghost var starts: nat

    /** The countdown runs only after the gate latched, and play starts at most once
        per enabling: once started, the countdown is over. */
    ghost predicate Valid()
      reads this
    {
      && (countdown != Idle ==> isPrepReady)
      && starts + (if countdown != Idle then 1 else 0) <= (if isPrepReady then 1 else 0)
    }

    constructor(gm: Progression.GameManager)
      ensures this.gm == gm && Valid()
      ensures !isPrepReady && !showNewLevel && countdown == Idle && !introRunning
    {
      this.gm := gm;
      isPrepReady := false;
      showNewLevel := false;
      snackBarActive := false;
      countDownActive := false;
      newLevelIntroActive := false;
      trackableCntText := "";
      countDownText := "";
      newLevelText := "";
      numAnchorRequiredText := "";
      countdown := Idle;
      introRunning := false;
      starts := 0;
    }

    /** The panel becomes visible: its routines were stopped when it was hidden, the
        flags are cleared, and above level 1 the introduction of the new level starts. */
    method OnEnable()
      modifies this`countdown, this`introRunning, this`starts, this`isPrepReady, this`snackBarActive,
               this`countDownActive, this`showNewLevel, this`newLevelIntroActive,
               this`newLevelText, this`numAnchorRequiredText
      ensures Valid() && starts == 0
      ensures !isPrepReady && !snackBarActive && !countDownActive && countdown == Idle
      ensures showNewLevel <==> gm.level > 1
      ensures introRunning == showNewLevel && newLevelIntroActive == showNewLevel
      ensures showNewLevel ==>
                && newLevelText == LevelPrefix + DecimalText.DecimalString(gm.level)
                && numAnchorRequiredText == RequiredPrefix + DecimalText.DecimalString(gm.numAnchorsRequired)
      ensures !showNewLevel ==>
                newLevelText == old(newLevelText) && numAnchorRequiredText == old(numAnchorRequiredText)
    {
      countdown := Idle;
      introRunning := false;
      starts := 0;
      isPrepReady := false;
      snackBarActive := false;
      countDownActive := false;
      showNewLevel := false;
      newLevelIntroActive := false;
      if gm.level > 1 {
        showNewLevel := true;
        introRunning := true;
        newLevelIntroActive := true;
        newLevelText := LevelPrefix + DecimalText.DecimalString(gm.level);
        numAnchorRequiredText := RequiredPrefix + DecimalText.DecimalString(gm.numAnchorsRequired);
      }
    }

    /** One frame with `anchorCount` tracked anchors: unless the introduction is showing
        or the gate has latched, shows the count and the searching bar, and latches the
        gate and starts the countdown once enough anchors are tracked. */
    method Update(anchorCount: nat)
      requires Valid()
      modifies this`trackableCntText, this`snackBarActive, this`isPrepReady, this`countDownActive,
               this`countDownText, this`countdown
      ensures Valid() && starts == old(starts)
      ensures old(showNewLevel) || old(isPrepReady) ==> unchanged(this)
      ensures !old(showNewLevel) && !old(isPrepReady) ==>
                && trackableCntText == DecimalText.DecimalString(anchorCount)
                && (snackBarActive <==> anchorCount < gm.numAnchorsRequired)
                && (isPrepReady <==> anchorCount >= gm.numAnchorsRequired)
                && (isPrepReady ==> countDownActive && countdown == ShowingReady && countDownText == ReadyText)
                && (!isPrepReady ==>
                      && countdown == old(countdown) && countDownActive == old(countDownActive)
                      && countDownText == old(countDownText))
      ensures old(isPrepReady) ==> isPrepReady
    {
      if showNewLevel {
        return;
      }
      if isPrepReady {
        return;
      }
      trackableCntText := DecimalText.DecimalString(anchorCount);
      snackBarActive := !(anchorCount >= gm.numAnchorsRequired);
      if anchorCount >= gm.numAnchorsRequired {
        isPrepReady := true;
        countDownActive := true;
        countDownText := ReadyText;
        countdown := ShowingReady;
      }
    }

    /** The wait after "Ready..." is over: shows "Start!". */
    method ReadyWaitElapsed()
      requires Valid()
      modifies this`countDownText, this`countdown
      ensures Valid()
      ensures old(countdown) == ShowingReady ==> countdown == ShowingStart && countDownText == StartText
      ensures old(countdown) != ShowingReady ==> countdown == old(countdown) && countDownText == old(countDownText)
    {
      if countdown == ShowingReady {
        countDownText := StartText;
        countdown := ShowingStart;
      }
    }

    /** The wait after "Start!" is over: starts play on the tracked `anchors`. */
    method StartWaitElapsed(anchors: seq<Anchor>)
      requires Valid()
      modifies this`countdown, this`starts
      modifies gm`currentSpawnPool, gm`liveObjects, gm`scoreThreshold, gm`currentMaxSpawnWait,
               gm`state, gm.ui`panels
      ensures Valid()
      ensures old(countdown) == ShowingStart ==>
                && countdown == Idle
                && starts == old(starts) + 1 && starts == 1
                && gm.state == InPlay
                && gm.currentSpawnPool == SpawnPool(gm.catalog, old(gm.level))
                && gm.liveObjects == old(gm.liveObjects) + Progression.Placements(anchors, old(gm.numAnchorsRequired))
                && gm.scoreThreshold == ScoreThreshold(old(gm.score), old(gm.level), old(gm.numAnchorsRequired))
                && gm.currentMaxSpawnWait == SpawnWaitCeiling(old(gm.level))
                && gm.ui.panels.Keys == old(gm.ui.panels).Keys
                && Progression.OnlyActive(gm.ui.panels, Progression.InPlayPanelId)
                && (old(gm.Valid()) ==> gm.Valid())
      ensures old(countdown) != ShowingStart ==>
                countdown == old(countdown) && starts == old(starts) && unchanged(gm, gm.ui)
    {
      if countdown == ShowingStart {
        countdown := Idle;
        starts := starts + 1;
        gm.StartGame(anchors);
      }
    }

    /** The new-level introduction is over: hides it and opens the anchor gate. */
    method LevelIntroElapsed()
      modifies this`newLevelIntroActive, this`showNewLevel, this`introRunning
      ensures !introRunning
      ensures old(introRunning) ==> !newLevelIntroActive && !showNewLevel
      ensures !old(introRunning) ==>
                newLevelIntroActive == old(newLevelIntroActive) && showNewLevel == old(showNewLevel)
    {
      if introRunning {
        newLevelIntroActive := false;
        showNewLevel := false;
        introRunning := false;
      }
    }
  }
}
