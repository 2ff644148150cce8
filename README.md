# RecyclAR gameplay core in Dafny

RecyclAR is an augmented-reality recycling game. Waste items and animals fly out of
"waste sources" (item spawners) placed on tracked AR anchors. The player clears an item
by interacting with it and scores points for its kind. A match is lost when an item
reaches the player, or when a non-inert item outlives its lifetime. Levels advance when
the score reaches a threshold. The threshold, the number of anchors needed, the spawn
pool, the spawn rate and the item speed all grow with the level. Final scores go into a
high-score list that keeps the best ten.

This project models that core and proves properties of it:

- `Progression.GameManager` (`progression.dfy`) is the progression controller. It holds:
  - the four-state match machine (Menu, Preparation, InPlay, Results);
  - the score ledger with its fixed point table;
  - the level threshold;
  - the anchor-requirement schedule;
  - the spawn pool;
  - the reset routine;
  - the spawners placed at the start of a level.

  Its ghost `Valid()` invariant ties the score to the points of the items cleared so far
  and the schedule counters to the level.
- `Progression.UIManager` (`progression.dfy`) is the panel catalog. It has the "exactly
  one panel active" rule and the start, return-to-menu and restart commands. The state
  setter of the controller calls it directly.
- `GameRules` (`game_rules.dfy`) has the formulas behind the controller, each as a pure
  function with lemmas:
  - points per kind;
  - the threshold and its closed form;
  - the schedule and the levels at which it steps up (3, 6, 10, 15, ...);
  - the spawn pool and how it grows;
  - the spawn-wait ceiling.
- `ItemControl.SpawnedItemCtrl` (`spawned_item_ctrl.dfy`) is one spawned item:
  - its speed;
  - its halt flag;
  - the guarded loss;
  - scoring on despawn;
  - the lifetime rule that spares inert waste.
- `Preparation.PreparationPanel` (`preparation.dfy`) covers the preparation phase:
  - the new-level introduction;
  - the anchor-count gate;
  - the "Ready..."/"Start!" countdown, which starts play once per enabling.
- `Settings.SettingsManager` (`settings.dfy`) is the high-score store. `AddHighscore` is
  a loop over the stored list, proved equal to the pure `OfferScore`. `OfferScore` is
  proved to keep the best entries in non-increasing order, at most ten of them.
- `MainMenu.MainMenuPanel.DisplayHighscore` (`main_menu.dfy`) builds the high-score
  text. Its loop is proved equal to `HighscoreText`, and that text is proved to parse
  back to the list. `DecimalText` (`decimal_text.dfy`) gives the decimal rendering of a
  number and its inverse.
- `Utility` (`utility.dfy`) has the clamping `Remap` (real and int), `IsWithinLimits`,
  and the in-place `Shuffle`, which is proved to permute its array.

Modelling conventions:

- **References instead of singletons.** The engine singletons (`GameManager.Instance`,
  `SettingsManager.Instance`) become references held by the objects that use them.
- **Inputs.** The tracked AR anchors reach the model as a sequence or a count passed to
  the events that use them.
- **Coroutines.** Each coroutine becomes a phase field and an "…Elapsed" event method
  that runs the code after the coroutine's wait.
- **Numbers.** Scores (`long`) are unbounded integers. Float formulas are computed over
  exact reals, and a float-to-int cast is written out as truncation toward zero.
- **Randomness.** The draws of `Shuffle` are a parameter.
- **Persistence.** Persistence is a `saveCount` counter. The saved file is a
  `SavedFile` value: missing, unreadable or readable with a list.

A score equal to the tenth entry of a full list is admitted and saved. The rejection test
at Assets/Scripts/Common/SettingsManager.cs:79 is a strict `>`, and `Settings.AdmissionRule`
states the rule.

## Model

| member | source | states |
|---|---|---|
| SpawnedItems.NewSpawnedItem | Assets/Scripts/ScriptableObjects/SpawnedItem.cs:22-29 | a new catalog entry keeps its prefab and kind and has minimum level 1; `GameRules.DefaultEntryAlwaysAvailable` states that such an entry is always in the pool |
| Utility.Clamp | Assets/Scripts/Common/UtilityExtensions.cs:21 | the clamped value lies in [lo, hi] and equals the input when the input already lies there |
| Utility.Truncate | Assets/Scripts/Common/UtilityExtensions.cs:26 | the float-to-int cast truncates toward zero: n <= x < n + 1 for x >= 0, n - 1 < x <= n below 0 |
| Utility.Remap | Assets/Scripts/Common/UtilityExtensions.cs:19-22 | the result always lies between min(from2, to2) and max(from2, to2) |
| Utility.RemapInt | Assets/Scripts/Common/UtilityExtensions.cs:24-27 | the integer remap lies within the same bounds after truncation |
| Utility.TruncateWithin | Assets/Scripts/Common/UtilityExtensions.cs:26 | truncating a real between two integers stays between them |
| Utility.RemapIsWithinLimits | Assets/Scripts/Common/UtilityExtensions.cs:19-32 | IsWithinLimits holds of every remapped value for the target bounds, and fails for every value outside them |
| Utility.IsWithinLimits | Assets/Scripts/Common/UtilityExtensions.cs:30-32 | true exactly when min <= value <= max; RemapIsWithinLimits relates it to Remap |
| Utility.RemapEndpoints | Assets/Scripts/Common/UtilityExtensions.cs:20 | with from1 != to1, from1 maps to from2 and to1 maps to to2 |
| Utility.RemapMonotone | Assets/Scripts/Common/UtilityExtensions.cs:20-21 | over an increasing source range the remap is non-decreasing onto an increasing target and non-increasing onto a decreasing one |
| Utility.Swap | Assets/Scripts/Common/UtilityExtensions.cs:254-256 | exchanging positions i and r leaves every other position unchanged |
| Utility.SwapPermutes | Assets/Scripts/Common/UtilityExtensions.cs:254-256 | a swap preserves the multiset of elements |
| Utility.Shuffled | Assets/Scripts/Common/UtilityExtensions.cs:251-258 | the arrangement after k rounds of the swap loop has the input's length |
| Utility.ShuffledPermutes | Assets/Scripts/Common/UtilityExtensions.cs:251-258 | every prefix of the swap loop preserves the multiset of elements |
| Utility.Shuffle | Assets/Scripts/Common/UtilityExtensions.cs:251-258 | with every draw r in 0..i the array ends as the swap loop's arrangement, same length, same multiset |
| Utility.ShuffledLeavesTail | Assets/Scripts/Common/UtilityExtensions.cs:252-256 | positions from k on are untouched by the first k rounds |
| Utility.ShuffleLastNeverStays | Assets/Scripts/Common/UtilityExtensions.cs:253 | with the exclusive engine range, the last element always moves to an earlier position, and distinct inputs never keep their order |
| Utility.ShuffleCanKeepOrder | Assets/Scripts/Common/UtilityExtensions.cs:253 | with the inclusive range, the identity draws are allowed and leave the input in place; the exclusive range forbids them |
| Settings.Insert | Assets/Scripts/Common/SettingsManager.cs:84 | inserting into an ascending list gives an ascending list, one longer, with the same multiset plus the new value |
| Settings.SortAscending | Assets/Scripts/Common/SettingsManager.cs:84 | the sorted list is ascending and a permutation of the input |
| Settings.Reverse | Assets/Scripts/Common/SettingsManager.cs:85 | position i of the result is position n-1-i of the input |
| Settings.ReverseOfAscending | Assets/Scripts/Common/SettingsManager.cs:84-85 | reversal preserves the multiset and turns an ascending list into a non-increasing one |
| Settings.OfferScore | Assets/Scripts/Common/SettingsManager.cs:64-87 | the effect of offering a score as a value (new list, whether saved); its properties are the lemmas that follow |
| Settings.OfferToEmpty | Assets/Scripts/Common/SettingsManager.cs:67-72 | an empty list takes the score as its only entry, with a save |
| Settings.AdmissionRule | Assets/Scripts/Common/SettingsManager.cs:74-79 | a score is admitted iff the list has fewer than ten entries or the score is at least the tenth entry; a rejected score leaves the first ten entries and no save, so a list of exactly ten is unchanged |
| Settings.AdmittedIsDescending | Assets/Scripts/Common/SettingsManager.cs:83-85 | after an admitted score the list is non-increasing |
| Settings.AdmittedLength | Assets/Scripts/Common/SettingsManager.cs:74-83 | after an admitted score the length is at most ten: one more than before below ten, exactly ten from ten on |
| Settings.AdmittedContents | Assets/Scripts/Common/SettingsManager.cs:74-83 | an admitted score leaves a prefix of the old list (trailing entries removed only while full) plus the new score, as a multiset |
| Settings.OfferKeepsBest | Assets/Scripts/Common/SettingsManager.cs:64-87 | on a non-increasing list of at most ten, the result is non-increasing, of the right length, drawn from the old entries and the score, and every dropped value is no larger than every kept one |
| Settings.RejectedKeepsBest | Assets/Scripts/Common/SettingsManager.cs:79 | a rejected score is below every entry of the full list it was refused by |
| Settings.PlayerData.constructor | Assets/Scripts/Common/SettingsManager.cs:158-161 | new player data has an empty high-score list |
| Settings.SettingsManager.constructor | Assets/Scripts/Common/SettingsManager.cs:39-43 | after construction the player data is set: the loaded list, or an empty list with one save when the file is missing or unreadable |
| Settings.SettingsManager.Save | Assets/Scripts/Common/SettingsManager.cs:92-104 | a save counts once and installs empty player data when there was none |
| Settings.SettingsManager.LoadSavedPlayerData | Assets/Scripts/Common/SettingsManager.cs:110-135 | a missing file gives no data, a readable one its list, an unreadable one overwrites the file and returns the current data |
| Settings.SettingsManager.GetHighscores | Assets/Scripts/Common/SettingsManager.cs:55-58 | returns the stored list |
| Settings.SettingsManager.AddHighscore | Assets/Scripts/Common/SettingsManager.cs:64-87 | the removal loop, add, sort and reverse leave the list OfferScore gives, and the store is saved exactly when the score was admitted |
| MainMenu.JoinScores | Assets/Scripts/MonoBehaviors/UI/MainMenuPanel.cs:20-25 | the scores' texts joined by "\r\n", in list order; SplitJoined and SeparatorCount state its shape |
| MainMenu.HighscoreText | Assets/Scripts/MonoBehaviors/UI/MainMenuPanel.cs:15-27 | the dash placeholder for an empty list, the joined scores otherwise; HighscoreTextRoundTrip states that it reads back as the list |
| MainMenu.MainMenuPanel.constructor | Assets/Scripts/MonoBehaviors/UI/MainMenuPanel.cs:11 | a new panel reads the given store and shows empty text |
| DecimalText.DecimalString | Assets/Scripts/MonoBehaviors/UI/MainMenuPanel.cs:23 | a number's text is digits with a leading '-' exactly for negatives, and ends in a digit |
| DecimalText.DecimalRoundTrip | Assets/Scripts/MonoBehaviors/UI/MainMenuPanel.cs:23 | parsing a number's text gives the number back |
| MainMenu.HighscoreTextRoundTrip | Assets/Scripts/MonoBehaviors/UI/MainMenuPanel.cs:15-27 | the dash placeholder appears exactly for the empty list, and the text reads back as the list itself, scores in list order |
| MainMenu.SplitJoined | Assets/Scripts/MonoBehaviors/UI/MainMenuPanel.cs:21-24 | splitting the joined text at "\r\n" gives each score's text, in list order |
| MainMenu.SeparatorCount | Assets/Scripts/MonoBehaviors/UI/MainMenuPanel.cs:23-24 | the joined text holds exactly count - 1 separators and ends in a digit, so there is no trailing separator |
| MainMenu.JoinStartsWithNumber | Assets/Scripts/MonoBehaviors/UI/MainMenuPanel.cs:23 | the joined text starts with a score, never with a separator |
| MainMenu.MainMenuPanel.DisplayHighscore | Assets/Scripts/MonoBehaviors/UI/MainMenuPanel.cs:13-29 | the loop leaves the text HighscoreText gives for the stored list, and the store is not modified |
| GameRules.Points | Assets/Scripts/MonoBehaviors/GameManager.cs:294-317 | every kind scores at most 3 points, and only inert waste scores 0 |
| GameRules.TotalPoints | Assets/Scripts/MonoBehaviors/GameManager.cs:318 | the score earned by a sequence of cleared items, at most 3 points per item |
| GameRules.TotalPointsAppend | Assets/Scripts/MonoBehaviors/GameManager.cs:318 | clearing one more item adds its points, so the score never decreases |
| GameRules.ScoreThreshold | Assets/Scripts/MonoBehaviors/GameManager.cs:204 | the threshold formula over exact reals, truncated; ThresholdClosedForm gives its value |
| GameRules.ThresholdClosedForm | Assets/Scripts/MonoBehaviors/GameManager.cs:202-205 | in exact arithmetic the threshold is score + level * (4n + 1), strictly above the score for a positive level and anchor count |
| GameRules.RaiseRequirement | Assets/Scripts/MonoBehaviors/GameManager.cs:326-332 | the schedule is unchanged exactly before the scheduled level; otherwise requirement and factor grow together by one |
| GameRules.InitialScheduleHolds | Assets/Scripts/MonoBehaviors/GameManager.cs:179-184 | the reset counters (factor 2, one anchor, next step at level 3) satisfy the schedule invariant at level 1 |
| GameRules.RaisePreservesSchedule | Assets/Scripts/MonoBehaviors/GameManager.cs:326-332 | one level up keeps the invariant; factor and requirement grow together by one exactly at the scheduled level |
| GameRules.ScheduleMatchesLevel | Assets/Scripts/MonoBehaviors/GameManager.cs:326-332 | under the invariant the anchor requirement is a function of the level alone |
| GameRules.RequirementStepsAt | Assets/Scripts/MonoBehaviors/GameManager.cs:326-332 | the requirement reaches f anchors exactly at level 1 + 2 + ... + f (levels 3, 6, 10, 15, ...) |
| GameRules.SpawnPool | Assets/Scripts/MonoBehaviors/GameManager.cs:255-263 | the eligible prefabs in catalog order, never more than the catalog holds |
| GameRules.SpawnPoolMembership | Assets/Scripts/MonoBehaviors/GameManager.cs:255-263 | a prefab is in the pool iff some catalog entry with it has minimum level at most the level |
| GameRules.DefaultEntryAlwaysAvailable | Assets/Scripts/MonoBehaviors/GameManager.cs:258-260 | an entry made by `NewSpawnedItem` (minimum level 1) is in the pool from level 1 on |
| GameRules.SpawnPoolGrows | Assets/Scripts/MonoBehaviors/GameManager.cs:255-263 | the pool at a level is a subsequence of the pool at any higher level |
| GameRules.PlacedCount | Assets/Scripts/MonoBehaviors/GameManager.cs:268-278 | the spawners placed number min(anchors, required), never more than either |
| GameRules.SpawnWaitCeiling | Assets/Scripts/MonoBehaviors/GameManager.cs:158-159 | the spawn-wait ceiling lies between 1 and 5 seconds |
| GameRules.SpawnWaitCurve | Assets/Scripts/MonoBehaviors/GameManager.cs:158-159 | the ceiling is 5 seconds at level 1 and 1 second from level 10 on, and never grows with the level |
| Progression.PanelFor | Assets/Scripts/MonoBehaviors/UIManager.cs:100-114 | the panel of each phase |
| Progression.PanelForDistinct | Assets/Scripts/MonoBehaviors/UIManager.cs:100-114 | different phases show different panels |
| Progression.Placements | Assets/Scripts/MonoBehaviors/GameManager.cs:268-278 | one spawner on each of the first min(anchors, required) anchors, in anchor order |
| Progression.UIManager.constructor | Assets/Scripts/MonoBehaviors/UIManager.cs:75-84 | initialisation fails exactly on a repeated panel name; otherwise the catalog holds every panel and only the main menu is active |
| Progression.UIManager.SetPanelActive | Assets/Scripts/MonoBehaviors/UIManager.cs:37-43 | every panel is active iff its name is the target, the names are unchanged, at most one is active, none when the target is unknown |
| Progression.UIManager.OnGameStateChanged | Assets/Scripts/MonoBehaviors/UIManager.cs:97-115 | the sole active panel is the one of the new state |
| Progression.UIManager.StartGame | Assets/Scripts/MonoBehaviors/UIManager.cs:48-52 | enters preparation and shows its panel, touching only the state |
| Progression.UIManager.ReturnToMenu | Assets/Scripts/MonoBehaviors/UIManager.cs:57-61 | the game data is reset and the menu is shown |
| Progression.UIManager.RestartGame | Assets/Scripts/MonoBehaviors/UIManager.cs:66-70 | the game data is reset and preparation is shown |
| Progression.GameManager.constructor | Assets/Scripts/MonoBehaviors/GameManager.cs:222-228 | a new controller is in the menu at level 1 with the default schedule, score 0 and no live objects |
| Progression.GameManager.SetCurrentState | Assets/Scripts/MonoBehaviors/GameManager.cs:58-66 | the state is recorded and the UI shows its panel alone |
| Progression.GameManager.StartGame | Assets/Scripts/MonoBehaviors/GameManager.cs:153-161 | fills the pool, places the spawners, sets the threshold and the spawn-wait ceiling, and ends in play |
| Progression.GameManager.ProceedToNextLevel | Assets/Scripts/MonoBehaviors/GameManager.cs:166-172 | one level up, live objects cleared, the schedule advanced with its invariant kept, back to preparation; score, threshold, pool and spawn-wait ceiling are outside its frame |
| Progression.GameManager.ResetGame | Assets/Scripts/MonoBehaviors/GameManager.cs:177-186 | level 1, score 0, threshold 0, factor 2, next step 3, one anchor, empty pool; state, live objects and spawn-wait ceiling are outside its frame |
| Progression.GameManager.LoseGame | Assets/Scripts/MonoBehaviors/GameManager.cs:191-196 | clears the live objects, offers the unchanged score to the store, and ends in Results; its frame leaves every other field of the controller alone |
| Progression.GameManager.UpdateScoreThreshold | Assets/Scripts/MonoBehaviors/GameManager.cs:202-205 | the threshold becomes ScoreThreshold of the score, level and requirement |
| Progression.GameManager.UpdateSpawnPool | Assets/Scripts/MonoBehaviors/GameManager.cs:255-263 | the loop leaves the pool SpawnPool defines: the eligible prefabs in catalog order |
| Progression.GameManager.UpdateSpawnAnchors | Assets/Scripts/MonoBehaviors/GameManager.cs:268-278 | the loop with its early exit adds exactly the Placements spawners |
| Progression.GameManager.ClearInGameObjects | Assets/Scripts/MonoBehaviors/GameManager.cs:283-289 | no live object remains |
| Progression.GameManager.AddScore | Assets/Scripts/MonoBehaviors/GameManager.cs:294-321 | the score grows by the kind's points; reaching the threshold advances the level exactly once, otherwise level, state and live objects are unchanged; the invariant is kept; threshold, pool and spawn-wait ceiling are outside its frame |
| Progression.GameManager.UpdateNumAnchorsRequired | Assets/Scripts/MonoBehaviors/GameManager.cs:326-332 | the counters follow RaiseRequirement: unchanged before the scheduled level, otherwise factor and requirement up by one and the next step at level + new factor |
| ItemControl.ItemMoveSpeed | Assets/Scripts/MonoBehaviors/SpawnedItems/SpawnedItemCtrl.cs:61-62 | the item speed lies in [0.1, 1] |
| ItemControl.ItemMoveSpeedCurve | Assets/Scripts/MonoBehaviors/SpawnedItems/SpawnedItemCtrl.cs:61-62 | the speed is 0.1 at level 1 and 1 from level 8 on, and never falls as the level rises |
| ItemControl.ExpiryLoses | Assets/Scripts/MonoBehaviors/SpawnedItems/SpawnedItemCtrl.cs:116 | expiry loses the match for every kind except inert waste |
| ItemControl.MatchEnded | Assets/Scripts/MonoBehaviors/GameManager.cs:191-196 | the state a loss leaves: Results shown alone, objects cleared, the score offered once with a save if admitted |
| ItemControl.SpawnedItemCtrl.constructor | Assets/Scripts/MonoBehaviors/SpawnedItems/SpawnedItemCtrl.cs:27-42 | a new item moves at speed 1, is not halted, has not moved and is not yet aimed (zero direction) |
| ItemControl.SpawnedItemCtrl.Start | Assets/Scripts/MonoBehaviors/SpawnedItems/SpawnedItemCtrl.cs:53-66 | with a model of its kind the item is aimed at the player, takes the level's speed and starts its lifetime; without one the start-up stops before any of these |
| ItemControl.SpawnedItemCtrl.Update | Assets/Scripts/MonoBehaviors/SpawnedItems/SpawnedItemCtrl.cs:71-78 | a halted item, or one whose start-up never aimed it at the player (zero direction), does not move; otherwise it moves speed * dt |
| ItemControl.SpawnedItemCtrl.SetMoving | Assets/Scripts/MonoBehaviors/SpawnedItems/SpawnedItemCtrl.cs:124-127 | halted becomes the negation of the argument |
| ItemControl.SpawnedItemCtrl.LoseGame | Assets/Scripts/MonoBehaviors/SpawnedItems/SpawnedItemCtrl.cs:104-107 | a loss in Results changes nothing; otherwise MatchEnded: the match ends and the score is offered once; score, level, schedule, threshold and pool are outside its frame |
| ItemControl.SpawnedItemCtrl.OnTriggerEnter | Assets/Scripts/MonoBehaviors/SpawnedItems/SpawnedItemCtrl.cs:84-90 | contact with the player outside Results gives MatchEnded; any other contact, or contact in Results, changes nothing |
| ItemControl.SpawnedItemCtrl.Despawn | Assets/Scripts/MonoBehaviors/SpawnedItems/SpawnedItemCtrl.cs:95-99 | the item's own kind is scored exactly once and the item is removed; reaching the threshold advances the level once, otherwise level, state, live objects and schedule are unchanged |
| ItemControl.SpawnedItemCtrl.LifetimeElapsed | Assets/Scripts/MonoBehaviors/SpawnedItems/SpawnedItemCtrl.cs:113-118 | expiry of a running non-inert item outside Results gives MatchEnded; inert waste, a stopped timer or an ended match change nothing |
| Preparation.PreparationPanel.constructor | Assets/Scripts/MonoBehaviors/UI/PreparationPanel.cs:41-53 | a new panel has no latched gate, no introduction and no countdown |
| Preparation.PreparationPanel.OnEnable | Assets/Scripts/MonoBehaviors/UI/PreparationPanel.cs:58-71 | the gate, bar and countdown are cleared; the introduction shows, with the level and requirement texts, iff the level is above 1 |
| Preparation.PreparationPanel.Update | Assets/Scripts/MonoBehaviors/UI/PreparationPanel.cs:76-91 | nothing changes during the introduction or once latched; otherwise the bar shows iff anchors < required and the gate latches and the countdown starts iff anchors >= required |
| Preparation.PreparationPanel.ReadyWaitElapsed | Assets/Scripts/MonoBehaviors/UI/PreparationPanel.cs:99-101 | after "Ready..." the countdown shows "Start!" |
| Preparation.PreparationPanel.StartWaitElapsed | Assets/Scripts/MonoBehaviors/UI/PreparationPanel.cs:102-103 | after "Start!" play starts on the anchors, at most once per enabling, with pool, placements, threshold and spawn-wait ceiling computed from the level and requirement before the call, the InPlay panel alone active, `Valid` kept, and level, score and schedule outside the frame |
| Preparation.PreparationPanel.LevelIntroElapsed | Assets/Scripts/MonoBehaviors/UI/PreparationPanel.cs:115-117 | the introduction ends, reopening the anchor gate |

## Left out

- AR session and platform I/O are not part of this model (ARManager.cs, camera, toasts, quitting). Anchors arrive as inputs.
- The item spawner is not part of this model. That covers its random waits, its random pool index, instantiating items, and the random choice of an item's mesh and rotation axis.
- Persistence is not modelled: the binary formatter, JSON and file paths. A save is a counter and a load outcome is a `SavedFile` value.
- `SettingsManager.Instance.Save()` is modelled as a save of the same store; a second store instance is not modelled.
- Coroutine timing is not modelled. Each wait is an "…Elapsed" event. Hiding a panel stops its routines, and `OnEnable` resets their phases.
- Per-frame translation along a direction vector and mesh rotation are not modelled. `SpawnedItemCtrl.Update` records only the distance travelled.
- The `OnScoreUpdated` event has no subscriber in the core and is left out. `OnGameStateChanged` is a direct call to the UI manager.
- Destroying the children of the in-game root is modelled as emptying `liveObjects`. The live objects record only the placed spawners. Items that spawners create are separate `SpawnedItemCtrl` objects, and their destruction on level change or loss is not modelled. In the source every item is a child of the in-game root and dies with it on either event. In the model an item left over from an earlier level or a lost match can still deliver `LifetimeElapsed`, `OnTriggerEnter` or `Despawn` after `ProceedToNextLevel`, `RestartGame` or `ReturnToMenu`, and so score in, or end, a match it did not belong to.
- The `GameManager.Instance != null` check in `PreparationPanel.OnEnable` is not modelled: the panel holds a reference that is never null.
- Scores are unbounded integers; the 64-bit overflow of `long` is not modelled.
- Progression.GameManager.UpdateScoreThreshold: single-precision rounding of the 0.8 factor is not modelled. The threshold is computed over exact reals and truncated.
- Utility.Remap: computed over exact reals. It requires from1 != to1, because the source would divide by zero in floating point, which yields infinities or NaN.
- Utility.RemapInt: the intermediate float value is exact in the model. Like Remap it requires from1 != to1, because the int overload also divides by a float zero there.
- The iteration order of the UI panel dictionary is not modelled. `SetPanelActive` visits the keys in an arbitrary order, and its result does not depend on the order.
- `Vector3` helpers, colour conversion, `DeepClone`, `WaitForRealSeconds` and `FindGameObjects*` in UtilityExtensions.cs are not part of this model. InPlayPanel.cs, ResultsPanel.cs, LeanFingerPinch.cs and GlobalAttributes.cs are not part of this model either.

## Findings

| source | as written | input that shows it | evidently intended | confidence | as-written member | corrected member |
|---|---|---|---|---|---|---|
| Assets/Scripts/Common/UtilityExtensions.cs:253 | the swap partner is drawn with the integer `Random.Range(0, i)`, whose upper bound is exclusive, so every round i >= 1 moves element i to an earlier position | any array of two or more distinct elements: the last round always moves the last element to an earlier index, so the original order is never produced (a cyclic, Sattolo-style shuffle rather than a uniform one) | `Random.Range(0, i + 1)`, the Fisher–Yates range, under which every arrangement, the original one included, can be drawn | medium, not executed | Utility.ShuffleLastNeverStays | Utility.ShuffleCanKeepOrder |
