/** The formulas of the progression controller: the point table, the score
    threshold, the anchor-requirement schedule, the spawn pool filter and the
    spawn-wait curve. The controller's state changes live in module Progression. */
module GameRules {
  import opened SpawnedItems
  import Utility

  /** The phases of a match. */
  datatype AppState = Menu | Preparation | InPlay | Results

  /** Identity of a tracked plane that a spawner can be placed on. */
  type Anchor = nat

  /** An object created during a match under the in-game root. */
  datatype LiveObject = ItemSpawnerAt(anchor: Anchor)

  const MinSpawnWait: real := 1.0
  const MaxSpawnWait: real := 5.0
  const MaxSpawnWaitLvl: int := 10

  const MinItemMoveSpeed: real := 0.1
  const MaxItemMoveSpeed: real := 1.0
  const MaxSpeedLevel: int := 8

  const BaseScoreThreshold: int := 5
  const DefaultNumAnchorsRequired: int := 1
  const DefaultAnchorIncFactor: int := 2

  // ---------------------------------------------------------------------------
  // Scoring

  /** Points for clearing an item of the given kind. */
  function Points(t: SpawnType): (p: nat)
    ensures p <= 3
    ensures p == 0 <==> t == InertWaste
  {
    match t
    case PlasticWaste => 1
    case OrganicWaste => 1
    case MetalWaste => 1
    case ElectronicWaste => 1
    case HazardousWaste => 2
    case Animal => 3
    case InertWaste => 0
  }

  /** Points of a sequence of cleared items. */
  function TotalPoints(ts: seq<SpawnType>): (total: nat)
    ensures total <= 3 * |ts|
  {
    if ts == [] then 0 else Points(ts[0]) + TotalPoints(ts[1..])
  }

  /** Clearing one more item adds exactly its points, so the total never decreases. */
  lemma {:induction false} TotalPointsAppend(ts: seq<SpawnType>, t: SpawnType)
    ensures TotalPoints(ts + [t]) == TotalPoints(ts) + Points(t)
    ensures TotalPoints(ts) <= TotalPoints(ts + [t])
  {
    if ts != [] {
      assert (ts + [t])[1..] == ts[1..] + [t];
      TotalPointsAppend(ts[1..], t);
    }
  }

  /** The score at which the level is passed: the current score plus the base threshold
      times the level, scaled by one for the first anchor and 0.8 for every further
      anchor, truncated to an integer. Computed over exact reals. */
  function ScoreThreshold(score: int, level: int, numAnchorsRequired: int): int
  {
    score + Utility.Truncate((BaseScoreThreshold * level) as real * ((numAnchorsRequired - 1) as real * 0.8 + 1.0))
  }

  /** In exact arithmetic the threshold is the score plus level * (4n + 1), so with a
      positive level and anchor count it lies strictly above the score. */
  lemma ThresholdClosedForm(score: int, level: int, numAnchorsRequired: int)
    ensures ScoreThreshold(score, level, numAnchorsRequired) == score + level * (4 * numAnchorsRequired + 1)
    ensures level >= 1 && numAnchorsRequired >= 1 ==> ScoreThreshold(score, level, numAnchorsRequired) > score
  {
    var n := numAnchorsRequired;
    var x := (BaseScoreThreshold * level) as real * ((n - 1) as real * 0.8 + 1.0);
    assert x == (level * (4 * n + 1)) as real by {
      assert (n - 1) as real * 0.8 + 1.0 == ((4 * n + 1) as real) / 5.0;
    }
    if level >= 1 && n >= 1 {
      assert level * (4 * n + 1) >= 1 * (4 * n + 1);
    }
  }

  // ---------------------------------------------------------------------------
  // Anchor requirement

  /** The anchor-requirement counters: the increment factor, the number of anchors
      required, and the level at which the requirement next grows. */
  datatype AnchorSchedule = AnchorSchedule(incFactor: int, required: int, nextIncLevel: int)

  const InitialSchedule: AnchorSchedule :=
    AnchorSchedule(DefaultAnchorIncFactor, DefaultNumAnchorsRequired, 1 + DefaultAnchorIncFactor)

  /** The requirement update at a level: nothing before the scheduled level; from it on,
      the factor and the requirement grow by one and the next level is the current
      level plus the new factor. */
  function RaiseRequirement(level: int, s: AnchorSchedule): (r: AnchorSchedule)
    ensures r.required - s.required == r.incFactor - s.incFactor
    ensures r.required == s.required || r.required == s.required + 1
    ensures level < s.nextIncLevel <==> r == s
  {
    if level < s.nextIncLevel then s
    else AnchorSchedule(s.incFactor + 1, s.required + 1, level + s.incFactor + 1)
  }

  /** 1 + 2 + ... + f: the level at which the requirement reaches f anchors. */
  function StepLevel(f: nat): nat
  {
    if f == 0 then 0 else StepLevel(f - 1) + f
  }

  /** What holds between matches and level changes: the requirement is one less than
      the factor, the next step is at StepLevel(factor), and the level lies between the
      previous step and the next one. */
  predicate ScheduleInvariant(level: int, s: AnchorSchedule)
  {
    && s.incFactor >= DefaultAnchorIncFactor
    && s.required == s.incFactor - 1
    && s.nextIncLevel == StepLevel(s.incFactor)
    && s.nextIncLevel - s.incFactor <= level < s.nextIncLevel
    && level >= 1
  }

  lemma InitialScheduleHolds()
    ensures ScheduleInvariant(1, InitialSchedule)
  {
  }

  /** Advancing one level keeps the invariant; the requirement grows by exactly one
      when the new level reaches the scheduled level and is unchanged otherwise. */
  lemma RaisePreservesSchedule(level: int, s: AnchorSchedule)
    requires ScheduleInvariant(level, s)
    ensures ScheduleInvariant(level + 1, RaiseRequirement(level + 1, s))
    ensures RaiseRequirement(level + 1, s).required ==
              s.required + (if level + 1 == s.nextIncLevel then 1 else 0)
    ensures RaiseRequirement(level + 1, s).incFactor - RaiseRequirement(level + 1, s).required ==
              s.incFactor - s.required
  {
    if level + 1 == s.nextIncLevel {
      assert StepLevel(s.incFactor + 1) == s.nextIncLevel + s.incFactor + 1;
    }
  }

  /** Anchors required at a level, counted from first principles: the largest f - 1
      such that StepLevel(f - 1) does not exceed the level, searching from f = 2. */
  function AnchorsRequiredAt(level: int): nat
  {
    RequiredFrom(level, DefaultAnchorIncFactor)
  }

  function RequiredFrom(level: int, f: nat): nat
    requires f >= 1
    decreases level - StepLevel(f)
  {
    if level < StepLevel(f) then f - 1 else RequiredFrom(level, f + 1)
  }

  lemma {:induction false} StepLevelMonotone(f: nat, g: nat)
    requires f <= g
    ensures StepLevel(f) <= StepLevel(g)
    decreases g - f
  {
    if f < g {
      StepLevelMonotone(f, g - 1);
    }
  }

  lemma {:induction false} RequiredFromBelow(level: int, g: nat, f: nat)
    requires 1 <= g <= f && StepLevel(f - 1) <= level < StepLevel(f)
    ensures RequiredFrom(level, g) == f - 1
    decreases f - g
  {
    if g < f {
      StepLevelMonotone(g, f - 1);
      RequiredFromBelow(level, g + 1, f);
    }
  }

  /** Under the invariant the requirement is a function of the level alone. */
  lemma ScheduleMatchesLevel(level: int, s: AnchorSchedule)
    requires ScheduleInvariant(level, s)
    ensures s.required == AnchorsRequiredAt(level)
  {
    RequiredFromBelow(level, DefaultAnchorIncFactor, s.incFactor);
  }

  /** The requirement becomes f anchors exactly at level 1 + 2 + ... + f: it steps up
      at levels 3, 6, 10, 15, ... */
  lemma RequirementStepsAt(f: nat)
    requires f >= DefaultAnchorIncFactor
    ensures AnchorsRequiredAt(StepLevel(f)) == f
    ensures AnchorsRequiredAt(StepLevel(f) - 1) == f - 1
  {
    ScheduleMatchesLevel(StepLevel(f), AnchorSchedule(f + 1, f, StepLevel(f + 1)));
    StepLevelMonotone(1, f - 1);
    ScheduleMatchesLevel(StepLevel(f) - 1, AnchorSchedule(f, f - 1, StepLevel(f)));
  }

  // ---------------------------------------------------------------------------
  // Spawn pool

  /** The prefabs of the catalog entries available at a level, in catalog order. */
  function SpawnPool(catalog: seq<SpawnedItem>, level: int): (pool: seq<Prefab>)
    ensures |pool| <= |catalog|
  {
    if catalog == [] then []
    else
      var last := catalog[|catalog| - 1];
      SpawnPool(catalog[..|catalog| - 1], level) + (if last.minLevel <= level then [last.prefab] else [])
  }

  /** A prefab is in the pool exactly when some catalog entry with that prefab has a
      minimum level no higher than the current level. */
  lemma {:induction false} SpawnPoolMembership(catalog: seq<SpawnedItem>, level: int, p: Prefab)
    ensures p in SpawnPool(catalog, level) <==>
              exists i :: 0 <= i < |catalog| && catalog[i].prefab == p && catalog[i].minLevel <= level
  {
    if catalog != [] {
      var init := catalog[..|catalog| - 1];
      SpawnPoolMembership(init, level, p);
      if exists i :: 0 <= i < |init| && init[i].prefab == p && init[i].minLevel <= level {
        var i :| 0 <= i < |init| && init[i].prefab == p && init[i].minLevel <= level;
        assert catalog[i] == init[i];
      }
      if exists i :: 0 <= i < |catalog| && catalog[i].prefab == p && catalog[i].minLevel <= level {
        var i :| 0 <= i < |catalog| && catalog[i].prefab == p && catalog[i].minLevel <= level;
        if i < |init| {
          assert init[i] == catalog[i];
        }
      }
    }
  }

  /** A catalog entry created with the default minimum level is available from the
      first level on. */
  lemma DefaultEntryAlwaysAvailable(catalog: seq<SpawnedItem>, i: nat, prefab: Prefab, spawnType: SpawnType,
                                    level: int)
    requires i < |catalog| && catalog[i] == NewSpawnedItem(prefab, spawnType) && level >= 1
    ensures prefab in SpawnPool(catalog, level)
  {
    SpawnPoolMembership(catalog, level, prefab);
  }

  /** `a` can be obtained from `b` by deleting elements. */
  predicate IsSubsequence<T(==)>(a: seq<T>, b: seq<T>)
    decreases |b|
  {
    if a == [] then true
    else if b == [] then false
    else if a[|a| - 1] == b[|b| - 1] then IsSubsequence(a[..|a| - 1], b[..|b| - 1])
    else IsSubsequence(a, b[..|b| - 1])
  }

  lemma {:induction false} SubsequenceDropLast<T>(a: seq<T>, b: seq<T>)
    requires |a| > 0 && IsSubsequence(a, b)
    ensures IsSubsequence(a[..|a| - 1], b)
    decreases |b|, 0
  {
    var a' := a[..|a| - 1];
    if a' != [] {
      if a[|a| - 1] == b[|b| - 1] {
        SubsequenceExtend(a', b[..|b| - 1], b[|b| - 1]);
        assert b[..|b| - 1] + [b[|b| - 1]] == b;
      } else {
        SubsequenceDropLast(a, b[..|b| - 1]);
        SubsequenceExtend(a', b[..|b| - 1], b[|b| - 1]);
        assert b[..|b| - 1] + [b[|b| - 1]] == b;
      }
    }
  }

  lemma {:induction false} SubsequenceExtend<T>(a: seq<T>, b: seq<T>, x: T)
    requires IsSubsequence(a, b)
    ensures IsSubsequence(a, b + [x])
    decreases |b|, 1
  {
    var bx := b + [x];
    assert bx[..|bx| - 1] == b;
    if a != [] && a[|a| - 1] == x {
      SubsequenceDropLast(a, b);
    }
  }

  /** The pool only grows with the level: the pool at a level is a subsequence of the
      pool at any higher level. */
  lemma {:induction false} SpawnPoolGrows(catalog: seq<SpawnedItem>, level: int, higher: int)
    requires level <= higher
    ensures IsSubsequence(SpawnPool(catalog, level), SpawnPool(catalog, higher))
  {
    if catalog != [] {
      var init := catalog[..|catalog| - 1];
      var last := catalog[|catalog| - 1];
      var lo := SpawnPool(init, level);
      var hi := SpawnPool(init, higher);
      SpawnPoolGrows(init, level, higher);
      if last.minLevel <= level {
        var a := lo + [last.prefab];
        var b := hi + [last.prefab];
        assert a[..|a| - 1] == lo && b[..|b| - 1] == hi;
      } else if last.minLevel <= higher {
        SubsequenceExtend(lo, hi, last.prefab);
        assert lo + [] == lo;
      } else {
        assert lo + [] == lo && hi + [] == hi;
      }
    }
  }

  // ---------------------------------------------------------------------------
  // Spawners and spawn rate

  /** Spawners placed at the start of a level: one per anchor, in anchor order, up to
      the number of anchors required. */
  function PlacedCount(anchorCount: nat, required: int): (k: nat)
    ensures k <= anchorCount && (required >= 0 ==> k <= required)
    ensures k == anchorCount || k == required || (required < 0 && k == 0)
  {
    if anchorCount < required then anchorCount else if required < 0 then 0 else required
  }

  /** The longest wait between two spawns at a level: interpolated from 5 seconds at
      level 1 down to 1 second at level 10, and 1 second beyond. */
  function SpawnWaitCeiling(level: int): (w: real)
    ensures MinSpawnWait <= w <= MaxSpawnWait
  {
    if level >= MaxSpawnWaitLvl then MinSpawnWait
    else Utility.Remap(level as real, 1.0, MaxSpawnWaitLvl as real, MaxSpawnWait, MinSpawnWait)
  }

  /** The wait ceiling starts at its maximum, ends at its minimum and never grows. */
  lemma SpawnWaitCurve(level: int, higher: int)
    requires level <= higher
    ensures SpawnWaitCeiling(1) == MaxSpawnWait
    ensures higher >= MaxSpawnWaitLvl ==> SpawnWaitCeiling(higher) == MinSpawnWait
    ensures SpawnWaitCeiling(higher) <= SpawnWaitCeiling(level)
  {
    Utility.RemapEndpoints(1.0, MaxSpawnWaitLvl as real, MaxSpawnWait, MinSpawnWait);
    if higher < MaxSpawnWaitLvl {
      Utility.RemapMonotone(level as real, higher as real, 1.0, MaxSpawnWaitLvl as real, MaxSpawnWait, MinSpawnWait);
    }
  }
}
