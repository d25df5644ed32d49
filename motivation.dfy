/** Motivational milestones and the fat and calorie figures shown while fasting
    (src/hooks/useMetabolicMotivation.ts). `tmb` is the profile's daily expenditure in
    kcal, 0 when there is no profile; display rounding is not modelled. */
module Motivation {
  import opened Wrappers
  import opened Types
  import opened MetabolicPhases
  import opened FastingTimer

  datatype Milestone = Milestone(hours: int, message: string, phase: string)

  const Milestones: seq<Milestone> := [
    Milestone(0, "Digestion Phase: Enjoy the energy from your last meal.", "Anabolic"),
    Milestone(4, "Insulin Normalizing: Your body is preparing for metabolic transition.", "Catabolic"),
    Milestone(8, "Glycogen in Use: Energy reserves being mobilized.", "Catabolic"),
    Milestone(12, "Low Insulin: The door to fat burning has opened.", "Catabolic"),
    Milestone(16, "Peak Focus: BDNF (Brain Derived Neurotrophic Factor) increasing.", "Fat Burning"),
    Milestone(18, "Autophagy Activated: Cellular cleanup in progress.", "Fat Burning"),
    Milestone(20, "Intensified Fat Burning: Metabolism optimized.", "Fat Burning"),
    Milestone(24, "Ketosis Established: Maximum fat burning efficiency.", "Ketosis"),
    Milestone(36, "Deep Autophagy: Cellular regeneration at peak.", "Ketosis"),
    Milestone(48, "Elevated Growth Hormone: Accelerated recovery and repair.", "Ketosis"),
    Milestone(72, "Advanced Fasting State: Metabolic benefits maximized.", "Ketosis"),
    Milestone(96, "Mental Resilience: Clarity and focus at elevated levels.", "Ketosis"),
    Milestone(120, "Prolonged Fast: Complete metabolic transformation.", "Ketosis")
  ]

  /** The milestones start at hour 0 and their hours strictly increase. */
  lemma MilestonesIncreasing()
    ensures Milestones[0].hours == 0
    ensures forall i, j :: 0 <= i < j < |Milestones| ==> Milestones[i].hours < Milestones[j].hours
  {
  }

  /** Each milestone's phase label names the metabolic phase its hour falls in. */
  lemma MilestonePhasesAgree()
    ensures forall i :: 0 <= i < |Milestones| ==>
      GetCurrentPhase(Milestones[i].hours as real).name == Milestones[i].phase
  {
    forall i | 0 <= i < |Milestones|
      ensures GetCurrentPhase(Milestones[i].hours as real).name == Milestones[i].phase
    {
      var h := Milestones[i].hours as real;
      CurrentPhaseUnique(h, Cover(h));
    }
  }

  /** `currentMessage`: scanning from the last milestone down, the first one whose hour
      has been reached, or the first milestone when none has. */
  method CurrentMessage(secondsFasted: int) returns (m: Milestone)
    ensures m in Milestones
    ensures var h := secondsFasted as real / 3600.0;
      && (h >= 0.0 ==> m.hours as real <= h)
      && (h < 0.0 ==> m == Milestones[0])
      && (forall j :: 0 <= j < |Milestones| && Milestones[j].hours as real <= h ==> Milestones[j].hours <= m.hours)
  {
    var hoursFasted := secondsFasted as real / 3600.0;
    m := Milestones[0];
    var i := |Milestones| - 1;
    while i >= 0
      invariant -1 <= i < |Milestones|
      invariant forall j :: i < j < |Milestones| ==> Milestones[j].hours as real > hoursFasted
      invariant m == Milestones[0]
    {
      if hoursFasted >= Milestones[i].hours as real {
        m := Milestones[i];
        MilestonesIncreasing();
        return;
      }
      i := i - 1;
    }
  }

  /** `fatBurnedInGrams` before rounding: nothing without an expenditure or elapsed time. */
  function FatBurnedGrams(tmb: real, seconds: int): real {
    if tmb == 0.0 || seconds <= 0 then 0.0
    else tmb / 86400.0 * seconds as real * (1000.0 / 7700.0)
  }

  /** `caloriesBurned` before rounding. */
  function CaloriesBurned(tmb: real, seconds: int): real {
    if tmb == 0.0 || seconds <= 0 then 0.0
    else tmb / 86400.0 * seconds as real
  }

  /** The grams of fat shown are the timer's weight loss in grams, and the calories burned
      at 7700 kcal per kilogram. */
  lemma FatMatchesWeightLoss(tmb: real, seconds: int)
    ensures FatBurnedGrams(tmb, seconds) == if seconds > 0 then 1000.0 * WeightLoss(seconds, tmb) else 0.0
    ensures FatBurnedGrams(tmb, seconds) == CaloriesBurned(tmb, seconds) * 1000.0 / 7700.0
  {
    WeightLossLinear(seconds, 0, tmb);
  }

  /** The target in hours when it is set and positive. */
  predicate HasTarget(target: Option<int>) {
    NonZero(target) && target.value > 0
  }

  /** `projectedFinalWeightLoss` before rounding. */
  function ProjectedLoss(tmb: real, target: Option<int>): real {
    if tmb == 0.0 || !HasTarget(target) then 0.0
    else tmb / 86400.0 * (target.value * 3600) as real * (1.0 / 7700.0)
  }

  /** `projectedCalories` before rounding. */
  function ProjectedCalories(tmb: real, target: Option<int>): real {
    if tmb == 0.0 || !HasTarget(target) then 0.0
    else tmb / 86400.0 * (target.value * 3600) as real
  }

  /** The projection is the loss the timer shows once the target is reached, that is a
      twenty-fourth of a day's expenditure per target hour, at 7700 kcal per kilogram. */
  lemma ProjectionMatchesTimer(tmb: real, target: Option<int>)
    ensures HasTarget(target) ==> ProjectedLoss(tmb, target) == WeightLoss(TargetSeconds(target), tmb)
    ensures HasTarget(target) ==> ProjectedLoss(tmb, target) == tmb * target.value as real / 24.0 / 7700.0
    ensures ProjectedLoss(tmb, target) == ProjectedCalories(tmb, target) / 7700.0
  {
    if HasTarget(target) {
      WeightLossLinear(TargetSeconds(target), 0, tmb);
    }
  }
}
