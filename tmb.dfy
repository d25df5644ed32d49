/** Activity factors and Total Daily Energy Expenditure (src/utils/activityMultipliers.ts). */
module ActivityMultipliers {
  import opened Types

  /** Position of a level from sedentary (0) to very active (4). */
  function Rank(level: ActivityLevel): nat {
    match level
    case Sedentary => 0
    case Light => 1
    case Moderate => 2
    case Active => 3
    case VeryActive => 4
  }

  function Multiplier(level: ActivityLevel): (m: real)
    ensures 1.2 <= m <= 1.9
  {
    match level
    case Sedentary => 1.2
    case Light => 1.375
    case Moderate => 1.55
    case Active => 1.725
    case VeryActive => 1.9
  }

  /** A more active level has a strictly larger factor. */
  lemma MultiplierIncreasing(a: ActivityLevel, b: ActivityLevel)
    requires Rank(a) < Rank(b)
    ensures Multiplier(a) < Multiplier(b)
  {
  }

  function CalculateTdee(bmr: real, level: ActivityLevel): real {
    bmr * Multiplier(level)
  }

  /** For a positive BMR the expenditure exceeds it, and grows with the activity level. */
  lemma TdeeAboveBmr(bmr: real, a: ActivityLevel, b: ActivityLevel)
    requires bmr > 0.0
    ensures CalculateTdee(bmr, a) > bmr
    ensures Rank(a) <= Rank(b) ==> CalculateTdee(bmr, a) <= CalculateTdee(bmr, b)
  {
    var ma, mb := Multiplier(a), Multiplier(b);
    assert bmr * ma >= bmr * 1.2;
    if Rank(a) < Rank(b) {
      MultiplierIncreasing(a, b);
      assert bmr * ma < bmr * mb;
    } else if Rank(a) == Rank(b) {
      assert a == b;
    }
  }
}

/** Mifflin–St Jeor basal metabolic rate and the daily expenditure the app calls TMB
    (src/utils/calculateTMB.ts). */
module TmbCalculator {
  import opened Types
  import opened ActivityMultipliers

  function CalculateBmr(p: Profile): real {
    var base := 10.0 * p.weight + 6.25 * p.height - 5.0 * p.age as real;
    if p.gender == Male then base + 5.0 else base - 161.0
  }

  /** At equal weight, height and age a man's BMR is 166 kcal above a woman's. */
  lemma BmrGenderGap(p: Profile)
    ensures CalculateBmr(p.(gender := Male)) - CalculateBmr(p.(gender := Female)) == 166.0
  {
  }

  /** BMR rises with weight and height and falls with age, the other inputs fixed. */
  lemma BmrMonotone(p: Profile, q: Profile)
    requires p.gender == q.gender
    requires p.weight <= q.weight && p.height <= q.height && p.age >= q.age
    ensures CalculateBmr(p) <= CalculateBmr(q)
    ensures (p.weight < q.weight || p.height < q.height || p.age > q.age) ==> CalculateBmr(p) < CalculateBmr(q)
  {
  }

  function CalculateTmb(p: Profile): real {
    CalculateTdee(CalculateBmr(p), p.activityLevel)
  }

  /** The daily expenditure is BMR scaled by the profile's activity factor, and exceeds a
      positive BMR. */
  lemma TmbScalesBmr(p: Profile)
    ensures CalculateTmb(p) == CalculateBmr(p) * Multiplier(p.activityLevel)
    ensures CalculateBmr(p) > 0.0 ==> CalculateTmb(p) > CalculateBmr(p)
  {
    if CalculateBmr(p) > 0.0 {
      TdeeAboveBmr(CalculateBmr(p), p.activityLevel, p.activityLevel);
    }
  }

  /** A profile with zero weight, height and age, male and moderately active, gets 7.75. */
  lemma TmbOfEmptyProfile(p: Profile)
    requires p.weight == 0.0 && p.height == 0.0 && p.age == 0
    requires p.gender == Male && p.activityLevel == Moderate
    ensures CalculateTmb(p) == 7.75
  {
  }
}
