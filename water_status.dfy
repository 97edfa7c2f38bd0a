/** The `useWaterStatus` hook: classifies an owned plant as needing water,
    upcoming or healthy from the whole days left until its next watering, and
    computes the percentage of the cycle that remains. */
module WaterStatus {
  import opened Common
  import opened Time
  import opened JsNumber
  import opened Schema

  const Orange: string := "bg-[#FF9F43]"
  const Blue: string := "bg-blue-400"
  const Green: string := "bg-[#2ECC71]"

  datatype WaterStatusResult = WaterStatusResult(
    status: PlantStatus, percentRemaining: Number, statusColor: string)

  /** `useWaterStatus(userPlant)` evaluated at the instant `today`. */
  function UseWaterStatus(today: int, p: UserPlant): (r: WaterStatusResult)
    ensures !HasSchedule(p) ==> r == WaterStatusResult(NeedsWater, Finite(0.0), Orange)
    ensures r.statusColor == (match r.status
                              case NeedsWater => Orange
                              case Upcoming => Blue
                              case Healthy => Green)
    ensures HasSchedule(p) ==>
              var next := p.nextWaterDate.value;
              && (r.status == NeedsWater <==> next < today + Day)
              && (r.status == Upcoming <==> today + Day <= next < today + 3 * Day)
              && (r.status == Healthy <==> today + 3 * Day <= next)
  {
    if !HasSchedule(p) then WaterStatusResult(NeedsWater, Finite(0.0), Orange)
    else
      var next := p.nextWaterDate.value;
      var daysUntil := DifferenceInDays(next, today);
      DifferenceAtMost(next, today, 0);
      DifferenceAtMost(next, today, 2);
      var percent := Max(0.0, Scale(100.0, Divide(daysUntil as real, p.wateringFrequency as real)));
      if daysUntil <= 0 then WaterStatusResult(NeedsWater, percent, Orange)
      else if daysUntil <= 2 then WaterStatusResult(Upcoming, percent, Blue)
      else WaterStatusResult(Healthy, percent, Green)
  }

  /** With a positive frequency the percentage is a finite, non-negative
      number; it is 0 exactly when the plant needs water. */
  lemma PercentRemainingMeaning(today: int, p: UserPlant)
    requires HasSchedule(p) && p.wateringFrequency > 0
    ensures var r := UseWaterStatus(today, p);
            && r.percentRemaining.Finite?
            && r.percentRemaining.value >= 0.0
            && (r.percentRemaining.value == 0.0 <==> r.status == NeedsWater)
            && (r.status != NeedsWater ==>
                  r.percentRemaining.value
                  == 100.0 * (DifferenceInDays(p.nextWaterDate.value, today) as real) / (p.wateringFrequency as real))
  {
    var d := DifferenceInDays(p.nextWaterDate.value, today);
    var f := p.wateringFrequency as real;
    if d > 0 {
      assert (d as real) / f > 0.0;
    } else {
      assert (d as real) / f <= 0.0;
    }
  }

  /** The percentage is not capped: more days left than the frequency gives
      more than 100. */
  lemma PercentRemainingUnbounded(today: int, p: UserPlant)
    requires HasSchedule(p) && p.wateringFrequency > 0
    requires DifferenceInDays(p.nextWaterDate.value, today) > p.wateringFrequency
    ensures UseWaterStatus(today, p).percentRemaining.Finite?
    ensures UseWaterStatus(today, p).percentRemaining.value > 100.0
  {
    var d := DifferenceInDays(p.nextWaterDate.value, today) as real;
    var f := p.wateringFrequency as real;
    assert d / f > 1.0;
  }

  /** A plant due exactly one cycle from now has 100% of its cycle left. */
  lemma FullCycleIsHundred(today: int, p: UserPlant)
    requires HasSchedule(p) && p.wateringFrequency > 0
    requires p.nextWaterDate.value == AddDays(today, p.wateringFrequency)
    ensures UseWaterStatus(today, p).percentRemaining == Finite(100.0)
  {
    DifferenceOfAddDays(today, p.wateringFrequency);
    var f := p.wateringFrequency as real;
    assert Divide(f, f) == Finite(1.0);
  }

  /** Once both dates are set, the value of lastWatered is irrelevant. */
  lemma IgnoresLastWateredValue(today: int, p: UserPlant, other: int)
    requires HasSchedule(p)
    ensures UseWaterStatus(today, p) == UseWaterStatus(today, p.(lastWatered := Some(other)))
  {
  }

  /** Order of urgency: needs water < upcoming < healthy. */
  function Urgency(s: PlantStatus): nat {
    match s
    case NeedsWater => 0
    case Upcoming => 1
    case Healthy => 2
  }

  /** Moving the next watering later never makes the status more urgent. */
  lemma StatusMonotonic(today: int, p: UserPlant, later: int)
    requires HasSchedule(p) && p.nextWaterDate.value <= later
    ensures Urgency(UseWaterStatus(today, p).status)
            <= Urgency(UseWaterStatus(today, p.(nextWaterDate := Some(later))).status)
  {
  }

  /** A frequency of 0 divides by zero: NaN on the due day, +Infinity before it. */
  lemma ZeroFrequencyPercent(today: int, p: UserPlant)
    requires HasSchedule(p) && p.wateringFrequency == 0
    ensures var d := DifferenceInDays(p.nextWaterDate.value, today);
            var r := UseWaterStatus(today, p).percentRemaining;
            && (d == 0 ==> r.NaN?)
            && (d > 0 ==> r.PosInfinity?)
            && (d < 0 ==> r == Finite(0.0))
  {
  }

  // Worked scenarios of the watering schedule.

  /** Frequency 7, last watered 8 days ago: overdue by a day. */
  lemma ScenarioOverdue(today: int, p: UserPlant)
    requires p.wateringFrequency == 7 && p.lastWatered == Some(AddDays(today, -8))
    requires p.nextWaterDate == Some(AddDays(p.lastWatered.value, 7))
    ensures UseWaterStatus(today, p) == WaterStatusResult(NeedsWater, Finite(0.0), Orange)
  {
    assert p.nextWaterDate.value == AddDays(today, -1);
    DifferenceOfAddDays(today, -1);
  }

  /** Frequency 7, watered today: healthy with the whole cycle left. */
  lemma ScenarioJustWatered(today: int, p: UserPlant)
    requires p.wateringFrequency == 7 && p.lastWatered == Some(today)
    requires p.nextWaterDate == Some(AddDays(today, 7))
    ensures UseWaterStatus(today, p) == WaterStatusResult(Healthy, Finite(100.0), Green)
  {
    DifferenceOfAddDays(today, 7);
  }

  /** Frequency 10, due in two days: upcoming with 20% left. */
  lemma ScenarioUpcoming(today: int, p: UserPlant)
    requires p.wateringFrequency == 10 && p.lastWatered.Some?
    requires p.nextWaterDate == Some(AddDays(today, 2))
    ensures UseWaterStatus(today, p) == WaterStatusResult(Upcoming, Finite(20.0), Blue)
  {
    DifferenceOfAddDays(today, 2);
  }
}
