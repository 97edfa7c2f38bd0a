/** The watering helpers of the client's plant-data library: a second status
    classifier, the next-watering date, the elapsed-cycle progress, the status
    colour and the choice of status text. */
module PlantData {
  import opened Common
  import opened Time
  import opened JsNumber
  import opened Schema
  import WaterStatus

  /** `getPlantWateringStatus(userPlant)` at the instant `now`. */
  function GetPlantWateringStatus(now: int, p: UserPlant): (r: PlantStatus)
    ensures !HasSchedule(p) ==> r == NeedsWater
    ensures HasSchedule(p) ==>
              var next := p.nextWaterDate.value;
              && (r == NeedsWater <==> next < now)
              && (r == Upcoming <==> now <= next < now + 3 * Day)
              && (r == Healthy <==> now + 3 * Day <= next)
  {
    if !HasSchedule(p) then NeedsWater
    else
      var next := p.nextWaterDate.value;
      DifferenceAtMost(next, now, 2);
      if next < now then NeedsWater
      else if DifferenceInDays(next, now) <= 2 then Upcoming
      else Healthy
  }

  /** `calculateNextWaterDate(lastWatered, frequency)` */
  function CalculateNextWaterDate(lastWatered: int, frequency: int): (r: int)
    ensures DifferenceInDays(r, lastWatered) == frequency
    ensures frequency >= 0 ==> r >= lastWatered
  {
    DifferenceOfAddDays(lastWatered, frequency);
    AddDays(lastWatered, frequency)
  }

  /** `calculateWaterProgress(userPlant)` at the instant `now`: the share of the
      cycle [lastWatered, nextWaterDate] still ahead, clamped to [0, 100]. */
  function CalculateWaterProgress(now: int, p: UserPlant): (r: Number)
    ensures !HasSchedule(p) ==> r == Finite(0.0)
    ensures HasSchedule(p) && p.nextWaterDate.value < now ==> r == Finite(0.0)
    ensures HasSchedule(p) && DifferenceInDays(p.nextWaterDate.value, p.lastWatered.value) > 0 ==>
              r.Finite? && 0.0 <= r.value <= 100.0
  {
    if !HasSchedule(p) then Finite(0.0)
    else
      var last, next := p.lastWatered.value, p.nextWaterDate.value;
      if next < now then Finite(0.0)
      else
        var totalDays := DifferenceInDays(next, last);
        var daysElapsed := DifferenceInDays(now, last);
        Max(0.0, Min(100.0, Scale(100.0, Divide((totalDays - daysElapsed) as real, totalDays as real))))
  }

  /** On the day of watering a positive cycle is 100% ahead. */
  lemma ProgressFullWhenJustWatered(now: int, p: UserPlant)
    requires HasSchedule(p) && p.lastWatered.value == now
    requires DifferenceInDays(p.nextWaterDate.value, now) > 0
    ensures CalculateWaterProgress(now, p) == Finite(100.0)
  {
    var total := DifferenceInDays(p.nextWaterDate.value, now) as real;
    assert DifferenceInDays(now, now) == 0;
    assert total / total == 1.0;
  }

  /** `getWaterStatusColor(status)` */
  function GetWaterStatusColor(status: PlantStatus): string {
    match status
    case NeedsWater => "bg-[#FF9F43]"
    case Upcoming => "bg-blue-400"
    case Healthy => "bg-[#2ECC71]"
  }

  /** The hook's colour is the colour this library gives its status. */
  lemma HookColourAgrees(today: int, p: UserPlant)
    ensures var r := WaterStatus.UseWaterStatus(today, p);
            r.statusColor == GetWaterStatusColor(r.status)
  {
  }

  /** The branch `getWaterStatusText` takes; date formatting is left to the
      caller, so the branches carry the date they would format. */
  datatype StatusText =
    | Overdue(nextWaterDate: int)
    | NeedsWaterToday
    | WaterIn(nextWaterDate: int)
    | WaterSoon
    | HealthyText

  /** `getWaterStatusText(userPlant)` at the instant `now`. */
  function GetWaterStatusText(now: int, p: UserPlant): (r: StatusText)
    ensures r.Overdue? <==>
              GetPlantWateringStatus(now, p) == NeedsWater
              && p.nextWaterDate.Some? && p.nextWaterDate.value < now
    ensures r.Overdue? || r.WaterIn? ==> p.nextWaterDate == Some(r.nextWaterDate)
    ensures r == HealthyText <==> GetPlantWateringStatus(now, p) == Healthy
    ensures r != WaterSoon
  {
    var status := GetPlantWateringStatus(now, p);
    if status == NeedsWater then
      if p.nextWaterDate.Some? && p.nextWaterDate.value < now then Overdue(p.nextWaterDate.value)
      else NeedsWaterToday
    else if status == Upcoming then
      if p.nextWaterDate.Some? then WaterIn(p.nextWaterDate.value) else WaterSoon
    else HealthyText
  }

  /** The two classifiers disagree exactly on the due day: a plant due at any
      instant of the coming day is upcoming here but needs water for the hook. */
  lemma ClassifiersDisagreeOnDueDay(now: int, p: UserPlant)
    requires HasSchedule(p)
    ensures var mine := GetPlantWateringStatus(now, p);
            var hook := WaterStatus.UseWaterStatus(now, p).status;
            var next := p.nextWaterDate.value;
            && (mine != hook <==> now <= next < now + Day)
            && (mine != hook ==> mine == Upcoming && hook == NeedsWater)
  {
  }

  /** A plant due this very instant: upcoming here, needs water for the hook. */
  lemma DueNowClassifiedDifferently(now: int, p: UserPlant)
    requires HasSchedule(p) && p.nextWaterDate.value == now
    ensures GetPlantWateringStatus(now, p) == Upcoming
    ensures WaterStatus.UseWaterStatus(now, p).status == NeedsWater
  {
  }

  /** The progress here is capped at 100, the hook's percentage is not: a plant
      watered now with a next date two cycles away shows 100 here and 200 there. */
  lemma CapDiffers(now: int, p: UserPlant)
    requires p.wateringFrequency == 10 && p.lastWatered == Some(now)
    requires p.nextWaterDate == Some(AddDays(now, 20))
    ensures CalculateWaterProgress(now, p) == Finite(100.0)
    ensures WaterStatus.UseWaterStatus(now, p).percentRemaining == Finite(200.0)
  {
    DifferenceOfAddDays(now, 20);
    ProgressFullWhenJustWatered(now, p);
  }
}
