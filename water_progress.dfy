/** The water-progress widget: the "Next watering" text and the width and
    colour of its progress bar. */
module WaterProgress {
  import opened Common
  import opened JsNumber
  import Time
  import opened Schema
  import WaterStatus

  /** What the "Next watering" label shows; a relative date is formatted by
      the caller. */
  datatype NextWatering = Unknown | Today | Relative(nextWaterDate: int) | NotSet

  /** `nextWateringText()` at the instant `now`; `needsInitialWatering` is the
      optional flag of the rendered plant, false when absent. */
  function NextWateringText(now: int, needsInitialWatering: bool, p: UserPlant): (r: NextWatering)
    ensures needsInitialWatering ==> r == Unknown
    ensures !needsInitialWatering && HasSchedule(p) ==>
              (r == Today <==> p.nextWaterDate.value <= now)
              && (r != Today ==> r == Relative(p.nextWaterDate.value))
    ensures !needsInitialWatering && !HasSchedule(p) ==> r == NotSet
  {
    if needsInitialWatering then Unknown
    else if HasSchedule(p) then
      if p.nextWaterDate.value <= now then Today else Relative(p.nextWaterDate.value)
    else NotSet
  }

  /** The bar's width in percent: `Math.max(0, percentRemaining)`. */
  function BarWidth(now: int, p: UserPlant): (w: Number)
    ensures !w.NegInfinity?
    ensures w.Finite? ==> w.value >= 0.0
  {
    Max(0.0, WaterStatus.UseWaterStatus(now, p).percentRemaining)
  }

  datatype View = View(text: NextWatering, width: Number, color: string)

  /** Everything the widget renders for one plant. */
  function Render(now: int, needsInitialWatering: bool, p: UserPlant): (v: View)
    ensures v.text == NextWateringText(now, needsInitialWatering, p)
    ensures v.width == BarWidth(now, p)
    ensures v.color == WaterStatus.UseWaterStatus(now, p).statusColor
  {
    View(NextWateringText(now, needsInitialWatering, p), BarWidth(now, p),
         WaterStatus.UseWaterStatus(now, p).statusColor)
  }

  /** The bar does not look at the initial-watering flag: only the text does. */
  lemma BarIgnoresInitialWateringFlag(now: int, p: UserPlant)
    ensures Render(now, true, p).width == Render(now, false, p).width
    ensures Render(now, true, p).color == Render(now, false, p).color
    ensures Render(now, true, p).text == Unknown
  {
  }

  /** An overdue plant is labelled "Today", never with a past date. */
  lemma OverdueShowsToday(now: int, p: UserPlant)
    requires HasSchedule(p) && p.nextWaterDate.value < now
    ensures NextWateringText(now, false, p) == Today
  {
  }

  /** The bar is not capped at 100%. */
  lemma BarWidthCanExceedHundred(now: int, p: UserPlant)
    requires p.wateringFrequency == 10 && p.lastWatered == Some(now)
    requires p.nextWaterDate == Some(Time.AddDays(now, 20))
    ensures BarWidth(now, p) == Finite(200.0)
  {
    Time.DifferenceOfAddDays(now, 20);
  }
}
