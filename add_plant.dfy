/** The add-plant page: the form schema, the defaults copied from the chosen
    catalog plant, and the normalisation applied on submit. Dates are
    instants in milliseconds. */
module AddPlant {
  import opened Common
  import opened Schema
  import opened Validation
  import JsString
  import Time

  /** The form values (`z.infer<typeof formSchema>`). */
  datatype FormValues = FormValues(
    plantId: int, nickname: Option<string>, location: string, wateringFrequency: int,
    notes: Option<string>, imageUrl: Option<string>, lastWatered: int, nextWaterDate: int)

  /** The schema's complaints, in field order; none means the form is valid. */
  function SchemaIssues(v: FormValues): (issues: seq<Issue>)
    ensures issues == [] <==> v.plantId >= 1 && |v.location| >= 1 && v.wateringFrequency >= 1
    ensures v.plantId < 1 ==> issues[0] == Issue("plantId", "Please select a plant")
    ensures Issue("location", "Location is required") in issues <==> v.location == ""
    ensures Issue("wateringFrequency", "Watering frequency is required") in issues <==> v.wateringFrequency < 1
  {
    (if v.plantId < 1 then [Issue("plantId", "Please select a plant")] else [])
    + (if |v.location| < 1 then [Issue("location", "Location is required")] else [])
    + (if v.wateringFrequency < 1 then [Issue("wateringFrequency", "Watering frequency is required")] else [])
  }

  /** A value JavaScript treats as false: absent or empty. */
  predicate Blank(s: Option<string>) {
    s.None? || s.value == ""
  }

  /** The selection effect: with a plant chosen, each of frequency, nickname
      and image that is still empty (or 0) is taken from the catalog. */
  function FillFromCatalog(v: FormValues, selected: Option<Plant>): (r: FormValues)
    ensures selected.None? ==> r == v
    ensures r.plantId == v.plantId && r.location == v.location && r.notes == v.notes
    ensures r.lastWatered == v.lastWatered && r.nextWaterDate == v.nextWaterDate
    ensures v.wateringFrequency != 0 ==> r.wateringFrequency == v.wateringFrequency
    ensures !Blank(v.nickname) ==> r.nickname == v.nickname
    ensures !Blank(v.imageUrl) ==> r.imageUrl == v.imageUrl
    ensures selected.Some? ==>
              && (v.wateringFrequency == 0 ==> r.wateringFrequency == selected.value.wateringFrequency)
              && (Blank(v.nickname) ==> r.nickname == Some(selected.value.name))
              && (Blank(v.imageUrl) ==> r.imageUrl == Some(selected.value.imageUrl.GetOr("")))
  {
    if selected.None? then v
    else
      var p := selected.value;
      var v1 := if v.wateringFrequency == 0 then v.(wateringFrequency := p.wateringFrequency) else v;
      var v2 := if Blank(v1.nickname) then v1.(nickname := Some(p.name)) else v1;
      if Blank(v2.imageUrl) then v2.(imageUrl := Some(p.imageUrl.GetOr(""))) else v2
  }

  /** Running the effect again with the same plant changes nothing more. */
  lemma FillFromCatalogIdempotent(v: FormValues, selected: Option<Plant>)
    ensures FillFromCatalog(FillFromCatalog(v, selected), selected) == FillFromCatalog(v, selected)
  {
  }

  /** What is sent to the server (`AddPlantFormData`). */
  datatype Submission = Submission(
    plantId: int, nickname: Option<string>, location: string, wateringFrequency: int,
    notes: Option<string>, imageUrl: Option<string>, lastWatered: int, nextWaterDate: int)

  /** `s?.trim() || undefined` */
  function TrimmedOrAbsent(s: Option<string>): (r: Option<string>)
    ensures r.None? <==> s.None? || JsString.AllWhitespace(s.value)
    ensures r.Some? ==> r == Some(JsString.Trim(s.value)) && r.value != ""
  {
    if s.None? then None
    else
      var t := JsString.Trim(s.value);
      if t == "" then None else Some(t)
  }

  /** The same instant's UTC day at 12:00. */
  function NoonUtc(t: int): (r: int)
    ensures r % Time.Day == Time.Day / 2
    ensures t - t % Time.Day <= r < t - t % Time.Day + Time.Day
  {
    t - t % Time.Day + Time.Day / 2
  }

  lemma NoonUtcShift(t: int, n: int)
    ensures NoonUtc(Time.AddDays(t, n)) == Time.AddDays(NoonUtc(t), n)
  {
    var d := Time.Day;
    calc {
      Time.AddDays(t, n) % d;
      (t + n * d) % d;
      { assert t + n * d == t % d + (t / d + n) * d; }
      t % d;
    }
  }

  /** `onSubmit`: the due date is the watering date plus the entered frequency
      in days, both moved to noon UTC; the sent frequency is at least 1; blank
      notes and image URLs are dropped after trimming. */
  function OnSubmit(data: FormValues): (r: Submission)
    ensures r.plantId == data.plantId && r.nickname == data.nickname && r.location == data.location
    ensures r.wateringFrequency >= 1
    ensures data.wateringFrequency >= 1 ==> r.wateringFrequency == data.wateringFrequency
    ensures r.notes == TrimmedOrAbsent(data.notes) && r.imageUrl == TrimmedOrAbsent(data.imageUrl)
    ensures r.lastWatered == NoonUtc(data.lastWatered)
    ensures Time.DifferenceInDays(r.nextWaterDate, r.lastWatered) == data.wateringFrequency
  {
    var lastWatered := NoonUtc(data.lastWatered);
    var nextWaterDate := NoonUtc(Time.AddDays(data.lastWatered, data.wateringFrequency));
    NoonUtcShift(data.lastWatered, data.wateringFrequency);
    Time.DifferenceOfAddDays(lastWatered, data.wateringFrequency);
    Submission(data.plantId, data.nickname, data.location,
               if data.wateringFrequency > 1 then data.wateringFrequency else 1,
               TrimmedOrAbsent(data.notes), TrimmedOrAbsent(data.imageUrl),
               lastWatered, nextWaterDate)
  }

  /** For a form that passed the schema, the sent schedule is consistent: the
      due date is exactly the sent frequency after the watering date. */
  lemma ValidSubmissionIsConsistent(data: FormValues)
    requires SchemaIssues(data) == []
    ensures var r := OnSubmit(data);
            Time.DifferenceInDays(r.nextWaterDate, r.lastWatered) == r.wateringFrequency
            && r.nextWaterDate == Time.AddDays(r.lastWatered, r.wateringFrequency)
  {
    NoonUtcShift(data.lastWatered, data.wateringFrequency);
  }
}
