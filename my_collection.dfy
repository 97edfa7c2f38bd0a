/** The "My Collection" page: the status filter over the user's plants and
    the sort applied to a copy of the filtered list. */
module MyCollection {
  import opened Common
  import opened Schema
  import Seqs
  import Time

  /** A collection entry as the client receives it, with its catalog plant
      when the server joined one. */
  datatype OwnedPlant = OwnedPlant(row: UserPlant, plant: Option<Plant>)

  /** `new Date(x || 0).getTime()` of a nullable date. */
  function TimeOr0(d: Option<int>): int {
    d.GetOr(0)
  }

  /** The user's plant id occurs in the needs-water list. */
  predicate Listed(needsWater: Option<seq<OwnedPlant>>, p: OwnedPlant) {
    needsWater.Some? && exists i :: 0 <= i < |needsWater.value| && needsWater.value[i].row.id == p.row.id
  }

  /** The filter callback; `now` is the current instant. */
  predicate Keep(filter: string, needsWater: Option<seq<OwnedPlant>>, now: int, p: OwnedPlant) {
    if filter == "all" then true
    else if filter == "needs-water" && Listed(needsWater, p) then true
    else if filter == "recently-added" then TimeOr0(p.row.createdAt) >= now - 7 * Time.Day
    else false
  }

  /** `filteredPlants`: nothing while the collection is not loaded. */
  function FilteredPlants(userPlants: Option<seq<OwnedPlant>>, filter: string,
                          needsWater: Option<seq<OwnedPlant>>, now: int): (r: seq<OwnedPlant>)
    ensures userPlants.None? ==> r == []
    ensures userPlants.Some? ==> Seqs.IsSubsequence(r, userPlants.value)
    ensures userPlants.Some? && filter == "all" ==> r == userPlants.value
    ensures filter == "needs-water" ==>
              forall p :: p in r <==> userPlants.Some? && p in userPlants.value && Listed(needsWater, p)
    ensures filter == "recently-added" ==>
              forall p :: p in r <==> (userPlants.Some? && p in userPlants.value
                                      && TimeOr0(p.row.createdAt) >= now - 7 * Time.Day)
    ensures filter !in {"all", "needs-water", "recently-added"} ==> r == []
  {
    if userPlants.None? then []
    else
      var keep := (p: OwnedPlant) => Keep(filter, needsWater, now, p);
      Seqs.FilterIsSubsequence(userPlants.value, keep);
      if filter == "all" then
        Seqs.FilterAll(userPlants.value, keep);
        Seqs.Filter(userPlants.value, keep)
      else if filter !in {"needs-water", "recently-added"} then
        NothingKept(userPlants.value, keep);
        Seqs.Filter(userPlants.value, keep)
      else Seqs.Filter(userPlants.value, keep)
  }

  lemma {:induction false} NothingKept(s: seq<OwnedPlant>, keep: OwnedPlant -> bool)
    requires forall x :: x in s ==> !keep(x)
    ensures Seqs.Filter(s, keep) == []
  {
    if s != [] {
      NothingKept(s[1..], keep);
    }
  }

  // --- the comparators of `sortedPlants` ---

  /** `a.nickname || a.plant?.name || ""` */
  function DisplayName(p: OwnedPlant): string {
    if p.row.nickname.Some? && p.row.nickname.value != "" then p.row.nickname.value
    else if p.plant.Some? && p.plant.value.name != "" then p.plant.value.name
    else ""
  }

  function LastWateredFirst(a: OwnedPlant, b: OwnedPlant): int {
    TimeOr0(b.row.lastWatered) - TimeOr0(a.row.lastWatered)
  }

  function NextWaterFirst(a: OwnedPlant, b: OwnedPlant): int {
    TimeOr0(a.row.nextWaterDate) - TimeOr0(b.row.nextWaterDate)
  }

  function NewestFirst(a: OwnedPlant, b: OwnedPlant): int {
    TimeOr0(b.row.createdAt) - TimeOr0(a.row.createdAt)
  }

  function NoOrder(a: OwnedPlant, b: OwnedPlant): int {
    0
  }

  /** The comparator for a sort key; `localeCompare` is the string collation. */
  function Comparator(sortBy: string, localeCompare: (string, string) -> int): (OwnedPlant, OwnedPlant) -> int {
    if sortBy == "last-watered" then LastWateredFirst
    else if sortBy == "name" then (a: OwnedPlant, b: OwnedPlant) => localeCompare(DisplayName(a), DisplayName(b))
    else if sortBy == "next-water-date" then NextWaterFirst
    else if sortBy == "recently-added" then NewestFirst
    else NoOrder
  }

  /** `sortedPlants`: a sorted copy of the filtered list. */
  function SortedPlants(filtered: seq<OwnedPlant>, sortBy: string,
                        localeCompare: (string, string) -> int): (r: seq<OwnedPlant>)
    ensures multiset(r) == multiset(filtered)
    ensures sortBy == "last-watered" ==>
              forall i, j :: 0 <= i < j < |r| ==> TimeOr0(r[i].row.lastWatered) >= TimeOr0(r[j].row.lastWatered)
    ensures sortBy == "next-water-date" ==>
              forall i, j :: 0 <= i < j < |r| ==> TimeOr0(r[i].row.nextWaterDate) <= TimeOr0(r[j].row.nextWaterDate)
    ensures sortBy == "recently-added" ==>
              forall i, j :: 0 <= i < j < |r| ==> TimeOr0(r[i].row.createdAt) >= TimeOr0(r[j].row.createdAt)
    ensures sortBy !in {"last-watered", "name", "next-water-date", "recently-added"} ==> r == filtered
  {
    var cmp := Comparator(sortBy, localeCompare);
    if sortBy == "last-watered" then
      Seqs.SortBySorted(filtered, LastWateredFirst);
      Seqs.SortBy(filtered, cmp)
    else if sortBy == "next-water-date" then
      Seqs.SortBySorted(filtered, NextWaterFirst);
      Seqs.SortBy(filtered, cmp)
    else if sortBy == "recently-added" then
      Seqs.SortBySorted(filtered, NewestFirst);
      Seqs.SortBy(filtered, cmp)
    else if sortBy == "name" then
      Seqs.SortBy(filtered, cmp)
    else
      Seqs.SortBySortedIdentity(filtered, NoOrder);
      Seqs.SortBy(filtered, cmp)
  }

  /** With a collation that is a total preorder, the "name" sort orders the
      display names by it. */
  lemma NameSortOrdered(filtered: seq<OwnedPlant>, localeCompare: (string, string) -> int)
    requires Seqs.Consistent(localeCompare)
    ensures var r := SortedPlants(filtered, "name", localeCompare);
            forall i, j :: 0 <= i < j < |r| ==> localeCompare(DisplayName(r[i]), DisplayName(r[j])) <= 0
  {
    var cmp := Comparator("name", localeCompare);
    assert forall a, b :: cmp(a, b) == localeCompare(DisplayName(a), DisplayName(b));
    Seqs.SortBySorted(filtered, cmp);
  }

  /** Sorting by last watering puts plants never watered below every plant
      watered after the epoch. */
  lemma NeverWateredSortLast(filtered: seq<OwnedPlant>, localeCompare: (string, string) -> int, i: int, j: int)
    requires var r := SortedPlants(filtered, "last-watered", localeCompare);
             && 0 <= i < |r| && 0 <= j < |r|
             && r[i].row.lastWatered.None? && r[j].row.lastWatered.Some? && r[j].row.lastWatered.value > 0
    ensures j < i
  {
  }

  /** Sorting by next watering date puts plants without one above every plant
      due after the epoch. */
  lemma UnscheduledSortFirst(filtered: seq<OwnedPlant>, localeCompare: (string, string) -> int, i: int, j: int)
    requires var r := SortedPlants(filtered, "next-water-date", localeCompare);
             && 0 <= i < |r| && 0 <= j < |r|
             && r[i].row.nextWaterDate.None? && r[j].row.nextWaterDate.Some? && r[j].row.nextWaterDate.value > 0
    ensures i < j
  {
  }
}
