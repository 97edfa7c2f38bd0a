/** The catalog filter hook: category, difficulty and free-text filters over a
    copy of the catalog, then an optional reordering. An absent filter value
    is the empty string (both are falsy). */
module FilterPlants {
  import opened Schema
  import Seqs
  import JsString

  datatype PlantFilters = PlantFilters(category: string, difficulty: string, searchTerm: string, sortBy: string)

  /** The category filter is off, or the categories agree ignoring case. */
  predicate CategoryMatches(filters: PlantFilters, p: Plant) {
    filters.category == "" || JsString.ToLower(p.category) == JsString.ToLower(filters.category)
  }

  predicate DifficultyMatches(filters: PlantFilters, p: Plant) {
    filters.difficulty == "" || JsString.ToLower(p.difficulty) == JsString.ToLower(filters.difficulty)
  }

  /** The search is active when the term is not blank. */
  predicate Searching(filters: PlantFilters) {
    JsString.Trim(filters.searchTerm) != ""
  }

  /** `searchTerm.toLowerCase().trim()` */
  function SearchKey(filters: PlantFilters): string {
    JsString.Trim(JsString.ToLower(filters.searchTerm))
  }

  /** The search is off, or the key occurs in one of the four text fields. */
  predicate SearchMatches(filters: PlantFilters, p: Plant) {
    !Searching(filters) ||
      var key := SearchKey(filters);
      || JsString.Includes(JsString.ToLower(p.name), key)
      || JsString.Includes(JsString.ToLower(p.botanicalName), key)
      || JsString.Includes(JsString.ToLower(p.description), key)
      || JsString.Includes(JsString.ToLower(p.category), key)
  }

  predicate Matches(filters: PlantFilters, p: Plant) {
    CategoryMatches(filters, p) && DifficultyMatches(filters, p) && SearchMatches(filters, p)
  }

  function ByCategory(filters: PlantFilters): Plant -> bool {
    (p: Plant) => CategoryMatches(filters, p)
  }

  function ByDifficulty(filters: PlantFilters): Plant -> bool {
    (p: Plant) => DifficultyMatches(filters, p)
  }

  function BySearch(filters: PlantFilters): Plant -> bool {
    (p: Plant) => SearchMatches(filters, p)
  }

  function ByAll(filters: PlantFilters): Plant -> bool {
    (p: Plant) => Matches(filters, p)
  }

  /** The catalog entries every active filter accepts, in catalog order. */
  function FilteredCatalog(plants: seq<Plant>, filters: PlantFilters): (r: seq<Plant>)
    ensures forall p :: p in r <==> p in plants && Matches(filters, p)
    ensures Seqs.IsSubsequence(r, plants)
  {
    Seqs.FilterIsSubsequence(plants, ByAll(filters));
    Seqs.Filter(plants, ByAll(filters))
  }

  /** Filtering in three passes is filtering once by all three tests. */
  lemma {:induction false} ThreePasses(plants: seq<Plant>, filters: PlantFilters)
    ensures Seqs.Filter(Seqs.Filter(Seqs.Filter(plants, ByCategory(filters)), ByDifficulty(filters)), BySearch(filters))
            == FilteredCatalog(plants, filters)
  {
    if plants != [] {
      ThreePasses(plants[1..], filters);
    }
  }

  /** A missing or blank search term lets every plant through. */
  lemma BlankSearchKeepsAll(plants: seq<Plant>, filters: PlantFilters)
    requires filters.searchTerm == "" || JsString.Trim(filters.searchTerm) == ""
    ensures Seqs.Filter(plants, BySearch(filters)) == plants
  {
    assert !Searching(filters);
    Seqs.FilterAll(plants, BySearch(filters));
  }

  /** Position in the "easiest" order: the four known levels, then everything
      else (rank 999). */
  function DifficultyRank(difficulty: string): (rank: int)
    ensures 1 <= rank
    ensures rank <= 4 <==> difficulty in {"Very Easy", "Easy", "Medium", "Difficult"}
  {
    if difficulty == "Very Easy" then 1
    else if difficulty == "Easy" then 2
    else if difficulty == "Medium" then 3
    else if difficulty == "Difficult" then 4
    else 999
  }

  function EasiestFirst(a: Plant, b: Plant): int {
    DifficultyRank(a.difficulty) - DifficultyRank(b.difficulty)
  }

  function NewestFirst(a: Plant, b: Plant): int {
    b.id - a.id
  }

  function NameOrder(localeCompare: (string, string) -> int): (Plant, Plant) -> int {
    (a: Plant, b: Plant) => localeCompare(a.name, b.name)
  }

  /** `useFilterPlants(plants, filters)`; `localeCompare` is the collation used
      by the "name" sort. */
  method UseFilterPlants(plants: seq<Plant>, filters: PlantFilters, localeCompare: (string, string) -> int)
    returns (result: seq<Plant>)
    ensures result == SortCatalog(FilteredCatalog(plants, filters), filters.sortBy, localeCompare)
    ensures forall p :: p in result <==> p in plants && Matches(filters, p)
  {
    var filtered := plants;
    if filters.category != "" {
      filtered := Seqs.Filter(filtered, ByCategory(filters));
    } else {
      Seqs.FilterAll(plants, ByCategory(filters));
    }
    ghost var afterCategory := filtered;
    assert afterCategory == Seqs.Filter(plants, ByCategory(filters));
    if filters.difficulty != "" {
      filtered := Seqs.Filter(filtered, ByDifficulty(filters));
    } else {
      Seqs.FilterAll(filtered, ByDifficulty(filters));
    }
    ghost var afterDifficulty := filtered;
    assert afterDifficulty == Seqs.Filter(afterCategory, ByDifficulty(filters));
    if filters.searchTerm != "" && JsString.Trim(filters.searchTerm) != "" {
      filtered := Seqs.Filter(filtered, BySearch(filters));
    } else {
      BlankSearchKeepsAll(filtered, filters);
    }
    assert filtered == Seqs.Filter(afterDifficulty, BySearch(filters));
    ThreePasses(plants, filters);
    assert filtered == FilteredCatalog(plants, filters);

    result := SortCatalog(filtered, filters.sortBy, localeCompare);
  }

  /** The `switch (filters.sortBy)` step, sorting the filtered copy. */
  function SortCatalog(filtered: seq<Plant>, sortBy: string, localeCompare: (string, string) -> int)
    : (r: seq<Plant>)
    ensures multiset(r) == multiset(filtered)
    ensures forall p :: p in r <==> p in filtered
    ensures sortBy !in {"name", "easiest", "newest"} ==> r == filtered
    ensures sortBy == "newest" ==> forall i, j :: 0 <= i < j < |r| ==> r[i].id >= r[j].id
    ensures sortBy == "easiest" ==>
              forall i, j :: 0 <= i < j < |r| ==> DifficultyRank(r[i].difficulty) <= DifficultyRank(r[j].difficulty)
  {
    var r :=
      if sortBy == "name" then Seqs.SortBy(filtered, NameOrder(localeCompare))
      else if sortBy == "easiest" then
        Seqs.SortBySorted(filtered, EasiestFirst);
        Seqs.SortBy(filtered, EasiestFirst)
      else if sortBy == "newest" then
        Seqs.SortBySorted(filtered, NewestFirst);
        Seqs.SortBy(filtered, NewestFirst)
      else filtered;
    Seqs.SameElements(r, filtered);
    r
  }

  /** With a collation that is a total preorder, the "name" sort orders the
      names by it. */
  lemma NameSortOrdered(filtered: seq<Plant>, localeCompare: (string, string) -> int)
    requires Seqs.Consistent(localeCompare)
    ensures var r := SortCatalog(filtered, "name", localeCompare);
            forall i, j :: 0 <= i < j < |r| ==> localeCompare(r[i].name, r[j].name) <= 0
  {
    var cmp := NameOrder(localeCompare);
    assert forall a, b :: cmp(a, b) == localeCompare(a.name, b.name);
    Seqs.SortBySorted(filtered, cmp);
  }

  /** With no category, no difficulty and a blank search term, the whole
      catalog comes back in its order. */
  lemma NoFiltersKeepEverything(plants: seq<Plant>, filters: PlantFilters)
    requires filters.category == "" && filters.difficulty == "" && !Searching(filters)
    ensures FilteredCatalog(plants, filters) == plants
  {
    Seqs.FilterAll(plants, ByAll(filters));
  }

  /** In the "easiest" order, a plant of an unlisted difficulty (such as
      "Moderate") comes after every plant of a listed one. */
  lemma UnlistedDifficultySortsLast(plants: seq<Plant>, filters: PlantFilters, i: int, j: int)
    requires 0 <= i < |Seqs.SortBy(plants, EasiestFirst)| && 0 <= j < |Seqs.SortBy(plants, EasiestFirst)|
    requires var r := Seqs.SortBy(plants, EasiestFirst);
             && r[i].difficulty !in {"Very Easy", "Easy", "Medium", "Difficult"}
             && r[j].difficulty in {"Very Easy", "Easy", "Medium", "Difficult"}
    ensures j < i
  {
    Seqs.SortBySorted(plants, EasiestFirst);
  }
}
