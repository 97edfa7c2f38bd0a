/** The watering-history list of the plant detail page: a sorted copy of the
    fetched records, newest watering first, ties broken by creation time. */
module PlantDetail {
  import opened Common
  import Seqs

  /** A watering record as the page receives it. The shared schema has no
      `createdAt` column for watering records, so on real rows it is absent. */
  datatype HistoryRecord = HistoryRecord(
    id: int, userPlantId: int, wateredDate: int, notes: Option<string>, createdAt: Option<int>)

  /** Creation time used by the tie-break; a missing one counts as 0. */
  function CreatedTime(r: HistoryRecord): int {
    r.createdAt.GetOr(0)
  }

  /** a may be listed above b: watered later, or watered the same instant and
      created no earlier. */
  predicate ListedBefore(a: HistoryRecord, b: HistoryRecord) {
    || a.wateredDate > b.wateredDate
    || (a.wateredDate == b.wateredDate && CreatedTime(a) >= CreatedTime(b))
  }

  /** The comparator handed to `sort`. */
  function HistoryCompare(a: HistoryRecord, b: HistoryRecord): (c: int)
    ensures c <= 0 <==> ListedBefore(a, b)
    ensures c == 0 <==> a.wateredDate == b.wateredDate && CreatedTime(a) == CreatedTime(b)
    ensures a.wateredDate != b.wateredDate ==> (c < 0 <==> a.wateredDate > b.wateredDate)
  {
    var dateComparison := b.wateredDate - a.wateredDate;
    if dateComparison != 0 then dateComparison
    else CreatedTime(b) - CreatedTime(a)
  }

  lemma HistoryCompareAntisymmetric(a: HistoryRecord, b: HistoryRecord)
    ensures HistoryCompare(a, b) == -HistoryCompare(b, a)
  {
  }

  /** The comparator is a total preorder, which is what makes the sorted
      result well defined. */
  lemma HistoryCompareConsistent()
    ensures Seqs.Consistent(HistoryCompare)
  {
    forall a, b, c | HistoryCompare(a, b) <= 0 && HistoryCompare(b, c) <= 0
      ensures HistoryCompare(a, c) <= 0
    {
      assert ListedBefore(a, b) && ListedBefore(b, c);
    }
  }

  /** `[...wateringHistory].sort(compare)`. */
  function SortedHistory(history: seq<HistoryRecord>): (r: seq<HistoryRecord>)
    ensures multiset(r) == multiset(history)
    ensures forall i, j :: 0 <= i < j < |r| ==> ListedBefore(r[i], r[j])
  {
    HistoryCompareConsistent();
    Seqs.SortBySorted(history, HistoryCompare);
    Seqs.SortBy(history, HistoryCompare)
  }

  /** Within one watering instant, a record without a creation time sits
      below every record created after the epoch. */
  lemma MissingCreatedAtSortsLast(history: seq<HistoryRecord>, i: int, j: int)
    requires 0 <= i < |SortedHistory(history)| && 0 <= j < |SortedHistory(history)|
    requires var r := SortedHistory(history);
             && r[i].wateredDate == r[j].wateredDate
             && r[i].createdAt.None? && r[j].createdAt.Some? && r[j].createdAt.value > 0
    ensures j < i
  {
  }

  /** Records of different instants appear newest first, whatever their
      creation times. */
  lemma NewestWateringFirst(history: seq<HistoryRecord>, i: int, j: int)
    requires 0 <= i < |SortedHistory(history)| && 0 <= j < |SortedHistory(history)|
    requires SortedHistory(history)[i].wateredDate > SortedHistory(history)[j].wateredDate
    ensures i < j
  {
  }
}
