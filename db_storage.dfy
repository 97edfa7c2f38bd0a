/** The PostgreSQL-backed storage of the server. Each table is a sequence of
    rows in physical order with its own serial counter; an SQL `update` or
    `delete` keyed by a primary key acts on the one row holding that key.
    Timestamps are instants in milliseconds; a `date` column keeps only the
    first instant of the (UTC) day of what is written to it. */
module DbStorage {
  import opened Common
  import opened Schema
  import Seqs
  import Time
  import WaterStatus

  /** A row of the wishlist table. */
  datatype WishlistItem = WishlistItem(id: int, userId: int, plantId: int)

  /** A wishlist row joined with its catalog plant. */
  datatype WishlistEntry = WishlistEntry(item: WishlistItem, plant: Plant)

  /** One key of a partial update object: absent, or present with a value
      (a nullable column is present with `None` when set to null). */
  datatype Field<+T> = Absent | Present(value: T) {
    /** `update.key ?? current` for a key whose present value is never null. */
    function Or(current: T): T {
      if Present? then value else current
    }
  }

  /** A `Partial<InsertUserPlant>`. */
  datatype UserPlantUpdate = UserPlantUpdate(
    userId: Field<int>, plantId: Field<int>, nickname: Field<Option<string>>,
    location: Field<Option<string>>, lastWatered: Field<Option<int>>,
    wateringFrequency: Field<int>, nextWaterDate: Field<Option<int>>,
    imageUrl: Field<Option<string>>, notes: Field<Option<string>>)

  const NoChange: UserPlantUpdate :=
    UserPlantUpdate(Absent, Absent, Absent, Absent, Absent, Absent, Absent, Absent, Absent)

  /** The schedule invariant of a row: once a plant has been watered, its next
      watering date is that date plus its frequency in days. */
  predicate ScheduleConsistent(p: UserPlant) {
    p.lastWatered.Some? ==>
      p.nextWaterDate == Some(Time.AddDays(p.lastWatered.value, p.wateringFrequency))
  }

  /** What a nullable `date` column stores of an optional instant. */
  function DateOf(t: Option<int>): (d: Option<int>)
    ensures d.Some? <==> t.Some?
    ensures d.Some? ==> d.value % Time.Day == 0 && d.value <= t.value < d.value + Time.Day
  {
    if t.Some? then Some(Time.StartOfDay(t.value)) else None
  }

  /** The two `date` columns of a row hold whole days. */
  predicate DatesAligned(p: UserPlant) {
    && (p.lastWatered.Some? ==> p.lastWatered.value % Time.Day == 0)
    && (p.nextWaterDate.Some? ==> p.nextWaterDate.value % Time.Day == 0)
  }

  /** The row `createUserPlant` inserts under serial `id` at instant `now`
      (`createdAt` takes the column default). */
  function NewUserPlant(id: int, insert: InsertUserPlant, now: int): (row: UserPlant)
    ensures row.id == id && row.createdAt == Some(now)
    ensures && row.userId == insert.userId && row.plantId == insert.plantId
            && row.nickname == insert.nickname && row.location == insert.location
            && row.wateringFrequency == insert.wateringFrequency
            && row.imageUrl == insert.imageUrl && row.notes == insert.notes
    ensures row.lastWatered == DateOf(insert.lastWatered) && DatesAligned(row)
    ensures insert.nextWaterDate.Some? ==> row.nextWaterDate == DateOf(insert.nextWaterDate)
    ensures insert.nextWaterDate.None? ==> ScheduleConsistent(row)
    ensures insert.nextWaterDate.None? && insert.lastWatered.None? ==> row.nextWaterDate.None?
  {
    var next :=
      if insert.nextWaterDate.None? && insert.lastWatered.Some? then
        Some(Time.AddDays(insert.lastWatered.value, insert.wateringFrequency))
      else insert.nextWaterDate;
    Time.StartOfDayAddDays(insert.lastWatered.GetOr(0), insert.wateringFrequency);
    UserPlant(id, insert.userId, insert.plantId, insert.nickname, insert.location,
              DateOf(insert.lastWatered), insert.wateringFrequency, DateOf(next),
              insert.imageUrl, insert.notes, Some(now))
  }

  /** The update sets `lastWatered` to a non-null date (a truthiness test). */
  predicate SetsLastWatered(u: UserPlantUpdate) {
    u.lastWatered.Present? && u.lastWatered.value.Some?
  }

  /** The row `updateUserPlant` writes over `existing`: every key present in
      the update replaces its column, except `nextWaterDate`, which is always
      the recalculated date; the `date` columns keep the day. */
  function ApplyUpdate(existing: UserPlant, u: UserPlantUpdate): (r: UserPlant)
    ensures r.id == existing.id && r.createdAt == existing.createdAt
    ensures && r.userId == u.userId.Or(existing.userId)
            && r.plantId == u.plantId.Or(existing.plantId)
            && r.nickname == u.nickname.Or(existing.nickname)
            && r.location == u.location.Or(existing.location)
            && r.wateringFrequency == u.wateringFrequency.Or(existing.wateringFrequency)
            && r.imageUrl == u.imageUrl.Or(existing.imageUrl)
            && r.notes == u.notes.Or(existing.notes)
    ensures u.lastWatered.Present? ==> r.lastWatered == DateOf(u.lastWatered.value)
    ensures u.lastWatered.Absent? ==> r.lastWatered == existing.lastWatered
    // a newly supplied watering date restarts the cycle from its day with the resulting frequency
    ensures SetsLastWatered(u) ==>
              r.nextWaterDate == Some(Time.AddDays(r.lastWatered.value, r.wateringFrequency))
    // otherwise a new frequency of a watered plant restarts the cycle from the stored date
    ensures !SetsLastWatered(u) && u.wateringFrequency.Present? && existing.lastWatered.Some? ==>
              r.nextWaterDate ==
              Some(Time.AddDays(Time.StartOfDay(existing.lastWatered.value), r.wateringFrequency))
    // neither a new date nor a new frequency of a watered plant: the stored date stays
    ensures !SetsLastWatered(u) && (u.wateringFrequency.Absent? || existing.lastWatered.None?) ==>
              r.nextWaterDate == existing.nextWaterDate
    ensures DatesAligned(existing) ==> DatesAligned(r)
    ensures ScheduleConsistent(existing) && DatesAligned(existing) ==> ScheduleConsistent(r)
  {
    var frequency := u.wateringFrequency.Or(existing.wateringFrequency);
    Time.StartOfDayAddDays(u.lastWatered.Or(None).GetOr(0), frequency);
    Time.StartOfDayAddDays(existing.lastWatered.GetOr(0), frequency);
    Time.StartOfWholeDay(existing.lastWatered.GetOr(0));
    var next :=
      if SetsLastWatered(u) then Some(Time.StartOfDay(Time.AddDays(u.lastWatered.value.value, frequency)))
      else if u.wateringFrequency.Present? && existing.lastWatered.Some? then
        Some(Time.StartOfDay(Time.AddDays(existing.lastWatered.value, frequency)))
      else existing.nextWaterDate;
    var lastWatered := if u.lastWatered.Present? then DateOf(u.lastWatered.value) else existing.lastWatered;
    UserPlant(existing.id, u.userId.Or(existing.userId), u.plantId.Or(existing.plantId),
              u.nickname.Or(existing.nickname), u.location.Or(existing.location),
              lastWatered, frequency, next,
              u.imageUrl.Or(existing.imageUrl), u.notes.Or(existing.notes),
              existing.createdAt)
  }

  /** A `nextWaterDate` supplied in an update is never written: an update that
      carries only that key leaves the row as it was. */
  lemma SuppliedNextWaterDateIgnored(existing: UserPlant, d: Option<int>)
    ensures ApplyUpdate(existing, NoChange.(nextWaterDate := Present(d))) == existing
  {
  }

  /** The row after `waterPlant` at instant `today`: watered on today's day,
      due `frequency` days later. */
  function Watered(p: UserPlant, today: int): (r: UserPlant)
    ensures r.lastWatered == Some(Time.StartOfDay(today))
    ensures ScheduleConsistent(r) && DatesAligned(r)
    ensures Time.DifferenceInDays(r.nextWaterDate.value, r.lastWatered.value) == p.wateringFrequency
    ensures r.(lastWatered := p.lastWatered, nextWaterDate := p.nextWaterDate) == p
  {
    var day := Time.StartOfDay(today);
    Time.DifferenceOfAddDays(day, p.wateringFrequency);
    Time.StartOfDayAddDays(today, p.wateringFrequency);
    p.(lastWatered := Some(day), nextWaterDate := Some(Time.AddDays(day, p.wateringFrequency)))
  }

  /** The update object `waterPlant` hands to `updateUserPlant`. */
  function WaterUpdate(today: int, frequency: int): UserPlantUpdate {
    NoChange.(lastWatered := Present(Some(today)),
              nextWaterDate := Present(Some(Time.AddDays(today, frequency))))
  }

  /** Passing `waterPlant`'s update object through `updateUserPlant` gives the
      watered row. */
  lemma WaterUpdateWaters(p: UserPlant, today: int)
    ensures ApplyUpdate(p, WaterUpdate(today, p.wateringFrequency)) == Watered(p, today)
  {
    Time.StartOfDayAddDays(today, p.wateringFrequency);
  }

  /** A watered plant is listed as needing water from the first instant of its
      due day, whatever the hour it was watered at, and is then no longer
      upcoming. */
  lemma DueFromStartOfDueDay(p: UserPlant, watered: int, now: int)
    requires Time.StartOfDay(now) == Time.AddDays(Time.StartOfDay(watered), p.wateringFrequency)
    ensures Watered(p, watered) in NeedingWater([Watered(p, watered)], p.userId, now)
    ensures Watered(p, watered) !in UpcomingWatering([Watered(p, watered)], p.userId, now)
  {
  }

  /** A plant on a three-day cycle watered at 10:00 on the epoch day is due
      at 05:00 three days later. */
  lemma WateredAtTenDueAtFive(p: UserPlant)
    requires p.wateringFrequency == 3
    ensures var hour := Time.Day / 24;
            var r := Watered(p, 10 * hour);
            r in NeedingWater([r], p.userId, Time.AddDays(0, 3) + 5 * hour)
  {
    var hour := Time.Day / 24;
    Time.StartOfDayUnique(10 * hour, 0);
    Time.StartOfDayUnique(Time.AddDays(0, 3) + 5 * hour, Time.AddDays(0, 3));
    DueFromStartOfDueDay(p, 10 * hour, Time.AddDays(0, 3) + 5 * hour);
  }

  /** `notes || null` */
  function NullIfEmpty(notes: Option<string>): (r: Option<string>)
    ensures r.Some? <==> notes.Some? && notes.value != ""
    ensures r.Some? ==> r == notes
  {
    if notes.Some? && notes.value != "" then notes else None
  }

  /** Slot of the row with primary key `id` (-1 when there is none). */
  function UserPlantIndex(rows: seq<UserPlant>, id: int): (i: int)
    ensures -1 <= i < |rows|
    ensures 0 <= i ==> rows[i].id == id
    ensures i < 0 <==> forall j :: 0 <= j < |rows| ==> rows[j].id != id
  {
    Seqs.FindIndex(rows, (p: UserPlant) => p.id == id)
  }

  function NotUserPlant(id: int): UserPlant -> bool {
    (p: UserPlant) => p.id != id
  }

  /** The table after `delete from user_plants where id = ...`. */
  function WithoutUserPlant(rows: seq<UserPlant>, id: int): (r: seq<UserPlant>)
    ensures forall p :: p in r <==> p in rows && p.id != id
  {
    Seqs.Filter(rows, NotUserPlant(id))
  }

  predicate IsPair(w: WishlistItem, userId: int, plantId: int) {
    w.userId == userId && w.plantId == plantId
  }

  /** Some row of the wishlist pairs the user with the plant. */
  predicate InWishlist(rows: seq<WishlistItem>, userId: int, plantId: int) {
    exists i :: 0 <= i < |rows| && IsPair(rows[i], userId, plantId)
  }

  function NotPair(userId: int, plantId: int): WishlistItem -> bool {
    (w: WishlistItem) => !IsPair(w, userId, plantId)
  }

  /** The wishlist after `delete ... where userId = ... and plantId = ...`. */
  function WithoutPair(rows: seq<WishlistItem>, userId: int, plantId: int): (r: seq<WishlistItem>)
    ensures forall w :: w in r <==> w in rows && !IsPair(w, userId, plantId)
    ensures !InWishlist(r, userId, plantId)
  {
    Seqs.Filter(rows, NotPair(userId, plantId))
  }

  /** The catalog plant with primary key `id`. */
  function PlantById(plants: seq<Plant>, id: int): (r: Option<Plant>)
    ensures r.Some? <==> exists i :: 0 <= i < |plants| && plants[i].id == id
    ensures r.Some? ==> r.value in plants && r.value.id == id
  {
    Seqs.Find(plants, (p: Plant) => p.id == id)
  }

  /** Wishlist rows joined with their plants, in wishlist order; a row whose
      plant is missing from the catalog is skipped. */
  function WithPlants(items: seq<WishlistItem>, plants: seq<Plant>): (r: seq<WishlistEntry>)
    ensures |r| <= |items|
    ensures forall e :: e in r ==> e.item in items && e.plant in plants && e.plant.id == e.item.plantId
    ensures forall k :: 0 <= k < |items| && PlantById(plants, items[k].plantId).Some? ==>
              WishlistEntry(items[k], PlantById(plants, items[k].plantId).value) in r
  {
    if items == [] then []
    else
      var front := items[..|items| - 1];
      var last := items[|items| - 1];
      assert forall k :: 0 <= k < |front| ==> front[k] == items[k];
      var rest := WithPlants(front, plants);
      match PlantById(plants, last.plantId)
      case None => rest
      case Some(p) => rest + [WishlistEntry(last, p)]
  }

  /** Comparator of `orderBy(desc(wateredDate))`. */
  function NewestFirst(a: WateringHistory, b: WateringHistory): int {
    b.wateredDate - a.wateredDate
  }

  lemma NewestFirstConsistent()
    ensures Seqs.Consistent(NewestFirst)
  {
  }

  function ForPlant(userPlantId: int): WateringHistory -> bool {
    (w: WateringHistory) => w.userPlantId == userPlantId
  }

  // --- getPlantsNeedingWater / getUpcomingWateringPlants / getHealthyPlants ---

  function NeedingWater(rows: seq<UserPlant>, userId: int, today: int): (r: seq<UserPlant>)
    ensures forall p :: p in r <==>
              p in rows && p.userId == userId && p.nextWaterDate.Some? && p.nextWaterDate.value <= today
  {
    Seqs.Filter(rows, (p: UserPlant) =>
      p.userId == userId && p.nextWaterDate.Some? && p.nextWaterDate.value <= today)
  }

  function UpcomingWatering(rows: seq<UserPlant>, userId: int, today: int): (r: seq<UserPlant>)
    ensures forall p :: p in r <==>
              p in rows && p.userId == userId && p.nextWaterDate.Some?
              && today < p.nextWaterDate.value <= Time.AddDays(today, 3)
  {
    Seqs.Filter(rows, (p: UserPlant) =>
      p.userId == userId && p.nextWaterDate.Some?
      && today < p.nextWaterDate.value <= Time.AddDays(today, 3))
  }

  function HealthyPlants(rows: seq<UserPlant>, userId: int, today: int): (r: seq<UserPlant>)
    ensures forall p :: p in r <==>
              p in rows && p.userId == userId && p.nextWaterDate.Some?
              && p.nextWaterDate.value > Time.AddDays(today, 3)
  {
    Seqs.Filter(rows, (p: UserPlant) =>
      p.userId == userId && p.nextWaterDate.Some? && p.nextWaterDate.value > Time.AddDays(today, 3))
  }

  function InCount(b: bool): nat {
    if b then 1 else 0
  }

  /** The three queries split a user's scheduled plants: each lands in exactly
      one of them, and a plant with no next date (or of another user) in none. */
  lemma StatusQueriesPartition(rows: seq<UserPlant>, userId: int, today: int, p: UserPlant)
    requires p in rows
    ensures InCount(p in NeedingWater(rows, userId, today))
            + InCount(p in UpcomingWatering(rows, userId, today))
            + InCount(p in HealthyPlants(rows, userId, today))
            == InCount(p.userId == userId && p.nextWaterDate.Some?)
  {
  }

  /** The server's "upcoming" window starts right after the current instant,
      while the client hook counts anything due within a day as needing
      water: a plant due in twelve hours is in both camps. */
  lemma UpcomingQueryVersusHook(rows: seq<UserPlant>, today: int, p: UserPlant)
    requires p in rows && p.lastWatered.Some? && p.nextWaterDate == Some(today + Time.Day / 2)
    ensures p in UpcomingWatering(rows, p.userId, today)
    ensures WaterStatus.UseWaterStatus(today, p).status == NeedsWater
  {
  }

  /** The database storage: five tables and their serial counters. */
  class DatabaseStorage {
    var plants: seq<Plant>
    var categories: seq<Category>
    var userPlants: seq<UserPlant>
    var wateringHistory: seq<WateringHistory>
    var wishlist: seq<WishlistItem>
    var plantSerial: int
    var userPlantSerial: int
    var historySerial: int
    var wishlistSerial: int

    /** Primary keys are below their serial counter and unique; a user has at
        most one wishlist row per plant; the `date` columns hold whole days. */
    ghost predicate Valid()
      reads this
    {
      && (forall i :: 0 <= i < |plants| ==> plants[i].id < plantSerial)
      && (forall i :: 0 <= i < |userPlants| ==> userPlants[i].id < userPlantSerial)
      && (forall i, j :: 0 <= i < j < |userPlants| ==> userPlants[i].id != userPlants[j].id)
      && (forall i :: 0 <= i < |userPlants| ==> DatesAligned(userPlants[i]))
      && (forall i :: 0 <= i < |wateringHistory| ==> wateringHistory[i].wateredDate % Time.Day == 0)
      && (forall i :: 0 <= i < |wateringHistory| ==> wateringHistory[i].id < historySerial)
      && (forall i :: 0 <= i < |wishlist| ==> wishlist[i].id < wishlistSerial)
      && (forall i, j :: 0 <= i < j < |wishlist| ==>
            !IsPair(wishlist[j], wishlist[i].userId, wishlist[i].plantId))
    }

    /** An empty database; every serial starts at 1. */
    constructor ()
      ensures Valid()
      ensures plants == [] && categories == [] && userPlants == []
      ensures wateringHistory == [] && wishlist == []
    {
      plants, categories, userPlants, wateringHistory, wishlist := [], [], [], [], [];
      plantSerial, userPlantSerial, historySerial, wishlistSerial := 1, 1, 1, 1;
    }

    function GetPlant(id: int): (r: Option<Plant>)
      reads this
      ensures r.Some? <==> exists i :: 0 <= i < |plants| && plants[i].id == id
      ensures r.Some? ==> r.value in plants && r.value.id == id
    {
      PlantById(plants, id)
    }

    function GetPlantsByCategory(category: string): (r: seq<Plant>)
      reads this
      ensures forall p :: p in r <==> p in plants && p.category == category
    {
      Seqs.Filter(plants, (p: Plant) => p.category == category)
    }

    function GetUserPlants(userId: int): (r: seq<UserPlant>)
      reads this
      ensures forall p :: p in r <==> p in userPlants && p.userId == userId
    {
      Seqs.Filter(userPlants, (p: UserPlant) => p.userId == userId)
    }

    function GetUserPlant(id: int): (r: Option<UserPlant>)
      reads this
      ensures r.Some? <==> UserPlantIndex(userPlants, id) >= 0
      ensures r.Some? ==> r.value == userPlants[UserPlantIndex(userPlants, id)]
    {
      var i := UserPlantIndex(userPlants, id);
      if i < 0 then None else Some(userPlants[i])
    }

    /** Inserts a catalog plant and raises its category's plant count. */
    method CreatePlant(insert: InsertPlant) returns (created: Plant)
      requires Valid()
      modifies this
      ensures Valid()
      ensures created == Plant(old(plantSerial), insert.name, insert.botanicalName,
                               insert.description, insert.imageUrl, insert.wateringFrequency,
                               insert.lightRequirements, insert.difficulty, insert.category)
      ensures plants == old(plants) + [created]
      ensures categories == BumpCategory(old(categories), insert.category)
      ensures userPlants == old(userPlants) && wateringHistory == old(wateringHistory)
      ensures wishlist == old(wishlist)
    {
      created := Plant(plantSerial, insert.name, insert.botanicalName, insert.description,
                       insert.imageUrl, insert.wateringFrequency, insert.lightRequirements,
                       insert.difficulty, insert.category);
      plantSerial := plantSerial + 1;
      plants := plants + [created];
      categories := BumpCategory(categories, insert.category);
    }

    /** Inserts a plant into a user's collection at instant `now`. */
    method CreateUserPlant(insert: InsertUserPlant, now: int) returns (created: UserPlant)
      requires Valid()
      modifies this
      ensures Valid()
      ensures created == NewUserPlant(old(userPlantSerial), insert, now)
      ensures userPlants == old(userPlants) + [created]
      ensures forall p :: p in old(userPlants) ==> p.id < created.id
      ensures plants == old(plants) && categories == old(categories)
      ensures wateringHistory == old(wateringHistory) && wishlist == old(wishlist)
    {
      created := NewUserPlant(userPlantSerial, insert, now);
      userPlantSerial := userPlantSerial + 1;
      userPlants := userPlants + [created];
    }

    /** Applies a partial update to the row with key `id`; `None` when there is
        no such row. */
    method UpdateUserPlant(id: int, u: UserPlantUpdate) returns (r: Option<UserPlant>)
      requires Valid()
      modifies this
      ensures Valid()
      ensures var i := UserPlantIndex(old(userPlants), id);
              && (i < 0 ==> r.None? && userPlants == old(userPlants))
              && (i >= 0 ==> && r == Some(ApplyUpdate(old(userPlants)[i], u))
                             && userPlants == old(userPlants)[i := r.value])
      ensures plants == old(plants) && categories == old(categories)
      ensures wateringHistory == old(wateringHistory) && wishlist == old(wishlist)
    {
      var i := UserPlantIndex(userPlants, id);
      if i < 0 {
        return None;
      }
      var updated := ApplyUpdate(userPlants[i], u);
      userPlants := userPlants[i := updated];
      r := Some(updated);
    }

    /** Deletes the row with key `id`; true when a row was deleted. */
    method DeleteUserPlant(id: int) returns (deleted: bool)
      requires Valid()
      modifies this
      ensures Valid()
      ensures userPlants == WithoutUserPlant(old(userPlants), id)
      ensures deleted <==> UserPlantIndex(old(userPlants), id) >= 0
      ensures plants == old(plants) && categories == old(categories)
      ensures wateringHistory == old(wateringHistory) && wishlist == old(wishlist)
    {
      var i := UserPlantIndex(userPlants, id);
      if i < 0 {
        Seqs.FilterAll(userPlants, NotUserPlant(id));
        return false;
      }
      Seqs.FilterRemovesSlot(userPlants, NotUserPlant(id), i);
      userPlants := userPlants[..i] + userPlants[i + 1..];
      deleted := true;
    }

    /** A plant's watering records, newest first. */
    function GetWateringHistory(userPlantId: int): (r: seq<WateringHistory>)
      reads this
      ensures multiset(r) == multiset(Seqs.Filter(wateringHistory, ForPlant(userPlantId)))
      ensures forall w :: w in r <==> w in wateringHistory && w.userPlantId == userPlantId
      ensures forall i, j :: 0 <= i < j < |r| ==> r[i].wateredDate >= r[j].wateredDate
    {
      var rows := Seqs.Filter(wateringHistory, ForPlant(userPlantId));
      NewestFirstConsistent();
      Seqs.SortBySorted(rows, NewestFirst);
      var r := Seqs.SortBy(rows, NewestFirst);
      assert forall w :: w in r <==> w in multiset(rows);
      r
    }

    /** Inserts a watering record; its `date` column keeps the day. */
    method CreateWateringRecord(insert: InsertWateringHistory) returns (created: WateringHistory)
      requires Valid()
      modifies this
      ensures Valid()
      ensures created == WateringHistory(old(historySerial), insert.userPlantId,
                                         Time.StartOfDay(insert.wateredDate), insert.notes)
      ensures wateringHistory == old(wateringHistory) + [created]
      ensures plants == old(plants) && categories == old(categories)
      ensures userPlants == old(userPlants) && wishlist == old(wishlist)
    {
      created := WateringHistory(historySerial, insert.userPlantId, Time.StartOfDay(insert.wateredDate),
                                 insert.notes);
      historySerial := historySerial + 1;
      wateringHistory := wateringHistory + [created];
    }

    /** Records a watering at instant `today`: the plant's schedule restarts
        from today's day and a history row dated that day is added. A missing plant is an error and
        changes nothing. */
    method WaterPlant(userPlantId: int, notes: Option<string>, today: int)
      returns (r: Result<WateringHistory, string>)
      requires Valid()
      modifies this
      ensures Valid()
      ensures var i := UserPlantIndex(old(userPlants), userPlantId);
              && (i < 0 ==> && r == Err("User plant not found")
                            && userPlants == old(userPlants)
                            && wateringHistory == old(wateringHistory))
              && (i >= 0 ==> && r.Ok?
                             && userPlants == old(userPlants)[i := Watered(old(userPlants)[i], today)]
                             && wateringHistory == old(wateringHistory) + [r.value]
                             && r.value.userPlantId == userPlantId
                             && r.value.wateredDate == Time.StartOfDay(today)
                             && r.value.notes == NullIfEmpty(notes))
      ensures plants == old(plants) && categories == old(categories) && wishlist == old(wishlist)
    {
      var existing := GetUserPlant(userPlantId);
      if existing.None? {
        return Err("User plant not found");
      }
      WaterUpdateWaters(existing.value, today);
      var _ := UpdateUserPlant(userPlantId, WaterUpdate(today, existing.value.wateringFrequency));
      var record := CreateWateringRecord(InsertWateringHistory(userPlantId, today, NullIfEmpty(notes)));
      r := Ok(record);
    }

    function GetWishlist(userId: int): (r: seq<WishlistItem>)
      reads this
      ensures forall w :: w in r <==> w in wishlist && w.userId == userId
    {
      Seqs.Filter(wishlist, (w: WishlistItem) => w.userId == userId)
    }

    /** The user's wishlist joined with the catalog, one plant at a time. */
    method GetWishlistWithPlants(userId: int) returns (result: seq<WishlistEntry>)
      ensures result == WithPlants(GetWishlist(userId), plants)
    {
      var items := GetWishlist(userId);
      result := [];
      var i := 0;
      while i < |items|
        invariant 0 <= i <= |items|
        invariant result == WithPlants(items[..i], plants)
      {
        assert items[..i + 1][..i] == items[..i];
        var plant := GetPlant(items[i].plantId);
        if plant.Some? {
          result := result + [WishlistEntry(items[i], plant.value)];
        }
        i := i + 1;
      }
      assert items[..i] == items;
    }

    /** Adds the pair unless it is already there; returns the pair's row. */
    method AddToWishlist(userId: int, plantId: int) returns (item: WishlistItem)
      requires Valid()
      modifies this
      ensures Valid()
      ensures IsPair(item, userId, plantId) && item in wishlist
      ensures InWishlist(old(wishlist), userId, plantId) ==>
                wishlist == old(wishlist) && item in old(wishlist)
      ensures !InWishlist(old(wishlist), userId, plantId) ==>
                wishlist == old(wishlist) + [item] && item.id == old(wishlistSerial)
      ensures plants == old(plants) && categories == old(categories)
      ensures userPlants == old(userPlants) && wateringHistory == old(wateringHistory)
    {
      var existing := Seqs.Find(wishlist, (w: WishlistItem) => IsPair(w, userId, plantId));
      if existing.Some? {
        return existing.value;
      }
      item := WishlistItem(wishlistSerial, userId, plantId);
      wishlistSerial := wishlistSerial + 1;
      wishlist := wishlist + [item];
    }

    /** Deletes the pair's row; true when there was one. */
    method RemoveFromWishlist(userId: int, plantId: int) returns (removed: bool)
      requires Valid()
      modifies this
      ensures Valid()
      ensures wishlist == WithoutPair(old(wishlist), userId, plantId)
      ensures removed <==> InWishlist(old(wishlist), userId, plantId)
      ensures plants == old(plants) && categories == old(categories)
      ensures userPlants == old(userPlants) && wateringHistory == old(wateringHistory)
    {
      var i := Seqs.FindIndex(wishlist, (w: WishlistItem) => IsPair(w, userId, plantId));
      if i < 0 {
        Seqs.FilterAll(wishlist, NotPair(userId, plantId));
        return false;
      }
      Seqs.FilterRemovesSlot(wishlist, NotPair(userId, plantId), i);
      wishlist := wishlist[..i] + wishlist[i + 1..];
      removed := true;
    }

    function IsInWishlist(userId: int, plantId: int): (b: bool)
      reads this
      ensures b <==> InWishlist(wishlist, userId, plantId)
    {
      Seqs.Find(wishlist, (w: WishlistItem) => IsPair(w, userId, plantId)).Some?
    }
  }
}
