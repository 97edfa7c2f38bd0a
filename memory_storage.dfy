/** The in-memory storage of the server. All tables draw their primary keys
    from one counter. Dates are kept as 'yyyy-MM-dd' strings, which compare
    like the calendar days they name; here a date is its day number, so
    adding n days is adding n. Timestamps (`createdAt`) are instants. */
module MemoryStorage {
  import opened Common
  import opened Schema
  import Seqs

  function CategoryIndex(rows: seq<Category>, id: int): (i: int)
    ensures -1 <= i < |rows|
    ensures 0 <= i ==> rows[i].id == id && forall j :: 0 <= j < i ==> rows[j].id != id
    ensures i < 0 <==> forall j :: 0 <= j < |rows| ==> rows[j].id != id
  {
    Seqs.FindIndex(rows, (c: Category) => c.id == id)
  }

  function UserPlantIndex(rows: seq<UserPlant>, id: int): (i: int)
    ensures -1 <= i < |rows|
    ensures 0 <= i ==> rows[i].id == id && forall j :: 0 <= j < i ==> rows[j].id != id
    ensures i < 0 <==> forall j :: 0 <= j < |rows| ==> rows[j].id != id
  {
    Seqs.FindIndex(rows, (p: UserPlant) => p.id == id)
  }

  function NotUserPlant(id: int): UserPlant -> bool {
    (p: UserPlant) => p.id != id
  }

  /** The schedule a collection entry gets on creation, and again on every
      watering: watered today, due again after its frequency in days. */
  function Scheduled(p: UserPlant, today: int): (r: UserPlant)
    ensures r.lastWatered == Some(today)
    ensures r.nextWaterDate == Some(today + p.wateringFrequency)
    ensures r.(lastWatered := p.lastWatered, nextWaterDate := p.nextWaterDate) == p
  {
    p.(lastWatered := Some(today), nextWaterDate := Some(today + p.wateringFrequency))
  }

  // --- the status queries, with `today` and `nextWeek` as day numbers ---

  function NeedingWater(rows: seq<UserPlant>, userId: int, today: int): (r: seq<UserPlant>)
    ensures forall p :: p in r <==>
              p in rows && p.userId == userId && p.nextWaterDate.Some? && p.nextWaterDate.value <= today
  {
    Seqs.Filter(rows, (p: UserPlant) =>
      p.userId == userId && p.nextWaterDate.Some? && p.nextWaterDate.value <= today)
  }

  function HealthyPlants(rows: seq<UserPlant>, userId: int, today: int): (r: seq<UserPlant>)
    ensures forall p :: p in r <==>
              p in rows && p.userId == userId && p.nextWaterDate.Some? && p.nextWaterDate.value > today
  {
    Seqs.Filter(rows, (p: UserPlant) =>
      p.userId == userId && p.nextWaterDate.Some? && p.nextWaterDate.value > today)
  }

  function UpcomingWatering(rows: seq<UserPlant>, userId: int, today: int): (r: seq<UserPlant>)
    ensures forall p :: p in r <==>
              p in rows && p.userId == userId && p.nextWaterDate.Some?
              && today < p.nextWaterDate.value <= today + 7
  {
    Seqs.Filter(rows, (p: UserPlant) =>
      p.userId == userId && p.nextWaterDate.Some?
      && today < p.nextWaterDate.value && p.nextWaterDate.value <= today + 7)
  }

  /** "Needs water" and "healthy" split a user's scheduled plants in two,
      and "upcoming" is the part of "healthy" due within a week. */
  lemma {:induction false} StatusQueriesSplit(rows: seq<UserPlant>, userId: int, today: int)
    ensures forall p :: p in rows && p.userId == userId && p.nextWaterDate.Some? ==>
              (p in NeedingWater(rows, userId, today) <==> p !in HealthyPlants(rows, userId, today))
    ensures forall p :: p in UpcomingWatering(rows, userId, today) ==>
              p in HealthyPlants(rows, userId, today)
    ensures |NeedingWater(rows, userId, today)| + |HealthyPlants(rows, userId, today)| ==
              |Seqs.Filter(rows, (p: UserPlant) => p.userId == userId && p.nextWaterDate.Some?)|
  {
    if rows != [] {
      StatusQueriesSplit(rows[1..], userId, today);
    }
  }

  /** The in-memory store. */
  class InMemoryStorage {
    var plants: seq<Plant>
    var userPlants: seq<UserPlant>
    var wateringHistory: seq<WateringHistory>
    var categories: seq<Category>
    var nextId: int

    /** Every key is below the shared counter; categories and collection
        entries have unique keys. */
    ghost predicate Valid()
      reads this
    {
      && (forall i :: 0 <= i < |plants| ==> plants[i].id < nextId)
      && (forall i :: 0 <= i < |userPlants| ==> userPlants[i].id < nextId)
      && (forall i :: 0 <= i < |wateringHistory| ==> wateringHistory[i].id < nextId)
      && (forall i :: 0 <= i < |categories| ==> categories[i].id < nextId)
      && (forall i, j :: 0 <= i < j < |userPlants| ==> userPlants[i].id != userPlants[j].id)
      && (forall i, j :: 0 <= i < j < |categories| ==> categories[i].id != categories[j].id)
    }

    /** `new InMemoryStorage()`: empty tables, counter at 1. */
    constructor ()
      ensures Valid() && nextId == 1
      ensures plants == [] && userPlants == [] && wateringHistory == [] && categories == []
    {
      plants, userPlants, wateringHistory, categories := [], [], [], [];
      nextId := 1;
    }

    function GetPlant(id: int): (r: Option<Plant>)
      reads this
      ensures r.Some? <==> exists i :: 0 <= i < |plants| && plants[i].id == id
      ensures r.Some? ==> r.value in plants && r.value.id == id
    {
      Seqs.Find(plants, (p: Plant) => p.id == id)
    }

    function GetCategory(name: string): (r: Option<Category>)
      reads this
      ensures r.Some? <==> exists i :: 0 <= i < |categories| && categories[i].name == name
      ensures r.Some? ==> r.value in categories && r.value.name == name
    {
      var i := CategoryNamed(categories, name);
      if i < 0 then None else Some(categories[i])
    }

    /** Replaces the category with the same key; an unknown key is an error. */
    method UpdateCategory(c: Category) returns (r: Result<Category, string>)
      requires Valid()
      modifies this
      ensures Valid()
      ensures var i := CategoryIndex(old(categories), c.id);
              && (i < 0 ==> r == Err("Category not found") && categories == old(categories))
              && (i >= 0 ==> r == Ok(c) && categories == old(categories)[i := c])
      ensures plants == old(plants) && userPlants == old(userPlants)
      ensures wateringHistory == old(wateringHistory) && nextId == old(nextId)
    {
      var i := CategoryIndex(categories, c.id);
      if i == -1 {
        return Err("Category not found");
      }
      categories := categories[i := c];
      r := Ok(c);
    }

    /** Stores a catalog plant under a fresh key and raises its category's
        plant count. */
    method CreatePlant(insert: InsertPlant) returns (created: Plant)
      requires Valid()
      modifies this
      ensures Valid()
      ensures created == Plant(old(nextId), insert.name, insert.botanicalName,
                               insert.description, insert.imageUrl, insert.wateringFrequency,
                               insert.lightRequirements, insert.difficulty, insert.category)
      ensures forall p :: p in old(plants) ==> p.id < created.id
      ensures plants == old(plants) + [created]
      ensures categories == BumpCategory(old(categories), insert.category)
      ensures userPlants == old(userPlants) && wateringHistory == old(wateringHistory)
    {
      created := Plant(nextId, insert.name, insert.botanicalName, insert.description,
                       insert.imageUrl, insert.wateringFrequency, insert.lightRequirements,
                       insert.difficulty, insert.category);
      nextId := nextId + 1;
      plants := plants + [created];
      CountPlantIn(insert.category);
    }

    /** The category step of `createPlant`: the category called `name`, if
        any, is written back with its count raised by one. */
    method CountPlantIn(name: string)
      requires Valid()
      modifies this
      ensures Valid()
      ensures categories == BumpCategory(old(categories), name)
      ensures plants == old(plants) && userPlants == old(userPlants)
      ensures wateringHistory == old(wateringHistory) && nextId == old(nextId)
    {
      ghost var before := categories;
      ghost var k := CategoryNamed(categories, name);
      var category := GetCategory(name);
      if category.Some? {
        var c := category.value;
        var bumped := c.(plantCount := Some(c.plantCount.GetOr(0) + 1));
        assert c == before[k];
        assert BumpCategory(before, name) == before[k := bumped];
        assert forall j :: 0 <= j < k ==> before[j].id != c.id;
        assert CategoryIndex(before, c.id) == k;
        var _ := UpdateCategory(bumped);
        assert categories == before[k := bumped];
      } else {
        assert BumpCategory(before, name) == before;
      }
    }

    /** Adds a plant to a collection, watered `today` (a day number) and
        created at instant `now`; any dates in the input are ignored. */
    method CreateUserPlant(insert: InsertUserPlant, today: int, now: int) returns (created: UserPlant)
      requires Valid()
      modifies this
      ensures Valid()
      ensures created.id == old(nextId) && forall p :: p in old(userPlants) ==> p.id < created.id
      ensures && created.userId == insert.userId && created.plantId == insert.plantId
              && created.nickname == insert.nickname && created.location == insert.location
              && created.wateringFrequency == insert.wateringFrequency
              && created.imageUrl == insert.imageUrl && created.notes == insert.notes
      ensures created.lastWatered == Some(today)
      ensures created.nextWaterDate == Some(today + insert.wateringFrequency)
      ensures created.createdAt == Some(now)
      ensures userPlants == old(userPlants) + [created]
      ensures plants == old(plants) && categories == old(categories)
      ensures wateringHistory == old(wateringHistory)
    {
      created := UserPlant(nextId, insert.userId, insert.plantId, insert.nickname, insert.location,
                           Some(today), insert.wateringFrequency,
                           Some(today + insert.wateringFrequency), insert.imageUrl, insert.notes,
                           Some(now));
      nextId := nextId + 1;
      userPlants := userPlants + [created];
    }

    function GetUserPlant(id: int): (r: Option<UserPlant>)
      reads this
      ensures r.Some? <==> UserPlantIndex(userPlants, id) >= 0
      ensures r.Some? ==> r.value == userPlants[UserPlantIndex(userPlants, id)]
    {
      var i := UserPlantIndex(userPlants, id);
      if i < 0 then None else Some(userPlants[i])
    }

    /** Replaces the entry with the same key; an unknown key is an error. */
    method UpdateUserPlant(p: UserPlant) returns (r: Result<UserPlant, string>)
      requires Valid()
      modifies this
      ensures Valid()
      ensures var i := UserPlantIndex(old(userPlants), p.id);
              && (i < 0 ==> r == Err("User plant not found") && userPlants == old(userPlants))
              && (i >= 0 ==> r == Ok(p) && userPlants == old(userPlants)[i := p])
      ensures plants == old(plants) && categories == old(categories)
      ensures wateringHistory == old(wateringHistory) && nextId == old(nextId)
    {
      var i := UserPlantIndex(userPlants, p.id);
      if i == -1 {
        return Err("User plant not found");
      }
      userPlants := userPlants[i := p];
      r := Ok(p);
    }

    method CreateWateringHistory(insert: InsertWateringHistory) returns (created: WateringHistory)
      requires Valid()
      modifies this
      ensures Valid()
      ensures created == WateringHistory(old(nextId), insert.userPlantId, insert.wateredDate, insert.notes)
      ensures wateringHistory == old(wateringHistory) + [created]
      ensures plants == old(plants) && categories == old(categories) && userPlants == old(userPlants)
    {
      created := WateringHistory(nextId, insert.userPlantId, insert.wateredDate, insert.notes);
      nextId := nextId + 1;
      wateringHistory := wateringHistory + [created];
    }

    /** Records a watering on day `today`: the entry's schedule restarts and a
        history row keeps the notes as given (`notes ?? null`). A missing
        entry is an error and changes nothing. */
    method WaterPlant(userPlantId: int, notes: Option<string>, today: int) returns (r: Result<(), string>)
      requires Valid()
      modifies this
      ensures Valid()
      ensures var i := UserPlantIndex(old(userPlants), userPlantId);
              && (i < 0 ==> && r == Err("User plant not found")
                            && userPlants == old(userPlants)
                            && wateringHistory == old(wateringHistory))
              && (i >= 0 ==> && r.Ok?
                             && userPlants == old(userPlants)[i := Scheduled(old(userPlants)[i], today)]
                             && wateringHistory == old(wateringHistory) +
                                  [WateringHistory(old(nextId), userPlantId, today, notes)])
      ensures plants == old(plants) && categories == old(categories)
    {
      var existing := GetUserPlant(userPlantId);
      if existing.None? {
        return Err("User plant not found");
      }
      var _ := UpdateUserPlant(Scheduled(existing.value, today));
      var _ := CreateWateringHistory(InsertWateringHistory(userPlantId, today, notes));
      r := Ok(());
    }

    method CreateCategory(insert: InsertCategory) returns (created: Category)
      requires Valid()
      modifies this
      ensures Valid()
      ensures created == Category(old(nextId), insert.name, insert.description,
                                  insert.imageUrl, insert.plantCount)
      ensures categories == old(categories) + [created]
      ensures plants == old(plants) && userPlants == old(userPlants)
      ensures wateringHistory == old(wateringHistory)
    {
      created := Category(nextId, insert.name, insert.description, insert.imageUrl, insert.plantCount);
      nextId := nextId + 1;
      categories := categories + [created];
    }

    function GetPlantsByCategory(category: string): (r: seq<Plant>)
      reads this
      ensures forall p :: p in r <==> p in plants && p.category == category
    {
      Seqs.Filter(plants, (p: Plant) => p.category == category)
    }

    function GetAllUserPlants(userId: int): (r: seq<UserPlant>)
      reads this
      ensures forall p :: p in r <==> p in userPlants && p.userId == userId
      ensures Seqs.IsSubsequence(r, userPlants)
    {
      Seqs.FilterIsSubsequence(userPlants, (p: UserPlant) => p.userId == userId);
      Seqs.Filter(userPlants, (p: UserPlant) => p.userId == userId)
    }

    /** Removes the first entry with key `id`; false when there is none. */
    method DeleteUserPlant(id: int) returns (deleted: bool)
      requires Valid()
      modifies this
      ensures Valid()
      ensures var i := UserPlantIndex(old(userPlants), id);
              && (deleted <==> i >= 0)
              && (i >= 0 ==> userPlants == old(userPlants)[..i] + old(userPlants)[i + 1..])
              && (i < 0 ==> userPlants == old(userPlants))
      ensures userPlants == Seqs.Filter(old(userPlants), NotUserPlant(id))
      ensures plants == old(plants) && categories == old(categories)
      ensures wateringHistory == old(wateringHistory) && nextId == old(nextId)
    {
      var i := UserPlantIndex(userPlants, id);
      if i == -1 {
        Seqs.FilterAll(userPlants, NotUserPlant(id));
        return false;
      }
      Seqs.FilterRemovesSlot(userPlants, NotUserPlant(id), i);
      ghost var before := userPlants;
      userPlants := userPlants[..i] + userPlants[i + 1..];
      assert forall k :: 0 <= k < |userPlants| ==>
               userPlants[k] == before[if k < i then k else k + 1];
      deleted := true;
    }

    /** A plant's watering records, in the order they were written. */
    function GetWateringHistory(userPlantId: int): (r: seq<WateringHistory>)
      reads this
      ensures forall w :: w in r <==> w in wateringHistory && w.userPlantId == userPlantId
      ensures Seqs.IsSubsequence(r, wateringHistory)
    {
      Seqs.FilterIsSubsequence(wateringHistory, (w: WateringHistory) => w.userPlantId == userPlantId);
      Seqs.Filter(wateringHistory, (w: WateringHistory) => w.userPlantId == userPlantId)
    }
  }
}
