/** Row shapes of the shared schema and the client's status enumeration.
    Dates and timestamps are instants (`int`, milliseconds); a nullable
    column is an `Option`. */
module Schema {
  import opened Common
  import Seqs

  /** A catalog plant. */
  datatype Plant = Plant(
    id: int, name: string, botanicalName: string, description: string,
    imageUrl: Option<string>, wateringFrequency: int, lightRequirements: string,
    difficulty: string, category: string)

  datatype InsertPlant = InsertPlant(
    name: string, botanicalName: string, description: string,
    imageUrl: Option<string>, wateringFrequency: int, lightRequirements: string,
    difficulty: string, category: string)

  /** A plant in a user's collection, with its watering schedule. */
  datatype UserPlant = UserPlant(
    id: int, userId: int, plantId: int, nickname: Option<string>,
    location: Option<string>, lastWatered: Option<int>, wateringFrequency: int,
    nextWaterDate: Option<int>, imageUrl: Option<string>, notes: Option<string>,
    createdAt: Option<int>)

  datatype InsertUserPlant = InsertUserPlant(
    userId: int, plantId: int, nickname: Option<string>, location: Option<string>,
    lastWatered: Option<int>, wateringFrequency: int, nextWaterDate: Option<int>,
    imageUrl: Option<string>, notes: Option<string>)

  /** One watering event. */
  datatype WateringHistory = WateringHistory(
    id: int, userPlantId: int, wateredDate: int, notes: Option<string>)

  datatype InsertWateringHistory = InsertWateringHistory(
    userPlantId: int, wateredDate: int, notes: Option<string>)

  datatype Category = Category(
    id: int, name: string, description: string, imageUrl: Option<string>,
    plantCount: Option<int>)

  datatype InsertCategory = InsertCategory(
    name: string, description: string, imageUrl: Option<string>,
    plantCount: Option<int>)

  /** The client's watering status of an owned plant. */
  datatype PlantStatus = Healthy | NeedsWater | Upcoming

  /** Both schedule dates are set (a JavaScript truthiness test on each). */
  predicate HasSchedule(p: UserPlant) {
    p.lastWatered.Some? && p.nextWaterDate.Some?
  }

  /** Slot of the first category called `name` (-1 when there is none). */
  function CategoryNamed(categories: seq<Category>, name: string): (i: int)
    ensures -1 <= i < |categories|
    ensures 0 <= i ==> categories[i].name == name && forall j :: 0 <= j < i ==> categories[j].name != name
    ensures i < 0 <==> forall j :: 0 <= j < |categories| ==> categories[j].name != name
  {
    Seqs.FindIndex(categories, (c: Category) => c.name == name)
  }

  /** Category bookkeeping after a catalog plant is created: the category
      named like the plant gets its plantCount raised by one (a null count
      counts as 0); no matching category leaves the list as it is. */
  function BumpCategory(categories: seq<Category>, name: string): (r: seq<Category>)
    ensures |r| == |categories|
    ensures forall j :: 0 <= j < |r| ==>
              r[j] == if j == CategoryNamed(categories, name)
                      then categories[j].(plantCount := Some(categories[j].plantCount.GetOr(0) + 1))
                      else categories[j]
  {
    var i := CategoryNamed(categories, name);
    if i < 0 then categories
    else categories[i := categories[i].(plantCount := Some(categories[i].plantCount.GetOr(0) + 1))]
  }
}
