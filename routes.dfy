/** Decision logic of the HTTP routes: the guard every per-plant route runs
    before touching storage, the PATCH field whitelist, the notes handed to
    the water operation, and the status codes chosen from storage answers.
    Storage is reached through function parameters (an abstract interface). */
module Routes {
  import opened Common
  import JsString
  import DbStorage
  import Schema

  /** What a guard decides: answer now with an error, or go on with the id. */
  datatype Guard = Reject(status: int, message: string) | Proceed(id: int)

  /** The guard of the per-id collection routes (view, update, delete,
      history, water): a non-numeric id, then a missing plant, then another
      owner. `ownerOf` answers `getUserPlant(id)?.userId`; `action` is the verb
      of the route's 403 message. */
  function UserPlantGuard(idParam: string, ownerOf: int -> Option<int>, userId: int, action: string)
    : (r: Guard)
    ensures JsString.ParseInt(idParam).None? ==> r == Reject(400, "Invalid ID format")
    ensures r.Proceed? <==> JsString.ParseInt(idParam).Some? && ownerOf(JsString.ParseInt(idParam).value) == Some(userId)
    ensures r.Proceed? ==> r.id == JsString.ParseInt(idParam).value
    ensures r == Reject(404, "User plant not found") <==>
              JsString.ParseInt(idParam).Some? && ownerOf(JsString.ParseInt(idParam).value).None?
    ensures r.Reject? && r.status == 403 <==>
              && JsString.ParseInt(idParam).Some?
              && ownerOf(JsString.ParseInt(idParam).value).Some?
              && ownerOf(JsString.ParseInt(idParam).value) != Some(userId)
    ensures r.Reject? ==> r.status in {400, 403, 404}
  {
    match JsString.ParseInt(idParam)
    case None => Reject(400, "Invalid ID format")
    case Some(id) =>
      match ownerOf(id)
      case None => Reject(404, "User plant not found")
      case Some(owner) =>
        if owner != userId then Reject(403, "You do not have permission to " + action + " this plant")
        else Proceed(id)
  }

  /** The checks run in order: an id that does not parse is reported as such
      even when no plant could match, and a missing plant is reported before
      any ownership question. */
  lemma GuardOrder(idParam: string, ownerOf: int -> Option<int>, userId: int, action: string)
    ensures (forall id :: ownerOf(id).None?) ==>
              UserPlantGuard(idParam, ownerOf, userId, action).status in {400, 404}
    ensures JsString.ParseInt(idParam).None? ==>
              forall other: int -> Option<int> :: UserPlantGuard(idParam, other, userId, action) ==
                                                  UserPlantGuard(idParam, ownerOf, userId, action)
  {
  }

  /** The keys a PATCH may change. */
  const AllowedFields: seq<string> := ["nickname", "location", "wateringFrequency", "notes", "imageUrl"]

  /** The request body restricted to the first `n` allowed keys. */
  function Restrict<V>(body: map<string, V>, n: nat): (m: map<string, V>)
    requires n <= |AllowedFields|
  {
    map k | k in body && k in AllowedFields[..n] :: body[k]
  }

  /** The update object built by the PATCH route: exactly the allowed keys the
      body has, with the body's values. */
  method PickAllowed<V>(body: map<string, V>) returns (update: map<string, V>)
    ensures forall k :: k in update <==> k in body && k in AllowedFields
    ensures forall k :: k in update ==> update[k] == body[k]
  {
    update := map[];
    var i := 0;
    while i < |AllowedFields|
      invariant 0 <= i <= |AllowedFields|
      invariant update == Restrict(body, i)
    {
      var field := AllowedFields[i];
      if field in body {
        update := update[field := body[field]];
      }
      assert AllowedFields[..i + 1] == AllowedFields[..i] + [field];
      i := i + 1;
    }
    assert AllowedFields[..i] == AllowedFields;
  }

  /** `req.body.notes || ''` (a missing or empty note becomes ""). */
  function WaterNotes(notes: Option<string>): (r: string)
    ensures r == "" <==> notes.None? || notes.value == ""
    ensures r != "" ==> notes == Some(r)
  {
    if notes.Some? && notes.value != "" then notes.value else ""
  }

  /** Through the water route, the database store keeps a note exactly when
      the request carried a non-empty one. */
  lemma WaterRouteNotes(notes: Option<string>)
    ensures DbStorage.NullIfEmpty(Some(WaterNotes(notes))) == DbStorage.NullIfEmpty(notes)
  {
  }

  /** Status of DELETE /api/user-plants/:id after the guard passed. */
  function DeleteStatus(deleted: bool): (status: int)
    ensures status == 204 <==> deleted
    ensures !deleted ==> status == 500
  {
    if deleted then 204 else 500
  }

  /** Status of DELETE /api/wishlist/:plantId once the id parsed. */
  function WishlistDeleteStatus(removed: bool): (status: int)
    ensures status == 200 <==> removed
    ensures !removed ==> status == 404
  {
    if removed then 200 else 404
  }

  /** POST /api/wishlist/:plantId: a bad id, then a missing catalog plant;
      otherwise the item is added (or found) and the answer is 201. */
  function WishlistAddGuard(plantIdParam: string, plantExists: int -> bool): (r: Guard)
    ensures JsString.ParseInt(plantIdParam).None? <==> r == Reject(400, "Invalid plant ID")
    ensures r == Reject(404, "Plant not found") <==>
              JsString.ParseInt(plantIdParam).Some? && !plantExists(JsString.ParseInt(plantIdParam).value)
    ensures r.Proceed? <==>
              JsString.ParseInt(plantIdParam).Some? && plantExists(JsString.ParseInt(plantIdParam).value)
    ensures r.Proceed? ==> r.id == JsString.ParseInt(plantIdParam).value
  {
    match JsString.ParseInt(plantIdParam)
    case None => Reject(400, "Invalid plant ID")
    case Some(plantId) => if plantExists(plantId) then Proceed(plantId) else Reject(404, "Plant not found")
  }

  /** `getPlant(id)` finds a row of the catalog. */
  function CatalogHas(plants: seq<Schema.Plant>): int -> bool {
    (id: int) => DbStorage.PlantById(plants, id).Some?
  }

  /** Adding an existing catalog plant answers 201 whether or not the pair was
      already on the wishlist, and the wishlist then holds the pair once. */
  method AddToWishlistRoute(store: DbStorage.DatabaseStorage, userId: int, plantIdParam: string)
    returns (status: int)
    requires store.Valid()
    modifies store
    ensures store.Valid()
    ensures var g := WishlistAddGuard(plantIdParam, CatalogHas(store.plants));
            && (g.Reject? ==> status == g.status && store.wishlist == old(store.wishlist))
            && (g.Proceed? ==> status == 201 && DbStorage.InWishlist(store.wishlist, userId, g.id))
    ensures store.plants == old(store.plants) && store.userPlants == old(store.userPlants)
  {
    var g := WishlistAddGuard(plantIdParam, CatalogHas(store.plants));
    if g.Reject? {
      return g.status;
    }
    var item := store.AddToWishlist(userId, g.id);
    status := 201;
  }
}
