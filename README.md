# PlantPal watering schedule: a Dafny model

PlantPal is a house-plant care app. A user keeps a collection of plants
taken from a catalog. Each plant in a collection has a watering frequency in
days, a last-watered date and a next-watering date. The app classifies
plants as *needs water*, *upcoming* or *healthy* and keeps a watering
history. This project models the schedule logic and the small rules around
it, and proves properties of the model:

- **Status classifiers.** The `useWaterStatus` hook, the `plant-data`
  helpers and the progress widget (`WaterStatus`, `PlantData`,
  `WaterProgress`). Instants are integer milliseconds and `today`/`now` is
  a parameter. `differenceInDays` truncates toward zero (`Time`).
  Percentages are JavaScript numbers: a finite real, ±Infinity or NaN
  (`JsNumber`), so a zero frequency is modelled and not excluded.
- **Database storage** (`DbStorage`). A class whose tables are sequence
  fields and whose serial counters are integer fields. The `date` columns
  (`last_watered`, `next_water_date`, `watered_date`) keep only the UTC day
  of what is written to them, so every write stores the start of the day.
  The model keeps the next-watering rule on create, update and water-now,
  the wishlist as a set of (user, plant) pairs, and the three status
  queries, which partition a user's scheduled plants.
- **In-memory storage** (`MemoryStorage`). A class whose four lists are
  sequence fields and whose shared id counter is an integer field. Each
  `push`, `splice` and index assignment becomes a reassignment of the
  field with the new sequence. Its dates are day numbers (the source stores
  `yyyy-MM-dd` strings and compares them lexicographically).
- **Client ordering and filtering.**
  - The watering-history comparator (`PlantDetail`).
  - The collection filter and sort (`MyCollection`).
  - The catalog filter hook (`FilterPlants`).
  - Sorting is the stable insertion sort `Seqs.SortBy` over a comparator
    returning a number.
- **Inputs and guards.**
  - The add-plant form (`AddPlant`).
  - The route guards, the PATCH whitelist and the status codes (`Routes`).
  - The bearer-token middleware and the login/register schemas (`ServerAuth`).
  - The client auth store over browser storage (`AuthStore`).
  - The sign-up, sign-in and account validators (`Signup`, `Signin`,
    `Account`, sharing `Validation`).
  - Header link activity (`Header`) and the gallery image list
    (`PlantGallery`).

Foreign functions are parameters of the model:

| foreign function | parameter |
|---|---|
| `localeCompare` | a comparator |
| JWT verification and decoding | `verify`, `decode` |
| `JSON.parse` / `JSON.stringify` | `parse`, `stringify` |
| the schema library's email check | `isEmail` |
| the storage lookup behind a route guard | `ownerOf` |

## Model

| member | source | states |
|---|---|---|
| Time.DifferenceInDays | client/src/hooks/use-water-status.ts:28 | whole days between two instants, truncated toward zero: a result d ≥ 0 means the gap is at least d days and under d+1, and symmetrically for negative d |
| Time.DifferenceOfAddDays | client/src/lib/plant-data.ts:30-33 | adding n days and measuring the difference gives back n |
| Time.DifferenceInDaysMonotonic | client/src/hooks/use-water-status.ts:28 | the day difference never decreases as the later instant moves later |
| Time.StartOfDay | shared/schema.ts:47-49 | the whole-day instant at most a day before the given one |
| Time.StartOfDayUnique | shared/schema.ts:47-49 | a whole-day instant less than a day before t is the start of t's day |
| Time.StartOfDayAddDays | server/db-storage.ts:121-124 | adding whole days commutes with taking the day, so a next date computed from an instant and stored as a day is the stored last date plus the frequency |
| Time.DifferenceAtMost | client/src/hooks/use-water-status.ts:40-52 | a day-difference threshold k is the same as a bound on the instants: `d <= k` iff `later < earlier + (k+1) days` |
| WaterStatus.UseWaterStatus | client/src/hooks/use-water-status.ts:10-59 | missing dates give needs-water, 0% and orange; otherwise ≤0 days gives needs-water, 1–2 days upcoming and more healthy; the colour depends on the status alone |
| WaterStatus.PercentRemainingMeaning | client/src/hooks/use-water-status.ts:31-44 | with a positive frequency the percentage is `max(0, 100·days/frequency)`: finite and non-negative, 0 exactly when the status is needs-water, and otherwise exactly `100·days/frequency` |
| WaterStatus.PercentRemainingUnbounded | client/src/hooks/use-water-status.ts:31-34 | the percentage is not capped: more days left than the frequency gives over 100 |
| WaterStatus.FullCycleIsHundred | client/src/hooks/use-water-status.ts:28-34 | a plant due exactly one frequency from today has 100% left |
| WaterStatus.IgnoresLastWateredValue | client/src/hooks/use-water-status.ts:25-28 | once both dates are set, the value of lastWatered does not change the result |
| WaterStatus.StatusMonotonic | client/src/hooks/use-water-status.ts:40-52 | moving the next date later never makes the status more urgent |
| WaterStatus.ZeroFrequencyPercent | client/src/hooks/use-water-status.ts:31-34 | a zero frequency yields NaN on the due day and +Infinity before it |
| WaterStatus.ScenarioOverdue | client/src/hooks/use-water-status.ts:40-43 | weekly plant watered 8 days ago: needs water, 0%, orange |
| WaterStatus.ScenarioJustWatered | client/src/hooks/use-water-status.ts:48-52 | weekly plant watered today: healthy, 100%, green |
| WaterStatus.ScenarioUpcoming | client/src/hooks/use-water-status.ts:44-47 | 10-day plant due in two days: upcoming, 20%, blue |
| PlantData.GetPlantWateringStatus | client/src/lib/plant-data.ts:5-20 | missing dates give needs-water; a next date strictly before now gives needs-water; otherwise ≤2 whole days gives upcoming and more gives healthy |
| PlantData.CalculateNextWaterDate | client/src/lib/plant-data.ts:30-33 | the result is exactly `frequency` days after the last watering |
| PlantData.CalculateWaterProgress | client/src/lib/plant-data.ts:36-60 | 0 for missing dates or an overdue plant; with a positive cycle the progress lies in [0, 100] |
| PlantData.ProgressFullWhenJustWatered | client/src/lib/plant-data.ts:51-59 | on the day of watering a positive cycle gives 100 |
| PlantData.HookColourAgrees | client/src/lib/plant-data.ts:63-74 | the hook's colour is the colour `getWaterStatusColor` gives the hook's status |
| PlantData.GetWaterStatusText | client/src/lib/plant-data.ts:77-92 | the overdue text exactly when the status is needs-water and the next date is before now; the healthy text exactly when the status is healthy; "Water soon" is unreachable |
| PlantData.ClassifiersDisagreeOnDueDay | client/src/lib/plant-data.ts:13-19 | the two classifiers agree except that a plant due between now and the end of its due day is upcoming here and needs-water for the hook |
| PlantData.DueNowClassifiedDifferently | client/src/lib/plant-data.ts:13-16 | a plant due this instant is upcoming here and needs-water for the hook |
| PlantData.CapDiffers | client/src/lib/plant-data.ts:59 | for the same plant the progress is capped at 100 while the hook reports 200 |
| WaterProgress.NextWateringText | client/src/components/water-progress.tsx:12-23 | "Unknown" whenever the initial-watering flag is set; with both dates, "Today" when the next date is not after now and a relative date otherwise; "Not set" otherwise |
| WaterProgress.BarWidth | client/src/components/water-progress.tsx:34 | the width is never negative |
| WaterProgress.Render | client/src/components/water-progress.tsx:9-39 | the text, width and colour come from `nextWateringText`, the clamp and the hook |
| WaterProgress.BarIgnoresInitialWateringFlag | client/src/components/water-progress.tsx:10 | the flag changes the text only, never the bar's width or colour |
| WaterProgress.OverdueShowsToday | client/src/components/water-progress.tsx:15-20 | an overdue plant is labelled "Today" |
| WaterProgress.BarWidthCanExceedHundred | client/src/components/water-progress.tsx:34 | the width can reach 200 |
| Schema.CategoryNamed | server/storage.ts:67-69 | the index of the first category with that name, or -1 when there is none |
| Schema.BumpCategory | server/db-storage.ts:63-74 | the first category with the plant's name gets plantCount + 1 (null as 0); every other entry and the length are unchanged |
| DbStorage.DateOf | shared/schema.ts:47-49 | a `date` column stores the start of the UTC day of the instant written, and null as null |
| DbStorage.NewUserPlant | server/db-storage.ts:89-106 | the other columns as given and createdAt now; last watered stored as its day; a supplied next date stored as its day; otherwise next = the last-watered day + frequency when a last date is given, else none; both dates whole days |
| DbStorage.ApplyUpdate | server/db-storage.ts:108-137 | each supplied column is written, the others kept, a supplied last date as its day; a non-null new last date gives next = that day + effective frequency; else a supplied frequency with a stored last date gives next = that day + the new frequency, also when the last date is set to null; otherwise next is kept; whole-day dates and a consistent schedule are preserved |
| DbStorage.SuppliedNextWaterDateIgnored | server/db-storage.ts:117-131 | an update carrying only a next date leaves the row as it was: a supplied next date is never written |
| DbStorage.Watered | server/db-storage.ts:165-178 | last watered becomes today's day and next is `frequency` days after it; nothing else changes |
| DbStorage.WaterUpdateWaters | server/db-storage.ts:165-178 | `waterPlant`'s update object, passed through the update rule, gives exactly the watered row |
| DbStorage.DueFromStartOfDueDay | server/db-storage.ts:281-318 | a watered plant needs water from the first instant of its due day, whatever hour it was watered, and is then not upcoming |
| DbStorage.WateredAtTenDueAtFive | server/db-storage.ts:281-291 | a three-day plant watered at 10:00 is listed as needing water at 05:00 three days later |
| DbStorage.NullIfEmpty | server/db-storage.ts:180-184 | an empty or absent note is stored as null, any other note as given |
| DbStorage.UserPlantIndex | server/db-storage.ts:84-87 | the position of the row with that id, or -1 |
| DbStorage.WithoutUserPlant | server/db-storage.ts:139-145 | exactly the rows with another id |
| DbStorage.WithoutPair | server/db-storage.ts:257-266 | exactly the rows that are not the (user, plant) pair; the pair is no longer on the list |
| DbStorage.PlantById | server/db-storage.ts:51-54 | the catalog row with that id, if any |
| DbStorage.WithPlants | server/db-storage.ts:214-229 | every item whose plant exists is joined with that plant, and every entry joins a given item with its own plant |
| DbStorage.NewestFirstConsistent | server/db-storage.ts:148-154 | the history order (date descending) is a total preorder |
| DbStorage.NeedingWater | server/db-storage.ts:281-291 | exactly the user's plants with a next date ≤ today |
| DbStorage.UpcomingWatering | server/db-storage.ts:306-318 | exactly the user's plants due after today and at most 3 days ahead |
| DbStorage.HealthyPlants | server/db-storage.ts:293-304 | exactly the user's plants due more than 3 days ahead |
| DbStorage.StatusQueriesPartition | server/db-storage.ts:281-318 | every scheduled plant of the user is in exactly one of the three query results |
| DbStorage.UpcomingQueryVersusHook | server/db-storage.ts:306-318 | a plant due half a day from now is upcoming for the server and needs-water for the hook |
| DbStorage.DatabaseStorage.GetPlant | server/db-storage.ts:51-54 | the catalog plant with that id |
| DbStorage.DatabaseStorage.GetPlantsByCategory | server/db-storage.ts:56-58 | exactly the catalog plants of that category |
| DbStorage.DatabaseStorage.GetUserPlants | server/db-storage.ts:80-82 | exactly the user's plants |
| DbStorage.DatabaseStorage.GetUserPlant | server/db-storage.ts:84-87 | the row with that id |
| DbStorage.DatabaseStorage.CreatePlant | server/db-storage.ts:60-77 | appends the plant with a fresh id and bumps its category's count |
| DbStorage.DatabaseStorage.CreateUserPlant | server/db-storage.ts:89-106 | appends the row built by the next-date rule with a fresh id |
| DbStorage.DatabaseStorage.UpdateUserPlant | server/db-storage.ts:108-137 | an unknown id answers none and writes nothing; otherwise exactly that slot becomes the updated row |
| DbStorage.DatabaseStorage.DeleteUserPlant | server/db-storage.ts:139-145 | the table becomes exactly the rows with another id; the answer is whether a row had that id |
| DbStorage.DatabaseStorage.GetWateringHistory | server/db-storage.ts:148-154 | exactly that plant's records, ordered by watering date descending |
| DbStorage.DatabaseStorage.CreateWateringRecord | server/db-storage.ts:156-163 | appends the record with a fresh id, its watered date stored as its day |
| DbStorage.DatabaseStorage.WaterPlant | server/db-storage.ts:165-185 | an unknown plant is an error with nothing changed; otherwise the plant is rescheduled from today's day and exactly one history row dated today's day is added |
| DbStorage.DatabaseStorage.GetWishlist | server/db-storage.ts:207-212 | exactly the user's wishlist rows |
| DbStorage.DatabaseStorage.GetWishlistWithPlants | server/db-storage.ts:214-229 | the loop builds the user's items joined with their existing plants |
| DbStorage.DatabaseStorage.AddToWishlist | server/db-storage.ts:231-255 | an existing pair is returned unchanged; otherwise one row is appended; afterwards the pair is on the list once |
| DbStorage.DatabaseStorage.RemoveFromWishlist | server/db-storage.ts:257-266 | removes the pair; the answer is whether it was there |
| DbStorage.DatabaseStorage.IsInWishlist | server/db-storage.ts:268-278 | true iff a row holds the pair |
| MemoryStorage.CategoryIndex | server/storage.ts:71-73 | the position of the category with that id, or -1 |
| MemoryStorage.UserPlantIndex | server/storage.ts:105-107 | the position of the row with that id, or -1 |
| MemoryStorage.Scheduled | server/storage.ts:125-136 | last watered today and next `frequency` days later; nothing else changes |
| MemoryStorage.NeedingWater | server/storage.ts:182-189 | exactly the user's plants with a next date ≤ today |
| MemoryStorage.HealthyPlants | server/storage.ts:191-198 | exactly the user's plants with a next date > today |
| MemoryStorage.UpcomingWatering | server/storage.ts:200-209 | exactly the user's plants due after today and at most 7 days ahead |
| MemoryStorage.StatusQueriesSplit | server/storage.ts:182-209 | needs-water and healthy split the user's scheduled plants; upcoming lies inside healthy |
| MemoryStorage.InMemoryStorage.GetPlant | server/storage.ts:59-61 | the plant with that id |
| MemoryStorage.InMemoryStorage.GetCategory | server/storage.ts:67-69 | the first category with that name |
| MemoryStorage.InMemoryStorage.UpdateCategory | server/storage.ts:71-78 | an unknown id is the error "Category not found"; otherwise exactly that slot is replaced |
| MemoryStorage.InMemoryStorage.CreatePlant | server/storage.ts:38-57 | appends the plant under an id above all earlier ids and bumps its category's count |
| MemoryStorage.InMemoryStorage.CountPlantIn | server/storage.ts:48-55 | the category with that name gets one more plant |
| MemoryStorage.InMemoryStorage.CreateUserPlant | server/storage.ts:80-99 | appends the row, scheduled from today whatever dates were supplied |
| MemoryStorage.InMemoryStorage.GetUserPlant | server/storage.ts:101-103 | the row with that id |
| MemoryStorage.InMemoryStorage.UpdateUserPlant | server/storage.ts:105-112 | an unknown id is the error "User plant not found"; otherwise exactly that slot is replaced |
| MemoryStorage.InMemoryStorage.CreateWateringHistory | server/storage.ts:114-123 | appends the record under a fresh id |
| MemoryStorage.InMemoryStorage.WaterPlant | server/storage.ts:125-143 | an unknown plant is an error with nothing changed; otherwise the plant is rescheduled from today and one record with the notes as given is appended |
| MemoryStorage.InMemoryStorage.CreateCategory | server/storage.ts:145-155 | appends the category under a fresh id |
| MemoryStorage.InMemoryStorage.GetPlantsByCategory | server/storage.ts:161-163 | exactly the plants of that category |
| MemoryStorage.InMemoryStorage.GetAllUserPlants | server/storage.ts:165-167 | exactly the user's plants, in order |
| MemoryStorage.InMemoryStorage.DeleteUserPlant | server/storage.ts:169-176 | absent: false and no change; otherwise that row is removed, the others kept in order, history untouched |
| MemoryStorage.InMemoryStorage.GetWateringHistory | server/storage.ts:178-180 | exactly that plant's records, in insertion order |
| PlantDetail.HistoryCompare | client/src/pages/plant-detail.tsx:545-561 | negative or zero exactly when the first record is watered later, or at the same instant and created no earlier |
| PlantDetail.HistoryCompareAntisymmetric | client/src/pages/plant-detail.tsx:546-561 | swapping the arguments negates the comparison |
| PlantDetail.HistoryCompareConsistent | client/src/pages/plant-detail.tsx:546-561 | the comparator is a total preorder |
| PlantDetail.SortedHistory | client/src/pages/plant-detail.tsx:545-561 | a permutation of the history, newest watering first and ties by creation time descending |
| PlantDetail.MissingCreatedAtSortsLast | client/src/pages/plant-detail.tsx:554-559 | within one watering instant a record without a creation time sorts last |
| PlantDetail.NewestWateringFirst | client/src/pages/plant-detail.tsx:546-551 | records of different instants appear newest first |
| MyCollection.FilteredPlants | client/src/pages/my-collection.tsx:42-58 | nothing while unloaded; a subsequence of the collection; "all" keeps all, "needs-water" the listed ids, "recently-added" the last 7 days, anything else nothing |
| MyCollection.NothingKept | client/src/pages/my-collection.tsx:56 | a filter rejecting every plant leaves nothing |
| MyCollection.SortedPlants | client/src/pages/my-collection.tsx:61-86 | a permutation; last-watered descending, next date ascending, newest first; an unknown key keeps the order |
| MyCollection.NameSortOrdered | client/src/pages/my-collection.tsx:68-72 | with a consistent collation the display names come out in order |
| MyCollection.NeverWateredSortLast | client/src/pages/my-collection.tsx:62-67 | plants never watered sort below plants watered after the epoch |
| MyCollection.UnscheduledSortFirst | client/src/pages/my-collection.tsx:73-78 | plants without a next date sort above plants due after the epoch |
| FilterPlants.FilteredCatalog | client/src/hooks/use-filter-plants.ts:8-34 | exactly the plants every active filter accepts, in catalog order |
| FilterPlants.ThreePasses | client/src/hooks/use-filter-plants.ts:11-34 | the three successive filters equal one filter by all three tests |
| FilterPlants.BlankSearchKeepsAll | client/src/hooks/use-filter-plants.ts:25-26 | an empty or blank search term keeps every plant |
| FilterPlants.DifficultyRank | client/src/hooks/use-filter-plants.ts:43-56 | ranks are at least 1, and at most 4 exactly for the four listed difficulties |
| FilterPlants.UseFilterPlants | client/src/hooks/use-filter-plants.ts:5-71 | the result is the sorted filtered copy; a plant is in it iff it is in the input and matches |
| FilterPlants.SortCatalog | client/src/hooks/use-filter-plants.ts:37-67 | a permutation; "newest" by id descending, "easiest" by rank ascending; other keys keep the order |
| FilterPlants.NameSortOrdered | client/src/hooks/use-filter-plants.ts:39-42 | with a consistent collation the names come out in order |
| FilterPlants.NoFiltersKeepEverything | client/src/hooks/use-filter-plants.ts:8-34 | with no filter set the whole catalog comes back unchanged |
| FilterPlants.UnlistedDifficultySortsLast | client/src/hooks/use-filter-plants.ts:43-56 | an unlisted difficulty sorts after every listed one |
| AddPlant.SchemaIssues | client/src/pages/add-plant.tsx:34-43 | no issue iff plantId ≥ 1, a location and frequency ≥ 1, each failure with its message |
| AddPlant.FillFromCatalog | client/src/pages/add-plant.tsx:89-99 | with a plant selected, only an empty frequency, nickname or image is filled from the catalog; other fields untouched |
| AddPlant.FillFromCatalogIdempotent | client/src/pages/add-plant.tsx:89-99 | running the effect again changes nothing |
| AddPlant.TrimmedOrAbsent | client/src/pages/add-plant.tsx:148-149 | absent iff missing or blank; otherwise the trimmed text |
| AddPlant.NoonUtc | client/src/pages/add-plant.tsx:141-142 | noon UTC of the same day |
| AddPlant.NoonUtcShift | client/src/pages/add-plant.tsx:136-142 | moving by whole days commutes with moving to noon |
| AddPlant.OnSubmit | client/src/pages/add-plant.tsx:134-156 | frequency max(1, input); notes and image trimmed or dropped; the next date is the input frequency in days after the watering date, both at noon |
| AddPlant.ValidSubmissionIsConsistent | client/src/pages/add-plant.tsx:134-156 | for a valid form the sent next date is exactly the sent frequency after the sent watering date |
| Routes.UserPlantGuard | server/routes.ts:174-189 | 400 for an id that does not parse, then 404 for a missing plant, then 403 for another owner; proceeds with the id exactly when the user owns it |
| Routes.GuardOrder | server/routes.ts:174-189 | an unparsable id is answered 400 whatever the storage holds; with no plant stored the answer is 400 or 404, never 403 |
| Routes.PickAllowed | server/routes.ts:191-201 | the update holds exactly the allowed keys present in the body, with the body's values |
| Routes.WaterNotes | server/routes.ts:292 | "" exactly when the note is missing or empty, else the note |
| Routes.WaterRouteNotes | server/routes.ts:292 | through the route, the database stores a note exactly when the request had a non-empty one |
| Routes.DeleteStatus | server/routes.ts:234-239 | 204 iff deleted, else 500 |
| Routes.WishlistDeleteStatus | server/routes.ts:419-424 | 200 iff removed, else 404 |
| Routes.WishlistAddGuard | server/routes.ts:389-399 | 400 iff the id does not parse, 404 iff the plant is missing, else proceed with the id |
| Routes.AddToWishlistRoute | server/routes.ts:385-402 | a rejected request leaves the wishlist alone; otherwise 201 and the pair is on the list, also when it was already there |
| ServerAuth.BearerToken | server/auth.ts:54-55 | a token exactly when the header has a space; the token holds no space |
| ServerAuth.SplitFields | server/auth.ts:55 | splitting at spaces gives a second field iff there is a space |
| ServerAuth.TokenOfHeader | server/auth.ts:55 | the token of `<scheme> <token>` is `<token>`, whatever the scheme |
| ServerAuth.Authenticate | server/auth.ts:53-68 | 401 iff no or an empty token; 403 iff the token fails verification; otherwise next with the payload |
| ServerAuth.OneWordHeaderUnauthorized | server/auth.ts:55-59 | a header without a space is answered 401 without verifying anything |
| ServerAuth.SchemeIgnored | server/auth.ts:55 | the scheme word does not change the outcome |
| ServerAuth.AuthenticateToken | server/auth.ts:53-68 | a 401 or 403 response without calling next, or the payload attached and next called exactly once |
| ServerAuth.LoginIssues | server/auth.ts:15-18 | valid iff identifier ≥ 3 and password ≥ 6 characters |
| ServerAuth.RegisterIssues | server/auth.ts:20-24 | valid iff username ≥ 3, the email check and password ≥ 6 |
| ServerAuth.RegisteredCredentialsLogIn | server/auth.ts:15-24 | registered credentials pass the login schema |
| AuthStore.LocalStorage.GetItem | client/src/lib/auth.ts:22 | the stored value of a key, none when the key is absent |
| AuthStore.LoadAuth | client/src/lib/auth.ts:21-39 | no token: signed out, storage untouched; expired: only 'token' removed; decode or parse failure: both keys removed; otherwise the token and parsed user |
| AuthStore.LoadOnlyRemoves | client/src/lib/auth.ts:21-39 | restoring never adds or rewrites a key, and other keys survive |
| AuthStore.ExpiredLeavesUserBehind | client/src/lib/auth.ts:26-30 | an expired token leaves the 'user' key behind, and the next start-up is signed out without further change |
| AuthStore.NoExpiryNeverExpires | client/src/lib/auth.ts:27 | a token without an exp claim is restored whatever the clock |
| AuthStore.GetStoredAuth | client/src/lib/auth.ts:21-39 | the storage-updating method computes `LoadAuth` |
| AuthStore.Store.SetAuth | client/src/lib/auth.ts:45-49 | both keys written, token and user set, error cleared, loading kept |
| AuthStore.Store.ClearAuth | client/src/lib/auth.ts:50-54 | both keys removed, token and user null, error and loading kept |
| AuthStore.Store.SetError | client/src/lib/auth.ts:55 | only the error changes |
| AuthStore.Store.SetLoading | client/src/lib/auth.ts:56 | only the loading flag changes |
| AuthStore.SavedSessionRestores | client/src/lib/auth.ts:32-49 | what `setAuth` saved is restored at the next start-up while the token is valid |
| AuthStore.ClearedSessionStaysOut | client/src/lib/auth.ts:21-23 | after `clearAuth` the next start-up is signed out and changes nothing |
| Validation.FirstFailure | client/src/pages/signup.tsx:23-70 | no message iff every check passes |
| Validation.FirstFailureIsFirst | client/src/pages/signup.tsx:23-70 | the message is that of a failing check preceded only by passing ones |
| Validation.EmailMatchesShape | client/src/pages/signup.tsx:41-45 | the computed check accepts exactly `local@name.rest` with non-empty pieces free of spaces and `@` |
| Signup.ValidateSignup | client/src/pages/signup.tsx:23-70 | valid iff username 3–20 characters of `[A-Za-z0-9_-]`, the email pattern, password ≥ 8 with a lower, an upper and a digit, and a matching confirmation |
| Signup.ValidateSignupIsFirstFailure | client/src/pages/signup.tsx:23-70 | the early-return chain reports the first failing check in source order |
| Signup.TwentyCharactersAccepted | client/src/pages/signup.tsx:29-32 | a 20-character username passes both length checks |
| Signup.ReportsFirstFailure | client/src/pages/signup.tsx:23-70 | a reported error is the first failing check's |
| Signup.AcceptedFormRegisters | client/src/pages/signup.tsx:23-70 | an accepted form meets the server's register schema |
| Signin.ValidateSignin | client/src/pages/signin.tsx:20-48 | valid iff the identifier is not blank, meets the email pattern when it has `@`, and the password is not blank and ≥ 8 characters |
| Signin.ValidateSigninIsFirstFailure | client/src/pages/signin.tsx:20-48 | the chain reports the first failing check in source order |
| Signin.UsernameSkipsEmailCheck | client/src/pages/signin.tsx:28-34 | an identifier without `@` is never reported as a bad email |
| Signin.BlankPasswordReportedFirst | client/src/pages/signin.tsx:37-45 | a blank password is reported as missing; the length check counts untrimmed characters |
| Signin.ShortIdentifierPassesPage | client/src/pages/signin.tsx:20-48 | the page accepts a two-letter identifier that the server's login schema rejects |
| Account.AccountIssues | client/src/pages/account.tsx:32-52 | valid iff username ≥ 3, the email check, a current password and agreeing new passwords; no issue is reported on newPassword |
| Account.AccountIssuesReported | client/src/pages/account.tsx:32-52 | each failing check is reported with its own message and only when it fails; a mismatch is reported on confirmNewPassword |
| Account.FieldIssue | client/src/pages/account.tsx:33-40 | no issue when the test passes, the one issue otherwise |
| Account.EmptyNewPasswordNeverMismatches | client/src/pages/account.tsx:42-48 | an empty or absent new password is never a mismatch |
| Account.ResetPasswords | client/src/pages/account.tsx:106-111 | the three password fields become "", username and email kept |
| Account.ResetNeedsOnlyCurrentPassword | client/src/pages/account.tsx:106-111 | after a reset the only issue is the missing current password |
| Header.ActiveLinks | client/src/components/layout/header.tsx:29-35 | exactly those of the four paths for which `isActive` holds; at most two, and two exactly at "/" |
| Header.PrefixesExclusive | client/src/components/layout/header.tsx:32-33 | no location activates both the collection and the wishlist links |
| Header.OtherPathsInactive | client/src/components/layout/header.tsx:29-35 | a path that is not one of the four links is never active |
| Header.SubRoutesActive | client/src/components/layout/header.tsx:32-33 | the collection and wishlist links stay active for any longer location |
| PlantGallery.AllImages | client/src/components/plant-gallery.tsx:17-21 | never empty; a main image comes first and nowhere else, followed by the other images in order; else the additional images, else the stock photo |
| PlantGallery.ShownImage | client/src/components/plant-gallery.tsx:27 | the active image if set, else the first image |
| PlantGallery.FirstDisplayShowsFirstImage | client/src/components/plant-gallery.tsx:11-27 | on first display the first image of the list is shown |
| PlantGallery.ThumbnailsNeedAnotherImage | client/src/components/plant-gallery.tsx:17-33 | with a main image, thumbnails appear iff another image differs from it |
| PlantGallery.ThumbnailsWithoutMainImage | client/src/components/plant-gallery.tsx:19-33 | without a main image, thumbnails appear iff there are two or more additional images |

## Left out

- Editing or deleting watering records, and a persisted "needs initial watering" state: no server route or storage method implements them. `needsInitialWatering` appears only as a parameter of the progress widget.
- In-place update of the in-memory arrays: the lists are sequence values, so aliasing is not modelled. `getAllPlants` and `getAllCategories` hand out the internal arrays themselves, and neither is modelled.
- Route-to-storage wiring: the routes bind one storage but install another, and the `user.claims.sub` user id does not match the token payload. The guards take the storage answers (`ownerOf`, `plantExists`) as parameters, and the user id is an integer.
- The remaining route handlers (JSON bodies, 500 answers from exceptions, the joined responses): this is I/O around the modelled decisions.
- Users (`getUser`, `createUser`, `upsertUser`), `getPlants`, `getCategories`, `getCategory`, `createCategory` of the database storage, and `getAllPlants`, `getAllCategories` of the in-memory storage: plain reads and inserts with no schedule logic.
- Password hashing, JWT signing and the check of a token's signature and expiry: foreign libraries, modelled as the `verify` and `decode` parameters.
- React rendering, query caching, toasts, navigation and the other pages and components: UI and I/O.
- Time zones and daylight saving: instants are UTC milliseconds, `setDate`/`setUTCHours` are whole-day and noon arithmetic on them, and a `date` column keeps the UTC day (the database session's zone is taken to be UTC).
- Floating point: percentages are exact reals, so rounding of IEEE doubles is not modelled.
- Lower-casing and character classes cover ASCII letters only. Lengths count Unicode scalar values, not UTF-16 code units.
- `localeCompare`: a parameter. The name sorts are proved ordered only when it is a total preorder.
- `formatDistanceToNow` text: the model returns the date the text is formatted from.
- `getWaterStatusColor`'s default branch is unreachable for the three statuses and is not modelled.
- An update that sets the watering frequency to null explicitly is treated as no change.
- `in` tests against prototype keys (`"toString" in req.body`, a rank lookup of `"constructor"`): request bodies and the rank table are plain maps.
- `z.number()` also accepts fractions; form numbers are integers.
- Watering records carry no `createdAt` column, so the history tie-break sees 0 for every real record.
- DbStorage.DatabaseStorage.GetWateringHistory: records watered on the same date come back in table order; SQL leaves that order unspecified.
- Database serial counters are integer fields of the storage class, and an insert takes the next value.
- AddPlant.FillFromCatalog: the selection effect is modelled as one application to the current values; the effect's re-runs on each render are not.
