# Seat reservation engine and user-account rules, in Dafny

This project models the booking back end of a movie-ticketing service. A client
**holds** a set of seats for a show. The hold lasts five minutes and prices each
seat from the movie's base price and the show's seat-type multiplier. The client
then **confirms** the hold when payment succeeds, and can **fetch** the booking.
The model keeps the controller's order of checks, the same errors and the same
constants.

It proves the central safety property: a seat of a show is never claimed by two
*active* bookings. A booking is active when it is CONFIRMED, or HELD and not yet
expired. Holding, confirming and the passing of time all preserve this.

The model also covers the user-account document:

- the password-format validator, including the bypass for values that are already bcrypt hashes;
- the pre-save hook, which hashes a new password and sets the timestamps;
- the role enumeration and its default.

Layout, one module per file:

- `wrappers.dfy`: `Option` and `Result`.
- `catalog.dfy`: theatres, screens, seat maps, shows, movies. Also the screen lookup and the seat-id to seat-type index.
- `pricing.dfy`: `Math.round` as round-half-up on exact reals, the per-seat price, the priced seat list and its total.
- `reservations.dfy`: the booking record and the failures with their HTTP statuses. Also the active, conflict and invariant predicates, and the outcome of hold (`HoldStep`) and confirm (`ConfirmStep`) as functions of (catalog, bookings, request, clock).
- `store.dfy`: the booking store as a class whose `Hold`, `Confirm` and `Get` methods work step by step. Scans over the store are `while` loops. Each method is proved equal to its function in `reservations.dfy`.
- `safety.dfy`: invariant preservation, the confirm re-check, idempotent confirm, the order of the validation ladder, and the shape of a successful hold.
- `scenarios.dfy`: booking flows based on the repository's booking test script, run against the store class.
- `user_access.dfy`: password validator, roles, pre-save hook.

Conventions:

- The clock is a parameter `now`, in milliseconds.
- An empty string stands for a missing (falsy) request field.
- Booking ids are positions in the store.
- bcrypt's hash is a function parameter.

Points where the code's behaviour is easy to misread:

- **Rounding.** `Math.round` rounds ties upward, not away from zero. For negative values that is toward zero. The model uses `floor(x + 1/2)`.
- **Status for a non-HELD booking.** Confirming a booking that is not HELD returns 400 in the code. The model reports `NotHeld` with kind `InvalidState` and HTTP status 400.
- **No uniqueness backstop.** The booking schema declares no uniqueness constraint on (show, seat), so nothing in storage backs up the conflict check. The model states only sequential guarantees.
- **Duplicate seats.** A request may name the same seat twice. The code accepts it and charges for both entries, and so does the model (`Scenarios.DuplicateSeatFlow`).
- **Duplicate seat ids in a seat map.** The last entry decides the seat's type, because a JavaScript `Map` built from pairs keeps the last value for a key.

## Model

| member | source | states |
|---|---|---|
| `Pricing.RoundHalfUp` | backend/controllers/BookingController.js:10 | the result is the integer nearest to x, and the upper of two equally near ones (`Math.round`) |
| `Pricing.RoundHalfUpUnique` | backend/controllers/BookingController.js:10 | no other integer meets that rounding contract, so the price is fully determined |
| `Pricing.ComputeSeatPrice` | backend/controllers/BookingController.js:8-11 | the price is base × multiplier rounded half up, where the multiplier is the table entry for the seat type, or 1.0 when there is none |
| `Pricing.MissingTypeCostsBase` | backend/controllers/BookingController.js:9 | a seat type absent from the multiplier table costs exactly the (integer) base price |
| `Pricing.NonNegativePrice` | backend/controllers/BookingController.js:8-11 | a non-negative base and multiplier never give a negative price |
| `Pricing.Multiplier` | backend/controllers/BookingController.js:9 | `?? 1.0`: the table's entry for the seat type when there is one (even 0), and 1.0 only when the type is absent |
| `Pricing.EffectiveBase` | backend/controllers/BookingController.js:69 | `baseSeatPrice \|\| 1`: a zero base is replaced by exactly 1, any other base is kept |
| `Pricing.PriceSeats` | backend/controllers/BookingController.js:66-70 | one priced seat per requested seat, same order, same id and type, each priced by ComputeSeatPrice |
| `Pricing.TotalAppend` | backend/controllers/BookingController.js:71 | the left-to-right sum of prices splits over concatenation |
| `Pricing.Total` | backend/controllers/BookingController.js:71 | the reduce starts at 0: no seats cost 0, one seat costs its price, and with no negative price the total is not negative |
| `Pricing.TotalBounds` | backend/controllers/BookingController.js:71 | with no negative price, every seat's price is at most the total |
| `Pricing.DefaultPricesAtBase150` | backend/models/show.js:11-16 | with the default multipliers and base 150, NORMAL, PREMIUM, LUXURY and RECLINER cost 150, 188, 225 and 300 |
| `Pricing.TwoPremiumSeatsCost376` | backend/test-api-booking.js:141-151 | seats A1 and A2, both PREMIUM, at base 150 total 376 |
| `Catalog.FindScreen` | backend/controllers/BookingController.js:24-25 | finds a screen exactly when the theatre has one with that id, and returns the first such screen |
| `Catalog.SeatTypeIndex` | backend/controllers/BookingController.js:38 | the Map built from the seat map's pairs: the last pair is always in it with its type (later pairs overwrite earlier ones) |
| `Catalog.SeatTypeIndexKeys` | backend/controllers/BookingController.js:37 | the index's keys are exactly the seat ids of the seat map (the set of valid ids) |
| `Catalog.SeatTypeIndexLast` | backend/controllers/BookingController.js:38 | for each seat id, the index holds the type of its last occurrence in the seat map |
| `Catalog.IndexedTypeInSeatMap` | backend/controllers/BookingController.js:37-38 | every type the index reports belongs to a seat of the map with that id |
| `Reservations.HttpStatus` | backend/controllers/BookingController.js:17-112 | 404 exactly for not-found failures, 409 for conflicts, 410 for an expired hold, 400 for invalid requests and for a booking not in HELD state |
| `Reservations.SeatCheck` | backend/controllers/BookingController.js:39-47 | no failure exactly when every requested seat is in the index with its type; otherwise the failure of the first offending seat in request order (not found, or type mismatch) |
| `Reservations.ValidateHold` | backend/controllers/BookingController.js:17-47 | each step of the ladder in order gives its own failure: missing field → MissingFields, theatre → TheatreNotFound, screen of the theatre → ScreenNotFound, show → ShowNotFound, show not matching theatre/screen/movie → ShowMismatch, movie → MovieNotFound, then SeatCheck's failure. A request passing every step is accepted with the first matching screen, the show and the movie. Success implies every condition holds, and every failure is an invalid request or a not-found |
| `Reservations.NewHold` | backend/controllers/BookingController.js:64-79 | the stored booking is HELD, expires at now + 300000 ms, carries the request's ids, its user id (none for an empty one, `userId \|\| undefined`) and priced seats, and its total is their sum |
| `Reservations.HoldBlocked` | backend/controllers/BookingController.js:51-59 | a booking blocks exactly as the store query selects: same show, status HELD or CONFIRMED, a seat among the requested ids, and CONFIRMED or HELD with holdExpiresAt after now |
| `Reservations.HoldStep` | backend/controllers/BookingController.js:15-90 | a failure leaves the store unchanged. Success happens exactly when validation passes and no booking blocks the seats. The failure is a conflict exactly when validation passes and some booking blocks. Success appends one booking, with the next id, the 5-minute expiry and the returned total |
| `Reservations.ConfirmBlocked` | backend/controllers/BookingController.js:106-111 | the re-check fires exactly when another booking of the same show is CONFIRMED and names a seat this booking names |
| `Reservations.ConfirmStep` | backend/controllers/BookingController.js:94-121 | each check in order gives its answer, store unchanged: no id → BookingIdRequired, unknown id → BookingNotFound, CONFIRMED → "already confirmed" success, CANCELLED or EXPIRED → NotHeld, expired hold → HoldExpired; a live hold with no re-check clash becomes CONFIRMED with a fresh-confirmation answer. The only possible change is this booking going from HELD to CONFIRMED, with a fresh-confirmation answer. Success returns the same id, and the booking is then CONFIRMED. The failure is a conflict exactly when the hold is live and another CONFIRMED booking of the show shares a seat |
| `Store.CheckSeats` | backend/controllers/BookingController.js:39-47 | the loop over the requested seats returns exactly SeatCheck's verdict |
| `Store.BookingStore.FindHoldConflict` | backend/controllers/BookingController.js:50-59 | true exactly when some stored booking of the show is CONFIRMED or HELD with holdExpiresAt > now and names one of the requested seats |
| `Store.BookingStore.FindConfirmedOverlap` | backend/controllers/BookingController.js:106-111 | true exactly when another CONFIRMED booking of the same show names one of this booking's seats |
| `Store.BookingStore.Hold` | backend/controllers/BookingController.js:15-90 | the result and the new store are those of HoldStep on the old store; ids stay positions |
| `Store.BookingStore.Confirm` | backend/controllers/BookingController.js:94-121 | the result and the new store are those of ConfirmStep on the old store |
| `Store.BookingStore.Get` | backend/controllers/BookingController.js:124-149 | returns the stored booking with that id, or BookingNotFound when there is none; the store is not modified |
| `Safety.HoldPreservesOneActive` | backend/controllers/BookingController.js:49-79 | if no show seat has two active bookings before a hold, none has after it |
| `Safety.ConfirmPreservesOneActive` | backend/controllers/BookingController.js:99-115 | if no show seat has two active bookings before a confirm, none has after it |
| `Safety.ClockPreservesOneActive` | backend/controllers/BookingController.js:55-58 | the invariant at one time implies it at every later time, since holds only expire |
| `Safety.RecheckNeverFires` | backend/controllers/BookingController.js:105-112 | from a state with the invariant, the confirm re-check never finds a clash for an unexpired hold |
| `Safety.ConfirmLiveHoldSucceeds` | backend/controllers/BookingController.js:99-117 | from a state with the invariant, confirming an unexpired hold succeeds and changes only that booking's status |
| `Safety.HoldPreservesWellFormed` | backend/controllers/BookingController.js:64-79 | holds keep every booking non-empty with totalAmount equal to the sum of its seat prices |
| `Safety.ConfirmPreservesWellFormed` | backend/controllers/BookingController.js:114-115 | confirms keep every booking non-empty with totalAmount equal to the sum of its seat prices |
| `Safety.HoldKeepsIds` | backend/controllers/BookingController.js:73-79 | the created booking gets a fresh id, and ids stay positions in the store |
| `Safety.HoldSuccess` | backend/controllers/BookingController.js:64-85 | a successful hold appends exactly one booking and leaves the others untouched. The booking is HELD until now + 5 minutes. Its seats are the requested ones, in order, each with its computed price. Its total is their sum and is the returned total |
| `Safety.ValidatedSeatsInSeatMap` | backend/controllers/BookingController.js:36-47 | after validation, every requested seat exists in the screen's seat map with the requested type |
| `Safety.MismatchBeforeMovie` | backend/controllers/BookingController.js:29-34 | a show that does not match the request fails with ShowMismatch and no store change, whether or not the movie exists |
| `Safety.SeatsCheckedBeforeConflicts` | backend/controllers/BookingController.js:36-62 | a validation failure is reported, and the store kept, whatever bookings exist |
| `Safety.OtherShowsNeverBlock` | backend/controllers/BookingController.js:51-54 | bookings of other shows never block a hold, so availability is per show |
| `Safety.InactiveNeverBlocks` | backend/controllers/BookingController.js:51-59 | CANCELLED, EXPIRED and expired HELD bookings never block a hold |
| `Safety.ConfirmIdempotent` | backend/controllers/BookingController.js:101 | after a successful confirm, confirming again at any time answers "already confirmed" and changes nothing |
| `Safety.ExpiredHoldReleasesSeats` | backend/controllers/BookingController.js:103 | confirming an expired hold fails with HoldExpired without change, and that hold no longer blocks its seats |
| `UserAccess.ScanClasses` | backend/models/UserAccessModel.js:21 | one pass finds exactly whether the string has a lower-case letter, an upper-case letter, a digit, a special character, and only allowed characters |
| `UserAccess.ValidatePassword` | backend/models/UserAccessModel.js:15-22 | accepted exactly when the value starts with `$2a$`, or has 8-15 characters that are all letters, digits or `@$!%*?&` and include one of each class |
| `UserAccess.HashedValuesBypass` | backend/models/UserAccessModel.js:17-19 | any value starting with `$2a$` is accepted, whatever follows |
| `UserAccess.SamplePasswordAccepted` | backend/test-api.js:24 | `Password123!` is accepted |
| `UserAccess.SamplePasswordsRefused` | backend/models/UserAccessModel.js:21 | values with no upper-case letter, 7 or 20 characters, or a space are refused |
| `UserAccess.ParseRole` | backend/models/UserAccessModel.js:26-30 | a string is accepted as a role exactly when it is one of the seven role names, and it parses to the role of that name |
| `UserAccess.ParseRoleName` | backend/models/UserAccessModel.js:29 | every role's name parses back to that role |
| `UserAccess.RegistrationRole` | backend/controllers/AuthController.js:25 | no requested role gives `individual`; otherwise the requested name is stored exactly when it is a valid role |
| `UserAccess.SavedPassword` | backend/models/UserAccessModel.js:44-48 | a value already carrying the `$2a$` prefix, or a password not modified, is kept as is; a modified password without the prefix is replaced by its hash |
| `UserAccess.NoDoubleHashing` | backend/models/UserAccessModel.js:44-48 | when every hash starts with `$2a$`, a newly set password is stored hashed, and later saves never hash it again |
| `UserAccess.SavedPasswordStaysValid` | backend/models/UserAccessModel.js:44-48 | when every hash starts with `$2a$`, a password that passed the validator still passes after the hook |
| `UserAccess.UserAccount.constructor` | backend/models/UserAccessModel.js:32-39 | a new document has both timestamps set to the creation time and its password marked modified |
| `UserAccess.UserAccount.PreSave` | backend/models/UserAccessModel.js:42-55 | the password is replaced by its hash only when it was modified and does not start with `$2a$`. createdAt is set only when unset. updatedAt is always set to now. Nothing else changes |

## Left out

- Concurrency: the conflict check and the insert in `holdSeats` are not atomic, and the booking schema has no unique index. The model is sequential and claims nothing about races.
- Floating point: prices and multipliers are exact reals. IEEE rounding, NaN and a null `baseSeatPrice` are not modelled.
- Two clock reads: the source reads the clock twice in a hold. The model uses one `now` per operation.
- Fetch joins: `getBooking` also loads the referenced theatre, show and movie for display. `Store.BookingStore.Get` returns the stored booking record only.
- Express and Mongoose plumbing: response messages, the `next(err)` paths (a malformed ObjectId gives a server error), and ObjectId-to-string comparison (modelled as string equality). Also the schema's automatic timestamps and indexes on bookings.
- Request shapes: a non-array `seats`, a seat without an id, and a request seat type outside the four names cannot be expressed. In the source the last one fails as a type mismatch.
- Booking ids are positions in the store, not ObjectIds.
- Unused catalog fields: seat row and column, screen name and size, theatre name and location, show start and end times, movie title and the like. The engine never reads them.
- Cancelling and expiring bookings: no operation sets CANCELLED or EXPIRED. Such records can only be present in the initial store.
- bcrypt: the hash is a function parameter. Salt rounds and salt randomness are not modelled.
- UserAccess.NoDoubleHashing: assumes that every bcrypt hash starts with `$2a$`. That depends on the library version and is not checked.
- Mongoose validation order: validation runs before pre-save hooks. This is assumed by `UserAccess.SavedPasswordStaysValid`, not modelled.
- The `findOneAndUpdate` hook (backend/models/UserAccessModel.js:59-62) is not modelled. It is query middleware that stamps `updatedAt` on an update description, not on the document.
- Email `lowercase`, `trim` and `unique`: library behaviour, not modelled.
- The auth controllers, routes, server bootstrap and test scripts are not part of this model. Flows based on the booking test script are restated in `scenarios.dfy`.
