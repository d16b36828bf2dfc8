# Moffat Bay Lodge reservations, modelled in Dafny

This project models the booking logic of the Moffat Bay Lodge Django site and
proves properties of that model. The lodge sells stays in room *types*
(Double Full, Queen, Double Queen, King). A room type has as many units as it
has rooms in service. A *reservation* takes up one unit of its room type over
the half-open stay `[start_date, end_date)`, and only while it is a Hold or a
Confirmed booking.

The model covers:

- **The availability calculator** (`get_available_rooms`). It lists the room
  types, in name order, whose rooms in service outnumber the active
  reservations that meet the stay. Each entry has its free count and price.
- **Date checking and pricing** (`parse_dates`, `calculate_total_cost`), and the
  nights figure of `send_secondary_email`.
- **Email partitioning** (`validate_emails`), and the primary, additional and
  invalid recipients of a modification.
- **The reservation views.** These are the expiry sweep, the overlap warning
  and priced search results of the booking page, and creating a reservation.
  They also include the reservation search, and cancelling, confirming,
  renewing and modifying a reservation. Each view is modelled as a guarded
  state change on the tables, with its error cases in order.
- **The two data migrations.** One seeds room types and rooms with an
  idempotent upsert. The other back-fills public reservation numbers.

## Modelling conventions

- **Tables.** The four tables are sequences of records in a `Models.Database`
  object. A view is a method that `modifies` it. The heavier views are a pure
  decision function plus a short method that applies the decision.
- **Units.** Dates are day numbers and timestamps are seconds, so a hold lasts
  `HOLD_SECONDS = 86400`. Decimal prices and costs are integer cents.
- **Inputs become parameters.** The current time and the local date are `now`
  and `today`. `strptime` results are `Option<int>`, with None where parsing
  fails. Django's `validate_email` is a predicate `isValid`. The UUIDs of
  migration 0006 are a list `hexes`. The public number of a new reservation is
  a parameter.
- **Lookups.** `get_object_or_404` is `QuerySets.Get`. Its three answers are no
  row (404), one row, or several (`MultipleObjectsReturned`, a server error).
- **Server errors.** `request.user.customer` on a user without a customer
  profile raises, and is modelled as a server error.
- **Database backend.** The database is assumed to be SQLite; the settings
  module that would name the backend is not part of this model. Four things
  rest on that assumption:
  - `Text.Lower` and the case-insensitive lookups of
    `ReservationViews.LookupResults` fold ASCII letters only, as SQLite's
    `LIKE` and `iexact` do.
  - The "Column checks" line under Left out: SQLite stores Decimal(7,2) and
    `max_length` values without checking them, so the model does not refuse
    oversized values.
  - The "New keys" line under Left out: new keys follow SQLite's numbering.
  - `PublicIdMigration.ApplyPublicIdMigration`, `SeedMigration.UpsertRooms`
    and `SeedMigration.CreateInitialRooms` leave the table as it was when the
    migration fails. This needs migrations that roll back as a whole, which
    SQLite's transactional schema changes give.
- **Ordering.** `order_by` is an insertion sort under a total preorder. String
  order is by code point.
- **Room-type ids as selections.** `get_available_rooms` skips its room-type
  filter when the selected id is false. The hold views and the default of
  `reservation_modify` pass the reservation's integer `room_type.id`, and 0 is
  false, so a room type numbered 0 selects none (`ExtendedViews.IdSelection`).
  A posted `room_type` is a string, where "0" is true and selects type 0.
  Django's automatic keys start at 1, so the lemmas about a selected room type
  say so in their `requires`. `ExtendedViews.ZeroTypeIdRechecksEveryType`
  states the case of type 0.
- **As written and corrected.** `ExtendedViews.ConfirmHold` and
  `ExtendedViews.PlanModify` take a flag `excludeSelf`.
  `SeedMigration.UpsertRoom` and its callers take a flag `writesMaintenance`.
  With the flag false, each behaves as the code is written. With it true, each
  behaves as evidently intended (see Findings).
- **Who owns a new reservation.** `save_reservation` stores the requesting
  user's own customer profile as the reservation's customer. This is None for
  staff without a profile. The customer a staff member selects only supplies
  default guest details.

## Model

| member | source | states |
|---|---|---|
| Models.ReservationStatusName | web/models.py:141-145 | each reservation status is stored under a name that reads back as that status and fits the 10-character column |
| Models.ParseReservationStatus | web/models.py:141-145 | a stored status is recognised exactly when it is one of Hold, Confirmed, Cancelled |
| Models.RoomStatusName | web/models.py:98-103 | each room status is stored under a name that reads back as that status and fits the 12-character column |
| Models.ParseRoomStatus | web/models.py:98-103 | a stored room status is recognised exactly when it is one of the four choices |
| Text.Strip | web/views/helpers.py:39 | `strip()` leaves no whitespace at either end, and gives the empty string exactly when the input is all whitespace |
| Text.StripIdempotent | web/views/helpers.py:39 | stripping a stripped address changes nothing |
| Text.StripKeepsCharacters | web/views/reservation_extended_views.py:255 | stripping only removes characters |
| Text.ReplaceChar | web/views/reservation_extended_views.py:253 | after replacing `;` by `,` no `;` is left, and no other character is introduced |
| Text.Split | web/views/reservation_extended_views.py:254 | `split(",")` gives at least one piece, no piece contains the separator, and every character comes from the input |
| Text.JoinSplit | web/views/reservation_extended_views.py:254 | joining the pieces back with the separator gives the input, so splitting loses nothing |
| QuerySets.Filter | web/views/reservation_views.py:87-95 | a `filter` keeps exactly the rows that satisfy the condition, each no more often than before |
| QuerySets.FilterCounts | web/views/reservation_views.py:87-95 | a `filter` keeps every row that satisfies the condition exactly as often as the table holds it, and no other row |
| QuerySets.FilterAppend | web/views/reservation_views.py:87-95 | a `filter` keeps table order: filtering two parts of a table one after the other gives the first part's rows, then the second's |
| QuerySets.FirstWhere | web/views/reservation_views.py:157 | a lookup by primary key finds a row with that key, or reports that none has it |
| QuerySets.Get | web/views/reservation_extended_views.py:90-94 | `get_object_or_404` answers not found exactly when no row matches; found gives the one matching row; several matching rows is the remaining case |
| QuerySets.GetSameMatches | web/views/reservation_extended_views.py:90-94 | the lookup's answer depends only on which rows match, so updating columns the condition does not read leaves it unchanged |
| QuerySets.SortBySorted | web/views/helpers.py:56 | `order_by` under a total preorder gives a sorted sequence with the same multiset of rows |
| QuerySets.SortByMembers | web/views/helpers.py:56 | ordering keeps exactly the same rows |
| QuerySets.NameLeTotal | web/views/helpers.py:56 | any two names are comparable in the order `order_by('name')` uses |
| QuerySets.NameLeTransitive | web/views/helpers.py:56 | that order is transitive |
| QuerySets.NameLeAntisymmetric | web/views/helpers.py:56 | that order is antisymmetric |
| Helpers.ParseDates | web/views/helpers.py:16-32 | dates are accepted exactly when both parse and `today <= check_in < check_out`; otherwise the messages come in the code's order: invalid, then past check-in, then order |
| Helpers.CalculateTotalCost | web/views/helpers.py:98-107 | nights is the day difference with a floor of one, and the total is nights times the price |
| Helpers.ValidStayCost | web/views/helpers.py:103-106 | for dates `parse_dates` accepts, the one-night floor never applies: nights is the stay length |
| Helpers.ValidOfMeaning | web/views/helpers.py:34-47 | an address is in the valid set exactly when it is a non-empty stripped input the validator accepts |
| Helpers.InvalidOfMeaning | web/views/helpers.py:34-47 | an address is in the invalid list exactly when it is a non-empty stripped input the validator rejects |
| Helpers.ValidateEmails | web/views/helpers.py:34-47 | the loop drops blank inputs and puts every other stripped input into exactly one of the valid set and the invalid list, in input order |
| Helpers.Capacity | web/views/helpers.py:68-73 | the capacity of a room type never exceeds the number of rooms |
| Helpers.OverlapCount | web/views/helpers.py:79-84 | the count of overlapping reservations never exceeds the number of reservations |
| Helpers.OverlapCountAppend | web/views/helpers.py:79-84 | the overlap count of two tables put together is the sum of their counts |
| Helpers.OverlapCountAddOne | web/views/helpers.py:79-84 | one more reservation adds one to the count exactly when it is an active reservation of the type that meets the stay |
| Helpers.OfferFor | web/views/helpers.py:58-94 | a room type is offered exactly when it passes the type and guest filters and its capacity exceeds the overlapping count; the offer carries count = capacity − overlapping ≥ 1 and the type's price |
| Helpers.RoomTypeNameOrder | web/views/helpers.py:56 | ordering room types by name is a total preorder |
| Helpers.ByNameOrders | web/views/helpers.py:56 | `order_by('name')` sorts the room types by name and keeps exactly the same rows |
| Helpers.OffersAmongSound | web/views/helpers.py:58-94 | every entry the loop appends is the offer of one of the room types it walked over |
| Helpers.OffersAmongComplete | web/views/helpers.py:58-94 | every room type that qualifies has its offer in the result |
| Helpers.OffersAmongSorted | web/views/helpers.py:56-96 | the entries come out in room-type name order |
| Helpers.OffersOfTable | web/views/helpers.py:49-96 | every entry is for a room type of the table that passes the filters, with count = capacity − overlapping ≥ 1 and its price; every qualifying type is listed; entries are in name order |
| Helpers.AvailableRoomsNonEmpty | web/views/helpers.py:49-96 | the result is non-empty exactly when some room type of the table qualifies |
| Helpers.SelectedTypeAvailable | web/views/helpers.py:60-87 | with a room type selected, the result is non-empty exactly when a type of that id takes the guests and has more units than overlapping active reservations |
| Helpers.CheckRoomType | web/views/helpers.py:60-94 | one pass of the loop skips a room type, in the code's order of checks, exactly when it has no offer, and otherwise yields its offer |
| Helpers.OffersInOrder | web/views/helpers.py:58-94 | the loop over the ordered room types collects the offers of the qualifying types, in the order walked |
| Helpers.GetAvailableRooms | web/views/helpers.py:49-96 | the view's calculator returns the result described above: sound, complete, in name order, with the counts and prices above |
| ReservationViews.CustomerIdOf | web/views/reservation_views.py:63 | `getattr(request.user, 'customer', None)` is the user's profile id, or None when there is no profile |
| ReservationViews.OrElse | web/views/reservation_views.py:142-145 | `a or b` on strings is `a` unless `a` is empty |
| ReservationViews.Swept | web/views/reservation_views.py:34-40 | the bulk update cancels exactly the holds whose expiration time has passed, and leaves every other row as it was |
| ReservationViews.SweptHasNoExpiredHold | web/views/reservation_views.py:34-40 | after the sweep no expired hold is left, and a second sweep at the same time changes nothing |
| ReservationViews.SweptOnlyCancels | web/views/reservation_views.py:34-40 | the sweep only turns holds into cancelled reservations and touches no other row |
| ReservationViews.ExpiredBlockingCount | web/views/reservation_views.py:34-40 | the expired holds that meet a stay are among the reservations counted against it |
| ReservationViews.SweepReleasesExpiredHolds | web/views/reservation_views.py:34-40 | for every room type and stay, the sweep lowers the overlap count by exactly the number of expired holds that met it |
| ReservationViews.SweepExpiredHolds | web/views/reservation_views.py:34-40 | the update leaves the reservation table swept and the other tables unchanged |
| ReservationViews.PriceOffers | web/views/reservation_views.py:111-114 | each listed room type is annotated, in place and order, with nights ≥ 1 and total = nights × its price; for a valid stay nights is the stay length |
| ReservationViews.ReservationPage | web/views/reservation_views.py:24-116 | a search sweeps expired holds first; blank dates give the missing-dates message without the no-results flag; bad dates give the date error with it; valid dates give the customer's overlapping active reservations, the priced result of the calculator over the swept table, and no-results exactly when nothing is available |
| ReservationViews.ChooseCustomer | web/views/reservation_views.py:127-139 | staff must select a customer that exists; anyone else books with their own profile; each failure is its own case |
| ReservationViews.FindRoomType | web/views/reservation_views.py:157 | the room type with the posted id, or not found exactly when none has it |
| ReservationViews.PlanBooking | web/views/reservation_views.py:160-175 | a booking's public number is one no row had before, so the insert keeps the numbers unique |
| ReservationViews.PlanBookingMeaning | web/views/reservation_views.py:119-175 | the refusals come in the view's order: no customer selected, customer not found, no profile, bad dates, room type not found; after those, a row the database refuses (phone null, guests < 0, number taken) is a server error; a booking is made exactly when the customer is resolved, the dates pass, the room type exists, a phone number is available, guests ≥ 0 and the public number is unused; the new row has the requester's own customer, the form's or the customer's details, the form's status, a 24-hour expiry for holds only, no room, and the stay's nights and total cost |
| ReservationViews.SaveReservation | web/views/reservation_views.py:119-181 | a refused booking changes nothing; a made one appends exactly the planned row; only a confirmed booking collects recipients, from the guest and user addresses |
| ReservationViews.StartOrder | web/views/reservation_views.py:297 | "later start first" is a total preorder |
| ReservationViews.LatestFirst | web/views/reservation_views.py:297 | `order_by("-start_date")` is a permutation of the rows, latest start first |
| ReservationViews.LookupResults | web/views/reservation_views.py:290-330 | the results are exactly the visible rows that answer the query, each as often as it is visible; email and name results are latest first; reservation-number results are the filtered rows in table order |
| ReservationViews.SearchReservations | web/views/reservation_views.py:254-340 | a non-staff user without a profile gets the no-profile message; staff see all reservations, others their own; a blank query gets its prompt; otherwise the results are exactly the matching visible rows, each as often as the table holds it, with the no-match message exactly when there are none |
| ReservationViews.SecondaryEmailNights | web/views/reservation_views.py:399 | the nights shown is the raw day difference: it agrees with `calculate_total_cost` for stays of at least a night and falls below it otherwise |
| ExtendedViews.OverlapCountWithout | web/views/helpers.py:79-84 | a reservation adds one to the overlap count exactly when it blocks the stay |
| ExtendedViews.OverlapCountUpdate | web/views/helpers.py:79-84 | updating a row swaps its contribution to the count for that of the new row |
| ExtendedViews.CancelReservation | web/views/reservation_extended_views.py:87-105 | a user without a profile fails; the reservation is looked up among the user's own; an already cancelled one is left alone; otherwise only that row changes, to Cancelled with no expiration time |
| ExtendedViews.CancelTwiceFindsItCancelled | web/views/reservation_extended_views.py:96-102 | after a cancel the same lookup finds the same row, now Cancelled, so cancelling again changes nothing |
| ExtendedViews.CancelReleasesItsUnit | web/views/reservation_extended_views.py:100-102 | cancelling lowers the overlap count of any room type and stay by one exactly when the reservation blocked it |
| ExtendedViews.CheckHold | web/views/reservation_extended_views.py:109-131 | the checks of `confirm_hold`, in order: lookup, status Hold, not expired, room type present |
| ExtendedViews.IdSelection | web/views/helpers.py:60 | an integer room-type id selects that room type, except 0, which Python reads as false and which selects none |
| ExtendedViews.RecheckQuery | web/views/reservation_extended_views.py:126-131 | the recheck asks about the reservation's own stay, its guests (none for 0) and its room type, which a type numbered 0 does not select |
| ExtendedViews.PlanConfirmMeaning | web/views/reservation_extended_views.py:107-140 | a failed check is reported as it is; an open hold is confirmed exactly when the recheck finds its room type available, and then only its status (Confirmed) and expiration (none) change |
| ExtendedViews.DecideConfirm | web/views/reservation_extended_views.py:109-135 | the checks and the recheck reach the decision described above |
| ExtendedViews.OneGuestAddress | web/views/reservation_extended_views.py:143 | validating the guest's address on its own gives its stripped form when that is non-empty and accepted, and nothing otherwise |
| ExtendedViews.GuestRecipients | web/views/reservation_extended_views.py:143 | the confirmation goes to the guest's stripped address when it is non-empty and accepted, and to nobody otherwise |
| ExtendedViews.ConfirmHold | web/views/reservation_extended_views.py:107-162 | a refused decision changes nothing; a confirmation replaces only the hold's row and mails the guest's valid address; the other tables are unchanged |
| ExtendedViews.ZeroTypeIdRechecksEveryType | web/views/reservation_extended_views.py:126-131 | a reservation of room type 0 is rechecked against every room type: the recheck succeeds exactly when some type takes its guests and has a unit free over its stay |
| ExtendedViews.ConfirmNeedsASecondUnit | web/views/reservation_extended_views.py:125-135 | as written, a hold on a room type numbered from 1 is confirmed only when its room type has more units than the other overlapping reservations plus one: the hold counts against itself |
| ExtendedViews.ConfirmExcludingSelfNeedsOneUnit | web/views/reservation_extended_views.py:125-140 | leaving the hold out of the recheck, it is confirmed exactly when a unit is free apart from it, and the confirmed booking then keeps the room type within capacity |
| ExtendedViews.ConfirmKeepsOccupancy | web/views/reservation_extended_views.py:137-140 | confirming a hold changes no overlap count, since a hold already takes up its unit |
| ExtendedViews.LoneHoldIsNeverConfirmed | web/views/reservation_extended_views.py:125-135 | the only hold on the only Queen room passes every check yet the recheck finds no room; leaving it out finds one |
| ExtendedViews.RetryHold | web/views/reservation_extended_views.py:164-190 | there is no status guard: once the recheck finds a room, the reservation, whatever its status, becomes a hold expiring 24 hours from now; nothing else changes |
| ExtendedViews.RenewedHoldHoldsItsUnit | web/views/reservation_extended_views.py:184-187 | a renewed hold takes up a unit and is not expired until 24 hours have passed |
| ExtendedViews.CheckModify | web/views/reservation_extended_views.py:192-212 | the checks of `reservation_modify`, in order: lookup by number, permission (staff, or the same customer), dates, the reservation's room type; the guests and room type default to the reservation's |
| ExtendedViews.ModifyQuery | web/views/reservation_extended_views.py:211-219 | the recheck asks about the new stay, the guests (none for 0) and the chosen room type; it selects no type only when the reservation's own type, numbered 0, is the default |
| ExtendedViews.AdditionalPieces | web/views/reservation_extended_views.py:252-254 | the additional-recipients field is split on `;` and `,`, and no piece contains either |
| ExtendedViews.OneAddress | web/views/reservation_extended_views.py:258 | validating one stripped address on its own accepts or rejects just that address |
| ExtendedViews.ValidatePieces | web/views/reservation_extended_views.py:254-262 | the loop over the pieces gives the same valid set and invalid list as validating the stripped pieces together |
| ExtendedViews.PartitionRecipients | web/views/reservation_extended_views.py:236-268 | the primary recipients are the valid guest and user addresses; the additional ones are the valid pieces not already primary; the invalid ones of both follow in order |
| ExtendedViews.RecipientsAreAddresses | web/views/reservation_extended_views.py:236-268 | the primary and additional recipients are disjoint; every primary one is an accepted address of the guest or the user; every additional one is accepted and has no separator; every reported one is non-empty and rejected |
| ExtendedViews.AdditionalRecipientsAreClean | web/views/reservation_extended_views.py:252-266 | every additional recipient is a non-empty accepted address without `;` or `,` |
| ExtendedViews.PlanModify | web/views/reservation_extended_views.py:211-229 | the room-type lookup after a successful recheck fails only when no room type was posted and the reservation's own type is numbered 0 |
| ExtendedViews.PlanModifyMeaning | web/views/reservation_extended_views.py:201-230 | a failed check is reported as it is; the lookup 404s exactly when the recheck found a room but the chosen type is missing; a change is applied exactly when the recheck finds a room, the type exists and guests ≥ 0; the new row differs from the old only in stay, guests and room type, so status, total cost and a hold's expiration are kept |
| ExtendedViews.DecideModify | web/views/reservation_extended_views.py:201-229 | the checks, the recheck and the room-type lookup reach the decision described above |
| ExtendedViews.ModifyReservation | web/views/reservation_extended_views.py:192-268 | a refused change leaves the table as it was; an applied one replaces only that row and reports the recipient partition; the other tables are unchanged |
| ExtendedViews.ModifyFindsTheRoomType | web/views/reservation_extended_views.py:221-229 | when the recheck selects the chosen room type and finds a room, looking that type up succeeds |
| ExtendedViews.ModifyCountsItself | web/views/reservation_extended_views.py:214-223 | as written, for a selected room type, a reservation that already blocks the new stay counts against itself: the change goes through only with a second free unit |
| ExtendedViews.ModifyExcludingSelfKeepsCapacity | web/views/reservation_extended_views.py:214-230 | leaving the reservation out of the recheck, for a selected room type, a change to an active reservation goes through exactly when the room type stays within capacity afterwards |
| ExtendedViews.UnchangedBookingIsRefused | web/views/reservation_extended_views.py:214-223 | resubmitting the only booking of the only Queen room unchanged is refused as written and accepted when it is left out of the count |
| SeedMigration.AddMaintenanceUntil | web/migrations/0002_seed_roomtypes_and_rooms.py:98-102 | adding the nullable column gives every existing room a null date and keeps its other fields |
| SeedMigration.NewColumnKeepsMaintenanceRoomsOut | web/migrations/0002_seed_roomtypes_and_rooms.py:98-102 | right after the column is added, no room under maintenance counts toward any capacity |
| SeedMigration.IndexOfKey | web/migrations/0002_seed_roomtypes_and_rooms.py:52-53 | the lookup `update_or_create` makes by a unique column finds the row holding the value, or reports that none holds it |
| SeedMigration.NextKey | web/migrations/0002_seed_roomtypes_and_rooms.py:52-60 | a row `update_or_create` inserts gets a primary key above every existing key |
| SeedMigration.IndexOfTypeName | web/migrations/0002_seed_roomtypes_and_rooms.py:52-53 | finds the room type with the given name, or reports that none has it |
| SeedMigration.NextTypeId | web/migrations/0002_seed_roomtypes_and_rooms.py:52-60 | a created room type gets a key above every existing key |
| SeedMigration.UpsertType | web/migrations/0002_seed_roomtypes_and_rooms.py:52-60 | `update_or_create` by name leaves the seed's values in the table, adds a row only when the name is new, keeps every row's key and name, leaves rows of other names untouched, changes nothing when the values are already there, and keeps names and keys unique |
| SeedMigration.SeedTypes | web/migrations/0002_seed_roomtypes_and_rooms.py:51-60 | seeding keeps names and keys unique and adds at most one row per entry |
| SeedMigration.SeedTypesKeepsOthers | web/migrations/0002_seed_roomtypes_and_rooms.py:51-60 | existing room types keep their place, key and name; those no entry names are untouched |
| SeedMigration.TypeSeedsFitTheColumns | web/migrations/0002_seed_roomtypes_and_rooms.py:18-47 | every seeded room type has a name within the 25-character column and a positive price within Decimal(7,2) |
| SeedMigration.TypeSeedNamesDistinct | web/migrations/0002_seed_roomtypes_and_rooms.py:18-47 | the four seeded names are distinct |
| SeedMigration.SeedTypesInstallsAll | web/migrations/0002_seed_roomtypes_and_rooms.py:18-60 | after seeding, every entry is in the table with its price, beds, guests and description |
| SeedMigration.SeedTypesWhenPresent | web/migrations/0002_seed_roomtypes_and_rooms.py:49-60 | seeding a table that already holds every entry changes nothing |
| SeedMigration.SeedTypesIdempotent | web/migrations/0002_seed_roomtypes_and_rooms.py:49-60 | running the room-type seed twice gives the table it gives once |
| SeedMigration.UpsertRoomType | web/migrations/0002_seed_roomtypes_and_rooms.py:52-60 | one `update_or_create` call updates the table as the upsert says and touches no other table |
| SeedMigration.CreateInitialRoomTypes | web/migrations/0002_seed_roomtypes_and_rooms.py:15-60 | the loop leaves the room-type table seeded and the other tables unchanged |
| SeedMigration.TypeIdNamed | web/migrations/0002_seed_roomtypes_and_rooms.py:81 | `RoomType.objects.get(name=...)` gives the key of a room type with that name, or fails exactly when none has it |
| SeedMigration.IndexOfRoomNumber | web/migrations/0002_seed_roomtypes_and_rooms.py:82-83 | finds the room with the given number, or reports that none has it |
| SeedMigration.NextRoomId | web/migrations/0002_seed_roomtypes_and_rooms.py:82-88 | a created room gets a key above every existing key |
| SeedMigration.UpsertRoom | web/migrations/0002_seed_roomtypes_and_rooms.py:81-88 | fails exactly when the type name is unknown; otherwise the entry's number, status and room type end up in the table, a row is added only for a new number, other rooms are untouched, and nothing changes when the entry is already there; as written, a created room has no maintenance date and an existing room keeps its date |
| SeedMigration.SeedRooms | web/migrations/0002_seed_roomtypes_and_rooms.py:80-88 | seeding fails exactly when some entry names an unknown room type; otherwise room numbers stay unique and at most one row is added per entry |
| SeedMigration.SeedRoomsKeepsOthers | web/migrations/0002_seed_roomtypes_and_rooms.py:80-88 | existing rooms keep their place, key and number; rooms no entry names are untouched; as written no date changes |
| SeedMigration.SeedRoomsInstallsAll | web/migrations/0002_seed_roomtypes_and_rooms.py:67-88 | after seeding, every entry's room is in the table with its status and room type |
| SeedMigration.RoomSeedNumbersDistinct | web/migrations/0002_seed_roomtypes_and_rooms.py:67-76 | the eight seeded room numbers are distinct |
| SeedMigration.RoomSeedsNameSeededTypes | web/migrations/0002_seed_roomtypes_and_rooms.py:67-76 | every seeded room names one of the seeded room types |
| SeedMigration.SeedRoomsWhenPresent | web/migrations/0002_seed_roomtypes_and_rooms.py:78-88 | seeding a table that already holds every entry changes nothing |
| SeedMigration.SeedRoomsIdempotent | web/migrations/0002_seed_roomtypes_and_rooms.py:78-88 | running the room seed twice gives the table it gives once |
| SeedMigration.SeededTypesResolveEveryRoom | web/migrations/0002_seed_roomtypes_and_rooms.py:104-105 | after the room-type seed, the room seed cannot fail on a room-type lookup |
| SeedMigration.UpsertRoomRow | web/migrations/0002_seed_roomtypes_and_rooms.py:81-88 | one lookup and `update_or_create` call updates the room table as the upsert says |
| SeedMigration.UpsertRooms | web/migrations/0002_seed_roomtypes_and_rooms.py:80-88 | the loop leaves the rooms seeded, or, when a lookup fails, as they were |
| SeedMigration.CreateInitialRooms | web/migrations/0002_seed_roomtypes_and_rooms.py:63-88 | `create_initial_rooms` seeds the eight rooms, or fails and leaves the rooms as they were |
| SeedMigration.SeedRoomsFailureSticks | web/migrations/0002_seed_roomtypes_and_rooms.py:80-88 | once a lookup fails the whole room seed fails |
| SeedMigration.ApplySeedMigration | web/migrations/0002_seed_roomtypes_and_rooms.py:96-106 | the migration adds the column, seeds the room types, then seeds the rooms without failing, and leaves a database whose unique constraints hold |
| SeedMigration.SeedRoomsWritesNoDate | web/migrations/0002_seed_roomtypes_and_rooms.py:84-87 | as written, every maintenance date after the room seed was already on the same room before it |
| SeedMigration.CreatedRoomIsUndated | web/migrations/0002_seed_roomtypes_and_rooms.py:84-87 | as written, a room the seed creates has its entry's status and no maintenance date |
| SeedMigration.Room302StaysOutOfService | web/migrations/0002_seed_roomtypes_and_rooms.py:73 | as written, a newly created room 302 is under maintenance with no date, so it never counts toward capacity |
| SeedMigration.Room302ReturnsToService | web/migrations/0002_seed_roomtypes_and_rooms.py:73 | with the seed's date written, room 302 is dated 2025-11-25 and counts toward its type's capacity for every stay that starts later |
| PublicIdMigration.PublicIdFor | web/migrations/0006_alter_reservation_public_id.py:16 | a generated number is "MBL-" followed by the first eight UUID digits in upper case: 12 characters, within `max_length=12` |
| PublicIdMigration.PublicIdForInjectiveOnPrefix | web/migrations/0006_alter_reservation_public_id.py:16 | two UUIDs give the same number exactly when their first eight digits agree |
| PublicIdMigration.Backfilled | web/migrations/0006_alter_reservation_public_id.py:15-17 | afterwards every row has a number; rows that had one are unchanged; rows that had none get a generated number and no other column changes |
| PublicIdMigration.GeneratePublicIds | web/migrations/0006_alter_reservation_public_id.py:12-17 | the loop saves only `public_id` on only the rows that had none |
| PublicIdMigration.ApplyPublicIdMigration | web/migrations/0006_alter_reservation_public_id.py:25-31 | the migration is applied exactly when the back-filled table satisfies NOT NULL and UNIQUE; otherwise the table is left as it was |
| PublicIdMigration.BackfillKeepsNumbersUnique | web/migrations/0006_alter_reservation_public_id.py:15-30 | with unique existing numbers, UUIDs that differ in their first eight digits, and no existing number of the generated shape, the constraint holds |
| PublicIdMigration.CollidingUuidsAbortTheMigration | web/migrations/0006_alter_reservation_public_id.py:16-30 | nothing prevents collisions: two numberless rows whose UUIDs share eight digits get the same number, and the migration fails |

## Left out

- **Presentation.** Email transport, templates, flash messages and redirects are
  left out. The model keeps the recipient sets, the state changes and the
  error messages. It does not keep the email bodies or the context
  dictionaries, and it does not model `__str__`.
- **The GET side of `reservation`** (web/views/reservation_views.py:43-72) is
  left out. This is the pre-filled form data and the staff customer list,
  which are presentation only. The debugging `print` at line 96 is left out
  too.
- **The GET branch of `reservation_modify`**, which renders the form, is left
  out.
- **`reservation_detail`**, which only renders, is left out.
- **`send_secondary_email`** is modelled only for its nights figure. Its lookup
  and its email are not modelled.
- **Malformed form input.** `int()` raises on a non-numeric `guests_final`, and
  this is not modelled: guests are integers. A date field missing from the
  POST makes `strptime` raise `TypeError`, a server error. The model treats it
  like an unparseable date. A non-numeric `room_type` is not modelled.
- **Status values.** A posted `status` outside Hold, Confirmed and Cancelled is
  not modelled: the form's status is one of the three choices.
- **New public numbers.** The public number of a new reservation is a
  parameter. Its default generator is not part of this model.
- **New keys.** A new room type or room gets one more than the largest key in
  the table. On the assumed SQLite backend, AUTOINCREMENT may skip keys of deleted rows. The model
  only relies on the new key being unused.
- **Concurrency.** The race between a recheck and the following `save()` is
  left out: the model is sequential.
- **Column checks.** Decimal(7,2) limits and `max_length` limits are not
  checked: on the assumed SQLite backend they are not enforced. Prices and costs
  are unbounded integer cents. The upper bound of `PositiveSmallIntegerField`
  is not enforced either. Only its `guests >= 0` check is modelled, as the
  failed save it causes.
- **Case folding.** Case-insensitive matching folds only ASCII letters.
  Unicode case folding is left out.
- **Automatic timestamps.** `updated_at` is not modelled, and `created_time` is
  the `now` of the request.
- **Other files.** web/views.py, web/views/outdated_views.py,
  web/views/account_views.py, web/views/base_views.py, web/forms.py and
  web/urls.py are not part of this model.
- ExtendedViews.ConfirmNeedsASecondUnit, ExtendedViews.ConfirmExcludingSelfNeedsOneUnit,
  ExtendedViews.ModifyCountsItself and ExtendedViews.ModifyExcludingSelfKeepsCapacity
  speak only of a recheck that selects a room type (ids from 1, or a posted
  type). A recheck for a reservation of type 0 selects none, and
  `ExtendedViews.ZeroTypeIdRechecksEveryType` states that case for the hold
  views; the modify view's case is covered by `ExtendedViews.PlanModifyMeaning`.
- **Helpers.Capacity and Helpers.OverlapCount.** Each contract states only a
  bound. What they count is stated by `Helpers.OfferFor`, `Helpers.OffersOfTable`
  and the overlap-count lemmas built on them.

## Findings

| source | as written | input that shows it | evidently intended | confidence | as-written member | corrected member |
|---|---|---|---|---|---|---|
| web/views/reservation_extended_views.py:125-135 | `confirm_hold` rechecks availability over all active reservations, so the hold being confirmed counts against itself | one Queen room (401), and one open hold by its customer on it for two nights: every check passes, but the recheck finds no room and the hold cannot be confirmed | the recheck leaves the hold itself out, so a hold can always be confirmed onto the unit it already takes up | high (not executed) | ExtendedViews.LoneHoldIsNeverConfirmed | ExtendedViews.ConfirmExcludingSelfNeedsOneUnit |
| web/views/reservation_extended_views.py:214-223 | `reservation_modify` rechecks availability over all active reservations, so the reservation being changed counts against itself | the only Queen room, with one confirmed one-guest booking for nights 10-12, resubmitted with the same dates: "No rooms available for the new dates." | the recheck leaves the reservation being changed out | high (not executed) | ExtendedViews.UnchangedBookingIsRefused | ExtendedViews.ModifyExcludingSelfKeepsCapacity |
| web/migrations/0002_seed_roomtypes_and_rooms.py:73 | the seed gives room 302 a maintenance date of 2025-11-25, but the upsert's defaults never write it | a database without room 302: the seed creates it under maintenance with no date, so it counts toward no capacity for any stay | room 302 returns to service for stays after 2025-11-25 | medium (not executed) | SeedMigration.Room302StaysOutOfService | SeedMigration.Room302ReturnsToService |
