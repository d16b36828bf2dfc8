// The follow-up views of web/views/reservation_extended_views.py, each of
// which finds a reservation by its public reservation number: cancelling,
// confirming a hold, renewing a hold, and modifying a reservation with the
// notification of its guest, its user and any additional addresses.

module ExtendedViews {
  import opened Models
  import opened Text
  import opened QuerySets
  import opened Helpers
  import opened ReservationViews

  /** `get_object_or_404(Reservation, public_id=..., customer=request.user.customer)`. */
  function OwnReservation(rows: seq<Reservation>, user: RequestUser, publicId: string): Lookup {
    Get(rows, (r: Reservation) => r.publicId == Some(publicId) && r.customer == CustomerIdOf(user))
  }

  /** `get_object_or_404(Reservation, public_id=...)`. */
  function AnyReservation(rows: seq<Reservation>, publicId: string): Lookup {
    Get(rows, (r: Reservation) => r.publicId == Some(publicId))
  }

  /** The table without row `i`. */
  function Without(rows: seq<Reservation>, i: nat): (rest: seq<Reservation>)
    requires i < |rows|
    ensures |rest| == |rows| - 1
  {
    rows[..i] + rows[i + 1..]
  }

  /** The reservations a recheck for row `i` counts: all of them, as the views
      are written, or all but row `i` itself when `excludeSelf` holds. */
  function Counted(rows: seq<Reservation>, i: nat, excludeSelf: bool): seq<Reservation>
    requires i < |rows|
  {
    if excludeSelf then Without(rows, i) else rows
  }

  /** Row `i` adds one to the count of the reservations taking up a unit exactly when it blocks. */
  lemma OverlapCountWithout(rows: seq<Reservation>, i: nat, roomTypeId: nat, checkIn: int, checkOut: int)
    requires i < |rows|
    ensures OverlapCount(rows, roomTypeId, checkIn, checkOut)
            == OverlapCount(Without(rows, i), roomTypeId, checkIn, checkOut)
               + (if Blocks(rows[i], roomTypeId, checkIn, checkOut) then 1 else 0)
  {
    assert rows == (rows[..i] + [rows[i]]) + rows[i + 1..];
    OverlapCountAppend(rows[..i] + [rows[i]], rows[i + 1..], roomTypeId, checkIn, checkOut);
    OverlapCountAddOne(rows[..i], rows[i], roomTypeId, checkIn, checkOut);
    OverlapCountAppend(rows[..i], rows[i + 1..], roomTypeId, checkIn, checkOut);
  }

  /** Replacing row `i` by `r` swaps its contribution to the count for that of `r`. */
  lemma OverlapCountUpdate(rows: seq<Reservation>, i: nat, r: Reservation, roomTypeId: nat, checkIn: int, checkOut: int)
    requires i < |rows|
    ensures OverlapCount(rows[i := r], roomTypeId, checkIn, checkOut)
            == OverlapCount(Without(rows, i), roomTypeId, checkIn, checkOut)
               + (if Blocks(r, roomTypeId, checkIn, checkOut) then 1 else 0)
  {
    assert Without(rows[i := r], i) == Without(rows, i);
    OverlapCountWithout(rows[i := r], i, roomTypeId, checkIn, checkOut);
  }

  // ---------------------------------------------------------------------
  // Cancelling
  // ---------------------------------------------------------------------

  datatype CancelOutcome = CancelServerError | CancelNotFound | AlreadyCancelled | CancelDone

  function AsCancelled(r: Reservation): Reservation {
    r.(status := Cancelled, expirationTime := None)
  }

  /** `cancel_reservation`: a user without a customer profile fails on the lookup
      itself; an already cancelled reservation is left alone; any other one is
      cancelled and loses its expiration time. */
  method CancelReservation(db: Database, user: RequestUser, publicId: string) returns (outcome: CancelOutcome)
    modifies db
    ensures db.customers == old(db.customers) && db.roomTypes == old(db.roomTypes) && db.rooms == old(db.rooms)
    ensures outcome != CancelDone ==> db.reservations == old(db.reservations)
    ensures user.profile.None? ==> outcome == CancelServerError
    ensures user.profile.Some? ==>
              match OwnReservation(old(db.reservations), user, publicId)
              case Missing => outcome == CancelNotFound
              case Ambiguous => outcome == CancelServerError
              case Found(i) =>
                && (old(db.reservations)[i].status == Cancelled ==> outcome == AlreadyCancelled)
                && (old(db.reservations)[i].status != Cancelled ==>
                      outcome == CancelDone && db.reservations == old(db.reservations)[i := AsCancelled(old(db.reservations)[i])])
  {
    if user.profile.None? {
      return CancelServerError;
    }
    var found := OwnReservation(db.reservations, user, publicId);
    if found.Missing? {
      return CancelNotFound;
    } else if found.Ambiguous? {
      return CancelServerError;
    }
    var r := db.reservations[found.index];
    if r.status == Cancelled {
      return AlreadyCancelled;
    }
    db.reservations := db.reservations[found.index := AsCancelled(r)];
    outcome := CancelDone;
  }

  /** Cancelling is idempotent: after a cancel the lookup finds the same row, now
      Cancelled, so a second cancel reports it and changes nothing. */
  lemma CancelTwiceFindsItCancelled(rows: seq<Reservation>, user: RequestUser, publicId: string)
    requires OwnReservation(rows, user, publicId).Found?
    ensures var i := OwnReservation(rows, user, publicId).index;
      && OwnReservation(rows[i := AsCancelled(rows[i])], user, publicId) == Found(i)
      && rows[i := AsCancelled(rows[i])][i].status == Cancelled
  {
    var i := OwnReservation(rows, user, publicId).index;
    GetSameMatches(rows, rows[i := AsCancelled(rows[i])],
                   (r: Reservation) => r.publicId == Some(publicId) && r.customer == CustomerIdOf(user));
  }

  /** Cancelling gives back exactly the unit the reservation took up, for every room type and stay. */
  lemma CancelReleasesItsUnit(rows: seq<Reservation>, i: nat, roomTypeId: nat, checkIn: int, checkOut: int)
    requires i < |rows|
    ensures OverlapCount(rows[i := AsCancelled(rows[i])], roomTypeId, checkIn, checkOut)
            == OverlapCount(rows, roomTypeId, checkIn, checkOut) - (if Blocks(rows[i], roomTypeId, checkIn, checkOut) then 1 else 0)
  {
    OverlapCountUpdate(rows, i, AsCancelled(rows[i]), roomTypeId, checkIn, checkOut);
    OverlapCountWithout(rows, i, roomTypeId, checkIn, checkOut);
  }

  // ---------------------------------------------------------------------
  // Confirming and renewing a hold
  // ---------------------------------------------------------------------

  /** The checks `confirm_hold` makes before it rechecks availability. */
  datatype HoldCheck = HoldServerError | HoldNotFound | NotOnHold | HoldExpired | HoldOpen(index: nat)

  function CheckHold(rows: seq<Reservation>, user: RequestUser, publicId: string, now: int): (c: HoldCheck)
    ensures user.profile.None? ==> c == HoldServerError
    ensures user.profile.Some? && OwnReservation(rows, user, publicId).Missing? ==> c == HoldNotFound
    ensures user.profile.Some? && OwnReservation(rows, user, publicId).Ambiguous? ==> c == HoldServerError
    ensures user.profile.Some? && OwnReservation(rows, user, publicId).Found? ==>
              var i := OwnReservation(rows, user, publicId).index;
              && (rows[i].status != Hold ==> c == NotOnHold)
              && (ExpiredHold(rows[i], now) ==> c == HoldExpired)
              && ((rows[i].status == Hold && !ExpiredHold(rows[i], now)) ==>
                    c == (if rows[i].roomType.None? then HoldServerError else HoldOpen(i)))
    ensures c.HoldOpen? ==>
              && c.index < |rows|
              && rows[c.index].publicId == Some(publicId)
              && rows[c.index].customer == CustomerIdOf(user) && user.profile.Some?
              && rows[c.index].status == Hold && !ExpiredHold(rows[c.index], now)
              && rows[c.index].roomType.Some?
  {
    if user.profile.None? then HoldServerError
    else
      var found := OwnReservation(rows, user, publicId);
      if found.Missing? then HoldNotFound
      else if found.Ambiguous? then HoldServerError
      else
        var r := rows[found.index];
        if r.status != Hold then NotOnHold
        else if r.expirationTime.Some? && r.expirationTime.value < now then HoldExpired
        else if r.roomType.None? then HoldServerError
        else HoldOpen(found.index)
  }

  /** A room type id passed to `get_available_rooms` as an integer: a false
      value, which 0 is, selects no room type at all. */
  function IdSelection(id: nat): (s: Option<nat>)
    ensures s.None? <==> id == 0
    ensures s.Some? ==> s.value == id
  {
    if id == 0 then None else Some(id)
  }

  /** The availability query both hold views make for a reservation: its stay,
      its guest count (none when zero) and its room type (none when numbered 0). */
  function RecheckQuery(r: Reservation): (q: RoomQuery)
    requires r.roomType.Some?
    ensures q.checkIn == r.startDate && q.checkOut == r.endDate
    ensures q.selectedRoomTypeId.Some? <==> r.roomType.value != 0
    ensures q.selectedRoomTypeId.Some? ==> q.selectedRoomTypeId == r.roomType
    ensures q.numGuests.None? <==> r.guests == 0
  {
    RoomQuery(r.startDate, r.endDate, if r.guests == 0 then None else Some(r.guests), IdSelection(r.roomType.value))
  }

  function AsConfirmed(r: Reservation): Reservation {
    r.(status := Confirmed, expirationTime := None)
  }

  datatype ConfirmOutcome = ConfirmRefused(check: HoldCheck) | NoLongerAvailable | HoldConfirmed(recipients: set<string>)

  /** What `confirm_hold` does: stop with an outcome, or save `row` at `index`. */
  datatype ConfirmStep = ConfirmStop(outcome: ConfirmOutcome) | ConfirmApply(index: nat, row: Reservation)

  /** The decision of `confirm_hold`. As written (`excludeSelf` false) the
      recheck counts every active reservation, the hold being confirmed among
      them; with `excludeSelf` it counts the other reservations only. */
  function PlanConfirm(roomTypes: seq<RoomType>, rooms: seq<Room>, rows: seq<Reservation>, user: RequestUser,
                       publicId: string, now: int, excludeSelf: bool): (step: ConfirmStep)
    ensures step.ConfirmApply? ==> step.index < |rows|
  {
    var c := CheckHold(rows, user, publicId, now);
    if !c.HoldOpen? then ConfirmStop(ConfirmRefused(c))
    else
      var r := rows[c.index];
      if AvailableRooms(roomTypes, rooms, Counted(rows, c.index, excludeSelf), RecheckQuery(r)) == [] then
        ConfirmStop(NoLongerAvailable)
      else ConfirmApply(c.index, AsConfirmed(r))
  }

  /** What the decision means: a failed check is reported as is; an open hold
      is confirmed, and nothing else about it changes, exactly when the recheck
      finds its room type available. */
  lemma PlanConfirmMeaning(roomTypes: seq<RoomType>, rooms: seq<Room>, rows: seq<Reservation>, user: RequestUser,
                           publicId: string, now: int, excludeSelf: bool)
    ensures var step := PlanConfirm(roomTypes, rooms, rows, user, publicId, now, excludeSelf);
      var c := CheckHold(rows, user, publicId, now);
      && (!c.HoldOpen? ==> step == ConfirmStop(ConfirmRefused(c)))
      && (c.HoldOpen? ==>
            var r := rows[c.index];
            var available := AvailableRooms(roomTypes, rooms, Counted(rows, c.index, excludeSelf), RecheckQuery(r));
            && (available == [] ==> step == ConfirmStop(NoLongerAvailable))
            && (available != [] ==> step == ConfirmApply(c.index, r.(status := Confirmed, expirationTime := None)))
            && (step.ConfirmApply? ==> r.status == Hold && !ExpiredHold(r, now)))
  {
  }

  /** Validating a single address keeps its stripped form when that is non-empty and accepted. */
  lemma OneGuestAddress(guestEmail: string, isValid: string -> bool)
    ensures var addr := Strip(guestEmail);
      ValidOf(Stripped([guestEmail]), isValid) == if addr != [] && isValid(addr) then {addr} else {}
  {
    assert Stripped([guestEmail]) == [Strip(guestEmail)];
    assert [Strip(guestEmail)][..0] == [];
  }

  /** The recipients of a confirmation: `validate_emails([guest_email])`, of
      which only the valid set is used. */
  method GuestRecipients(guestEmail: string, isValid: string -> bool) returns (recipients: set<string>)
    ensures recipients == ValidOf(Stripped([guestEmail]), isValid)
    ensures var addr := Strip(guestEmail);
      recipients == if addr != [] && isValid(addr) then {addr} else {}
  {
    var invalid;
    recipients, invalid := ValidateEmails([guestEmail], isValid);
    OneGuestAddress(guestEmail, isValid);
  }

  /** The checks and the recheck of `confirm_hold`, over the tables as they are. */
  method DecideConfirm(roomTypes: seq<RoomType>, rooms: seq<Room>, rows: seq<Reservation>, user: RequestUser,
                       publicId: string, now: int, excludeSelf: bool) returns (step: ConfirmStep)
    ensures step == PlanConfirm(roomTypes, rooms, rows, user, publicId, now, excludeSelf)
  {
    var c := CheckHold(rows, user, publicId, now);
    if !c.HoldOpen? {
      return ConfirmStop(ConfirmRefused(c));
    }
    var r := rows[c.index];
    var available := GetAvailableRooms(roomTypes, rooms, Counted(rows, c.index, excludeSelf), RecheckQuery(r));
    if available == [] {
      return ConfirmStop(NoLongerAvailable);
    }
    return ConfirmApply(c.index, AsConfirmed(r));
  }

  /** `confirm_hold`: applies the decision and, after a confirmation, mails the
      guest's address when it is valid. */
  method ConfirmHold(db: Database, user: RequestUser, publicId: string, now: int, isValid: string -> bool,
                     excludeSelf: bool)
    returns (outcome: ConfirmOutcome)
    modifies db
    ensures db.customers == old(db.customers) && db.roomTypes == old(db.roomTypes) && db.rooms == old(db.rooms)
    ensures var step := old(PlanConfirm(db.roomTypes, db.rooms, db.reservations, user, publicId, now, excludeSelf));
      && (step.ConfirmStop? ==> outcome == step.outcome && db.reservations == old(db.reservations))
      && (step.ConfirmApply? ==>
            && step.index < |old(db.reservations)|
            && db.reservations == old(db.reservations)[step.index := step.row]
            && var addr := Strip(step.row.guestEmail);
               outcome == HoldConfirmed(if addr != [] && isValid(addr) then {addr} else {}))
  {
    var step := DecideConfirm(db.roomTypes, db.rooms, db.reservations, user, publicId, now, excludeSelf);
    if step.ConfirmStop? {
      return step.outcome;
    }
    db.reservations := db.reservations[step.index := step.row];
    var recipients := GuestRecipients(step.row.guestEmail, isValid);
    outcome := HoldConfirmed(recipients);
  }

  /** The room type of a reservation takes its guests. */
  predicate TypeTakes(roomTypes: seq<RoomType>, r: Reservation)
    requires r.roomType.Some?
  {
    exists t :: t in roomTypes && t.id == r.roomType.value && Wanted(t, RecheckQuery(r))
  }

  /** As written, a hold over a stay of at least a night counts against itself:
      it is confirmed only when its room type has a second free unit besides
      the one the hold already takes up. */
  lemma ConfirmNeedsASecondUnit(roomTypes: seq<RoomType>, rooms: seq<Room>, rows: seq<Reservation>, i: nat)
    requires i < |rows| && rows[i].status == Hold && rows[i].roomType.Some? && rows[i].startDate < rows[i].endDate
    requires rows[i].roomType.value != 0
    ensures var r := rows[i];
      AvailableRooms(roomTypes, rooms, rows, RecheckQuery(r)) != []
      <==> && TypeTakes(roomTypes, r)
           && Capacity(rooms, r.roomType.value, r.startDate)
              > OverlapCount(Without(rows, i), r.roomType.value, r.startDate, r.endDate) + 1
  {
    var r := rows[i];
    SelectedTypeAvailable(roomTypes, rooms, rows, RecheckQuery(r));
    OverlapCountWithout(rows, i, r.roomType.value, r.startDate, r.endDate);
  }

  /** With the hold left out of the count, it is confirmed exactly when its room
      type has a unit free apart from it, and confirming it then leaves the room
      type within its capacity over the stay. */
  lemma ConfirmExcludingSelfNeedsOneUnit(roomTypes: seq<RoomType>, rooms: seq<Room>, rows: seq<Reservation>, i: nat)
    requires i < |rows| && rows[i].status == Hold && rows[i].roomType.Some? && rows[i].startDate < rows[i].endDate
    requires rows[i].roomType.value != 0
    ensures var r := rows[i];
      AvailableRooms(roomTypes, rooms, Without(rows, i), RecheckQuery(r)) != []
      <==> && TypeTakes(roomTypes, r)
           && Capacity(rooms, r.roomType.value, r.startDate)
              > OverlapCount(Without(rows, i), r.roomType.value, r.startDate, r.endDate)
    ensures var r := rows[i];
      AvailableRooms(roomTypes, rooms, Without(rows, i), RecheckQuery(r)) != [] ==>
        OverlapCount(rows[i := AsConfirmed(r)], r.roomType.value, r.startDate, r.endDate)
        <= Capacity(rooms, r.roomType.value, r.startDate)
  {
    var r := rows[i];
    SelectedTypeAvailable(roomTypes, rooms, Without(rows, i), RecheckQuery(r));
    OverlapCountUpdate(rows, i, AsConfirmed(r), r.roomType.value, r.startDate, r.endDate);
  }

  /** A reservation whose room type is numbered 0 is rechecked against every
      room type: the recheck succeeds exactly when a room type of any id takes
      its guests and has more units than active reservations over its stay. */
  lemma ZeroTypeIdRechecksEveryType(roomTypes: seq<RoomType>, rooms: seq<Room>, rows: seq<Reservation>, r: Reservation)
    requires r.roomType == Some(0)
    ensures AvailableRooms(roomTypes, rooms, rows, RecheckQuery(r)) != []
            <==> exists t :: && t in roomTypes
                             && (r.guests == 0 || t.maxGuests >= r.guests)
                             && Capacity(rooms, t.id, r.startDate) > OverlapCount(rows, t.id, r.startDate, r.endDate)
  {
    AvailableRoomsNonEmpty(roomTypes, rooms, rows, RecheckQuery(r));
  }

  /** Confirming a hold changes no count of reservations taking up units: a hold
      and a confirmed booking both take one. */
  lemma ConfirmKeepsOccupancy(rows: seq<Reservation>, i: nat, roomTypeId: nat, checkIn: int, checkOut: int)
    requires i < |rows| && rows[i].status == Hold
    ensures OverlapCount(rows[i := AsConfirmed(rows[i])], roomTypeId, checkIn, checkOut)
            == OverlapCount(rows, roomTypeId, checkIn, checkOut)
  {
    OverlapCountUpdate(rows, i, AsConfirmed(rows[i]), roomTypeId, checkIn, checkOut);
    OverlapCountWithout(rows, i, roomTypeId, checkIn, checkOut);
  }

  /** A Queen room type with one room, and a customer's open hold on it for two nights. */
  const SampleQueen := RoomType(1, "Queen", 14175, 1, 2, None)
  const SampleRoom := Room(1, "401", 1, Available, None)
  const SampleCustomer := Customer(7, Account("Ada", "Byron", "ada@example.com", false), Some("555-0100"), None, None, None, None, None)
  const SampleHold := Reservation(Some("MBL-0A1B2C3D"), Some(7), "Ada", "Byron", "555-0100", "ada@example.com",
                                  0, Some(86400), Hold, 10, 12, Some(1), None, 28350, 2)

  /** The lone hold on the only Queen room passes every check of `confirm_hold`
      but the recheck, which as written finds no room; leaving the hold out of
      the count finds one. */
  lemma LoneHoldIsNeverConfirmed()
    ensures CheckHold([SampleHold], RequestUser(SampleCustomer.user, Some(SampleCustomer)), "MBL-0A1B2C3D", 3600) == HoldOpen(0)
    ensures AvailableRooms([SampleQueen], [SampleRoom], [SampleHold], RecheckQuery(SampleHold)) == []
    ensures AvailableRooms([SampleQueen], [SampleRoom], Without([SampleHold], 0), RecheckQuery(SampleHold)) != []
  {
    var user := RequestUser(SampleCustomer.user, Some(SampleCustomer));
    assert OwnReservation([SampleHold], user, "MBL-0A1B2C3D") == Found(0);
    assert Capacity([SampleRoom], 1, 10) == 1 by {
      assert [SampleRoom][..0] == [];
    }
    assert Without([SampleHold], 0) == [];
    assert TypeTakes([SampleQueen], SampleHold) by {
      assert SampleQueen in [SampleQueen];
    }
    ConfirmNeedsASecondUnit([SampleQueen], [SampleRoom], [SampleHold], 0);
    ConfirmExcludingSelfNeedsOneUnit([SampleQueen], [SampleRoom], [SampleHold], 0);
  }

  datatype RetryOutcome = RetryServerError | RetryNotFound | RetryUnavailable | HoldRenewed

  function AsRenewedHold(r: Reservation, now: int): Reservation {
    r.(status := Hold, expirationTime := Some(now + HOLD_SECONDS))
  }

  /** `retry_hold`: whatever the reservation's status, once the recheck finds a
      room it becomes a hold again for another 24 hours. */
  method RetryHold(db: Database, user: RequestUser, publicId: string, now: int) returns (outcome: RetryOutcome)
    modifies db
    ensures db.customers == old(db.customers) && db.roomTypes == old(db.roomTypes) && db.rooms == old(db.rooms)
    ensures outcome != HoldRenewed ==> db.reservations == old(db.reservations)
    ensures user.profile.None? ==> outcome == RetryServerError
    ensures user.profile.Some? ==>
              match OwnReservation(old(db.reservations), user, publicId)
              case Missing => outcome == RetryNotFound
              case Ambiguous => outcome == RetryServerError
              case Found(i) =>
                var r := old(db.reservations)[i];
                if r.roomType.None? then outcome == RetryServerError
                else if AvailableRooms(db.roomTypes, db.rooms, old(db.reservations), RecheckQuery(r)) == [] then
                  outcome == RetryUnavailable
                else
                  outcome == HoldRenewed && db.reservations == old(db.reservations)[i := AsRenewedHold(r, now)]
  {
    if user.profile.None? {
      return RetryServerError;
    }
    var found := OwnReservation(db.reservations, user, publicId);
    if found.Missing? {
      return RetryNotFound;
    } else if found.Ambiguous? {
      return RetryServerError;
    }
    var r := db.reservations[found.index];
    if r.roomType.None? {
      return RetryServerError;
    }
    var available := GetAvailableRooms(db.roomTypes, db.rooms, db.reservations, RecheckQuery(r));
    if available == [] {
      return RetryUnavailable;
    }
    db.reservations := db.reservations[found.index := AsRenewedHold(r, now)];
    outcome := HoldRenewed;
  }

  /** A renewed hold over a stay of at least a night takes up a unit of its room
      type, and it is not expired at any time up to 24 hours later. */
  lemma RenewedHoldHoldsItsUnit(r: Reservation, now: int, later: int)
    requires r.roomType.Some? && r.startDate < r.endDate
    requires now <= later <= now + HOLD_SECONDS
    ensures Blocks(AsRenewedHold(r, now), r.roomType.value, r.startDate, r.endDate)
    ensures !ExpiredHold(AsRenewedHold(r, now), later)
    ensures ExpiredHold(AsRenewedHold(r, now), now + HOLD_SECONDS + 1)
  {
  }

  // ---------------------------------------------------------------------
  // Modifying a reservation
  // ---------------------------------------------------------------------

  /** The posted modification; a guest count or room type that was not posted is None. */
  datatype ModifyForm = ModifyForm(
    checkIn: Option<int>,
    checkOut: Option<int>,
    guests: Option<int>,
    roomTypeId: Option<nat>,
    additionalEmails: string)

  /** The checks `reservation_modify` makes before it rechecks availability. */
  datatype ModifyCheck =
    | ModifyServerError
    | ModifyNotFound
    | NotPermitted
    | ModifyDateError(message: string)
    | ModifyOpen(index: nat, checkIn: int, checkOut: int, guests: int, roomTypeId: nat, typePosted: bool)

  /** Staff may modify any reservation; anyone else only one whose customer is
      their own profile (a user without one, only a reservation without customer). */
  predicate MayModify(user: RequestUser, r: Reservation) {
    user.account.isStaff || CustomerIdOf(user) == r.customer
  }

  function CheckModify(rows: seq<Reservation>, user: RequestUser, publicId: string, form: ModifyForm, today: int): (c: ModifyCheck)
    ensures AnyReservation(rows, publicId).Missing? ==> c == ModifyNotFound
    ensures AnyReservation(rows, publicId).Ambiguous? ==> c == ModifyServerError
    ensures AnyReservation(rows, publicId).Found? ==>
              var i := AnyReservation(rows, publicId).index;
              && (!MayModify(user, rows[i]) ==> c == NotPermitted)
              && ((MayModify(user, rows[i]) && ParseDates(form.checkIn, form.checkOut, today).DateError?) ==>
                    c == ModifyDateError(ParseDates(form.checkIn, form.checkOut, today).message))
              && ((MayModify(user, rows[i]) && ParseDates(form.checkIn, form.checkOut, today).ValidDates?
                   && rows[i].roomType.None?) ==> c == ModifyServerError)
    ensures c.ModifyOpen? ==>
              && c.index < |rows|
              && rows[c.index].publicId == Some(publicId)
              && MayModify(user, rows[c.index])
              && ParseDates(form.checkIn, form.checkOut, today) == ValidDates(c.checkIn, c.checkOut)
              && today <= c.checkIn < c.checkOut
              && rows[c.index].roomType.Some?
              && c.guests == (if form.guests.Some? then form.guests.value else rows[c.index].guests)
              && c.roomTypeId == (if form.roomTypeId.Some? then form.roomTypeId.value else rows[c.index].roomType.value)
              && c.typePosted == form.roomTypeId.Some?
  {
    var found := AnyReservation(rows, publicId);
    if found.Missing? then ModifyNotFound
    else if found.Ambiguous? then ModifyServerError
    else
      var r := rows[found.index];
      if !MayModify(user, r) then NotPermitted
      else
        var dates := ParseDates(form.checkIn, form.checkOut, today);
        if dates.DateError? then ModifyDateError(dates.message)
        else if r.roomType.None? then ModifyServerError
        else
          ModifyOpen(found.index, dates.checkIn, dates.checkOut,
                     if form.guests.Some? then form.guests.value else r.guests,
                     if form.roomTypeId.Some? then form.roomTypeId.value else r.roomType.value,
                     form.roomTypeId.Some?)
  }

  /** The availability query of a modification: the new stay, guest count and
      room type. A posted room type is a string, and any digits select; the
      reservation's own room type is passed as an integer, and 0 selects none. */
  function ModifyQuery(c: ModifyCheck): (q: RoomQuery)
    requires c.ModifyOpen?
    ensures q.checkIn == c.checkIn && q.checkOut == c.checkOut
    ensures q.selectedRoomTypeId.None? <==> !c.typePosted && c.roomTypeId == 0
    ensures q.selectedRoomTypeId.Some? ==> q.selectedRoomTypeId == Some(c.roomTypeId)
    ensures q.numGuests.None? <==> c.guests == 0
  {
    RoomQuery(c.checkIn, c.checkOut, if c.guests == 0 then None else Some(c.guests),
              if c.typePosted then Some(c.roomTypeId) else IdSelection(c.roomTypeId))
  }

  /** The row after the update: the new stay, guest count and room type; the
      status and the total cost stay as they were. */
  function AsModified(r: Reservation, c: ModifyCheck): Reservation
    requires c.ModifyOpen? && c.guests >= 0
  {
    r.(startDate := c.checkIn, endDate := c.checkOut, guests := c.guests, roomType := Some(c.roomTypeId))
  }

  /** The addresses of the additional-recipients field: `;` read as `,`, split on `,`. */
  function AdditionalPieces(raw: string): (pieces: seq<string>)
    ensures |pieces| >= 1
    ensures forall p :: p in pieces ==> ';' !in p && ',' !in p
  {
    Split(ReplaceChar(Strip(raw), ';', ','), ',')
  }

  /** Validating one stripped address on its own accepts or rejects just it. */
  lemma OneAddress(addr: string, isValid: string -> bool)
    requires Strip(addr) == addr
    ensures ValidOf(Stripped([addr]), isValid) == (if addr != [] && isValid(addr) then {addr} else {})
    ensures InvalidOf(Stripped([addr]), isValid) == (if addr != [] && !isValid(addr) then [addr] else [])
  {
    assert Stripped([addr]) == [addr];
    assert [addr][..0] == [];
  }

  /** The loop over the additional addresses: each piece is stripped, skipped
      when blank and otherwise validated on its own. */
  method ValidatePieces(pieces: seq<string>, isValid: string -> bool) returns (valid: set<string>, invalid: seq<string>)
    ensures valid == ValidOf(Stripped(pieces), isValid)
    ensures invalid == InvalidOf(Stripped(pieces), isValid)
  {
    ghost var addrs := Stripped(pieces);
    valid, invalid := {}, [];
    for k := 0 to |pieces|
      invariant valid == ValidOf(addrs[..k], isValid)
      invariant invalid == InvalidOf(addrs[..k], isValid)
    {
      var addr := Strip(pieces[k]);
      ValidInvalidStep(addrs, k, isValid);
      if addr == [] {
        continue;
      }
      StripIdempotent(pieces[k]);
      OneAddress(addr, isValid);
      var validSet, invalidList := ValidateEmails([addr], isValid);
      valid := valid + validSet;
      invalid := invalid + invalidList;
    }
    assert addrs[..|pieces|] == addrs;
  }

  /** The email logic of `reservation_modify`: the guest's and the user's
      addresses are the primary recipients; each piece of the additional field
      is validated on its own and those that are valid and not primary become
      additional recipients; the invalid ones of both are reported, primary
      first. Stripping and dropping blank primary addresses before validating
      changes nothing, as the validator does both. */
  method PartitionRecipients(guestEmail: string, userEmail: string, additionalRaw: string, isValid: string -> bool)
    returns (primary: set<string>, additional: set<string>, invalid: seq<string>)
    ensures primary == ValidOf(Stripped([guestEmail, userEmail]), isValid)
    ensures additional == ValidOf(Stripped(AdditionalPieces(additionalRaw)), isValid) - primary
    ensures invalid == InvalidOf(Stripped([guestEmail, userEmail]), isValid)
                       + InvalidOf(Stripped(AdditionalPieces(additionalRaw)), isValid)
  {
    var primaryInvalid;
    primary, primaryInvalid := ValidateEmails([guestEmail, userEmail], isValid);
    var pieces := AdditionalPieces(additionalRaw);
    var extraValid, extraInvalid := ValidatePieces(pieces, isValid);
    additional := extraValid - primary;
    invalid := primaryInvalid + extraInvalid;
  }

  /** The primary and additional recipients are disjoint. Every primary
      recipient is an accepted address of the guest or the user; every additional one is an accepted address with no separator in it; every
      reported address is non-empty and rejected. */
  lemma RecipientsAreAddresses(guestEmail: string, userEmail: string, additionalRaw: string, isValid: string -> bool)
    ensures var addrs := Stripped([guestEmail, userEmail]);
      var extra := Stripped(AdditionalPieces(additionalRaw));
      && ValidOf(addrs, isValid) !! ValidOf(extra, isValid) - ValidOf(addrs, isValid)
      && (forall a :: a in ValidOf(addrs, isValid) ==> a != [] && isValid(a) && a in addrs)
      && (forall a :: a in ValidOf(extra, isValid) - ValidOf(addrs, isValid) ==>
            a != [] && isValid(a) && ';' !in a && ',' !in a)
      && (forall a :: a in InvalidOf(addrs, isValid) + InvalidOf(extra, isValid) ==> a != [] && !isValid(a))
  {
    var addrs := Stripped([guestEmail, userEmail]);
    var pieces := AdditionalPieces(additionalRaw);
    ValidOfMeaning(addrs, isValid);
    InvalidOfMeaning(addrs, isValid);
    AdditionalRecipientsAreClean(pieces, isValid);
    InvalidOfMeaning(Stripped(pieces), isValid);
  }

  /** A valid additional address is a non-empty accepted piece, with no separator in it. */
  lemma AdditionalRecipientsAreClean(pieces: seq<string>, isValid: string -> bool)
    requires forall p :: p in pieces ==> ';' !in p && ',' !in p
    ensures forall a :: a in ValidOf(Stripped(pieces), isValid) ==> a != [] && isValid(a) && ';' !in a && ',' !in a
  {
    ValidOfMeaning(Stripped(pieces), isValid);
    forall a | a in ValidOf(Stripped(pieces), isValid) ensures ';' !in a && ',' !in a {
      var k :| 0 <= k < |pieces| && Stripped(pieces)[k] == a;
      StripKeepsCharacters(pieces[k]);
      assert pieces[k] in pieces;
    }
  }

  datatype ModifyOutcome =
    | ModifyRefused(check: ModifyCheck)
    | NoRoomsAvailable
    | ModifyRoomTypeNotFound
    | ModifySaveFailed
    | Modified(primary: set<string>, additional: set<string>, invalid: seq<string>)

  /** What the POST branch of `reservation_modify` does to the table: stop with
      an outcome, or replace row `index` by `row`. */
  datatype ModifyStep = ModifyStop(outcome: ModifyOutcome) | ModifyApply(index: nat, row: Reservation)

  /** The decision of `reservation_modify`. As written (`excludeSelf` false) the
      recheck counts every active reservation, the one being modified among
      them; with `excludeSelf` it counts the other reservations only. */
  function PlanModify(roomTypes: seq<RoomType>, rooms: seq<Room>, rows: seq<Reservation>, user: RequestUser,
                      publicId: string, form: ModifyForm, today: int, excludeSelf: bool): (step: ModifyStep)
    ensures step.ModifyApply? ==> step.index < |rows|
    ensures step == ModifyStop(ModifyRoomTypeNotFound) ==>
              var c := CheckModify(rows, user, publicId, form, today);
              c.ModifyOpen? && form.roomTypeId.None? && c.roomTypeId == 0
  {
    var c := CheckModify(rows, user, publicId, form, today);
    if !c.ModifyOpen? then ModifyStop(ModifyRefused(c))
    else
      var counted := Counted(rows, c.index, excludeSelf);
      ModifyFindsTheRoomType(roomTypes, rooms, counted, c);
      if AvailableRooms(roomTypes, rooms, counted, ModifyQuery(c)) == [] then ModifyStop(NoRoomsAvailable)
      else if FindRoomType(roomTypes, c.roomTypeId).None? then ModifyStop(ModifyRoomTypeNotFound)
      else if c.guests < 0 then ModifyStop(ModifySaveFailed)
      else ModifyApply(c.index, AsModified(rows[c.index], c))
  }

  /** What the decision means: a failed check is reported as is; otherwise the
      change is refused when the recheck finds nothing or the guest count is
      negative, and applied exactly when neither holds. The new row differs from
      the old one only in the stay, the guest count and the room type: in
      particular the status, the total cost and a hold's expiration time stay
      as they were. */
  lemma PlanModifyMeaning(roomTypes: seq<RoomType>, rooms: seq<Room>, rows: seq<Reservation>, user: RequestUser,
                          publicId: string, form: ModifyForm, today: int, excludeSelf: bool)
    ensures var step := PlanModify(roomTypes, rooms, rows, user, publicId, form, today, excludeSelf);
      var c := CheckModify(rows, user, publicId, form, today);
      && (!c.ModifyOpen? ==> step == ModifyStop(ModifyRefused(c)))
      && (c.ModifyOpen? ==>
            var available := AvailableRooms(roomTypes, rooms, Counted(rows, c.index, excludeSelf), ModifyQuery(c));
            && (available == [] ==> step == ModifyStop(NoRoomsAvailable))
            && (step == ModifyStop(ModifyRoomTypeNotFound) <==>
                  available != [] && FindRoomType(roomTypes, c.roomTypeId).None?)
            && (available != [] && FindRoomType(roomTypes, c.roomTypeId).Some? && c.guests < 0 ==>
                  step == ModifyStop(ModifySaveFailed))
            && (step.ModifyApply? <==> available != [] && FindRoomType(roomTypes, c.roomTypeId).Some? && c.guests >= 0)
            && (step.ModifyApply? ==>
                  && step.index == c.index && step.index < |rows|
                  && step.row == rows[c.index].(startDate := c.checkIn, endDate := c.checkOut,
                                                guests := c.guests, roomType := Some(c.roomTypeId))
                  && step.row.status == rows[c.index].status && step.row.totalCost == rows[c.index].totalCost
                  && step.row.expirationTime == rows[c.index].expirationTime))
  {
  }

  /** The checks, the recheck and the room-type lookup of `reservation_modify`,
      over the tables as they are. */
  method DecideModify(roomTypes: seq<RoomType>, rooms: seq<Room>, rows: seq<Reservation>, user: RequestUser,
                      publicId: string, form: ModifyForm, today: int, excludeSelf: bool) returns (step: ModifyStep)
    ensures step == PlanModify(roomTypes, rooms, rows, user, publicId, form, today, excludeSelf)
  {
    var c := CheckModify(rows, user, publicId, form, today);
    if !c.ModifyOpen? {
      return ModifyStop(ModifyRefused(c));
    }
    var available := GetAvailableRooms(roomTypes, rooms, Counted(rows, c.index, excludeSelf), ModifyQuery(c));
    if available == [] {
      return ModifyStop(NoRoomsAvailable);
    }
    var roomType := FindRoomType(roomTypes, c.roomTypeId);
    if roomType.None? {
      return ModifyStop(ModifyRoomTypeNotFound);
    }
    if c.guests < 0 {
      return ModifyStop(ModifySaveFailed);
    }
    return ModifyApply(c.index, AsModified(rows[c.index], c));
  }

  /** `reservation_modify` (the POST branch): applies the decision and, after a
      change, works out who is told about it. */
  method ModifyReservation(db: Database, user: RequestUser, publicId: string, form: ModifyForm, today: int,
                           isValid: string -> bool, excludeSelf: bool)
    returns (outcome: ModifyOutcome)
    modifies db
    ensures db.customers == old(db.customers) && db.roomTypes == old(db.roomTypes) && db.rooms == old(db.rooms)
    ensures var step := PlanModify(db.roomTypes, db.rooms, old(db.reservations), user, publicId, form, today, excludeSelf);
      && (step.ModifyStop? ==> outcome == step.outcome && db.reservations == old(db.reservations))
      && (step.ModifyApply? ==>
            var addrs := Stripped([step.row.guestEmail, user.account.email]);
            var extra := Stripped(AdditionalPieces(form.additionalEmails));
            && step.index < |old(db.reservations)|
            && db.reservations == old(db.reservations)[step.index := step.row]
            && outcome == Modified(ValidOf(addrs, isValid), ValidOf(extra, isValid) - ValidOf(addrs, isValid),
                                   InvalidOf(addrs, isValid) + InvalidOf(extra, isValid)))
  {
    var step := DecideModify(db.roomTypes, db.rooms, db.reservations, user, publicId, form, today, excludeSelf);
    if step.ModifyStop? {
      return step.outcome;
    }
    var primary, additional, invalid :=
      PartitionRecipients(step.row.guestEmail, user.account.email, form.additionalEmails, isValid);
    db.reservations := db.reservations[step.index := step.row];
    outcome := Modified(primary, additional, invalid);
  }

  /** When the recheck selects the chosen room type, the lookup of that type
      after a successful recheck succeeds: the recheck only finds a room type
      that is in the table. */
  lemma ModifyFindsTheRoomType(roomTypes: seq<RoomType>, rooms: seq<Room>, counted: seq<Reservation>, c: ModifyCheck)
    requires c.ModifyOpen?
    ensures (c.typePosted || c.roomTypeId != 0) && AvailableRooms(roomTypes, rooms, counted, ModifyQuery(c)) != []
            ==> FindRoomType(roomTypes, c.roomTypeId).Some?
  {
    if c.typePosted || c.roomTypeId != 0 {
      SelectedTypeAvailable(roomTypes, rooms, counted, ModifyQuery(c));
    }
  }

  /** As written, an active reservation whose stay already meets the new one on
      the same room type counts against itself: the change goes through only
      when the room type has a second free unit. */
  lemma ModifyCountsItself(roomTypes: seq<RoomType>, rooms: seq<Room>, rows: seq<Reservation>, c: ModifyCheck)
    requires c.ModifyOpen? && c.index < |rows| && (c.typePosted || c.roomTypeId != 0)
    requires Blocks(rows[c.index], c.roomTypeId, c.checkIn, c.checkOut)
    ensures AvailableRooms(roomTypes, rooms, rows, ModifyQuery(c)) != []
            <==> && (exists t :: t in roomTypes && t.id == c.roomTypeId && Wanted(t, ModifyQuery(c)))
                 && Capacity(rooms, c.roomTypeId, c.checkIn)
                    > OverlapCount(Without(rows, c.index), c.roomTypeId, c.checkIn, c.checkOut) + 1
  {
    SelectedTypeAvailable(roomTypes, rooms, rows, ModifyQuery(c));
    OverlapCountWithout(rows, c.index, c.roomTypeId, c.checkIn, c.checkOut);
  }

  /** With the reservation left out of the count, a change to an active
      reservation goes through exactly when, after it, the chosen room type is
      still within its capacity over the new stay. */
  lemma ModifyExcludingSelfKeepsCapacity(roomTypes: seq<RoomType>, rooms: seq<Room>, rows: seq<Reservation>, c: ModifyCheck)
    requires c.ModifyOpen? && c.index < |rows| && c.guests >= 0 && c.checkIn < c.checkOut
    requires c.typePosted || c.roomTypeId != 0
    requires IsActive(rows[c.index])
    ensures AvailableRooms(roomTypes, rooms, Without(rows, c.index), ModifyQuery(c)) != []
            <==> && (exists t :: t in roomTypes && t.id == c.roomTypeId && Wanted(t, ModifyQuery(c)))
                 && OverlapCount(rows[c.index := AsModified(rows[c.index], c)], c.roomTypeId, c.checkIn, c.checkOut)
                    <= Capacity(rooms, c.roomTypeId, c.checkIn)
  {
    SelectedTypeAvailable(roomTypes, rooms, Without(rows, c.index), ModifyQuery(c));
    OverlapCountUpdate(rows, c.index, AsModified(rows[c.index], c), c.roomTypeId, c.checkIn, c.checkOut);
  }

  /** A confirmed one-guest booking of the only Queen room, changed to the same
      stay, same guest count and same room type. */
  const SampleBooking := SampleHold.(status := Confirmed, expirationTime := None, guests := 1)

  /** Resubmitting the booking unchanged is refused as written, for want of a
      room that only it takes up; leaving it out of the count lets it through. */
  lemma UnchangedBookingIsRefused()
    ensures var c := ModifyOpen(0, 10, 12, 1, 1, false);
      && CheckModify([SampleBooking], RequestUser(SampleCustomer.user, Some(SampleCustomer)), "MBL-0A1B2C3D",
                     ModifyForm(Some(10), Some(12), None, None, ""), 5) == c
      && AvailableRooms([SampleQueen], [SampleRoom], [SampleBooking], ModifyQuery(c)) == []
      && AvailableRooms([SampleQueen], [SampleRoom], Without([SampleBooking], 0), ModifyQuery(c)) != []
  {
    var c := ModifyOpen(0, 10, 12, 1, 1, false);
    assert AnyReservation([SampleBooking], "MBL-0A1B2C3D") == Found(0);
    assert Capacity([SampleRoom], 1, 10) == 1 by {
      assert [SampleRoom][..0] == [];
    }
    assert Without([SampleBooking], 0) == [];
    assert SampleQueen in [SampleQueen];
    ModifyCountsItself([SampleQueen], [SampleRoom], [SampleBooking], c);
    SelectedTypeAvailable([SampleQueen], [SampleRoom], [], ModifyQuery(c));
  }
}
