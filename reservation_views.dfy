// The booking views of web/views/reservation_views.py: the availability page
// with its lazy expiry of holds and its warning about the customer's own
// overlapping stays, the creation of a reservation, the lookup of
// reservations by email, name or reservation number, and the night count of
// the secondary confirmation email.

module ReservationViews {
  import opened Models
  import opened Text
  import opened QuerySets
  import opened Helpers

  /** A hold lasts 24 hours from the moment it is placed. */
  const HOLD_SECONDS: int := 24 * 60 * 60

  /** The logged-in user of a request: the account and, when there is one, its customer profile. */
  datatype RequestUser = RequestUser(account: Account, profile: Option<Customer>)

  /** The value a `customer=...` filter compares with: the profile's key, or null without a profile. */
  function CustomerIdOf(user: RequestUser): (id: Option<nat>)
    ensures id.Some? <==> user.profile.Some?
    ensures id.Some? ==> id.value == user.profile.value.id
  {
    if user.profile.Some? then Some(user.profile.value.id) else None
  }

  /** Python's `a or b` on strings: `b` when `a` is empty. */
  function OrElse(a: string, b: string): (r: string)
    ensures a != [] ==> r == a
    ensures a == [] ==> r == b
  {
    if a != [] then a else b
  }

  // ---------------------------------------------------------------------
  // Lazy expiry of holds
  // ---------------------------------------------------------------------

  /** A hold whose expiration time is set and already past. */
  predicate ExpiredHold(r: Reservation, now: int) {
    r.status == Hold && r.expirationTime.Some? && r.expirationTime.value < now
  }

  /** The bulk update run before each search: every expired hold becomes Cancelled,
      keeping its expiration time; every other row is left as it is. */
  function Swept(rows: seq<Reservation>, now: int): (out: seq<Reservation>)
    ensures |out| == |rows|
    ensures forall i :: 0 <= i < |rows| && ExpiredHold(rows[i], now) ==> out[i] == rows[i].(status := Cancelled)
    ensures forall i :: 0 <= i < |rows| && !ExpiredHold(rows[i], now) ==> out[i] == rows[i]
  {
    seq(|rows|, i requires 0 <= i < |rows| => if ExpiredHold(rows[i], now) then rows[i].(status := Cancelled) else rows[i])
  }

  /** After the sweep no expired hold is left, and the sweep changes nothing when run again. */
  lemma SweptHasNoExpiredHold(rows: seq<Reservation>, now: int)
    ensures forall i :: 0 <= i < |rows| ==> !ExpiredHold(Swept(rows, now)[i], now)
    ensures Swept(Swept(rows, now), now) == Swept(rows, now)
  {
  }

  /** The sweep only ever cancels: a row it changes was a Hold and is now Cancelled,
      and Confirmed and Cancelled rows keep their status. */
  lemma SweptOnlyCancels(rows: seq<Reservation>, now: int)
    ensures forall i :: 0 <= i < |rows| && Swept(rows, now)[i] != rows[i] ==>
              rows[i].status == Hold && Swept(rows, now)[i].status == Cancelled
    ensures forall i :: 0 <= i < |rows| && rows[i].status != Hold ==> Swept(rows, now)[i] == rows[i]
  {
  }

  /** The expired holds that take up a unit of `roomTypeId` in `[checkIn, checkOut)`. */
  function ExpiredBlockingCount(rows: seq<Reservation>, now: int, roomTypeId: nat, checkIn: int, checkOut: int): (n: nat)
    ensures n <= OverlapCount(rows, roomTypeId, checkIn, checkOut)
  {
    if rows == [] then 0
    else
      var last := rows[|rows| - 1];
      ExpiredBlockingCount(rows[..|rows| - 1], now, roomTypeId, checkIn, checkOut)
      + (if ExpiredHold(last, now) && Blocks(last, roomTypeId, checkIn, checkOut) then 1 else 0)
  }

  /** Until the sweep runs an expired hold still takes up its unit; the sweep frees
      exactly the units held by expired holds. */
  lemma {:induction false} SweepReleasesExpiredHolds(rows: seq<Reservation>, now: int, roomTypeId: nat, checkIn: int, checkOut: int)
    ensures OverlapCount(Swept(rows, now), roomTypeId, checkIn, checkOut)
            == OverlapCount(rows, roomTypeId, checkIn, checkOut) - ExpiredBlockingCount(rows, now, roomTypeId, checkIn, checkOut)
  {
    if rows != [] {
      var init := rows[..|rows| - 1];
      assert Swept(rows, now)[..|rows| - 1] == Swept(init, now);
      SweepReleasesExpiredHolds(init, now, roomTypeId, checkIn, checkOut);
    }
  }

  /** The `update(status='Cancelled')` at the top of a search. */
  method SweepExpiredHolds(db: Database, now: int)
    modifies db
    ensures db.reservations == Swept(old(db.reservations), now)
    ensures db.customers == old(db.customers) && db.roomTypes == old(db.roomTypes) && db.rooms == old(db.rooms)
  {
    db.reservations := Swept(db.reservations, now);
  }

  // ---------------------------------------------------------------------
  // The availability page
  // ---------------------------------------------------------------------

  /** A reservation of the customer that the page warns about: Confirmed, or a
      hold that has not yet expired (a hold without expiration time does not
      count), whose stay meets `[checkIn, checkOut)`. A user without a profile
      is compared as null, so rows without a customer match. */
  predicate WarnsAbout(r: Reservation, customer: Option<nat>, checkIn: int, checkOut: int, now: int) {
    && r.customer == customer
    && (r.status == Confirmed || (r.status == Hold && r.expirationTime.Some? && r.expirationTime.value > now))
    && r.startDate < checkOut && r.endDate > checkIn
  }

  function CustomerOverlaps(rows: seq<Reservation>, customer: Option<nat>, checkIn: int, checkOut: int, now: int): seq<Reservation> {
    Filter(rows, r => WarnsAbout(r, customer, checkIn, checkOut, now))
  }

  /** A room type on offer with the price of the whole stay. */
  datatype PricedOffer = PricedOffer(offer: Offer, nights: int, totalCost: int)

  /** Each offer, in order, with the night count of a stay of at least one night and its price. */
  predicate PricesStay(priced: seq<PricedOffer>, offers: seq<Offer>, checkIn: int, checkOut: int) {
    && |priced| == |offers|
    && forall i :: 0 <= i < |offers| ==>
         && priced[i].offer == offers[i]
         && priced[i].nights == checkOut - checkIn
         && priced[i].totalCost == (checkOut - checkIn) * offers[i].pricePerNight
  }

  /** The loop that annotates each offer with `calculate_total_cost` for the stay. */
  method PriceOffers(offers: seq<Offer>, checkIn: int, checkOut: int) returns (priced: seq<PricedOffer>)
    ensures checkIn < checkOut ==> PricesStay(priced, offers, checkIn, checkOut)
    ensures |priced| == |offers|
    ensures forall i :: 0 <= i < |offers| ==>
              && priced[i].offer == offers[i]
              && priced[i].nights >= 1
              && priced[i].totalCost == priced[i].nights * offers[i].pricePerNight
              && (checkIn < checkOut ==> priced[i].nights == checkOut - checkIn)
  {
    priced := [];
    for i := 0 to |offers|
      invariant |priced| == i
      invariant forall k :: 0 <= k < i ==>
                  && priced[k].offer == offers[k]
                  && priced[k].nights >= 1
                  && priced[k].totalCost == priced[k].nights * offers[k].pricePerNight
                  && (checkIn < checkOut ==> priced[k].nights == checkOut - checkIn)
    {
      var cost := CalculateTotalCost(checkIn, checkOut, offers[i].pricePerNight);
      priced := priced + [PricedOffer(offers[i], cost.nights, cost.totalCost)];
    }
  }

  /** One of the date fields of the search form: left blank, or entered and then parsed. */
  datatype DateInput = Blank | Entered(parsed: Option<int>)

  /** The query string of a submitted search; the guest count and the room type
      are None when left blank. */
  datatype RoomSearch = RoomSearch(checkIn: DateInput, checkOut: DateInput, roomTypeId: Option<nat>, guests: Option<int>)

  /** What the page shows. */
  datatype SearchPage =
    | SearchForm
    | SearchRejected(message: string, noResults: bool)
    | SearchResults(overlapping: seq<Reservation>, overlapWarning: bool, offers: seq<PricedOffer>, noResults: bool)

  const MISSING_DATES_ERROR := "Please select both check-in and check-out dates."

  function QueryOf(search: RoomSearch, checkIn: int, checkOut: int): RoomQuery {
    RoomQuery(checkIn, checkOut, search.guests, search.roomTypeId)
  }

  /** `reservation`: without a search only the form is shown and nothing is
      written; with one, expired holds are swept first, then the dates are
      checked, the customer's overlapping stays are listed and the available
      room types are priced for the stay. */
  method ReservationPage(db: Database, user: RequestUser, search: Option<RoomSearch>, now: int, today: int)
    returns (page: SearchPage)
    modifies db
    ensures db.customers == old(db.customers) && db.roomTypes == old(db.roomTypes) && db.rooms == old(db.rooms)
    ensures search.None? ==> page == SearchForm && db.reservations == old(db.reservations)
    ensures search.Some? ==> db.reservations == Swept(old(db.reservations), now)
    ensures search.Some? && (search.value.checkIn.Blank? || search.value.checkOut.Blank?) ==>
              page == SearchRejected(MISSING_DATES_ERROR, false)
    ensures search.Some? && search.value.checkIn.Entered? && search.value.checkOut.Entered? ==>
              match ParseDates(search.value.checkIn.parsed, search.value.checkOut.parsed, today)
              case DateError(message) => page == SearchRejected(message, true)
              case ValidDates(checkIn, checkOut) =>
                && page.SearchResults?
                && page.overlapping == CustomerOverlaps(db.reservations, CustomerIdOf(user), checkIn, checkOut, now)
                && page.overlapWarning == (page.overlapping != [])
                && var offers := AvailableRooms(db.roomTypes, db.rooms, db.reservations, QueryOf(search.value, checkIn, checkOut));
                   && PricesStay(page.offers, offers, checkIn, checkOut)
                   && page.noResults == (offers == [])
  {
    if search.None? {
      return SearchForm;
    }
    var s := search.value;
    SweepExpiredHolds(db, now);
    if s.checkIn.Blank? || s.checkOut.Blank? {
      return SearchRejected(MISSING_DATES_ERROR, false);
    }
    var dates := ParseDates(s.checkIn.parsed, s.checkOut.parsed, today);
    if dates.DateError? {
      return SearchRejected(dates.message, true);
    }
    var overlapping := CustomerOverlaps(db.reservations, CustomerIdOf(user), dates.checkIn, dates.checkOut, now);
    var offers := GetAvailableRooms(db.roomTypes, db.rooms, db.reservations, QueryOf(s, dates.checkIn, dates.checkOut));
    var priced := PriceOffers(offers, dates.checkIn, dates.checkOut);
    page := SearchResults(overlapping, overlapping != [], priced, offers == []);
  }

  // ---------------------------------------------------------------------
  // Creating a reservation
  // ---------------------------------------------------------------------

  /** The posted booking form. Text fields left out or blank are empty; a
      status that was not posted is None. */
  datatype BookingForm = BookingForm(
    customerId: Option<nat>,
    firstName: string,
    lastName: string,
    email: string,
    phone: string,
    checkIn: Option<int>,
    checkOut: Option<int>,
    guests: int,
    roomTypeId: nat,
    status: Option<ReservationStatus>)

  function StatusOf(form: BookingForm): ReservationStatus {
    if form.status.Some? then form.status.value else DEFAULT_RESERVATION_STATUS
  }

  /** Whose details fill the blanks of the form. */
  datatype CustomerChoice = NoCustomerSelected | CustomerNotFound | NoCustomerProfile | Chosen(customer: Customer)

  /** Staff pick a customer by key; everyone else books as their own profile. */
  function ChooseCustomer(customers: seq<Customer>, user: RequestUser, form: BookingForm): (c: CustomerChoice)
    ensures c == NoCustomerSelected <==> user.account.isStaff && form.customerId.None?
    ensures c == CustomerNotFound <==>
              user.account.isStaff && form.customerId.Some? && forall k :: k in customers ==> k.id != form.customerId.value
    ensures c == NoCustomerProfile <==> !user.account.isStaff && user.profile.None?
    ensures c.Chosen? && user.account.isStaff ==> c.customer in customers && Some(c.customer.id) == form.customerId
    ensures c.Chosen? && !user.account.isStaff ==> user.profile == Some(c.customer)
  {
    if user.account.isStaff then
      if form.customerId.None? then NoCustomerSelected
      else
        var found := FirstWhere(customers, (k: Customer) => k.id == form.customerId.value);
        if found.None? then CustomerNotFound else Chosen(found.value)
    else if user.profile.None? then NoCustomerProfile
    else Chosen(user.profile.value)
  }

  /** `RoomType.objects.get(id=...)`. */
  function FindRoomType(roomTypes: seq<RoomType>, id: nat): (t: Option<RoomType>)
    ensures t.None? <==> forall x :: x in roomTypes ==> x.id != id
    ensures t.Some? ==> t.value in roomTypes && t.value.id == id
  {
    FirstWhere(roomTypes, (x: RoomType) => x.id == id)
  }

  predicate PublicIdInUse(rows: seq<Reservation>, publicId: string) {
    exists k :: 0 <= k < |rows| && rows[k].publicId == Some(publicId)
  }

  const SELECT_CUSTOMER_ERROR := "Please select a customer."
  const NO_PROFILE_ERROR := "No customer profile associated with your account."

  datatype BookingOutcome =
    | BookingRefused(message: string)   // redirected back to the form with the message
    | BookingNotFound                   // 404
    | BookingServerError                // the insert violates a constraint
    | Booked(reservation: Reservation, nights: int, totalCost: int, recipients: set<string>, invalidEmails: seq<string>)

  /** The decision `save_reservation` takes before it writes: a refusal, or the
      row to insert with the stay's night count (and no recipients yet). The
      new row belongs to the requesting user's own profile (null for a staff
      account without one), whichever customer staff selected; the selected
      customer only fills the blank fields. No availability check is made. The
      database refuses the row when the phone resolves to null, the guest count
      is negative or the public id is taken. */
  function PlanBooking(customers: seq<Customer>, roomTypes: seq<RoomType>, rows: seq<Reservation>, user: RequestUser,
                       form: BookingForm, now: int, today: int, publicId: string): (outcome: BookingOutcome)
    ensures outcome.Booked? ==> outcome.reservation.publicId == Some(publicId) && !PublicIdInUse(rows, publicId)
  {
    var choice := ChooseCustomer(customers, user, form);
    if choice == NoCustomerSelected then BookingRefused(SELECT_CUSTOMER_ERROR)
    else if choice == CustomerNotFound then BookingNotFound
    else if choice == NoCustomerProfile then BookingRefused(NO_PROFILE_ERROR)
    else
      var customer := choice.customer;
      var phone: Option<string> := if form.phone != [] then Some(form.phone) else customer.phoneNumber;
      var status := StatusOf(form);
      var dates := ParseDates(form.checkIn, form.checkOut, today);
      if dates.DateError? then BookingRefused(dates.message)
      else
        var roomType := FindRoomType(roomTypes, form.roomTypeId);
        if roomType.None? then BookingNotFound
        else
          var cost := CalculateTotalCost(dates.checkIn, dates.checkOut, roomType.value.pricePerNight);
          if phone.None? || form.guests < 0 || PublicIdInUse(rows, publicId) then BookingServerError
          else
            var r := Reservation(
              Some(publicId), CustomerIdOf(user),
              OrElse(form.firstName, customer.user.firstName), OrElse(form.lastName, customer.user.lastName),
              phone.value, OrElse(form.email, customer.user.email), now,
              if status == Hold then Some(now + HOLD_SECONDS) else None,
              status, dates.checkIn, dates.checkOut, Some(form.roomTypeId), None, cost.totalCost, form.guests);
            Booked(r, cost.nights, cost.totalCost, {}, [])
  }

  /** What the decision means: each refusal in the order the view checks, a
      server error for a row the database refuses, and otherwise the row that
      is inserted. */
  lemma PlanBookingMeaning(customers: seq<Customer>, roomTypes: seq<RoomType>, rows: seq<Reservation>, user: RequestUser,
                           form: BookingForm, now: int, today: int, publicId: string)
    ensures var outcome := PlanBooking(customers, roomTypes, rows, user, form, now, today, publicId);
      var choice := ChooseCustomer(customers, user, form);
      && (choice == NoCustomerSelected ==> outcome == BookingRefused(SELECT_CUSTOMER_ERROR))
      && (choice == CustomerNotFound ==> outcome == BookingNotFound)
      && (choice == NoCustomerProfile ==> outcome == BookingRefused(NO_PROFILE_ERROR))
      && ((choice.Chosen? && ParseDates(form.checkIn, form.checkOut, today).DateError?) ==>
            outcome == BookingRefused(ParseDates(form.checkIn, form.checkOut, today).message))
      && ((choice.Chosen? && ParseDates(form.checkIn, form.checkOut, today).ValidDates?
           && FindRoomType(roomTypes, form.roomTypeId).None?) ==> outcome == BookingNotFound)
      && ((choice.Chosen? && ParseDates(form.checkIn, form.checkOut, today).ValidDates?
           && FindRoomType(roomTypes, form.roomTypeId).Some? && !outcome.Booked?) ==> outcome == BookingServerError)
    ensures var outcome := PlanBooking(customers, roomTypes, rows, user, form, now, today, publicId);
      outcome.Booked? <==>
              && ChooseCustomer(customers, user, form).Chosen?
              && ParseDates(form.checkIn, form.checkOut, today).ValidDates?
              && FindRoomType(roomTypes, form.roomTypeId).Some?
              && (form.phone != [] || ChooseCustomer(customers, user, form).customer.phoneNumber.Some?)
              && form.guests >= 0
              && !PublicIdInUse(rows, publicId)
    ensures var outcome := PlanBooking(customers, roomTypes, rows, user, form, now, today, publicId);
      outcome.Booked? ==>
              var r := outcome.reservation;
              var customer := ChooseCustomer(customers, user, form).customer;
              var price := FindRoomType(roomTypes, form.roomTypeId).value.pricePerNight;
              && ParseDates(form.checkIn, form.checkOut, today) == ValidDates(r.startDate, r.endDate)
              && r.publicId == Some(publicId)
              && r.customer == CustomerIdOf(user)
              && r.guestFirstName == OrElse(form.firstName, customer.user.firstName)
              && r.guestLastName == OrElse(form.lastName, customer.user.lastName)
              && r.guestEmail == OrElse(form.email, customer.user.email)
              && (form.phone != [] ==> r.guestPhone == form.phone)
              && (form.phone == [] ==> customer.phoneNumber == Some(r.guestPhone))
              && r.createdTime == now
              && r.status == StatusOf(form)
              && r.expirationTime == (if r.status == Hold then Some(now + HOLD_SECONDS) else None)
              && r.roomType == Some(form.roomTypeId)
              && r.room == None
              && r.guests == form.guests
              && outcome.nights == r.endDate - r.startDate
              && r.totalCost == outcome.totalCost == (r.endDate - r.startDate) * price
              && outcome.recipients == {} && outcome.invalidEmails == []
  {
  }

  /** `save_reservation`: inserts the planned row and, for a Confirmed booking
      only, splits the guest's and the user's addresses into recipients and
      invalid ones. */
  method SaveReservation(db: Database, user: RequestUser, form: BookingForm, now: int, today: int, publicId: string,
                         isValid: string -> bool)
    returns (outcome: BookingOutcome)
    modifies db
    ensures db.customers == old(db.customers) && db.roomTypes == old(db.roomTypes) && db.rooms == old(db.rooms)
    ensures var plan := PlanBooking(db.customers, db.roomTypes, old(db.reservations), user, form, now, today, publicId);
      && (!plan.Booked? ==> outcome == plan && db.reservations == old(db.reservations))
      && (plan.Booked? ==> db.reservations == old(db.reservations) + [plan.reservation])
      && (plan.Booked? && plan.reservation.status != Confirmed ==> outcome == plan)
      && (plan.Booked? && plan.reservation.status == Confirmed ==>
            var addrs := Stripped([plan.reservation.guestEmail, user.account.email]);
            outcome == plan.(recipients := ValidOf(addrs, isValid), invalidEmails := InvalidOf(addrs, isValid)))
  {
    outcome := PlanBooking(db.customers, db.roomTypes, db.reservations, user, form, now, today, publicId);
    if outcome.Booked? {
      db.reservations := db.reservations + [outcome.reservation];
      if outcome.reservation.status == Confirmed {
        var recipients, invalidEmails := ValidateEmails([outcome.reservation.guestEmail, user.account.email], isValid);
        outcome := outcome.(recipients := recipients, invalidEmails := invalidEmails);
      }
    }
  }

  // ---------------------------------------------------------------------
  // Looking reservations up
  // ---------------------------------------------------------------------

  /** The posted lookup: none (a GET or an unknown search type), or one of the three kinds. */
  datatype ReservationLookup = NoLookup | EmailLookup(email: string) | NameLookup(firstName: string, lastName: string) | IdLookup(reservationId: string)

  /** The page: an error message or none, and the rows found. */
  datatype LookupPage = LookupPage(error: Option<string>, results: seq<Reservation>)

  const NO_PROFILE_LOOKUP_ERROR := "No customer profile is associated with your account."
  const ENTER_EMAIL_ERROR := "Please enter your email address."
  const NO_EMAIL_MATCH_ERROR := "No reservations were found for this email address."
  const ENTER_NAME_ERROR := "Please enter a first name, last name, or both."
  const NO_NAME_MATCH_ERROR := "No reservations matched your search."
  const ENTER_ID_ERROR := "Please enter a reservation ID."
  const NO_ID_MATCH_ERROR := "No reservations matched this reservation ID."

  /** Staff see every reservation; a customer sees their own. */
  predicate VisibleTo(r: Reservation, user: RequestUser) {
    user.account.isStaff || r.customer == CustomerIdOf(user)
  }

  /** The lookup was submitted with every field blank once stripped. */
  predicate BlankLookup(q: ReservationLookup) {
    match q
    case NoLookup => false
    case EmailLookup(email) => Strip(email) == []
    case NameLookup(first, last) => Strip(first) == [] && Strip(last) == []
    case IdLookup(id) => Strip(id) == []
  }

  /** A row answers the lookup: the email matches ignoring case; each name given
      is contained in the guest's, ignoring case; the reservation number matches
      ignoring case (a row without one never does). */
  predicate Answers(r: Reservation, q: ReservationLookup) {
    match q
    case NoLookup => false
    case EmailLookup(email) => EqualsIgnoringCase(r.guestEmail, Strip(email))
    case NameLookup(first, last) =>
      && (Strip(first) != [] ==> ContainsIgnoringCase(r.guestFirstName, Strip(first)))
      && (Strip(last) != [] ==> ContainsIgnoringCase(r.guestLastName, Strip(last)))
    case IdLookup(id) => r.publicId.Some? && EqualsIgnoringCase(r.publicId.value, Strip(id))
  }

  /** `order_by("-start_date")`. */
  predicate StartsNoEarlier(a: Reservation, b: Reservation) {
    a.startDate >= b.startDate
  }

  lemma StartOrder()
    ensures TotalPreorder(StartsNoEarlier)
  {
  }

  /** The matching rows, latest stay first. */
  function LatestFirst(rows: seq<Reservation>): (r: seq<Reservation>)
    ensures forall x :: x in r <==> x in rows
    ensures multiset(r) == multiset(rows)
    ensures SortedBy(r, StartsNoEarlier)
  {
    StartOrder();
    SortBySorted(rows, StartsNoEarlier);
    SortByMembers(rows, StartsNoEarlier);
    SortBy(rows, StartsNoEarlier)
  }

  /** The message for a lookup submitted blank. */
  function BlankLookupError(q: ReservationLookup): string {
    match q
    case EmailLookup(_) => ENTER_EMAIL_ERROR
    case NameLookup(_, _) => ENTER_NAME_ERROR
    case _ => ENTER_ID_ERROR
  }

  /** The message for a lookup that found nothing. */
  function NoMatchError(q: ReservationLookup): string {
    match q
    case EmailLookup(_) => NO_EMAIL_MATCH_ERROR
    case NameLookup(_, _) => NO_NAME_MATCH_ERROR
    case _ => NO_ID_MATCH_ERROR
  }

  /** `filter(...)` with the lookup's condition: the answering rows in table order. */
  function Matching(visible: seq<Reservation>, q: ReservationLookup): seq<Reservation> {
    Filter(visible, r => Answers(r, q))
  }

  /** The rows of `visible` answering the lookup, each as often as `visible`
      holds it: latest stay first for an email or name lookup, in table order
      for a reservation number. */
  function LookupResults(visible: seq<Reservation>, q: ReservationLookup): (results: seq<Reservation>)
    ensures forall r :: r in results <==> r in visible && Answers(r, q)
    ensures forall r :: multiset(results)[r] == if Answers(r, q) then multiset(visible)[r] else 0
    ensures q.EmailLookup? || q.NameLookup? ==> SortedBy(results, StartsNoEarlier)
    ensures q.IdLookup? ==> results == Matching(visible, q)
  {
    FilterCounts(visible, r => Answers(r, q));
    var matching := Matching(visible, q);
    if q.IdLookup? then matching else LatestFirst(matching)
  }

  /** `search`. */
  function SearchReservations(rows: seq<Reservation>, user: RequestUser, q: ReservationLookup): (page: LookupPage)
    ensures !user.account.isStaff && user.profile.None? ==> page == LookupPage(Some(NO_PROFILE_LOOKUP_ERROR), [])
    ensures forall r :: r in page.results ==> r in rows && VisibleTo(r, user) && Answers(r, q)
    ensures (user.account.isStaff || user.profile.Some?) && !BlankLookup(q) ==>
              forall r :: r in rows && VisibleTo(r, user) && Answers(r, q) ==> r in page.results
    ensures (user.account.isStaff || user.profile.Some?) && !q.NoLookup? && !BlankLookup(q) ==>
              forall r :: multiset(page.results)[r] == if VisibleTo(r, user) && Answers(r, q) then multiset(rows)[r] else 0
    ensures q.EmailLookup? || q.NameLookup? ==> SortedBy(page.results, StartsNoEarlier)
    ensures (user.account.isStaff || user.profile.Some?) && q.NoLookup? ==> page == LookupPage(None, [])
    ensures (user.account.isStaff || user.profile.Some?) && BlankLookup(q) ==>
              page == LookupPage(Some(BlankLookupError(q)), [])
    ensures (user.account.isStaff || user.profile.Some?) && !q.NoLookup? && !BlankLookup(q) ==>
              page.error == (if page.results == [] then Some(NoMatchError(q)) else None)
  {
    if !user.account.isStaff && user.profile.None? then LookupPage(Some(NO_PROFILE_LOOKUP_ERROR), [])
    else if q.NoLookup? then LookupPage(None, [])
    else if BlankLookup(q) then LookupPage(Some(BlankLookupError(q)), [])
    else
      FilterCounts(rows, r => VisibleTo(r, user));
      var results := LookupResults(Filter(rows, r => VisibleTo(r, user)), q);
      LookupPage(if results == [] then Some(NoMatchError(q)) else None, results)
  }

  // ---------------------------------------------------------------------
  // The secondary confirmation email
  // ---------------------------------------------------------------------

  /** The `nights` shown after sending a secondary email: the raw day difference,
      which agrees with the booking's night count for any stay of a night or
      more and falls below it otherwise, since no one-night minimum is applied. */
  function SecondaryEmailNights(r: Reservation): (nights: int)
    ensures r.startDate < r.endDate ==> nights == CalculateTotalCost(r.startDate, r.endDate, r.totalCost).nights
    ensures r.endDate <= r.startDate ==> nights < CalculateTotalCost(r.startDate, r.endDate, r.totalCost).nights
  {
    r.endDate - r.startDate
  }
}
