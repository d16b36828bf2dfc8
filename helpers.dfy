// web/views/helpers.py: date validation, email partitioning, the room
// availability calculator and the stay price.

module Helpers {
  import opened Models
  import opened Text
  import opened QuerySets

  // ---------------------------------------------------------------------------
  // parse_dates

  const INVALID_DATES_ERROR := "Invalid dates provided."
  const PAST_CHECK_IN_ERROR := "Check-in date cannot be in the past."
  const CHECK_OUT_ORDER_ERROR := "Check-out date must be after check-in date."

  datatype DateCheck = ValidDates(checkIn: int, checkOut: int) | DateError(message: string)

  /** `parse_dates`. `checkIn` and `checkOut` are the day numbers `strptime` reads
      from the two strings, None where it raises `ValueError`; `today` is the
      local date. The checks run in this order: format, past check-in, order. */
  function ParseDates(checkIn: Option<int>, checkOut: Option<int>, today: int): (r: DateCheck)
    ensures r.ValidDates? <==> checkIn.Some? && checkOut.Some? && today <= checkIn.value < checkOut.value
    ensures r.ValidDates? ==> r.checkIn == checkIn.value && r.checkOut == checkOut.value
    ensures r.ValidDates? ==> today <= r.checkIn < r.checkOut
    ensures checkIn.None? || checkOut.None? ==> r == DateError(INVALID_DATES_ERROR)
    ensures checkIn.Some? && checkOut.Some? && checkIn.value < today ==> r == DateError(PAST_CHECK_IN_ERROR)
    ensures (checkIn.Some? && checkOut.Some? && today <= checkIn.value && checkOut.value <= checkIn.value)
              ==> r == DateError(CHECK_OUT_ORDER_ERROR)
  {
    if checkIn.None? || checkOut.None? then DateError(INVALID_DATES_ERROR)
    else if checkIn.value < today then DateError(PAST_CHECK_IN_ERROR)
    else if checkIn.value >= checkOut.value then DateError(CHECK_OUT_ORDER_ERROR)
    else ValidDates(checkIn.value, checkOut.value)
  }

  // ---------------------------------------------------------------------------
  // calculate_total_cost

  datatype StayCost = StayCost(nights: int, totalCost: int)

  /** `calculate_total_cost`: at least one night, priced per night (cents). */
  function CalculateTotalCost(checkIn: int, checkOut: int, pricePerNight: int): (r: StayCost)
    ensures r.nights >= 1 && r.nights >= checkOut - checkIn
    ensures r.nights == 1 || r.nights == checkOut - checkIn
    ensures r.totalCost == r.nights * pricePerNight
  {
    var nights := if checkOut - checkIn < 1 then 1 else checkOut - checkIn;
    StayCost(nights, nights * pricePerNight)
  }

  /** For dates `parse_dates` accepts, the one-night floor never applies. */
  lemma ValidStayCost(checkIn: Option<int>, checkOut: Option<int>, today: int, pricePerNight: int)
    requires ParseDates(checkIn, checkOut, today).ValidDates?
    ensures var d := ParseDates(checkIn, checkOut, today);
            CalculateTotalCost(d.checkIn, d.checkOut, pricePerNight)
              == StayCost(d.checkOut - d.checkIn, (d.checkOut - d.checkIn) * pricePerNight)
  {
  }

  // ---------------------------------------------------------------------------
  // validate_emails

  /** Each input after `strip()`. */
  function Stripped(emails: seq<string>): (r: seq<string>)
    ensures |r| == |emails|
  {
    seq(|emails|, k requires 0 <= k < |emails| => Strip(emails[k]))
  }

  /** The set `validate_emails` builds from stripped addresses: the non-empty, accepted ones. */
  function ValidOf(addrs: seq<string>, isValid: string -> bool): set<string>
  {
    if addrs == [] then {}
    else
      var addr := addrs[|addrs| - 1];
      ValidOf(addrs[..|addrs| - 1], isValid) + (if addr != [] && isValid(addr) then {addr} else {})
  }

  /** The list `validate_emails` builds from stripped addresses: the non-empty, rejected ones, in order. */
  function InvalidOf(addrs: seq<string>, isValid: string -> bool): seq<string>
  {
    if addrs == [] then []
    else
      var addr := addrs[|addrs| - 1];
      InvalidOf(addrs[..|addrs| - 1], isValid) + (if addr != [] && !isValid(addr) then [addr] else [])
  }

  /** An address is accepted exactly when it is a non-empty input the validator accepts. */
  lemma {:induction false} ValidOfMeaning(addrs: seq<string>, isValid: string -> bool)
    ensures forall a :: a in ValidOf(addrs, isValid) <==> a != [] && isValid(a) && a in addrs
  {
    if addrs != [] {
      var init := addrs[..|addrs| - 1];
      ValidOfMeaning(init, isValid);
      assert addrs == init + [addrs[|addrs| - 1]];
    }
  }

  /** An address is rejected exactly when it is a non-empty input the validator rejects. */
  lemma {:induction false} InvalidOfMeaning(addrs: seq<string>, isValid: string -> bool)
    ensures forall a :: a in InvalidOf(addrs, isValid) <==> a != [] && !isValid(a) && a in addrs
    ensures |InvalidOf(addrs, isValid)| <= |addrs|
  {
    if addrs != [] {
      var init := addrs[..|addrs| - 1];
      InvalidOfMeaning(init, isValid);
      assert addrs == init + [addrs[|addrs| - 1]];
    }
  }

  /** Taking one more address into account extends both results by that address alone. */
  lemma ValidInvalidStep(addrs: seq<string>, i: nat, isValid: string -> bool)
    requires i < |addrs|
    ensures ValidOf(addrs[..i + 1], isValid)
            == ValidOf(addrs[..i], isValid) + (if addrs[i] != [] && isValid(addrs[i]) then {addrs[i]} else {})
    ensures InvalidOf(addrs[..i + 1], isValid)
            == InvalidOf(addrs[..i], isValid) + (if addrs[i] != [] && !isValid(addrs[i]) then [addrs[i]] else [])
  {
    assert addrs[..i + 1][..i] == addrs[..i];
  }

  /** `validate_emails`: strips each input, drops blank ones, and splits the rest
      into accepted addresses (a set) and rejected ones (a list keeping order and
      duplicates). */
  method ValidateEmails(emails: seq<string>, isValid: string -> bool) returns (valid: set<string>, invalid: seq<string>)
    ensures valid == ValidOf(Stripped(emails), isValid) && invalid == InvalidOf(Stripped(emails), isValid)
    ensures forall a :: a in valid <==> a != [] && isValid(a) && a in Stripped(emails)
    ensures forall a :: a in invalid <==> a != [] && !isValid(a) && a in Stripped(emails)
    ensures forall a :: a in Stripped(emails) && a != [] ==> (a in valid <==> a !in invalid)
  {
    valid, invalid := {}, [];
    ghost var addrs := Stripped(emails);
    for i := 0 to |emails|
      invariant valid == ValidOf(addrs[..i], isValid)
      invariant invalid == InvalidOf(addrs[..i], isValid)
    {
      var addr := Strip(emails[i]);
      ValidInvalidStep(addrs, i, isValid);
      if addr == [] {
        continue;
      }
      if isValid(addr) {
        valid := valid + {addr};
      } else {
        invalid := invalid + [addr];
      }
    }
    assert addrs[..|emails|] == addrs;
    ValidOfMeaning(addrs, isValid);
    InvalidOfMeaning(addrs, isValid);
  }

  // ---------------------------------------------------------------------------
  // get_available_rooms

  /** The filters of a search: the stay, the guest count (None when falsy) and
      the selected room type (None when falsy). */
  datatype RoomQuery = RoomQuery(checkIn: int, checkOut: int, numGuests: Option<int>, selectedRoomTypeId: Option<nat>)

  /** One entry of the result: a room type, its free units and its price. */
  datatype Offer = Offer(roomType: RoomType, availableCount: int, pricePerNight: int)

  /** A room of the type that is not under maintenance, or whose maintenance ends before check-in. */
  predicate CountsTowardCapacity(room: Room, roomTypeId: nat, checkIn: int) {
    && room.roomType == roomTypeId
    && (|| room.status == Available || room.status == Occupied || room.status == Cleaning
        || (room.status == Maintenance && room.maintenanceUntil.Some? && room.maintenanceUntil.value < checkIn))
  }

  /** The physical capacity of a room type for a stay starting on `checkIn`. */
  function Capacity(rooms: seq<Room>, roomTypeId: nat, checkIn: int): (n: nat)
    ensures n <= |rooms|
  {
    if rooms == [] then 0
    else Capacity(rooms[..|rooms| - 1], roomTypeId, checkIn)
         + (if CountsTowardCapacity(rooms[|rooms| - 1], roomTypeId, checkIn) then 1 else 0)
  }

  /** Hold and Confirmed reservations take up a unit; an expired Hold still does. */
  predicate IsActive(r: Reservation) {
    r.status == Hold || r.status == Confirmed
  }

  /** An active reservation of the type whose stay `[startDate, endDate)` meets `[checkIn, checkOut)`. */
  predicate Blocks(r: Reservation, roomTypeId: nat, checkIn: int, checkOut: int) {
    r.roomType == Some(roomTypeId) && IsActive(r) && r.startDate < checkOut && r.endDate > checkIn
  }

  function OverlapCount(reservations: seq<Reservation>, roomTypeId: nat, checkIn: int, checkOut: int): (n: nat)
    ensures n <= |reservations|
  {
    if reservations == [] then 0
    else OverlapCount(reservations[..|reservations| - 1], roomTypeId, checkIn, checkOut)
         + (if Blocks(reservations[|reservations| - 1], roomTypeId, checkIn, checkOut) then 1 else 0)
  }

  /** The counts add up over a split table. */
  lemma {:induction false} OverlapCountAppend(a: seq<Reservation>, b: seq<Reservation>, roomTypeId: nat, checkIn: int, checkOut: int)
    ensures OverlapCount(a + b, roomTypeId, checkIn, checkOut)
            == OverlapCount(a, roomTypeId, checkIn, checkOut) + OverlapCount(b, roomTypeId, checkIn, checkOut)
  {
    if b == [] {
      assert a + b == a;
    } else {
      assert (a + b)[..|a + b| - 1] == a + b[..|b| - 1];
      assert (a + b)[|a + b| - 1] == b[|b| - 1];
      OverlapCountAppend(a, b[..|b| - 1], roomTypeId, checkIn, checkOut);
    }
  }

  /** Adding one reservation raises the count by one exactly when it blocks: a
      Cancelled one, one of another type, one that ends on the check-in day or
      one that starts on the check-out day changes nothing. */
  lemma OverlapCountAddOne(rs: seq<Reservation>, r: Reservation, roomTypeId: nat, checkIn: int, checkOut: int)
    ensures OverlapCount(rs + [r], roomTypeId, checkIn, checkOut)
            == OverlapCount(rs, roomTypeId, checkIn, checkOut) + (if Blocks(r, roomTypeId, checkIn, checkOut) then 1 else 0)
    ensures (r.status == Cancelled || r.endDate <= checkIn || r.startDate >= checkOut || r.roomType != Some(roomTypeId))
              ==> OverlapCount(rs + [r], roomTypeId, checkIn, checkOut) == OverlapCount(rs, roomTypeId, checkIn, checkOut)
  {
    assert (rs + [r])[..|rs + [r]| - 1] == rs;
  }

  /** A room type passes the search's guest-count and room-type filters. */
  predicate Wanted(t: RoomType, q: RoomQuery) {
    && (q.selectedRoomTypeId.None? || t.id == q.selectedRoomTypeId.value)
    && (q.numGuests.None? || !(t.maxGuests < q.numGuests.value))
  }

  /** What one pass of the loop in `get_available_rooms` contributes for room type `t`. */
  function OfferFor(t: RoomType, rooms: seq<Room>, reservations: seq<Reservation>, q: RoomQuery): (o: Option<Offer>)
    ensures o.Some? <==>
              Wanted(t, q) && Capacity(rooms, t.id, q.checkIn) > OverlapCount(reservations, t.id, q.checkIn, q.checkOut)
    ensures o.Some? ==> o.value.roomType == t && o.value.pricePerNight == t.pricePerNight && o.value.availableCount >= 1
    ensures o.Some? ==> o.value.availableCount
                          == Capacity(rooms, t.id, q.checkIn) - OverlapCount(reservations, t.id, q.checkIn, q.checkOut)
  {
    if !Wanted(t, q) then None
    else
      var capacity := Capacity(rooms, t.id, q.checkIn);
      if capacity == 0 then None
      else
        var overlapping := OverlapCount(reservations, t.id, q.checkIn, q.checkOut);
        if overlapping >= capacity then None
        else Some(Offer(t, capacity - overlapping, t.pricePerNight))
  }

  function OptionToSeq<T>(o: Option<T>): seq<T> {
    if o.Some? then [o.value] else []
  }

  /** The result of the loop over `ordered`. */
  function OffersAmong(ordered: seq<RoomType>, rooms: seq<Room>, reservations: seq<Reservation>, q: RoomQuery): seq<Offer>
  {
    if ordered == [] then []
    else OffersAmong(ordered[..|ordered| - 1], rooms, reservations, q)
         + OptionToSeq(OfferFor(ordered[|ordered| - 1], rooms, reservations, q))
  }

  predicate RoomTypeNameLe(a: RoomType, b: RoomType) {
    NameLe(a.name, b.name)
  }

  predicate OfferNameLe(a: Offer, b: Offer) {
    NameLe(a.roomType.name, b.roomType.name)
  }

  /** `RoomType.objects.all().order_by('name')`. */
  function ByName(roomTypes: seq<RoomType>): seq<RoomType> {
    SortBy(roomTypes, RoomTypeNameLe)
  }

  lemma RoomTypeNameOrder()
    ensures TotalPreorder(RoomTypeNameLe)
  {
    forall x: RoomType, y: RoomType ensures RoomTypeNameLe(x, y) || RoomTypeNameLe(y, x) {
      NameLeTotal(x.name, y.name);
    }
    forall x: RoomType, y: RoomType, z: RoomType | RoomTypeNameLe(x, y) && RoomTypeNameLe(y, z)
      ensures RoomTypeNameLe(x, z)
    {
      NameLeTransitive(x.name, y.name, z.name);
    }
  }

  lemma ByNameOrders(roomTypes: seq<RoomType>)
    ensures SortedBy(ByName(roomTypes), RoomTypeNameLe)
    ensures multiset(ByName(roomTypes)) == multiset(roomTypes)
    ensures forall t :: t in ByName(roomTypes) <==> t in roomTypes
  {
    RoomTypeNameOrder();
    SortBySorted(roomTypes, RoomTypeNameLe);
    forall t ensures t in ByName(roomTypes) <==> t in roomTypes {
      assert t in ByName(roomTypes) <==> t in multiset(ByName(roomTypes));
    }
  }

  /** Every entry comes from one of the room types and is that type's `OfferFor`. */
  lemma {:induction false} OffersAmongSound(ordered: seq<RoomType>, rooms: seq<Room>, reservations: seq<Reservation>, q: RoomQuery)
    ensures forall o :: o in OffersAmong(ordered, rooms, reservations, q) ==>
              o.roomType in ordered && OfferFor(o.roomType, rooms, reservations, q) == Some(o)
  {
    if ordered != [] {
      var init := ordered[..|ordered| - 1];
      OffersAmongSound(init, rooms, reservations, q);
      forall o | o in OffersAmong(init, rooms, reservations, q) ensures o.roomType in ordered {
        assert o.roomType in init;
      }
    }
  }

  /** Every room type with an offer gets its entry. */
  lemma {:induction false} OffersAmongComplete(ordered: seq<RoomType>, rooms: seq<Room>, reservations: seq<Reservation>, q: RoomQuery)
    ensures forall t :: t in ordered && OfferFor(t, rooms, reservations, q).Some? ==>
              OfferFor(t, rooms, reservations, q).value in OffersAmong(ordered, rooms, reservations, q)
  {
    if ordered != [] {
      var init := ordered[..|ordered| - 1];
      OffersAmongComplete(init, rooms, reservations, q);
      forall t | t in ordered && t != ordered[|ordered| - 1] ensures t in init {
        var k :| 0 <= k < |ordered| && ordered[k] == t;
        assert init[k] == t;
      }
    }
  }

  /** Filtering an ordered list keeps it ordered. */
  lemma {:induction false} OffersAmongSorted(ordered: seq<RoomType>, rooms: seq<Room>, reservations: seq<Reservation>, q: RoomQuery)
    requires SortedBy(ordered, RoomTypeNameLe)
    ensures SortedBy(OffersAmong(ordered, rooms, reservations, q), OfferNameLe)
  {
    if ordered != [] {
      var init := ordered[..|ordered| - 1];
      var last := ordered[|ordered| - 1];
      var prefix := OffersAmong(init, rooms, reservations, q);
      OffersAmongSorted(init, rooms, reservations, q);
      OffersAmongSound(init, rooms, reservations, q);
      var extra := OptionToSeq(OfferFor(last, rooms, reservations, q));
      forall i | 0 <= i < |prefix| ensures forall o :: o in extra ==> OfferNameLe(prefix[i], o) {
        assert prefix[i] in prefix;
        var k :| 0 <= k < |init| && init[k] == prefix[i].roomType;
        assert RoomTypeNameLe(ordered[k], ordered[|ordered| - 1]);
      }
    }
  }

  /** The result of `get_available_rooms` for the given tables. */
  function AvailableRooms(roomTypes: seq<RoomType>, rooms: seq<Room>, reservations: seq<Reservation>, q: RoomQuery): seq<Offer> {
    OffersAmong(ByName(roomTypes), rooms, reservations, q)
  }

  /** What a result of the calculator means for the room-type table it ran over:
      every entry is a wanted room type of the table with its free count and
      price, every room type with a unit free is listed, in name order. */
  predicate AnswersQuery(available: seq<Offer>, roomTypes: seq<RoomType>, rooms: seq<Room>, reservations: seq<Reservation>, q: RoomQuery)
  {
    && (forall o :: o in available ==>
          && o.roomType in roomTypes
          && OfferFor(o.roomType, rooms, reservations, q) == Some(o)
          && Wanted(o.roomType, q)
          && o.availableCount
             == Capacity(rooms, o.roomType.id, q.checkIn) - OverlapCount(reservations, o.roomType.id, q.checkIn, q.checkOut)
          && o.availableCount >= 1
          && o.pricePerNight == o.roomType.pricePerNight)
    && (forall t :: t in roomTypes && OfferFor(t, rooms, reservations, q).Some? ==>
          OfferFor(t, rooms, reservations, q).value in available)
    && (forall t :: t in roomTypes && Wanted(t, q)
                    && Capacity(rooms, t.id, q.checkIn) > OverlapCount(reservations, t.id, q.checkIn, q.checkOut)
          ==> Offer(t, Capacity(rooms, t.id, q.checkIn) - OverlapCount(reservations, t.id, q.checkIn, q.checkOut),
                    t.pricePerNight) in available)
    && SortedBy(available, OfferNameLe)
  }

  /** The calculator's result answers the query. */
  lemma OffersOfTable(roomTypes: seq<RoomType>, rooms: seq<Room>, reservations: seq<Reservation>, q: RoomQuery)
    ensures AnswersQuery(AvailableRooms(roomTypes, rooms, reservations, q), roomTypes, rooms, reservations, q)
  {
    var ordered := ByName(roomTypes);
    ByNameOrders(roomTypes);
    OffersAmongSound(ordered, rooms, reservations, q);
    OffersAmongComplete(ordered, rooms, reservations, q);
    OffersAmongSorted(ordered, rooms, reservations, q);
  }

  /** The result is empty exactly when no room type of the table has a unit free for the query. */
  lemma AvailableRoomsNonEmpty(roomTypes: seq<RoomType>, rooms: seq<Room>, reservations: seq<Reservation>, q: RoomQuery)
    ensures AvailableRooms(roomTypes, rooms, reservations, q) != []
            <==> exists t :: t in roomTypes && OfferFor(t, rooms, reservations, q).Some?
  {
    var available := AvailableRooms(roomTypes, rooms, reservations, q);
    OffersOfTable(roomTypes, rooms, reservations, q);
    if available != [] {
      assert available[0] in available;
    }
  }

  /** With a room type selected, a room is found exactly when a room type of that
      id takes the guests and has more units than active reservations over the stay. */
  lemma SelectedTypeAvailable(roomTypes: seq<RoomType>, rooms: seq<Room>, reservations: seq<Reservation>, q: RoomQuery)
    requires q.selectedRoomTypeId.Some?
    ensures var id := q.selectedRoomTypeId.value;
      AvailableRooms(roomTypes, rooms, reservations, q) != []
      <==> && (exists t :: t in roomTypes && t.id == id && Wanted(t, q))
           && Capacity(rooms, id, q.checkIn) > OverlapCount(reservations, id, q.checkIn, q.checkOut)
  {
    AvailableRoomsNonEmpty(roomTypes, rooms, reservations, q);
  }

  /** The result over a prefix grows by the next room type's entry, if any. */
  lemma OffersAmongStep(ordered: seq<RoomType>, i: nat, rooms: seq<Room>, reservations: seq<Reservation>, q: RoomQuery)
    requires i < |ordered|
    ensures OffersAmong(ordered[..i + 1], rooms, reservations, q)
            == OffersAmong(ordered[..i], rooms, reservations, q) + OptionToSeq(OfferFor(ordered[i], rooms, reservations, q))
  {
    assert ordered[..i + 1][..i] == ordered[..i];
  }

  /** One pass of the loop in `get_available_rooms`: the guard clauses that skip a
      room type, in the code's order, then the entry for it. */
  method CheckRoomType(roomType: RoomType, rooms: seq<Room>, reservations: seq<Reservation>, q: RoomQuery)
    returns (o: Option<Offer>)
    ensures o == OfferFor(roomType, rooms, reservations, q)
  {
    if q.selectedRoomTypeId.Some? && roomType.id != q.selectedRoomTypeId.value {
      return None;
    }
    if q.numGuests.Some? && roomType.maxGuests < q.numGuests.value {
      return None;
    }
    var availableRoomsCount := Capacity(rooms, roomType.id, q.checkIn);
    if availableRoomsCount == 0 {
      return None;
    }
    var overlappingCount := OverlapCount(reservations, roomType.id, q.checkIn, q.checkOut);
    if overlappingCount >= availableRoomsCount {
      return None;
    }
    return Some(Offer(roomType, availableRoomsCount - overlappingCount, roomType.pricePerNight));
  }

  /** The loop of `get_available_rooms` over the ordered room types. */
  method OffersInOrder(ordered: seq<RoomType>, rooms: seq<Room>, reservations: seq<Reservation>, q: RoomQuery)
    returns (available: seq<Offer>)
    ensures available == OffersAmong(ordered, rooms, reservations, q)
  {
    available := [];
    for i := 0 to |ordered|
      invariant available == OffersAmong(ordered[..i], rooms, reservations, q)
    {
      OffersAmongStep(ordered, i, rooms, reservations, q);
      var entry := CheckRoomType(ordered[i], rooms, reservations, q);
      available := available + OptionToSeq(entry);
    }
    assert ordered[..|ordered|] == ordered;
  }

  /** `get_available_rooms`: walks the room types in name order and keeps those
      with a unit free, annotated with the free count and the price. */
  method GetAvailableRooms(roomTypes: seq<RoomType>, rooms: seq<Room>, reservations: seq<Reservation>, q: RoomQuery)
    returns (available: seq<Offer>)
    ensures available == AvailableRooms(roomTypes, rooms, reservations, q)
    ensures AnswersQuery(available, roomTypes, rooms, reservations, q)
  {
    var ordered := ByName(roomTypes);
    available := OffersInOrder(ordered, rooms, reservations, q);
    OffersOfTable(roomTypes, rooms, reservations, q);
  }
}
