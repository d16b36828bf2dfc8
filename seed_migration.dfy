// Migration 0002 (web/migrations/0002_seed_roomtypes_and_rooms.py): adds the
// nullable `maintenance_until` column to rooms, then upserts the four room
// types by name and the eight rooms by room number, so that running the seed
// again changes nothing.

module SeedMigration {
  import opened Models
  import opened Helpers

  // ---------------------------------------------------------------------
  // The new column
  // ---------------------------------------------------------------------

  /** A room as stored before the migration, without `maintenance_until`. */
  datatype UnmigratedRoom = UnmigratedRoom(id: nat, roomNumber: string, roomType: nat, status: RoomStatus)

  /** `AddField` of a nullable column: every existing room gets a null `maintenance_until`. */
  function AddMaintenanceUntil(before: seq<UnmigratedRoom>): (rooms: seq<Room>)
    ensures |rooms| == |before|
    ensures forall k :: 0 <= k < |before| ==>
              && rooms[k].maintenanceUntil.None?
              && rooms[k].id == before[k].id && rooms[k].roomNumber == before[k].roomNumber
              && rooms[k].roomType == before[k].roomType && rooms[k].status == before[k].status
  {
    seq(|before|, k requires 0 <= k < |before| =>
      Room(before[k].id, before[k].roomNumber, before[k].roomType, before[k].status, None))
  }

  /** A room under maintenance is out of every room type's capacity until its date is set. */
  lemma NewColumnKeepsMaintenanceRoomsOut(before: seq<UnmigratedRoom>, roomTypeId: nat, checkIn: int)
    ensures forall k :: 0 <= k < |before| && before[k].status == Maintenance ==>
              !CountsTowardCapacity(AddMaintenanceUntil(before)[k], roomTypeId, checkIn)
  {
  }

  // ---------------------------------------------------------------------
  // Room types
  // ---------------------------------------------------------------------

  /** One entry of the room-type seed list; the price is in cents. */
  datatype TypeSeed = TypeSeed(name: string, pricePerNight: int, beds: int, maxGuests: int, description: string)

  const TYPE_SEEDS: seq<TypeSeed> := [
    TypeSeed("Double Full", 12600, 2, 4, "Two full beds with island view."),
    TypeSeed("Queen", 14175, 1, 2, "Single queen bed overlooking the bay."),
    TypeSeed("Double Queen", 15750, 2, 4, "Two queen beds, partial ocean view."),
    TypeSeed("King", 16800, 1, 2, "Large king room with premium amenities.")
  ]

  /** The position of the row whose unique column `key` holds `value`, if any:
      the lookup `update_or_create` makes by that column. */
  function IndexOfKey<T>(rows: seq<T>, key: T -> string, value: string): (i: Option<nat>)
    ensures i.None? <==> forall k :: 0 <= k < |rows| ==> key(rows[k]) != value
    ensures i.Some? ==> i.value < |rows| && key(rows[i.value]) == value
  {
    if rows == [] then None
    else if key(rows[0]) == value then Some(0)
    else
      match IndexOfKey(rows[1..], key, value)
      case None => None
      case Some(j) => Some(j + 1)
  }

  /** The primary key a newly inserted row receives: above every key in the table. */
  function NextKey<T>(rows: seq<T>, id: T -> nat): (next: nat)
    ensures next >= 1
    ensures forall k :: 0 <= k < |rows| ==> id(rows[k]) < next
  {
    if rows == [] then 1
    else
      var next := NextKey(rows[..|rows| - 1], id);
      if id(rows[|rows| - 1]) < next then next else id(rows[|rows| - 1]) + 1
  }

  function TypeName(t: RoomType): string { t.name }
  function TypeKey(t: RoomType): nat { t.id }
  function RoomNumberOf(room: Room): string { room.roomNumber }
  function RoomKey(room: Room): nat { room.id }

  /** The position of the room type with the given name, if any. */
  function IndexOfTypeName(types: seq<RoomType>, name: string): (i: Option<nat>)
    ensures i.None? <==> forall k :: 0 <= k < |types| ==> types[k].name != name
    ensures i.Some? ==> i.value < |types| && types[i.value].name == name
  {
    IndexOfKey(types, TypeName, name)
  }

  /** The key a newly inserted room type receives. */
  function NextTypeId(types: seq<RoomType>): (id: nat)
    ensures id >= 1
    ensures forall k :: 0 <= k < |types| ==> types[k].id < id
  {
    NextKey(types, TypeKey)
  }

  /** A room type carries exactly the values of the seed entry. */
  predicate MatchesTypeSeed(t: RoomType, seed: TypeSeed) {
    && t.name == seed.name && t.pricePerNight == seed.pricePerNight && t.beds == seed.beds
    && t.maxGuests == seed.maxGuests && t.description == Some(seed.description)
  }

  predicate HasTypeSeed(types: seq<RoomType>, seed: TypeSeed) {
    exists k :: 0 <= k < |types| && MatchesTypeSeed(types[k], seed)
  }

  /** `RoomType.objects.update_or_create(name=..., defaults=...)`: the room type
      of that name takes the seed's values, or a new one is added. */
  function UpsertType(types: seq<RoomType>, seed: TypeSeed): (r: seq<RoomType>)
    requires UniqueTypeNames(types) && UniqueTypeIds(types)
    ensures UniqueTypeNames(r) && UniqueTypeIds(r)
    ensures HasTypeSeed(r, seed)
    ensures |r| == |types| + (if IndexOfTypeName(types, seed.name).Some? then 0 else 1)
    ensures forall k :: 0 <= k < |types| ==>
              && r[k].id == types[k].id && r[k].name == types[k].name
              && (types[k].name != seed.name ==> r[k] == types[k])
    ensures HasTypeSeed(types, seed) ==> r == types
  {
    match IndexOfTypeName(types, seed.name)
    case Some(i) =>
      var r := types[i := types[i].(pricePerNight := seed.pricePerNight, beds := seed.beds,
                                     maxGuests := seed.maxGuests, description := Some(seed.description))];
      assert MatchesTypeSeed(r[i], seed);
      r
    case None =>
      var r := types + [RoomType(NextTypeId(types), seed.name, seed.pricePerNight, seed.beds, seed.maxGuests,
                                 Some(seed.description))];
      assert MatchesTypeSeed(r[|types|], seed);
      r
  }

  /** The room-type table after upserting `seeds` in order. */
  function SeedTypes(types: seq<RoomType>, seeds: seq<TypeSeed>): (r: seq<RoomType>)
    requires UniqueTypeNames(types) && UniqueTypeIds(types)
    ensures UniqueTypeNames(r) && UniqueTypeIds(r)
    ensures |types| <= |r| <= |types| + |seeds|
  {
    if seeds == [] then types
    else UpsertType(SeedTypes(types, seeds[..|seeds| - 1]), seeds[|seeds| - 1])
  }

  /** The room types already in the table keep their place, key and name, and
      those whose name no seed entry carries are untouched. */
  lemma {:induction false} SeedTypesKeepsOthers(types: seq<RoomType>, seeds: seq<TypeSeed>)
    requires UniqueTypeNames(types) && UniqueTypeIds(types)
    ensures var r := SeedTypes(types, seeds);
      forall k :: 0 <= k < |types| ==>
        && r[k].id == types[k].id && r[k].name == types[k].name
        && ((forall s :: s in seeds ==> s.name != types[k].name) ==> r[k] == types[k])
  {
    if seeds != [] {
      var init := seeds[..|seeds| - 1];
      SeedTypesKeepsOthers(types, init);
      forall k | 0 <= k < |types| && (forall s :: s in seeds ==> s.name != types[k].name)
        ensures forall s :: s in init ==> s.name != types[k].name
      {
        forall s | s in init ensures s.name != types[k].name {
          assert s in seeds;
        }
      }
    }
  }

  /** Distinct names in the seed list. */
  predicate DistinctTypeNames(seeds: seq<TypeSeed>) {
    forall i, j :: 0 <= i < j < |seeds| ==> seeds[i].name != seeds[j].name
  }

  /** The four seeded room types have four different names. */
  lemma TypeSeedNamesDistinct()
    ensures DistinctTypeNames(TYPE_SEEDS)
  {
    assert TYPE_SEEDS[0].name[0] == 'D' && TYPE_SEEDS[1].name[0] == 'Q' && TYPE_SEEDS[3].name[0] == 'K';
    assert TYPE_SEEDS[2].name[0] == 'D' && |TYPE_SEEDS[0].name| != |TYPE_SEEDS[2].name|;
  }

  /** Every seeded room type fits its columns: the name within 25 characters
      and the price within `DecimalField(max_digits=7, decimal_places=2)`. */
  lemma TypeSeedsFitTheColumns()
    ensures forall e :: e in TYPE_SEEDS ==>
              |e.name| <= ROOM_TYPE_NAME_LENGTH && FitsDecimal72(e.pricePerNight) && e.pricePerNight > 0
  {
  }

  /** After the upserts every seed entry is in the table with its values. */
  lemma {:induction false} SeedTypesInstallsAll(types: seq<RoomType>, seeds: seq<TypeSeed>)
    requires UniqueTypeNames(types) && UniqueTypeIds(types) && DistinctTypeNames(seeds)
    ensures forall s :: s in seeds ==> HasTypeSeed(SeedTypes(types, seeds), s)
  {
    if seeds != [] {
      var init := seeds[..|seeds| - 1];
      var last := seeds[|seeds| - 1];
      var before := SeedTypes(types, init);
      SeedTypesInstallsAll(types, init);
      forall s | s in seeds ensures HasTypeSeed(SeedTypes(types, seeds), s) {
        if s != last {
          var j :| 0 <= j < |seeds| && seeds[j] == s;
          assert s in init && s.name != last.name;
          var k :| 0 <= k < |before| && MatchesTypeSeed(before[k], s);
          assert SeedTypes(types, seeds)[k] == before[k];
        }
      }
    }
  }

  /** Upserting entries that are all in the table already changes nothing. */
  lemma {:induction false} SeedTypesWhenPresent(types: seq<RoomType>, seeds: seq<TypeSeed>)
    requires UniqueTypeNames(types) && UniqueTypeIds(types)
    requires forall s :: s in seeds ==> HasTypeSeed(types, s)
    ensures SeedTypes(types, seeds) == types
  {
    if seeds != [] {
      var init := seeds[..|seeds| - 1];
      assert forall s :: s in init ==> s in seeds;
      SeedTypesWhenPresent(types, init);
      assert seeds[|seeds| - 1] in seeds;
    }
  }

  /** Running the room-type seed twice gives the table it gives once. */
  lemma SeedTypesIdempotent(types: seq<RoomType>)
    requires UniqueTypeNames(types) && UniqueTypeIds(types)
    ensures SeedTypes(SeedTypes(types, TYPE_SEEDS), TYPE_SEEDS) == SeedTypes(types, TYPE_SEEDS)
  {
    TypeSeedNamesDistinct();
    SeedTypesInstallsAll(types, TYPE_SEEDS);
    SeedTypesWhenPresent(SeedTypes(types, TYPE_SEEDS), TYPE_SEEDS);
  }

  /** One `update_or_create` call on the room-type table. */
  method UpsertRoomType(db: Database, seed: TypeSeed)
    modifies db
    requires UniqueTypeNames(db.roomTypes) && UniqueTypeIds(db.roomTypes)
    ensures db.roomTypes == UpsertType(old(db.roomTypes), seed)
    ensures db.customers == old(db.customers) && db.rooms == old(db.rooms) && db.reservations == old(db.reservations)
  {
    var i := 0;
    while i < |db.roomTypes| && db.roomTypes[i].name != seed.name
      invariant 0 <= i <= |db.roomTypes|
      invariant forall k :: 0 <= k < i ==> db.roomTypes[k].name != seed.name
    {
      i := i + 1;
    }
    if i < |db.roomTypes| {
      var t := db.roomTypes[i];
      db.roomTypes := db.roomTypes[i := t.(pricePerNight := seed.pricePerNight, beds := seed.beds,
                                           maxGuests := seed.maxGuests, description := Some(seed.description))];
    } else {
      var t := RoomType(NextTypeId(db.roomTypes), seed.name, seed.pricePerNight, seed.beds, seed.maxGuests,
                        Some(seed.description));
      db.roomTypes := db.roomTypes + [t];
    }
  }

  /** `create_initial_room_types`. */
  method CreateInitialRoomTypes(db: Database)
    modifies db
    requires UniqueTypeNames(db.roomTypes) && UniqueTypeIds(db.roomTypes)
    ensures db.roomTypes == SeedTypes(old(db.roomTypes), TYPE_SEEDS)
    ensures db.customers == old(db.customers) && db.rooms == old(db.rooms) && db.reservations == old(db.reservations)
  {
    for k := 0 to |TYPE_SEEDS|
      invariant db.roomTypes == SeedTypes(old(db.roomTypes), TYPE_SEEDS[..k])
      invariant db.customers == old(db.customers) && db.rooms == old(db.rooms) && db.reservations == old(db.reservations)
    {
      assert TYPE_SEEDS[..k + 1][..k] == TYPE_SEEDS[..k];
      UpsertRoomType(db, TYPE_SEEDS[k]);
    }
    assert TYPE_SEEDS[..|TYPE_SEEDS|] == TYPE_SEEDS;
  }

  // ---------------------------------------------------------------------
  // Rooms
  // ---------------------------------------------------------------------

  /** One entry of the room seed list, naming its room type. */
  datatype RoomSeed = RoomSeed(roomNumber: string, status: RoomStatus, typeName: string, maintenanceUntil: Option<int>)

  /** 2025-11-25 as a day number (days since 1970-01-01). */
  const ROOM_302_BACK := 20417

  const ROOM_SEEDS: seq<RoomSeed> := [
    RoomSeed("101", Available, "King", None),
    RoomSeed("102", Cleaning, "King", None),
    RoomSeed("201", Available, "Double Queen", None),
    RoomSeed("202", Occupied, "Double Queen", None),
    RoomSeed("301", Available, "Double Full", None),
    RoomSeed("302", Maintenance, "Double Full", Some(ROOM_302_BACK)),
    RoomSeed("401", Available, "Queen", None),
    RoomSeed("402", Occupied, "Queen", None)
  ]

  /** `RoomType.objects.get(name=...)`: the key of the room type of that name. */
  function TypeIdNamed(types: seq<RoomType>, name: string): (id: Option<nat>)
    ensures id.None? <==> forall k :: 0 <= k < |types| ==> types[k].name != name
    ensures id.Some? ==> exists k :: 0 <= k < |types| && types[k].name == name && types[k].id == id.value
  {
    match IndexOfTypeName(types, name)
    case None => None
    case Some(i) => Some(types[i].id)
  }

  /** The position of the room with the given number, if any. */
  function IndexOfRoomNumber(rooms: seq<Room>, roomNumber: string): (i: Option<nat>)
    ensures i.None? <==> forall k :: 0 <= k < |rooms| ==> rooms[k].roomNumber != roomNumber
    ensures i.Some? ==> i.value < |rooms| && rooms[i.value].roomNumber == roomNumber
  {
    IndexOfKey(rooms, RoomNumberOf, roomNumber)
  }

  /** The key a newly inserted room receives. */
  function NextRoomId(rooms: seq<Room>): (id: nat)
    ensures id >= 1
    ensures forall k :: 0 <= k < |rooms| ==> rooms[k].id < id
  {
    NextKey(rooms, RoomKey)
  }

  /** A room carries the seed entry's number, status and room type; its
      maintenance date too when `writesMaintenance` holds. */
  predicate MatchesRoomSeed(room: Room, typeId: nat, seed: RoomSeed, writesMaintenance: bool) {
    && room.roomNumber == seed.roomNumber && room.status == seed.status && room.roomType == typeId
    && (writesMaintenance ==> room.maintenanceUntil == seed.maintenanceUntil)
  }

  predicate HasRoomSeed(rooms: seq<Room>, types: seq<RoomType>, seed: RoomSeed, writesMaintenance: bool) {
    && TypeIdNamed(types, seed.typeName).Some?
    && exists k :: 0 <= k < |rooms| && MatchesRoomSeed(rooms[k], TypeIdNamed(types, seed.typeName).value, seed, writesMaintenance)
  }

  /** `Room.objects.update_or_create(room_number=..., defaults=...)` after the
      room type lookup; None when no room type has the seed's type name (the
      lookup raises). As written (`writesMaintenance` false) the defaults hold
      only the status and the room type, so a new room's `maintenance_until`
      is null and an existing room's is kept; with `writesMaintenance` the
      seed's date is written too. */
  function UpsertRoom(rooms: seq<Room>, types: seq<RoomType>, seed: RoomSeed, writesMaintenance: bool): (r: Option<seq<Room>>)
    requires UniqueRoomNumbers(rooms)
    ensures r.None? <==> TypeIdNamed(types, seed.typeName).None?
    ensures r.Some? ==>
              && UniqueRoomNumbers(r.value)
              && HasRoomSeed(r.value, types, seed, writesMaintenance)
              && |r.value| == |rooms| + (if IndexOfRoomNumber(rooms, seed.roomNumber).Some? then 0 else 1)
              && (forall k :: 0 <= k < |rooms| ==>
                    && r.value[k].id == rooms[k].id && r.value[k].roomNumber == rooms[k].roomNumber
                    && (!writesMaintenance ==> r.value[k].maintenanceUntil == rooms[k].maintenanceUntil)
                    && (rooms[k].roomNumber != seed.roomNumber ==> r.value[k] == rooms[k]))
              && (|r.value| > |rooms| ==>
                    r.value[|rooms|].maintenanceUntil == (if writesMaintenance then seed.maintenanceUntil else None))
    ensures HasRoomSeed(rooms, types, seed, writesMaintenance) ==> r == Some(rooms)
  {
    match TypeIdNamed(types, seed.typeName)
    case None => None
    case Some(typeId) =>
      match IndexOfRoomNumber(rooms, seed.roomNumber)
      case Some(i) =>
        var room := rooms[i].(status := seed.status, roomType := typeId,
                              maintenanceUntil := if writesMaintenance then seed.maintenanceUntil else rooms[i].maintenanceUntil);
        var r := rooms[i := room];
        assert MatchesRoomSeed(r[i], typeId, seed, writesMaintenance);
        assert HasRoomSeed(rooms, types, seed, writesMaintenance) ==> room == rooms[i] by {
          if HasRoomSeed(rooms, types, seed, writesMaintenance) {
            var k :| 0 <= k < |rooms| && MatchesRoomSeed(rooms[k], typeId, seed, writesMaintenance);
            assert k == i;
          }
        }
        assert room == rooms[i] ==> r == rooms;
        Some(r)
      case None =>
        var r := rooms + [Room(NextRoomId(rooms), seed.roomNumber, typeId, seed.status,
                               if writesMaintenance then seed.maintenanceUntil else None)];
        assert MatchesRoomSeed(r[|rooms|], typeId, seed, writesMaintenance);
        Some(r)
  }

  /** The room table after upserting `seeds` in order; None when a lookup of a
      room type fails. */
  function SeedRooms(rooms: seq<Room>, types: seq<RoomType>, seeds: seq<RoomSeed>, writesMaintenance: bool): (r: Option<seq<Room>>)
    requires UniqueRoomNumbers(rooms)
    ensures r.Some? ==> UniqueRoomNumbers(r.value) && |rooms| <= |r.value| <= |rooms| + |seeds|
    ensures r.None? <==> exists s :: s in seeds && TypeIdNamed(types, s.typeName).None?
  {
    if seeds == [] then Some(rooms)
    else
      var init := seeds[..|seeds| - 1];
      var last := seeds[|seeds| - 1];
      assert forall s :: s in seeds <==> s in init || s == last;
      match SeedRooms(rooms, types, init, writesMaintenance)
      case None => None
      case Some(before) => UpsertRoom(before, types, last, writesMaintenance)
  }

  /** The rooms already in the table keep their place, key and number; those
      whose number no seed entry carries are untouched, and as written no
      room's maintenance date changes. */
  lemma {:induction false} SeedRoomsKeepsOthers(rooms: seq<Room>, types: seq<RoomType>, seeds: seq<RoomSeed>, writesMaintenance: bool)
    requires UniqueRoomNumbers(rooms)
    requires SeedRooms(rooms, types, seeds, writesMaintenance).Some?
    ensures var r := SeedRooms(rooms, types, seeds, writesMaintenance).value;
      forall k :: 0 <= k < |rooms| ==>
        && r[k].id == rooms[k].id && r[k].roomNumber == rooms[k].roomNumber
        && (!writesMaintenance ==> r[k].maintenanceUntil == rooms[k].maintenanceUntil)
        && ((forall s :: s in seeds ==> s.roomNumber != rooms[k].roomNumber) ==> r[k] == rooms[k])
  {
    if seeds != [] {
      var init := seeds[..|seeds| - 1];
      SeedRoomsKeepsOthers(rooms, types, init, writesMaintenance);
      forall k | 0 <= k < |rooms| && (forall s :: s in seeds ==> s.roomNumber != rooms[k].roomNumber)
        ensures forall s :: s in init ==> s.roomNumber != rooms[k].roomNumber
      {
        forall s | s in init ensures s.roomNumber != rooms[k].roomNumber {
          assert s in seeds;
        }
      }
    }
  }

  predicate DistinctRoomNumbers(seeds: seq<RoomSeed>) {
    forall i, j :: 0 <= i < j < |seeds| ==> seeds[i].roomNumber != seeds[j].roomNumber
  }

  /** After the upserts every seed entry is in the table. */
  lemma {:induction false} SeedRoomsInstallsAll(rooms: seq<Room>, types: seq<RoomType>, seeds: seq<RoomSeed>, writesMaintenance: bool)
    requires UniqueRoomNumbers(rooms) && DistinctRoomNumbers(seeds)
    requires SeedRooms(rooms, types, seeds, writesMaintenance).Some?
    ensures forall s :: s in seeds ==> HasRoomSeed(SeedRooms(rooms, types, seeds, writesMaintenance).value, types, s, writesMaintenance)
  {
    if seeds != [] {
      var init := seeds[..|seeds| - 1];
      var last := seeds[|seeds| - 1];
      var before := SeedRooms(rooms, types, init, writesMaintenance).value;
      var after := SeedRooms(rooms, types, seeds, writesMaintenance).value;
      SeedRoomsInstallsAll(rooms, types, init, writesMaintenance);
      forall s | s in seeds ensures HasRoomSeed(after, types, s, writesMaintenance) {
        if s != last {
          var j :| 0 <= j < |seeds| && seeds[j] == s;
          assert s in init && s.roomNumber != last.roomNumber;
          var k :| 0 <= k < |before| && MatchesRoomSeed(before[k], TypeIdNamed(types, s.typeName).value, s, writesMaintenance);
          assert after[k] == before[k];
        }
      }
    }
  }

  /** The eight seeded rooms have eight different numbers. */
  lemma RoomSeedNumbersDistinct()
    ensures DistinctRoomNumbers(ROOM_SEEDS)
  {
    forall i, j | 0 <= i < j < |ROOM_SEEDS| ensures ROOM_SEEDS[i].roomNumber != ROOM_SEEDS[j].roomNumber {
      assert ROOM_SEEDS[i].roomNumber[0] != ROOM_SEEDS[j].roomNumber[0]
             || ROOM_SEEDS[i].roomNumber[2] != ROOM_SEEDS[j].roomNumber[2];
    }
  }

  /** Every room seed names one of the seeded room types. */
  lemma RoomSeedsNameSeededTypes()
    ensures forall s :: s in ROOM_SEEDS ==> exists t :: t in TYPE_SEEDS && t.name == s.typeName
  {
    forall s | s in ROOM_SEEDS ensures exists t :: t in TYPE_SEEDS && t.name == s.typeName {
      var i :| 0 <= i < |ROOM_SEEDS| && ROOM_SEEDS[i] == s;
      var j := [3, 3, 2, 2, 0, 0, 1, 1][i];
      assert TYPE_SEEDS[j].name == s.typeName;
      assert TYPE_SEEDS[j] in TYPE_SEEDS;
    }
  }

  /** Upserting entries that are all in the table already changes nothing. */
  lemma {:induction false} SeedRoomsWhenPresent(rooms: seq<Room>, types: seq<RoomType>, seeds: seq<RoomSeed>, writesMaintenance: bool)
    requires UniqueRoomNumbers(rooms)
    requires forall s :: s in seeds ==> HasRoomSeed(rooms, types, s, writesMaintenance)
    ensures SeedRooms(rooms, types, seeds, writesMaintenance) == Some(rooms)
  {
    if seeds != [] {
      var init := seeds[..|seeds| - 1];
      assert forall s :: s in init ==> s in seeds;
      SeedRoomsWhenPresent(rooms, types, init, writesMaintenance);
      assert seeds[|seeds| - 1] in seeds;
    }
  }

  /** Running the room seed twice gives the table it gives once. */
  lemma SeedRoomsIdempotent(rooms: seq<Room>, types: seq<RoomType>, writesMaintenance: bool)
    requires UniqueRoomNumbers(rooms)
    requires SeedRooms(rooms, types, ROOM_SEEDS, writesMaintenance).Some?
    ensures var once := SeedRooms(rooms, types, ROOM_SEEDS, writesMaintenance).value;
      SeedRooms(once, types, ROOM_SEEDS, writesMaintenance) == Some(once)
  {
    RoomSeedNumbersDistinct();
    SeedRoomsInstallsAll(rooms, types, ROOM_SEEDS, writesMaintenance);
    SeedRoomsWhenPresent(SeedRooms(rooms, types, ROOM_SEEDS, writesMaintenance).value, types, ROOM_SEEDS, writesMaintenance);
  }

  /** Every room seed names a room type the room-type seed has just put in the
      table, so the room seed that follows it never fails. */
  lemma SeededTypesResolveEveryRoom(types: seq<RoomType>, rooms: seq<Room>, writesMaintenance: bool)
    requires UniqueTypeNames(types) && UniqueTypeIds(types) && UniqueRoomNumbers(rooms)
    ensures SeedRooms(rooms, SeedTypes(types, TYPE_SEEDS), ROOM_SEEDS, writesMaintenance).Some?
  {
    var seeded := SeedTypes(types, TYPE_SEEDS);
    TypeSeedNamesDistinct();
    SeedTypesInstallsAll(types, TYPE_SEEDS);
    RoomSeedsNameSeededTypes();
    forall s | s in ROOM_SEEDS ensures TypeIdNamed(seeded, s.typeName).Some? {
      var t :| t in TYPE_SEEDS && t.name == s.typeName;
      var k :| 0 <= k < |seeded| && MatchesTypeSeed(seeded[k], t);
    }
  }

  /** One `update_or_create` call on the room table, after the room type lookup;
      `found` is false when the lookup fails. */
  method UpsertRoomRow(db: Database, seed: RoomSeed, writesMaintenance: bool) returns (found: bool)
    modifies db
    requires UniqueRoomNumbers(db.rooms)
    ensures found <==> UpsertRoom(old(db.rooms), db.roomTypes, seed, writesMaintenance).Some?
    ensures found ==> db.rooms == UpsertRoom(old(db.rooms), db.roomTypes, seed, writesMaintenance).value
    ensures !found ==> db.rooms == old(db.rooms)
    ensures db.customers == old(db.customers) && db.roomTypes == old(db.roomTypes) && db.reservations == old(db.reservations)
  {
    var typeId := TypeIdNamed(db.roomTypes, seed.typeName);
    if typeId.None? {
      return false;
    }
    var i := 0;
    while i < |db.rooms| && db.rooms[i].roomNumber != seed.roomNumber
      invariant 0 <= i <= |db.rooms|
      invariant forall k :: 0 <= k < i ==> db.rooms[k].roomNumber != seed.roomNumber
    {
      i := i + 1;
    }
    if i < |db.rooms| {
      var room := db.rooms[i];
      var until := if writesMaintenance then seed.maintenanceUntil else room.maintenanceUntil;
      db.rooms := db.rooms[i := room.(status := seed.status, roomType := typeId.value, maintenanceUntil := until)];
    } else {
      var until := if writesMaintenance then seed.maintenanceUntil else None;
      db.rooms := db.rooms + [Room(NextRoomId(db.rooms), seed.roomNumber, typeId.value, seed.status, until)];
    }
    found := true;
  }

  /** The loop of `create_initial_rooms` over a seed list. A failed lookup
      aborts the migration, whose transaction leaves the room table as it was. */
  method UpsertRooms(db: Database, seeds: seq<RoomSeed>, writesMaintenance: bool) returns (ok: bool)
    modifies db
    requires UniqueRoomNumbers(db.rooms)
    ensures ok <==> SeedRooms(old(db.rooms), db.roomTypes, seeds, writesMaintenance).Some?
    ensures ok ==> db.rooms == SeedRooms(old(db.rooms), db.roomTypes, seeds, writesMaintenance).value
    ensures !ok ==> db.rooms == old(db.rooms)
    ensures db.customers == old(db.customers) && db.roomTypes == old(db.roomTypes) && db.reservations == old(db.reservations)
  {
    var before := db.rooms;
    for k := 0 to |seeds|
      invariant SeedRooms(before, db.roomTypes, seeds[..k], writesMaintenance) == Some(db.rooms)
      invariant UniqueRoomNumbers(db.rooms)
      invariant db.customers == old(db.customers) && db.roomTypes == old(db.roomTypes) && db.reservations == old(db.reservations)
    {
      assert seeds[..k + 1][..k] == seeds[..k];
      var found := UpsertRoomRow(db, seeds[k], writesMaintenance);
      if !found {
        SeedRoomsFailureSticks(before, db.roomTypes, seeds, k + 1, writesMaintenance);
        db.rooms := before;
        return false;
      }
    }
    assert seeds[..|seeds|] == seeds;
    ok := true;
  }

  /** `create_initial_rooms`. */
  method CreateInitialRooms(db: Database, writesMaintenance: bool) returns (ok: bool)
    modifies db
    requires UniqueRoomNumbers(db.rooms)
    ensures ok <==> SeedRooms(old(db.rooms), db.roomTypes, ROOM_SEEDS, writesMaintenance).Some?
    ensures ok ==> db.rooms == SeedRooms(old(db.rooms), db.roomTypes, ROOM_SEEDS, writesMaintenance).value
    ensures !ok ==> db.rooms == old(db.rooms)
    ensures db.customers == old(db.customers) && db.roomTypes == old(db.roomTypes) && db.reservations == old(db.reservations)
  {
    ok := UpsertRooms(db, ROOM_SEEDS, writesMaintenance);
  }

  /** Once a prefix of the seed list fails, the whole list does. */
  lemma SeedRoomsFailureSticks(rooms: seq<Room>, types: seq<RoomType>, seeds: seq<RoomSeed>, n: nat, writesMaintenance: bool)
    requires UniqueRoomNumbers(rooms) && n <= |seeds|
    requires SeedRooms(rooms, types, seeds[..n], writesMaintenance).None?
    ensures SeedRooms(rooms, types, seeds, writesMaintenance).None?
  {
    var s :| s in seeds[..n] && TypeIdNamed(types, s.typeName).None?;
    assert s in seeds;
  }

  /** The whole of migration 0002 on a database whose rooms predate the new
      column: the column is added, then the room types and the rooms are seeded,
      and the room seed cannot fail. */
  method ApplySeedMigration(db: Database, before: seq<UnmigratedRoom>, writesMaintenance: bool)
    modifies db
    requires UniqueTypeNames(db.roomTypes) && UniqueTypeIds(db.roomTypes)
    requires forall i, j :: 0 <= i < j < |before| ==> before[i].roomNumber != before[j].roomNumber
    ensures db.roomTypes == SeedTypes(old(db.roomTypes), TYPE_SEEDS)
    ensures SeedRooms(AddMaintenanceUntil(before), db.roomTypes, ROOM_SEEDS, writesMaintenance) == Some(db.rooms)
    ensures db.customers == old(db.customers) && db.reservations == old(db.reservations)
    ensures db.Valid()
  {
    db.rooms := AddMaintenanceUntil(before);
    CreateInitialRoomTypes(db);
    SeededTypesResolveEveryRoom(old(db.roomTypes), db.rooms, writesMaintenance);
    var ok := CreateInitialRooms(db, writesMaintenance);
  }

  /** As written, seeding writes no maintenance date: every date in the room
      table afterwards was already there before, on the same room. */
  lemma {:induction false} SeedRoomsWritesNoDate(rooms: seq<Room>, types: seq<RoomType>, seeds: seq<RoomSeed>)
    requires UniqueRoomNumbers(rooms)
    requires SeedRooms(rooms, types, seeds, false).Some?
    ensures var r := SeedRooms(rooms, types, seeds, false).value;
      forall k :: 0 <= k < |r| && r[k].maintenanceUntil.Some? ==>
        k < |rooms| && r[k].maintenanceUntil == rooms[k].maintenanceUntil
  {
    if seeds != [] {
      var init := seeds[..|seeds| - 1];
      SeedRoomsWritesNoDate(rooms, types, init);
    }
  }

  /** As written, a room the seed creates is left without a maintenance date. */
  lemma CreatedRoomIsUndated(rooms: seq<Room>, types: seq<RoomType>, seeds: seq<RoomSeed>, seed: RoomSeed)
    requires UniqueRoomNumbers(rooms) && DistinctRoomNumbers(seeds) && seed in seeds
    requires SeedRooms(rooms, types, seeds, false).Some?
    requires forall k :: 0 <= k < |rooms| ==> rooms[k].roomNumber != seed.roomNumber
    ensures var r := SeedRooms(rooms, types, seeds, false).value;
      exists k :: && 0 <= k < |r| && r[k].roomNumber == seed.roomNumber && r[k].status == seed.status
                  && r[k].maintenanceUntil.None?
  {
    var r := SeedRooms(rooms, types, seeds, false).value;
    SeedRoomsInstallsAll(rooms, types, seeds, false);
    SeedRoomsWritesNoDate(rooms, types, seeds);
    var k :| 0 <= k < |r| && MatchesRoomSeed(r[k], TypeIdNamed(types, seed.typeName).value, seed, false);
    SeedRoomsKeepsOthers(rooms, types, seeds, false);
  }

  /** As written, a room 302 the seed creates is under maintenance with no
      date, so it counts toward no room type's capacity for any stay. */
  lemma Room302StaysOutOfService(rooms: seq<Room>, types: seq<RoomType>)
    requires UniqueRoomNumbers(rooms) && SeedRooms(rooms, types, ROOM_SEEDS, false).Some?
    requires forall k :: 0 <= k < |rooms| ==> rooms[k].roomNumber != "302"
    ensures var r := SeedRooms(rooms, types, ROOM_SEEDS, false).value;
      exists k :: && 0 <= k < |r| && r[k].roomNumber == "302" && r[k].status == Maintenance
                  && forall roomTypeId: nat, checkIn: int :: !CountsTowardCapacity(r[k], roomTypeId, checkIn)
  {
    RoomSeedNumbersDistinct();
    var seed := ROOM_SEEDS[5];
    assert seed in ROOM_SEEDS && seed.roomNumber == "302" && seed.status == Maintenance;
    CreatedRoomIsUndated(rooms, types, ROOM_SEEDS, seed);
  }

  /** With the seed's date written, room 302 is dated 2025-11-25 and counts
      toward its room type's capacity for every stay that starts after it. */
  lemma Room302ReturnsToService(rooms: seq<Room>, types: seq<RoomType>)
    requires UniqueRoomNumbers(rooms) && SeedRooms(rooms, types, ROOM_SEEDS, true).Some?
    ensures var r := SeedRooms(rooms, types, ROOM_SEEDS, true).value;
      exists k :: && 0 <= k < |r| && r[k].roomNumber == "302" && r[k].status == Maintenance
                  && r[k].maintenanceUntil == Some(ROOM_302_BACK)
                  && forall checkIn: int :: checkIn > ROOM_302_BACK ==> CountsTowardCapacity(r[k], r[k].roomType, checkIn)
  {
    var r := SeedRooms(rooms, types, ROOM_SEEDS, true).value;
    RoomSeedNumbersDistinct();
    SeedRoomsInstallsAll(rooms, types, ROOM_SEEDS, true);
    var seed := ROOM_SEEDS[5];
    assert seed in ROOM_SEEDS;
    var k :| 0 <= k < |r| && MatchesRoomSeed(r[k], TypeIdNamed(types, seed.typeName).value, seed, true);
  }
}
