// The four tables of the lodge (web/models.py): customers, room types, rooms
// and reservations, as records held in sequences by a `Database` object.
// Dates are day numbers, timestamps are seconds, decimal prices are cents.

module Models {

  /** A nullable column or an optional value. */
  datatype Option<T> = None | Some(value: T)

  /** The `STATUS_CHOICES` of a reservation; the column defaults to Hold. */
  datatype ReservationStatus = Hold | Confirmed | Cancelled

  /** The `STATUS_CHOICES` of a room; the column defaults to Available. */
  datatype RoomStatus = Available | Occupied | Cleaning | Maintenance

  const DEFAULT_RESERVATION_STATUS: ReservationStatus := Hold

  /** The value stored in the `status` column for each reservation choice. */
  function ReservationStatusName(s: ReservationStatus): (name: string)
    ensures ParseReservationStatus(name) == Some(s)
    ensures |name| <= 10
  {
    match s
    case Hold => "Hold"
    case Confirmed => "Confirmed"
    case Cancelled => "Cancelled"
  }

  /** Reads a reservation `status` column; None for a value outside the choices. */
  function ParseReservationStatus(name: string): (s: Option<ReservationStatus>)
    ensures s.Some? <==> name == "Hold" || name == "Confirmed" || name == "Cancelled"
  {
    if name == "Hold" then Some(Hold)
    else if name == "Confirmed" then Some(Confirmed)
    else if name == "Cancelled" then Some(Cancelled)
    else None
  }

  /** The value stored in the `status` column for each room choice. */
  function RoomStatusName(s: RoomStatus): (name: string)
    ensures ParseRoomStatus(name) == Some(s)
    ensures |name| <= 12
  {
    match s
    case Available => "Available"
    case Occupied => "Occupied"
    case Cleaning => "Cleaning"
    case Maintenance => "Maintenance"
  }

  /** Reads a room `status` column; None for a value outside the choices. */
  function ParseRoomStatus(name: string): (s: Option<RoomStatus>)
    ensures s.Some? <==> name == "Available" || name == "Occupied" || name == "Cleaning" || name == "Maintenance"
  {
    if name == "Available" then Some(Available)
    else if name == "Occupied" then Some(Occupied)
    else if name == "Cleaning" then Some(Cleaning)
    else if name == "Maintenance" then Some(Maintenance)
    else None
  }

  /** The Django user account behind a customer (only the fields the views read). */
  datatype Account = Account(firstName: string, lastName: string, email: string, isStaff: bool)

  datatype Customer = Customer(
    id: nat,
    user: Account,
    phoneNumber: Option<string>,
    addressCountry: Option<string>,
    addressStreet: Option<string>,
    addressCity: Option<string>,
    addressState: Option<string>,
    addressZipcode: Option<string>)

  datatype RoomType = RoomType(
    id: nat,
    name: string,
    pricePerNight: int,   // cents
    beds: int,
    maxGuests: int,
    description: Option<string>)

  datatype Room = Room(
    id: nat,
    roomNumber: string,
    roomType: nat,                 // foreign key to RoomType.id
    status: RoomStatus,
    maintenanceUntil: Option<int>) // day number

  datatype Reservation = Reservation(
    publicId: Option<string>,      // null until migration 0006 fills it in
    customer: Option<nat>,         // foreign key to Customer.id
    guestFirstName: string,
    guestLastName: string,
    guestPhone: string,
    guestEmail: string,
    createdTime: int,
    expirationTime: Option<int>,
    status: ReservationStatus,
    startDate: int,
    endDate: int,
    roomType: Option<nat>,         // foreign key to RoomType.id
    room: Option<nat>,             // foreign key to Room.id
    totalCost: int,                // cents
    guests: nat)

  /** `DecimalField(max_digits=7, decimal_places=2)`: at most 99999.99 in magnitude. */
  const DECIMAL_7_2_LIMIT: int := 10_000_000

  predicate FitsDecimal72(cents: int) {
    -DECIMAL_7_2_LIMIT < cents < DECIMAL_7_2_LIMIT
  }

  /** `RoomType.name` is a `CharField(max_length=25)`. */
  const ROOM_TYPE_NAME_LENGTH: nat := 25

  /** `RoomType.name` is unique. */
  ghost predicate UniqueTypeNames(types: seq<RoomType>) {
    forall i, j :: 0 <= i < j < |types| ==> types[i].name != types[j].name
  }

  /** The primary keys of room types are distinct. */
  ghost predicate UniqueTypeIds(types: seq<RoomType>) {
    forall i, j :: 0 <= i < j < |types| ==> types[i].id != types[j].id
  }

  /** `Room.room_number` is unique. */
  ghost predicate UniqueRoomNumbers(rooms: seq<Room>) {
    forall i, j :: 0 <= i < j < |rooms| ==> rooms[i].roomNumber != rooms[j].roomNumber
  }

  /** The lodge's database: one sequence of rows per table. */
  class Database {
    var customers: seq<Customer>
    var roomTypes: seq<RoomType>
    var rooms: seq<Room>
    var reservations: seq<Reservation>

    /** The uniqueness constraints the schema declares. */
    ghost predicate Valid()
      reads this
    {
      UniqueTypeIds(roomTypes) && UniqueTypeNames(roomTypes) && UniqueRoomNumbers(rooms)
    }

    constructor ()
      ensures Valid()
      ensures customers == [] && roomTypes == [] && rooms == [] && reservations == []
    {
      customers, roomTypes, rooms, reservations := [], [], [], [];
    }
  }
}
