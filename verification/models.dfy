/**
 * The records of the ride service as the relational store keeps them: users,
 * autos (vehicles), ride slots, slot participants and auto-queue rows, with
 * their status and location enumerations, field defaults and the stored
 * string codes of the enumerations that requests carry.
 */
module Models {
  import opened Results

  /** Primary keys of every table. The store hands them out from 1 upwards. */
  type Id = int

  datatype UserType = Customer | Driver | Admin

  datatype AutoStatus = Available | Booked | Queued

  datatype SlotStatus = PendingDriver | Open | Booked | Cancelled | Finalized

  datatype ParticipantStatus = Joined | Removed | Cancelled

  datatype Location = IITJ | NIFTJ | Paota | Ratanada | Sardarpura

  datatype User = User(username: string, email: string, phone: string, userType: UserType)

  datatype Auto = Auto(driver: Id, licensePlate: string, status: AutoStatus)

  /** Money (fare, fees) is kept as an integer amount; timestamps are integers. */
  datatype Slot = Slot(
    auto: Id,
    creator: Id,
    maxCapacity: int,
    currentCapacity: int,
    fare: int,
    status: SlotStatus,
    rideTime: int,
    createdAt: int,
    startLoc: Location,
    destLoc: Location)

  datatype SlotParticipant = SlotParticipant(
    slot: Id,
    user: Id,
    status: ParticipantStatus,
    convenienceFee: int,
    paid: bool,
    joinedAt: int)

  /** One row of the auto queue, stamped with its insertion time. */
  datatype QueueEntry = QueueEntry(id: Id, auto: Id, createdAt: int)

  // Field defaults and bounds of the record definitions.
  const DefaultSlotStatus: SlotStatus := PendingDriver
  const DefaultCurrentCapacity: int := 1
  const MinMaxCapacity: int := 1
  const DefaultStartLoc: Location := IITJ
  const DefaultDestLoc: Location := Paota
  const DefaultPaid: bool := false
  const MaxPlateLength: nat := 20

  /** The string a slot status is stored and requested as. */
  function SlotStatusCode(s: SlotStatus): string {
    match s
    case PendingDriver => "PENDING_DRIVER"
    case Open => "OPEN"
    case Booked => "BOOKED"
    case Cancelled => "CANCELLED"
    case Finalized => "FINALIZED"
  }

  /**
   * Reads a slot status from its stored string; a string outside the five
   * choices is refused. No handler of the model receives a status as a
   * string: this pair, with its round-trip lemma, stands for the choices list
   * itself.
   */
  function ParseSlotStatus(code: string): (r: Option<SlotStatus>)
    ensures r.Some? ==> SlotStatusCode(r.value) == code
  {
    if code == "PENDING_DRIVER" then Some(PendingDriver)
    else if code == "OPEN" then Some(Open)
    else if code == "BOOKED" then Some(SlotStatus.Booked)
    else if code == "CANCELLED" then Some(SlotStatus.Cancelled)
    else if code == "FINALIZED" then Some(Finalized)
    else None
  }

  /** Every slot status reads back from its stored string, so no two statuses share one. */
  lemma SlotStatusRoundTrip(s: SlotStatus)
    ensures ParseSlotStatus(SlotStatusCode(s)) == Some(s)
  {
  }

  /** The string a location is stored and requested as. */
  function LocationCode(l: Location): string {
    match l
    case IITJ => "IITJ"
    case NIFTJ => "NIFTJ"
    case Paota => "Paota"
    case Ratanada => "Ratanada"
    case Sardarpura => "Sardarpura"
  }

  /** Reads a requested location; a string outside the five choices is refused. */
  function ParseLocation(code: string): (r: Option<Location>)
    ensures r.Some? ==> LocationCode(r.value) == code
  {
    if code == "IITJ" then Some(IITJ)
    else if code == "NIFTJ" then Some(NIFTJ)
    else if code == "Paota" then Some(Paota)
    else if code == "Ratanada" then Some(Ratanada)
    else if code == "Sardarpura" then Some(Sardarpura)
    else None
  }

  /** Every location reads back from its stored string, so no two locations share one. */
  lemma LocationRoundTrip(l: Location)
    ensures ParseLocation(LocationCode(l)) == Some(l)
  {
  }

  /** Why a new user record is refused, one case per failing field check. */
  datatype UserError = UsernameRequired | UsernameTaken | EmailRequired | EmailTaken | PhoneRequired
}
