/**
 * The request validators of the ride service: the user record's field
 * checks, the driver-id and
 * licence-plate checks on autos, the slot field checks (capacity, ride time,
 * locations), the slot status transition table, the participant admission
 * re-check and the auto-queue check. All of them are side-effect free: each
 * looks at the submitted values and the stored records and either accepts or
 * names what is wrong.
 */
module Serializers {
  import opened Results
  import opened Models

  /** Why a submitted value was refused. */
  datatype ValidationError =
    | DriverNotFound                         // driver id names no user
    | MustBeDriver                           // driver id names a user who is not a driver
    | PlateRequired                          // licence plate missing or blank
    | PlateTooLong                           // licence plate over the field's length
    | PlateTaken                             // another auto already has that plate
    | MaxCapacityTooSmall                    // max capacity below one
    | RideTimeRequired                       // no ride time submitted
    | RideTimeInPast                         // ride time earlier than now
    | InvalidStartLoc                        // start location not one of the choices
    | InvalidDestLoc                         // destination not one of the choices
    | InvalidTransition(from: SlotStatus, to: SlotStatus)
    | OnlyOpenSlots                          // joining a slot that is not open
    | SlotAlreadyFull                        // joining a slot with no room left
    | FeeRequired                            // no convenience fee submitted
    | AutoRequired                           // queue row submitted without an auto
    | AutoNotFound                           // queue row naming no auto
    | OnlyAvailableAutos                     // queueing an auto that is not available

  // ---------------------------------------------------------------- users

  /** Some stored user already has this username. */
  predicate UsernameInUse(users: map<Id, User>, username: string) {
    exists u :: u in users && users[u].username == username
  }

  /** Some stored user already has this email. */
  predicate EmailInUse(users: map<Id, User>, email: string) {
    exists u :: u in users && users[u].email == email
  }

  /**
   * The field checks on a new user record, in the serializer's field order:
   * username (required, unique), email (required, unique), phone (required).
   * The first failing field is the one reported.
   */
  function ValidateUser(users: map<Id, User>, user: User): (r: Option<UserError>)
    ensures r.None? <==> && user.username != [] && user.email != [] && user.phone != []
                         && !UsernameInUse(users, user.username) && !EmailInUse(users, user.email)
    ensures r == Some(UsernameRequired) <==> user.username == []
    ensures r == Some(UsernameTaken) <==> user.username != [] && UsernameInUse(users, user.username)
    ensures r == Some(EmailRequired) <==> && user.username != [] && !UsernameInUse(users, user.username)
                                          && user.email == []
    ensures r == Some(EmailTaken) <==> && user.username != [] && !UsernameInUse(users, user.username)
                                       && user.email != [] && EmailInUse(users, user.email)
    ensures r == Some(PhoneRequired) <==> && user.username != [] && !UsernameInUse(users, user.username)
                                          && user.email != [] && !EmailInUse(users, user.email)
                                          && user.phone == []
  {
    if user.username == [] then Some(UsernameRequired)
    else if UsernameInUse(users, user.username) then Some(UsernameTaken)
    else if user.email == [] then Some(EmailRequired)
    else if EmailInUse(users, user.email) then Some(EmailTaken)
    else if user.phone == [] then Some(PhoneRequired)
    else None
  }

  // ---------------------------------------------------------------- autos

  /** The driver-id check on auto registration. */
  function ValidateDriverId(users: map<Id, User>, driverId: Id): (r: Option<ValidationError>)
    ensures r == Some(DriverNotFound) <==> driverId !in users
    ensures r == Some(MustBeDriver) <==> driverId in users && users[driverId].userType != Driver
    ensures r.None? <==> driverId in users && users[driverId].userType == Driver
  {
    if driverId !in users then Some(DriverNotFound)
    else if users[driverId].userType != Driver then Some(MustBeDriver)
    else None
  }

  /** Some stored auto already carries this licence plate. */
  predicate PlateInUse(autos: map<Id, Auto>, plate: string) {
    exists a :: a in autos && autos[a].licensePlate == plate
  }

  /** The licence-plate field: required, at most twenty characters, unique over all autos. */
  function ValidatePlate(autos: map<Id, Auto>, plate: string): (r: Option<ValidationError>)
    ensures r.None? <==> plate != [] && |plate| <= MaxPlateLength
                         && forall a :: a in autos ==> autos[a].licensePlate != plate
    ensures r == Some(PlateTaken) ==> exists a :: a in autos && autos[a].licensePlate == plate
  {
    if plate == [] then Some(PlateRequired)
    else if |plate| > MaxPlateLength then Some(PlateTooLong)
    else if PlateInUse(autos, plate) then Some(PlateTaken)
    else None
  }

  /** The auto-queue check: only an auto that is available may be queued. */
  function ValidateQueueAuto(auto: Auto): (r: Option<ValidationError>)
    ensures r.None? <==> auto.status == Available
    ensures r.Some? ==> r.value == OnlyAvailableAutos
  {
    if auto.status != Available then Some(OnlyAvailableAutos) else None
  }

  // ---------------------------------------------------------------- slots

  /** The ride-time check: a time strictly before now is refused, now itself is accepted. */
  function ValidateRideTime(rideTime: int, now: int): (r: Option<ValidationError>)
    ensures r.None? <==> now <= rideTime
    ensures r.Some? ==> r.value == RideTimeInPast
  {
    if rideTime < now then Some(RideTimeInPast) else None
  }

  /** The slot fields that survive validation, in their stored form. */
  datatype SlotFields = SlotFields(maxCapacity: int, rideTime: int, startLoc: Location, destLoc: Location)

  /**
   * Field validation of a new slot, reporting the first failing field in
   * declaration order: max capacity, ride time, start location, destination.
   */
  function ValidateSlotFields(maxCapacity: int, rideTime: Option<int>, startLoc: string, destLoc: string, now: int)
    : (r: Result<SlotFields, ValidationError>)
    ensures r.Ok? <==> && MinMaxCapacity <= maxCapacity
                       && rideTime.Some? && now <= rideTime.value
                       && ParseLocation(startLoc).Some? && ParseLocation(destLoc).Some?
    ensures r.Ok? ==> && r.value.maxCapacity == maxCapacity && MinMaxCapacity <= r.value.maxCapacity
                      && r.value.rideTime == rideTime.value && now <= r.value.rideTime
                      && ParseLocation(startLoc) == Some(r.value.startLoc)
                      && ParseLocation(destLoc) == Some(r.value.destLoc)
    ensures maxCapacity < MinMaxCapacity ==> r == Err(MaxCapacityTooSmall)
    ensures MinMaxCapacity <= maxCapacity && rideTime.Some? && rideTime.value < now ==> r == Err(RideTimeInPast)
  {
    if maxCapacity < MinMaxCapacity then Err(MaxCapacityTooSmall)
    else if rideTime.None? then Err(RideTimeRequired)
    else if ValidateRideTime(rideTime.value, now).Some? then Err(ValidateRideTime(rideTime.value, now).value)
    else if ParseLocation(startLoc).None? then Err(InvalidStartLoc)
    else if ParseLocation(destLoc).None? then Err(InvalidDestLoc)
    else Ok(SlotFields(maxCapacity, rideTime.value, ParseLocation(startLoc).value, ParseLocation(destLoc).value))
  }

  /**
   * The transition table: the statuses each status may move to. FINALIZED has
   * no entry in the table, so it moves nowhere.
   */
  function AllowedTargets(from: SlotStatus): seq<SlotStatus> {
    match from
    case PendingDriver => [Open, SlotStatus.Cancelled]
    case Open => [SlotStatus.Booked, SlotStatus.Cancelled]
    case Booked => [SlotStatus.Cancelled]
    case Cancelled => []
    case Finalized => []
  }

  /** The lifecycle order of slot statuses, independent of the table. */
  function Stage(s: SlotStatus): nat {
    match s
    case PendingDriver => 0
    case Open => 1
    case Booked => 2
    case Cancelled => 3
    case Finalized => 4
  }

  /** A requested status change is allowed exactly when the table lists the target. */
  function TransitionAllowed(from: SlotStatus, to: SlotStatus): (ok: bool)
    ensures ok ==> from != to
    ensures ok ==> to != Finalized
    ensures ok ==> Stage(from) < Stage(to)
    ensures from == SlotStatus.Cancelled || from == Finalized ==> !ok
  {
    to in AllowedTargets(from)
  }

  /** The table lists exactly these five moves. */
  lemma TransitionTableExact(from: SlotStatus, to: SlotStatus)
    ensures TransitionAllowed(from, to) <==>
      || (from == PendingDriver && to == Open)
      || (from == PendingDriver && to == SlotStatus.Cancelled)
      || (from == Open && to == SlotStatus.Booked)
      || (from == Open && to == SlotStatus.Cancelled)
      || (from == SlotStatus.Booked && to == SlotStatus.Cancelled)
  {
  }

  /**
   * The slot validation hook: only an update of an existing slot that carries
   * a status is checked against the table; creating a slot, or an update
   * without a status, is not.
   */
  function ValidateSlotUpdate(current: Option<SlotStatus>, requested: Option<SlotStatus>): (r: Option<ValidationError>)
    ensures current.None? || requested.None? ==> r.None?
    ensures current.Some? && requested.Some? ==>
              (r.None? <==> TransitionAllowed(current.value, requested.value))
    ensures r.Some? ==> current.Some? && requested.Some?
                        && r.value == InvalidTransition(current.value, requested.value)
  {
    if current.Some? && requested.Some? && !TransitionAllowed(current.value, requested.value)
    then Some(InvalidTransition(current.value, requested.value))
    else None
  }

  /** A run of statuses a slot can go through: created PENDING_DRIVER, each step allowed by the table. */
  ghost predicate IsLifecycle(run: seq<SlotStatus>) {
    && |run| >= 1
    && run[0] == DefaultSlotStatus
    && forall i :: 0 <= i < |run| - 1 ==> TransitionAllowed(run[i], run[i + 1])
  }

  lemma {:induction false} StagesIncrease(run: seq<SlotStatus>, i: nat, j: nat)
    requires IsLifecycle(run)
    requires i <= j < |run|
    ensures Stage(run[i]) + (j - i) <= Stage(run[j])
    decreases j - i
  {
    if i < j {
      StagesIncrease(run, i, j - 1);
      assert TransitionAllowed(run[j - 1], run[j]);
    }
  }

  /**
   * Every lifecycle is short and never repeats a status: at most three
   * changes, and FINALIZED is never reached.
   */
  lemma {:induction false} LifecycleBounded(run: seq<SlotStatus>)
    requires IsLifecycle(run)
    ensures |run| <= 4
    ensures Finalized !in run
    ensures forall i, j :: 0 <= i < j < |run| ==> run[i] != run[j]
  {
    forall k | 0 <= k < |run|
      ensures run[k] != Finalized
    {
      if k > 0 {
        assert TransitionAllowed(run[k - 1], run[k]);
      }
    }
    var last := |run| - 1;
    StagesIncrease(run, 0, last);
    assert run[last] != Finalized;
    forall i, j | 0 <= i < j < |run|
      ensures run[i] != run[j]
    {
      StagesIncrease(run, i, j);
    }
  }

  // ---------------------------------------------------------------- participants

  /**
   * The participant re-check, run with the target slot in context: the slot
   * must be open and have room. Without a slot in context nothing is checked.
   */
  function ValidateParticipant(slot: Option<Slot>): (r: Option<ValidationError>)
    ensures r.None? <==> slot.None? || (slot.value.status == Open && slot.value.currentCapacity < slot.value.maxCapacity)
    ensures r == Some(OnlyOpenSlots) <==> slot.Some? && slot.value.status != Open
    ensures r == Some(SlotAlreadyFull) <==> slot.Some? && slot.value.status == Open
                                            && slot.value.currentCapacity >= slot.value.maxCapacity
  {
    if slot.None? then None
    else if slot.value.status != Open then Some(OnlyOpenSlots)
    else if slot.value.currentCapacity >= slot.value.maxCapacity then Some(SlotAlreadyFull)
    else None
  }
}
