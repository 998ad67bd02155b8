/**
 * The request handlers of the ride service over one in-memory store: auto
 * registration, queueing an auto, slot creation from the auto queue, driver
 * acceptance of a slot and a rider joining a slot. Each handler is one
 * indivisible step that either returns a typed error and leaves the store as
 * it was, or changes exactly the records it names.
 */
module Views {
  import opened Results
  import opened Models
  import opened Serializers

  /** Why a request was refused. */
  datatype ApiError =
    | NoAutosInQueue                        // slot creation with an empty auto queue
    | CreatorIdRequired                     // slot creation without a creator id
    | InvalidCreatorId                      // creator id names no user
    | DriverLookupFailed                    // auto registration without a driver id
    | SlotNotFound
    | OnlyPendingAccepted                   // accepting a slot that is not PENDING_DRIVER
    | SlotNotOpen
    | SlotFull
    | UserNotFound
    | MustBeCustomer
    | AlreadyJoined                         // a participant row for (slot, user) exists
    | CreatorCannotJoin
    | TimeClash                             // the user is in another live slot at that time
    | Invalid(reason: ValidationError)      // refused by a validator
    | UserRejected(cause: UserError)

  // ---------------------------------------------------------------- the auto queue

  /**
   * The queue row that slot creation takes: the one with the latest creation
   * time (the first such row in table order when several share it).
   */
  function LatestIndex(q: seq<QueueEntry>): (i: nat)
    requires |q| > 0
    ensures i < |q|
    ensures forall k :: 0 <= k < |q| ==> q[k].createdAt <= q[i].createdAt
    ensures forall k :: 0 <= k < i ==> q[k].createdAt < q[i].createdAt
    decreases |q|
  {
    if |q| == 1 then 0
    else
      var j := LatestIndex(q[..|q| - 1]);
      if q[|q| - 1].createdAt > q[j].createdAt then |q| - 1 else j
  }

  /** The queue without its row at index i, all other rows kept in order. */
  function RemoveAt(q: seq<QueueEntry>, i: nat): (r: seq<QueueEntry>)
    requires i < |q|
    ensures |r| == |q| - 1
    ensures forall k :: 0 <= k < i ==> r[k] == q[k]
    ensures forall k :: i <= k < |r| ==> r[k] == q[k + 1]
  {
    q[..i] + q[i + 1..]
  }

  // ---------------------------------------------------------------- store invariants

  /** Every key was handed out by a counter that now stands at next. */
  ghost predicate KeysBelow(keys: set<Id>, next: Id) {
    && 1 <= next
    && forall k :: k in keys ==> 1 <= k < next
  }

  /** Every queue row names a stored auto and has an id below the queue counter. */
  ghost predicate QueueIntact(queue: seq<QueueEntry>, autoIds: set<Id>, next: Id) {
    && 1 <= next
    && forall i :: 0 <= i < |queue| ==> 1 <= queue[i].id < next && queue[i].auto in autoIds
  }

  /** Every auto's driver is a stored user. */
  ghost predicate AutosIntact(autos: map<Id, Auto>, userIds: set<Id>) {
    forall a :: a in autos ==> autos[a].driver in userIds
  }

  /** Every slot's auto and creator are stored. */
  ghost predicate SlotsIntact(slots: map<Id, Slot>, autoIds: set<Id>, userIds: set<Id>) {
    forall s :: s in slots ==> slots[s].auto in autoIds && slots[s].creator in userIds
  }

  /** Every participant row's slot and user are stored. */
  ghost predicate RowsIntact(ps: map<Id, SlotParticipant>, slotIds: set<Id>, userIds: set<Id>) {
    forall p :: p in ps ==> ps[p].slot in slotIds && ps[p].user in userIds
  }

  /** References stay intact when the sets of stored ids only grow. */
  lemma IntactGrows(autos: map<Id, Auto>, slots: map<Id, Slot>, ps: map<Id, SlotParticipant>,
                    autoIds: set<Id>, slotIds: set<Id>, userIds: set<Id>,
                    autoIds': set<Id>, slotIds': set<Id>, userIds': set<Id>)
    requires autoIds <= autoIds' && slotIds <= slotIds' && userIds <= userIds'
    requires AutosIntact(autos, userIds) && SlotsIntact(slots, autoIds, userIds) && RowsIntact(ps, slotIds, userIds)
    ensures AutosIntact(autos, userIds') && SlotsIntact(slots, autoIds', userIds') && RowsIntact(ps, slotIds', userIds')
  {
  }

  lemma QueueAppendIntact(queue: seq<QueueEntry>, autoIds: set<Id>, autoIds': set<Id>, next: Id, e: QueueEntry)
    requires QueueIntact(queue, autoIds, next) && autoIds <= autoIds'
    requires e.id == next && e.auto in autoIds'
    ensures QueueIntact(queue + [e], autoIds', next + 1)
  {
  }

  lemma QueueRemoveIntact(queue: seq<QueueEntry>, autoIds: set<Id>, next: Id, i: nat)
    requires QueueIntact(queue, autoIds, next) && i < |queue|
    ensures QueueIntact(RemoveAt(queue, i), autoIds, next)
  {
  }

  /** Usernames and emails are unique over all users. */
  ghost predicate AccountsUnique(users: map<Id, User>) {
    forall u, v :: u in users && v in users && u != v ==>
      users[u].username != users[v].username && users[u].email != users[v].email
  }

  /** Licence plates are unique over all autos. */
  ghost predicate PlatesUnique(autos: map<Id, Auto>) {
    forall a, b :: a in autos && b in autos && a != b ==> autos[a].licensePlate != autos[b].licensePlate
  }

  /** A slot that is open or still waiting for its driver. */
  predicate Live(s: SlotStatus) {
    s == Open || s == PendingDriver
  }

  /** A participant row for this slot and user exists, whatever its status. */
  predicate HasRow(ps: map<Id, SlotParticipant>, slotId: Id, userId: Id) {
    exists p :: p in ps && ps[p].slot == slotId && ps[p].user == userId
  }

  /** The user has a participant row, of any status, in a live slot at this ride time. */
  predicate HasClash(slots: map<Id, Slot>, ps: map<Id, SlotParticipant>, userId: Id, rideTime: int) {
    exists p :: p in ps && ps[p].user == userId && ps[p].slot in slots
                && slots[ps[p].slot].rideTime == rideTime && Live(slots[ps[p].slot].status)
  }

  /** The participant rows of one slot. */
  function RowsOf(ps: map<Id, SlotParticipant>, slotId: Id): set<Id> {
    set p | p in ps && ps[p].slot == slotId
  }

  /** No two participant rows pair the same slot with the same user. */
  ghost predicate OneRowPerPair(ps: map<Id, SlotParticipant>) {
    forall p, q :: p in ps && q in ps && p != q ==> ps[p].slot != ps[q].slot || ps[p].user != ps[q].user
  }

  /** No slot's creator holds a participant row in that slot. */
  ghost predicate CreatorNeverJoins(slots: map<Id, Slot>, ps: map<Id, SlotParticipant>) {
    forall p :: p in ps && ps[p].slot in slots ==> ps[p].user != slots[ps[p].slot].creator
  }

  /** No user holds rows in two live slots with the same ride time. */
  ghost predicate NoTimeClash(slots: map<Id, Slot>, ps: map<Id, SlotParticipant>) {
    forall p, q :: p in ps && q in ps && p != q && ps[p].user == ps[q].user
                   && ps[p].slot in slots && ps[q].slot in slots
                   && Live(slots[ps[p].slot].status) && Live(slots[ps[q].slot].status)
                   ==> slots[ps[p].slot].rideTime != slots[ps[q].slot].rideTime
  }

  /** Every slot counts its creator plus one per participant row, and never exceeds its maximum. */
  ghost predicate CapacityCounts(slots: map<Id, Slot>, ps: map<Id, SlotParticipant>) {
    forall s :: s in slots ==>
      && slots[s].currentCapacity == 1 + |RowsOf(ps, s)|
      && slots[s].currentCapacity <= slots[s].maxCapacity
  }

  /** The invariants about participant rows. */
  ghost predicate RowInvariants(slots: map<Id, Slot>, ps: map<Id, SlotParticipant>) {
    CapacityCounts(slots, ps) && OneRowPerPair(ps) && CreatorNeverJoins(slots, ps) && NoTimeClash(slots, ps)
  }

  lemma RowsOfInsert(ps: map<Id, SlotParticipant>, pid: Id, row: SlotParticipant, slotId: Id)
    requires pid !in ps
    ensures RowsOf(ps[pid := row], slotId) == if row.slot == slotId then RowsOf(ps, slotId) + {pid} else RowsOf(ps, slotId)
  {
  }

  lemma RowsOfAbsent(ps: map<Id, SlotParticipant>, slots: map<Id, Slot>, slotId: Id)
    requires forall p :: p in ps ==> ps[p].slot in slots
    requires slotId !in slots
    ensures RowsOf(ps, slotId) == {}
  {
    forall p | p in ps
      ensures p !in RowsOf(ps, slotId)
    {
      assert ps[p].slot in slots;
    }
  }

  /**
   * slots' keeps every stored slot, and with it everything the participant
   * invariants read: creator, ride time, capacities and whether it is live.
   */
  ghost predicate KeepsRowFacts(slots: map<Id, Slot>, slots': map<Id, Slot>) {
    forall s :: s in slots ==>
      && s in slots'
      && slots'[s].creator == slots[s].creator
      && slots'[s].rideTime == slots[s].rideTime
      && slots'[s].currentCapacity == slots[s].currentCapacity
      && slots'[s].maxCapacity == slots[s].maxCapacity
      && Live(slots'[s].status) == Live(slots[s].status)
  }

  /**
   * Adding fresh slots with a count of one, and changing stored slots only in
   * ways the participant rows cannot see, keeps the participant invariants.
   */
  lemma SlotChangeKeepsRows(slots: map<Id, Slot>, slots': map<Id, Slot>, ps: map<Id, SlotParticipant>)
    requires forall p :: p in ps ==> ps[p].slot in slots
    requires KeepsRowFacts(slots, slots')
    requires forall s :: s in slots' && s !in slots ==> slots'[s].currentCapacity == 1 <= slots'[s].maxCapacity
    requires RowInvariants(slots, ps)
    ensures RowInvariants(slots', ps)
  {
    forall s | s in slots' && s !in slots
      ensures slots'[s].currentCapacity == 1 + |RowsOf(ps, s)|
    {
      RowsOfAbsent(ps, slots, s);
    }
  }

  /**
   * A join that passed the admission checks keeps every participant
   * invariant: counts match rows and stay within the maximum, one row per
   * (slot, user), creators never join, no ride-time clash.
   */
  lemma JoinKeepsRows(slots: map<Id, Slot>, ps: map<Id, SlotParticipant>, id: Id, row: SlotParticipant)
    requires forall p :: p in ps ==> ps[p].slot in slots
    requires RowInvariants(slots, ps)
    requires id !in ps && row.slot in slots
    requires slots[row.slot].currentCapacity < slots[row.slot].maxCapacity
    requires Live(slots[row.slot].status)
    requires !HasRow(ps, row.slot, row.user)
    requires row.user != slots[row.slot].creator
    requires !HasClash(slots, ps, row.user, slots[row.slot].rideTime)
    ensures var slots' := slots[row.slot := slots[row.slot].(currentCapacity := slots[row.slot].currentCapacity + 1)];
            var ps' := ps[id := row];
            RowInvariants(slots', ps')
  {
    var slots' := slots[row.slot := slots[row.slot].(currentCapacity := slots[row.slot].currentCapacity + 1)];
    var ps' := ps[id := row];
    forall s | s in slots'
      ensures slots'[s].currentCapacity == 1 + |RowsOf(ps', s)| && slots'[s].currentCapacity <= slots'[s].maxCapacity
    {
      RowsOfInsert(ps, id, row, s);
    }
    forall p, q | p in ps' && q in ps' && p != q
      ensures ps'[p].slot != ps'[q].slot || ps'[p].user != ps'[q].user
    {
      if p == id {
        assert !(q in ps && ps[q].slot == row.slot && ps[q].user == row.user);
      } else if q == id {
        assert !(p in ps && ps[p].slot == row.slot && ps[p].user == row.user);
      }
    }
    forall p, q | p in ps' && q in ps' && p != q && ps'[p].user == ps'[q].user
                  && ps'[p].slot in slots' && ps'[q].slot in slots'
                  && Live(slots'[ps'[p].slot].status) && Live(slots'[ps'[q].slot].status)
      ensures slots'[ps'[p].slot].rideTime != slots'[ps'[q].slot].rideTime
    {
      if p == id {
        assert q in ps && ps[q].user == row.user && ps[q].slot in slots && Live(slots[ps[q].slot].status);
      } else if q == id {
        assert p in ps && ps[p].user == row.user && ps[p].slot in slots && Live(slots[ps[p].slot].status);
      }
    }
  }

  /** A fresh auto with an unused plate keeps the plates unique. */
  lemma NewAutoKeepsPlates(autos: map<Id, Auto>, id: Id, auto: Auto)
    requires id !in autos && PlatesUnique(autos)
    requires forall a :: a in autos ==> autos[a].licensePlate != auto.licensePlate
    ensures PlatesUnique(autos[id := auto])
  {
  }

  /** Changing one auto's status keeps the plates unique. */
  lemma StatusChangeKeepsPlates(autos: map<Id, Auto>, a: Id, status: AutoStatus)
    requires a in autos && PlatesUnique(autos)
    ensures PlatesUnique(autos[a := autos[a].(status := status)])
  {
  }

  // ---------------------------------------------------------------- the handlers' decisions

  /** A request that names no creator: the id is absent or zero. */
  predicate CreatorMissing(creatorId: Option<Id>) {
    creatorId.None? || creatorId.value == 0
  }

  /** Request-level defaults of slot creation. */
  const RequestMaxCapacity: int := 4
  const RequestFare: int := 100

  /** A slot-creation request; absent fields fall back to the request-level defaults. */
  datatype SlotRequest = SlotRequest(
    creatorId: Option<Id>,
    maxCapacity: Option<int>,
    fare: Option<int>,
    rideTime: Option<int>,
    startLoc: Option<string>,
    destLoc: Option<string>)

  function OrElse<T>(o: Option<T>, default: T): T {
    if o.Some? then o.value else default
  }

  function RequestFields(req: SlotRequest, now: int): Result<SlotFields, ValidationError> {
    ValidateSlotFields(OrElse(req.maxCapacity, RequestMaxCapacity), req.rideTime,
                       OrElse(req.startLoc, LocationCode(DefaultStartLoc)),
                       OrElse(req.destLoc, LocationCode(DefaultDestLoc)), now)
  }

  /** Why slot creation refuses a request, checked in the handler's order; None when it goes ahead. */
  function CreateRejection(users: map<Id, User>, queue: seq<QueueEntry>, req: SlotRequest, now: int): Option<ApiError> {
    if |queue| == 0 then Some(NoAutosInQueue)
    else if CreatorMissing(req.creatorId) then Some(CreatorIdRequired)
    else if req.creatorId.value !in users then Some(InvalidCreatorId)
    else if RequestFields(req, now).Err? then Some(Invalid(RequestFields(req, now).error))
    else None
  }

  /** Why joining refuses a request, checked in the handler's order; None when it goes ahead. */
  function JoinRejection(slots: map<Id, Slot>, users: map<Id, User>, ps: map<Id, SlotParticipant>,
                         slotId: Id, userId: Option<Id>, fee: Option<int>): Option<ApiError>
  {
    if slotId !in slots then Some(SlotNotFound)
    else if slots[slotId].status != Open then Some(SlotNotOpen)
    else if slots[slotId].currentCapacity >= slots[slotId].maxCapacity then Some(SlotFull)
    else if userId.None? || userId.value !in users then Some(UserNotFound)
    else if users[userId.value].userType != Customer then Some(MustBeCustomer)
    else if HasRow(ps, slotId, userId.value) then Some(AlreadyJoined)
    else if slots[slotId].creator == userId.value then Some(CreatorCannotJoin)
    else if HasClash(slots, ps, userId.value, slots[slotId].rideTime) then Some(TimeClash)
    else if fee.None? then Some(Invalid(FeeRequired))
    else None
  }

  /** Joining goes ahead exactly when every admission rule holds. */
  lemma JoinAdmission(slots: map<Id, Slot>, users: map<Id, User>, ps: map<Id, SlotParticipant>,
                      slotId: Id, userId: Option<Id>, fee: Option<int>)
    ensures JoinRejection(slots, users, ps, slotId, userId, fee).None? <==>
      && slotId in slots && slots[slotId].status == Open
      && slots[slotId].currentCapacity < slots[slotId].maxCapacity
      && userId.Some? && userId.value in users && users[userId.value].userType == Customer
      && (forall p :: p in ps ==> ps[p].slot != slotId || ps[p].user != userId.value)
      && slots[slotId].creator != userId.value
      && (forall p :: p in ps && ps[p].user == userId.value && ps[p].slot in slots && Live(slots[ps[p].slot].status)
                      ==> slots[ps[p].slot].rideTime != slots[slotId].rideTime)
      && fee.Some?
  {
  }

  // ---------------------------------------------------------------- the store

  class RideStore {
    var users: map<Id, User>
    var autos: map<Id, Auto>
    var slots: map<Id, Slot>
    var participants: map<Id, SlotParticipant>
    var queue: seq<QueueEntry>
    var nextUserId: Id
    var nextAutoId: Id
    var nextSlotId: Id
    var nextParticipantId: Id
    var nextQueueId: Id

    ghost predicate Valid()
      reads this
    {
      && KeysBelow(users.Keys, nextUserId)
      && KeysBelow(autos.Keys, nextAutoId)
      && KeysBelow(slots.Keys, nextSlotId)
      && KeysBelow(participants.Keys, nextParticipantId)
      && QueueIntact(queue, autos.Keys, nextQueueId)
      && AutosIntact(autos, users.Keys)
      && SlotsIntact(slots, autos.Keys, users.Keys)
      && RowsIntact(participants, slots.Keys, users.Keys)
      && AccountsUnique(users)
      && PlatesUnique(autos)
      && RowInvariants(slots, participants)
    }

    constructor ()
      ensures Valid()
      ensures users == map[] && autos == map[] && slots == map[] && participants == map[] && queue == []
    {
      users, autos, slots, participants, queue := map[], map[], map[], map[], [];
      nextUserId, nextAutoId, nextSlotId, nextParticipantId, nextQueueId := 1, 1, 1, 1, 1;
    }

    /** Adds a user account once its fields pass the record checks, in field order. */
    method CreateUser(username: string, email: string, phone: string, userType: UserType)
      returns (r: Result<Id, ApiError>)
      requires Valid()
      modifies this
      ensures Valid()
      ensures r.Err? <==> ValidateUser(old(users), User(username, email, phone, userType)).Some?
      ensures r.Err? ==> r.error == UserRejected(ValidateUser(old(users), User(username, email, phone, userType)).value)
                         && unchanged(this)
      ensures r.Ok? ==> && r.value !in old(users)
                        && users == old(users)[r.value := User(username, email, phone, userType)]
                        && autos == old(autos) && slots == old(slots)
                        && participants == old(participants) && queue == old(queue)
    {
      var user := User(username, email, phone, userType);
      var e := ValidateUser(users, user);
      if e.Some? {
        return Err(UserRejected(e.value));
      }
      var users' := users[nextUserId := user];
      var id := nextUserId;
      IntactGrows(autos, slots, participants, autos.Keys, slots.Keys, users.Keys, autos.Keys, slots.Keys, users'.Keys);
      users := users';
      nextUserId := nextUserId + 1;
      r := Ok(id);
    }

    /**
     * Registers an auto for a driver: validates the driver id and the plate,
     * then creates the auto as AVAILABLE together with one queue row for it.
     */
    method RegisterAuto(driverId: Option<Id>, plate: string, now: int) returns (r: Result<Id, ApiError>)
      requires Valid()
      modifies this
      ensures Valid()
      ensures driverId.Some? && ValidateDriverId(old(users), driverId.value).Some?
              ==> r == Err(Invalid(ValidateDriverId(old(users), driverId.value).value))
      ensures (driverId.None? || ValidateDriverId(old(users), driverId.value).None?)
              && ValidatePlate(old(autos), plate).Some?
              ==> r == Err(Invalid(ValidatePlate(old(autos), plate).value))
      ensures driverId.None? && ValidatePlate(old(autos), plate).None? ==> r == Err(DriverLookupFailed)
      ensures r.Err? ==> unchanged(this)
      ensures r.Ok? <==> && driverId.Some? && driverId.value in old(users)
                         && old(users)[driverId.value].userType == Driver
                         && ValidatePlate(old(autos), plate).None?
      ensures r.Ok? ==> && r.value !in old(autos)
                        && autos == old(autos)[r.value := Auto(driverId.value, plate, Available)]
                        && |queue| == |old(queue)| + 1 && queue[..|old(queue)|] == old(queue)
                        && queue[|old(queue)|].auto == r.value && queue[|old(queue)|].createdAt == now
                        && (forall i :: 0 <= i < |old(queue)| ==> old(queue)[i].id != queue[|old(queue)|].id)
                        && users == old(users) && slots == old(slots) && participants == old(participants)
    {
      if driverId.Some? {
        var e := ValidateDriverId(users, driverId.value);
        if e.Some? {
          return Err(Invalid(e.value));
        }
      }
      var e := ValidatePlate(autos, plate);
      if e.Some? {
        return Err(Invalid(e.value));
      }
      if driverId.None? || driverId.value !in users {
        return Err(DriverLookupFailed);
      }
      var driver := driverId.value;
      // The handler's own driver check never fires: the validator has already refused non-drivers.
      assert users[driver].userType == Driver;
      var id := nextAutoId;
      var autos' := autos[id := Auto(driver, plate, Available)];
      IntactGrows(autos, slots, participants, autos.Keys, slots.Keys, users.Keys, autos'.Keys, slots.Keys, users.Keys);
      NewAutoKeepsPlates(autos, id, Auto(driver, plate, Available));
      QueueAppendIntact(queue, autos.Keys, autos'.Keys, nextQueueId, QueueEntry(nextQueueId, id, now));
      autos := autos';
      nextAutoId := nextAutoId + 1;
      queue := queue + [QueueEntry(nextQueueId, id, now)];
      nextQueueId := nextQueueId + 1;
      r := Ok(id);
    }

    /** Adds a queue row for an existing auto; only an AVAILABLE auto may be queued. */
    method QueueAuto(autoId: Option<Id>, now: int) returns (r: Result<Id, ApiError>)
      requires Valid()
      modifies this
      ensures Valid()
      ensures autoId.Some? && autoId.value !in old(autos) ==> r == Err(Invalid(AutoNotFound))
      ensures autoId.None? ==> r == Err(Invalid(AutoRequired))
      ensures autoId.Some? && autoId.value in old(autos) && old(autos)[autoId.value].status != Available
              ==> r == Err(Invalid(OnlyAvailableAutos))
      ensures r.Err? ==> unchanged(this)
      ensures r.Ok? <==> autoId.Some? && autoId.value in old(autos) && ValidateQueueAuto(old(autos)[autoId.value]).None?
      ensures r.Ok? ==> && queue == old(queue) + [QueueEntry(r.value, autoId.value, now)]
                        && (forall i :: 0 <= i < |old(queue)| ==> old(queue)[i].id != r.value)
                        && users == old(users) && autos == old(autos)
                        && slots == old(slots) && participants == old(participants)
    {
      if autoId.Some? && autoId.value !in autos {
        return Err(Invalid(AutoNotFound));
      }
      if autoId.None? {
        return Err(Invalid(AutoRequired));
      }
      var e := ValidateQueueAuto(autos[autoId.value]);
      if e.Some? {
        return Err(Invalid(e.value));
      }
      var id := nextQueueId;
      QueueAppendIntact(queue, autos.Keys, autos.Keys, nextQueueId, QueueEntry(id, autoId.value, now));
      queue := queue + [QueueEntry(id, autoId.value, now)];
      nextQueueId := nextQueueId + 1;
      r := Ok(id);
    }

    /**
     * Creates a slot from the auto queue: takes the queue row with the latest
     * creation time, checks the creator and the slot fields, then stores a
     * PENDING_DRIVER slot on that row's auto, marks the auto QUEUED and
     * deletes that queue row only.
     */
    method CreateSlot(req: SlotRequest, now: int) returns (r: Result<Id, ApiError>)
      requires Valid()
      modifies this
      ensures Valid()
      ensures r.Err? <==> CreateRejection(old(users), old(queue), req, now).Some?
      ensures r.Err? ==> r.error == CreateRejection(old(users), old(queue), req, now).value && unchanged(this)
      ensures r.Ok? ==>
        var i := LatestIndex(old(queue));
        var a := old(queue)[i].auto;
        var f := RequestFields(req, now).value;
        && r.value !in old(slots)
        && a in old(autos)
        && slots == old(slots)[r.value := Slot(a, req.creatorId.value, f.maxCapacity, DefaultCurrentCapacity,
                                               OrElse(req.fare, RequestFare), DefaultSlotStatus, f.rideTime, now,
                                               f.startLoc, f.destLoc)]
        && autos == old(autos)[a := old(autos)[a].(status := Queued)]
        && queue == RemoveAt(old(queue), i)
        && users == old(users) && participants == old(participants)
    {
      if |queue| == 0 {
        return Err(NoAutosInQueue);
      }
      var i := LatestIndex(queue);
      var auto := queue[i].auto;
      if CreatorMissing(req.creatorId) {
        return Err(CreatorIdRequired);
      }
      var creator := req.creatorId.value;
      if creator !in users {
        return Err(InvalidCreatorId);
      }
      var fields := RequestFields(req, now);
      if fields.Err? {
        return Err(Invalid(fields.error));
      }
      // A new slot carries no status of its own to check against the table.
      assert ValidateSlotUpdate(None, Some(DefaultSlotStatus)).None?;
      var f := fields.value;
      var id := CommitSlot(i, Slot(auto, creator, f.maxCapacity, DefaultCurrentCapacity, OrElse(req.fare, RequestFare),
                                   DefaultSlotStatus, f.rideTime, now, f.startLoc, f.destLoc));
      r := Ok(id);
    }

    /**
     * The atomic part of slot creation: stores the new slot under a fresh id,
     * marks its auto QUEUED and deletes queue row i.
     */
    method CommitSlot(i: nat, slot: Slot) returns (id: Id)
      requires Valid()
      requires i < |queue| && slot.auto == queue[i].auto && slot.creator in users
      requires slot.currentCapacity == DefaultCurrentCapacity <= slot.maxCapacity
      modifies this
      ensures Valid()
      ensures id !in old(slots) && slots == old(slots)[id := slot]
      ensures slot.auto in old(autos) && autos == old(autos)[slot.auto := old(autos)[slot.auto].(status := Queued)]
      ensures queue == RemoveAt(old(queue), i)
      ensures users == old(users) && participants == old(participants)
    {
      id := nextSlotId;
      var slots' := slots[id := slot];
      SlotChangeKeepsRows(slots, slots', participants);
      StatusChangeKeepsPlates(autos, slot.auto, Queued);
      var autos' := autos[slot.auto := autos[slot.auto].(status := Queued)];
      assert autos'.Keys == autos.Keys;
      IntactGrows(autos, slots, participants, autos.Keys, slots.Keys, users.Keys, autos.Keys, slots'.Keys, users.Keys);
      QueueRemoveIntact(queue, autos.Keys, nextQueueId, i);
      slots := slots';
      nextSlotId := nextSlotId + 1;
      autos := autos[slot.auto := autos[slot.auto].(status := Queued)];
      queue := RemoveAt(queue, i);
    }

    /**
     * A driver accepts a slot: only a PENDING_DRIVER slot can be accepted; it
     * becomes OPEN and its auto BOOKED.
     */
    method AcceptSlot(slotId: Id) returns (r: Result<Id, ApiError>)
      requires Valid()
      modifies this
      ensures Valid()
      ensures slotId !in old(slots) ==> r == Err(SlotNotFound)
      ensures slotId in old(slots) && old(slots)[slotId].status != PendingDriver ==> r == Err(OnlyPendingAccepted)
      ensures r.Err? ==> unchanged(this)
      ensures r.Ok? <==> slotId in old(slots) && old(slots)[slotId].status == PendingDriver
      ensures r.Ok? ==>
        var a := old(slots)[slotId].auto;
        && r.value == slotId
        && slots == old(slots)[slotId := old(slots)[slotId].(status := Open)]
        && a in old(autos)
        && autos == old(autos)[a := old(autos)[a].(status := AutoStatus.Booked)]
        && users == old(users) && participants == old(participants) && queue == old(queue)
    {
      if slotId !in slots {
        return Err(SlotNotFound);
      }
      var slot := slots[slotId];
      if slot.status != PendingDriver {
        return Err(OnlyPendingAccepted);
      }
      // The status update goes through the transition table, which allows it.
      assert ValidateSlotUpdate(Some(slot.status), Some(Open)).None?;
      var slots' := slots[slotId := slot.(status := Open)];
      SlotChangeKeepsRows(slots, slots', participants);
      StatusChangeKeepsPlates(autos, slot.auto, AutoStatus.Booked);
      var autos' := autos[slot.auto := autos[slot.auto].(status := AutoStatus.Booked)];
      assert autos'.Keys == autos.Keys && slots'.Keys == slots.Keys;
      slots := slots';
      autos := autos[slot.auto := autos[slot.auto].(status := AutoStatus.Booked)];
      r := Ok(slotId);
    }

    /**
     * A user joins a slot: the ordered admission checks of JoinRejection,
     * then one JOINED, unpaid participant row and the slot's count raised by one.
     */
    method JoinSlot(slotId: Id, userId: Option<Id>, fee: Option<int>, now: int) returns (r: Result<Id, ApiError>)
      requires Valid()
      modifies this
      ensures Valid()
      ensures r.Err? <==> JoinRejection(old(slots), old(users), old(participants), slotId, userId, fee).Some?
      ensures r.Err? ==> r.error == JoinRejection(old(slots), old(users), old(participants), slotId, userId, fee).value
                         && unchanged(this)
      ensures r.Ok? ==>
        && slotId in old(slots) && userId.Some? && fee.Some?
        && r.value !in old(participants)
        && participants == old(participants)[r.value := SlotParticipant(slotId, userId.value, Joined, fee.value,
                                                                        DefaultPaid, now)]
        && slots == old(slots)[slotId := old(slots)[slotId].(currentCapacity := old(slots)[slotId].currentCapacity + 1)]
        && slots[slotId].currentCapacity <= slots[slotId].maxCapacity
        && users == old(users) && autos == old(autos) && queue == old(queue)
    {
      if slotId !in slots {
        return Err(SlotNotFound);
      }
      var slot := slots[slotId];
      if slot.status != Open {
        return Err(SlotNotOpen);
      }
      if slot.currentCapacity >= slot.maxCapacity {
        return Err(SlotFull);
      }
      if userId.None? || userId.value !in users {
        return Err(UserNotFound);
      }
      var user := userId.value;
      if users[user].userType != Customer {
        return Err(MustBeCustomer);
      }
      if HasRow(participants, slotId, user) {
        return Err(AlreadyJoined);
      }
      if slot.creator == user {
        return Err(CreatorCannotJoin);
      }
      if HasClash(slots, participants, user, slot.rideTime) {
        return Err(TimeClash);
      }
      if fee.None? {
        return Err(Invalid(FeeRequired));
      }
      // The serializer's own open-and-not-full check never fires here.
      assert ValidateParticipant(Some(slot)).None?;
      var id := nextParticipantId;
      var row := SlotParticipant(slotId, user, Joined, fee.value, DefaultPaid, now);
      JoinKeepsRows(slots, participants, id, row);
      var slots' := slots[slotId := slot.(currentCapacity := slot.currentCapacity + 1)];
      var participants' := participants[id := row];
      assert slots'.Keys == slots.Keys;
      participants := participants';
      nextParticipantId := nextParticipantId + 1;
      slots := slots';
      r := Ok(id);
    }
  }
}
