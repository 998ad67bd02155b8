/**
 * Client-side walk-throughs of the ride service, proved from the handlers'
 * contracts alone.
 */
module Scenarios {
  import opened Results
  import opened Models
  import opened Serializers
  import opened Views

  /**
   * From an empty store: a driver registers an auto, a rider creates a
   * two-seat slot an hour ahead, which takes that auto off the queue; a
   * second creation finds the queue empty.
   */
  method FirstSlot(now: int) returns (store: RideStore, slotId: Id)
    ensures store.Valid()
    ensures slotId in store.slots && store.slots[slotId].status == PendingDriver
    ensures store.slots[slotId].currentCapacity == 1 && store.slots[slotId].maxCapacity == 2
  {
    store := new RideStore();
    var d := store.CreateUser("driver", "d@example.com", "1", Driver);
    var c := store.CreateUser("creator", "c@example.com", "2", Customer);
    assert d.Ok? && c.Ok?;

    var a := store.RegisterAuto(Some(d.value), "RJ19", now);
    assert a.Ok? && |store.queue| == 1 && store.autos[a.value].status == Available;
    assert LatestIndex(store.queue) == 0;

    var req := SlotRequest(Some(c.value), Some(2), None, Some(now + 3600), None, None);
    assert c.value in store.users && !CreatorMissing(req.creatorId);
    assert RequestFields(req, now).Ok?;
    var s := store.CreateSlot(req, now);
    assert s.Ok?;
    assert store.autos[a.value].status == Queued && store.queue == [];
    var again := store.CreateSlot(req, now);
    assert again == Err(NoAutosInQueue);
    slotId := s.value;
  }

  /** Accepting succeeds once: the slot is then OPEN and a second accept is refused. */
  method AcceptIsOneShot(store: RideStore, slotId: Id) returns (first: Result<Id, ApiError>, second: Result<Id, ApiError>)
    requires store.Valid() && slotId in store.slots && store.slots[slotId].status == PendingDriver
    modifies store
    ensures first.Ok? && second == Err(OnlyPendingAccepted)
    ensures store.Valid() && slotId in store.slots && store.slots[slotId].status == Open
    ensures store.autos[store.slots[slotId].auto].status == AutoStatus.Booked
  {
    first := store.AcceptSlot(slotId);
    second := store.AcceptSlot(slotId);
  }

  /** Taking the last seat: the admitted rider fills the slot, whoever comes next is told it is full. */
  method LastSeat(store: RideStore, slotId: Id, rider: Id, next: Option<Id>, fee: int, now: int)
    returns (j1: Result<Id, ApiError>, j2: Result<Id, ApiError>)
    requires store.Valid() && slotId in store.slots
    requires store.slots[slotId].currentCapacity + 1 == store.slots[slotId].maxCapacity
    requires JoinRejection(store.slots, store.users, store.participants, slotId, Some(rider), Some(fee)).None?
    modifies store
    ensures j1.Ok? && j2 == Err(SlotFull)
    ensures slotId in store.slots && store.slots[slotId].currentCapacity == store.slots[slotId].maxCapacity
  {
    j1 := store.JoinSlot(slotId, Some(rider), Some(fee), now);
    j2 := store.JoinSlot(slotId, next, Some(fee), now);
  }

  /** A slot's creator is refused, whatever else holds, once the slot is open and has room. */
  method CreatorRefused(store: RideStore, slotId: Id, fee: int, now: int) returns (r: Result<Id, ApiError>)
    requires store.Valid() && slotId in store.slots
    requires store.slots[slotId].status == Open
    requires store.slots[slotId].currentCapacity < store.slots[slotId].maxCapacity
    requires store.users[store.slots[slotId].creator].userType == Customer
    modifies store
    ensures r == Err(CreatorCannotJoin)
  {
    var creator := store.slots[slotId].creator;
    // The creator never holds a row in the slot, so the duplicate check passes.
    assert !HasRow(store.participants, slotId, creator);
    r := store.JoinSlot(slotId, Some(creator), Some(fee), now);
  }

  /**
   * A rider already in open slot A is refused from open slot B at the same
   * ride time, all earlier checks passing.
   */
  method SameTimeRefused(store: RideStore, a: Id, b: Id, p: Id, fee: int, now: int) returns (r: Result<Id, ApiError>)
    requires store.Valid() && a in store.slots && b in store.slots && p in store.participants
    requires store.participants[p].slot == a && store.slots[a].status == Open
    requires store.slots[b].status == Open && store.slots[b].rideTime == store.slots[a].rideTime
    requires store.slots[b].currentCapacity < store.slots[b].maxCapacity
    requires store.users[store.participants[p].user].userType == Customer
    requires !HasRow(store.participants, b, store.participants[p].user)
    requires store.slots[b].creator != store.participants[p].user
    modifies store
    ensures r == Err(TimeClash)
  {
    var rider := store.participants[p].user;
    r := store.JoinSlot(b, Some(rider), Some(fee), now);
  }

  /**
   * A registered auto stays AVAILABLE while it waits in the queue, so the
   * queue check admits it a second time: one auto, two queue rows.
   */
  method AutoQueuedTwice(now: int) returns (store: RideStore, autoId: Id)
    ensures store.Valid() && autoId in store.autos && store.autos[autoId].status == Available
    ensures |store.queue| == 2 && store.queue[0].auto == store.queue[1].auto == autoId
  {
    store := new RideStore();
    var d := store.CreateUser("driver", "d@example.com", "1", Driver);
    assert d.Ok?;
    var a := store.RegisterAuto(Some(d.value), "RJ19", now);
    assert a.Ok?;
    var q := store.QueueAuto(Some(a.value), now + 1);
    assert q.Ok?;
    autoId := a.value;
  }
}
