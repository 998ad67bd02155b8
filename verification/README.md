# Ride-slot lifecycle engine of the Urban Ride backend, in Dafny

This project models the core of the Urban Ride server, a shared-ride booking
backend. Drivers register autos, and each auto goes into an auto queue. A rider
creates a ride slot, which takes an auto off the queue. The auto's driver
accepts the slot. Other riders then join it while it is open and has seats.

The model is one in-memory store, `Views.RideStore`. It holds maps of users,
autos, slots and slot participants, plus the auto queue. The queue is a
sequence of rows in table order, each with a creation time. Each request
handler is one method of the store. The method either returns a typed error
and leaves the store unchanged, or changes exactly the records that the
handler changes. The store invariant `Valid()` holds before and after every
handler:

- references between records are intact;
- licence plates are unique, and so are usernames and emails;
- a slot's `current_capacity` is 1 (its creator) plus its number of
  participant rows, and never exceeds `max_capacity`;
- there is at most one participant row per (slot, user) pair;
- a slot's creator never has a participant row in that slot;
- no user has rows in two live slots (OPEN or PENDING_DRIVER) with the same
  ride time.

Files:

- `results.dfy`: `Option` and `Result`.
- `models.dfy`: the record shapes, status and location enumerations, field
  defaults and the stored string codes (`urban_ride/api/models.py`).
- `serializers.dfy`: the validators as pure functions. These are the user
  record, driver-id, plate, ride-time, slot-field, participant and queue checks, plus
  the slot status transition table. The lemma `LifecycleBounded` proves that
  a slot changes status at most three times, never repeats a status, and never
  reaches FINALIZED (`urban_ride/api/serializers.py`).
- `views.dfy`: the store and its handlers (`urban_ride/api/views.py`).
  `CreateRejection` and `JoinRejection` are the handlers' ordered rejection
  chains, written as functions. The handler methods are proved against them.
- `scenarios.dfy`: client walk-throughs proved only from the handlers'
  contracts. They cover creating a slot from a one-auto queue, accepting
  twice, taking the last seat, a creator trying to join, a ride-time clash,
  and one auto queued twice.

Inputs that the source takes from its environment become parameters:

- the current time is an integer `now`;
- money (fare, convenience fee) is an integer;
- request fields that may be absent are `Option`s.

Some of the code's behaviour is easy to misread. The model follows the
code:

- **Queue order.** Slot creation takes the queue row with the latest
  `created_at` (`views.py:68`), not the oldest. When several rows share the
  latest time, the model takes the first of them in table order. The store
  itself leaves this order unspecified.
- **Auto status while queued.** Registering an auto leaves it AVAILABLE while
  it is queued. The auto becomes QUEUED only when a slot takes it, and BOOKED
  on accept.
- **One auto, several queue rows.** The queue check only requires AVAILABLE,
  so an auto can be queued more than once (`Scenarios.AutoQueuedTwice`). A
  queue row refers to its auto through a plain foreign key, not a one-to-one
  link (`models.py:107`), so nothing stops a second row, and the model has no
  "an auto appears in the queue at most once" invariant.
- **Ride time equal to now.** Such a ride time is accepted. Only a time
  strictly before now is refused.
- **Participant rows of any status count.** The duplicate-join check and the
  ride-time clash check count participant rows of any status, not only
  "active" ones.
- **Creator role.** Slot creation checks only that the creator exists, not
  their role.
- **Cancel and finalize.** No handler cancels or finalizes a slot. The
  transition table is consulted only by the slot update hook
  (`ValidateSlotUpdate`). FINALIZED has no entry in the table, so nothing
  moves to it or out of it.
- **User creation.** `CustomUserManager` (`models.py:7-15`) is never
  attached to `User`: the class declares no `objects` manager, so its
  empty-email check never runs. Users are created through `UserSerializer`
  (`serializers.py:6-18`). It refuses a blank username, email or phone, and a
  username or email already in use, through the record's field definitions
  (`models.py:26-29`). `ValidateUser` checks these fields in the serializer's
  field order.
- **Atomic handlers.** Each handler is one atomic step, so no two requests
  interleave and no commit conflict can be observed.

## Model

| member | source | states |
|---|---|---|
| `Models.ParseSlotStatus` | urban_ride/api/models.py:59-65 | a requested status string is read as one of the five slot statuses, and only a string that is that status's stored code |
| `Models.SlotStatusRoundTrip` | urban_ride/api/models.py:59-65 | every slot status reads back from its stored code, so the five codes are distinct |
| `Models.ParseLocation` | urban_ride/api/models.py:67-73 | a requested location string is read as one of the five locations, and only a string that is that location's code |
| `Models.LocationRoundTrip` | urban_ride/api/models.py:67-73 | every location reads back from its code, so the five codes are distinct |
| `Serializers.ValidateUser` | urban_ride/api/models.py:26-29 | a new user record passes exactly when username, email and phone are non-blank and no stored user has that username or email; the refusal names the first failing check in field order: username blank, username taken, email blank, email taken, phone blank |
| `Serializers.ValidateDriverId` | urban_ride/api/serializers.py:34-41 | an id naming no user gets "Driver not found"; a user who is not a DRIVER gets "User must be a driver"; only a driver passes |
| `Serializers.ValidatePlate` | urban_ride/api/models.py:52 | a plate passes exactly when it is non-empty, at most 20 characters long, and carried by no stored auto |
| `Serializers.ValidateQueueAuto` | urban_ride/api/serializers.py:134-137 | an auto may be queued exactly when its status is AVAILABLE |
| `Serializers.ValidateRideTime` | urban_ride/api/serializers.py:72-76 | a ride time strictly earlier than now is refused; a ride time equal to now or later passes |
| `Serializers.ValidateSlotFields` | urban_ride/api/models.py:75-84 | a new slot's fields pass exactly when max capacity is at least 1, a ride time is given and not in the past, and both locations are among the five choices; the first failing field is reported |
| `Serializers.TransitionAllowed` | urban_ride/api/serializers.py:83-90 | an allowed change never keeps the same status and never targets FINALIZED; CANCELLED and FINALIZED have no allowed change; every allowed change moves forward in lifecycle order |
| `Serializers.TransitionTableExact` | urban_ride/api/serializers.py:83-88 | the allowed changes are exactly PENDING_DRIVER to OPEN or CANCELLED, OPEN to BOOKED or CANCELLED, and BOOKED to CANCELLED |
| `Serializers.ValidateSlotUpdate` | urban_ride/api/serializers.py:78-94 | only an update of an existing slot that carries a status is checked; it fails exactly when the table does not allow the change, and the error names both statuses |
| `Serializers.StagesIncrease` | urban_ride/api/serializers.py:83-90 | along any run of allowed changes from PENDING_DRIVER, the lifecycle stage grows by at least one per step |
| `Serializers.LifecycleBounded` | urban_ride/api/serializers.py:83-90 | a slot's status history from creation has at most four entries, never repeats a status, and never contains FINALIZED |
| `Serializers.ValidateParticipant` | urban_ride/api/serializers.py:119-126 | with a slot in context, joining passes exactly when the slot is OPEN and `current_capacity < max_capacity`; "can only join open slots" comes before "slot is already full"; without a slot nothing is checked |
| `Views.LatestIndex` | urban_ride/api/views.py:68 | the chosen queue row has the greatest `created_at` of all rows, and no earlier row has the same time |
| `Views.JoinAdmission` | urban_ride/api/views.py:166-215 | joining goes ahead exactly when the slot exists and is OPEN and not full, the user exists and is a CUSTOMER, has no row in the slot, is not its creator, has no row in a live slot at the same ride time, and a fee is given |
| `Views.JoinKeepsRows` | urban_ride/api/views.py:223-231 | an admitted join keeps every participant invariant: counts match rows and stay within the maximum, one row per (slot, user), creators never join, no ride-time clash |
| `Views.SlotChangeKeepsRows` | urban_ride/api/views.py:103-110 | adding a fresh slot with a count of 1, or changing a stored slot's status between live states, keeps the participant invariants |
| `Views.NewAutoKeepsPlates` | urban_ride/api/models.py:52 | storing a fresh auto whose plate no stored auto carries keeps plates unique |
| `Views.RideStore.CreateUser` | urban_ride/api/serializers.py:6-18 | a record that fails `ValidateUser` is refused with that check's reason and the store unchanged; otherwise exactly one user with the given fields is added under a fresh id and nothing else changes |
| `Views.RideStore.RegisterAuto` | urban_ride/api/views.py:35-53 | a driver id naming no user or a non-driver is refused, then a bad plate, then a missing driver id, all with the store unchanged; otherwise one AVAILABLE auto and exactly one queue row referring to it are added and nothing else changes |
| `Views.RideStore.QueueAuto` | urban_ride/api/serializers.py:134-137 | a missing or unknown auto, or one that is not AVAILABLE, is refused with the store unchanged; otherwise exactly one queue row for it is appended |
| `Views.RideStore.CreateSlot` | urban_ride/api/views.py:66-128 | an empty queue gives "No autos in queue" before anything else; then a missing creator id, an unknown creator and invalid fields are refused in that order, all with the store unchanged; otherwise a new PENDING_DRIVER slot with count 1 uses the auto of the latest queue row, that auto becomes QUEUED, and only that queue row is removed |
| `Views.RideStore.CommitSlot` | urban_ride/api/views.py:103-110 | stores the new slot under a fresh id, sets its auto to QUEUED, deletes exactly the chosen queue row, and keeps the store invariant |
| `Views.RideStore.AcceptSlot` | urban_ride/api/views.py:136-152 | a missing slot, or one that is not PENDING_DRIVER, is refused with the store unchanged; otherwise the slot becomes OPEN and its auto BOOKED, and nothing else changes |
| `Views.RideStore.JoinSlot` | urban_ride/api/views.py:164-244 | rejections come in the handler's order (`JoinRejection`) with the store unchanged; on success exactly one JOINED, unpaid row for that slot and user is added, and the slot's count rises by exactly 1, staying within its maximum |
| `Scenarios.FirstSlot` | urban_ride/api/views.py:66-122 | from an empty store, a registered auto is taken by the first slot creation, which yields a PENDING_DRIVER slot with count 1; a second creation finds the queue empty |
| `Scenarios.AcceptIsOneShot` | urban_ride/api/views.py:136-152 | accepting a pending slot succeeds once and leaves it OPEN with its auto BOOKED; a second accept is refused |
| `Scenarios.LastSeat` | urban_ride/api/views.py:173-177 | after an admitted rider takes the last seat, the slot is at its maximum and the next join is refused as full |
| `Scenarios.CreatorRefused` | urban_ride/api/views.py:194-198 | a slot's creator trying to join their own open, not-full slot is refused as its creator |
| `Scenarios.SameTimeRefused` | urban_ride/api/views.py:200-209 | a rider with a row in an open slot is refused from another open slot at the same ride time |
| `Scenarios.AutoQueuedTwice` | urban_ride/api/views.py:45-51 | a freshly registered auto stays AVAILABLE, so it can be queued a second time: one auto, two queue rows |

## Left out

- `urban_ride/api/auth_views.py` (OTP generation, email delivery, the OTP cache) is not part of this model. It is randomness and I/O around an external store.
- `urban_ride/api/urls.py`, `urban_ride/api/admin.py` and `urban_ride/api/tests.py` are not part of this model. They hold routing, admin configuration and HTTP-level tests.
- The plain CRUD viewsets (`UserViewSet`, `AutoViewSet`, `SlotViewSet`, `AutoQueueViewSet`) are left out, because they are framework-generated. Two create operations are exceptions: user creation (`CreateUser`) and queue-row creation (`QueueAuto`). As a result, the store has no cancel, finalize, delete or arbitrary-update operation. The transition table is modelled as the pure check `ValidateSlotUpdate`.
- `transaction.atomic` and concurrent requests: each handler is one indivisible step. Races between requests cannot be expressed.
- Decimal money: the fare and the convenience fee are integers. The `max_digits` and `decimal_places` limits are not checked.
- The clock: `timezone.now()` is the parameter `now`. It also stamps `created_at` and `joined_at`.
- User creation leaves out the password (a required field, hashed before storage), the optional college, address and image fields, email format checking, and the length limits of username, phone and email. The model keeps the required username, email and phone and the uniqueness of username and email.
- Output shaping (`get_participants`, `get_slot_details`, `get_image_url`, response bodies and HTTP status codes) is left out. Each handler returns the new record's id or a typed error.
- Server errors (HTTP 500) are left out as such. Three of them are typed errors in the model:
  - a missing driver id at auto registration (`DriverLookupFailed`). The lookup at `views.py:36` raises, and `perform_create` catches nothing, so the framework answers 500;
  - a queue row without an auto (`AutoRequired`). `serializers.py:135` reads the status of a missing auto and raises, uncaught;
  - a missing convenience fee at join (`FeeRequired`). The serializer's refusal is caught by the handler's `except Exception` at `views.py:240-244`.

  Other unexpected exceptions have no counterpart in the model.
- Malformed request values (ids or numbers of the wrong type) cannot be written down here: the parameters are typed.
- The constant-returning `PaymentViewSet.convenience_fee` is left out.
- A slot without a creator (the foreign key is nullable) never arises in the model, because every slot is created with one.
- The serializer reports every failing field at once. The model reports the first failing field in field order.
- The framework trims whitespace from the licence plate. The model does not.
- `Serializers.ValidateSlotFields`: accepts any integer `max_capacity` of at least 1. The integer column (`models.py:77`) also gives the serializer field the database backend's integer range as an upper bound. That bound depends on the backend and is not modelled.
- `Views.LatestIndex`: breaks ties among rows with the same `created_at` by taking the first in table order. The store's own order for such ties is unspecified.
