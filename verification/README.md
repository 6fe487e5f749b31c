# Room booking core, in Dafny

A model of the booking logic of a Django room-booking service (`booking/rooms`).
It covers the date-overlap test, the booking endpoints (create, cancel, delete,
list), the booking serializer's validation chain, the room filter by date, the
cost rule and field defaults of the models, and the two permission classes.

The database is an in-memory `Store`: a sequence of rooms, a sequence of
bookings, and two counters that stand in for auto-increment primary keys.
Every request is a pure function from a store to `Ok(new store)` or
`Err(error)`. A failed request returns no store, so the caller keeps the store
it had. Dates are integer day numbers, money is integer cents, and today's
date is a parameter. Each error the source words itself maps to that text
through `Results.Message`; the others (framework errors and uncaught
exceptions) have none.

Files, following the source:

- `results.dfy`: `Option`, `Result` and the error kinds with their messages.
- `sequences.dfy`: order-preserving `Filter` and `IndexWhere`. These stand in for the ORM's `filter`, `exclude` and `get`.
- `decimal.dfy`: decimal text of a number, as in `str(room)`.
- `models.dfy`: `Actor`, `Room` and `Booking`, defaults, `RoomLabel`, `CalculateCost` and `Save` (models.py).
- `conflicts.dfy`: the overlap predicate. It is written three times in the source (views.py, serializers.py, filters.py).
- `permissions.dfy`: `IsOwnerOrStaff` and `AdminOnly` (permissons.py).
- `serializers.dfy`: `Validate` (serializers.py).
- `filters.dfy`: `FilterByDate` (filters.py).
- `views.dfy`: `Create`, `Cancel`, `Destroy`, `VisibleBookings` and the admin-only `CreateRoom` (views.py).
- `invariants.dfy`: what the operations preserve and what they ignore.
- `scenarios.dfy`: worked examples, proved facts about fixed inputs that match the repository's tests and a booking example.

Behaviour of the code that the model keeps, even where one might expect otherwise:

- The overlap test never skips canceled bookings. A canceled stay still blocks its dates for creates, validation and the room filter.
- The room filter leaves out a room when any booking on it overlaps the query dates. It ignores the room's `is_available` flag.
- `create` does not run the serializer, so it never checks that start comes before end. An inverted stay on a free room is stored at a negative cost (`Invariants.CreateAcceptsInvertedDates`).
- `validate` lets `start_date == end_date` through, despite its message "Start date must be before end date".
- `validate` has no way to leave out the booking being edited. A payload that repeats a stored booking's own room and dates is refused as already booked (`Serializers.UnchangedDatesRejected`).
- `cancel_booking` loads the booking with an unguarded `get` and never calls `get_object`. So no object permission is checked, and anyone can cancel a future booking, even without signing in (`Invariants.CancelIgnoresRequester`). An unknown key raises an uncaught exception, modelled as `BookingDoesNotExist`.
- `cancel_booking` sets the flag and saves the booking. `save` recomputes a missing or zero cost through `calculate_cost`, which runs `strptime` on the dates. A booking loaded from the database holds date objects, not text, so that call raises and nothing is stored. A cancel of a future booking with a missing or zero cost (a same-day stay, or a room priced at zero) is therefore refused, modelled as `CostNotRecomputable` (`Scenarios.ZeroCostCancelFails`). Every cancel that succeeds keeps the cost.
- `destroy` rejects every non-staff user with "Authentication required", including the booking's owner.

## Model

| member | source | states |
|---|---|---|
| Conflicts.ConflictingBookings | booking/rooms/views.py:78-80 | the query returns exactly the stored bookings on the room that start before the candidate end and end after the candidate start, canceled ones included, and nothing else |
| Conflicts.HasConflict | booking/rooms/serializers.py:47-51 | `.exists()` on the conflict query is true iff some booking on the room, canceled or not, has start < end_req and end > start_req |
| Conflicts.ClashSymmetric | booking/rooms/views.py:78-80 | the overlap test between two bookings of a room gives the same answer whichever of them is the candidate |
| Conflicts.AdjacentDoNotClash | booking/rooms/filters.py:28-30 | a stay ending on or before the day another starts does not overlap it, in either direction (half-open dates) |
| Conflicts.ConflictIgnoresCanceled | booking/rooms/views.py:78-80 | setting or clearing a booking's canceled flag never changes whether a candidate conflicts |
| Views.FindRoom | booking/rooms/views.py:71-76 | the lookup finds a stored room with the requested key, or reports none exactly when no room has that key |
| Views.SetAvailability | booking/rooms/views.py:92-93 | only the rooms with the given key change, and only in their `is_available` flag |
| Views.RemoveBooking | booking/rooms/views.py:136-137 | after deletion the bookings are exactly the former ones whose key differs from the deleted key |
| Views.VisibleBookings | booking/rooms/views.py:54-58 | staff see every booking; any other signed-in user sees exactly the bookings whose user is them; an anonymous user sees none |
| Invariants.VisibleBookingsStable | booking/rooms/views.py:54-58 | narrowing the visible list again by the same user changes nothing, and a signed-in user's own bookings are always on it |
| Views.Create | booking/rooms/views.py:60-97 | anonymous fails with "Authentication required", a missing or unknown room with "Room does not exist", and "Room is already booked" happens iff some booking on the room overlaps; the create succeeds iff the requester is signed in, the room exists and no booking on it overlaps; on success exactly one booking is appended for the requester with the given room and dates, not canceled, costed at nights times the room's price; that room becomes unavailable and nothing else changes |
| Views.Cancel | booking/rooms/views.py:99-117 | an unknown key fails; a canceled booking fails with "Booking already canceled" before the date test; a booking starting on or before today fails with "Cannot cancel booking if it has already started"; a booking that starts after today with a missing or zero cost fails because its save raises; any other booking that starts after today is cancelled as `CancelAt` describes |
| Views.CancelAt | booking/rooms/views.py:116-120 | only the chosen booking changes, and only in becoming canceled: dates, room, user and cost are kept; its room becomes available; the other bookings, the other rooms and the counters are kept |
| Views.Destroy | booking/rooms/views.py:129-138 | any non-staff requester fails with "Authentication required"; staff get a not-found error for an unknown key, and otherwise the bookings become exactly those with another key, rooms unchanged |
| Views.CreateRoom | booking/rooms/views.py:37-46 | a room is added iff the requester is a superuser; an anonymous requester gets the 401 error and an authenticated non-superuser the 403 error, and no room is added |
| Invariants.CreateKeepsConsistent | booking/rooms/views.py:78-93 | if no two bookings on any room overlap and keys are unique before a successful create, the same holds after it |
| Invariants.CancelKeepsConsistent | booking/rooms/views.py:116-120 | a successful cancel keeps keys unique, rooms present and no two bookings of a room overlapping |
| Invariants.DestroyKeepsConsistent | booking/rooms/views.py:136-137 | a successful delete keeps keys unique, rooms present and no two bookings of a room overlapping |
| Invariants.CreateRoomKeepsConsistent | booking/rooms/views.py:37-46 | adding a room keeps keys unique and every booking's room present |
| Invariants.DestroyRemovesExactlyOne | booking/rooms/views.py:129-138 | a staff delete of a stored key removes that one booking and keeps all others in order |
| Invariants.CreateIgnoresBodyUserAndCost | booking/rooms/views.py:88-90 | the user and cost sent in the body never change the outcome: the booking is always the requester's and its cost is always computed |
| Invariants.CancelIgnoresRequester | booking/rooms/views.py:99-101 | the cancel outcome is the same for any two requesters, signed in or not: no ownership check |
| Invariants.CreateAcceptsInvertedDates | booking/rooms/views.py:67-93 | a create with start after end on a free room succeeds and stores a negative cost |
| Serializers.Validate | booking/rooms/serializers.py:33-56 | success iff the requester is signed in, the data names them, room and dates are present, start <= end and no booking on the room overlaps; the first failing check in the order auth, proxy, field presence (user, then room, then start_date, then end_date, each reported by name), date order, conflict decides the error; on success the data comes back unchanged |
| Serializers.SameDayPasses | booking/rooms/serializers.py:44-45 | equal start and end dates pass the date-order check, and such a payload is accepted when no booking on the room spans that day |
| Serializers.UnchangedDatesRejected | booking/rooms/serializers.py:47-54 | a payload that repeats a stored booking's room and nonempty dates is refused as already booked, because the query does not leave that booking out |
| Filters.BookedRoomIds | booking/rooms/filters.py:28-30 | a room key is collected iff some booking on that room, canceled or not, overlaps the query dates |
| Filters.FilterByDate | booking/rooms/filters.py:22-35 | with a date absent the list is unchanged; otherwise the result takes each room from the input at most once, and a room is kept iff no booking on it overlaps the query dates |
| Filters.FilterByDateTwice | booking/rooms/filters.py:8-9 | running the date filter a second time, as the second date field does, changes nothing |
| Filters.CheckoutDayIsFree | booking/rooms/filters.py:29-33 | a room whose bookings all end on or before the query's first day stays in the list |
| Models.NewRoom | booking/rooms/models.py:25-36 | a new room is available and of the standard type unless a type is given |
| Models.NewBooking | booking/rooms/models.py:54 | a new booking is not canceled and carries the given user, room and dates |
| Models.RoomTypeValue | booking/rooms/models.py:15-36 | the value stored for a room type is a non-empty lower-case word within the column's ten characters |
| Models.RoomLabel | booking/rooms/models.py:38-39 | the `str` text of a room is the number, the separator " - " and the type value, and it reads back: its leading digits are the room number, the next three characters are " - ", and what follows is the stored type value |
| Models.RoomLabelDetermines | booking/rooms/models.py:38-39 | two rooms with the same `str` text have the same number and type |
| Models.CalculateCost | booking/rooms/models.py:59-63 | the cost becomes the nights between the dates times the daily price, and no other field changes |
| Models.Save | booking/rooms/models.py:65-68 | a nonzero cost is kept unchanged; a null or zero cost is computed; no other field changes |
| Models.SaveIdempotent | booking/rooms/models.py:65-67 | saving an already saved booking again changes nothing |
| Models.CostSplits | booking/rooms/models.py:62-63 | the cost of a stay is the cost of its two parts split at any day |
| Models.CostNonNegative | booking/rooms/models.py:62-63 | a stay with dates in order at a non-negative price costs at least zero |
| Permissions.IsOwnerOrStaff | booking/rooms/permissons.py:6-11 | safe methods are always allowed; any other method is allowed iff the user is signed in and owns the object or is staff |
| Permissions.AdminOnly | booking/rooms/permissons.py:15-21 | safe methods are always allowed; any other method is allowed iff the user is a superuser |
| Permissions.AnonymousCannotWriteObjects | booking/rooms/permissons.py:9-10 | an anonymous user is denied every non-safe method on any object |
| Permissions.StaffIsNotAdmin | booking/rooms/permissons.py:21 | a staff user who is not a superuser is denied writes under the admin-only rule, though the owner-or-staff rule lets them write |
| Permissions.AnonymousCannotWriteRooms | booking/rooms/permissons.py:21 | an anonymous room create, update or delete is denied |
| Results.MessagesDistinct | booking/rooms/serializers.py:35-54 | two failures that carry a message of the source's own carry different messages unless they are the same failure |
| Decimal.ParseShow | booking/rooms/models.py:39 | the decimal text of a room number reads back as that number |
| Decimal.ShowInjective | booking/rooms/models.py:39 | different room numbers print differently |
| Scenarios.FourNightsCost400 | booking/rooms/tests/test_models.py:39-49 | a stay from the 11th to the 15th at 100.00 a day costs 400.00 |
| Scenarios.SuppliedCostKept | booking/rooms/models.py:65-67 | a booking saved with a cost of 700.00 keeps it |
| Scenarios.Room101Defaults | booking/rooms/tests/test_models.py:55-59 | room 101 created without a type or flag is available and standard by the defaults at models.py:30-34, and it prints as "101 - standard"; so does room 101 created with the type "standard" given, as the test builds it |
| Scenarios.BookingScenario | booking/rooms/views.py:60-97 | booking the 5th-10th costs 500.00 and makes the room unavailable; the 8th-12th is then refused; the 10th-12th is accepted at 200.00 |
| Scenarios.FilterScenario | booking/rooms/filters.py:22-35 | with a booking for the 5th-10th, the room is left out for the 5th-10th query and kept for the 10th-12th query |
| Scenarios.GuestCannotDelete | booking/rooms/tests/tests_api.py:244-257 | a non-staff owner's delete fails with "Authentication required", and an anonymous visitor lists no bookings |
| Scenarios.CancelScenario | booking/rooms/views.py:99-127 | cancelling before the start succeeds and frees the room; a second cancel is refused as already canceled; a cancel on the start day is refused as already started |
| Scenarios.ZeroCostCancelFails | booking/rooms/views.py:116-117 | a same-day stay is stored at cost zero, and a later cancel of it is refused because the save's cost recompute raises |

## Left out

- The ORM and the database. Tables are sequences and primary keys come from counters. `ValidStore` holds what foreign keys and cascades guarantee.
- HTTP status codes and response bodies. Errors are a datatype, and the source's message texts are available through `Message`.
- Date parsing (`datetime.strptime`, models.py:60-61) and the clock (`datetime.now()`, views.py:108), which are library code. Dates are day numbers and today is a parameter. In the source, `calculate_cost` only parses text dates. A create passes the request's text dates, so there the cost is computed; a booking loaded back from the database holds date objects, so the recompute in a cancel raises, which the model keeps as `CostNotRecomputable`.
- Models.CalculateCost and Models.Save: computed from day numbers, so they do not raise. In the source they raise on date objects. Among the modelled endpoints only cancel reaches them with such dates, and `Views.Cancel` models that failure. The update endpoints, which are not modelled, and ORM creates given date objects (as in test_models.py:16, 31 and 45) raise the same way when the cost is null or zero.
- Scenarios.FourNightsCost400: holds with dates as day numbers. The repository test it mirrors (test_models.py:39-49) builds the booking from date objects, so `calculate_cost` raises there and that test cannot pass as written.
- Decimal precision of prices and costs (`max_digits`, `decimal_places`). Money is unbounded integer cents.
- Absent start or end dates in a create request. The source passes them into the query as nulls and the framework raises. The model's create request always has both dates.
- The race between two concurrent creates. The conflict check and the insert have no transaction around them.
- `urls.py`, `admin.py`, `MyUserSerializer`, `RoomSerializer` and the update/list/retrieve behaviour of `RoomViewSet`. These are framework configuration with no logic of their own. Room writes appear only as the permission-gated `CreateRoom`.
- `UserViewSet`, which is outside the booking core. Its `get_queryset` (views.py:21-25) repeats the staff-or-self rule of `VisibleBookings` for users: staff see every user, anyone else only themselves.
- The range of the room number. `PositiveSmallIntegerField` (models.py:25) holds 0 to 32767, while the model's `name` is any natural number; the booking logic never depends on the bound.
- Room types outside the three choices. The ORM does not enforce `choices` when a row is saved (models.py:31-36), so other text up to ten characters could be stored; the model's `RoomType` has only the three values the application writes.
- The booking update and partial-update endpoints. These are the framework's defaults around `Validate`, which is modelled.
- `Booking.__str__` and `MyUser.__str__`, which are display text only.
- Email uniqueness, which is a database constraint.
