/** `BookingViewSet` and the admin-only room endpoint, as functions from a
    store of rooms and bookings to a new store or an error. A failed request
    returns no store: the caller keeps the one it had. */
module Views {
  import opened Results
  import opened Models
  import opened Conflicts
  import Permissions
  import Sequences

  /** The tables the views read and write; the two counters hand out the next
      primary keys. */
  datatype Store = Store(
    rooms: seq<Room>,
    bookings: seq<Booking>,
    nextRoomId: RoomId,
    nextBookingId: BookingId)

  /** The body of a booking create request; `user` and `cost` may be sent but
      the view does not read them. */
  datatype BookingRequest = BookingRequest(
    user: Option<UserId>,
    room: Option<RoomId>,
    start: Date,
    end: Date,
    cost: Option<Money>)

  /** The writable fields of a room create request. */
  datatype RoomData = RoomData(
    name: nat,
    pricePerDay: Money,
    capacity: int,
    roomType: Option<RoomType>)

  predicate HasRoom(rooms: seq<Room>, id: RoomId)
  {
    exists room :: room in rooms && room.id == id
  }

  predicate HasBooking(bookings: seq<Booking>, id: BookingId)
  {
    exists b :: b in bookings && b.id == id
  }

  /** What the database guarantees: primary keys are unique and below the
      next key to hand out, and every booking's room exists. */
  predicate ValidStore(st: Store)
  {
    && (forall i, j :: 0 <= i < |st.rooms| && 0 <= j < |st.rooms| && i != j ==> st.rooms[i].id != st.rooms[j].id)
    && (forall i, j :: 0 <= i < |st.bookings| && 0 <= j < |st.bookings| && i != j ==> st.bookings[i].id != st.bookings[j].id)
    && (forall room :: room in st.rooms ==> room.id < st.nextRoomId)
    && (forall b :: b in st.bookings ==> b.id < st.nextBookingId)
    && (forall b :: b in st.bookings ==> HasRoom(st.rooms, b.room))
  }

  /** No two bookings on one room overlap, whether canceled or not. */
  predicate NoDoubleBooking(bookings: seq<Booking>)
  {
    forall i, j :: 0 <= i < |bookings| && 0 <= j < |bookings| && i != j ==> !Clash(bookings[i], bookings[j])
  }

  /** The store invariant the booking operations keep. */
  predicate Consistent(st: Store)
  {
    ValidStore(st) && NoDoubleBooking(st.bookings)
  }

  /** `Room.objects.get(id=...)`. */
  function FindRoom(rooms: seq<Room>, id: RoomId): (r: Option<Room>)
    ensures r.Some? ==> r.value in rooms && r.value.id == id
    ensures r.None? <==> !HasRoom(rooms, id)
  {
    match Sequences.IndexWhere(rooms, (room: Room) => room.id == id)
    case None => None
    case Some(i) => Some(rooms[i])
  }

  /** Set `is_available` on the room with key `id` and save it. */
  function SetAvailability(rooms: seq<Room>, id: RoomId, flag: bool): (r: seq<Room>)
    ensures |r| == |rooms|
    ensures forall i :: 0 <= i < |rooms| && rooms[i].id == id ==> r[i].isAvailable == flag
    ensures forall i :: 0 <= i < |rooms| ==> r[i].(isAvailable := rooms[i].isAvailable) == rooms[i]
    ensures forall i :: 0 <= i < |rooms| && rooms[i].id != id ==> r[i] == rooms[i]
  {
    seq(|rooms|, i requires 0 <= i < |rooms| =>
      if rooms[i].id == id then rooms[i].(isAvailable := flag) else rooms[i])
  }

  /** Delete the row with key `pk`. */
  function RemoveBooking(bookings: seq<Booking>, pk: BookingId): (r: seq<Booking>)
    ensures forall b :: b in r <==> b in bookings && b.id != pk
    ensures multiset(r) <= multiset(bookings)
  {
    Sequences.Filter(bookings, (b: Booking) => b.id != pk)
  }

  /** `get_queryset`: staff see every booking, anyone else only their own.
      An anonymous user has no id, so the query matches nothing. */
  function VisibleBookings(bookings: seq<Booking>, actor: Actor): (r: seq<Booking>)
    ensures actor.IsStaff() ==> r == bookings
    ensures !actor.IsStaff() ==> forall b :: b in r <==> b in bookings && actor.Member? && b.user == actor.id
    ensures multiset(r) <= multiset(bookings)
  {
    if actor.IsStaff() then bookings
    else if actor.Anonymous? then []
    else Sequences.Filter(bookings, (b: Booking) => b.user == actor.id)
  }

  /** `create`: sign-in check, room lookup, overlap check against every
      booking of the room, then the new booking for the requester with its
      cost computed by `save`, and the room marked unavailable. The body's
      user and cost are ignored, and the dates are not checked for order. */
  function Create(st: Store, actor: Actor, req: BookingRequest): (r: Result<Store>)
    ensures !actor.IsAuthenticated() ==> r == Err(AuthenticationRequired)
    ensures (actor.IsAuthenticated() && (req.room.None? || !HasRoom(st.rooms, req.room.value)))
            ==> r == Err(RoomDoesNotExist)
    ensures (r == Err(RoomAlreadyBooked))
        <==> (actor.IsAuthenticated() && req.room.Some? && HasRoom(st.rooms, req.room.value)
              && exists b :: b in st.bookings && b.room == req.room.value && b.start < req.end && b.end > req.start)
    ensures r.Ok? <==> (actor.IsAuthenticated() && req.room.Some? && HasRoom(st.rooms, req.room.value)
              && !exists b :: b in st.bookings && b.room == req.room.value && b.start < req.end && b.end > req.start)
    ensures r.Ok? ==> exists room :: (room in st.rooms && room.id == req.room.value
              && r.value.bookings == st.bookings
                   + [Booking(st.nextBookingId, actor.id, room.id, req.start, req.end,
                              Some((req.end - req.start) * room.pricePerDay), false)])
    ensures r.Ok? ==> r.value.rooms == SetAvailability(st.rooms, req.room.value, false)
    ensures r.Ok? ==> r.value.nextBookingId == st.nextBookingId + 1 && r.value.nextRoomId == st.nextRoomId
  {
    if !actor.IsAuthenticated() then Err(AuthenticationRequired)
    else if req.room.None? then Err(RoomDoesNotExist)
    else
      match FindRoom(st.rooms, req.room.value)
      case None => Err(RoomDoesNotExist)
      case Some(room) =>
        if HasConflict(st.bookings, room.id, req.start, req.end) then Err(RoomAlreadyBooked)
        else
          var b := Save(NewBooking(st.nextBookingId, actor.id, room.id, req.start, req.end, None), room.pricePerDay);
          Ok(Store(SetAvailability(st.rooms, room.id, false), st.bookings + [b], st.nextRoomId, st.nextBookingId + 1))
  }

  /** `cancel_booking`: refuses a canceled booking, then one that starts today
      or earlier; then sets the flag and saves. The save recomputes a null or
      zero cost, and the cost rule cannot parse the dates of a stored booking,
      so that save raises and nothing is stored; otherwise the booking is
      cancelled with `CancelAt`. Whoever sends the request, signed in or not,
      is not checked. */
  function Cancel(st: Store, actor: Actor, pk: BookingId, today: Date): (r: Result<Store>)
    requires ValidStore(st)
    ensures !HasBooking(st.bookings, pk) ==> r == Err(BookingDoesNotExist)
    ensures forall i :: 0 <= i < |st.bookings| && st.bookings[i].id == pk && st.bookings[i].canceled
              ==> r == Err(BookingAlreadyCanceled)
    ensures forall i :: 0 <= i < |st.bookings| && st.bookings[i].id == pk && !st.bookings[i].canceled
              && st.bookings[i].start <= today
              ==> r == Err(BookingAlreadyStarted)
    ensures forall i :: 0 <= i < |st.bookings| && st.bookings[i].id == pk && !st.bookings[i].canceled
              && st.bookings[i].start > today && !HasCost(st.bookings[i].cost)
              ==> r == Err(CostNotRecomputable)
    ensures forall i :: 0 <= i < |st.bookings| && st.bookings[i].id == pk && !st.bookings[i].canceled
              && st.bookings[i].start > today && HasCost(st.bookings[i].cost)
              ==> r == Ok(CancelAt(st, i))
  {
    match Sequences.IndexWhere(st.bookings, (b: Booking) => b.id == pk)
    case None => Err(BookingDoesNotExist)
    case Some(i) =>
      var b := st.bookings[i];
      if b.canceled then Err(BookingAlreadyCanceled)
      else if b.start <= today then Err(BookingAlreadyStarted)
      else if !HasCost(b.cost) then Err(CostNotRecomputable)
      else Ok(CancelAt(st, i))
  }

  /** The effect of a successful cancel on the booking at position `i`: it
      becomes canceled, keeping its cost (a successful save keeps a nonzero
      cost), and its room becomes available. Every other booking, every other
      room and both counters are kept. */
  function CancelAt(st: Store, i: nat): (st': Store)
    requires i < |st.bookings|
    ensures |st'.bookings| == |st.bookings|
    ensures st'.bookings[i].canceled
    ensures st'.bookings[i].(canceled := st.bookings[i].canceled) == st.bookings[i]
    ensures forall j :: 0 <= j < |st.bookings| && j != i ==> st'.bookings[j] == st.bookings[j]
    ensures st'.rooms == SetAvailability(st.rooms, st.bookings[i].room, true)
    ensures st'.nextRoomId == st.nextRoomId && st'.nextBookingId == st.nextBookingId
  {
    var b := st.bookings[i];
    st.(bookings := st.bookings[i := b.(canceled := true)],
        rooms := SetAvailability(st.rooms, b.room, true))
  }

  /** `destroy`: only staff get past the first check; then the booking is
      looked up among those the requester may see, the object permission is
      asked, and the row is deleted. */
  function Destroy(st: Store, actor: Actor, pk: BookingId): (r: Result<Store>)
    ensures !actor.IsStaff() ==> r == Err(AuthenticationRequired)
    ensures actor.IsStaff() && !HasBooking(st.bookings, pk) ==> r == Err(NotFound)
    ensures (actor.IsStaff() && HasBooking(st.bookings, pk))
            ==> && r.Ok?
                && r.value.rooms == st.rooms
                && r.value.nextRoomId == st.nextRoomId && r.value.nextBookingId == st.nextBookingId
                && (forall b :: b in r.value.bookings <==> b in st.bookings && b.id != pk)
  {
    if !actor.IsStaff() then Err(AuthenticationRequired)
    else
      var visible := VisibleBookings(st.bookings, actor);
      match Sequences.IndexWhere(visible, (b: Booking) => b.id == pk)
      case None => Err(NotFound)
      case Some(i) =>
        if !Permissions.IsOwnerOrStaff(Permissions.Delete, actor, visible[i].user) then Err(PermissionDenied)
        else Ok(st.(bookings := RemoveBooking(st.bookings, pk)))
  }

  /** A room create request under `AdminOnlyPermission`: anyone but a
      superuser is turned away before anything is stored. */
  function CreateRoom(st: Store, actor: Actor, data: RoomData): (r: Result<Store>)
    ensures actor.Anonymous? ==> r == Err(NotAuthenticated)
    ensures actor.IsAuthenticated() && !actor.IsSuperuser() ==> r == Err(PermissionDenied)
    ensures r.Ok? <==> actor.IsSuperuser()
    ensures r.Ok? ==> && r.value.bookings == st.bookings
                      && r.value.nextRoomId == st.nextRoomId + 1
                      && r.value.nextBookingId == st.nextBookingId
                      && r.value.rooms == st.rooms
                           + [NewRoom(st.nextRoomId, data.name, data.pricePerDay, data.capacity, data.roomType)]
  {
    if !Permissions.AdminOnly(Permissions.Post, actor) then
      if actor.Anonymous? then Err(NotAuthenticated) else Err(PermissionDenied)
    else
      Ok(st.(rooms := st.rooms + [NewRoom(st.nextRoomId, data.name, data.pricePerDay, data.capacity, data.roomType)],
             nextRoomId := st.nextRoomId + 1))
  }
}
