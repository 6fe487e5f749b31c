/** `BookingSerializer.validate`: the ordered checks a booking payload passes
    through before it is stored. Each field of the payload may be absent (a
    partial update sends only some of them). */
module Serializers {
  import opened Results
  import opened Models
  import opened Conflicts

  /** The validated fields of a booking payload. */
  datatype BookingData = BookingData(
    user: Option<UserId>,
    room: Option<RoomId>,
    start: Option<Date>,
    end: Option<Date>,
    cost: Option<Money>)

  /** The payload names the requester as the booking's user. */
  predicate ForRequester(actor: Actor, data: BookingData)
  {
    actor.Member? && data.user == Some(actor.id)
  }

  /** The payload has the room and both dates. */
  predicate Complete(data: BookingData)
  {
    data.room.Some? && data.start.Some? && data.end.Some?
  }

  /** Some stored booking on the payload's room, canceled or not, overlaps
      the payload's dates. */
  predicate Taken(data: BookingData, bookings: seq<Booking>)
    requires Complete(data)
  {
    exists b :: b in bookings && b.room == data.room.value
      && b.start < data.end.value && b.end > data.start.value
  }

  /** The checks in source order: signed in, booking for oneself, room and
      dates present, start not after end, no overlapping booking. The first
      that fails decides the error; if none fails the payload comes back as
      it was. */
  function Validate(actor: Actor, data: BookingData, bookings: seq<Booking>): (r: Result<BookingData>)
    ensures r.Ok? ==> r.value == data
    ensures r.Ok? <==> ForRequester(actor, data) && Complete(data)
                       && data.start.value <= data.end.value && !Taken(data, bookings)
    ensures !actor.IsAuthenticated() ==> r == Err(AuthenticationRequired)
    ensures actor.IsAuthenticated() && data.user.None? ==> r == Err(MissingField("user"))
    ensures (actor.IsAuthenticated() && data.user.Some? && data.user.value != actor.id)
            ==> r == Err(BookingForSomebodyElse)
    ensures ForRequester(actor, data) && data.room.None? ==> r == Err(MissingField("room"))
    ensures (ForRequester(actor, data) && data.room.Some? && data.start.None?)
            ==> r == Err(MissingField("start_date"))
    ensures (ForRequester(actor, data) && data.room.Some? && data.start.Some? && data.end.None?)
            ==> r == Err(MissingField("end_date"))
    ensures (ForRequester(actor, data) && Complete(data) && data.start.value > data.end.value)
            ==> r == Err(StartAfterEnd)
    ensures (ForRequester(actor, data) && Complete(data) && data.start.value <= data.end.value)
            ==> (r == Err(RoomAlreadyBooked) <==> Taken(data, bookings))
  {
    if !actor.IsAuthenticated() then Err(AuthenticationRequired)
    else if data.user.None? then Err(MissingField("user"))
    else if data.user.value != actor.id then Err(BookingForSomebodyElse)
    else if data.room.None? then Err(MissingField("room"))
    else if data.start.None? then Err(MissingField("start_date"))
    else if data.end.None? then Err(MissingField("end_date"))
    else if data.start.value > data.end.value then Err(StartAfterEnd)
    else if HasConflict(bookings, data.room.value, data.start.value, data.end.value) then Err(RoomAlreadyBooked)
    else Ok(data)
  }

  /** Equal start and end dates pass the date-order check: a zero-night
      payload on a room with no booking spanning that day is accepted. */
  lemma SameDayPasses(actor: Actor, room: RoomId, day: Date, cost: Option<Money>, bookings: seq<Booking>)
    requires actor.IsAuthenticated()
    requires forall b :: b in bookings && b.room == room ==> !(b.start < day < b.end)
    ensures Validate(actor, BookingData(Some(actor.id), Some(room), Some(day), Some(day), cost), bookings).Ok?
  {
  }

  /** The overlap check does not leave out the booking being edited: a
      payload that repeats a stored booking's own room and dates is refused
      as already booked. */
  lemma UnchangedDatesRejected(b: Booking, bookings: seq<Booking>, cost: Option<Money>)
    requires b in bookings && b.start < b.end
    ensures Validate(Member(b.user, false, false),
                     BookingData(Some(b.user), Some(b.room), Some(b.start), Some(b.end), cost),
                     bookings) == Err(RoomAlreadyBooked)
  {
  }
}
