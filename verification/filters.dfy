/** `RoomFilter.filter_by_date`: with both dates in the query, leave out every
    room that has a booking overlapping them. */
module Filters {
  import opened Results
  import opened Models
  import opened Conflicts
  import Sequences

  /** The room ids of all bookings, on any room and canceled or not, that
      overlap `[start, end)`. */
  function BookedRoomIds(bookings: seq<Booking>, start: Date, end: Date): (ids: set<RoomId>)
    ensures forall id :: id in ids <==> exists b :: b in bookings && b.room == id && Overlaps(b, start, end)
  {
    set b | b in bookings && Overlaps(b, start, end) :: b.room
  }

  /** The room has a booking overlapping `[start, end)`. */
  predicate Booked(room: Room, bookings: seq<Booking>, start: Date, end: Date)
  {
    exists b :: b in bookings && b.room == room.id && b.start < end && b.end > start
  }

  /** The room list narrowed by the query's dates. A date that is absent or
      empty in the query leaves the list as it is. */
  function FilterByDate(rooms: seq<Room>, bookings: seq<Booking>, start: Option<Date>, end: Option<Date>): (r: seq<Room>)
    ensures start.None? || end.None? ==> r == rooms
    ensures multiset(r) <= multiset(rooms)
    ensures start.Some? && end.Some? ==>
              forall room :: room in r <==> room in rooms && !Booked(room, bookings, start.value, end.value)
  {
    if start.Some? && end.Some? then
      var booked := BookedRoomIds(bookings, start.value, end.value);
      Sequences.Filter(rooms, (room: Room) => room.id !in booked)
    else rooms
  }

  /** The filter runs once per date field of the query; the second run
      changes nothing. */
  lemma FilterByDateTwice(rooms: seq<Room>, bookings: seq<Booking>, start: Option<Date>, end: Option<Date>)
    ensures FilterByDate(FilterByDate(rooms, bookings, start, end), bookings, start, end)
         == FilterByDate(rooms, bookings, start, end)
  {
    if start.Some? && end.Some? {
      var booked := BookedRoomIds(bookings, start.value, end.value);
      Sequences.FilterIdempotent(rooms, (room: Room) => room.id !in booked);
    }
  }

  /** A booking that ends on the query's first day does not take its room out
      of the list. */
  lemma CheckoutDayIsFree(rooms: seq<Room>, bookings: seq<Booking>, room: Room, start: Date, end: Date)
    requires room in rooms
    requires forall b :: b in bookings && b.room == room.id ==> b.end <= start
    ensures room in FilterByDate(rooms, bookings, Some(start), Some(end))
  {
  }
}
