/** The overlap test the views, the serializer and the room filter all run:
    an existing booking is in the way of `[start, end)` when it starts before
    `end` and ends after `start`. Canceled bookings are not skipped. */
module Conflicts {
  import opened Models
  import Sequences

  /** `start_date__lt=end, end_date__gt=start` for one booking. */
  predicate Overlaps(b: Booking, start: Date, end: Date)
  {
    b.start < end && b.end > start
  }

  /** The booking is on `room` and overlaps the candidate dates. */
  predicate ConflictsOn(b: Booking, room: RoomId, start: Date, end: Date)
  {
    b.room == room && Overlaps(b, start, end)
  }

  /** Two bookings on the same room whose dates overlap. */
  predicate Clash(a: Booking, b: Booking)
  {
    ConflictsOn(a, b.room, b.start, b.end)
  }

  /** The bookings the query `filter(room=room, start_date__lt=end,
      end_date__gt=start)` returns, in store order. */
  function ConflictingBookings(bookings: seq<Booking>, room: RoomId, start: Date, end: Date): (r: seq<Booking>)
    ensures forall b :: b in r <==> b in bookings && b.room == room && b.start < end && b.end > start
    ensures multiset(r) <= multiset(bookings)
  {
    Sequences.Filter(bookings, (b: Booking) => ConflictsOn(b, room, start, end))
  }

  /** `.exists()` on that query. */
  function HasConflict(bookings: seq<Booking>, room: RoomId, start: Date, end: Date): (r: bool)
    ensures r <==> exists b :: b in bookings && b.room == room && b.start < end && b.end > start
  {
    var c := ConflictingBookings(bookings, room, start, end);
    assert |c| > 0 ==> c[0] in c;
    |c| > 0
  }

  /** The overlap test does not care which of the two bookings came first. */
  lemma ClashSymmetric(a: Booking, b: Booking)
    ensures Clash(a, b) <==> Clash(b, a)
  {
  }

  /** Half-open dates: a stay ending on the day another starts is no clash. */
  lemma AdjacentDoNotClash(a: Booking, b: Booking)
    requires a.end <= b.start
    ensures !Clash(a, b) && !Clash(b, a)
  {
  }

  /** The canceled flag plays no part: canceling or un-canceling a booking
      never changes whether a candidate conflicts. */
  lemma ConflictIgnoresCanceled(bookings: seq<Booking>, i: nat, flag: bool, room: RoomId, start: Date, end: Date)
    requires i < |bookings|
    ensures HasConflict(bookings[i := bookings[i].(canceled := flag)], room, start, end)
        <==> HasConflict(bookings, room, start, end)
  {
    var bs := bookings[i := bookings[i].(canceled := flag)];
    if HasConflict(bookings, room, start, end) {
      var b :| b in bookings && b.room == room && b.start < end && b.end > start;
      var k :| 0 <= k < |bookings| && bookings[k] == b;
      assert bs[k] in bs;
    }
    if HasConflict(bs, room, start, end) {
      var b :| b in bs && b.room == room && b.start < end && b.end > start;
      var k :| 0 <= k < |bs| && bs[k] == b;
      assert bookings[k] in bookings;
    }
  }
}
