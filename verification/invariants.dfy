/** What the booking operations keep and what they ignore: the database
    guarantees and the no-double-booking invariant survive every successful
    request, because the overlap test is symmetric. */
module Invariants {
  import opened Results
  import opened Models
  import opened Conflicts
  import opened Views
  import Sequences

  /** A successful create keeps keys unique and rooms present, and adds no
      overlap: the new booking overlaps no stored booking of its room, and by
      symmetry no stored booking overlaps it. */
  lemma CreateKeepsConsistent(st: Store, actor: Actor, req: BookingRequest)
    requires Consistent(st)
    requires Create(st, actor, req).Ok?
    ensures Consistent(Create(st, actor, req).value)
  {
    var st' := Create(st, actor, req).value;
    var room :| room in st.rooms && room.id == req.room.value
      && st'.bookings == st.bookings
           + [Booking(st.nextBookingId, actor.id, room.id, req.start, req.end,
                      Some((req.end - req.start) * room.pricePerDay), false)];
    InsertKeepsConsistent(st, st', room, st'.bookings[|st.bookings|]);
  }

  /** The store step of a create: a booking with the next key, on a stored
      room, that no stored booking overlaps, is appended and the room's flag
      changes. */
  lemma InsertKeepsConsistent(st: Store, st': Store, room: Room, nb: Booking)
    requires Consistent(st)
    requires room in st.rooms && nb.room == room.id && nb.id == st.nextBookingId
    requires !exists b :: b in st.bookings && b.room == room.id && b.start < nb.end && b.end > nb.start
    requires st'.bookings == st.bookings + [nb]
    requires st'.rooms == SetAvailability(st.rooms, room.id, false)
    requires st'.nextBookingId == st.nextBookingId + 1 && st'.nextRoomId == st.nextRoomId
    ensures Consistent(st')
  {
    forall b | b in st.bookings
      ensures !Clash(b, nb)
    {
    }
    AppendKeepsNoDoubleBooking(st.bookings, nb);
    AppendKeepsValid(st, st', nb);
  }

  /** Appending a booking with the next key on a stored room, while room
      keys stay as they were, keeps what the database guarantees. */
  lemma AppendKeepsValid(st: Store, st': Store, nb: Booking)
    requires ValidStore(st)
    requires st'.bookings == st.bookings + [nb]
    requires nb.id == st.nextBookingId && HasRoom(st.rooms, nb.room)
    requires st'.nextBookingId == st.nextBookingId + 1 && st'.nextRoomId == st.nextRoomId
    requires |st'.rooms| == |st.rooms|
    requires forall k :: 0 <= k < |st.rooms| ==> st'.rooms[k].id == st.rooms[k].id
    ensures ValidStore(st')
  {
    forall b | b in st'.bookings
      ensures HasRoom(st'.rooms, b.room)
    {
      var r0 :| r0 in st.rooms && r0.id == b.room;
      var m :| 0 <= m < |st.rooms| && st.rooms[m] == r0;
      assert st'.rooms[m] in st'.rooms;
    }
    forall r | r in st'.rooms
      ensures r.id < st'.nextRoomId
    {
      var m :| 0 <= m < |st'.rooms| && st'.rooms[m] == r;
      assert st.rooms[m] in st.rooms;
    }
    forall i, j | 0 <= i < |st'.bookings| && 0 <= j < |st'.bookings| && i != j
      ensures st'.bookings[i].id != st'.bookings[j].id
    {
      if i < |st.bookings| {
        assert st.bookings[i] in st.bookings;
      }
      if j < |st.bookings| {
        assert st.bookings[j] in st.bookings;
      }
    }
  }

  /** Appending a booking that no stored booking overlaps keeps the bookings
      free of overlaps, because the overlap test is symmetric. */
  lemma AppendKeepsNoDoubleBooking(bs: seq<Booking>, nb: Booking)
    requires NoDoubleBooking(bs)
    requires forall b :: b in bs ==> !Clash(b, nb)
    ensures NoDoubleBooking(bs + [nb])
  {
    var bs' := bs + [nb];
    forall i, j | 0 <= i < |bs'| && 0 <= j < |bs'| && i != j
      ensures !Clash(bs'[i], bs'[j])
    {
      if i == |bs| {
        assert bs'[j] == bs[j] && bs[j] in bs;
        ClashSymmetric(nb, bs[j]);
      } else if j == |bs| {
        assert bs'[i] == bs[i] && bs[i] in bs;
      } else {
        assert bs'[i] == bs[i] && bs'[j] == bs[j];
      }
    }
  }

  /** A successful cancel keeps every key, room and date, so it keeps the
      store consistent. */
  lemma CancelKeepsConsistent(st: Store, actor: Actor, pk: BookingId, today: Date)
    requires Consistent(st)
    requires Cancel(st, actor, pk, today).Ok?
    ensures Consistent(Cancel(st, actor, pk, today).value)
  {
    var b :| b in st.bookings && b.id == pk;
    var i :| 0 <= i < |st.bookings| && st.bookings[i] == b;
    var st' := CancelAt(st, i);
    assert Cancel(st, actor, pk, today) == Ok(st');
    forall k | 0 <= k < |st.bookings|
      ensures st'.bookings[k].id == st.bookings[k].id && st'.bookings[k].room == st.bookings[k].room
      ensures st'.bookings[k].start == st.bookings[k].start && st'.bookings[k].end == st.bookings[k].end
    {
      if k != i {
        assert st'.bookings[k] == st.bookings[k];
      }
    }
    SameRowsKeepConsistent(st, st');
  }

  /** A store whose rows keep their keys, rooms and dates, changing only
      flags and costs, is as consistent as before. */
  lemma SameRowsKeepConsistent(st: Store, st': Store)
    requires Consistent(st)
    requires st'.nextRoomId == st.nextRoomId && st'.nextBookingId == st.nextBookingId
    requires |st'.rooms| == |st.rooms| && |st'.bookings| == |st.bookings|
    requires forall k :: 0 <= k < |st.rooms| ==> st'.rooms[k].id == st.rooms[k].id
    requires forall k :: 0 <= k < |st.bookings| ==>
               && st'.bookings[k].id == st.bookings[k].id
               && st'.bookings[k].room == st.bookings[k].room
               && st'.bookings[k].start == st.bookings[k].start
               && st'.bookings[k].end == st.bookings[k].end
    ensures Consistent(st')
  {
    forall b' | b' in st'.bookings
      ensures HasRoom(st'.rooms, b'.room) && b'.id < st'.nextBookingId
    {
      var k :| 0 <= k < |st'.bookings| && st'.bookings[k] == b';
      assert st.bookings[k] in st.bookings;
      var r0 :| r0 in st.rooms && r0.id == b'.room;
      var m :| 0 <= m < |st.rooms| && st.rooms[m] == r0;
      assert st'.rooms[m] in st'.rooms;
    }
    forall r | r in st'.rooms
      ensures r.id < st'.nextRoomId
    {
      var k :| 0 <= k < |st'.rooms| && st'.rooms[k] == r;
      assert st.rooms[k] in st.rooms;
    }
    forall i, j | 0 <= i < |st'.bookings| && 0 <= j < |st'.bookings| && i != j
      ensures !Clash(st'.bookings[i], st'.bookings[j])
    {
      assert !Clash(st.bookings[i], st.bookings[j]);
    }
  }

  /** Deleting a booking only removes rows, so it keeps the store consistent. */
  lemma DestroyKeepsConsistent(st: Store, actor: Actor, pk: BookingId)
    requires Consistent(st)
    requires Destroy(st, actor, pk).Ok?
    ensures Consistent(Destroy(st, actor, pk).value)
  {
    var st' := Destroy(st, actor, pk).value;
    assert st'.bookings == Sequences.Filter(st.bookings, (b: Booking) => b.id != pk);
    Sequences.FilterPairwise(st.bookings, (b: Booking) => b.id != pk,
                             (a: Booking, c: Booking) => a.id != c.id && !Clash(a, c));
  }

  /** Adding a room with a fresh key keeps the store consistent. */
  lemma CreateRoomKeepsConsistent(st: Store, actor: Actor, data: RoomData)
    requires Consistent(st)
    requires CreateRoom(st, actor, data).Ok?
    ensures Consistent(CreateRoom(st, actor, data).value)
  {
    var st' := CreateRoom(st, actor, data).value;
    forall b | b in st'.bookings
      ensures HasRoom(st'.rooms, b.room)
    {
      var r0 :| r0 in st.rooms && r0.id == b.room;
      assert r0 in st'.rooms;
    }
  }

  /** A staff delete of a stored key removes exactly that one row and keeps
      the others in order. */
  lemma DestroyRemovesExactlyOne(st: Store, actor: Actor, i: nat)
    requires ValidStore(st)
    requires actor.IsStaff()
    requires i < |st.bookings|
    ensures Destroy(st, actor, st.bookings[i].id)
         == Ok(st.(bookings := st.bookings[..i] + st.bookings[i + 1..]))
  {
    var pk := st.bookings[i].id;
    assert st.bookings[i] in st.bookings;
    Sequences.FilterRemovesOne(st.bookings, (b: Booking) => b.id != pk, i);
  }

  /** The list a user sees is closed under their own view: asking for the
      visible bookings of the visible bookings gives the same list, and every
      one of the user's own bookings is on it. */
  lemma VisibleBookingsStable(bookings: seq<Booking>, actor: Actor)
    ensures VisibleBookings(VisibleBookings(bookings, actor), actor) == VisibleBookings(bookings, actor)
    ensures actor.Member? ==> forall b :: b in bookings && b.user == actor.id ==> b in VisibleBookings(bookings, actor)
  {
    if actor.Member? && !actor.IsStaff() {
      Sequences.FilterIdempotent(bookings, (b: Booking) => b.user == actor.id);
    }
  }

  /** The user and cost sent in a create request make no difference: the
      booking is always the requester's and its cost is always computed. */
  lemma CreateIgnoresBodyUserAndCost(st: Store, actor: Actor, req: BookingRequest, user: Option<UserId>, cost: Option<Money>)
    ensures Create(st, actor, req) == Create(st, actor, req.(user := user, cost := cost))
  {
  }

  /** Cancel asks nothing of the requester: any two requesters, signed in or
      not, get the same outcome. */
  lemma CancelIgnoresRequester(st: Store, a1: Actor, a2: Actor, pk: BookingId, today: Date)
    requires ValidStore(st)
    ensures Cancel(st, a1, pk, today) == Cancel(st, a2, pk, today)
  {
  }

  /** Create does not check that the dates are in order: an inverted stay on
      a free room is stored, at a negative cost. */
  lemma CreateAcceptsInvertedDates(st: Store, actor: Actor, room: Room, start: Date, end: Date)
    requires ValidStore(st)
    requires actor.IsAuthenticated()
    requires room in st.rooms && room.pricePerDay > 0
    requires forall b :: b in st.bookings ==> b.room != room.id
    requires start > end
    ensures Create(st, actor, BookingRequest(None, Some(room.id), start, end, None)).Ok?
    ensures Create(st, actor, BookingRequest(None, Some(room.id), start, end, None)).value.bookings[|st.bookings|].cost.value < 0
  {
    FindRoomIsTheRoom(st, room);
    assert !HasConflict(st.bookings, room.id, start, end);
  }

  /** With unique keys, looking a stored room up by its key finds it. */
  lemma FindRoomIsTheRoom(st: Store, room: Room)
    requires ValidStore(st)
    requires room in st.rooms
    ensures FindRoom(st.rooms, room.id) == Some(room)
  {
    var found := FindRoom(st.rooms, room.id).value;
    var a :| 0 <= a < |st.rooms| && st.rooms[a] == found;
    var c :| 0 <= c < |st.rooms| && st.rooms[c] == room;
    assert a == c;
  }
}
