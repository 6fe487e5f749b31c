/** Worked examples: proved facts about fixed inputs that mirror the
    repository's own test cases and the worked booking example. Days are July 2024 day-of-month numbers;
    prices are in cents. */
module Scenarios {
  import opened Results
  import opened Models
  import opened Conflicts
  import opened Views
  import Filters
  import Decimal

  /** Room 101 at 100.00 a day with no bookings, as the API tests set it up. */
  function Room101(): Room
  {
    NewRoom(1, 101, 10000, 2, None)
  }

  function EmptyHotel(): Store
  {
    Store([Room101()], [], 2, 1)
  }

  /** A four-night stay from the 11th to the 15th at 100.00 a day costs 400.00. */
  lemma FourNightsCost400()
    ensures Save(NewBooking(1, 1, 1, 11, 15, None), Room101().pricePerDay).cost == Some(40000)
  {
  }

  /** A cost sent with the booking is kept by `save`. */
  lemma SuppliedCostKept()
    ensures Save(NewBooking(1, 1, 1, 5, 10, Some(70000)), Room101().pricePerDay).cost == Some(70000)
  {
  }

  /** A room created with only number, price and capacity is available,
      standard, and prints as "101 - standard"; so does one created with the
      type given as standard. */
  lemma Room101Defaults()
    ensures Room101().isAvailable && Room101().roomType == Standard
    ensures RoomLabel(Room101()) == "101 - standard"
    ensures RoomLabel(NewRoom(1, 101, 10000, 2, Some(Standard))) == "101 - standard"
  {
    assert Decimal.Show(1) == "1";
    assert Decimal.Show(10) == "10";
    assert Decimal.Show(101) == "101";
  }

  /** Booking A (5th to 10th) is stored at 500.00 and takes the room;
      booking B (8th to 12th) overlaps it and is refused; booking C (10th to
      12th) starts on A's last day and is stored at 200.00. */
  lemma BookingScenario(user: UserId)
    ensures var guest := Member(user, false, false);
            var a := Create(EmptyHotel(), guest, BookingRequest(None, Some(1), 5, 10, None));
            && a.Ok?
            && a.value.bookings == [Booking(1, user, 1, 5, 10, Some(50000), false)]
            && !a.value.rooms[0].isAvailable
            && Create(a.value, guest, BookingRequest(None, Some(1), 8, 12, None)) == Err(RoomAlreadyBooked)
            && Create(a.value, guest, BookingRequest(None, Some(1), 10, 12, None)).Ok?
            && Create(a.value, guest, BookingRequest(None, Some(1), 10, 12, None)).value.bookings[1].cost == Some(20000)
  {
    var guest := Member(user, false, false);
    var st := EmptyHotel();
    assert FindRoom(st.rooms, 1) == Some(Room101());
    var a := Create(st, guest, BookingRequest(None, Some(1), 5, 10, None));
    assert a.Ok?;
    var bookingA := Booking(1, user, 1, 5, 10, Some(50000), false);
    assert a.value.bookings == [bookingA];
    assert a.value.rooms[0] == Room101().(isAvailable := false);
    assert FindRoom(a.value.rooms, 1) == Some(Room101().(isAvailable := false));
    assert HasConflict(a.value.bookings, 1, 8, 12) by {
      assert bookingA in a.value.bookings;
    }
    assert !HasConflict(a.value.bookings, 1, 10, 12);
  }

  /** Asking for rooms free from the 5th to the 10th leaves out room 101 once
      booking A is stored, and keeps it for the 10th to the 12th. */
  lemma FilterScenario(user: UserId)
    ensures Filters.FilterByDate([Room101()], [Booking(1, user, 1, 5, 10, Some(50000), false)], Some(5), Some(10)) == []
    ensures Filters.FilterByDate([Room101()], [Booking(1, user, 1, 5, 10, Some(50000), false)], Some(10), Some(12)) == [Room101()]
  {
    var bookingA := Booking(1, user, 1, 5, 10, Some(50000), false);
    assert Filters.Booked(Room101(), [bookingA], 5, 10) by {
      assert bookingA in [bookingA];
    }
    assert Room101() !in Filters.FilterByDate([Room101()], [bookingA], Some(5), Some(10));
    assert Room101() in Filters.FilterByDate([Room101()], [bookingA], Some(10), Some(12));
  }

  /** A guest who is not staff cannot delete their own booking; an anonymous
      visitor sees no bookings at all. */
  lemma GuestCannotDelete(user: UserId)
    ensures var st := Store([Room101()], [Booking(1, user, 1, 5, 10, Some(50000), false)], 2, 2);
            && Destroy(st, Member(user, false, false), 1) == Err(AuthenticationRequired)
            && VisibleBookings(st.bookings, Anonymous) == []
  {
  }

  /** Cancelling booking A before the 5th succeeds and frees the room; a
      second cancel is refused as already canceled, and a cancel on the 5th
      or later as already started. */
  lemma CancelScenario(user: UserId)
    ensures var st := Store([Room101().(isAvailable := false)], [Booking(1, user, 1, 5, 10, Some(50000), false)], 2, 2);
            var c := Cancel(st, Anonymous, 1, 4);
            && c.Ok?
            && c.value.bookings == [Booking(1, user, 1, 5, 10, Some(50000), true)]
            && c.value.rooms == [Room101()]
            && Cancel(c.value, Anonymous, 1, 4) == Err(BookingAlreadyCanceled)
            && Cancel(st, Anonymous, 1, 5) == Err(BookingAlreadyStarted)
  {
    var st := Store([Room101().(isAvailable := false)], [Booking(1, user, 1, 5, 10, Some(50000), false)], 2, 2);
    assert st.bookings[0] in st.bookings && st.rooms[0] in st.rooms;
    var c := Cancel(st, Anonymous, 1, 4);
    assert c.value.bookings[0] == Booking(1, user, 1, 5, 10, Some(50000), true);
    assert c.value.rooms[0] == Room101();
  }

  /** A same-day stay is stored at a cost of zero; cancelling it later makes
      `save` recompute the cost from the stored dates, which fails, so the
      cancel is refused and the booking stays active. */
  lemma ZeroCostCancelFails(user: UserId)
    ensures var a := Create(EmptyHotel(), Member(user, false, false), BookingRequest(None, Some(1), 10, 10, None));
            && a.Ok?
            && a.value.bookings == [Booking(1, user, 1, 10, 10, Some(0), false)]
            && Cancel(a.value, Anonymous, 1, 5) == Err(CostNotRecomputable)
  {
    var st := EmptyHotel();
    assert FindRoom(st.rooms, 1) == Some(Room101());
    var a := Create(st, Member(user, false, false), BookingRequest(None, Some(1), 10, 10, None));
    assert a.value.bookings == [Booking(1, user, 1, 10, 10, Some(0), false)];
    assert a.value.bookings[0] in a.value.bookings && a.value.rooms[0] in a.value.rooms;
  }
}
