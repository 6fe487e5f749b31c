/** The records of `rooms/models.py`: users, rooms and bookings, their field
    defaults, a room's display text, and the booking cost rule. Dates are day
    numbers and money is integer cents. */
module Models {
  import opened Results
  import Decimal

  type UserId = nat
  type RoomId = nat
  type BookingId = nat
  /** A calendar date as a day number; differences are whole days. */
  type Date = int
  /** An amount in cents. */
  type Money = int

  /** The user a request comes from. Django's anonymous user has no id and
      neither staff nor superuser rights. */
  datatype Actor =
    | Anonymous
    | Member(id: UserId, isStaff: bool, isSuperuser: bool)
  {
    predicate IsAuthenticated() { Member? }
    predicate IsStaff() { Member? && isStaff }
    predicate IsSuperuser() { Member? && isSuperuser }
  }

  datatype RoomType = Standard | Deluxe | Suite

  /** The value stored in the `room_type` column: a lower-case word that
      fits the column's ten characters. */
  function RoomTypeValue(t: RoomType): (s: string)
    ensures 1 <= |s| <= 10
    ensures forall i :: 0 <= i < |s| ==> 'a' <= s[i] <= 'z'
  {
    match t
    case Standard => "standard"
    case Deluxe => "deluxe"
    case Suite => "suite"
  }

  /** A room; `name` is its number. */
  datatype Room = Room(
    id: RoomId,
    name: nat,
    pricePerDay: Money,
    capacity: int,
    isAvailable: bool,
    roomType: RoomType)

  /** A booking of `room` by `user` from `start` to `end`; `cost` is nullable. */
  datatype Booking = Booking(
    id: BookingId,
    user: UserId,
    room: RoomId,
    start: Date,
    end: Date,
    cost: Option<Money>,
    canceled: bool)

  /** A room as created when the optional fields are left to their defaults:
      available, and of the standard type unless one is given. */
  function NewRoom(id: RoomId, name: nat, pricePerDay: Money, capacity: int, roomType: Option<RoomType>): (r: Room)
    ensures r.id == id && r.name == name && r.pricePerDay == pricePerDay && r.capacity == capacity
    ensures r.isAvailable
    ensures roomType.None? ==> r.roomType == Standard
    ensures roomType.Some? ==> r.roomType == roomType.value
  {
    Room(id, name, pricePerDay, capacity, true, match roomType case None => Standard case Some(t) => t)
  }

  /** A booking as created before it is saved: not canceled. */
  function NewBooking(id: BookingId, user: UserId, room: RoomId, start: Date, end: Date, cost: Option<Money>): (b: Booking)
    ensures b.id == id && b.user == user && b.room == room
    ensures b.start == start && b.end == end && b.cost == cost
    ensures !b.canceled
  {
    Booking(id, user, room, start, end, cost, false)
  }

  /** `str(room)`: the room number, a dash, and the type. The text reads
      back: its leading digits are the number, and after the three-character
      separator comes the type. */
  function RoomLabel(r: Room): (l: string)
    ensures var k := Decimal.LeadingDigits(l);
            && k + 3 <= |l|
            && l[..k] == Decimal.Show(r.name)
            && l[k..k + 3] == " - "
            && l[k + 3..] == RoomTypeValue(r.roomType)
  {
    var d, t := Decimal.Show(r.name), RoomTypeValue(r.roomType);
    Decimal.LeadingDigitsOf(d, " - " + t);
    assert (d + (" - " + t))[..|d|] == d;
    assert (d + (" - " + t))[|d|..|d| + 3] == " - ";
    assert (d + (" - " + t))[|d| + 3..] == t;
    d + (" - " + t)
  }

  /** The label tells the room number and the type apart: no two rooms that
      differ in either share a label. */
  lemma RoomLabelDetermines(a: Room, b: Room)
    requires RoomLabel(a) == RoomLabel(b)
    ensures a.name == b.name && a.roomType == b.roomType
  {
    Decimal.ShowInjective(a.name, b.name);
    RoomTypeValueInjective(a.roomType, b.roomType);
  }

  /** The three stored type values are different texts. */
  lemma RoomTypeValueInjective(s: RoomType, t: RoomType)
    requires RoomTypeValue(s) == RoomTypeValue(t)
    ensures s == t
  {
    assert |RoomTypeValue(s)| == |RoomTypeValue(t)|;
  }

  /** `(end_date - start_date).days`: negative when the dates are inverted. */
  function Nights(b: Booking): int
  {
    b.end - b.start
  }

  /** `calculate_cost`: the cost becomes the nights times the daily price. */
  function CalculateCost(b: Booking, pricePerDay: Money): (r: Booking)
    ensures r.cost == Some((r.end - r.start) * pricePerDay)
    ensures r.(cost := b.cost) == b
  {
    b.(cost := Some(Nights(b) * pricePerDay))
  }

  /** Python's truth test on the nullable cost: null and zero are false. */
  predicate HasCost(cost: Option<Money>)
  {
    cost.Some? && cost.value != 0
  }

  /** The cost rule of `save`: a missing or zero cost is computed, any other
      supplied cost is kept. */
  function Save(b: Booking, pricePerDay: Money): (r: Booking)
    ensures HasCost(b.cost) ==> r == b
    ensures !HasCost(b.cost) ==> r.cost == Some((b.end - b.start) * pricePerDay)
    ensures r.(cost := b.cost) == b
  {
    if HasCost(b.cost) then b else CalculateCost(b, pricePerDay)
  }

  /** Saving a saved booking again changes nothing. */
  lemma SaveIdempotent(b: Booking, pricePerDay: Money)
    ensures Save(Save(b, pricePerDay), pricePerDay) == Save(b, pricePerDay)
  {
  }

  /** Splitting a stay at any day splits its cost: the rule is linear in the
      nights and charges each night at the daily price. */
  lemma CostSplits(b: Booking, mid: Date, pricePerDay: Money)
    ensures CalculateCost(b, pricePerDay).cost.value
         == CalculateCost(b.(end := mid), pricePerDay).cost.value
          + CalculateCost(b.(start := mid), pricePerDay).cost.value
  {
  }

  /** A stay in order at a non-negative price never costs less than nothing. */
  lemma CostNonNegative(b: Booking, pricePerDay: Money)
    requires b.start <= b.end && pricePerDay >= 0
    ensures CalculateCost(b, pricePerDay).cost.value >= 0
  {
  }
}
