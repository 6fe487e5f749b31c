/** What the booking service hands back: an optional value, an error, or a
    result that is one of the two. Errors carry the message text the views and
    the serializer put in their responses. */
module Results {

  datatype Option<+T> = None | Some(value: T)

  /** Every way a request handled by the core can fail. */
  datatype Error =
    | AuthenticationRequired     // views.create, views.destroy, serializer.validate
    | NotAuthenticated           // the framework's 401 when a permission check denies an anonymous user
    | PermissionDenied           // the framework's 403 when it denies an authenticated user
    | RoomDoesNotExist           // views.create: unknown room id
    | RoomAlreadyBooked          // views.create and serializer.validate: overlapping booking
    | BookingAlreadyCanceled     // views.cancel_booking
    | BookingAlreadyStarted      // views.cancel_booking
    | BookingForSomebodyElse     // serializer.validate: the data names another user
    | StartAfterEnd              // serializer.validate: start_date > end_date
    | MissingField(field: string) // serializer.validate: `data[...]` on an absent key raises
    | BookingDoesNotExist        // views.cancel_booking: the unguarded lookup raises
    | CostNotRecomputable        // views.cancel_booking: `save` recomputes a null or zero cost, and
                                 // `calculate_cost` cannot parse the stored dates, so it raises
    | NotFound                   // views.destroy: `get_object` finds nothing

  datatype Result<+T> = Ok(value: T) | Err(error: Error)

  /** The message text the source itself writes for an error; `None` for the
      errors whose text comes from the framework or from an uncaught exception. */
  function Message(e: Error): Option<string>
  {
    match e
    case AuthenticationRequired => Some("Authentication required")
    case RoomDoesNotExist => Some("Room does not exist")
    case RoomAlreadyBooked => Some("Room is already booked for the specified dates")
    case BookingAlreadyCanceled => Some("Booking already canceled")
    case BookingAlreadyStarted => Some("Cannot cancel booking if it has already started")
    case BookingForSomebodyElse => Some("You can't book for somebody else")
    case StartAfterEnd => Some("Start date must be before end date")
    case _ => None
  }

  /** Distinct failures the source reports are told apart by their text. */
  lemma MessagesDistinct(e1: Error, e2: Error)
    requires Message(e1).Some? && Message(e1) == Message(e2)
    ensures e1 == e2
  {
    var n := |Message(e1).value|;
    assert |Message(e2).value| == n;
    match e2
    case AuthenticationRequired =>
    case RoomDoesNotExist =>
    case RoomAlreadyBooked =>
    case BookingAlreadyCanceled =>
    case BookingAlreadyStarted =>
    case BookingForSomebodyElse =>
    case StartAfterEnd =>
    case _ =>
  }
}
