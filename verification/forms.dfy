/** `BookingForm`: the booking request's three required fields and the
    rule that the booked time lies in the future.

    Parsing a field's text (email syntax, the `%Y-%m-%dT%H:%M` date format,
    integer syntax) is Django library code; each field arrives here already
    classified as missing, invalid, or a value. Times are in seconds. */
module Forms {
  import opened Common

  /** A field's submitted value: absent or empty, unparseable, or parsed. */
  datatype FieldInput<T> = Missing | Invalid | Value(value: T)

  /** A date-time: its wall-clock reading and, when aware, its UTC offset. */
  datatype DateTime = DateTime(wall: real, offset: Option<real>)

  datatype FormField = EmailField | BookingTimeField | NumberOfUsersField

  /** The error a field reports. */
  datatype FieldError =
    | Required                   // "This field is required."
    | InvalidValue               // the field's own parse error
    | BelowMinimum(limit: int)   // min_value
    | AboveMaximum(limit: int)   // max_value
    | Rejected(message: string)  // a ValidationError raised by the form

  datatype FormData = FormData(email: FieldInput<string>, bookingTime: FieldInput<DateTime>, numberOfUsers: FieldInput<int>)

  /** The errors per field and the cleaned values of a valid form. */
  datatype Validation = Validation(errors: map<FormField, FieldError>, cleaned: Option<(string, DateTime, int)>)

  const MinUsers := 1
  const MaxUsers := 50
  const NotInFuture := "Booking time must be in the future."

  /** The instant a date-time denotes. */
  function Instant(t: DateTime): real
    requires t.offset.Some?
  {
    t.wall - t.offset.value
  }

  /** `timezone.make_aware(t)` in the current time zone, whose offset at that
      wall time is `localOffset`. */
  function MakeAware(t: DateTime, localOffset: real): (r: DateTime)
    requires t.offset.None?
    ensures r.offset.Some? && r.wall == t.wall
    ensures Instant(r) == t.wall - localOffset
  {
    DateTime(t.wall, Some(localOffset))
  }

  /** `clean_booking_time`: a naive time is made aware; a time at or before
      `now` is rejected, a later one is returned. */
  function CleanBookingTime(t: DateTime, now: real, localOffset: real): (r: Outcome<DateTime>)
    ensures r.Returned? ==> r.value.offset.Some? && r.value.wall == t.wall && Instant(r.value) > now
    ensures r.Returned? && t.offset.Some? ==> r.value == t
    ensures r.Raised? ==> r.error == ValidationError(NotInFuture)
    ensures r.Returned? <==> (if t.offset.Some? then Instant(t) else t.wall - localOffset) > now
  {
    var aware := if t.offset.None? then MakeAware(t, localOffset) else t;
    if Instant(aware) <= now then Raised(ValidationError(NotInFuture)) else Returned(aware)
  }

  /** The email field's error, if any. */
  function EmailError(input: FieldInput<string>): Option<FieldError>
  {
    match input
    case Missing => Some(Required)
    case Invalid => Some(InvalidValue)
    case Value(_) => None
  }

  /** `IntegerField(min_value=1, max_value=50)`. */
  function NumberError(input: FieldInput<int>): (r: Option<FieldError>)
    ensures r.None? <==> input.Value? && MinUsers <= input.value <= MaxUsers
    ensures input.Missing? ==> r == Some(Required)
    ensures input.Invalid? ==> r == Some(InvalidValue)
    ensures input.Value? && input.value < MinUsers ==> r == Some(BelowMinimum(MinUsers))
    ensures input.Value? && input.value > MaxUsers ==> r == Some(AboveMaximum(MaxUsers))
  {
    match input
    case Missing => Some(Required)
    case Invalid => Some(InvalidValue)
    case Value(n) =>
      if n < MinUsers then Some(BelowMinimum(MinUsers))
      else if n > MaxUsers then Some(AboveMaximum(MaxUsers))
      else None
  }

  /** The booking time field's error, if any: its own, or the form's
      future-time check when it parsed. */
  function BookingTimeError(input: FieldInput<DateTime>, now: real, localOffset: real): Option<FieldError>
  {
    match input
    case Missing => Some(Required)
    case Invalid => Some(InvalidValue)
    case Value(t) =>
      match CleanBookingTime(t, now, localOffset)
      case Raised(_) => Some(Rejected(NotInFuture))
      case Returned(_) => None
  }

  /** The errors of the three fields, keyed by field. */
  function Errors(data: FormData, now: real, localOffset: real): map<FormField, FieldError>
  {
    var e1 := if EmailError(data.email).Some? then map[EmailField := EmailError(data.email).value] else map[];
    var e2 := if BookingTimeError(data.bookingTime, now, localOffset).Some?
              then e1[BookingTimeField := BookingTimeError(data.bookingTime, now, localOffset).value] else e1;
    if NumberError(data.numberOfUsers).Some? then e2[NumberOfUsersField := NumberError(data.numberOfUsers).value] else e2
  }

  /** A field is reported exactly when it has an error. */
  lemma ErrorsKeys(data: FormData, now: real, localOffset: real)
    ensures var errors := Errors(data, now, localOffset);
            && (EmailField in errors <==> EmailError(data.email).Some?)
            && (BookingTimeField in errors <==> BookingTimeError(data.bookingTime, now, localOffset).Some?)
            && (NumberOfUsersField in errors <==> NumberError(data.numberOfUsers).Some?)
            && errors.Keys <= {EmailField, BookingTimeField, NumberOfUsersField}
  {
  }

  /** `form.is_valid()` and `form.cleaned_data` for a submission at `now`. */
  function Validate(data: FormData, now: real, localOffset: real): (r: Validation)
    ensures r.cleaned.Some? <==> r.errors == map[]
    ensures r.cleaned.Some? <==>
      && data.email.Value?
      && data.bookingTime.Value? && CleanBookingTime(data.bookingTime.value, now, localOffset).Returned?
      && data.numberOfUsers.Value? && MinUsers <= data.numberOfUsers.value <= MaxUsers
    ensures r.cleaned.Some? ==>
      r.cleaned.value == (data.email.value, CleanBookingTime(data.bookingTime.value, now, localOffset).value, data.numberOfUsers.value)
  {
    var errors := Errors(data, now, localOffset);
    ErrorsKeys(data, now, localOffset);
    if EmailError(data.email).None? && BookingTimeError(data.bookingTime, now, localOffset).None?
       && NumberError(data.numberOfUsers).None? then
      assert errors.Keys == {};
      Validation(errors, Some((data.email.value, CleanBookingTime(data.bookingTime.value, now, localOffset).value,
                               data.numberOfUsers.value)))
    else
      assert errors != map[];
      Validation(errors, None)
  }

  /** An empty submission reports exactly three errors, all "required". */
  lemma EmptyFormErrors(now: real, localOffset: real)
    ensures var errors := Validate(FormData(Missing, Missing, Missing), now, localOffset).errors;
            |errors| == 3 && forall f :: f in errors ==> errors[f] == Required
  {
    var errors := Validate(FormData(Missing, Missing, Missing), now, localOffset).errors;
    assert errors == map[EmailField := Required, BookingTimeField := Required, NumberOfUsersField := Required];
    assert errors.Keys == {EmailField, BookingTimeField, NumberOfUsersField};
  }

  /** The accepted booking time is aware, keeps the submitted wall-clock
      reading, and lies strictly after the submission instant. */
  lemma AcceptedTimeInFuture(data: FormData, now: real, localOffset: real)
    requires Validate(data, now, localOffset).cleaned.Some?
    ensures var t := Validate(data, now, localOffset).cleaned.value.1;
            t.offset.Some? && t.wall == data.bookingTime.value.wall && Instant(t) > now
  {
  }

  /** The number of users is accepted exactly on 1..50: 0 and 51 are the
      nearest values rejected. */
  lemma NumberBounds()
    ensures NumberError(Value(1)).None? && NumberError(Value(50)).None?
    ensures NumberError(Value(0)) == Some(BelowMinimum(1))
    ensures NumberError(Value(51)) == Some(AboveMaximum(50))
  {
  }
}
