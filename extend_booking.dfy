/** components/ExtendBookingForm.tsx: adding hours to a seat booking. The
    new check-out time, duration and amount, the default fee for the extra
    hours, and the four columns the update writes. */
module ExtendBooking {

  import opened Base
  import opened BookingForm

  /** The standard hourly rate an extension is priced at by default. */
  const HourlyRate: real := 49.0

  /** The fee proposed whenever the hours change; the operator may type
      another one over it. */
  function DefaultFee(hoursToAdd: real): real
  {
    hoursToAdd * HourlyRate
  }

  /** The columns `handleExtend` writes. */
  datatype Update = Update(durationHours: real, checkOutTime: Instant, amountPaid: real, notes: Notes)

  /** Lines 42-45 and the update of `handleExtend`: the extra hours go on the
      stored check-out time (or on `now` when there is none), on the stored
      duration and, as `additionalCost`, on the amount; a missing or
      non-numeric duration or amount counts as zero. */
  function Extension(booking: Booking, hoursToAdd: real, additionalCost: real, now: Instant): (u: Update)
    ensures u.durationHours == OrZero(booking.durationHours) + hoursToAdd
    ensures u.amountPaid == OrZero(booking.amountPaid) + additionalCost
    ensures booking.checkOutTime.Some? ==> u.checkOutTime - booking.checkOutTime.value == hoursToAdd * MinutesPerHour
    ensures booking.checkOutTime.None? ==> u.checkOutTime - now == hoursToAdd * MinutesPerHour
    ensures u.notes == ExtendedBy(hoursToAdd, additionalCost)
  {
    var currentEndTime := if booking.checkOutTime.Some? then booking.checkOutTime.value else now;
    var newEndTime := AddHours(currentEndTime, hoursToAdd);
    var newTotalDuration := OrZero(booking.durationHours) + hoursToAdd;
    var newTotalAmount := OrZero(booking.amountPaid) + additionalCost;
    Update(newTotalDuration, newEndTime, newTotalAmount, ExtendedBy(hoursToAdd, additionalCost))
  }

  /** The booking after the update: only the duration, the check-out time,
      the amount and the notes are written; the previous notes are lost. */
  function Apply(booking: Booking, u: Update): (r: Booking)
    ensures r.durationHours == Some(u.durationHours) && r.checkOutTime == Some(u.checkOutTime)
    ensures r.amountPaid == Some(u.amountPaid) && r.notes == u.notes
    ensures r.(durationHours := booking.durationHours, checkOutTime := booking.checkOutTime,
               amountPaid := booking.amountPaid, notes := booking.notes) == booking
  {
    booking.(durationHours := Some(u.durationHours), checkOutTime := Some(u.checkOutTime),
             amountPaid := Some(u.amountPaid), notes := u.notes)
  }

  /** With a stored check-out time, the check-out moves by exactly as many
      hours as the duration grows. */
  lemma EndMovesWithDuration(booking: Booking, hoursToAdd: real, additionalCost: real, now: Instant)
    requires booking.checkOutTime.Some?
    ensures var u := Extension(booking, hoursToAdd, additionalCost, now);
            u.checkOutTime - booking.checkOutTime.value
              == (u.durationHours - OrZero(booking.durationHours)) * MinutesPerHour
  {
  }

  /** Extending by non-negative hours for a non-negative fee never shortens
      the booking, never moves its stored check-out earlier and never lowers
      its amount. */
  lemma ExtensionNeverShrinks(booking: Booking, hoursToAdd: real, additionalCost: real, now: Instant)
    requires 0.0 <= hoursToAdd && 0.0 <= additionalCost
    ensures var u := Extension(booking, hoursToAdd, additionalCost, now);
            && u.durationHours >= OrZero(booking.durationHours)
            && u.amountPaid >= OrZero(booking.amountPaid)
            && (booking.checkOutTime.Some? ==> u.checkOutTime >= booking.checkOutTime.value)
            && u.checkOutTime >= (if booking.checkOutTime.Some? then booking.checkOutTime.value else now)
  {
  }

  /** With the proposed fee, the amount grows by 49 per added hour. */
  lemma DefaultFeeCharges49PerHour(booking: Booking, hoursToAdd: real, now: Instant)
    ensures Extension(booking, hoursToAdd, DefaultFee(hoursToAdd), now).amountPaid
         == OrZero(booking.amountPaid) + 49.0 * hoursToAdd
  {
  }

  /** An extension replaces whatever notes the booking had: the notes
      after it are its own note, whatever they were before. */
  lemma ExtensionOverwritesNotes(booking: Booking, previous: Notes, hoursToAdd: real, additionalCost: real, now: Instant)
    ensures Apply(booking, Extension(booking, hoursToAdd, additionalCost, now)).notes
         == ExtendedBy(hoursToAdd, additionalCost)
    ensures var other := booking.(notes := previous);
            (Apply(other, Extension(other, hoursToAdd, additionalCost, now)).notes
             == Apply(booking, Extension(booking, hoursToAdd, additionalCost, now)).notes)
  {
  }
}
