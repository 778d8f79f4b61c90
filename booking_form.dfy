/** components/BookingForm.tsx: checking a customer in to a seat. The price
    shown and stored, the duration and check-out time, and the row inserted
    into the bookings table. */
module BookingForm {

  import opened Base
  import opened Pricing

  /** A row of the packages table. */
  datatype Package = Package(id: string, name: string, price: real, duration: real, isHourly: bool)

  /** The check-in form. `durationHours` is read with `parseInt`. */
  datatype Form = Form(
    customerName: string,
    packageId: string,
    durationHours: int,
    isStudent: bool,
    isExaminee: bool,
    isGroup: bool,
    isLoyalty: bool,
    seatNumber: string,
    rentals: string,
    notes: string)

  datatype BookingStatus = Active | Completed

  /** The notes column: text typed by an operator, or the note an extension
      writes ("Extended by h hrs (+₱c)"), kept as its two numbers. */
  datatype Notes = Typed(text: string) | ExtendedBy(hours: real, fee: real)

  /** A row of the bookings table. Numeric columns that may hold null or a
      non-numeric value are optional. */
  datatype Booking = Booking(
    customerName: string,
    seatNumber: string,
    packageType: string,
    durationHours: Option<real>,
    checkInTime: Instant,
    checkOutTime: Option<Instant>,
    amountPaid: Option<real>,
    status: BookingStatus,
    isStudent: bool,
    isExaminee: bool,
    isGroup: bool,
    rentals: string,
    notes: Notes)

  /** `packages.find((p) => p.id === id)`: the first package with that id. */
  function FindPackage(packages: seq<Package>, id: string): (r: Option<Package>)
    ensures r.None? <==> forall k :: 0 <= k < |packages| ==> packages[k].id != id
    ensures r.Some? ==> exists k :: 0 <= k < |packages| && packages[k] == r.value && r.value.id == id &&
                          forall j :: 0 <= j < k ==> packages[j].id != id
  {
    if packages == [] then None
    else if packages[0].id == id then Some(packages[0])
    else
      var r := FindPackage(packages[1..], id);
      if r.Some? then
        var k :| 0 <= k < |packages[1..]| && packages[1..][k] == r.value && r.value.id == id &&
                 forall j :: 0 <= j < k ==> packages[1..][j].id != id;
        assert packages[k + 1] == r.value;
        r
      else r
  }

  /** The price worked out for the form: free for a loyalty award, the
      generic seat rate otherwise. */
  function Price(pkg: Package, form: Form): int
  {
    if form.isLoyalty then 0
    else DynamicRate(pkg.price, pkg.isHourly, form.durationHours as real, form.isStudent, form.isExaminee)
  }

  /** The hours entered for an hourly package, the package's own duration
      otherwise. */
  function EffectiveDuration(pkg: Package, form: Form): real
  {
    if pkg.isHourly then form.durationHours as real else pkg.duration
  }

  /** The notes saved: a loyalty award is recorded in front of them. */
  function SavedNotes(form: Form): string
  {
    if form.isLoyalty then
      if form.notes != "" then "[Loyalty Award] " + form.notes else "[Loyalty Award]"
    else form.notes
  }

  /** `handleSubmit`: the row inserted for a check-in at `now`, or nothing
      when the selected package is not in the list. */
  function Submit(packages: seq<Package>, form: Form, now: Instant): (r: Option<Booking>)
    ensures r.None? <==> FindPackage(packages, form.packageId).None?
    ensures r.Some? ==>
              var pkg := FindPackage(packages, form.packageId).value;
              && r.value.status == Active
              && r.value.packageType == pkg.name
              && r.value.checkInTime == now
              && r.value.durationHours == Some(EffectiveDuration(pkg, form))
              && r.value.checkOutTime.Some?
              && r.value.checkOutTime.value - now == EffectiveDuration(pkg, form) * MinutesPerHour
              && r.value.amountPaid == Some(Price(pkg, form) as real)
              && r.value.notes == Typed(SavedNotes(form))
              && r.value.customerName == form.customerName
              && r.value.seatNumber == form.seatNumber
              && r.value.isStudent == form.isStudent
              && r.value.isExaminee == form.isExaminee
              && r.value.isGroup == form.isGroup
              && r.value.rentals == form.rentals
  {
    match FindPackage(packages, form.packageId)
    case None => None
    case Some(pkg) =>
      var finalDuration := if pkg.isHourly then form.durationHours as real else pkg.duration;
      Some(Booking(
        form.customerName, form.seatNumber, pkg.name, Some(finalDuration),
        now, Some(AddHours(now, finalDuration)), Some(Price(pkg, form) as real), Active,
        form.isStudent, form.isExaminee, form.isGroup, form.rentals, Typed(SavedNotes(form))))
  }

  /** A loyalty award is free whatever the student, examinee, hourly and
      hours settings are. */
  lemma LoyaltyIsFree(pkg: Package, form: Form)
    requires form.isLoyalty
    ensures forall s: bool, e: bool, h: int ::
              Price(pkg.(isHourly := !pkg.isHourly), form.(isStudent := s, isExaminee := e, durationHours := h)) == 0
    ensures Price(pkg, form) == 0
  {
  }

  /** Without a loyalty award the price is the generic seat rate. */
  lemma PriceWithoutLoyalty(pkg: Package, form: Form)
    requires !form.isLoyalty
    ensures Price(pkg, form)
         == DynamicRate(pkg.price, pkg.isHourly, form.durationHours as real, form.isStudent, form.isExaminee)
  {
  }

  /** The typed notes always survive at the end of the saved notes; a loyalty
      award puts "[Loyalty Award]" and a space in front of them, or is saved
      alone when there are none; nothing else changes them. */
  lemma SavedNotesKeepTypedNotes(form: Form)
    ensures var saved := SavedNotes(form);
            && |form.notes| <= |saved|
            && saved[|saved| - |form.notes|..] == form.notes
            && (form.isLoyalty && form.notes != "" ==> saved == "[Loyalty Award] " + form.notes)
            && (form.isLoyalty && form.notes == "" ==> saved == "[Loyalty Award]")
            && (!form.isLoyalty ==> saved == form.notes)
  {
  }

  /** A booking made for a non-negative duration never checks out before it
      checks in. */
  lemma CheckOutNotBeforeCheckIn(packages: seq<Package>, form: Form, now: Instant)
    requires FindPackage(packages, form.packageId).Some?
    requires 0.0 <= EffectiveDuration(FindPackage(packages, form.packageId).value, form)
    ensures Submit(packages, form, now).value.checkOutTime.value >= now
  {
  }
}
