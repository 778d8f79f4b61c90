/** components/FlexiBookingForm.tsx: registering a Flexi membership. The
    default price of each package, and the expiry date and hour balance a
    new account starts with. */
module FlexiAccounts {

  import opened Base

  /** Sixty hours to use within thirty days. */
  const Grind: string := "DMD Flexi Grind"
  /** Unlimited visits of at most five hours, within forty days. */
  const MonthlyFocus: string := "Monthly Focus"

  const GrindPrice: real := 2609.0
  const OtherPrice: real := 5099.0
  const GrindDays: int := 30
  const OtherDays: int := 40
  const GrindHours: real := 60.0

  datatype AccountStatus = Inactive | CheckedIn

  /** A row of the Flexi accounts table. */
  datatype Account = Account(
    id: string,
    clientName: string,
    packageType: string,
    startDate: Day,
    expiryDate: Day,
    totalHoursLimit: Option<real>,
    remainingHours: Option<real>,
    amountPaid: real,
    status: AccountStatus,
    lastCheckIn: Option<Instant>,
    notes: string)

  /** The registration form. */
  datatype Form = Form(clientName: string, packageType: string, startDate: Day, amountPaid: real, notes: string)

  /** `handlePackageChange`: choosing a package also proposes its price,
      2609 for Grind and 5099 for anything else. */
  function PackageChanged(form: Form, packageType: string): (f: Form)
    ensures f.packageType == packageType
    ensures f.amountPaid == if packageType == Grind then 2609.0 else 5099.0
    ensures f.(packageType := form.packageType, amountPaid := form.amountPaid) == form
  {
    if packageType == Grind then form.(packageType := packageType, amountPaid := GrindPrice)
    else form.(packageType := packageType, amountPaid := OtherPrice)
  }

  /** `handleSubmit`: the account inserted, under the id the table gives it.
      Grind runs 30 days with 60 hours; every other package runs 40 days
      with no hour limit. A new account is not checked in. */
  function Register(id: string, form: Form): (a: Account)
    ensures a.packageType == Grind ==>
              a.expiryDate == form.startDate + 30 && a.totalHoursLimit == Some(60.0) && a.remainingHours == Some(60.0)
    ensures a.packageType != Grind ==>
              a.expiryDate == form.startDate + 40 && a.totalHoursLimit.None? && a.remainingHours.None?
    ensures a.status == Inactive && a.lastCheckIn.None?
    ensures a.id == id && a.clientName == form.clientName && a.packageType == form.packageType
    ensures a.startDate == form.startDate && a.amountPaid == form.amountPaid && a.notes == form.notes
  {
    var expiryDate := if form.packageType == Grind then form.startDate + GrindDays else form.startDate + OtherDays;
    var totalHours := if form.packageType == Grind then Some(GrindHours) else None;
    var remainingHours := if form.packageType == Grind then Some(GrindHours) else None;
    Account(id, form.clientName, form.packageType, form.startDate, expiryDate,
            totalHours, remainingHours, form.amountPaid, Inactive, None, form.notes)
  }

  /** What holds of every account: it expires after it starts, a Grind
      account's balance lies between zero and its limit, and a checked-in
      account knows when it checked in. */
  predicate Sound(a: Account)
  {
    && a.startDate < a.expiryDate
    && (a.packageType == Grind ==>
          && a.totalHoursLimit.Some? && a.remainingHours.Some?
          && 0.0 <= a.remainingHours.value <= a.totalHoursLimit.value)
    && (a.status == CheckedIn ==> a.lastCheckIn.Some?)
  }

  /** Every registered account is sound: it expires strictly after its start
      and starts with its whole balance. */
  lemma RegisteredIsSound(id: string, form: Form)
    ensures Sound(Register(id, form))
    ensures Register(id, form).remainingHours == Register(id, form).totalHoursLimit
    ensures Register(id, form).expiryDate > form.startDate
  {
  }
}
