/** app/flexi/page.tsx: the Flexi membership ledger. An account is either
    Inactive or checked in; checking in is refused once the membership has
    expired or a Grind balance is used up; checking out logs the session in
    hours to two decimals and takes them off a Grind balance, never below
    zero. */
module FlexiLedger {

  import opened Base
  import opened FlexiAccounts

  /** The longest Monthly Focus session before check-out warns. */
  const SessionWarningHours: real := 5.0

  datatype CheckInError = Expired | NoRemainingHours

  /** A row of the Flexi logs table. */
  datatype LogRow = LogRow(accountId: string, checkInTime: Instant, checkOutTime: Instant, durationHours: real)

  /** The membership has expired once `now` is past the start of its expiry
      date. */
  predicate IsExpired(a: Account, now: Instant)
  {
    now > DayStart(a.expiryDate)
  }

  /** A Grind balance that is zero, negative or missing (`null <= 0` holds
      in JavaScript). Other packages have no balance to use up. */
  predicate OutOfHours(a: Account)
  {
    a.packageType == Grind && OrZero(a.remainingHours) <= 0.0
  }

  /** Why `handleCheckIn` refuses, if it does: expiry is looked at first. */
  function Refusal(a: Account, now: Instant): (r: Option<CheckInError>)
    ensures r == Some(Expired) <==> IsExpired(a, now)
    ensures r == Some(NoRemainingHours) <==> !IsExpired(a, now) && OutOfHours(a)
    ensures r.None? <==> !IsExpired(a, now) && !OutOfHours(a)
  {
    if IsExpired(a, now) then Some(Expired)
    else if OutOfHours(a) then Some(NoRemainingHours)
    else None
  }

  /** The account after `handleCheckIn` at `now`: unchanged when refused,
      otherwise checked in at `now` with every other column kept. */
  function AfterCheckIn(a: Account, now: Instant): (r: Account)
    ensures Refusal(a, now).Some? ==> r == a
    ensures Refusal(a, now).None? ==>
              && r.status == CheckedIn && r.lastCheckIn == Some(now)
              && r.(status := a.status, lastCheckIn := a.lastCheckIn) == a
  {
    if Refusal(a, now).Some? then a else a.(status := CheckedIn, lastCheckIn := Some(now))
  }

  /** Whole minutes to hours, rounded to two decimals: a whole number of
      hundredths, within half a hundredth of the exact hours (so halves go
      up), and never negative for a non-negative number of minutes. */
  function HoursSpent(minutes: int): (h: real)
    ensures h - (minutes as real) / 60.0 <= 0.005 && (minutes as real) / 60.0 - h < 0.005
    ensures minutes >= 0 ==> h >= 0.0
    ensures (h * 100.0).Floor as real == h * 100.0
  {
    (Round((minutes as real / 60.0) * 100.0) as real) / 100.0
  }

  /** What a check-out produces: the account after it, the log row, and
      whether a Monthly Focus session ran over five hours (a warning only). */
  datatype Session = Session(account: Account, log: LogRow, overLimit: bool)

  /** `handleCheckOut` at `now`: nothing without a recorded check-in;
      otherwise one log row for the session, the account set Inactive, and a
      Grind balance lowered by the hours spent but not below zero. The
      check-in time is left in place. */
  function AfterCheckOut(a: Account, now: Instant): (r: Option<Session>)
    ensures r.None? <==> a.lastCheckIn.None?
    ensures r.Some? ==>
              var hours := HoursSpent(Trunc(now - a.lastCheckIn.value));
              && r.value.log == LogRow(a.id, a.lastCheckIn.value, now, hours)
              && r.value.account.status == Inactive
              && (a.packageType == Grind ==>
                    r.value.account.remainingHours == Some(Max(0.0, OrZero(a.remainingHours) - hours)))
              && (a.packageType != Grind ==> r.value.account.remainingHours == a.remainingHours)
              && r.value.account.(status := a.status, remainingHours := a.remainingHours) == a
              && r.value.overLimit == (a.packageType == MonthlyFocus && hours > SessionWarningHours)
  {
    match a.lastCheckIn
    case None => None
    case Some(checkInTime) =>
      var minutes := Trunc(now - checkInTime);
      var hoursSpent := HoursSpent(minutes);
      var newRemaining := if a.packageType == Grind then Some(Max(0.0, OrZero(a.remainingHours) - hoursSpent))
                          else a.remainingHours;
      Some(Session(a.(status := Inactive, remainingHours := newRemaining),
                   LogRow(a.id, checkInTime, now, hoursSpent),
                   a.packageType == MonthlyFocus && hoursSpent > SessionWarningHours))
  }

  // ------------------------------------------------------ the stored state

  /** The log rows of the Flexi logs table, in the order inserted. */
  class LogTable {
    var rows: seq<LogRow>

    constructor ()
      ensures rows == []
    {
      rows := [];
    }

    method Insert(row: LogRow)
      modifies this
      ensures rows == old(rows) + [row]
    {
      rows := rows + [row];
    }
  }

  /** One account row. Check-in and check-out write only its status, its
      last check-in and its balance. */
  class Member {
    const id: string
    const clientName: string
    const packageType: string
    const startDate: Day
    const expiryDate: Day
    const totalHoursLimit: Option<real>
    const amountPaid: real
    const notes: string
    var status: AccountStatus
    var lastCheckIn: Option<Instant>
    var remainingHours: Option<real>

    function State(): Account
      reads this
    {
      Account(id, clientName, packageType, startDate, expiryDate, totalHoursLimit,
              remainingHours, amountPaid, status, lastCheckIn, notes)
    }

    constructor (a: Account)
      ensures State() == a
    {
      id, clientName, packageType := a.id, a.clientName, a.packageType;
      startDate, expiryDate, totalHoursLimit := a.startDate, a.expiryDate, a.totalHoursLimit;
      amountPaid, notes := a.amountPaid, a.notes;
      status, lastCheckIn, remainingHours := a.status, a.lastCheckIn, a.remainingHours;
    }

    /** `handleCheckIn`: returns the reason for a refusal, if any. */
    method CheckIn(now: Instant) returns (refusal: Option<CheckInError>)
      modifies this
      ensures refusal == Refusal(old(State()), now)
      ensures State() == AfterCheckIn(old(State()), now)
    {
      if now > DayStart(expiryDate) {
        return Some(Expired);
      }
      if packageType == Grind && OrZero(remainingHours) <= 0.0 {
        return Some(NoRemainingHours);
      }
      status := CheckedIn;
      lastCheckIn := Some(now);
      refusal := None;
    }

    /** `handleCheckOut`: inserts the session's log row into `logs` and
      returns the hours logged and the over-five-hours warning. */
    method CheckOut(now: Instant, logs: LogTable) returns (hoursSpent: Option<real>, overLimit: bool)
      modifies this, logs
      ensures AfterCheckOut(old(State()), now).None? ==>
                State() == old(State()) && logs.rows == old(logs.rows) && hoursSpent.None? && !overLimit
      ensures AfterCheckOut(old(State()), now).Some? ==>
                var s := AfterCheckOut(old(State()), now).value;
                && State() == s.account
                && logs.rows == old(logs.rows) + [s.log]
                && hoursSpent == Some(s.log.durationHours)
                && overLimit == s.overLimit
    {
      if lastCheckIn.None? {
        return None, false;
      }
      var checkInTime := lastCheckIn.value;
      var minutes := Trunc(now - checkInTime);
      var hours := HoursSpent(minutes);
      overLimit := packageType == MonthlyFocus && hours > SessionWarningHours;
      var newRemaining := remainingHours;
      if packageType == Grind {
        newRemaining := Some(Max(0.0, OrZero(remainingHours) - hours));
      }
      logs.Insert(LogRow(id, checkInTime, now, hours));
      status := Inactive;
      remainingHours := newRemaining;
      hoursSpent := Some(hours);
    }
  }

  // ------------------------------------------------------------- lemmas

  /** Hours logged for a session that does not end before it starts are
      never negative. */
  lemma SessionHoursNonNegative(checkInTime: Instant, now: Instant)
    requires checkInTime <= now
    ensures HoursSpent(Trunc(now - checkInTime)) >= 0.0
  {
  }

  /** Ninety minutes are logged as 1.5 hours, and twenty minutes as 0.33. */
  lemma HoursSpentExamples()
    ensures HoursSpent(90) == 1.5
    ensures HoursSpent(20) == 0.33
  {
    RoundOfInt(150);
    assert (20.0 / 60.0) * 100.0 == 33.0 + 1.0 / 3.0;
  }

  /** A Grind check-out never leaves a negative balance and, for a session
      that does not end before it starts, never raises it; the balance drops
      by exactly the hours spent unless that would go below zero. */
  lemma GrindBalanceFloored(a: Account, now: Instant)
    requires a.packageType == Grind && a.lastCheckIn.Some? && a.lastCheckIn.value <= now
    requires OrZero(a.remainingHours) >= 0.0
    ensures var s := AfterCheckOut(a, now).value;
            && s.account.remainingHours.Some?
            && 0.0 <= s.account.remainingHours.value <= OrZero(a.remainingHours)
            && (s.log.durationHours <= OrZero(a.remainingHours) ==>
                  s.account.remainingHours.value == OrZero(a.remainingHours) - s.log.durationHours)
            && (s.log.durationHours > OrZero(a.remainingHours) ==> s.account.remainingHours.value == 0.0)
  {
    SessionHoursNonNegative(a.lastCheckIn.value, now);
  }

  /** A Monthly Focus session over five hours only warns: it is logged in
      full and the account is checked out all the same. */
  lemma LongFocusSessionLoggedInFull(a: Account, now: Instant)
    requires a.packageType == MonthlyFocus && a.lastCheckIn.Some?
    requires HoursSpent(Trunc(now - a.lastCheckIn.value)) > SessionWarningHours
    ensures AfterCheckOut(a, now).Some?
    ensures AfterCheckOut(a, now).value.overLimit
    ensures AfterCheckOut(a, now).value.log.durationHours > SessionWarningHours
    ensures AfterCheckOut(a, now).value.account.status == Inactive
    ensures AfterCheckOut(a, now).value.account.remainingHours == a.remainingHours
  {
  }

  /** Check-in keeps an account sound. */
  lemma CheckInKeepsSound(a: Account, now: Instant)
    requires Sound(a)
    ensures Sound(AfterCheckIn(a, now))
  {
  }

  /** Check-out keeps an account sound when the session does not end before
      it starts. */
  lemma CheckOutKeepsSound(a: Account, now: Instant)
    requires Sound(a) && a.lastCheckIn.Some? && a.lastCheckIn.value <= now
    ensures Sound(AfterCheckOut(a, now).value.account)
  {
    if a.packageType == Grind {
      GrindBalanceFloored(a, now);
    }
  }

  /** As written, check-out does not clear the check-in time: running it a
      second time logs the same session again, from the same check-in. */
  lemma SecondCheckOutLogsAgain(a: Account, first: Instant, second: Instant)
    requires a.lastCheckIn.Some?
    ensures AfterCheckOut(AfterCheckOut(a, first).value.account, second).Some?
    ensures AfterCheckOut(AfterCheckOut(a, first).value.account, second).value.log.checkInTime
         == AfterCheckOut(a, first).value.log.checkInTime
  {
  }

  // ------------------------------------------------------ the buttons

  /** What the page's action button does: "Check In" on an account that is
      not checked in, "Out" on one that is. */
  datatype Press = PressIn(at: Instant) | PressOut(at: Instant)

  /** The account after a press, and the log row it wrote, if any. */
  function Pressed(a: Account, p: Press): (r: (Account, Option<LogRow>))
    ensures a.status != CheckedIn ==> r == (AfterCheckIn(a, p.at), None)
    ensures a.status == CheckedIn && a.lastCheckIn.Some? ==>
              r.0 == AfterCheckOut(a, p.at).value.account && r.1 == Some(AfterCheckOut(a, p.at).value.log)
  {
    if a.status != CheckedIn then (AfterCheckIn(a, p.at), None)
    else match AfterCheckOut(a, p.at)
      case None => (a, None)
      case Some(s) => (s.account, Some(s.log))
  }

  /** Since "Out" is only offered while checked in, pressing the button
      twice never logs a session twice: the second press is a check-in
      attempt. */
  lemma ButtonNeverLogsTwice(a: Account, p: Press, q: Press)
    requires Sound(a)
    ensures Pressed(a, p).1.Some? ==> Pressed(Pressed(a, p).0, q).1.None?
  {
  }

  /** The account after a run of presses, and the log rows written, in
      order. */
  function Run(a: Account, presses: seq<Press>): (Account, seq<LogRow>)
    decreases |presses|
  {
    if presses == [] then (a, [])
    else
      var (b, log) := Pressed(a, presses[0]);
      var (c, logs) := Run(b, presses[1..]);
      (c, (if log.Some? then [log.value] else []) + logs)
  }

  function LoggedHours(logs: seq<LogRow>): real
  {
    if logs == [] then 0.0 else logs[0].durationHours + LoggedHours(logs[1..])
  }

  /** The presses happen in time order, none before the account's last
      check-in. */
  predicate Chronological(a: Account, presses: seq<Press>)
  {
    && (forall i, j :: 0 <= i < j < |presses| ==> presses[i].at <= presses[j].at)
    && (a.lastCheckIn.Some? ==> forall i :: 0 <= i < |presses| ==> a.lastCheckIn.value <= presses[i].at)
  }

  /** Over any run of presses in time order, a sound account stays sound, a
      Grind balance never goes up, and it never goes down by more than the
      hours logged. */
  lemma {:induction false} RunKeepsBalance(a: Account, presses: seq<Press>)
    requires Sound(a) && Chronological(a, presses)
    decreases |presses|
    ensures Sound(Run(a, presses).0)
    ensures Run(a, presses).0.packageType == a.packageType
    ensures a.packageType == Grind ==>
              var (c, logs) := Run(a, presses);
              && c.remainingHours.value <= a.remainingHours.value
              && a.remainingHours.value <= c.remainingHours.value + LoggedHours(logs)
  {
    if presses != [] {
      var p := presses[0];
      var (b, log) := Pressed(a, p);
      if a.status != CheckedIn {
        CheckInKeepsSound(a, p.at);
      } else {
        CheckOutKeepsSound(a, p.at);
        if a.packageType == Grind {
          GrindBalanceFloored(a, p.at);
        }
      }
      assert b.lastCheckIn.Some? ==> b.lastCheckIn.value <= p.at;
      assert Chronological(b, presses[1..]);
      RunKeepsBalance(b, presses[1..]);
      var (c, logs) := Run(b, presses[1..]);
      var all := (if log.Some? then [log.value] else []) + logs;
      assert Run(a, presses) == (c, all);
      if log.Some? {
        assert all[1..] == logs;
        assert LoggedHours(all) == log.value.durationHours + LoggedHours(logs);
      } else {
        assert all == logs;
      }
    }
  }
}
