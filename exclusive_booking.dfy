/** components/ExclusiveBookingForm.tsx: booking the whole space for a group.
    The head count read from the guest list, the hourly rate with its
    morning discount, the total, the end time of day, and the row saved. */
module ExclusiveBooking {

  import opened Base
  import opened Text

  const BaseRate: real := 999.0
  const MorningDiscount: real := 0.18

  // ------------------------------------------------------------------ pax

  predicate Blank(line: string)
  {
    Trim(line) == ""
  }

  /** The guest-list lines that are not blank once trimmed: every such line
      as often as it occurs, and no other. */
  function NonBlankLines(lines: seq<string>): (r: seq<string>)
    ensures |r| <= |lines|
    ensures forall x :: multiset(r)[x] == if Blank(x) then 0 else multiset(lines)[x]
  {
    if lines == [] then []
    else
      assert lines == [lines[0]] + lines[1..];
      Kept(lines[0]) + NonBlankLines(lines[1..])
  }

  /** What the filter keeps of one line. */
  function Kept(line: string): seq<string>
  {
    if Blank(line) then [] else [line]
  }

  /** `filter` keeps the order: the lines of a concatenation are those of
      its parts, one after the other. */
  lemma {:induction false} NonBlankLinesAppend(a: seq<string>, b: seq<string>)
    ensures NonBlankLines(a + b) == NonBlankLines(a) + NonBlankLines(b)
  {
    if a != [] {
      TailOfConcat(a, b);
      assert NonBlankLines(a + b) == Kept(a[0]) + NonBlankLines(a[1..] + b);
      NonBlankLinesAppend(a[1..], b);
      AppendAssoc(Kept(a[0]), NonBlankLines(a[1..]), NonBlankLines(b));
    } else {
      assert a + b == b;
    }
  }

  lemma NonBlankLinesOne(line: string)
    ensures NonBlankLines([line]) == if Trim(line) == "" then [] else [line]
  {
  }

  /** `handleGuestListChange`: one guest per non-blank line, and at least one
      guest. */
  function Pax(guestList: string): (pax: int)
    ensures pax >= 1
    ensures var named := |NonBlankLines(Split(guestList, '\n'))|;
            (named > 0 ==> pax == named) && (named == 0 ==> pax == 1)
  {
    var lines := NonBlankLines(Split(guestList, '\n'));
    if |lines| > 0 then |lines| else 1
  }

  /** A guest written twice is counted twice, and a blank line between
      them not at all. */
  lemma RepeatedGuestCountsTwice(name: string, pad: string)
    requires !Blank(name) && Blank(pad) && '\n' !in name && '\n' !in pad
    ensures Pax(name + "\n" + pad + "\n" + name) == 2
  {
    RepeatedLines(name, pad);
    RepeatedNonBlank(name, pad);
  }

  lemma RepeatedLines(name: string, pad: string)
    requires '\n' !in name && '\n' !in pad
    ensures Split(name + "\n" + pad + "\n" + name, '\n') == [name] + [pad] + [name]
  {
    assert name + "\n" + pad + "\n" + name == name + ['\n'] + (pad + ['\n'] + name);
    SplitAtFirst(name, '\n', pad + ['\n'] + name);
    SplitAtFirst(pad, '\n', name);
  }

  lemma RepeatedNonBlank(name: string, pad: string)
    requires !Blank(name) && Blank(pad)
    ensures NonBlankLines([name] + [pad] + [name]) == [name] + [name]
  {
    NonBlankLinesOne(name);
    NonBlankLinesOne(pad);
    NonBlankLinesAppend([name], [pad]);
    NonBlankLinesAppend([name] + [pad], [name]);
  }

  // ----------------------------------------------------------- time of day

  predicate ClockField(t: string)
  {
    1 <= |t| <= 2 && AllDigits(t)
  }

  /** date-fns `parse(s, "HH:mm", ...)`, as minutes after midnight. */
  function ParseClock(s: string): (r: Option<int>)
    ensures r.Some? ==> 0 <= r.value < MinutesPerDay
  {
    var parts := Split(s, ':');
    if |parts| != 2 || !ClockField(parts[0]) || !ClockField(parts[1]) then None
    else
      var h := DigitsValue(parts[0]);
      var m := DigitsValue(parts[1]);
      if h <= 23 && m <= 59 then Some(h * 60 + m) else None
  }

  /** Two digits, zero-padded, as the `HH` and `mm` tokens render. */
  function TwoDigits(n: nat): (s: string)
    requires n < 100
    ensures |s| == 2 && AllDigits(s) && ':' !in s && ' ' !in s
  {
    [DigitChar(n / 10), DigitChar(n % 10)]
  }

  lemma TwoDigitsValue(n: nat)
    requires n < 100
    ensures DigitsValue(TwoDigits(n)) == n
  {
    var s := TwoDigits(n);
    assert s[..1][..0] == [];
    assert DigitsValue(s[..1]) == n / 10;
  }

  /** A time written `a:b`, both fields one or two digits. */
  lemma ClockFields(a: string, b: string)
    requires ClockField(a) && ClockField(b)
    ensures Split(a + ":" + b, ':') == [a, b]
  {
    assert a + ":" + b == a + [':'] + b;
    SplitAtFirst(a, ':', b);
  }

  /** `parse` with "HH:mm" of a time written with two-digit fields. */
  lemma ParseClockOf(h: nat, m: nat)
    requires h <= 23 && m <= 59
    ensures ParseClock(TwoDigits(h) + ":" + TwoDigits(m)) == Some(h * 60 + m)
  {
    ClockFields(TwoDigits(h), TwoDigits(m));
    TwoDigitsValue(h);
    TwoDigitsValue(m);
  }

  /** `format(..., "h:mm a")`. */
  function Format12(m: int): string
    requires 0 <= m < MinutesPerDay
  {
    var h24 := m / 60;
    var h12 := if h24 % 12 == 0 then 12 else h24 % 12;
    NatText(h12) + ":" + TwoDigits(m % 60) + " " + (if h24 < 12 then "AM" else "PM")
  }

  /** `parse(s, "h:mm a", ...)`, as minutes after midnight. */
  function Parse12(s: string): Option<int>
  {
    var words := Split(s, ' ');
    if |words| != 2 || (words[1] != "AM" && words[1] != "PM") then None
    else
      var clock := Split(words[0], ':');
      if |clock| != 2 || !ClockField(clock[0]) || !ClockField(clock[1]) then None
      else
        var h := DigitsValue(clock[0]);
        var m := DigitsValue(clock[1]);
        if 1 <= h <= 12 && m <= 59 then Some(FromTwelveHour(h, m, words[1] == "PM")) else None
  }

  /** Hour 12 is the first hour of its half of the day. */
  function FromTwelveHour(h: nat, m: nat, pm: bool): int
  {
    (h % 12 + (if pm then 12 else 0)) * 60 + m
  }

  /** `format(..., "HH:mm")`. */
  function Format24(m: int): string
    requires 0 <= m < MinutesPerDay
  {
    TwoDigits(m / 60) + ":" + TwoDigits(m % 60)
  }

  /** The end time is a time of day only: start plus duration, wrapped past
      midnight, to the minute. */
  function EndMinute(start: int, durationHours: real): (r: int)
    ensures 0 <= r < MinutesPerDay
  {
    (start as real + durationHours * MinutesPerHour).Floor % MinutesPerDay
  }

  /** The two words of a 12-hour time. */
  lemma TwelveHourWords(hText: string, mText: string, ap: string)
    requires ClockField(hText) && ClockField(mText) && ' ' !in ap
    ensures Split(hText + ":" + mText + " " + ap, ' ') == [hText + ":" + mText, ap]
  {
    var clockText := hText + ":" + mText;
    assert ' ' !in clockText;
    assert clockText + " " + ap == clockText + [' '] + ap;
    SplitAtFirst(clockText, ' ', ap);
  }

  lemma ShortHourText(h: nat)
    requires 1 <= h <= 12
    ensures ClockField(NatText(h)) && DigitsValue(NatText(h)) == h
  {
    if h >= 10 {
      assert NatText(h) == NatText(h / 10) + [DigitChar(h % 10)];
    }
    DigitsValueOfNatText(h);
  }

  /** Reading back the 12-hour text gives the minute it was made from. */
  lemma Format12RoundTrip(m: int)
    requires 0 <= m < MinutesPerDay
    ensures Parse12(Format12(m)) == Some(m)
  {
    var h24 := m / 60;
    var h12: nat := if h24 % 12 == 0 then 12 else h24 % 12;
    var mm: nat := m % 60;
    var pm := h24 >= 12;
    var ap := if pm then "PM" else "AM";
    TwelveHourText(h12, mm, ap);
    assert Format12(m) == NatText(h12) + ":" + TwoDigits(mm) + " " + ap;
    HourOfDay(m);
  }

  lemma HourOfDay(m: int)
    requires 0 <= m < MinutesPerDay
    ensures var h24 := m / 60;
            FromTwelveHour(if h24 % 12 == 0 then 12 else h24 % 12, m % 60, h24 >= 12) == m
  {
    var h24 := m / 60;
    assert m == h24 * 60 + m % 60;
    assert 0 <= h24 < 24;
    if h24 < 12 {
      assert h24 % 12 == h24;
    } else {
      assert h24 % 12 == h24 - 12;
    }
  }

  lemma TwelveHourText(h: nat, m: nat, ap: string)
    requires 1 <= h <= 12 && m <= 59 && (ap == "AM" || ap == "PM")
    ensures Parse12(NatText(h) + ":" + TwoDigits(m) + " " + ap) == Some(FromTwelveHour(h, m, ap == "PM"))
  {
    var hText := NatText(h);
    var mText := TwoDigits(m);
    ShortHourText(h);
    TwoDigitsValue(m);
    TwelveHourWords(hText, mText, ap);
    ClockFields(hText, mText);
  }

  // ---------------------------------------------------------------- price

  /** `parseInt` of what comes before the first ':' of the start time. */
  function StartHour(startTime: string): Option<int>
  {
    ParseInt(Split(startTime, ':')[0])
  }

  /** A morning start: the start hour is a number below 12. */
  predicate IsMorning(startTime: string)
  {
    var h := StartHour(startTime);
    h.Some? && h.value < 12
  }

  /** 999 an hour, less 18% for a morning start. */
  function HourlyRate(morning: bool): (r: real)
    ensures morning ==> r == 819.18
    ensures !morning ==> r == BaseRate
  {
    if morning then BaseRate - BaseRate * MorningDiscount else BaseRate
  }

  /** The whole-peso rates the form displays. */
  lemma RoundedRates()
    ensures Round(HourlyRate(true)) == 819 && Round(HourlyRate(false)) == 999
  {
  }

  /** The total, rounded once at the end, not per hour. */
  function Total(startTime: string, durationHours: real): int
  {
    Round(HourlyRate(IsMorning(startTime)) * durationHours)
  }

  /** What the form shows and saves, worked out whenever the start time or
      the duration changes. */
  datatype Calculation = Calculation(ratePerHour: int, discountApplied: bool, totalAmount: int, endTime: string)

  /** The effect of lines 65-88. A start time that is not a time of day
      makes the end-time formatting throw, so no calculation comes out. */
  function Calculate(startTime: string, durationHours: real): (r: Option<Calculation>)
    ensures r.Some? <==> ParseClock(startTime).Some?
    ensures r.Some? ==>
              && r.value.discountApplied == IsMorning(startTime)
              && r.value.ratePerHour == (if IsMorning(startTime) then 819 else 999)
              && r.value.totalAmount == Total(startTime, durationHours)
              && r.value.endTime == Format12(EndMinute(ParseClock(startTime).value, durationHours))
  {
    var isMorning := IsMorning(startTime);
    var finalRate := HourlyRate(isMorning);
    var total := Total(startTime, durationHours);
    match ParseClock(startTime)
    case None => None
    case Some(start) =>
      RoundedRates();
      Some(Calculation(Round(finalRate), isMorning, total, Format12(EndMinute(start, durationHours))))
  }

  // ------------------------------------------------------------- the row

  datatype ExclusiveStatus = Confirmed | Completed

  datatype Form = Form(
    clientName: string,
    bookingDate: Day,
    startTime: string,
    durationHours: real,
    pax: int,
    guestList: string,
    notes: string)

  /** A row of the exclusive bookings table. */
  datatype Exclusive = Exclusive(
    clientName: string,
    bookingDate: Day,
    startTime: string,
    endTime: string,
    durationHours: real,
    pax: int,
    guestList: string,
    amountPaid: int,
    status: ExclusiveStatus,
    notes: string)

  /** Typing in the guest list also sets the head count. */
  function GuestListChanged(form: Form, guestList: string): (f: Form)
    ensures f.guestList == guestList && f.pax >= 1
    ensures f.pax == Pax(guestList)
    ensures f.(pax := form.pax, guestList := form.guestList) == form
  {
    form.(guestList := guestList, pax := Pax(guestList))
  }

  /** `handleSubmit`: the payload inserted, or written over an edited
      booking (`existing`), which then loses whatever status it had. */
  function Save(existing: Option<Exclusive>, form: Form): (r: Option<Exclusive>)
    ensures r.Some? <==> ParseClock(form.startTime).Some?
    ensures r.Some? ==>
              && r.value.status == Confirmed
              && r.value.amountPaid == Total(form.startTime, form.durationHours)
              && r.value.endTime == Format24(EndMinute(ParseClock(form.startTime).value, form.durationHours))
              && r.value.clientName == form.clientName
              && r.value.bookingDate == form.bookingDate
              && r.value.startTime == form.startTime
              && r.value.durationHours == form.durationHours
              && r.value.pax == form.pax
              && r.value.guestList == form.guestList
              && r.value.notes == form.notes
  {
    match Calculate(form.startTime, form.durationHours)
    case None => None
    case Some(calculation) =>
      var end := EndMinute(ParseClock(form.startTime).value, form.durationHours);
      Format12RoundTrip(end);
      var endTime24 := Parse12(calculation.endTime).value;
      Some(Exclusive(form.clientName, form.bookingDate, form.startTime, Format24(endTime24),
                     form.durationHours, form.pax, form.guestList, calculation.totalAmount,
                     Confirmed, form.notes))
  }

  // --------------------------------------------------------------- lemmas

  /** For a start time of the form `HH:mm`, the morning is exactly the hours
      before noon. */
  lemma MorningIsBeforeNoon(startTime: string)
    requires ParseClock(startTime).Some?
    ensures IsMorning(startTime) <==> ParseClock(startTime).value < 12 * 60
  {
    var d := Split(startTime, ':')[0];
    ParseIntOfDigits(d);
  }

  /** For the same non-negative duration, a morning booking never costs
      more than an afternoon one. */
  lemma MorningNeverDearer(morning: string, afternoon: string, durationHours: real)
    requires IsMorning(morning) && !IsMorning(afternoon)
    requires 0.0 <= durationHours
    ensures Total(morning, durationHours) <= Total(afternoon, durationHours)
  {
    RoundMonotone(819.18 * durationHours, 999.0 * durationHours);
  }

  /** Three morning hours from 9:00 come to 2458: the rate is not rounded
      before it is multiplied (3 x 819 would be 2457). */
  lemma MorningExample()
    ensures ParseClock("09:00") == Some(9 * 60)
    ensures IsMorning("09:00")
    ensures Total("09:00", 3.0) == 2458
    ensures Calculate("09:00", 3.0).value.ratePerHour * 3 == 2457
  {
    assert "09:00" == TwoDigits(9) + ":" + TwoDigits(0);
    ParseClockOf(9, 0);
    MorningIsBeforeNoon("09:00");
  }

  /** Three afternoon hours from 14:00 come to 2997. */
  lemma AfternoonExample()
    ensures !IsMorning("14:00")
    ensures Total("14:00", 3.0) == 2997
  {
    assert "14:00" == TwoDigits(14) + ":" + TwoDigits(0);
    ParseClockOf(14, 0);
    MorningIsBeforeNoon("14:00");
    RoundOfInt(2997);
  }

  /** A booking from 23:00 for four hours ends at 3:00 on the clock: the
      time wraps past midnight and the booking date stays the same. */
  lemma EndTimeWrapsPastMidnight(form: Form)
    requires form.startTime == "23:00" && form.durationHours == 4.0
    ensures ParseClock(form.startTime) == Some(23 * 60)
    ensures Calculate(form.startTime, form.durationHours).value.endTime == "3:00 AM"
    ensures Save(None, form).value.endTime == "03:00"
    ensures Save(None, form).value.bookingDate == form.bookingDate
  {
    assert "23:00" == TwoDigits(23) + ":" + TwoDigits(0);
    ParseClockOf(23, 0);
    assert EndMinute(1380, 4.0) == 180;
    ThreeInTheMorning();
  }

  lemma ThreeInTheMorning()
    ensures Format24(180) == "03:00"
    ensures Format12(180) == "3:00 AM"
  {
    assert 180 / 60 == 3 && 180 % 60 == 0 && 3 % 12 == 3;
    ZeroAndThree();
    var text := NatText(3) + ":" + TwoDigits(0) + " " + "AM";
    assert Format12(180) == text;
    assert text == "3:00 AM";
  }

  lemma ZeroAndThree()
    ensures TwoDigits(3) == "03" && TwoDigits(0) == "00" && NatText(3) == "3"
  {
  }

  /** Saving an edited booking that was already completed sets it back to
      confirmed. */
  lemma EditResetsStatus(existing: Exclusive, form: Form)
    requires existing.status == Completed
    requires ParseClock(form.startTime).Some?
    ensures Save(Some(existing), form).value.status == Confirmed
    ensures Save(Some(existing), form).value.status != existing.status
  {
  }
}
