# DMD study-hub admin: business rules in Dafny

The admin dashboard of a study hub books seats by the hour or by package, runs
exclusive bookings of the whole space, sells Flexi memberships with an hour
balance, sells pantry items from a cart, keeps a loyalty leaderboard and
draws a daily report. Most of the dashboard is forms and database calls. This
project models the rules inside them and proves what they promise:

- **Pricing and time** (`utils.dfy`, `booking_form.dfy`, `extend_booking.dfy`,
  `exclusive_booking.dfy`, `flexi_registration.dfy`):
  - the generic seat rate;
  - the check-in row with its loyalty override;
  - a booking extension;
  - the exclusive-space price and end time;
  - the Flexi sign-up;
  - the CSV export text.
- **Flexi membership ledger** (`flexi_ledger.dfy`): a member's account is a
  class with `CheckIn` and `CheckOut` methods. A log table receives one row
  per session.
- **Loyalty leaderboard** (`loyalty.dfy`):
  - the name key;
  - merging bookings and Flexi sessions;
  - the grouping loop;
  - the ranking sort;
  - search, rank lookup and paging.
- **Pantry** (`pantry.dfy`, `items_summary.dfy`): the cart is a class with
  add-or-merge and remove-at-index. Alongside it are the totals and the
  `"2x Oreo, 1x Coke"` summary. The report page's parser of that summary
  reads the summary back into the cart's names and quantities.
- **Reports** (`reports.dfy`, `report_view.dfy`): the per-stream
  accumulation is a class whose methods are tied to pure step functions.
  From its state come the sorted daily table, the totals, the customer
  chart, the package chart and the five best-selling items.

Shared notions live in `base.dfy` and `text.dfy`:

- an `Option` type;
- exact `real` money;
- `Math.round` as `Floor(x + 1/2)`;
- instants as minutes and dates as day numbers;
- ECMAScript `trim`, `split`, `join`, `parseInt` and whitespace.

## Model

| member | source | states |
|---|---|---|
| Base.Round | lib/utils.ts:29 | `Math.round`: the result is within half of x, halves going up |
| Base.OrZero | components/ExtendBookingForm.tsx:44-45 | `Number(v) \|\| 0`: a present value is kept, a missing one reads 0 |
| Pricing.DynamicRate | lib/utils.ts:9-30 | the rate is the list price less 8% for a student or examinee, rounded; it lies within half a peso of the exact discounted price |
| Pricing.FixedPriceIgnoresHours | lib/utils.ts:18-22 | a fixed-price package costs the same whatever the hours |
| Pricing.HourlyWithoutDiscount | lib/utils.ts:18-29 | an hourly package without discount costs round(price × hours) |
| Pricing.DiscountFlagsAreAlternatives | lib/utils.ts:25-27 | student, examinee or both give one and the same discount |
| Pricing.DiscountedRate | lib/utils.ts:25-29 | a discounted rate is round(0.92 × list price) and, for non-negative inputs, never above the undiscounted rate |
| Csv.Cell | lib/utils.ts:47-51 | a string holding a comma is wrapped in double quotes; any other value goes out unchanged |
| Csv.Export | lib/utils.ts:33-36 | there is no CSV exactly when there are no rows |
| Csv.ExportReadBack | lib/utils.ts:39-55 | splitting the export on newlines gives the header then one line per row; the header splits into the keys and each row into its values in header order |
| BookingForm.FindPackage | components/BookingForm.tsx:98 | the first package with the id, and none exactly when no package has it |
| BookingForm.Submit | components/BookingForm.tsx:94-126 | nothing is inserted when the package is unknown; otherwise status Active, the package's name, the hourly or fixed duration, check-out = check-in + duration, the price and the notes, and the customer name, seat, student/examinee/group flags and rentals copied from the form |
| BookingForm.LoyaltyIsFree | components/BookingForm.tsx:71-74 | with the loyalty flag the price is 0 whatever the student, examinee, hourly and hours settings |
| BookingForm.PriceWithoutLoyalty | components/BookingForm.tsx:75-83 | without the loyalty flag the price is the generic seat rate |
| BookingForm.SavedNotesKeepTypedNotes | components/BookingForm.tsx:122-124 | a loyalty award puts "[Loyalty Award]" in front of the notes (alone when they are empty); otherwise the notes are kept |
| BookingForm.CheckOutNotBeforeCheckIn | components/BookingForm.tsx:101-105 | a booking for a non-negative duration never checks out before it checks in |
| ExtendBooking.Extension | components/ExtendBookingForm.tsx:42-45 | the new duration and amount are the old ones (missing counts 0) plus the hours and the fee; check-out moves by the hours from the stored end, or from now when there is none |
| ExtendBooking.Apply | components/ExtendBookingForm.tsx:53-60 | the update writes the duration, check-out, amount and notes, and leaves every other column as it was |
| ExtendBooking.EndMovesWithDuration | components/ExtendBookingForm.tsx:42-44 | with a stored check-out, the end moves by as many hours as the duration grows |
| ExtendBooking.ExtensionNeverShrinks | components/ExtendBookingForm.tsx:43-45 | non-negative hours and fee never lower the duration, the check-out or the amount |
| ExtendBooking.DefaultFeeCharges49PerHour | components/ExtendBookingForm.tsx:35-40 | with the proposed fee the amount grows by 49 per added hour |
| ExtendBooking.ExtensionOverwritesNotes | components/ExtendBookingForm.tsx:59 | the notes after an extension are its own note "Extended by h hrs (+₱c)", kept as its two numbers, whatever the notes were before |
| ExclusiveBooking.NonBlankLines | components/ExclusiveBookingForm.tsx:56 | every line that is not blank after trimming is kept as often as it occurs, and no other line |
| ExclusiveBooking.NonBlankLinesAppend | components/ExclusiveBookingForm.tsx:56 | the filter keeps the order: the lines kept from a concatenation are those kept from each part, one after the other |
| ExclusiveBooking.Pax | components/ExclusiveBookingForm.tsx:55-61 | pax is the number of non-blank guest lines, repeats included, or 1 when there are none |
| ExclusiveBooking.RepeatedGuestCountsTwice | components/ExclusiveBookingForm.tsx:55-61 | a guest written on two lines with a blank line between counts as two people |
| ExclusiveBooking.GuestListChanged | components/ExclusiveBookingForm.tsx:55-61 | typing a guest list sets the list, sets the pax to Pax of the list (its non-blank lines, or 1), and changes no other field |
| ExclusiveBooking.ParseClock | components/ExclusiveBookingForm.tsx:78 | a parsed `HH:mm` is a minute of the day |
| ExclusiveBooking.ParseClockOf | components/ExclusiveBookingForm.tsx:78 | parsing two-digit `HH:mm` gives back its hour and minute |
| ExclusiveBooking.Format12RoundTrip | components/ExclusiveBookingForm.tsx:85-99 | the `h:mm a` end-time text parses back to the minute it was made from |
| ExclusiveBooking.EndMinute | components/ExclusiveBookingForm.tsx:78-79 | the end is a minute of the day: start plus duration, wrapped past midnight |
| ExclusiveBooking.HourlyRate | components/ExclusiveBookingForm.tsx:66-73 | 819.18 an hour for a morning start, 999 otherwise |
| ExclusiveBooking.RoundedRates | components/ExclusiveBookingForm.tsx:82 | the displayed rates are 819 and 999 |
| ExclusiveBooking.MorningIsBeforeNoon | components/ExclusiveBookingForm.tsx:67-68 | for an `HH:mm` start, morning is exactly the hours before 12 |
| ExclusiveBooking.MorningNeverDearer | components/ExclusiveBookingForm.tsx:66-75 | for the same non-negative duration a morning total never exceeds an afternoon total |
| ExclusiveBooking.MorningExample | components/ExclusiveBookingForm.tsx:75 | three morning hours cost 2458: the rate is not rounded before multiplying |
| ExclusiveBooking.AfternoonExample | components/ExclusiveBookingForm.tsx:66-75 | three afternoon hours cost 2997 |
| ExclusiveBooking.Calculate | components/ExclusiveBookingForm.tsx:65-88 | a calculation exists exactly for a valid start time; the shown rate is 819 or 999, the discount flag is set exactly for a morning start, the total is the once-rounded total and the end time is the wrapped end |
| ExclusiveBooking.Save | components/ExclusiveBookingForm.tsx:90-106 | a payload exists exactly for a valid start time; it copies the client name, booking date, start time, duration, pax, guest list and notes from the form, takes the computed total and the 24-hour end time, and is always Confirmed, even on edit |
| ExclusiveBooking.EndTimeWrapsPastMidnight | components/ExclusiveBookingForm.tsx:78-99 | a four-hour booking from 23:00 ends at 03:00 on the same booking date |
| ExclusiveBooking.EditResetsStatus | components/ExclusiveBookingForm.tsx:104 | saving an edited, completed booking makes it Confirmed again |
| FlexiAccounts.PackageChanged | components/FlexiBookingForm.tsx:29-35 | choosing Grind proposes 2609, any other package 5099, and nothing else changes |
| FlexiAccounts.Register | components/FlexiBookingForm.tsx:41-67 | Grind runs 30 days with 60 of 60 hours; any other package runs 40 days with no hour columns; the account starts Inactive and copies the form |
| FlexiAccounts.RegisteredIsSound | components/FlexiBookingForm.tsx:46-54 | a new account expires strictly after its start and starts with its whole balance |
| FlexiLedger.Refusal | app/flexi/page.tsx:80-87 | check-in is refused for expiry first, then for a used-up Grind balance, and otherwise allowed |
| FlexiLedger.AfterCheckIn | app/flexi/page.tsx:79-94 | a refused check-in changes nothing; an allowed one sets Checked In and the check-in time and keeps every other field |
| FlexiLedger.HoursSpent | app/flexi/page.tsx:110-112 | the hours are a whole number of hundredths within half a hundredth of minutes / 60 (halves going up), and never negative for non-negative minutes |
| FlexiLedger.AfterCheckOut | app/flexi/page.tsx:103-138 | no check-in time means no effect; otherwise one log row, status Inactive, the check-in time kept, and a Grind balance of max(0, balance − hours) |
| FlexiLedger.LogTable.Insert | app/flexi/page.tsx:127-132 | the log table gains exactly the new row at its end |
| FlexiLedger.Member.CheckIn | app/flexi/page.tsx:79-101 | the refusal returned and the new account are those of the check-in rule |
| FlexiLedger.Member.CheckOut | app/flexi/page.tsx:103-138 | the log table and the account change as the check-out rule says, or not at all without a check-in time |
| FlexiLedger.SessionHoursNonNegative | app/flexi/page.tsx:110-112 | a session that does not end before it starts logs non-negative hours |
| FlexiLedger.HoursSpentExamples | app/flexi/page.tsx:111-112 | 90 minutes log 1.5 hours and 20 minutes 0.33 |
| FlexiLedger.GrindBalanceFloored | app/flexi/page.tsx:120-123 | a Grind check-out never leaves a negative balance and never raises it |
| FlexiLedger.LongFocusSessionLoggedInFull | app/flexi/page.tsx:115-123 | a Monthly Focus session over five hours only warns: it is logged in full and the balance is untouched |
| FlexiLedger.CheckInKeepsSound | app/flexi/page.tsx:89-94 | check-in keeps a sound account sound |
| FlexiLedger.CheckOutKeepsSound | app/flexi/page.tsx:120-138 | check-out keeps a sound account sound |
| FlexiLedger.SecondCheckOutLogsAgain | app/flexi/page.tsx:135-138 | check-out does not clear the check-in time, so a second check-out logs the same session again |
| FlexiLedger.ButtonNeverLogsTwice | app/flexi/page.tsx:296-310 | when the second press sees the member as the first one left it, "Out" is no longer offered, so no second session is logged |
| FlexiLedger.RunKeepsBalance | app/flexi/page.tsx:79-138 | over presses in time order an account stays sound and a Grind balance never grows nor drops by more than the hours logged |
| Loyalty.RemovePeriods | app/loyalty/page.tsx:48 | the result has no period and keeps every other character of the name as often as it occurs |
| Loyalty.RemovePeriodsAppend | app/loyalty/page.tsx:48 | periods are removed character by character, so the other characters keep their order |
| Loyalty.PeriodsDoNotChangeKey | app/loyalty/page.tsx:46-54 | a name and the same name without its periods have the same key |
| Loyalty.CaseDoesNotChangeKey | app/loyalty/page.tsx:46-54 | a name and its lower-cased form have the same key |
| Loyalty.SameLowerSameKey | app/loyalty/page.tsx:46-54 | names that differ only in capitals have the same key |
| Loyalty.AccentedCapitalsFold | app/loyalty/page.tsx:46-54 | "NUÑEZ" and "Nuñez" have the same key |
| Loyalty.ShortKey | app/loyalty/page.tsx:48-51 | a cleaned name of at most two parts is its own key |
| Loyalty.TwoWordKey | app/loyalty/page.tsx:49-51 | two words keep their inner whitespace as typed |
| Loyalty.LongKey | app/loyalty/page.tsx:49-53 | a cleaned name of more than two parts keys on its first and last parts |
| Loyalty.ThreeWordKey | app/loyalty/page.tsx:49-53 | a middle word does not change the key |
| Loyalty.UnknownIsStable | app/loyalty/page.tsx:47 | the key "unknown" of an empty name is its own key |
| Loyalty.KeyIsStable | app/loyalty/page.tsx:46-54 | a non-empty key is its own key |
| Loyalty.SessionVisitsContents | app/loyalty/page.tsx:90-103 | there are as many visits as named sessions, and the named session i is visit number "named sessions before i", with its name, date and hours |
| Loyalty.MergeRecords | app/loyalty/page.tsx:78-103 | the records are every booking, then every named session, in order |
| Loyalty.Aggregate | app/loyalty/page.tsx:106-129 | the loop builds the board of the visits taken one at a time |
| Loyalty.TallyCounts | app/loyalty/page.tsx:108-122 | one entry per key that occurs, listed once; its count is the number of visits under the key and its hours their total |
| Loyalty.TallyLatest | app/loyalty/page.tsx:112-128 | an entry's last visit is the latest date under its key, and its name that of the first visit on that date |
| Loyalty.CountsAddUp | app/loyalty/page.tsx:108-122 | the counts add up to the number of visits |
| Loyalty.SortByRank | app/loyalty/page.tsx:132-135 | the list is a permutation of the entries, ordered by count, then hours, descending |
| Loyalty.LeaderboardKeysDistinct | app/loyalty/page.tsx:106-135 | no two leaderboard entries share a key |
| Loyalty.Search | app/loyalty/page.tsx:159-161 | an entry is kept exactly when its name contains the term, ignoring case |
| Loyalty.SearchAppend | app/loyalty/page.tsx:159-161 | the filter works entry by entry and keeps order and repeats: the result on a concatenation is the results on its parts, one after the other |
| Loyalty.SearchKeepsRanking | app/loyalty/page.tsx:159-161 | filtering keeps the ranked order |
| Loyalty.EmptySearchKeepsAll | app/loyalty/page.tsx:159-161 | the empty term keeps every entry |
| Loyalty.RankOf | app/loyalty/page.tsx:277 | the first place holding the name, −1 exactly when none does |
| Loyalty.RankIsPlace | app/loyalty/page.tsx:277 | the rank shown for an entry is its place on the whole leaderboard |
| Loyalty.Page | app/loyalty/page.tsx:164-166 | the page is the slice [page × 10, page × 10 + 10) of the list |
| Loyalty.EveryEntryOnItsPage | app/loyalty/page.tsx:164-166 | entry i is item i mod 10 of page i div 10 |
| Pantry.QuantityInput | components/PantryOrderForm.tsx:189 | the quantity is the parsed number, or 1 when that is NaN or 0; never 0 |
| Pantry.FindItem | components/PantryOrderForm.tsx:64 | an item with the id, and none exactly when there is no such item |
| Pantry.IndexOfId | components/PantryOrderForm.tsx:67 | the first entry with the id, −1 exactly when none has it |
| Pantry.SpliceStart | components/PantryOrderForm.tsx:83 | the splice start lies within the cart |
| Pantry.OrderForm.AddToCart | components/PantryOrderForm.tsx:62-79 | the cart becomes the merged-or-appended cart and ids stay distinct; the selection and quantity reset exactly when an item was added |
| Pantry.OrderForm.RemoveFromCart | components/PantryOrderForm.tsx:81-85 | the cart becomes the spliced cart and the invariant holds |
| Pantry.AddWithoutItem | components/PantryOrderForm.tsx:63-65 | no selection or an unknown id leaves the cart unchanged |
| Pantry.AddExisting | components/PantryOrderForm.tsx:67-71 | an item already in the cart raises that entry's quantity in place; length and the other entries stay |
| Pantry.AddNew | components/PantryOrderForm.tsx:72-74 | a new item is appended once, at the end, with the chosen quantity |
| Pantry.AddedKeepsInvariant | components/PantryOrderForm.tsx:67-74 | adding keeps the ids distinct and each entry true to the item list |
| Pantry.AddedTotals | components/PantryOrderForm.tsx:62-94 | adding raises the total by price × quantity and the total quantity by the quantity |
| Pantry.RemoveAtIndex | components/PantryOrderForm.tsx:81-85 | an index inside the cart drops exactly that entry, keeping the others in order; past the end nothing changes; a negative index counts from the end |
| Pantry.RemovedKeepsInvariant | components/PantryOrderForm.tsx:81-85 | removing keeps the ids distinct and entries true to the item list |
| Pantry.RemovedTotals | components/PantryOrderForm.tsx:81-94 | removing takes the entry's price × quantity off the total and its quantity off the total quantity |
| Pantry.Rendered | components/PantryOrderForm.tsx:95 | each entry renders as "<qty>x <name>", in cart order |
| ItemsSummary.MatchItem | app/reports/page.tsx:260 | a match has digits, an "x", one whitespace character and a non-empty one-line name, with the digits' value as quantity |
| ItemsSummary.MatchOfShape | app/reports/page.tsx:260 | every text of that shape matches, with that quantity and name |
| ItemsSummary.Matches | app/reports/page.tsx:258-266 | matching segments are kept in order and the others dropped |
| ItemsSummary.AddItemsCounts | app/reports/page.tsx:261-264 | each name's count rises by exactly the quantities under it; a name gets an entry iff it occurs; keys stay listed once |
| ItemsSummary.AddItemSum | app/reports/page.tsx:261-264 | one item raises the sum of the counts by its quantity |
| ItemsSummary.Sold | components/PantryOrderForm.tsx:95 | the cart's names and quantities, in order |
| ItemsSummary.SummaryRoundTrip | app/reports/page.tsx:257-266 | parsing the summary of a cart with readable names gives back every entry's name and quantity, in order |
| ItemsSummary.SummaryCounts | app/reports/page.tsx:257-266 | counting one summary gives each name its cart quantity, and a key exactly for the names in the cart |
| Reports.FoldConcat | app/reports/page.tsx:191-268 | visiting two lists of rows in turn is visiting their concatenation |
| Reports.Accumulator.InitDay | app/reports/page.tsx:186-188 | a day is opened with zero columns only when it is new |
| Reports.Accumulator.Add | app/reports/page.tsx:191-268 | one callback changes the state as the step of its source says |
| Reports.Accumulator.AddTimesheet | app/reports/page.tsx:191-211 | amount to the day and the total, one check-in, one package under its name, one customer type |
| Reports.Accumulator.AddExclusive | app/reports/page.tsx:214-227 | amount to the day and the total, pax or 1 check-ins and Exclusive customers |
| Reports.Accumulator.AddFlexiSale | app/reports/page.tsx:230-237 | amount to the day and the total, one Flexi customer |
| Reports.Accumulator.AddFlexiLog | app/reports/page.tsx:240-245 | one check-in on the day and in the total |
| Reports.Accumulator.AddPantrySale | app/reports/page.tsx:249-268 | amount to the day and the total, and the summary's items counted |
| Reports.Accumulator.AddPantryAmount | app/reports/page.tsx:253-255 | the amount is added to the sale's day and to the pantry total; nothing else changes |
| Reports.Accumulator.CountPantryItems | app/reports/page.tsx:257-267 | the summary's items are added to the item counts; nothing else changes |
| Reports.Accumulator.AddAll | app/reports/page.tsx:191-268 | the loop leaves the state the rows give, visited in order |
| Reports.CountItems | app/reports/page.tsx:257-266 | the loop adds exactly the parsed items of the summary to the counts |
| Reports.StepSound | app/reports/page.tsx:186-268 | each callback keeps the days listed once, every counter the sum of its column over the days, and the count keys listed |
| Reports.FoldSound | app/reports/page.tsx:186-268 | any rows keep the accumulator sound |
| Reports.FoldColumns | app/reports/page.tsx:191-268 | every running total grows by exactly what the rows bring to it |
| Reports.FoldCounters | app/reports/page.tsx:191-245 | check-ins grow by bookings + exclusive guests + Flexi visits; packages sold and customers by bookings; Exclusive by guests; Flexi by memberships |
| Reports.FoldDays | app/reports/page.tsx:186-251 | a day is in the table iff it was before or some row falls on it |
| Reports.FoldCounts | app/reports/page.tsx:203-266 | package and item counts are those of every booking's package and every sale's summary |
| ReportView.SortByDate | app/reports/page.tsx:281 | the daily rows are a permutation, earliest first, with the same sums |
| ReportView.Positive | app/reports/page.tsx:290 | a slice is kept exactly when its value is positive |
| ReportView.PositiveAppend | app/reports/page.tsx:290 | the filter works slice by slice and keeps the order |
| ReportView.SortByValue | app/reports/page.tsx:299-304 | the entries are a permutation, largest first, with the same sum |
| ReportView.Take | app/reports/page.tsx:305 | at most n entries, a prefix of the list, all of it when shorter |
| ReportView.Process | app/reports/page.tsx:171-317 | the five loops then the formatting give the report of all rows in page order |
| ReportView.ReportTotals | app/reports/page.tsx:174-268 | each stream total is the sum of its rows' amounts, and the grand total the sum of all revenue |
| ReportView.ReportCheckIns | app/reports/page.tsx:191-245 | check-ins are bookings + exclusive guests (pax or 1) + Flexi visits; sales add none |
| ReportView.ReportDailyTotals | app/reports/page.tsx:271-315 | the grand total is the sum of the daily totals and the check-ins the sum of the daily check-ins |
| ReportView.ReportDaily | app/reports/page.tsx:271-281 | one row per day having any row, strictly ascending, each with its day's columns and their sum |
| ReportView.ReportPackages | app/reports/page.tsx:293-299 | entries largest first, each package name listed once with the bookings under it, every package present, adding up to the packages sold = the bookings |
| ReportView.ReportBestSellers | app/reports/page.tsx:302-305 | five entries, or one per item name sold when fewer were sold, largest first, each a name that was sold, listed once, with its quantity over all summaries; no item left out sold more than a listed one |
| ReportView.BestSellersSold | app/reports/page.tsx:302-305 | the best sellers name items that occur in some pantry summary, no name twice |
| ReportView.SortKeepsNames | app/reports/page.tsx:299 | sorting by value keeps entries under distinct names distinct |
| ReportView.ReportDemographics | app/reports/page.tsx:208-236 | only positive slices; Student + Examinee + Regular = bookings; Exclusive = guests and Flexi Member = memberships, shown iff positive |
| ReportView.ReportCustomerTypes | app/reports/page.tsx:207-210 | Student counts the bookings flagged student, Examinee those flagged board examinee and not student, Regular the others; each is shown iff positive |
| ReportView.BuildReportRows | app/reports/page.tsx:312 | the grand total is the revenue of the five sources added up |

## Left out

- Database calls: every query, insert, update and delete. Fetched rows are input sequences; writes are returned values or the state of the modelled class. The server-side filters (bookings and sessions of at least three hours for the leaderboard, the report's date range) are not modelled.
- The clock: "now" is a parameter everywhere.
- Date formatting and time zones: `format(..., "yyyy-MM-dd")` bucketing is a day number carried by each row; instants are minutes. A row's day is not derived from its instant.
- Floating point: money and hours are exact reals. `0.08`, `0.18` and the two-decimal rounding are exact, so IEEE artefacts at .5 boundaries are not captured.
- Rendering: charts, tables, toasts, dialogs and the Blob download of the CSV.
- Authentication, routing, layout and the thin CRUD forms and pages that only copy fields.
- The Flexi check-out is one atomic step. It is two remote calls in the page, and a partial failure between them is not modelled.
- JavaScript object keys: dictionaries are maps plus an insertion-ordered key list. Keys that clash with `Object.prototype` members ("constructor", "__proto__") behave differently in the page. Integer-like keys, which `Object.keys` lists first, are not modelled.
- Ties in sorts: the model's sorts are stable. The properties proved (permutation, order) hold for any tie order.
- `parseInt` of very long digit strings: the model's value is exact, where JavaScript loses precision past 2^53.
- Loyalty.Aggregate: proved for any key function. The page passes `getNormalizedKey`, whose own properties are the `*Key*` lemmas.
- Text.Lower: lower-cases the capitals of ASCII, Latin-1 and Latin Extended-A. Capitals of other scripts (Greek, Cyrillic, …) and U+0130, whose lower-case form is two characters long, are kept as typed, where `toLowerCase` folds them. Loyalty.NormalizedKey and Loyalty.Search inherit this.
- BookingForm.Notes: the note an extension writes is kept as its two numbers, `ExtendedBy(h, c)`, not as the text "Extended by h hrs (+₱c)". JavaScript's rendering of numbers as text is not modelled, so a typed note that equals that text is a different value in the model. ExtendBooking.Extension and ExtendBooking.ExtensionOverwritesNotes use this form.
- FlexiLedger.ButtonNeverLogsTwice: presses are serialised, each seeing the member as the previous one left it. In the page `handleCheckOut` is async and the "Out" button stays enabled. A second click before the list is fetched again runs on the same stale member and logs a second session. That interleaving is not modelled.
- Loyalty.KeyIsStable: holds only for non-empty keys. A name made only of periods has the empty key, whose own key is "unknown".
- Null columns: a null `package_type` or `items_summary` is the empty string and a null `pax` is 0. Both fall back as in the page.
