/** app/loyalty/page.tsx: the loyalty leaderboard. Bookings and Flexi
    sessions of three hours or more become visits; visits are grouped under a
    key made from the customer's name; each group counts its visits, adds up
    their hours and remembers the latest visit and the name used on it; the
    groups are ranked by visits, then hours; the list can be searched and is
    shown ten to a page. */
module Loyalty {

  import opened Base
  import opened Text

  const ItemsPerPage: nat := 10

  // ------------------------------------------------------ the name key

  /** `replace(/[.]/g, "")`. */
  function RemovePeriods(s: string): (r: string)
    ensures '.' !in r
    ensures multiset(r) == multiset(s)['.' := 0]
  {
    if s == [] then []
    else
      assert s == [s[0]] + s[1..];
      Kept(s[0]) + RemovePeriods(s[1..])
  }

  /** What `RemovePeriods` keeps of one character. */
  function Kept(c: char): string
  {
    if c == '.' then [] else [c]
  }

  /** Removing periods works character by character, so the other
      characters stay in their order. */
  lemma {:induction false} RemovePeriodsAppend(a: string, b: string)
    ensures RemovePeriods(a + b) == RemovePeriods(a) + RemovePeriods(b)
  {
    if a != [] {
      TailOfConcat(a, b);
      assert RemovePeriods(a + b) == Kept(a[0]) + RemovePeriods(a[1..] + b);
      RemovePeriodsAppend(a[1..], b);
      AppendAssoc(Kept(a[0]), RemovePeriods(a[1..]), RemovePeriods(b));
    } else {
      assert a + b == b;
    }
  }

  lemma RemovePeriodsOne(c: char)
    ensures RemovePeriods([c]) == if c == '.' then [] else [c]
  {
  }

  /** The name with its periods removed, lower-cased and trimmed. */
  function Clean(fullName: string): string
  {
    Trim(Lower(RemovePeriods(fullName)))
  }

  /** `getNormalizedKey`: "unknown" for an empty name; otherwise the cleaned
      name when it has at most two whitespace-separated parts, and its first
      and last parts joined by one space when it has more. */
  function NormalizedKey(fullName: string): string
  {
    if fullName == [] then "unknown" else KeyOfClean(Clean(fullName))
  }

  /** The key of a cleaned, non-empty name. */
  function KeyOfClean(cleanName: string): string
  {
    var parts := SplitRuns(cleanName);
    if |parts| <= 2 then cleanName else parts[0] + " " + parts[|parts| - 1]
  }

  /** Text without periods and capitals, as cleaning leaves it. */
  predicate CanonicalChars(s: string)
  {
    forall i :: 0 <= i < |s| ==> s[i] != '.' && LowerChar(s[i]) == s[i]
  }

  /** A word as it appears in a key: no whitespace, no period, no capital. */
  predicate KeyWord(w: string)
  {
    IsWord(w) && CanonicalChars(w)
  }

  predicate Blanks(pad: string)
  {
    pad != [] && forall i :: 0 <= i < |pad| ==> IsSpace(pad[i])
  }

  lemma CanonicalAppend(a: string, b: string)
    requires CanonicalChars(a) && CanonicalChars(b)
    ensures CanonicalChars(a + b)
  {
    forall i | 0 <= i < |a + b| ensures (a + b)[i] != '.' && LowerChar((a + b)[i]) == (a + b)[i] {
      if i < |a| {
        assert (a + b)[i] == a[i];
      } else {
        assert (a + b)[i] == b[i - |a|];
      }
    }
  }

  lemma BlanksAreCanonical(pad: string)
    requires Blanks(pad)
    ensures CanonicalChars(pad)
  {
  }

  /** Text already free of periods and capitals is left alone by the
      cleaning. */
  lemma {:induction false} CleanOfCanonical(s: string)
    requires Trimmed(s) && CanonicalChars(s)
    ensures Clean(s) == s
  {
    RemovePeriodsOfNone(s);
    assert Lower(s) == s;
    TrimOfTrimmed(s);
  }

  lemma {:induction false} RemovePeriodsOfNone(s: string)
    requires forall i :: 0 <= i < |s| ==> s[i] != '.'
    ensures RemovePeriods(s) == s
  {
    if s != [] {
      RemovePeriodsOfNone(s[1..]);
      assert [s[0]] + s[1..] == s;
    }
  }

  /** A cleaned name that splits into at most two parts is its own key. */
  lemma ShortKey(s: string)
    requires s != [] && Trimmed(s) && CanonicalChars(s)
    requires |SplitRuns(s)| <= 2
    ensures NormalizedKey(s) == s
  {
    CleanOfCanonical(s);
  }

  /** Two words keep the whitespace between them as it is: "juan  cruz"
      and "juan cruz" are different keys. */
  lemma TwoWordKey(a: string, pad: string, b: string)
    requires KeyWord(a) && Blanks(pad) && KeyWord(b)
    ensures NormalizedKey(a + pad + b) == a + pad + b
  {
    var s := a + pad + b;
    BlanksAreCanonical(pad);
    CanonicalAppend(a, pad);
    CanonicalAppend(a + pad, b);
    assert s[0] == a[0] && s[|s| - 1] == b[|b| - 1];
    SplitRunsCons(a, pad, b);
    SplitRunsOfWord(b);
    ShortKey(s);
  }

  /** A cleaned name that splits into more than two parts keys on its
      first and last. */
  lemma LongKey(s: string)
    requires s != [] && Trimmed(s) && CanonicalChars(s)
    requires |SplitRuns(s)| > 2
    ensures NormalizedKey(s) == SplitRuns(s)[0] + " " + SplitRuns(s)[|SplitRuns(s)| - 1]
  {
    CleanOfCanonical(s);
  }

  lemma ThreeParts(a: string, m: string, b: string)
    requires IsWord(a) && IsWord(m) && IsWord(b)
    ensures SplitRuns(a + " " + m + " " + b) == [a, m, b]
  {
    assert a + " " + m + " " + b == a + " " + (m + " " + b);
    SplitRunsCons(m, " ", b);
    SplitRunsOfWord(b);
    SplitRunsCons(a, " ", m + " " + b);
  }

  /** Three words: only the first and the last are kept, so a middle name
      or initial does not matter. */
  lemma ThreeWordKey(a: string, m: string, b: string)
    requires KeyWord(a) && KeyWord(m) && KeyWord(b)
    ensures NormalizedKey(a + " " + m + " " + b) == a + " " + b
  {
    var s := a + " " + m + " " + b;
    CanonicalAppend(a, " ");
    CanonicalAppend(a + " ", m);
    CanonicalAppend(a + " " + m, " ");
    CanonicalAppend(a + " " + m + " ", b);
    assert s[0] == a[0] && s[|s| - 1] == b[|b| - 1];
    ThreeParts(a, m, b);
    LongKey(s);
  }

  lemma LoweredChars(fullName: string)
    ensures CanonicalChars(Lower(RemovePeriods(fullName)))
  {
    var r := RemovePeriods(fullName);
    var l := Lower(r);
    forall i | 0 <= i < |l| ensures l[i] != '.' && LowerChar(l[i]) == l[i] {
      assert r[i] in r;
      LowerCharTwice(r[i]);
      LowerCharOfPeriod(r[i]);
    }
  }

  lemma TrimmedChars(s: string)
    requires CanonicalChars(s)
    ensures CanonicalChars(Trim(s))
  {
    var t := Trim(s);
    forall i | 0 <= i < |t| ensures t[i] != '.' && LowerChar(t[i]) == t[i] {
      assert t[i] in t;
      var j :| 0 <= j < |s| && s[j] == t[i];
    }
  }

  /** The characters of a cleaned name carry no period and no capital. */
  lemma CleanChars(fullName: string)
    ensures CanonicalChars(Clean(fullName))
  {
    LoweredChars(fullName);
    TrimmedChars(Lower(RemovePeriods(fullName)));
  }

  /** A piece of a canonical string is made of canonical characters. */
  lemma PieceIsKeyWord(s: string, k: int)
    requires CanonicalChars(s) && 0 <= k < |SplitRuns(s)| && SplitRuns(s)[k] != []
    ensures KeyWord(SplitRuns(s)[k])
  {
    var w := SplitRuns(s)[k];
    forall j | 0 <= j < |w| ensures w[j] != '.' && LowerChar(w[j]) == w[j] && !IsSpace(w[j]) {
      SplitRunsChars(s, k, j);
      var i :| 0 <= i < |s| && s[i] == w[j];
    }
  }

  lemma UnknownIsStable()
    ensures NormalizedKey("unknown") == "unknown"
  {
    var u := "unknown";
    assert Trimmed(u);
    assert CanonicalChars(u);
    assert NoSpace(u);
    SplitRunsOfWord(u);
    ShortKey(u);
  }

  /** A non-empty key is its own key: keys are stable under normalising
      again. (An all-period name has the empty key, whose own key is
      "unknown".) */
  lemma KeyIsStable(fullName: string)
    requires NormalizedKey(fullName) != []
    ensures NormalizedKey(NormalizedKey(fullName)) == NormalizedKey(fullName)
  {
    if fullName == [] {
      UnknownIsStable();
    } else {
      NamedKeyIsStable(fullName);
    }
  }

  lemma NamedKeyIsStable(fullName: string)
    requires fullName != [] && NormalizedKey(fullName) != []
    ensures NormalizedKey(NormalizedKey(fullName)) == NormalizedKey(fullName)
  {
    var c := Clean(fullName);
    CleanChars(fullName);
    assert Trimmed(c);
    CleanKeyIsStable(c);
  }

  lemma CleanKeyIsStable(cleanName: string)
    requires CanonicalChars(cleanName) && Trimmed(cleanName)
    requires KeyOfClean(cleanName) != []
    ensures NormalizedKey(KeyOfClean(cleanName)) == KeyOfClean(cleanName)
  {
    if |SplitRuns(cleanName)| <= 2 {
      ShortKeyIsStable(cleanName);
    } else {
      LongKeyIsStable(cleanName);
    }
  }

  lemma ShortKeyIsStable(cleanName: string)
    requires CanonicalChars(cleanName) && Trimmed(cleanName) && |SplitRuns(cleanName)| <= 2
    requires KeyOfClean(cleanName) != []
    ensures NormalizedKey(KeyOfClean(cleanName)) == KeyOfClean(cleanName)
  {
    assert KeyOfClean(cleanName) == cleanName;
    ShortKey(cleanName);
  }

  lemma LongKeyIsStable(cleanName: string)
    requires CanonicalChars(cleanName) && Trimmed(cleanName) && |SplitRuns(cleanName)| > 2
    ensures NormalizedKey(KeyOfClean(cleanName)) == KeyOfClean(cleanName)
  {
    var parts := SplitRuns(cleanName);
    if cleanName == [] {
      assert false;
    }
    SplitRunsEnds(cleanName);
    PieceIsKeyWord(cleanName, 0);
    PieceIsKeyWord(cleanName, |parts| - 1);
    var key := parts[0] + " " + parts[|parts| - 1];
    assert KeyOfClean(cleanName) == key;
    TwoWordKey(parts[0], " ", parts[|parts| - 1]);
  }

  /** Periods do not change the key: "Ma. Cruz" and "Ma Cruz" are one
      customer. */
  lemma PeriodsDoNotChangeKey(fullName: string)
    requires RemovePeriods(fullName) != []
    ensures NormalizedKey(RemovePeriods(fullName)) == NormalizedKey(fullName)
  {
    var r := RemovePeriods(fullName);
    RemovePeriodsOfNone(r);
  }

  /** Capitals do not change the key: "NUÑEZ" and "Nuñez" are one
      customer. */
  lemma CaseDoesNotChangeKey(fullName: string)
    ensures NormalizedKey(Lower(fullName)) == NormalizedKey(fullName)
  {
    if fullName != [] {
      LowerRemovePeriods(fullName);
      LowerTwice(RemovePeriods(fullName));
    }
  }

  lemma {:induction false} LowerRemovePeriods(s: string)
    ensures RemovePeriods(Lower(s)) == Lower(RemovePeriods(s))
  {
    if s != [] {
      var l := Lower(s);
      assert l[0] == LowerChar(s[0]) && l[1..] == Lower(s[1..]);
      LowerRemovePeriods(s[1..]);
      LowerCharOfPeriod(s[0]);
      assert RemovePeriods(l) == Kept(LowerChar(s[0])) + RemovePeriods(l[1..]);
      LowerAppend(Kept(s[0]), RemovePeriods(s[1..]));
      assert Lower(Kept(s[0])) == Kept(LowerChar(s[0]));
    }
  }

  /** Names that differ only in capitals share their key. */
  lemma SameLowerSameKey(a: string, b: string)
    requires Lower(a) == Lower(b)
    ensures NormalizedKey(a) == NormalizedKey(b)
  {
    CaseDoesNotChangeKey(a);
    CaseDoesNotChangeKey(b);
  }

  lemma AccentedCapitalsFold()
    ensures NormalizedKey("NUÑEZ") == NormalizedKey("Nuñez")
  {
    var a, b := "NUÑEZ", "Nuñez";
    assert Lower(a) == Lower(b) by {
      forall i | 0 <= i < 5 ensures Lower(a)[i] == Lower(b)[i] {
        assert LowerChar(a[i]) == LowerChar(b[i]);
      }
    }
    SameLowerSameKey(a, b);
  }

  // ------------------------------------------------------ the visits

  /** A booking of three hours or more. */
  datatype BookingRow = BookingRow(customerName: string, checkInTime: Instant, durationHours: real)

  /** A Flexi session of three hours or more, with the name of its account
      when the join found one. */
  datatype FlexiLogRow = FlexiLogRow(clientName: Option<string>, checkInTime: Instant, durationHours: real)

  datatype Visit = Visit(name: string, date: Instant, hours: real)

  function BookingVisit(b: BookingRow): Visit
  {
    Visit(b.customerName, b.checkInTime, b.durationHours)
  }

  /** One visit per booking, in order. */
  function BookingVisits(bookings: seq<BookingRow>): (r: seq<Visit>)
    ensures |r| == |bookings|
    ensures forall i :: 0 <= i < |bookings| ==> r[i] == BookingVisit(bookings[i])
  {
    if bookings == [] then []
    else BookingVisits(bookings[..|bookings| - 1]) + [BookingVisit(bookings[|bookings| - 1])]
  }

  predicate Named(log: FlexiLogRow)
  {
    log.clientName.Some? && log.clientName.value != []
  }

  function SessionVisit(log: FlexiLogRow): Visit
    requires Named(log)
  {
    Visit(log.clientName.value, log.checkInTime, log.durationHours)
  }

  /** The number of sessions whose account has a name. */
  function NamedCount(logs: seq<FlexiLogRow>): nat
  {
    if logs == [] then 0
    else NamedCount(logs[..|logs| - 1]) + (if Named(logs[|logs| - 1]) then 1 else 0)
  }

  /** Sessions whose account has no name are skipped. */
  function SessionVisits(logs: seq<FlexiLogRow>): (r: seq<Visit>)
    ensures |r| <= |logs|
    ensures forall k :: 0 <= k < |r| ==> r[k].name != []
    ensures (forall i :: 0 <= i < |logs| ==> Named(logs[i])) ==> |r| == |logs|
  {
    if logs == [] then []
    else
      var last := logs[|logs| - 1];
      SessionVisits(logs[..|logs| - 1]) + (if Named(last) then [SessionVisit(last)] else [])
  }

  /** The named sessions become one visit each, in order: the named session
      i is visit number "named sessions before i", and there are no other
      visits. */
  lemma {:induction false} SessionVisitsContents(logs: seq<FlexiLogRow>)
    ensures |SessionVisits(logs)| == NamedCount(logs)
    ensures forall i :: 0 <= i < |logs| && Named(logs[i]) ==>
      NamedCount(logs[..i]) < |SessionVisits(logs)| && SessionVisits(logs)[NamedCount(logs[..i])] == SessionVisit(logs[i])
  {
    if logs != [] {
      var init, last := logs[..|logs| - 1], logs[|logs| - 1];
      SessionVisitsContents(init);
      assert forall i :: 0 <= i < |init| ==> logs[..i] == init[..i];
      assert logs[..|init|] == init;
    }
  }

  /** Lines 79-103: every booking, then every named session, in order. */
  method MergeRecords(bookings: seq<BookingRow>, logs: seq<FlexiLogRow>) returns (records: seq<Visit>)
    ensures records == BookingVisits(bookings) + SessionVisits(logs)
  {
    records := [];
    for i := 0 to |bookings|
      invariant records == BookingVisits(bookings[..i])
    {
      var item := bookings[i];
      assert bookings[..i + 1][..i] == bookings[..i];
      records := records + [Visit(item.customerName, item.checkInTime, item.durationHours)];
    }
    assert bookings[..|bookings|] == bookings;
    for j := 0 to |logs|
      invariant records == BookingVisits(bookings) + SessionVisits(logs[..j])
    {
      var item := logs[j];
      assert logs[..j + 1][..j] == logs[..j];
      if item.clientName.Some? && item.clientName.value != [] {
        records := records + [Visit(item.clientName.value, item.checkInTime, item.durationHours)];
      }
    }
    assert logs[..|logs|] == logs;
  }

  // ------------------------------------------------------ the stats

  /** One leaderboard entry. */
  datatype Stat = Stat(name: string, count: nat, totalHours: real, lastVisit: Instant)

  /** The `stats` dictionary: its entries, and its keys in insertion order. */
  datatype Board = Board(stats: map<string, Stat>, order: seq<string>)

  /** One turn of the `forEach` of lines 108-129, grouping by `keyOf`. */
  function Step(board: Board, record: Visit, keyOf: string -> string): Board
  {
    var key := keyOf(record.name);
    var b := Opened(board, record, keyOf);
    Board(b.stats[key := Updated(b.stats[key], record)], b.order)
  }

  /** A key seen for the first time gets an empty entry, named and dated
      after the visit, and goes to the end of the order. */
  function Opened(board: Board, record: Visit, keyOf: string -> string): (r: Board)
    ensures keyOf(record.name) in r.stats
  {
    var key := keyOf(record.name);
    if key !in board.stats then Board(board.stats[key := Stat(record.name, 0, 0.0, record.date)], board.order + [key])
    else board
  }

  /** One more visit on an entry: counted, its hours added, and its name
      and date taken from the visit when the visit is later. */
  function Updated(entry: Stat, record: Visit): Stat
  {
    var counted := entry.(count := entry.count + 1, totalHours := entry.totalHours + record.hours);
    if record.date > counted.lastVisit then counted.(lastVisit := record.date, name := record.name)
    else counted
  }

  /** The board after the visits, one at a time, in order. The grouping
      facts below hold for any key function; the page uses
      `NormalizedKey`. */
  function Tally(records: seq<Visit>, keyOf: string -> string): Board
  {
    if records == [] then Board(map[], [])
    else Step(Tally(records[..|records| - 1], keyOf), records[|records| - 1], keyOf)
  }

  lemma TallyPrefix(records: seq<Visit>, i: int, keyOf: string -> string)
    requires 0 <= i < |records|
    ensures Tally(records[..i + 1], keyOf) == Step(Tally(records[..i], keyOf), records[i], keyOf)
  {
    assert records[..i + 1][..i] == records[..i];
  }

  /** Lines 106-129 as the loop they are; the page groups with
      `NormalizedKey`. */
  method Aggregate(records: seq<Visit>, keyOf: string -> string) returns (stats: map<string, Stat>, order: seq<string>)
    ensures Board(stats, order) == Tally(records, keyOf)
  {
    stats := map[];
    order := [];
    var i := 0;
    while i < |records|
      invariant 0 <= i <= |records|
      invariant Board(stats, order) == Tally(records[..i], keyOf)
    {
      ghost var board := Board(stats, order);
      var record := records[i];
      var key := keyOf(record.name);
      if key !in stats {
        stats := stats[key := Stat(record.name, 0, 0.0, record.date)];
        order := order + [key];
      }
      assert Board(stats, order) == Opened(board, record, keyOf);
      var entry := stats[key];
      entry := entry.(count := entry.count + 1, totalHours := entry.totalHours + record.hours);
      if record.date > entry.lastVisit {
        entry := entry.(lastVisit := record.date, name := record.name);
      }
      assert entry == Updated(stats[key], record);
      TallyPrefix(records, i, keyOf);
      stats := stats[key := entry];
      i := i + 1;
    }
    assert records[..i] == records;
  }

  /** The number of visits under a key. */
  function CountKey(records: seq<Visit>, key: string, keyOf: string -> string): nat
  {
    if records == [] then 0
    else CountKey(records[..|records| - 1], key, keyOf) + (if keyOf(records[|records| - 1].name) == key then 1 else 0)
  }

  /** The hours of the visits under a key. */
  function HoursKey(records: seq<Visit>, key: string, keyOf: string -> string): real
  {
    if records == [] then 0.0
    else HoursKey(records[..|records| - 1], key, keyOf)
         + (if keyOf(records[|records| - 1].name) == key then records[|records| - 1].hours else 0.0)
  }

  predicate NoDuplicates(keys: seq<string>)
  {
    forall i, j :: 0 <= i < j < |keys| ==> keys[i] != keys[j]
  }

  /** What the board holds after any visits: one entry per key that occurs,
      listed once in `order`; each entry's name has that key, its count is the
      number of visits under the key and its hours their total. */
  ghost predicate Tallies(records: seq<Visit>, board: Board, keyOf: string -> string)
  {
    && (forall k :: k in board.stats <==> k in board.order)
    && NoDuplicates(board.order)
    && (forall k :: k in board.stats ==>
          && keyOf(board.stats[k].name) == k
          && board.stats[k].count == CountKey(records, k, keyOf)
          && board.stats[k].totalHours == HoursKey(records, k, keyOf))
    && (forall k :: k !in board.stats ==> CountKey(records, k, keyOf) == 0 && HoursKey(records, k, keyOf) == 0.0)
  }

  lemma {:induction false} TallyCounts(records: seq<Visit>, keyOf: string -> string)
    ensures Tallies(records, Tally(records, keyOf), keyOf)
  {
    if records != [] {
      TallyCounts(records[..|records| - 1], keyOf);
      TalliesStep(records, Tally(records[..|records| - 1], keyOf), keyOf);
    }
  }

  /** One more visit keeps the board tallying the visits. */
  lemma TalliesStep(records: seq<Visit>, before: Board, keyOf: string -> string)
    requires records != [] && Tallies(records[..|records| - 1], before, keyOf)
    ensures Tallies(records, Step(before, records[|records| - 1], keyOf), keyOf)
  {
    var last := records[|records| - 1];
    var after := Step(before, last, keyOf);
    var key := keyOf(last.name);
    assert NoDuplicates(after.order) by {
      if key !in before.stats {
        forall i, j | 0 <= i < j < |after.order| ensures after.order[i] != after.order[j] {
          if j == |before.order| {
            assert after.order[i] == before.order[i];
            assert before.order[i] in before.stats;
          } else {
            assert after.order[i] == before.order[i] && after.order[j] == before.order[j];
          }
        }
      }
    }
    forall k | k in after.stats
      ensures keyOf(after.stats[k].name) == k
      ensures after.stats[k].count == CountKey(records, k, keyOf)
      ensures after.stats[k].totalHours == HoursKey(records, k, keyOf)
    {
      if k != key {
        assert after.stats[k] == before.stats[k];
      }
    }
  }

  /** The visit that gave an entry its name and date: a visit under the key,
      on the entry's latest date, with the entry's name, and no earlier
      visit under the key on that date. */
  predicate FirstAtLatest(records: seq<Visit>, key: string, i: int, entry: Stat, keyOf: string -> string)
  {
    && 0 <= i < |records|
    && keyOf(records[i].name) == key
    && records[i].date == entry.lastVisit
    && records[i].name == entry.name
    && forall j :: 0 <= j < i && keyOf(records[j].name) == key ==> records[j].date < entry.lastVisit
  }

  ghost predicate LatestOf(records: seq<Visit>, key: string, entry: Stat, keyOf: string -> string)
  {
    && (forall i :: 0 <= i < |records| && keyOf(records[i].name) == key ==> records[i].date <= entry.lastVisit)
    && exists i :: FirstAtLatest(records, key, i, entry, keyOf)
  }

  /** Each entry's last visit is the latest date of its visits, and its
      name is the one used on the first visit on that date. */
  lemma {:induction false} TallyLatest(records: seq<Visit>, keyOf: string -> string)
    ensures forall k :: k in Tally(records, keyOf).stats ==>
              LatestOf(records, k, Tally(records, keyOf).stats[k], keyOf)
  {
    if records != [] {
      var n := |records| - 1;
      var prefix := records[..n];
      var last := records[n];
      TallyLatest(prefix, keyOf);
      TallyCounts(prefix, keyOf);
      var before := Tally(prefix, keyOf);
      var after := Tally(records, keyOf);
      var key := keyOf(last.name);
      assert after == Step(before, last, keyOf);
      forall k | k in after.stats ensures LatestOf(records, k, after.stats[k], keyOf) {
        LatestStep(records, k, before, after, keyOf);
      }
    }
  }

  lemma LatestStep(records: seq<Visit>, k: string, before: Board, after: Board, keyOf: string -> string)
    requires records != []
    requires after == Step(before, records[|records| - 1], keyOf)
    requires k in after.stats
    requires Tallies(records[..|records| - 1], before, keyOf)
    requires forall k :: k in before.stats ==> LatestOf(records[..|records| - 1], k, before.stats[k], keyOf)
    ensures LatestOf(records, k, after.stats[k], keyOf)
  {
    if k != keyOf(records[|records| - 1].name) {
      LatestOtherKey(records, k, before, keyOf);
    } else {
      LatestSameKey(records, k, before, keyOf);
    }
  }

  /** A visit under another key leaves an entry's latest visit alone. */
  lemma LatestOtherKey(records: seq<Visit>, k: string, before: Board, keyOf: string -> string)
    requires records != [] && k != keyOf(records[|records| - 1].name)
    requires k in before.stats && LatestOf(records[..|records| - 1], k, before.stats[k], keyOf)
    ensures LatestOf(records, k, Step(before, records[|records| - 1], keyOf).stats[k], keyOf)
  {
    var prefix := records[..|records| - 1];
    var e := Step(before, records[|records| - 1], keyOf).stats[k];
    assert e == before.stats[k];
    var i :| FirstAtLatest(prefix, k, i, e, keyOf);
    assert FirstAtLatest(records, k, i, e, keyOf);
  }

  /** The latest visit under the visit's own key: the visit itself when the
      key is new or the visit is later, the one before otherwise. */
  lemma LatestSameKey(records: seq<Visit>, k: string, before: Board, keyOf: string -> string)
    requires records != [] && k == keyOf(records[|records| - 1].name)
    requires k !in before.stats ==> CountKey(records[..|records| - 1], k, keyOf) == 0
    requires k in before.stats ==> LatestOf(records[..|records| - 1], k, before.stats[k], keyOf)
    ensures LatestOf(records, k, Step(before, records[|records| - 1], keyOf).stats[k], keyOf)
  {
    var n := |records| - 1;
    var prefix := records[..n];
    var last := records[n];
    var e := Step(before, last, keyOf).stats[k];
    if k !in before.stats {
      forall j | 0 <= j < n ensures keyOf(records[j].name) != k {
        assert records[j] == prefix[j];
        CountPositive(prefix, j, keyOf);
      }
      assert FirstAtLatest(records, k, n, e, keyOf);
    } else if last.date > before.stats[k].lastVisit {
      forall j | 0 <= j < n && keyOf(records[j].name) == k ensures records[j].date < e.lastVisit {
        assert records[j] == prefix[j];
      }
      assert FirstAtLatest(records, k, n, e, keyOf);
    } else {
      var prev := before.stats[k];
      assert e.lastVisit == prev.lastVisit && e.name == prev.name;
      var i :| FirstAtLatest(prefix, k, i, prev, keyOf);
      assert FirstAtLatest(records, k, i, e, keyOf);
    }
  }

  /** A key that occurs has a positive count. */
  lemma {:induction false} CountPositive(records: seq<Visit>, i: int, keyOf: string -> string)
    requires 0 <= i < |records|
    ensures CountKey(records, keyOf(records[i].name), keyOf) >= 1
  {
    var n := |records| - 1;
    if i < n {
      assert records[..n][i] == records[i];
      CountPositive(records[..n], i, keyOf);
    }
  }

  // ------------------------------------------------------ the list

  /** `Object.values(stats)`: the entries in insertion order. */
  function Entries(board: Board): (r: seq<Stat>)
    requires forall k :: k in board.order ==> k in board.stats
    ensures |r| == |board.order|
    ensures forall i :: 0 <= i < |r| ==> r[i] == board.stats[board.order[i]]
    decreases |board.order|
  {
    if board.order == [] then []
    else Entries(Board(board.stats, board.order[..|board.order| - 1])) + [board.stats[board.order[|board.order| - 1]]]
  }

  function TotalCount(list: seq<Stat>): nat
  {
    if list == [] then 0 else TotalCount(list[..|list| - 1]) + list[|list| - 1].count
  }

  /** The counts of the list add up to the number of visits. */
  lemma {:induction false} CountsAddUp(records: seq<Visit>, keyOf: string -> string)
    ensures var board := Tally(records, keyOf);
            (forall k :: k in board.order ==> k in board.stats) &&
            TotalCount(Entries(board)) == |records|
  {
    var board := Tally(records, keyOf);
    TallyCounts(records, keyOf);
    forall i | 0 <= i < |records| ensures keyOf(records[i].name) in board.order {
      CountPositive(records, i, keyOf);
    }
    CountsOverKeys(records, board.stats, board.order, keyOf);
  }

  /** Summing the per-key counts over keys without repeats, covering every
      key that occurs, gives the number of visits. */
  lemma {:induction false} CountsOverKeys(records: seq<Visit>, stats: map<string, Stat>, order: seq<string>,
                                          keyOf: string -> string)
    requires NoDuplicates(order)
    requires forall k :: k in order ==> k in stats && stats[k].count == CountKey(records, k, keyOf)
    requires forall i :: 0 <= i < |records| ==> keyOf(records[i].name) in order
    ensures TotalCount(Entries(Board(stats, order))) == |records|
    decreases |records|
  {
    if records == [] {
      ZeroCounts(stats, order, keyOf);
    } else {
      var n := |records| - 1;
      var key := keyOf(records[n].name);
      var prefix := records[..n];
      var m :| 0 <= m < |order| && order[m] == key;
      var lowered := stats[key := stats[key].(count := CountKey(prefix, key, keyOf))];
      forall i | 0 <= i < n ensures keyOf(prefix[i].name) in order {
        assert prefix[i] == records[i];
      }
      CountsOverKeys(prefix, lowered, order, keyOf);
      OneCountLess(stats, lowered, order, m);
    }
  }

  lemma {:induction false} ZeroCounts(stats: map<string, Stat>, order: seq<string>, keyOf: string -> string)
    requires forall k :: k in order ==> k in stats && stats[k].count == CountKey([], k, keyOf)
    ensures TotalCount(Entries(Board(stats, order))) == 0
    decreases |order|
  {
    if order != [] {
      ZeroCounts(stats, order[..|order| - 1], keyOf);
    }
  }

  /** Lowering one listed key's count by one lowers the total by one. */
  lemma {:induction false} OneCountLess(stats: map<string, Stat>, lowered: map<string, Stat>, order: seq<string>, m: int)
    requires NoDuplicates(order) && 0 <= m < |order|
    requires forall k :: k in order ==> k in stats && k in lowered
    requires forall k :: k in order && k != order[m] ==> lowered[k].count == stats[k].count
    requires lowered[order[m]].count + 1 == stats[order[m]].count
    ensures TotalCount(Entries(Board(stats, order))) == TotalCount(Entries(Board(lowered, order))) + 1
    decreases |order|
  {
    var n := |order| - 1;
    var front := order[..n];
    assert forall k :: k in front ==> k in order;
    if m < n {
      assert front[m] == order[m] && order[n] != order[m];
      OneCountLess(stats, lowered, front, m);
    } else {
      SameCounts(stats, lowered, front);
    }
    LastCountLess(stats, lowered, order, m);
  }

  /** The step of `OneCountLess`: the last key adds the same to both totals
      unless it is the lowered one. */
  lemma LastCountLess(stats: map<string, Stat>, lowered: map<string, Stat>, order: seq<string>, m: int)
    requires NoDuplicates(order) && 0 <= m < |order|
    requires forall k :: k in order ==> k in stats && k in lowered
    requires forall k :: k in order && k != order[m] ==> lowered[k].count == stats[k].count
    requires lowered[order[m]].count + 1 == stats[order[m]].count
    requires var front := order[..|order| - 1];
      TotalCount(Entries(Board(stats, front)))
      == TotalCount(Entries(Board(lowered, front))) + (if m < |order| - 1 then 1 else 0)
    ensures TotalCount(Entries(Board(stats, order))) == TotalCount(Entries(Board(lowered, order))) + 1
  {
    EntriesLast(stats, order);
    EntriesLast(lowered, order);
  }

  /** The total of a list of entries is that of all but the last, plus the
      last. */
  lemma EntriesLast(stats: map<string, Stat>, order: seq<string>)
    requires order != [] && forall k :: k in order ==> k in stats
    ensures TotalCount(Entries(Board(stats, order)))
         == TotalCount(Entries(Board(stats, order[..|order| - 1]))) + stats[order[|order| - 1]].count
  {
    var entries := Entries(Board(stats, order));
    assert entries[..|entries| - 1] == Entries(Board(stats, order[..|order| - 1]));
  }

  lemma {:induction false} SameCounts(stats: map<string, Stat>, lowered: map<string, Stat>, order: seq<string>)
    requires forall k :: k in order ==> k in stats && k in lowered && lowered[k].count == stats[k].count
    ensures TotalCount(Entries(Board(stats, order))) == TotalCount(Entries(Board(lowered, order)))
    decreases |order|
  {
    if order != [] {
      SameCounts(stats, lowered, order[..|order| - 1]);
    }
  }

  // ------------------------------------------------------ the ranking

  /** `a` may come before `b`: more visits, or as many and at least as many
      hours. */
  predicate Outranks(a: Stat, b: Stat)
  {
    a.count > b.count || (a.count == b.count && a.totalHours >= b.totalHours)
  }

  predicate Ranked(list: seq<Stat>)
  {
    forall i, j :: 0 <= i < j < |list| ==> Outranks(list[i], list[j])
  }

  /** Puts `x`, which came before every element of `list`, ahead of the
      first element it outranks, so ties keep their order. */
  function Insert(x: Stat, list: seq<Stat>): (r: seq<Stat>)
    ensures multiset(r) == multiset(list) + multiset{x}
    ensures Ranked(list) ==> Ranked(r)
  {
    if list == [] then [x]
    else if Outranks(x, list[0]) then [x] + list
    else
      var rest := Insert(x, list[1..]);
      assert list == [list[0]] + list[1..];
      RankedHead(list[0], x, list[1..], rest);
      [list[0]] + rest
  }

  lemma RankedHead(head: Stat, x: Stat, tail: seq<Stat>, rest: seq<Stat>)
    requires multiset(rest) == multiset(tail) + multiset{x}
    requires !Outranks(x, head)
    requires Ranked(tail) ==> Ranked(rest)
    ensures Ranked([head] + tail) ==> Ranked([head] + rest)
  {
    if Ranked([head] + tail) {
      assert Ranked(tail) by {
        forall i, j | 0 <= i < j < |tail| ensures Outranks(tail[i], tail[j]) {
          assert tail[i] == ([head] + tail)[i + 1] && tail[j] == ([head] + tail)[j + 1];
        }
      }
      forall y | y in rest ensures Outranks(head, y) {
        assert ([head] + tail)[0] == head;
        assert y in multiset(rest);
        if y != x {
          assert y in multiset(tail);
          assert y in tail;
          var j :| 0 <= j < |tail| && tail[j] == y;
          assert ([head] + tail)[j + 1] == y;
        }
      }
      var l := [head] + rest;
      forall i, j | 0 <= i < j < |l| ensures Outranks(l[i], l[j]) {
        if i == 0 {
          assert l[j] == rest[j - 1];
          assert l[j] in rest;
        } else {
          assert l[i] == rest[i - 1] && l[j] == rest[j - 1];
        }
      }
    }
  }

  /** The comparator sort of lines 132-135: visits descending, then hours
      descending. */
  function SortByRank(list: seq<Stat>): (r: seq<Stat>)
    ensures multiset(r) == multiset(list)
    ensures Ranked(r)
  {
    if list == [] then [] else
      assert list == [list[0]] + list[1..];
      Insert(list[0], SortByRank(list[1..]))
  }

  /** The ranked leaderboard of a set of visits. */
  function Leaderboard(records: seq<Visit>): seq<Stat>
  {
    var board := Tally(records, NormalizedKey);
    CountsAddUp(records, NormalizedKey);
    SortByRank(Entries(board))
  }

  /** Names have distinct keys. */
  predicate DistinctKeys(list: seq<Stat>, keyOf: string -> string)
  {
    forall i, j :: 0 <= i < j < |list| ==> keyOf(list[i].name) != keyOf(list[j].name)
  }

  lemma {:induction false} InsertKeepsDistinct(x: Stat, list: seq<Stat>, keyOf: string -> string)
    requires DistinctKeys(list, keyOf)
    requires forall y :: y in list ==> keyOf(y.name) != keyOf(x.name)
    ensures DistinctKeys(Insert(x, list), keyOf)
  {
    if list != [] && !Outranks(x, list[0]) {
      var tail := list[1..];
      assert list == [list[0]] + tail;
      DistinctTail(list[0], tail, keyOf);
      InsertKeepsDistinct(x, tail, keyOf);
      DistinctHead(list[0], x, tail, Insert(x, tail), keyOf);
    }
  }

  lemma DistinctTail(head: Stat, tail: seq<Stat>, keyOf: string -> string)
    requires DistinctKeys([head] + tail, keyOf)
    ensures DistinctKeys(tail, keyOf)
  {
    forall i, j | 0 <= i < j < |tail| ensures keyOf(tail[i].name) != keyOf(tail[j].name) {
      assert tail[i] == ([head] + tail)[i + 1] && tail[j] == ([head] + tail)[j + 1];
    }
  }

  /** Inserting `x` behind `head` keeps the keys distinct. */
  lemma DistinctHead(head: Stat, x: Stat, tail: seq<Stat>, rest: seq<Stat>, keyOf: string -> string)
    requires multiset(rest) == multiset(tail) + multiset{x}
    requires DistinctKeys([head] + tail, keyOf) && DistinctKeys(rest, keyOf)
    requires keyOf(x.name) != keyOf(head.name)
    ensures DistinctKeys([head] + rest, keyOf)
  {
    forall y | y in rest ensures keyOf(y.name) != keyOf(head.name) {
      assert y in multiset(rest);
      if y != x {
        assert y in multiset(tail);
        var j :| 0 <= j < |tail| && tail[j] == y;
        assert ([head] + tail)[j + 1] == y && ([head] + tail)[0] == head;
      }
    }
    var l := [head] + rest;
    forall i, j | 0 <= i < j < |l| ensures keyOf(l[i].name) != keyOf(l[j].name) {
      if i == 0 {
        assert l[j] in rest;
      } else {
        assert l[i] == rest[i - 1] && l[j] == rest[j - 1];
      }
    }
  }

  lemma {:induction false} SortKeepsDistinct(list: seq<Stat>, keyOf: string -> string)
    requires DistinctKeys(list, keyOf)
    ensures DistinctKeys(SortByRank(list), keyOf)
  {
    if list != [] {
      assert DistinctKeys(list[1..], keyOf);
      SortKeepsDistinct(list[1..], keyOf);
      var sorted := SortByRank(list[1..]);
      forall y | y in sorted ensures keyOf(y.name) != keyOf(list[0].name) {
        assert y in multiset(sorted);
        assert y in multiset(list[1..]);
        var j :| 0 <= j < |list[1..]| && list[1..][j] == y;
        assert list[j + 1] == y;
      }
      InsertKeepsDistinct(list[0], sorted, keyOf);
    }
  }

  /** No two entries of the leaderboard share a key, hence a name. */
  lemma LeaderboardKeysDistinct(records: seq<Visit>)
    ensures DistinctKeys(Leaderboard(records), NormalizedKey)
  {
    var board := Tally(records, NormalizedKey);
    TallyCounts(records, NormalizedKey);
    var entries := Entries(board);
    forall i, j | 0 <= i < j < |entries|
      ensures NormalizedKey(entries[i].name) != NormalizedKey(entries[j].name)
    {
      assert NormalizedKey(entries[i].name) == board.order[i];
      assert NormalizedKey(entries[j].name) == board.order[j];
    }
    SortKeepsDistinct(entries, NormalizedKey);
  }

  // ------------------------------------------------ search, rank, pages

  /** Lines 159-161: the entries whose name contains the term, ignoring
      case, in their ranked order. */
  function Search(list: seq<Stat>, term: string): (r: seq<Stat>)
    ensures |r| <= |list|
    ensures forall x :: x in r <==> x in list && Contains(Lower(x.name), Lower(term))
  {
    if list == [] then [] else Hit(list[0], term) + Search(list[1..], term)
  }

  /** What the filter keeps of one entry. */
  function Hit(x: Stat, term: string): seq<Stat>
  {
    if Contains(Lower(x.name), Lower(term)) then [x] else []
  }

  /** `filter` works entry by entry and keeps the order: the result on a
      concatenation is the results on its parts, one after the other. */
  lemma {:induction false} SearchAppend(a: seq<Stat>, b: seq<Stat>, term: string)
    ensures Search(a + b, term) == Search(a, term) + Search(b, term)
  {
    if a != [] {
      TailOfConcat(a, b);
      assert Search(a + b, term) == Hit(a[0], term) + Search(a[1..] + b, term);
      SearchAppend(a[1..], b, term);
      AppendAssoc(Hit(a[0], term), Search(a[1..], term), Search(b, term));
    } else {
      assert a + b == b;
    }
  }

  lemma SearchOne(x: Stat, term: string)
    ensures Search([x], term) == if Contains(Lower(x.name), Lower(term)) then [x] else []
  {
    assert [x][1..] == [];
  }

  /** Filtering keeps the ranked order. */
  lemma {:induction false} SearchKeepsRanking(list: seq<Stat>, term: string)
    requires Ranked(list)
    ensures Ranked(Search(list, term))
  {
    if list != [] {
      SearchKeepsRanking(list[1..], term);
      var rest := Search(list[1..], term);
      forall y | y in rest ensures Outranks(list[0], y) {
        var j :| 0 <= j < |list[1..]| && list[1..][j] == y;
        assert list[j + 1] == y;
      }
    }
  }

  /** The empty search term keeps every entry. */
  lemma {:induction false} EmptySearchKeepsAll(list: seq<Stat>)
    ensures Search(list, "") == list
  {
    if list != [] {
      EmptySearchKeepsAll(list[1..]);
      assert Contains(Lower(list[0].name), Lower(""));
    }
  }

  /** `loyaltyData.findIndex((x) => x.name === name)`, -1 when absent. */
  function RankOf(list: seq<Stat>, name: string): (r: int)
    ensures -1 <= r < |list|
    ensures r == -1 <==> forall i :: 0 <= i < |list| ==> list[i].name != name
    ensures r >= 0 ==> list[r].name == name && forall i :: 0 <= i < r ==> list[i].name != name
  {
    if list == [] then -1
    else if list[0].name == name then 0
    else
      var r := RankOf(list[1..], name);
      assert forall i :: 1 <= i < |list| ==> list[i] == list[1..][i - 1];
      if r == -1 then -1 else r + 1
  }

  /** The rank shown next to an entry, searched or not, is its place on the
      whole leaderboard: entries with equal names would share one rank, but
      there are none. */
  lemma RankIsPlace(records: seq<Visit>, i: int)
    requires 0 <= i < |Leaderboard(records)|
    ensures RankOf(Leaderboard(records), Leaderboard(records)[i].name) == i
  {
    LeaderboardKeysDistinct(records);
  }

  /** Lines 164-166: `slice(page * 10, page * 10 + 10)`. */
  function Page(list: seq<Stat>, page: nat): (r: seq<Stat>)
    ensures |r| <= ItemsPerPage
    ensures r != [] ==> page * ItemsPerPage + |r| <= |list|
    ensures forall i :: 0 <= i < |r| ==> r[i] == list[page * ItemsPerPage + i]
    ensures page * ItemsPerPage + ItemsPerPage <= |list| ==> |r| == ItemsPerPage
  {
    var start := Min(page * ItemsPerPage, |list|);
    var end := Min(page * ItemsPerPage + ItemsPerPage, |list|);
    list[start..end]
  }

  /** Every entry is on exactly one page: entry `i` is item `i % 10` of
      page `i / 10`. */
  lemma EveryEntryOnItsPage(list: seq<Stat>, i: nat)
    requires i < |list|
    ensures i % ItemsPerPage < |Page(list, i / ItemsPerPage)|
    ensures Page(list, i / ItemsPerPage)[i % ItemsPerPage] == list[i]
  {
    assert (i / ItemsPerPage) * ItemsPerPage + i % ItemsPerPage == i;
  }
}
