/**
 * The time card's entry list and its handlers: add, remove, edit, clear and copy rows; the list
 * shown on screen (sorted, optionally with a placeholder row for every day of the displayed weeks
 * that has no work); and the payroll summary computed from the shown rows.
 *
 * Random row ids and "today" are parameters. Text comparison with localeCompare is modelled as
 * code-unit order, which agrees with it on well-formed YYYY-MM-DD and HH:MM texts.
 */
module TimeCard {
  import opened Wrappers
  import opened Calendar
  import opened TimeUtils
  import opened TimeEntries
  import opened Payroll

  // ---------------------------------------------------------------------------------------------
  // Ordering and sorting

  /** a comes no later than b in code-unit order. */
  predicate TextLe(a: string, b: string)
  {
    |a| == 0 || (|b| > 0 && (a[0] < b[0] || (a[0] == b[0] && TextLe(a[1..], b[1..]))))
  }

  lemma {:induction false} TextLeTotal(a: string, b: string)
    ensures TextLe(a, b) || TextLe(b, a)
  {
    if |a| > 0 && |b| > 0 && a[0] == b[0] {
      TextLeTotal(a[1..], b[1..]);
    }
  }

  lemma {:induction false} TextLeTransitive(a: string, b: string, c: string)
    requires TextLe(a, b) && TextLe(b, c)
    ensures TextLe(a, c)
  {
    if |a| > 0 && |b| > 0 && |c| > 0 && a[0] == b[0] && b[0] == c[0] {
      TextLeTransitive(a[1..], b[1..], c[1..]);
    }
  }

  lemma {:induction false} TextLeAntisymmetric(a: string, b: string)
    requires TextLe(a, b) && TextLe(b, a)
    ensures a == b
  {
    if |a| > 0 && |b| > 0 {
      TextLeAntisymmetric(a[1..], b[1..]);
      assert a == [a[0]] + a[1..] && b == [b[0]] + b[1..];
    }
  }

  /** The two comparators: by date text, and by date then start time. */
  datatype Order = ByDate | ByDateThenStart

  predicate Le(o: Order, x: TimeEntry, y: TimeEntry)
  {
    match o
    case ByDate => TextLe(x.date, y.date)
    case ByDateThenStart =>
      if x.date == y.date then TextLe(x.startTime, y.startTime) else TextLe(x.date, y.date)
  }

  lemma LeTotal(o: Order, x: TimeEntry, y: TimeEntry)
    ensures Le(o, x, y) || Le(o, y, x)
  {
    TextLeTotal(x.date, y.date);
    TextLeTotal(x.startTime, y.startTime);
  }

  lemma LeTransitive(o: Order, x: TimeEntry, y: TimeEntry, z: TimeEntry)
    requires Le(o, x, y) && Le(o, y, z)
    ensures Le(o, x, z)
  {
    if o == ByDate || (x.date != y.date && y.date != z.date) {
      TextLeTransitive(x.date, y.date, z.date);
      if o == ByDateThenStart && x.date == z.date {
        TextLeAntisymmetric(x.date, y.date);
      }
    } else if x.date == y.date && y.date == z.date {
      TextLeTransitive(x.startTime, y.startTime, z.startTime);
    }
  }

  predicate Sorted(o: Order, s: seq<TimeEntry>)
  {
    forall i, j :: 0 <= i < j < |s| ==> Le(o, s[i], s[j])
  }

  /** Appending an element that no element is after keeps a sequence sorted. */
  lemma AppendSorted(o: Order, u: seq<TimeEntry>, y: TimeEntry)
    requires Sorted(o, u)
    requires forall e :: e in u ==> Le(o, e, y)
    ensures Sorted(o, u + [y])
  {
    var r := u + [y];
    forall i, j | 0 <= i < j < |r|
      ensures Le(o, r[i], r[j])
    {
      if j == |u| {
        assert r[i] in u;
      }
    }
  }

  /** In a sorted sequence whose last element is not after x, no element is after x. */
  lemma AllBelow(o: Order, t: seq<TimeEntry>, x: TimeEntry)
    requires Sorted(o, t) && |t| > 0 && Le(o, t[|t| - 1], x)
    ensures forall e :: e in t ==> Le(o, e, x)
  {
    forall e | e in t
      ensures Le(o, e, x)
    {
      var i :| 0 <= i < |t| && t[i] == e;
      if i < |t| - 1 {
        LeTransitive(o, t[i], t[|t| - 1], x);
      }
    }
  }

  /** The rest of a sorted sequence with x inserted lies below its last element when x does. */
  lemma InsertedBelow(o: Order, t: seq<TimeEntry>, x: TimeEntry, u: seq<TimeEntry>)
    requires Sorted(o, t) && |t| > 0 && Le(o, x, t[|t| - 1])
    requires multiset(u) == multiset(t[..|t| - 1]) + multiset{x}
    ensures forall e :: e in u ==> Le(o, e, t[|t| - 1])
  {
    forall e | e in u
      ensures Le(o, e, t[|t| - 1])
    {
      assert e in multiset(u);
      if e != x {
        assert e in t[..|t| - 1];
        var i :| 0 <= i < |t| - 1 && t[..|t| - 1][i] == e;
        assert t[i] == e;
      }
    }
  }

  /** Places x after every element that is not after it. */
  function Insert(o: Order, x: TimeEntry, t: seq<TimeEntry>): (r: seq<TimeEntry>)
    requires Sorted(o, t)
    ensures multiset(r) == multiset(t) + multiset{x}
    ensures Sorted(o, r)
  {
    if |t| == 0 then [x]
    else
      var last := t[|t| - 1];
      var init := t[..|t| - 1];
      assert t == init + [last];
      if Le(o, last, x) then
        AllBelow(o, t, x);
        AppendSorted(o, t, x);
        t + [x]
      else
        LeTotal(o, last, x);
        var u := Insert(o, x, init);
        InsertedBelow(o, t, x, u);
        AppendSorted(o, u, last);
        u + [last]
  }

  /** Array.prototype.sort with the comparator: a stable insertion sort (SortIsStable), sorted and a permutation. */
  function SortEntries(o: Order, s: seq<TimeEntry>): (r: seq<TimeEntry>)
    ensures multiset(r) == multiset(s)
    ensures Sorted(o, r)
  {
    if |s| == 0 then []
    else
      assert s == s[..|s| - 1] + [s[|s| - 1]];
      Insert(o, s[|s| - 1], SortEntries(o, s[..|s| - 1]))
  }

  /** x and y sort alike: neither comes before the other. */
  predicate Equivalent(o: Order, x: TimeEntry, y: TimeEntry)
  {
    Le(o, x, y) && Le(o, y, x)
  }

  /** The rows of s that sort alike with x, in their order in s. */
  function Equivalents(o: Order, x: TimeEntry, s: seq<TimeEntry>): seq<TimeEntry>
  {
    if |s| == 0 then []
    else Equivalents(o, x, s[..|s| - 1]) + (if Equivalent(o, x, s[|s| - 1]) then [s[|s| - 1]] else [])
  }

  /** Appending a row adds it to the rows that sort alike with x exactly when it sorts alike. */
  lemma EquivalentsAppend(o: Order, x: TimeEntry, u: seq<TimeEntry>, e: TimeEntry)
    ensures Equivalents(o, x, u + [e]) == Equivalents(o, x, u) + (if Equivalent(o, x, e) then [e] else [])
  {
    assert (u + [e])[..|u|] == u;
  }

  /** Insert puts y after every row that sorts alike with it. */
  lemma {:induction false} InsertIsStable(o: Order, x: TimeEntry, y: TimeEntry, t: seq<TimeEntry>)
    requires Sorted(o, t)
    ensures Equivalents(o, x, Insert(o, y, t))
         == Equivalents(o, x, t) + (if Equivalent(o, x, y) then [y] else [])
  {
    if |t| > 0 {
      var last, init := t[|t| - 1], t[..|t| - 1];
      InsertStep(o, y, t);
      if Le(o, last, y) {
        EquivalentsAppend(o, x, t, y);
      } else {
        assert t == init + [last];
        InsertIsStable(o, x, y, init);
        PassLast(o, x, y, init, last, Insert(o, y, init));
      }
    }
  }

  /**
   * When y goes before last, the rows alike with x keep their order: last and y are never both
   * alike with x, since then last would sort before y.
   */
  lemma PassLast(o: Order, x: TimeEntry, y: TimeEntry, init: seq<TimeEntry>, last: TimeEntry, u: seq<TimeEntry>)
    requires !Le(o, last, y)
    requires Equivalents(o, x, u) == Equivalents(o, x, init) + (if Equivalent(o, x, y) then [y] else [])
    ensures Equivalents(o, x, u + [last])
         == Equivalents(o, x, init + [last]) + (if Equivalent(o, x, y) then [y] else [])
  {
    EquivalentsAppend(o, x, u, last);
    EquivalentsAppend(o, x, init, last);
    if Equivalent(o, x, last) && Equivalent(o, x, y) {
      LeTransitive(o, last, x, y);
    }
  }

  /** One step of Insert: y goes after the last row, or into the rest before it. */
  lemma InsertStep(o: Order, y: TimeEntry, t: seq<TimeEntry>)
    requires Sorted(o, t) && |t| > 0
    ensures Sorted(o, t[..|t| - 1])
    ensures Le(o, t[|t| - 1], y) ==> Insert(o, y, t) == t + [y]
    ensures !Le(o, t[|t| - 1], y) ==> Insert(o, y, t) == Insert(o, y, t[..|t| - 1]) + [t[|t| - 1]]
  {
  }

  /** Sorting is stable: the rows that sort alike keep their order. */
  lemma {:induction false} SortIsStable(o: Order, x: TimeEntry, s: seq<TimeEntry>)
    ensures Equivalents(o, x, SortEntries(o, s)) == Equivalents(o, x, s)
  {
    if |s| > 0 {
      SortIsStable(o, x, s[..|s| - 1]);
      InsertIsStable(o, x, s[|s| - 1], SortEntries(o, s[..|s| - 1]));
    }
  }

  // ---------------------------------------------------------------------------------------------
  // Row transformations

  /** The rows other than those with the id, in order. */
  function WithoutId(s: seq<TimeEntry>, id: string): (r: seq<TimeEntry>)
    ensures forall e :: e in r <==> e in s && e.id != id
    ensures |r| <= |s|
  {
    if |s| == 0 then []
    else
      var r := WithoutId(s[..|s| - 1], id);
      assert forall e :: e in s <==> e in s[..|s| - 1] || e == s[|s| - 1];
      if s[|s| - 1].id != id then r + [s[|s| - 1]] else r
  }

  /** Removing an id no row has changes nothing. */
  lemma {:induction false} WithoutAbsentId(s: seq<TimeEntry>, id: string)
    requires forall e :: e in s ==> e.id != id
    ensures WithoutId(s, id) == s
  {
    if |s| > 0 {
      WithoutAbsentId(s[..|s| - 1], id);
      assert s == s[..|s| - 1] + [s[|s| - 1]];
    }
  }

  /** The rows that are not the placeholder rows of one day, in order. */
  function WithoutBlankOn(s: seq<TimeEntry>, date: string): (r: seq<TimeEntry>)
    ensures forall e :: e in r <==> e in s && !(e.date == date && e.isBlank)
  {
    if |s| == 0 then []
    else
      var r := WithoutBlankOn(s[..|s| - 1], date);
      assert forall e :: e in s <==> e in s[..|s| - 1] || e == s[|s| - 1];
      if !(s[|s| - 1].date == date && s[|s| - 1].isBlank) then r + [s[|s| - 1]] else r
  }

  /** The non-placeholder rows, in order. */
  function NonBlank(s: seq<TimeEntry>): (r: seq<TimeEntry>)
    ensures forall e :: e in r <==> e in s && !e.isBlank
  {
    if |s| == 0 then []
    else
      var r := NonBlank(s[..|s| - 1]);
      assert forall e :: e in s <==> e in s[..|s| - 1] || e == s[|s| - 1];
      if !s[|s| - 1].isBlank then r + [s[|s| - 1]] else r
  }

  /** The text fields a row's input can change, read by name; other names read as "". */
  function FieldValue(e: TimeEntry, field: string): string
  {
    if field == "id" then e.id
    else if field == "date" then e.date
    else if field == "startTime" then e.startTime
    else if field == "endTime" then e.endTime
    else if field == "breakDeduction" then e.breakDeduction
    else ""
  }

  predicate IsTextField(field: string)
  {
    field in {"id", "date", "startTime", "endTime", "breakDeduction"}
  }

  /**
   * The edit of one row: the row with the id gets the value in the named field and is blank
   * exactly when its start is being cleared while its end and break are empty; others are kept.
   */
  function ChangeEntry(e: TimeEntry, id: string, field: string, value: string): (r: TimeEntry)
    ensures e.id != id ==> r == e
    ensures e.id == id ==> (r.isBlank <==> field == "startTime" && value == "" && e.endTime == "" && e.breakDeduction == "")
    ensures e.id == id && IsTextField(field) ==> FieldValue(r, field) == value
    ensures e.id == id ==> forall f :: f != field ==> FieldValue(r, f) == FieldValue(e, f)
  {
    if e.id != id then e
    else
      var isNowBlank := field == "startTime" && value == "" && e.endTime == "" && e.breakDeduction == "";
      var updated :=
        if field == "id" then e.(id := value)
        else if field == "date" then e.(date := value)
        else if field == "startTime" then e.(startTime := value)
        else if field == "endTime" then e.(endTime := value)
        else if field == "breakDeduction" then e.(breakDeduction := value)
        else e;
      updated.(isBlank := isNowBlank)
  }

  /** The first non-placeholder row, if any. */
  function FirstActual(s: seq<TimeEntry>): (r: Option<TimeEntry>)
    ensures r.None? <==> forall e :: e in s ==> e.isBlank
    ensures r.Some? ==> r.value in s && !r.value.isBlank
  {
    if |s| == 0 then None
    else if !s[0].isBlank then Some(s[0])
    else
      assert forall e :: e in s <==> e == s[0] || e in s[1..];
      FirstActual(s[1..])
  }

  /** FirstActual is the earliest non-placeholder row. */
  lemma {:induction false} FirstActualIsEarliest(s: seq<TimeEntry>, i: nat)
    requires i < |s| && !s[i].isBlank && forall j :: 0 <= j < i ==> s[j].isBlank
    ensures FirstActual(s) == Some(s[i])
  {
    if i > 0 {
      FirstActualIsEarliest(s[1..], i - 1);
    }
  }

  /**
   * The copy of the first row onto one row: placeholders and rows with the first row's id are
   * kept; any other row gets the first row's start, end and break and is no longer blank.
   */
  function CopiedRow(e: TimeEntry, first: TimeEntry): (r: TimeEntry)
    ensures e.isBlank || e.id == first.id ==> r == e
    ensures !e.isBlank && e.id != first.id ==>
      r.id == e.id && r.date == e.date && !r.isBlank
      && r.startTime == first.startTime && r.endTime == first.endTime && r.breakDeduction == first.breakDeduction
  {
    if e.isBlank || e.id == first.id then e
    else e.(startTime := first.startTime, endTime := first.endTime, breakDeduction := first.breakDeduction, isBlank := false)
  }

  // ---------------------------------------------------------------------------------------------
  // The displayed list

  /** The real (non-placeholder) rows of one day, in order. */
  function RealOn(s: seq<TimeEntry>, day: string): (r: seq<TimeEntry>)
    ensures forall e :: e in r <==> e in s && e.date == day && !e.isBlank
  {
    if |s| == 0 then []
    else
      var r := RealOn(s[..|s| - 1], day);
      assert forall e :: e in s <==> e in s[..|s| - 1] || e == s[|s| - 1];
      if s[|s| - 1].date == day && !s[|s| - 1].isBlank then r + [s[|s| - 1]] else r
  }

  /** What one day adds to the filled list: its real rows, or one placeholder when it has none. */
  function DayRows(day: string, sorted: seq<TimeEntry>, blankId: string): seq<TimeEntry>
  {
    var realRows := RealOn(sorted, day);
    if |realRows| > 0 then realRows else [BlankEntry(blankId, day)]
  }

  /** The filled list after the forEach over the days. */
  function Fill(days: seq<string>, sorted: seq<TimeEntry>, blankId: string): seq<TimeEntry>
  {
    if |days| == 0 then []
    else Fill(days[..|days| - 1], sorted, blankId) + DayRows(days[|days| - 1], sorted, blankId)
  }

  /** The days from the Monday on or before the first date to the Sunday on or after the last. */
  function RangeDays(first: Date, last: Date): (days: seq<string>)
    requires Valid(first) && Valid(last)
  {
    IntervalDays(WeekStart(first, 1), WeekEnd(last, 1))
  }

  /** The specification of processedEntriesForDisplay. */
  function Display(entries: seq<TimeEntry>, showBlankDays: bool, today: string, blankId: string): seq<TimeEntry>
  {
    var sorted := SortEntries(ByDateThenStart, entries);
    if !showBlankDays then NonBlank(sorted)
    else if |sorted| == 0 then [BlankEntry(blankId, today)]
    else WithBlankDays(sorted, blankId)
  }

  /**
   * The rows of the displayed weeks, from the week of the first row to the week of the last;
   * nothing when either date does not parse, as no day lies between invalid dates.
   */
  function WithBlankDays(sorted: seq<TimeEntry>, blankId: string): seq<TimeEntry>
    requires |sorted| > 0
  {
    var first := ParseDate(sorted[0].date);
    var last := ParseDate(sorted[|sorted| - 1].date);
    if first.None? || last.None? then []
    else SortEntries(ByDate, Fill(RangeDays(first.value, last.value), sorted, blankId))
  }

  /** Without blank days, the display is the real rows, sorted by date and then start time. */
  lemma DisplayWithoutBlankDays(entries: seq<TimeEntry>, today: string, blankId: string)
    ensures var d := Display(entries, false, today, blankId);
            Sorted(ByDateThenStart, d) && forall e :: e in d <==> e in entries && !e.isBlank
  {
    var sorted := SortEntries(ByDateThenStart, entries);
    NonBlankKeepsOrder(sorted);
    forall e ensures e in sorted <==> e in entries {
      assert e in sorted <==> e in multiset(sorted);
    }
  }

  /** Dropping placeholder rows keeps a sorted list sorted. */
  lemma {:induction false} NonBlankKeepsOrder(s: seq<TimeEntry>)
    requires Sorted(ByDateThenStart, s)
    ensures Sorted(ByDateThenStart, NonBlank(s))
  {
    if |s| > 0 {
      var init := s[..|s| - 1];
      assert Sorted(ByDateThenStart, init);
      NonBlankKeepsOrder(init);
      assert forall e :: e in NonBlank(init) ==> e in init;
    }
  }

  /** With blank days and no rows at all, the display is one placeholder for today. */
  lemma DisplayOfNoEntries(today: string, blankId: string)
    ensures Display([], true, today, blankId) == [BlankEntry(blankId, today)]
  {
  }

  /** The number of occurrences of a day in a list of days. */
  function Occurrences(days: seq<string>, day: string): nat
  {
    if |days| == 0 then 0
    else Occurrences(days[..|days| - 1], day) + (if days[|days| - 1] == day then 1 else 0)
  }

  /** The placeholder rows of one day in a list. */
  function BlanksOn(s: seq<TimeEntry>, day: string): nat
  {
    if |s| == 0 then 0
    else BlanksOn(s[..|s| - 1], day) + (if s[|s| - 1].isBlank && s[|s| - 1].date == day then 1 else 0)
  }

  lemma {:induction false} BlanksOnAppend(a: seq<TimeEntry>, b: seq<TimeEntry>, day: string)
    ensures BlanksOn(a + b, day) == BlanksOn(a, day) + BlanksOn(b, day)
  {
    if |b| > 0 {
      assert (a + b)[..|a + b| - 1] == a + b[..|b| - 1];
      assert (a + b)[|a + b| - 1] == b[|b| - 1];
      BlanksOnAppend(a, b[..|b| - 1], day);
    } else {
      assert a + b == a;
    }
  }

  lemma {:induction false} NoBlanksInReal(s: seq<TimeEntry>, day: string, other: string)
    ensures BlanksOn(RealOn(s, day), other) == 0
  {
    var r := RealOn(s, day);
    if |r| > 0 {
      NoBlanksAmongReal(r, other);
    }
  }

  lemma {:induction false} NoBlanksAmongReal(r: seq<TimeEntry>, day: string)
    requires forall e :: e in r ==> !e.isBlank
    ensures BlanksOn(r, day) == 0
  {
    if |r| > 0 {
      NoBlanksAmongReal(r[..|r| - 1], day);
    }
  }

  /**
   * In the filled list, a day gets one placeholder for each time it is listed when it has no
   * real row, and none when it has one.
   */
  lemma {:induction false} PlaceholdersOfFill(days: seq<string>, sorted: seq<TimeEntry>, blankId: string, day: string)
    ensures BlanksOn(Fill(days, sorted, blankId), day)
         == if |RealOn(sorted, day)| == 0 then Occurrences(days, day) else 0
  {
    if |days| > 0 {
      var d := days[|days| - 1];
      PlaceholdersOfFill(days[..|days| - 1], sorted, blankId, day);
      BlanksOnAppend(Fill(days[..|days| - 1], sorted, blankId), DayRows(d, sorted, blankId), day);
      NoBlanksInReal(sorted, d, day);
      if |RealOn(sorted, d)| == 0 {
        var b := [BlankEntry(blankId, d)];
        assert b[..0] == [];
        assert BlanksOn(b, day) == if d == day then 1 else 0;
        if d == day {
          assert RealOn(sorted, day) == RealOn(sorted, d);
        }
      } else if d == day {
        assert |RealOn(sorted, day)| != 0;
      }
    }
  }

  /** Every real row whose day is listed is in the filled list. */
  lemma {:induction false} RealRowsKept(days: seq<string>, sorted: seq<TimeEntry>, blankId: string, e: TimeEntry)
    requires e in sorted && !e.isBlank && e.date in days
    ensures e in Fill(days, sorted, blankId)
  {
    var d := days[|days| - 1];
    if e.date == d {
      assert e in RealOn(sorted, d);
    } else {
      assert e.date in days[..|days| - 1] by {
        assert days == days[..|days| - 1] + [d];
      }
      RealRowsKept(days[..|days| - 1], sorted, blankId, e);
    }
  }

  /** Every row of the filled list is a real row of a listed day, or a placeholder of a listed day. */
  lemma {:induction false} FillRowsAreListed(days: seq<string>, sorted: seq<TimeEntry>, blankId: string, e: TimeEntry)
    requires e in Fill(days, sorted, blankId)
    ensures e.date in days
    ensures e.isBlank ==> e == BlankEntry(blankId, e.date)
    ensures !e.isBlank ==> e in sorted
  {
    var init := days[..|days| - 1];
    var d := days[|days| - 1];
    assert days == init + [d];
    if e in Fill(init, sorted, blankId) {
      FillRowsAreListed(init, sorted, blankId, e);
    } else {
      assert e in DayRows(d, sorted, blankId);
    }
  }

  /** With blank days and a first and last date that parse, the display is the filled days, by date. */
  lemma DisplayOfParsedRange(sorted: seq<TimeEntry>, blankId: string, first: Date, last: Date)
    requires |sorted| > 0 && ParseDate(sorted[0].date) == Some(first) && ParseDate(sorted[|sorted| - 1].date) == Some(last)
    ensures WithBlankDays(sorted, blankId) == SortEntries(ByDate, Fill(RangeDays(first, last), sorted, blankId))
  {
  }

  /** A date that does not parse leaves no day to show. */
  lemma DisplayOfUnparsedDate(sorted: seq<TimeEntry>, blankId: string)
    requires |sorted| > 0 && (ParseDate(sorted[0].date).None? || ParseDate(sorted[|sorted| - 1].date).None?)
    ensures WithBlankDays(sorted, blankId) == []
  {
  }

  /**
   * The filled days, sorted by date, show every real row dated on a listed day and no other real
   * row, and a day with no real row gets one placeholder per listing.
   */
  lemma FilledDays(entries: seq<TimeEntry>, days: seq<string>, blankId: string, day: string)
    ensures var d := SortEntries(ByDate, Fill(days, SortEntries(ByDateThenStart, entries), blankId));
            (forall e :: e in entries && !e.isBlank && e.date in days ==> e in d)
            && (forall e :: e in d && !e.isBlank ==> e in entries && e.date in days)
            && BlanksOn(d, day) == (if |RealOn(entries, day)| == 0 then Occurrences(days, day) else 0)
  {
    var sorted := SortEntries(ByDateThenStart, entries);
    var filled := Fill(days, sorted, blankId);
    var d := SortEntries(ByDate, filled);
    forall e | e in entries && !e.isBlank && e.date in days ensures e in d {
      assert e in multiset(entries);
      RealRowsKept(days, sorted, blankId, e);
      assert e in multiset(filled);
    }
    forall e | e in d && !e.isBlank ensures e in entries && e.date in days {
      assert e in multiset(d);
      FillRowsAreListed(days, sorted, blankId, e);
      assert e in multiset(sorted);
    }
    PlaceholdersOfFill(days, sorted, blankId, day);
    SortKeepsBlanks(ByDate, filled, day);
    RealOnPermutation(sorted, entries, day);
  }

  /** A placeholder count split around one element. */
  lemma BlanksOnSplit(front: seq<TimeEntry>, y: TimeEntry, back: seq<TimeEntry>, day: string)
    ensures BlanksOn(front + [y] + back, day) == BlanksOn(front + back, day) + BlanksOn([y], day)
  {
    BlanksOnAppend(front + [y], back, day);
    BlanksOnAppend(front, [y], day);
    BlanksOnAppend(front, back, day);
  }

  /** Taking the same element out of two permutations of each other leaves permutations. */
  lemma RemoveFromPermutation(init: seq<TimeEntry>, y: TimeEntry, front: seq<TimeEntry>, back: seq<TimeEntry>)
    requires multiset(init + [y]) == multiset(front + [y] + back)
    ensures multiset(init) == multiset(front + back)
  {
    var ma, mb := multiset(init), multiset(front + back);
    assert multiset(init + [y]) == ma + multiset{y};
    assert multiset(front + [y] + back) == mb + multiset{y};
    forall z
      ensures ma[z] == mb[z]
    {
      assert (ma + multiset{y})[z] == (mb + multiset{y})[z];
    }
  }

  /** Reordering a list keeps every day's placeholder count. */
  lemma {:induction false} BlanksOnPermutation(a: seq<TimeEntry>, b: seq<TimeEntry>, day: string)
    requires multiset(a) == multiset(b)
    ensures BlanksOn(a, day) == BlanksOn(b, day)
    decreases |a|
  {
    if |a| == 0 {
      assert |b| == |multiset(b)| == 0;
    } else {
      var y := a[|a| - 1];
      var init := a[..|a| - 1];
      assert a == init + [y];
      assert y in multiset(b);
      var k :| 0 <= k < |b| && b[k] == y;
      var front, back := b[..k], b[k + 1..];
      assert b == front + [y] + back;
      RemoveFromPermutation(init, y, front, back);
      BlanksOnPermutation(init, front + back, day);
      BlanksOnAppend(init, [y], day);
      BlanksOnSplit(front, y, back, day);
    }
  }

  /** Sorting keeps every day's placeholder count. */
  lemma SortKeepsBlanks(o: Order, s: seq<TimeEntry>, day: string)
    ensures BlanksOn(SortEntries(o, s), day) == BlanksOn(s, day)
  {
    BlanksOnPermutation(SortEntries(o, s), s, day);
  }

  /** A day has real rows in one permutation of a list iff in the other. */
  lemma RealOnPermutation(a: seq<TimeEntry>, b: seq<TimeEntry>, day: string)
    requires multiset(a) == multiset(b)
    ensures |RealOn(a, day)| == 0 <==> |RealOn(b, day)| == 0
  {
    forall e ensures e in a <==> e in b {
      assert e in a <==> e in multiset(a);
      assert e in b <==> e in multiset(b);
    }
    if |RealOn(a, day)| > 0 {
      assert RealOn(a, day)[0] in RealOn(b, day);
    }
    if |RealOn(b, day)| > 0 {
      assert RealOn(b, day)[0] in RealOn(a, day);
    }
  }

  // ---------------------------------------------------------------------------------------------
  // The component state

  class TimeCardCalculator {
    var timeEntries: seq<TimeEntry>

    /** With nothing saved, the list starts with one default row for today. */
    constructor (id: string, today: string)
      ensures timeEntries == [InitialEntry(id, today)]
    {
      timeEntries := [InitialEntry(id, today)];
    }

    /** processedEntriesForDisplay. */
    method ProcessedEntriesForDisplay(showBlankDays: bool, today: string, blankId: string) returns (display: seq<TimeEntry>)
      ensures display == Display(timeEntries, showBlankDays, today, blankId)
    {
      var entriesToDisplay := SortEntries(ByDateThenStart, timeEntries);
      if !showBlankDays {
        return NonBlank(entriesToDisplay);
      }
      if |entriesToDisplay| == 0 {
        return [BlankEntry(blankId, today)];
      }
      var first := ParseDate(entriesToDisplay[0].date);
      var last := ParseDate(entriesToDisplay[|entriesToDisplay| - 1].date);
      if first.None? || last.None? {
        return [];
      }
      DisplayOfParsedRange(entriesToDisplay, blankId, first.value, last.value);
      var weekStart := WeekStart(first.value, 1);
      var weekEnd := WeekEnd(last.value, 1);
      var allDaysInDisplayedRange := EachDayOfInterval(weekStart, weekEnd);
      assert allDaysInDisplayedRange == RangeDays(first.value, last.value);
      var filledEntries := FillDays(allDaysInDisplayedRange, entriesToDisplay, blankId);
      display := SortEntries(ByDate, filledEntries);
    }

    /**
     * handleAddRow: a default row for the day (today when none is given) is added and the list
     * sorted by date; when blank days are shown and the day shows a placeholder, the day's
     * placeholder rows are dropped first.
     */
    method AddRow(date: string, today: string, id: string, showBlankDays: bool, blankId: string)
      modifies this
      ensures var newEntryDate := if date == "" then today else date;
              var display := Display(old(timeEntries), showBlankDays, today, blankId);
              var kept := if showBlankDays && exists e :: e in display && e.date == newEntryDate && e.isBlank
                          then WithoutBlankOn(old(timeEntries), newEntryDate) else old(timeEntries);
              timeEntries == SortEntries(ByDate, kept + [InitialEntry(id, newEntryDate)])
    {
      var newEntryDate := if date == "" then today else date;
      var display := ProcessedEntriesForDisplay(showBlankDays, today, blankId);
      var existingBlankIndex := FindBlank(display, newEntryDate);
      if existingBlankIndex != -1 && showBlankDays {
        timeEntries := SortEntries(ByDate, WithoutBlankOn(timeEntries, newEntryDate) + [InitialEntry(id, newEntryDate)]);
      } else {
        timeEntries := SortEntries(ByDate, timeEntries + [InitialEntry(id, newEntryDate)]);
      }
    }

    /** handleRemoveRow. */
    method RemoveRow(id: string)
      modifies this
      ensures timeEntries == WithoutId(old(timeEntries), id)
    {
      timeEntries := WithoutId(timeEntries, id);
    }

    /** handleInputChange. */
    method InputChange(id: string, field: string, value: string)
      modifies this
      ensures |timeEntries| == |old(timeEntries)|
      ensures forall i :: 0 <= i < |timeEntries| ==> timeEntries[i] == ChangeEntry(old(timeEntries)[i], id, field, value)
    {
      timeEntries := seq(|timeEntries|, i requires 0 <= i < |timeEntries| reads this => ChangeEntry(timeEntries[i], id, field, value));
    }

    /** handleClearAll. */
    method ClearAll(id: string, today: string)
      modifies this
      ensures timeEntries == [InitialEntry(id, today)]
    {
      timeEntries := [InitialEntry(id, today)];
    }

    /** handleCopyFirstRow. */
    method CopyFirstRow()
      modifies this
      ensures FirstActual(old(timeEntries)).None? ==> timeEntries == old(timeEntries)
      ensures FirstActual(old(timeEntries)).Some? ==>
        |timeEntries| == |old(timeEntries)|
        && forall i :: 0 <= i < |timeEntries| ==> timeEntries[i] == CopiedRow(old(timeEntries)[i], FirstActual(old(timeEntries)).value)
    {
      var actual := FirstActual(timeEntries);
      if actual.None? {
        return;
      }
      var firstActualEntry := actual.value;
      timeEntries := seq(|timeEntries|, i requires 0 <= i < |timeEntries| reads this => CopiedRow(timeEntries[i], firstActualEntry));
    }

    /**
     * The payroll summary: absent when payment information is off or the base rate reads as NaN
     * or as negative; otherwise calculatePayroll over the real rows of the display.
     */
    method PayrollSummaryOf(
      includePaymentInfo: bool, showBlankDays: bool, today: string, blankId: string,
      rounding: nat, basePayRate: Option<real>, overtimeType: OvertimeType,
      dailyOtThreshold: Option<real>, weeklyOtThreshold: Option<real>, otRateMultiplier: Option<real>)
      returns (summary: Option<PayrollSummary>)
      ensures summary.None? <==> !includePaymentInfo || basePayRate.None? || basePayRate.value < 0.0
      ensures summary.Some? ==>
        var rows := NonBlank(Display(timeEntries, showBlankDays, today, blankId));
        var (regular, overtime) := SplitHours(DatesOf(rows), HoursOf(rows, rounding), overtimeType,
                                              OrElse(dailyOtThreshold, 8.0), OrElse(weeklyOtThreshold, 40.0));
        summary.value == Summary(regular, overtime, OrElse(basePayRate, 0.0), OrElse(otRateMultiplier, 1.5))
    {
      if !includePaymentInfo || basePayRate.None? || basePayRate.value < 0.0 {
        return None;
      }
      var display := ProcessedEntriesForDisplay(showBlankDays, today, blankId);
      var s := CalculatePayroll(NonBlank(display), rounding, basePayRate, overtimeType,
                                dailyOtThreshold, weeklyOtThreshold, otRateMultiplier);
      summary := Some(s);
    }
  }

  /**
   * The forEach over the displayed days: each day's real rows, or one placeholder for a day
   * without any.
   */
  method FillDays(days: seq<string>, entriesToDisplay: seq<TimeEntry>, blankId: string) returns (filledEntries: seq<TimeEntry>)
    ensures filledEntries == Fill(days, entriesToDisplay, blankId)
  {
    filledEntries := [];
    for i := 0 to |days|
      invariant filledEntries == Fill(days[..i], entriesToDisplay, blankId)
    {
      var dayStr := days[i];
      assert days[..i + 1][..i] == days[..i];
      var entriesForThisDay := RealOn(entriesToDisplay, dayStr);
      if |entriesForThisDay| > 0 {
        filledEntries := filledEntries + entriesForThisDay;
      } else {
        filledEntries := filledEntries + [BlankEntry(blankId, dayStr)];
      }
    }
    assert days[..|days|] == days;
  }

  /** findIndex of a placeholder row for the day, or -1. */
  method FindBlank(display: seq<TimeEntry>, date: string) returns (index: int)
    ensures index == -1 <==> !exists e :: e in display && e.date == date && e.isBlank
    ensures index != -1 ==> (0 <= index < |display| && display[index].date == date && display[index].isBlank
      && forall j :: 0 <= j < index ==> !(display[j].date == date && display[j].isBlank))
  {
    index := 0;
    while index < |display|
      invariant 0 <= index <= |display|
      invariant forall j :: 0 <= j < index ==> !(display[j].date == date && display[j].isBlank)
    {
      if display[index].date == date && display[index].isBlank {
        return;
      }
      index := index + 1;
    }
    index := -1;
  }
}
