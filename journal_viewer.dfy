/** The journal screen (client/src/components/JournalViewer.tsx): the
    selected day, month and year, the list of days newest first, the day and
    log totals, the selected day's log count and its text export. Clicks on
    the heatmap arrive as a day key, or as `month:<n>` / `year:<n>` from its
    two selectors. */
module JournalViewer {
  import opened Base
  import opened Strings
  import opened Journal

  // ---------------------------------------------------------------- dates

  /** Each day comes no earlier in the default string order than the days after it. */
  predicate NewestFirst(s: seq<string>) {
    forall i, j :: 0 <= i < j < |s| ==> !Less(s[i], s[j])
  }

  /** `!Less` is transitive, since `Less` is a strict total order. */
  lemma NotLessTransitive(x: string, y: string, z: string)
    requires !Less(x, y) && !Less(y, z)
    ensures !Less(x, z)
  {
    if Less(x, z) {
      if x == y {
        assert false;
      } else {
        LessTotal(x, y);
        LessTransitive(y, x, z);
        assert false;
      }
    }
  }

  lemma LessAsymmetric(x: string, y: string)
    requires Less(x, y)
    ensures !Less(y, x)
  {
    if Less(y, x) {
      LessTransitive(x, y, x);
      LessIrreflexive(x);
    }
  }

  /** One step of the sort: `x` goes before the first day not later than it. */
  function Insert(x: string, s: seq<string>): (r: seq<string>)
    ensures multiset(r) == multiset(s) + multiset{x}
    decreases |s|
  {
    if s == [] || !Less(x, s[0]) then [x] + s
    else
      assert s == [s[0]] + s[1..];
      [s[0]] + Insert(x, s[1..])
  }

  lemma {:induction false} InsertNewestFirst(x: string, s: seq<string>)
    requires NewestFirst(s)
    ensures NewestFirst(Insert(x, s))
    decreases |s|
  {
    var r := Insert(x, s);
    if s == [] || !Less(x, s[0]) {
      forall i, j | 0 <= i < j < |r|
        ensures !Less(r[i], r[j])
      {
        if i == 0 && j > 1 {
          NotLessTransitive(x, s[0], s[j - 1]);
        }
      }
    } else {
      var tail := s[1..];
      InsertNewestFirst(x, tail);
      var rest := Insert(x, tail);
      assert r == [s[0]] + rest;
      forall j | 0 <= j < |rest|
        ensures !Less(s[0], rest[j])
      {
        assert rest[j] in multiset(rest);
        if rest[j] == x {
          LessAsymmetric(x, s[0]);
        } else {
          assert rest[j] in multiset(tail);
          var k :| 0 <= k < |tail| && tail[k] == rest[j];
          assert s[k + 1] == rest[j];
        }
      }
    }
  }

  /** `Object.keys(entries).sort().reverse()`: the day keys, newest first. */
  function SortDates(keys: seq<string>): (r: seq<string>)
    ensures multiset(r) == multiset(keys)
    decreases |keys|
  {
    if keys == [] then []
    else
      assert keys == [keys[0]] + keys[1..];
      Insert(keys[0], SortDates(keys[1..]))
  }

  lemma {:induction false} SortDatesNewestFirst(keys: seq<string>)
    ensures NewestFirst(SortDates(keys))
    decreases |keys|
  {
    if keys != [] {
      SortDatesNewestFirst(keys[1..]);
      InsertNewestFirst(keys[0], SortDates(keys[1..]));
    }
  }

  /** The first day of a newest-first list is not earlier than any of its days. */
  lemma HeadNotEarlier(a: seq<string>, x: string)
    requires NewestFirst(a) && x in multiset(a)
    ensures !Less(a[0], x)
  {
    var k :| 0 <= k < |a| && a[k] == x;
    if k == 0 {
      LessIrreflexive(x);
    }
  }

  lemma TailMultiset(a: seq<string>)
    requires a != []
    ensures multiset(a[1..]) == multiset(a) - multiset{a[0]}
  {
    assert a == [a[0]] + a[1..];
  }

  /** Two newest-first lists of the same days are the same list. */
  lemma {:induction false} NewestFirstUnique(a: seq<string>, b: seq<string>)
    requires NewestFirst(a) && NewestFirst(b) && multiset(a) == multiset(b)
    ensures a == b
    decreases |a|
  {
    assert |multiset(a)| == |a| && |multiset(b)| == |b|;
    if a != [] {
      assert a[0] in multiset(a) && b[0] in multiset(b);
      HeadNotEarlier(a, b[0]);
      HeadNotEarlier(b, a[0]);
      if a[0] != b[0] {
        LessTotal(a[0], b[0]);
      }
      TailMultiset(a);
      TailMultiset(b);
      NewestFirstUnique(a[1..], b[1..]);
      assert a == [a[0]] + a[1..] && b == [b[0]] + b[1..];
    }
  }

  /** The list of days shown does not depend on the order in which the keys
      were enumerated. */
  lemma DatesIndependentOfKeyOrder(keys1: seq<string>, keys2: seq<string>)
    requires multiset(keys1) == multiset(keys2)
    ensures SortDates(keys1) == SortDates(keys2)
  {
    SortDatesNewestFirst(keys1);
    SortDatesNewestFirst(keys2);
    NewestFirstUnique(SortDates(keys1), SortDates(keys2));
  }

  // --------------------------------------------------------------- totals

  /** The key enumeration of a journal: every day once. */
  predicate KeysOf(entries: map<string, JournalEntry>, keys: seq<string>) {
    && (forall d :: d in keys ==> d in entries)
    && (forall d :: d in entries ==> d in keys)
    && (forall i, j :: 0 <= i < j < |keys| ==> keys[i] != keys[j])
  }

  /** `Object.values(entries).reduce((acc, e) => acc + e.logs.length, 0)`
      over the days `keys`, in order. */
  function TotalLogs(entries: map<string, JournalEntry>, keys: seq<string>): (n: nat)
    requires forall d :: d in keys ==> d in entries
    decreases |keys|
  {
    if keys == [] then 0
    else TotalLogs(entries, keys[..|keys| - 1]) + |entries[keys[|keys| - 1]].logs|
  }

  /** The total days shown is the number of entries. */
  function TotalDays(entries: map<string, JournalEntry>): (n: nat)
    ensures n == 0 <==> entries == map[]
  {
    assert entries != map[] ==> exists d :: d in entries.Keys;
    |entries.Keys|
  }

  /** How `addLog` changes the log total over a fixed list of days: by one
      when today is in the list, by nothing otherwise. */
  lemma {:induction false} TotalLogsAfterAdd(entries: map<string, JournalEntry>, keys: seq<string>, today: string, log: string)
    requires forall d :: d in keys ==> d in entries
    requires forall i, j :: 0 <= i < j < |keys| ==> keys[i] != keys[j]
    ensures TotalLogs(AddLogTo(entries, today, log), keys) == TotalLogs(entries, keys) + (if today in keys then 1 else 0)
    decreases |keys|
  {
    if keys != [] {
      var init := keys[..|keys| - 1];
      assert forall d :: d in init ==> d in keys;
      TotalLogsAfterAdd(entries, init, today, log);
      assert today in keys <==> today in init || keys[|keys| - 1] == today;
      assert keys[|keys| - 1] == today ==> today !in init;
    }
  }

  /** The days after `addLog`: a new day is enumerated last. */
  function KeysAfterAdd(entries: map<string, JournalEntry>, keys: seq<string>, today: string): seq<string> {
    if today in entries then keys else keys + [today]
  }

  lemma AddLogKeys(entries: map<string, JournalEntry>, keys: seq<string>, today: string, log: string)
    requires KeysOf(entries, keys)
    ensures KeysOf(AddLogTo(entries, today, log), KeysAfterAdd(entries, keys, today))
  {
  }

  lemma AddLogDays(entries: map<string, JournalEntry>, today: string, log: string)
    ensures TotalDays(AddLogTo(entries, today, log)) == TotalDays(entries) + (if today in entries then 0 else 1)
  {
    var after := AddLogTo(entries, today, log);
    if today in entries {
      assert after.Keys == entries.Keys;
    } else {
      assert after.Keys == entries.Keys + {today};
    }
  }

  /** Every `addLog` raises the total number of entries shown by exactly one,
      and the number of days by one exactly when today had no entry. */
  lemma AddLogCountsOne(entries: map<string, JournalEntry>, keys: seq<string>, today: string, log: string)
    requires KeysOf(entries, keys)
    ensures KeysOf(AddLogTo(entries, today, log), KeysAfterAdd(entries, keys, today))
    ensures TotalLogs(AddLogTo(entries, today, log), KeysAfterAdd(entries, keys, today)) == TotalLogs(entries, keys) + 1
    ensures TotalDays(AddLogTo(entries, today, log)) == TotalDays(entries) + (if today in entries then 0 else 1)
  {
    AddLogKeys(entries, keys, today, log);
    AddLogDays(entries, today, log);
    TotalLogsAfterAdd(entries, keys, today, log);
    if today !in entries {
      var keys' := keys + [today];
      assert keys'[..|keys'| - 1] == keys;
    }
  }

  // ------------------------------------------------------- selected day

  /** `selectedEntry?.logs.length || 0`. */
  function EntryCount(entries: map<string, JournalEntry>, date: string): (n: nat)
    ensures date !in entries ==> n == 0
    ensures date in entries ==> n == |entries[date].logs|
  {
    if date in entries then |entries[date].logs| else 0
  }

  /** The export button is enabled exactly when the selected day has logs. */
  predicate ExportEnabled(entries: map<string, JournalEntry>, date: string) {
    EntryCount(entries, date) != 0
  }

  /** `handleExport`: the file `journal-<date>.txt` holding `exportDay(date)`. */
  function ExportFile(entries: map<string, JournalEntry>, date: string): (file: (string, string))
    ensures file.0 == "journal-" + date + ".txt"
  {
    ("journal-" + date + ".txt", ExportDay(entries, date))
  }

  /** Export is enabled exactly for a day with at least one log, and then
      the file starts with the day's heading; a day without an entry has an
      empty export text. */
  lemma ExportContent(entries: map<string, JournalEntry>, date: string)
    ensures ExportEnabled(entries, date) <==> date in entries && entries[date].logs != []
    ensures date !in entries ==> ExportFile(entries, date).1 == ""
    ensures date in entries ==> StartsWith(ExportFile(entries, date).1, "## " + entries[date].date + "\n")
  {
  }

  // --------------------------------------------------------------- clicks

  /** The selection: a day key, and a year and month that are `None` when
      `parseInt` gave `NaN`. */
  datatype Selection = Selection(date: string, year: Option<int>, month: Option<int>)

  /** The number after the first colon, as `parseInt(date.split(':')[1])` reads it. */
  function FieldAfterColon(s: string): Option<int> {
    var parts := Split(s, ':');
    if |parts| >= 2 then ParseInt(parts[1]) else None
  }

  /** `handleDateClick`: `month:` sets only the month, `year:` only the
      year, and anything else selects that day. */
  function DateClick(sel: Selection, date: string): (r: Selection)
    ensures StartsWith(date, "month:") ==> r == sel.(month := FieldAfterColon(date))
    ensures !StartsWith(date, "month:") && StartsWith(date, "year:") ==> r == sel.(year := FieldAfterColon(date))
    ensures !StartsWith(date, "month:") && !StartsWith(date, "year:") ==> r == sel.(date := date)
  {
    if StartsWith(date, "month:") then sel.(month := FieldAfterColon(date))
    else if StartsWith(date, "year:") then sel.(year := FieldAfterColon(date))
    else sel.(date := date)
  }

  /** The number printed after a prefix and a colon is read back. */
  lemma ReadsAfterColon(prefix: string, n: nat)
    requires ':' !in prefix
    ensures FieldAfterColon(prefix + ":" + NatToString(n)) == Some(n)
  {
    var digits := NatToString(n);
    assert forall j :: 0 <= j < |digits| ==> IsDigit(digits[j]);
    SplitNone(digits, ':');
    SplitCons(prefix, digits, ':');
    assert prefix + ":" + digits == prefix + [':'] + digits;
    ParseIntOfIntToString(n);
  }

  /** The heatmap's month selector sets the month it shows, and nothing else. */
  lemma MonthClick(sel: Selection, n: nat)
    ensures DateClick(sel, "month:" + NatToString(n)) == sel.(month := Some(n))
  {
    ReadsAfterColon("month", n);
    assert "month:" + NatToString(n) == "month" + ":" + NatToString(n);
    assert StartsWith("month:" + NatToString(n), "month:");
  }

  lemma NotMonth(s: string)
    requires s != [] && s[0] != 'm'
    ensures !StartsWith(s, "month:")
  {
    if |s| >= 6 {
      assert s[..6][0] == s[0];
    }
  }

  /** The heatmap's year selector sets the year it shows, and nothing else. */
  lemma YearClick(sel: Selection, n: nat)
    ensures DateClick(sel, "year:" + NatToString(n)) == sel.(year := Some(n))
  {
    var digits := NatToString(n);
    var s := "year:" + digits;
    assert s == "year" + ":" + digits;
    ReadsAfterColon("year", n);
    assert s[..5] == "year:";
    NotMonth(s);
  }

  /** A day key (`yyyy-MM-dd`, starting with a digit) selects that day. */
  lemma DayClick(sel: Selection, day: string)
    requires day != [] && IsDigit(day[0])
    ensures DateClick(sel, day) == sel.(date := day)
  {
  }

  class ViewerPanel {
    var selectedDate: string
    var selectedYear: Option<int>
    var selectedMonth: Option<int>
    const journal: JournalStore

    function Current(): Selection
      reads this
    {
      Selection(selectedDate, selectedYear, selectedMonth)
    }

    /** Opens on today, this year and this month, all from the caller's clock. */
    constructor(journal: JournalStore, today: string, year: int, month: int)
      ensures Current() == Selection(today, Some(year), Some(month)) && this.journal == journal
    {
      selectedDate := today;
      selectedYear := Some(year);
      selectedMonth := Some(month);
      this.journal := journal;
    }

    method HandleDateClick(date: string)
      modifies this
      ensures Current() == DateClick(old(Current()), date)
    {
      if |date| >= 6 && date[..6] == "month:" {
        selectedMonth := FieldAfterColon(date);
        return;
      }
      if |date| >= 5 && date[..5] == "year:" {
        selectedYear := FieldAfterColon(date);
        return;
      }
      selectedDate := date;
    }

    /** `handleExport`: the file name and text of the selected day. */
    method HandleExport() returns (name: string, text: string)
      ensures (name, text) == ExportFile(journal.entries, selectedDate)
    {
      text := ExportDay(journal.entries, selectedDate);
      name := "journal-" + selectedDate + ".txt";
    }
  }
}
