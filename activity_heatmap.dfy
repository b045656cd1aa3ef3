/** The month heatmap of journal activity (client/src/components/ActivityHeatmap.tsx).
    Each day of the month gets a level 0..4 from its log count, the length of
    its logs and the minutes named in its timer-completion lines; the days are
    padded back to a Sunday and cut into weeks. The calendar (the month's day
    keys, the weekday of the first day and the keys of the padding days) is
    supplied by the caller. Activity is computed exactly, over the rationals. */
module Heatmap {
  import opened Base
  import opened Strings
  import opened Journal

  // ------------------------------------------- the timer-completion pattern

  /** The literal start of the pattern `/Timer completed:.*\((\d+) minutes\)/`. */
  const TimerPrefix := "Timer completed:"

  /** The first line terminator at or after `from`, or the end: how far `.*` can reach. */
  function LineEnd(s: string, from: nat): (e: nat)
    requires from <= |s|
    ensures from <= e <= |s|
    ensures forall k :: from <= k < e ==> !IsLineTerminator(s[k])
    ensures e < |s| ==> IsLineTerminator(s[e])
    decreases |s| - from
  {
    if from == |s| || IsLineTerminator(s[from]) then from else LineEnd(s, from + 1)
  }

  /** The tail `\((\d+) minutes\)` matched at position `q`: the number the
      longest run of digits after the parenthesis spells, when " minutes)"
      follows it. */
  function MinutesAt(s: string, q: nat): Option<nat>
  {
    if q < |s| && s[q] == '(' then
      var u := s[q + 1..];
      var n := DigitPrefix(u);
      if n > 0 && StartsWith(u[n..], " minutes)") then Some(DecimalValue(u[..n])) else None
    else None
  }

  /** The greedy `.*` starting at `from`: the tail is tried at the farthest
      position first, then nearer ones, down to `from`. */
  function ScanBack(s: string, from: nat, q: nat): Option<nat>
    decreases q
  {
    if q < from then None
    else if MinutesAt(s, q).Some? then MinutesAt(s, q)
    else if q == 0 then None
    else ScanBack(s, from, q - 1)
  }

  /** Matching from start position `p` onwards: the leftmost `Timer completed:`
      from which the rest of the pattern matches on the same line. */
  function MatchFrom(s: string, p: nat): Option<nat>
    decreases |s| - p
  {
    if p + |TimerPrefix| > |s| then None
    else
      var found := ScanBack(s, p + |TimerPrefix|, LineEnd(s, p + |TimerPrefix|));
      if s[p..p + |TimerPrefix|] == TimerPrefix && found.Some? then found
      else MatchFrom(s, p + 1)
  }

  /** `log.match(...)` followed by `parseInt` of the captured digits. */
  function MatchTimer(log: string): Option<nat> {
    MatchFrom(log, 0)
  }

  /** Positions where the tail does not match can be skipped by the backward scan. */
  lemma {:induction false} ScanBackSkip(s: string, from: nat, q: nat, q0: nat)
    requires from <= q0 <= q
    requires forall k :: q0 < k <= q ==> MinutesAt(s, k).None?
    ensures ScanBack(s, from, q) == ScanBack(s, from, q0)
    decreases q
  {
    if q > q0 {
      ScanBackSkip(s, from, q - 1, q0);
    }
  }

  /** Whether `Timer completed:` starts at position `k`. */
  predicate PrefixAt(s: string, k: nat) {
    k + |TimerPrefix| <= |s| && s[k..k + |TimerPrefix|] == TimerPrefix
  }

  /** A line without `Timer completed:` in it contributes no minutes. */
  lemma {:induction false} NoPrefixNoMatch(s: string, p: nat)
    requires forall k: nat :: p <= k ==> !PrefixAt(s, k)
    ensures MatchFrom(s, p).None?
    decreases |s| - p
  {
    if p + |TimerPrefix| <= |s| {
      assert !PrefixAt(s, p);
      NoPrefixNoMatch(s, p + 1);
    }
  }

  // ------------------------------------------------------------- activity

  /** `logs.join('').length`: the UTF-16 length of all the logs together. */
  function TotalContent(logs: seq<string>): nat
    decreases |logs|
  {
    if logs == [] then 0 else TotalContent(logs[..|logs| - 1]) + Utf16Length(logs[|logs| - 1])
  }

  /** The minutes of one log: what its first match captures, or 0. */
  function LogMinutes(log: string): nat {
    match MatchTimer(log)
    case Some(m) => m
    case None => 0
  }

  /** `totalTimeSpent` after the `forEach`: the minutes of every log, added up. */
  function TotalMinutes(logs: seq<string>): nat
    decreases |logs|
  {
    if logs == [] then 0 else TotalMinutes(logs[..|logs| - 1]) + LogMinutes(logs[|logs| - 1])
  }

  /** The `forEach` over the day's logs that accumulates `totalTimeSpent`. */
  method SumTimeSpent(logs: seq<string>) returns (total: nat)
    ensures total == TotalMinutes(logs)
  {
    total := 0;
    var i := 0;
    while i < |logs|
      invariant 0 <= i <= |logs|
      invariant total == TotalMinutes(logs[..i])
    {
      assert logs[..i + 1][..i] == logs[..i];
      total := total + LogMinutes(logs[i]);
      i := i + 1;
    }
    assert logs[..|logs|] == logs;
  }

  /** `logCount + totalContent / 100 + totalTimeSpent / 15`. */
  function Activity(logs: seq<string>): real {
    |logs| as real + TotalContent(logs) as real / 100.0 + TotalMinutes(logs) as real / 15.0
  }

  /** The bucketing of an activity value into levels 1..4. */
  function Bucket(a: real): (level: int)
    ensures 1 <= level <= 4
    ensures level == 1 <==> a <= 2.0
    ensures level == 2 <==> 2.0 < a <= 5.0
    ensures level == 3 <==> 5.0 < a <= 10.0
    ensures level == 4 <==> a > 10.0
  {
    if a <= 2.0 then 1 else if a <= 5.0 then 2 else if a <= 10.0 then 3 else 4
  }

  /** More activity never gives a lower level. */
  lemma BucketMonotone(a: real, b: real)
    requires a <= b
    ensures Bucket(a) <= Bucket(b)
  {
  }

  /** A day's level: 0 without an entry or without logs, otherwise the bucket of its activity. */
  function ActivityLevel(entry: Option<JournalEntry>): (level: int)
    ensures 0 <= level <= 4
    ensures level == 0 <==> entry.None? || entry.value.logs == []
    ensures entry.Some? && entry.value.logs != [] ==> level == Bucket(Activity(entry.value.logs))
  {
    if entry.None? || |entry.value.logs| == 0 then 0
    else
      assert Activity(entry.value.logs) >= 1.0;
      Bucket(Activity(entry.value.logs))
  }

  /** Writing one more log into a day never lowers its activity, nor its level. */
  lemma {:induction false} MoreLogsNoLowerLevel(logs: seq<string>, log: string)
    ensures Activity(logs + [log]) >= Activity(logs) + 1.0
    ensures logs != [] ==> Bucket(Activity(logs + [log])) >= Bucket(Activity(logs))
  {
    var l := logs + [log];
    assert l[..|l| - 1] == logs;
    assert TotalContent(l) >= TotalContent(logs);
    assert TotalMinutes(l) >= TotalMinutes(logs);
    if logs != [] {
      BucketMonotone(Activity(logs), Activity(l));
    }
  }

  // ---------------------------------------------------------------- cells

  /** One square of the heatmap, identified by its `yyyy-MM-dd` key. */
  datatype DayCell = DayCell(dateKey: string, activityLevel: int, hasEntry: bool, logCount: int, isPadding: bool)

  /** The square of a day of the month. */
  function DayCellFor(entries: map<string, JournalEntry>, key: string): (c: DayCell)
    ensures c.dateKey == key && !c.isPadding
    ensures c.hasEntry <==> key in entries
    ensures c.logCount == if key in entries then |entries[key].logs| else 0
    ensures c.activityLevel == ActivityLevel(if key in entries then Some(entries[key]) else None)
  {
    var entry := if key in entries then Some(entries[key]) else None;
    DayCell(key, ActivityLevel(entry), entry.Some?, if entry.Some? then |entry.value.logs| else 0, false)
  }

  /** `daysWithActivity`: one square per day of the month, in order. */
  function MonthCells(entries: map<string, JournalEntry>, keys: seq<string>): (cells: seq<DayCell>)
    ensures |cells| == |keys|
    ensures forall i :: 0 <= i < |keys| ==> cells[i] == DayCellFor(entries, keys[i])
  {
    seq(|keys|, i requires 0 <= i < |keys| => DayCellFor(entries, keys[i]))
  }

  /** A square before the first of the month. */
  function PaddingCell(key: string): (c: DayCell)
    ensures c.isPadding && c.activityLevel == 0 && !c.hasEntry && c.logCount == 0 && c.dateKey == key
  {
    DayCell(key, 0, false, 0, true)
  }

  /** The padding loop: one padding square per day between the preceding
      Sunday and the first of the month, then the month's squares. */
  method PadToSunday(padKeys: seq<string>, days: seq<DayCell>) returns (padded: seq<DayCell>)
    ensures |padded| == |padKeys| + |days|
    ensures forall i :: 0 <= i < |padKeys| ==> padded[i] == PaddingCell(padKeys[i])
    ensures padded[|padKeys|..] == days
  {
    var paddedDays: seq<DayCell> := [];
    var i := 0;
    while i < |padKeys|
      invariant 0 <= i <= |padKeys| && |paddedDays| == i
      invariant forall k :: 0 <= k < i ==> paddedDays[k] == PaddingCell(padKeys[k])
    {
      paddedDays := paddedDays + [PaddingCell(padKeys[i])];
      i := i + 1;
    }
    padded := paddedDays + days;
  }

  /** `s` cut into consecutive weeks of seven; the last may be shorter. */
  function Weeks<T>(s: seq<T>): seq<seq<T>>
    decreases |s|
  {
    if |s| == 0 then []
    else if |s| <= 7 then [s]
    else [s[..7]] + Weeks(s[7..])
  }

  function Flatten<T>(ss: seq<seq<T>>): seq<T>
    decreases |ss|
  {
    if ss == [] then [] else ss[0] + Flatten(ss[1..])
  }

  /** The weeks put back together give the padded days. */
  lemma {:induction false} WeeksFlatten<T>(s: seq<T>)
    ensures Flatten(Weeks(s)) == s
    decreases |s|
  {
    if |s| > 7 {
      WeeksFlatten(s[7..]);
      assert Weeks(s)[1..] == Weeks(s[7..]);
      assert s[..7] + s[7..] == s;
    } else if |s| > 0 {
      assert Weeks(s) == [s];
      assert s + [] == s;
    }
  }

  /** Every week but the last has exactly seven days, the last between one
      and seven, and there are as many weeks as sevens needed to cover the days. */
  lemma {:induction false} WeeksShape<T>(s: seq<T>)
    ensures |Weeks(s)| == (|s| + 6) / 7
    ensures forall i :: 0 <= i < |Weeks(s)| - 1 ==> |Weeks(s)[i]| == 7
    ensures forall i :: 0 <= i < |Weeks(s)| ==> 1 <= |Weeks(s)[i]| <= 7
    decreases |s|
  {
    if |s| > 7 {
      WeeksShape(s[7..]);
      assert Weeks(s)[1..] == Weeks(s[7..]);
    }
  }

  /** The week loop: `slice(i, i + 7)` for i = 0, 7, 14, ... */
  method GroupWeeks<T>(days: seq<T>) returns (weeks: seq<seq<T>>)
    ensures weeks == Weeks(days)
  {
    weeks := [];
    var i := 0;
    while i < |days|
      invariant 0 <= i <= |days|
      invariant weeks + Weeks(days[i..]) == Weeks(days)
      decreases |days| - i
    {
      var end := if i + 7 <= |days| then i + 7 else |days|;
      var rest := days[i..];
      if |rest| > 7 {
        assert rest[..7] == days[i..end];
        assert rest[7..] == days[end..];
        assert Weeks(rest) == [days[i..end]] + Weeks(days[end..]);
      } else {
        assert rest == days[i..end];
        assert days[end..] == [];
        assert Weeks(rest) == [days[i..end]] + Weeks(days[end..]);
      }
      weeks := weeks + [days[i..end]];
      i := end;
    }
    assert days[i..] == [];
  }

  /** `totalContributions`: the days of the month that have an entry. */
  function Contributions(cells: seq<DayCell>): nat {
    |Filter(cells, (c: DayCell) => c.hasEntry)|
  }

  /** How many of the month's keys have an entry. */
  function KeysWithEntry(entries: map<string, JournalEntry>, keys: seq<string>): nat
    decreases |keys|
  {
    if keys == [] then 0 else (if keys[0] in entries then 1 else 0) + KeysWithEntry(entries, keys[1..])
  }

  /** The count is over entries, not over logs: a day whose entry has no
      logs is counted though its level is 0. */
  lemma {:induction false} ContributionsCountEntries(entries: map<string, JournalEntry>, keys: seq<string>)
    ensures Contributions(MonthCells(entries, keys)) == KeysWithEntry(entries, keys)
    decreases |keys|
  {
    if keys != [] {
      var cells := MonthCells(entries, keys);
      assert cells[1..] == MonthCells(entries, keys[1..]);
      ContributionsCountEntries(entries, keys[1..]);
    }
  }
}
