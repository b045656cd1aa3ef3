/** The timer panel (client/src/components/TimerManager.tsx): its clock
    display, the timer it creates from its two input fields, the list it
    shows, and the effect that journals each finished timer once and reports
    the number of finished timers to the `quest-timer-1` quest. */
module TimerManager {
  import opened Base
  import opened Strings
  import opened Types
  import opened Research
  import opened Quests
  import opened Journal
  import opened Heatmap
  import opened Storage

  // ------------------------------------------------------------ formatTime

  /** The three numbers `formatTime` shows. `Math.floor(x / n)` for a positive
      `n` is Dafny's division. */
  function ClockHours(seconds: int): int { seconds / 3600 }
  function ClockMinutes(seconds: int): int { JsRem(seconds, 3600) / 60 }
  function ClockSeconds(seconds: int): int { JsRem(seconds, 60) }

  /** For a non-negative number of seconds the display is exact: hours,
      minutes below 60 and seconds below 60 add back up to the total. */
  lemma ClockDecomposes(seconds: int)
    requires seconds >= 0
    ensures ClockHours(seconds) * 3600 + ClockMinutes(seconds) * 60 + ClockSeconds(seconds) == seconds
    ensures 0 <= ClockMinutes(seconds) < 60 && 0 <= ClockSeconds(seconds) < 60
  {
    var r := seconds % 3600;
    assert ClockHours(seconds) * 3600 + r == seconds;
    assert ClockMinutes(seconds) == r / 60;
    assert ClockSeconds(seconds) == seconds % 60;
    assert seconds % 60 == r % 60 by {
      assert seconds == ClockHours(seconds) * 60 * 60 + r;
    }
  }

  /** `formatTime(seconds)`: `H:MM:SS` when there is at least an hour, else `M:SS`. */
  function FormatTime(seconds: int): string {
    Display(ClockHours(seconds), ClockMinutes(seconds), ClockSeconds(seconds))
  }

  /** The text `formatTime` builds from its three numbers. */
  function Display(h: int, m: int, s: int): string {
    if h > 0 then IntToString(h) + ":" + PadStart2(IntToString(m)) + ":" + PadStart2(IntToString(s))
    else IntToString(m) + ":" + PadStart2(IntToString(s))
  }

  /** Reading a clock display back: `H:MM:SS` or `M:SS` to seconds. */
  function ParseClock(text: string): Option<int> {
    ClockOf(Split(text, ':'))
  }

  /** The seconds that the colon-separated fields of a display stand for. */
  function ClockOf(parts: seq<string>): Option<int> {
    if |parts| == 3 then Sexagesimal([ReadField(parts[0]), ReadField(parts[1]), ReadField(parts[2])])
    else if |parts| == 2 then Sexagesimal([ReadField(parts[0]), ReadField(parts[1])])
    else None
  }

  /** One field of a display: a non-empty run of decimal digits. */
  function ReadField(s: string): Option<int> {
    if s != [] && AllDigits(s) then Some(DecimalValue(s)) else None
  }

  /** Base-60 value of the numbers read from the fields, none if one is not a number. */
  function Sexagesimal(fields: seq<Option<int>>): Option<int>
    decreases |fields|
  {
    if fields == [] then Some(0)
    else
      var front := Sexagesimal(fields[..|fields| - 1]);
      var last := fields[|fields| - 1];
      if front.Some? && last.Some? then Some(front.value * 60 + last.value) else None
  }

  lemma NatStringLength(n: nat)
    requires n >= 10
    ensures |NatToString(n)| >= 2
  {
  }

  /** A printed non-negative number reads back as itself. */
  lemma ReadPrinted(x: int)
    requires x >= 0
    ensures ReadField(IntToString(x)) == Some(x)
  {
    assert IntToString(x) == NatToString(x);
    DecimalOfNatToString(x);
  }

  /** A number below 60 padded to two digits reads back as itself. */
  lemma ReadPadded(x: int)
    requires 0 <= x < 60
    ensures ReadField(PadStart2(IntToString(x))) == Some(x)
  {
    var s := IntToString(x);
    if x >= 10 {
      NatStringLength(x);
      ReadPrinted(x);
    } else {
      var p := PadStart2(s);
      assert p == ['0', DigitChar(x)];
      assert p[..1] == ['0'];
      assert DecimalValue(['0']) == 0;
    }
  }

  /** A number below 60 padded to two places is all digits. */
  lemma PaddedDigits(x: int)
    requires 0 <= x < 60
    ensures AllDigits(PadStart2(IntToString(x)))
  {
    if x >= 10 {
      NatStringLength(x);
    }
  }

  /** A digit string holds no colon. */
  lemma DigitsNoColon(s: string)
    requires AllDigits(s)
    ensures ':' !in s
  {
  }

  /** Three colon-free fields joined by colons split back into themselves. */
  lemma SplitThree(a: string, b: string, c: string)
    requires ':' !in a && ':' !in b && ':' !in c
    ensures Split(a + ":" + b + ":" + c, ':') == [a, b, c]
  {
    assert a + ":" + b + ":" + c == a + [':'] + (b + [':'] + c);
    SplitCons(a, b + [':'] + c, ':');
    SplitCons(b, c, ':');
    SplitNone(c, ':');
  }

  /** Two colon-free fields joined by a colon split back into themselves. */
  lemma SplitTwo(a: string, b: string)
    requires ':' !in a && ':' !in b
    ensures Split(a + ":" + b, ':') == [a, b]
  {
    SplitCons(a, b, ':');
    SplitNone(b, ':');
  }

  /** The fields of a display, as they are split back out. */
  lemma DisplaySplits(h: int, m: int, sec: int)
    requires 0 <= m < 60 && 0 <= sec < 60
    ensures h > 0 ==> Split(Display(h, m, sec), ':') == [IntToString(h), PadStart2(IntToString(m)), PadStart2(IntToString(sec))]
    ensures h <= 0 ==> Split(Display(h, m, sec), ':') == [IntToString(m), PadStart2(IntToString(sec))]
  {
    PaddedDigits(m);
    PaddedDigits(sec);
    DigitsNoColon(PadStart2(IntToString(m)));
    DigitsNoColon(PadStart2(IntToString(sec)));
    DigitsNoColon(IntToString(m));
    if h > 0 {
      DigitsNoColon(IntToString(h));
      SplitThree(IntToString(h), PadStart2(IntToString(m)), PadStart2(IntToString(sec)));
    } else {
      SplitTwo(IntToString(m), PadStart2(IntToString(sec)));
    }
  }

  /** Three fields that read as numbers stand for hours, minutes and seconds. */
  lemma ClockOfThree(parts: seq<string>, a: string, b: string, c: string, h: int, m: int, sec: int, total: int)
    requires parts == [a, b, c] && total == h * 3600 + m * 60 + sec
    requires ReadField(a) == Some(h) && ReadField(b) == Some(m) && ReadField(c) == Some(sec)
    ensures ClockOf(parts) == Some(total)
  {
    SexagesimalThree(h, m, sec);
    assert [ReadField(a), ReadField(b), ReadField(c)] == [Some(h), Some(m), Some(sec)];
  }

  /** Two fields that read as numbers stand for minutes and seconds. */
  lemma ClockOfTwo(parts: seq<string>, b: string, c: string, m: int, sec: int, total: int)
    requires parts == [b, c] && total == m * 60 + sec
    requires ReadField(b) == Some(m) && ReadField(c) == Some(sec)
    ensures ClockOf(parts) == Some(total)
  {
    SexagesimalTwo(m, sec);
    assert [ReadField(b), ReadField(c)] == [Some(m), Some(sec)];
  }

  lemma SexagesimalTwo(m: int, sec: int)
    ensures Sexagesimal([Some(m), Some(sec)]) == Some(m * 60 + sec)
  {
    var fs := [Some(m), Some(sec)];
    assert fs[..1] == [Some(m)] && fs[..1][..0] == [];
    assert Sexagesimal(fs[..1]) == Some(m);
  }

  lemma SexagesimalThree(h: int, m: int, sec: int)
    ensures Sexagesimal([Some(h), Some(m), Some(sec)]) == Some(h * 3600 + m * 60 + sec)
  {
    var fs := [Some(h), Some(m), Some(sec)];
    assert fs[..2] == [Some(h), Some(m)];
    SexagesimalTwo(h, m);
  }

  /** The printed fields of an `H:MM:SS` display stand for its seconds. */
  lemma HoursFieldsRead(h: int, m: int, sec: int, total: int)
    requires h > 0 && 0 <= m < 60 && 0 <= sec < 60 && h * 3600 + m * 60 + sec == total
    ensures ClockOf([IntToString(h), PadStart2(IntToString(m)), PadStart2(IntToString(sec))]) == Some(total)
  {
    var a := IntToString(h);
    var b := PadStart2(IntToString(m));
    var c := PadStart2(IntToString(sec));
    ReadPrinted(h);
    ReadPadded(m);
    ReadPadded(sec);
    ClockOfThree([a, b, c], a, b, c, h, m, sec, total);
  }

  /** The printed fields of an `M:SS` display stand for its seconds. */
  lemma MinutesFieldsRead(m: int, sec: int, total: int)
    requires 0 <= m < 60 && 0 <= sec < 60 && m * 60 + sec == total
    ensures ClockOf([IntToString(m), PadStart2(IntToString(sec))]) == Some(total)
  {
    var a := IntToString(m);
    var b := PadStart2(IntToString(sec));
    ReadPrinted(m);
    ReadPadded(sec);
    ClockOfTwo([a, b], a, b, m, sec, total);
  }

  /** An `H:MM:SS` display reads back as the seconds its numbers stand for. */
  lemma HoursRoundTrip(h: int, m: int, sec: int, total: int)
    requires h > 0 && 0 <= m < 60 && 0 <= sec < 60 && h * 3600 + m * 60 + sec == total
    ensures ParseClock(Display(h, m, sec)) == Some(total)
  {
    var parts := [IntToString(h), PadStart2(IntToString(m)), PadStart2(IntToString(sec))];
    DisplaySplits(h, m, sec);
    assert Split(Display(h, m, sec), ':') == parts;
    HoursFieldsRead(h, m, sec, total);
    ReadsAs(Display(h, m, sec), parts, total);
  }

  /** An `M:SS` display reads back as the seconds its numbers stand for. */
  lemma MinutesRoundTrip(h: int, m: int, sec: int, total: int)
    requires h <= 0 && 0 <= m < 60 && 0 <= sec < 60 && m * 60 + sec == total
    ensures ParseClock(Display(h, m, sec)) == Some(total)
  {
    DisplaySplits(h, m, sec);
    MinutesFieldsRead(m, sec, total);
    ReadsAs(Display(h, m, sec), [IntToString(m), PadStart2(IntToString(sec))], total);
  }

  /** A text that splits into fields standing for `seconds` reads back as them. */
  lemma ReadsAs(text: string, parts: seq<string>, seconds: int)
    requires Split(text, ':') == parts && ClockOf(parts) == Some(seconds)
    ensures ParseClock(text) == Some(seconds)
  {
  }

  /** `formatTime` can be read back: parsing the display of a non-negative
      number of seconds gives that number. */
  lemma FormatTimeRoundTrip(seconds: int)
    requires seconds >= 0
    ensures ParseClock(FormatTime(seconds)) == Some(seconds)
  {
    ClockDecomposes(seconds);
    if ClockHours(seconds) > 0 {
      HoursRoundTrip(ClockHours(seconds), ClockMinutes(seconds), ClockSeconds(seconds), seconds);
    } else {
      MinutesRoundTrip(ClockHours(seconds), ClockMinutes(seconds), ClockSeconds(seconds), seconds);
    }
  }

  /** The display has three fields exactly when the time is an hour or more. */
  lemma FormatTimeFields(seconds: int)
    requires seconds >= 0
    ensures |Split(FormatTime(seconds), ':')| == if seconds >= 3600 then 3 else 2
  {
    ClockDecomposes(seconds);
    DisplaySplits(ClockHours(seconds), ClockMinutes(seconds), ClockSeconds(seconds));
  }

  // ------------------------------------------------------- completion log

  /** `Math.round(duration / 60)`: the whole number of minutes nearest to the
      duration, halves rounded up. */
  function RoundMinutes(duration: int): (m: int)
    ensures 60 * m - 30 <= duration < 60 * m + 30
  {
    (2 * duration + 60) / 120
  }

  /** The journal line for a finished timer. */
  function CompletionLog(name: string, minutes: int): string {
    "Timer completed: \"" + name + "\" (" + IntToString(minutes) + " minutes)"
  }

  /** The tail ` (N minutes)` of a completion line: the pattern's tail matches
      at its parenthesis with the minutes written there, and nowhere after it. */
  lemma TailMatches(head: string, minutes: nat)
    ensures var s := head + ("(" + NatToString(minutes) + " minutes)");
      && MinutesAt(s, |head|) == Some(minutes)
      && forall k :: |head| < k <= |s| ==> MinutesAt(s, k).None?
  {
    var digits := NatToString(minutes);
    var s := head + ("(" + digits + " minutes)");
    var q0 := |head|;
    var u := s[q0 + 1..];
    assert u == digits + " minutes)";
    DigitPrefixStops(digits, " minutes)");
    assert u[..|digits|] == digits;
    assert u[|digits|..] == " minutes)";
    DecimalOfNatToString(minutes);
    forall k | q0 < k <= |s| ensures MinutesAt(s, k).None? {
      if k < q0 + 1 + |digits| {
        assert s[k] == digits[k - q0 - 1];
      } else if k < |s| {
        assert s[k] == " minutes)"[k - q0 - 1 - |digits|];
      }
    }
  }

  /** A completion line stays on one line when the timer's name does. */
  lemma CompletionLogOneLine(name: string, minutes: nat)
    requires forall k :: 0 <= k < |name| ==> !IsLineTerminator(name[k])
    ensures forall k :: 0 <= k < |CompletionLog(name, minutes)| ==> !IsLineTerminator(CompletionLog(name, minutes)[k])
  {
    var s := CompletionLog(name, minutes);
    var digits := NatToString(minutes);
    var rest := "\" (" + digits + " minutes)";
    assert s == "Timer completed: \"" + name + rest;
    forall k | 0 <= k < |s| ensures !IsLineTerminator(s[k]) {
      if k < 18 {
      } else if k < 18 + |name| {
        assert s[k] == name[k - 18];
      } else {
        var j := k - 18 - |name|;
        assert s[k] == rest[j];
        if 3 <= j < 3 + |digits| {
          assert rest[j] == digits[j - 3];
        } else if j >= 3 + |digits| {
          assert rest[j] == " minutes)"[j - 3 - |digits|];
        }
      }
    }
  }

  /** The heatmap reads back the minutes the completion line was written
      with, whatever the timer's name, as long as the name stays on one line. */
  lemma CompletionLogMinutes(name: string, minutes: nat)
    requires forall k :: 0 <= k < |name| ==> !IsLineTerminator(name[k])
    ensures MatchTimer(CompletionLog(name, minutes)) == Some(minutes)
    ensures LogMinutes(CompletionLog(name, minutes)) == minutes
  {
    var s := CompletionLog(name, minutes);
    var head := "Timer completed: \"" + name + "\" ";
    assert s == head + ("(" + NatToString(minutes) + " minutes)");
    assert s[0..|TimerPrefix|] == TimerPrefix;
    CompletionLogOneLine(name, minutes);
    assert LineEnd(s, |TimerPrefix|) == |s|;
    TailMatches(head, minutes);
    ScanBackSkip(s, |TimerPrefix|, |s|, |head|);
    assert ScanBack(s, |TimerPrefix|, |head|) == Some(minutes);
  }

  /** The line of a 30-minute timer named `X`, written out. */
  lemma ExampleLine()
    ensures CompletionLog("X", 30) == "Timer completed: \"X\" (30 minutes)"
  {
    assert NatToString(30) == "30";
  }

  /** That line is ASCII: its UTF-16 length is its 33 characters. */
  lemma ExampleLineLength()
    ensures Utf16Length("Timer completed: \"X\" (30 minutes)") == 33
  {
    var s := "Timer completed: \"X\" (30 minutes)";
    assert forall k :: 0 <= k < |s| ==> s[k] as int <= 0xFFFF;
  }

  /** A day whose only log is the line of a 30-minute timer named `X`: 33
      characters and 30 minutes, so activity 1 + 0.33 + 2 = 3.33 and level 2. */
  lemma CompletionDayLevel(date: string)
    ensures Activity([CompletionLog("X", 30)]) == 3.33
    ensures ActivityLevel(Some(JournalEntry(date, [CompletionLog("X", 30)]))) == 2
  {
    var log := CompletionLog("X", 30);
    CompletionLogMinutes("X", 30);
    ExampleLine();
    ExampleLineLength();
    var logs := [log];
    assert logs[..0] == [];
    assert TotalContent(logs) == 33;
    assert TotalMinutes(logs) == 30;
  }

  // ------------------------------------------------------------ add timer

  /** The timer `handleAddTimer` hands to `addTimer`: `minutes * 60` seconds,
      full, running exactly when the panel auto-starts, and named after its
      position when the name field is empty. The store gives it its id. */
  function NewTimer(minutes: int, nameText: string, count: nat, autoStart: bool, widgetId: Option<Id>): (t: Timer)
    ensures t.duration == minutes * 60 && t.remaining == t.duration
    ensures t.isRunning == autoStart && !t.isCompleted && t.widgetId == widgetId
    ensures t.name == if nameText == "" then "Timer " + IntToString(count + 1) else nameText
    ensures t.name != ""
  {
    var name := if nameText == "" then "Timer " + IntToString(count + 1) else nameText;
    Timer("", name, minutes * 60, minutes * 60, autoStart, false, widgetId)
  }

  /** A new timer of a non-negative number of minutes is in range, and if it
      auto-starts it finishes after exactly `minutes * 60` ticks. */
  lemma NewTimerCountsDown(minutes: nat, nameText: string, count: nat, widgetId: Option<Id>)
    ensures TimerInRange(NewTimer(minutes, nameText, count, true, widgetId))
    ensures TickTimerTimes(NewTimer(minutes, nameText, count, true, widgetId), minutes * 60).remaining == 0
    ensures minutes > 0 ==> TickTimerTimes(NewTimer(minutes, nameText, count, true, widgetId), minutes * 60).isCompleted
    ensures minutes > 0 ==> !TickTimerTimes(NewTimer(minutes, nameText, count, true, widgetId), minutes * 60 - 1).isCompleted
  {
    var t := NewTimer(minutes, nameText, count, true, widgetId);
    TicksCountDown(t, minutes * 60);
    if minutes > 0 {
      TicksCountDown(t, minutes * 60 - 1);
    }
  }

  /** `relevantTimers`: with a (non-empty) widget id, the timers of that
      widget; without one, all timers. */
  function RelevantTimers(ts: seq<Timer>, widgetId: Option<Id>): (r: seq<Timer>)
    ensures widgetId.None? || widgetId.value == "" ==> r == ts
    ensures widgetId.Some? && widgetId.value != "" ==> forall t :: t in r <==> t in ts && t.widgetId == widgetId
  {
    if widgetId.Some? && widgetId.value != "" then Filter(ts, (t: Timer) => t.widgetId == widgetId) else ts
  }

  /** `getProgress(timer)`: the elapsed share of the duration as a
      percentage, computed exactly. A zero duration has none: the source
      divides by zero there. */
  function TimerProgress(t: Timer): (r: Option<real>)
    ensures r.None? <==> t.duration == 0
    ensures r.Some? && 0 <= t.remaining <= t.duration ==> 0.0 <= r.value <= 100.0
    ensures r.Some? ==> (r.value == 0.0 <==> t.remaining == t.duration)
    ensures r.Some? && 0 <= t.remaining <= t.duration ==> (r.value == 100.0 <==> t.remaining == 0)
  {
    if t.duration == 0 then None
    else
      var elapsed := (t.duration - t.remaining) as real;
      var whole := t.duration as real;
      var share := (elapsed / whole) * 100.0;
      if 0 <= t.remaining <= t.duration then ShareBounds(elapsed, whole); Some(share)
      else Some(share)
  }

  /** A tick never moves a timer's progress backwards. */
  lemma TickNeverLowersProgress(t: Timer)
    requires 0 <= t.remaining <= t.duration && t.duration > 0
    ensures TimerProgress(TickTimer(t)).Some?
    ensures TimerProgress(TickTimer(t)).value >= TimerProgress(t).value
  {
    var r := TickTimer(t);
    assert r.duration == t.duration;
    var whole := t.duration as real;
    var before := (t.duration - t.remaining) as real;
    var after := (r.duration - r.remaining) as real;
    assert before <= after;
    assert after / whole - before / whole == (after - before) / whole;
  }

  // ------------------------------------------------------- completion effect

  const QuestTimerId := "quest-timer-1"

  /** `timers.filter(t => t.isCompleted).length`. */
  function CompletedCount(ts: seq<Timer>): nat {
    |Filter(ts, (t: Timer) => t.isCompleted)|
  }

  /** The guard of the effect: completed, and not yet logged when the effect started. */
  predicate Unlogged(t: Timer, logged: set<Id>) {
    t.isCompleted && t.id !in logged
  }

  /** The timers one run of the effect journals, in list order. */
  function NewlyCompleted(ts: seq<Timer>, logged: set<Id>): (r: seq<Timer>)
    decreases |ts|
  {
    if ts == [] then []
    else NewlyCompleted(ts[..|ts| - 1], logged) + (if Unlogged(ts[|ts| - 1], logged) then [ts[|ts| - 1]] else [])
  }

  lemma NewlyCompletedSnoc(ts: seq<Timer>, t: Timer, logged: set<Id>)
    ensures NewlyCompleted(ts + [t], logged)
         == NewlyCompleted(ts, logged) + (if Unlogged(t, logged) then [t] else [])
  {
    assert (ts + [t])[..|ts|] == ts;
  }

  /** The effect journals exactly the completed timers not logged before. */
  lemma {:induction false} NewlyCompletedMembers(ts: seq<Timer>, logged: set<Id>)
    ensures forall t :: t in NewlyCompleted(ts, logged) <==> t in ts && Unlogged(t, logged)
    decreases |ts|
  {
    if ts != [] {
      var init := ts[..|ts| - 1];
      NewlyCompletedMembers(init, logged);
      assert ts == init + [ts[|ts| - 1]];
    }
  }

  /** When no timer passes the guard, the effect journals nothing. */
  lemma {:induction false} NothingNew(ts: seq<Timer>, logged: set<Id>)
    requires forall i :: 0 <= i < |ts| ==> !Unlogged(ts[i], logged)
    ensures NewlyCompleted(ts, logged) == []
    decreases |ts|
  {
    if ts != [] {
      NothingNew(ts[..|ts| - 1], logged);
    }
  }

  function IdsOf(ts: seq<Timer>): set<Id> {
    set t | t in ts :: t.id
  }

  /** The journal calls of one run of the effect, in order. */
  function CompletionCalls(ts: seq<Timer>, today: string): (calls: seq<LogCall>)
    ensures |calls| == |ts|
    ensures forall i :: 0 <= i < |ts| ==> calls[i] == LogCall(today, CompletionLog(ts[i].name, RoundMinutes(ts[i].duration)))
  {
    seq(|ts|, i requires 0 <= i < |ts| => LogCall(today, CompletionLog(ts[i].name, RoundMinutes(ts[i].duration))))
  }

  /** Each finished timer is journaled at most once: once a run has recorded
      the ids it logged, a later run with the same timers logs nothing, and
      with more timers logs only timers whose ids were not logged before. */
  lemma LoggedOnce(ts: seq<Timer>, later: seq<Timer>, logged: set<Id>)
    ensures NewlyCompleted(ts, logged + IdsOf(NewlyCompleted(ts, logged))) == []
    ensures forall t :: t in NewlyCompleted(later, logged + IdsOf(NewlyCompleted(ts, logged))) ==>
      t.id !in logged && t.id !in IdsOf(NewlyCompleted(ts, logged))
  {
    var after := logged + IdsOf(NewlyCompleted(ts, logged));
    NewlyCompletedMembers(ts, logged);
    NewlyCompletedMembers(later, after);
    forall i | 0 <= i < |ts| ensures !Unlogged(ts[i], after) {
      if Unlogged(ts[i], logged) {
        assert ts[i] in NewlyCompleted(ts, logged);
      }
    }
    NothingNew(ts, after);
  }

  /** Journaling one more timer is one more `addLog` of its completion line. */
  lemma CompletionCallsSnoc(entries: map<string, JournalEntry>, ts: seq<Timer>, t: Timer, today: string)
    ensures AddLogs(entries, CompletionCalls(ts + [t], today))
         == AddLogTo(AddLogs(entries, CompletionCalls(ts, today)), today, CompletionLog(t.name, RoundMinutes(t.duration)))
  {
    var line := CompletionLog(t.name, RoundMinutes(t.duration));
    assert CompletionCalls(ts + [t], today) == CompletionCalls(ts, today) + [LogCall(today, line)];
    AddLogsSnoc(entries, CompletionCalls(ts, today), LogCall(today, line));
  }

  lemma IdsOfSnoc(ts: seq<Timer>, t: Timer)
    ensures IdsOf(ts + [t]) == IdsOf(ts) + {t.id}
  {
    assert forall u :: u in ts + [t] <==> u in ts || u == t;
  }

  /** What the effect changes: the journal, the quests and what they last
      saved, and the set of logged timer ids. */
  datatype EffectState = EffectState(entries: map<string, JournalEntry>, quests: QuestState,
                                     data: map<string, Stored>, logged: set<Id>)

  /** The effect's body for one timer. The guard reads the logged set as it
      was when the run started. */
  function EffectStep(st: EffectState, t: Timer, today: string, count: nat, logged: set<Id>): EffectState {
    if Unlogged(t, logged) then
      var q := UpdateProgressState(st.quests, QuestTimerId, count);
      EffectState(AddLogTo(st.entries, today, CompletionLog(t.name, RoundMinutes(t.duration))), q,
                  SaveQuests(st.data, q), st.logged + {t.id})
    else st
  }

  /** The effect's body run over a list of timers, in order. */
  function EffectRun(st: EffectState, ts: seq<Timer>, today: string, count: nat, logged: set<Id>): EffectState
    decreases |ts|
  {
    if ts == [] then st
    else EffectStep(EffectRun(st, ts[..|ts| - 1], today, count, logged), ts[|ts| - 1], today, count, logged)
  }

  lemma EffectRunSnoc(st: EffectState, ts: seq<Timer>, t: Timer, today: string, count: nat, logged: set<Id>)
    ensures EffectRun(st, ts + [t], today, count, logged) == EffectStep(EffectRun(st, ts, today, count, logged), t, today, count, logged)
  {
    assert (ts + [t])[..|ts|] == ts;
  }

  /** A run of the effect journals the newly completed timers, in order. */
  lemma {:induction false} EffectRunJournals(st: EffectState, ts: seq<Timer>, today: string, count: nat, logged: set<Id>)
    ensures EffectRun(st, ts, today, count, logged).entries == AddLogs(st.entries, CompletionCalls(NewlyCompleted(ts, logged), today))
    decreases |ts|
  {
    if ts != [] {
      var init, t := ts[..|ts| - 1], ts[|ts| - 1];
      assert ts == init + [t];
      EffectRunJournals(st, init, today, count, logged);
      EffectRunSnoc(st, init, t, today, count, logged);
      NewlyCompletedSnoc(init, t, logged);
      if Unlogged(t, logged) {
        CompletionCallsSnoc(st.entries, NewlyCompleted(init, logged), t, today);
      } else {
        assert EffectRun(st, ts, today, count, logged) == EffectRun(st, init, today, count, logged);
        assert NewlyCompleted(ts, logged) == NewlyCompleted(init, logged);
      }
    }
  }

  /** A run of the effect adds the ids of the newly completed timers to the logged set. */
  lemma {:induction false} EffectRunLogs(st: EffectState, ts: seq<Timer>, today: string, count: nat, logged: set<Id>)
    ensures EffectRun(st, ts, today, count, logged).logged == st.logged + IdsOf(NewlyCompleted(ts, logged))
    decreases |ts|
  {
    if ts != [] {
      var init, t := ts[..|ts| - 1], ts[|ts| - 1];
      assert ts == init + [t];
      EffectRunLogs(st, init, today, count, logged);
      EffectRunSnoc(st, init, t, today, count, logged);
      NewlyCompletedSnoc(init, t, logged);
      if Unlogged(t, logged) {
        IdsOfSnoc(NewlyCompleted(init, logged), t);
      }
    }
  }

  /** A run of the effect leaves the quests alone when nothing was newly
      completed, and otherwise holds one progress update, saved: the
      repeated updates of one run change nothing more. */
  lemma {:induction false} EffectRunReports(st: EffectState, ts: seq<Timer>, today: string, count: nat, logged: set<Id>)
    ensures var r := EffectRun(st, ts, today, count, logged);
      && (NewlyCompleted(ts, logged) == [] ==> r.quests == st.quests && r.data == st.data)
      && (NewlyCompleted(ts, logged) != [] ==>
            r.quests == UpdateProgressState(st.quests, QuestTimerId, count) && r.data == SaveQuests(st.data, r.quests))
    decreases |ts|
  {
    if ts != [] {
      var init, t := ts[..|ts| - 1], ts[|ts| - 1];
      assert ts == init + [t];
      EffectRunReports(st, init, today, count, logged);
      EffectRunSnoc(st, init, t, today, count, logged);
      NewlyCompletedSnoc(init, t, logged);
      if Unlogged(t, logged) && NewlyCompleted(init, logged) != [] {
        var prev := EffectRun(st, init, today, count, logged);
        UpdateProgressIdempotent(st.quests, QuestTimerId, count);
        SaveOverwrites(st.data, prev.quests, prev.quests);
      }
    }
  }

  /** The panel's own state and the stores it talks to. */
  class TimerPanel {
    var newTimerDuration: string
    var newTimerName: string
    var loggedTimers: set<Id>
    const widgetId: Option<Id>
    const autoStart: bool
    const research: ResearchStore
    const quests: QuestStore
    const journal: JournalStore

    constructor(widgetId: Option<Id>, autoStart: bool, research: ResearchStore, quests: QuestStore, journal: JournalStore)
      ensures newTimerDuration == "5" && newTimerName == "" && loggedTimers == {}
      ensures this.widgetId == widgetId && this.autoStart == autoStart
      ensures this.research == research && this.quests == quests && this.journal == journal
    {
      newTimerDuration := "5";
      newTimerName := "";
      loggedTimers := {};
      this.widgetId := widgetId;
      this.autoStart := autoStart;
      this.research := research;
      this.quests := quests;
      this.journal := journal;
    }

    /** `handleAddTimer`: one timer from the two fields goes last in the
      store, and the fields are reset. */
    method HandleAddTimer(freshId: Id)
      requires ParseInt(newTimerDuration).Some?
      requires !HasTimer(research.timers, freshId)
      modifies this, research
      ensures research.timers == AppendTimer(old(research.timers),
        NewTimer(ParseInt(old(newTimerDuration)).value, old(newTimerName), |old(research.timers)|, autoStart, widgetId), freshId)
      ensures research.checklists == old(research.checklists)
      ensures newTimerName == "" && newTimerDuration == "5" && loggedTimers == old(loggedTimers)
    {
      var minutes := ParseInt(newTimerDuration).value;
      var timer := NewTimer(minutes, newTimerName, |research.timers|, autoStart, widgetId);
      research.AddTimer(timer, freshId);
      newTimerName := "";
      newTimerDuration := "5";
    }

    /** One run of the completion effect over the current timers on `today`:
      every completed timer whose id was not logged when the run started is
      journaled, in list order, and its id recorded; when there was at least
      one, `quest-timer-1` progress is set to the number of completed timers.
      `completions` is how many times the `onComplete` callback is called:
      once per journaled timer. */
    method CompletionEffect(today: string) returns (completions: nat)
      modifies this, journal, quests, quests.storage
      ensures completions == |NewlyCompleted(research.timers, old(loggedTimers))|
      ensures journal.entries == AddLogs(old(journal.entries), CompletionCalls(NewlyCompleted(research.timers, old(loggedTimers)), today))
      ensures loggedTimers == old(loggedTimers) + IdsOf(NewlyCompleted(research.timers, old(loggedTimers)))
      ensures newTimerDuration == old(newTimerDuration) && newTimerName == old(newTimerName)
      ensures NewlyCompleted(research.timers, old(loggedTimers)) == [] ==>
        quests.State() == old(quests.State()) && quests.storage.data == old(quests.storage.data)
      ensures NewlyCompleted(research.timers, old(loggedTimers)) != [] ==>
        && quests.State() == UpdateProgressState(old(quests.State()), QuestTimerId, CompletedCount(research.timers))
        && quests.storage.data == SaveQuests(old(quests.storage.data), quests.State())
    {
      var timers := research.timers;
      var logged := loggedTimers;
      var count := CompletedCount(timers);
      ghost var start := EffectState(journal.entries, quests.State(), quests.storage.data, logged);
      var marked;
      marked, completions := RunEffect(timers, logged, today, count);
      EffectRunJournals(start, timers, today, count, logged);
      EffectRunLogs(start, timers, today, count, logged);
      EffectRunReports(start, timers, today, count, logged);
      loggedTimers := marked;
    }

    /** The loop of the effect: the body for each timer in turn, the logged
      set kept aside and returned, with the number of `onComplete` calls. */
    method RunEffect(timers: seq<Timer>, logged: set<Id>, today: string, count: nat) returns (marked: set<Id>, calls: nat)
      modifies journal, quests, quests.storage
      ensures calls == |NewlyCompleted(timers, logged)|
      ensures EffectState(journal.entries, quests.State(), quests.storage.data, marked)
           == EffectRun(EffectState(old(journal.entries), old(quests.State()), old(quests.storage.data), logged), timers, today, count, logged)
    {
      ghost var start := EffectState(journal.entries, quests.State(), quests.storage.data, logged);
      marked := logged;
      calls := 0;
      var i := 0;
      while i < |timers|
        invariant 0 <= i <= |timers|
        invariant EffectState(journal.entries, quests.State(), quests.storage.data, marked)
               == EffectRun(start, timers[..i], today, count, logged)
        invariant calls == |NewlyCompleted(timers[..i], logged)|
      {
        var t := timers[i];
        assert timers[..i + 1][..i] == timers[..i];
        NewlyCompletedSnoc(timers[..i], t, logged);
        assert timers[..i + 1] == timers[..i] + [t];
        if t.isCompleted && t.id !in logged {
          journal.AddLog(CompletionLog(t.name, RoundMinutes(t.duration)), today);
          quests.UpdateQuestProgress(QuestTimerId, count);
          marked := marked + {t.id};
          calls := calls + 1;
        }
        i := i + 1;
      }
      assert timers[..|timers|] == timers;
    }
  }
}
