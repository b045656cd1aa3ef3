/** The research journal (client/src/lib/stores/useJournal.tsx): one entry
    per day, keyed by its `yyyy-MM-dd` date, holding that day's log lines in
    the order they were written. The day comes from the caller. */
module Journal {
  import opened Strings

  datatype JournalEntry = JournalEntry(date: string, logs: seq<string>)

  /** `addLog(log)` on `today`: the day's entry, created empty when missing,
      gets the log at the end; every other day is unchanged. */
  function AddLogTo(entries: map<string, JournalEntry>, today: string, log: string): (r: map<string, JournalEntry>)
    ensures r.Keys == entries.Keys + {today}
    ensures today in entries ==> r[today] == entries[today].(logs := entries[today].logs + [log])
    ensures today !in entries ==> r[today] == JournalEntry(today, [log])
    ensures forall d :: d in entries && d != today ==> r[d] == entries[d]
  {
    var entry := if today in entries then entries[today] else JournalEntry(today, []);
    entries[today := entry.(logs := entry.logs + [log])]
  }

  /** One `addLog` call: the day it ran on and the line it wrote. */
  datatype LogCall = LogCall(day: string, log: string)

  /** A series of `addLog` calls, in order. */
  function AddLogs(entries: map<string, JournalEntry>, calls: seq<LogCall>): map<string, JournalEntry>
    decreases |calls|
  {
    if calls == [] then entries else AddLogs(AddLogTo(entries, calls[0].day, calls[0].log), calls[1..])
  }

  /** The journal only grows: after any series of `addLog` calls every day
      that had an entry still has it, with the same date and its old logs
      as a prefix of the new ones, and the number of lines grew by the
      number of calls on that day. */
  lemma {:induction false} LogsOnlyGrow(entries: map<string, JournalEntry>, calls: seq<LogCall>)
    ensures entries.Keys <= AddLogs(entries, calls).Keys
    ensures forall d :: d in entries ==>
      && AddLogs(entries, calls)[d].date == entries[d].date
      && entries[d].logs <= AddLogs(entries, calls)[d].logs
      && |AddLogs(entries, calls)[d].logs| == |entries[d].logs| + CallsOn(calls, d)
    decreases |calls|
  {
    if calls != [] {
      var next := AddLogTo(entries, calls[0].day, calls[0].log);
      LogsOnlyGrow(next, calls[1..]);
      forall d | d in entries
        ensures entries[d].logs <= next[d].logs
      {
      }
    }
  }

  /** One more call at the end of a series is one more `addLog` after it. */
  lemma {:induction false} AddLogsSnoc(entries: map<string, JournalEntry>, calls: seq<LogCall>, c: LogCall)
    ensures AddLogs(entries, calls + [c]) == AddLogTo(AddLogs(entries, calls), c.day, c.log)
    decreases |calls|
  {
    if calls == [] {
      assert calls + [c] == [c];
      assert [c][1..] == [];
    } else {
      assert (calls + [c])[1..] == calls[1..] + [c];
      AddLogsSnoc(AddLogTo(entries, calls[0].day, calls[0].log), calls[1..], c);
    }
  }

  /** How many calls ran on day `d`. */
  function CallsOn(calls: seq<LogCall>, d: string): nat
    decreases |calls|
  {
    if calls == [] then 0 else (if calls[0].day == d then 1 else 0) + CallsOn(calls[1..], d)
  }

  /** `exportDay(date)`: nothing for a day without an entry; otherwise a
      `## date` heading line followed by the day's logs, one per line. */
  function ExportDay(entries: map<string, JournalEntry>, date: string): (r: string)
    ensures date !in entries ==> r == ""
    ensures date in entries ==> StartsWith(r, "## " + entries[date].date + "\n")
    ensures date in entries && entries[date].logs == [] ==> r == "## " + entries[date].date + "\n"
  {
    if date !in entries then ""
    else
      var entry := entries[date];
      ("## " + entry.date + "\n") + Join(entry.logs, '\n')
  }

  /** Writing a log puts it at the end of that day's export: right after the
      heading for the day's first log, otherwise after a line break. */
  lemma ExportAfterAddLog(entries: map<string, JournalEntry>, d: string, log: string)
    ensures d !in entries ==> ExportDay(AddLogTo(entries, d, log), d) == "## " + d + "\n" + log
    ensures d in entries && entries[d].logs == [] ==>
      ExportDay(AddLogTo(entries, d, log), d) == ExportDay(entries, d) + log
    ensures d in entries && entries[d].logs != [] ==>
      ExportDay(AddLogTo(entries, d, log), d) == ExportDay(entries, d) + "\n" + log
  {
    if d in entries && entries[d].logs != [] {
      var e := entries[d];
      var heading := "## " + e.date + "\n";
      JoinSnoc(e.logs, log, '\n');
      var joined := Join(e.logs, '\n');
      assert heading + (joined + ['\n'] + log) == (heading + joined) + "\n" + log;
    }
  }

  /** Splitting an export at line breaks gives back the heading and every
      log, when neither the date nor a log holds a line break. */
  lemma ExportDayLines(entries: map<string, JournalEntry>, date: string)
    requires date in entries && |entries[date].logs| >= 1
    requires '\n' !in entries[date].date
    requires forall k :: 0 <= k < |entries[date].logs| ==> '\n' !in entries[date].logs[k]
    ensures Split(ExportDay(entries, date), '\n') == ["## " + entries[date].date] + entries[date].logs
  {
    var entry := entries[date];
    var heading := "## " + entry.date;
    var lines := [heading] + entry.logs;
    assert lines[1..] == entry.logs;
    assert Join(lines, '\n') == heading + ['\n'] + Join(entry.logs, '\n');
    assert ExportDay(entries, date) == Join(lines, '\n');
    assert '\n' !in heading;
    SplitJoin(lines, '\n');
  }

  /** The export of a day with logs "a" and "b". */
  lemma ExportDayExample(entries: map<string, JournalEntry>, d: string)
    requires d in entries && entries[d] == JournalEntry(d, ["a", "b"])
    ensures ExportDay(entries, d) == "## " + d + "\na\nb"
  {
  }

  class JournalStore {
    var entries: map<string, JournalEntry>

    constructor()
      ensures entries == map[]
    {
      entries := map[];
    }

    method AddLog(log: string, today: string)
      modifies this
      ensures entries == AddLogTo(old(entries), today, log)
    {
      var entry := if today in entries then entries[today] else JournalEntry(today, []);
      entries := entries[today := entry.(logs := entry.logs + [log])];
    }
  }
}
