/** The run screen of a saved protocol (client/src/components/RunProtocolPage.tsx):
    one widget per step, a Next button that walks the steps and then
    finishes, a swipe to the right that leaves the screen, and a Save button
    that writes the run to the journal and saves the protocol again. */
module RunProtocol {
  import opened Base
  import opened Strings
  import opened Types
  import opened Protocols
  import opened Journal

  /** `protocols.find(p => p.id === protocolId)`. */
  function FindProtocol(ps: seq<Protocol>, id: Id): (r: Option<Protocol>)
    ensures r.None? <==> !HasProtocol(ps, id)
    ensures r.Some? ==> r.value in ps && r.value.id == id
  {
    Find(ps, (p: Protocol) => p.id == id)
  }

  // ------------------------------------------------------------------ steps

  datatype RunState = RunState(step: int, completed: bool)

  const Start := RunState(0, false)

  /** `handleNext` on a protocol of `n` widgets: move to the next step while
      there is one; on the last step finish instead. */
  function Next(st: RunState, n: nat): (r: RunState)
    ensures st.step < n - 1 ==> r == RunState(st.step + 1, st.completed)
    ensures st.step >= n - 1 ==> r == RunState(st.step, true)
  {
    if st.step < n - 1 then st.(step := st.step + 1) else st.(completed := true)
  }

  /** `k` presses of Next from the first step. */
  function Presses(n: nat, k: nat): RunState
    decreases k
  {
    if k == 0 then Start else Next(Presses(n, k - 1), n)
  }

  /** With `n >= 1` widgets, the first `n - 1` presses walk the steps one by
      one without finishing, and press `n` finishes on the last step. */
  lemma {:induction false} PressesWalk(n: nat, k: nat)
    requires n >= 1 && k <= n
    ensures k < n ==> Presses(n, k) == RunState(k, false)
    ensures k == n ==> Presses(n, k) == RunState(n - 1, true)
    decreases k
  {
    if k > 0 {
      PressesWalk(n, k - 1);
    }
  }

  /** The step never leaves `0..n-1`, however often Next is pressed. */
  lemma {:induction false} StepInRange(n: nat, k: nat)
    requires n >= 1
    ensures 0 <= Presses(n, k).step < n
    ensures Presses(n, k).completed <==> k >= n
    decreases k
  {
    if k > 0 {
      StepInRange(n, k - 1);
      if k <= n {
        PressesWalk(n, k);
      }
    }
  }

  // ------------------------------------------------------------------ swipe

  /** `handleTouchEnd`: the screen is left exactly when both touch positions
      were recorded and the finger moved more than 80 pixels to the right. */
  function SwipeExits(startX: Option<real>, endX: Option<real>): (exit: bool)
  {
    startX.Some? && endX.Some? && endX.value - startX.value > 80.0
  }

  /** The threshold is strict, leftward or missing movements never exit, and
      a longer swipe to the right exits whenever a shorter one does. */
  lemma SwipeRule(x: real, d: real, e: real)
    ensures !SwipeExits(Some(x), Some(x + 80.0))
    ensures d <= 0.0 ==> !SwipeExits(Some(x), Some(x + d))
    ensures !SwipeExits(None, Some(x)) && !SwipeExits(Some(x), None)
    ensures SwipeExits(Some(x), Some(x + d)) && d <= e ==> SwipeExits(Some(x), Some(x + e))
  {
  }

  // -------------------------------------------------------------- run log

  /** The name printed for a widget type. */
  function KindName(kind: WidgetKind): (name: string)
    ensures name != ""
  {
    match kind
    case TimerKind => "timer"
    case PatternKind => "pattern"
    case MeasurementKind => "measurement"
    case PcrKind => "pcr"
    case StorageKind => "storage"
    case ChecklistKind => "checklist"
    case NoteKind => "note"
    case TemperatureKind => "temperature"
    case PhKind => "ph"
  }

  /** `widget.title || widget.type`: the title, or the type when the title is empty. */
  function StepLabel(w: ProtocolWidget): (shown: string)
    ensures shown != ""
    ensures w.title != "" ==> shown == w.title
  {
    if w.title != "" then w.title else KindName(w.kind)
  }

  /** The text of step `idx` (counted from 0): two spaces, the step number, a dot, the label. */
  function StepText(idx: nat, w: ProtocolWidget): string {
    "  " + NatToString(idx + 1) + ". " + StepLabel(w)
  }

  /** The first two lines of a run log. */
  function Heading(p: Protocol): string {
    "Protocol Run: " + p.name + "\nSteps:"
  }

  /** The step lines for the widgets `ws`, each introduced by a line break. */
  function StepLines(ws: seq<ProtocolWidget>): string
    decreases |ws|
  {
    if ws == [] then "" else StepLines(ws[..|ws| - 1]) + "\n" + StepText(|ws| - 1, ws[|ws| - 1])
  }

  /** The journal text `handleSave` writes for a protocol. */
  function RunLog(p: Protocol): string {
    Heading(p) + StepLines(p.widgets)
  }

  /** The lines of a run log: the heading, `Steps:`, and one line per widget. */
  function LogLines(p: Protocol): seq<string> {
    ["Protocol Run: " + p.name, "Steps:"] + seq(|p.widgets|, i requires 0 <= i < |p.widgets| => StepText(i, p.widgets[i]))
  }

  /** The heading is the first two lines joined by a line break. */
  lemma HeadingJoins(p: Protocol)
    ensures Heading(p) + StepLines(p.widgets[..0]) == Join(LogLines(p)[..2], '\n')
  {
    var parts := LogLines(p)[..2];
    assert parts == ["Protocol Run: " + p.name, "Steps:"];
    assert parts[1..] == ["Steps:"];
    assert Join(parts, '\n') == parts[0] + ['\n'] + "Steps:";
    assert p.widgets[..0] == [];
  }

  lemma StepLinesSnoc(ws: seq<ProtocolWidget>, k: nat)
    requires k < |ws|
    ensures StepLines(ws[..k + 1]) == StepLines(ws[..k]) + "\n" + StepText(k, ws[k])
  {
    assert ws[..k + 1][..k] == ws[..k];
  }

  lemma LogLinesSnoc(p: Protocol, i: nat)
    requires i < |p.widgets|
    ensures LogLines(p)[..i + 3] == LogLines(p)[..i + 2] + [StepText(i, p.widgets[i])]
  {
  }

  lemma Regroup(a: string, b: string, c: string, d: string)
    ensures a + (b + c + d) == (a + b) + c + d
  {
  }

  /** One more line after a joined text. */
  lemma JoinStep(a: string, b: string, lines: seq<string>, line: string)
    requires |lines| >= 1 && a + b == Join(lines, '\n')
    ensures a + (b + "\n" + line) == Join(lines + [line], '\n')
  {
    JoinSnoc(lines, line, '\n');
    Regroup(a, b, "\n", line);
  }

  /** The run log is its lines joined by line breaks. */
  lemma {:induction false} RunLogJoins(p: Protocol, k: nat)
    requires k <= |p.widgets|
    ensures Heading(p) + StepLines(p.widgets[..k]) == Join(LogLines(p)[..k + 2], '\n')
    decreases k
  {
    if k == 0 {
      HeadingJoins(p);
    } else {
      var i := k - 1;
      var prev := StepLines(p.widgets[..i]);
      var line := StepText(i, p.widgets[i]);
      var lines := LogLines(p)[..i + 2];
      RunLogJoins(p, i);
      StepLinesSnoc(p.widgets, i);
      LogLinesSnoc(p, i);
      JoinStep(Heading(p), prev, lines, line);
    }
  }

  lemma StepTextOneLine(i: nat, w: ProtocolWidget)
    requires '\n' !in StepLabel(w)
    ensures '\n' !in StepText(i, w)
  {
    var digits := NatToString(i + 1);
    assert forall j :: 0 <= j < |digits| ==> IsDigit(digits[j]);
  }

  /** Reading a run log back line by line gives the heading, `Steps:` and
      the numbered steps in widget order, when neither the name nor any
      label holds a line break. */
  lemma RunLogLines(p: Protocol)
    requires '\n' !in p.name
    requires forall i :: 0 <= i < |p.widgets| ==> '\n' !in StepLabel(p.widgets[i])
    ensures Split(RunLog(p), '\n') == LogLines(p)
  {
    var lines := LogLines(p);
    RunLogJoins(p, |p.widgets|);
    assert p.widgets[..|p.widgets|] == p.widgets;
    assert lines[..|p.widgets| + 2] == lines;
    forall k | 0 <= k < |lines|
      ensures '\n' !in lines[k]
    {
      if k >= 2 {
        StepTextOneLine(k - 2, p.widgets[k - 2]);
      }
    }
    SplitJoin(lines, '\n');
  }

  /** A run log of one untitled timer widget. */
  lemma RunLogExample(p: Protocol, w: ProtocolWidget)
    requires p.name == "PCR" && p.widgets == [w] && w.title == "" && w.kind == TimerKind
    ensures RunLog(p) == "Protocol Run: PCR\nSteps:\n  1. timer"
  {
    assert [w][..0] == [];
    assert NatToString(1) == "1";
    assert StepText(0, w) == "  1. timer";
    assert StepLines(p.widgets) == "\n  1. timer";
    assert Heading(p) == "Protocol Run: PCR\nSteps:";
  }

  // ------------------------------------------------------------- re-save

  predicate UniqueIds(ps: seq<Protocol>) {
    forall i, j :: 0 <= i < j < |ps| ==> ps[i].id != ps[j].id
  }

  /** Saving an unmodified copy of a listed protocol changes only that
      entry's `lastModified`, when ids are unique. */
  lemma ResaveStampsOnly(s: ProtocolState, j: nat, now: Time)
    requires j < |s.protocols| && UniqueIds(s.protocols)
    ensures SaveState(s, s.protocols[j], now).protocols == s.protocols[j := s.protocols[j].(lastModified := now)]
  {
  }

  // ----------------------------------------------------------------- page

  class RunPage {
    var step: int
    var completed: bool
    var touchStartX: Option<real>
    var touchEndX: Option<real>
    const protocolId: Id
    const protocols: ProtocolStore
    const journal: JournalStore

    function Run(): RunState
      reads this
    {
      RunState(step, completed)
    }

    constructor(protocolId: Id, protocols: ProtocolStore, journal: JournalStore)
      ensures Run() == Start && touchStartX.None? && touchEndX.None?
      ensures this.protocolId == protocolId && this.protocols == protocols && this.journal == journal
    {
      step := 0;
      completed := false;
      touchStartX := None;
      touchEndX := None;
      this.protocolId := protocolId;
      this.protocols := protocols;
      this.journal := journal;
    }

    method HandleTouchStart(x: real)
      modifies this
      ensures touchStartX == Some(x) && touchEndX == old(touchEndX) && Run() == old(Run())
    {
      touchStartX := Some(x);
    }

    method HandleTouchMove(x: real)
      modifies this
      ensures touchEndX == Some(x) && touchStartX == old(touchStartX) && Run() == old(Run())
    {
      touchEndX := Some(x);
    }

    /** `handleTouchEnd`: reports whether `onExit` runs, and forgets both
      positions in every case. */
    method HandleTouchEnd() returns (exit: bool)
      modifies this
      ensures exit == SwipeExits(old(touchStartX), old(touchEndX))
      ensures touchStartX.None? && touchEndX.None? && Run() == old(Run())
    {
      exit := false;
      if touchStartX.Some? && touchEndX.Some? {
        if touchEndX.value - touchStartX.value > 80.0 {
          exit := true;
        }
      }
      touchStartX := None;
      touchEndX := None;
    }

    /** `handleNext`, shown only while the protocol exists. */
    method HandleNext()
      requires FindProtocol(protocols.protocols, protocolId).Some?
      modifies this
      ensures Run() == Next(old(Run()), |FindProtocol(protocols.protocols, protocolId).value.widgets|)
      ensures touchStartX == old(touchStartX) && touchEndX == old(touchEndX)
    {
      var widgets := FindProtocol(protocols.protocols, protocolId).value.widgets;
      if step < |widgets| - 1 {
        step := step + 1;
      } else {
        completed := true;
      }
    }

    /** The loop of `handleSave` that builds the run log. */
    method BuildRunLog(p: Protocol) returns (log: string)
      ensures log == RunLog(p)
    {
      log := "Protocol Run: " + p.name + "\nSteps:";
      var i := 0;
      while i < |p.widgets|
        invariant 0 <= i <= |p.widgets|
        invariant log == Heading(p) + StepLines(p.widgets[..i])
      {
        var w := p.widgets[i];
        var shown := if w.title != "" then w.title else KindName(w.kind);
        var line := "  " + NatToString(i + 1) + ". " + shown;
        assert line == StepText(i, w);
        StepLinesSnoc(p.widgets, i);
        log := log + "\n" + line;
        i := i + 1;
      }
      assert p.widgets[..i] == p.widgets;
    }

    /** `handleSave`: the run log goes into today's journal entry and the
      protocol is saved again unchanged, which restamps it. */
    method HandleSave(today: string, now: Time)
      requires FindProtocol(protocols.protocols, protocolId).Some?
      modifies journal, protocols, protocols.storage
      ensures var p := FindProtocol(old(protocols.protocols), protocolId).value;
        && journal.entries == AddLogTo(old(journal.entries), today, RunLog(p))
        && protocols.State() == SaveState(old(protocols.State()), p, now)
        && protocols.storage.data == SaveProtocols(old(protocols.storage.data), protocols.State())
    {
      var p := FindProtocol(protocols.protocols, protocolId).value;
      var log := BuildRunLog(p);
      journal.AddLog(log, today);
      protocols.SaveProtocol(p, now);
    }
  }
}
