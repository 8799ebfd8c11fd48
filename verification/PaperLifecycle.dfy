/** The paper lifecycle of runs/paper.py as a step machine over the files of one run, with any number
    of `run paper` processes started and killed, and kill-switch commands between any two steps. */
module PaperLifecycle {
  import opened Decimals
  import opened KillSwitch

  // ---------------------------------------------------------------- files

  datatype RunStatus = Running | Blocked | Completed | Failed

  datatype LifecycleOutcome = BlockedKillSwitch | CheckedContinue

  /** `metadata["safety"]`: the lifecycle writes an outcome, a kill command's snapshot does not. */
  datatype Safety = Safety(state: StateName, outcome: Option<LifecycleOutcome>)

  datatype Metadata = Metadata(status: RunStatus, safety: Safety)

  /** `metadata.json`: not there; there but not a regular file, not readable or no JSON object; or good. */
  datatype MetadataFile = NoMetadata | Unusable | Usable(value: Metadata)

  /** The switch's files (its journal is the run's journal), the run directory and what is in it; metrics
      and report only as far as they are complete. */
  datatype Files = Files(switch: World, dir: bool, metadata: MetadataFile, heartbeatCount: Option<nat>,
                         report: Option<RunStatus>)

  const HEARTBEATS: nat := 3

  function OutcomeFor(seen: StateName): LifecycleOutcome {
    if seen == Active then BlockedKillSwitch else CheckedContinue
  }

  function Log(f: Files, e: RunEvent): Files {
    f.(switch := f.switch.(journal := AppendRunEvent(f.switch.journal, e)))
  }

  function WriteStatus(f: Files, s: RunStatus, seen: StateName): Files {
    f.(metadata := Usable(Metadata(s, Safety(seen, Some(OutcomeFor(seen))))))
  }

  /** One kill command with its metadata snapshot, as the command line runs it: the snapshot replaces
      `safety` in an existing metadata file and is reached only by a command that completes. */
  function KillCommand(f: Files, c: Command): Files {
    var (w, outcome) := Execute(f.switch, c);
    f.(switch := w,
       metadata := if outcome.Done? && f.dir && f.metadata.Usable?
                   then Usable(f.metadata.value.(safety := Safety(outcome.state.state, None)))
                   else f.metadata)
  }

  // ---------------------------------------------------------------- one process

  /** What the process that made the run directory does next. */
  datatype Pc =
    | WriteRunning | LogStarted | LogChecked
    | WriteBlocked | LogBlocked | LogBlockedEnd | WriteBlockedMetrics | WriteBlockedReport | EndBlocked
    | LogPaperStarted | Beat(done: nat)
    | WriteFailed(done: nat) | LogFailed(done: nat) | EndFailed(done: nat)
    | LogPaperCompleted | WriteMetrics | WriteReport | WriteCompleted | LogCompleted | EndCompleted
  {
    predicate Ended() {
      EndBlocked? || EndFailed? || EndCompleted?
    }
  }

  /** One statement of `run_paper_lifecycle` after the directory exists. */
  function StepFiles(f: Files, pc: Pc, seen: StateName): Files {
    match pc
    case WriteRunning => WriteStatus(f, Running, seen)
    case LogStarted => Log(f, RunStarted)
    case LogChecked => Log(f, SafetyChecked(seen))
    case WriteBlocked => WriteStatus(f, Blocked, seen)
    case LogBlocked => Log(f, SafetyBlocked)
    case LogBlockedEnd => Log(f, RunCompleted)
    case WriteBlockedMetrics => f.(heartbeatCount := Some(0))
    case WriteBlockedReport => f.(report := Some(Blocked))
    case LogPaperStarted => Log(f, PaperStarted)
    case Beat(done) => Log(f, Heartbeat(done + 1))
    case WriteFailed(_) => WriteStatus(f, Failed, seen)
    case LogFailed(_) => Log(f, RunFailed)
    case LogPaperCompleted => Log(f, PaperCompleted)
    case WriteMetrics => f.(heartbeatCount := Some(HEARTBEATS))
    case WriteReport => f.(report := Some(Completed))
    case WriteCompleted => WriteStatus(f, Completed, seen)
    case LogCompleted => Log(f, RunCompleted)
    case _ => f
  }

  predicate WritesMetadata(pc: Pc) {
    pc.WriteRunning? || pc.WriteBlocked? || pc.WriteFailed? || pc.WriteCompleted?
  }

  /** What the statement leaves if the process dies in the middle of it: metadata.json is rewritten in place. */
  function Tear(f: Files, pc: Pc): Files {
    if WritesMetadata(pc) then f.(metadata := Unusable) else f
  }

  function NextPc(pc: Pc, seen: StateName): Pc {
    match pc
    case WriteRunning => LogStarted
    case LogStarted => LogChecked
    case LogChecked => if seen == Active then WriteBlocked else LogPaperStarted
    case WriteBlocked => LogBlocked
    case LogBlocked => LogBlockedEnd
    case LogBlockedEnd => WriteBlockedMetrics
    case WriteBlockedMetrics => WriteBlockedReport
    case WriteBlockedReport => EndBlocked
    case LogPaperStarted => Beat(0)
    case Beat(done) => if done + 1 < HEARTBEATS then Beat(done + 1) else LogPaperCompleted
    case WriteFailed(done) => LogFailed(done)
    case LogFailed(done) => EndFailed(done)
    case LogPaperCompleted => WriteMetrics
    case WriteMetrics => WriteReport
    case WriteReport => WriteCompleted
    case WriteCompleted => LogCompleted
    case LogCompleted => EndCompleted
    case _ => pc
  }

  // ---------------------------------------------------------------- the system

  /** The process that made the run directory, if any; a dead one stays where it died. */
  datatype Owner = NoOwner | Alive(pc: Pc, seen: StateName) | Dead(pc: Pc, seen: StateName)

  /** `pending` are processes that have read the switch and not yet made the directory. */
  datatype System = System(files: Files, pending: seq<StateName>, owner: Owner)

  datatype Action =
    | Launch
    | Create(i: nat)
    | GiveUp(i: nat)
    | Step
    | BeatFails(written: bool)
    | Crash(torn: bool)
    | Kill(command: Command)

  function Drop(s: seq<StateName>, i: nat): seq<StateName> {
    if i < |s| then s[..i] + s[i + 1..] else s
  }

  function Next(s: System, a: Action): System {
    match a
    case Launch =>
      var status := GetStatus(s.files.switch.file);
      if status.ReadError? then s else s.(pending := s.pending + [status.Name()])
    case Create(i) =>
      if i >= |s.pending| then s
      else if s.files.dir then s.(pending := Drop(s.pending, i))
      else System(s.files.(dir := true), Drop(s.pending, i), Alive(WriteRunning, s.pending[i]))
    case GiveUp(i) => s.(pending := Drop(s.pending, i))
    case Step =>
      if s.owner.Alive? then
        s.(files := StepFiles(s.files, s.owner.pc, s.owner.seen),
           owner := Alive(NextPc(s.owner.pc, s.owner.seen), s.owner.seen))
      else s
    case BeatFails(written) =>
      if s.owner.Alive? && s.owner.pc.Beat? then
        var done := s.owner.pc.done;
        if written then
          s.(files := Log(s.files, Heartbeat(done + 1)), owner := Alive(WriteFailed(done + 1), s.owner.seen))
        else s.(owner := Alive(WriteFailed(done), s.owner.seen))
      else s
    case Crash(torn) =>
      if s.owner.Alive? then
        s.(files := if torn then Tear(s.files, s.owner.pc) else s.files, owner := Dead(s.owner.pc, s.owner.seen))
      else s
    case Kill(c) => s.(files := KillCommand(s.files, c))
  }

  function RunSystem(s: System, actions: seq<Action>): System {
    if actions == [] then s else Next(RunSystem(s, actions[..|actions| - 1]), actions[|actions| - 1])
  }

  // ---------------------------------------------------------------- what the files say at each point

  function RunEvents(entries: seq<JournalEntry>): seq<RunEvent> {
    if entries == [] then []
    else
      var last := entries[|entries| - 1];
      RunEvents(entries[..|entries| - 1]) + (if last.RunEntry? then [last.run] else [])
  }

  /** The lifecycle events in the run's journal. */
  function Trace(f: Files): seq<RunEvent> {
    if f.switch.journal.Lines? then RunEvents(f.switch.journal.entries) else []
  }

  function Beats(n: nat): seq<RunEvent> {
    if n == 0 then [] else Beats(n - 1) + [Heartbeat(n)]
  }

  function Opening(seen: StateName): seq<RunEvent> {
    [RunStarted, SafetyChecked(seen)]
  }

  /** The complete traces. */
  predicate Legal(t: seq<RunEvent>, seen: StateName) {
    if seen == Active then t == Opening(seen) + [SafetyBlocked, RunCompleted]
    else
      || t == Opening(seen) + [PaperStarted] + Beats(HEARTBEATS) + [PaperCompleted, RunCompleted]
      || exists k: nat | k <= HEARTBEATS :: t == Opening(seen) + [PaperStarted] + Beats(k) + [RunFailed]
  }

  function TraceAt(pc: Pc, seen: StateName): seq<RunEvent> {
    match pc
    case WriteRunning => []
    case LogStarted => []
    case LogChecked => [RunStarted]
    case WriteBlocked => Opening(seen)
    case LogBlocked => Opening(seen)
    case LogBlockedEnd => Opening(seen) + [SafetyBlocked]
    case WriteBlockedMetrics => Opening(seen) + [SafetyBlocked, RunCompleted]
    case WriteBlockedReport => Opening(seen) + [SafetyBlocked, RunCompleted]
    case EndBlocked => Opening(seen) + [SafetyBlocked, RunCompleted]
    case LogPaperStarted => Opening(seen)
    case Beat(k) => Opening(seen) + [PaperStarted] + Beats(k)
    case WriteFailed(k) => Opening(seen) + [PaperStarted] + Beats(k)
    case LogFailed(k) => Opening(seen) + [PaperStarted] + Beats(k)
    case EndFailed(k) => Opening(seen) + [PaperStarted] + Beats(k) + [RunFailed]
    case LogPaperCompleted => Opening(seen) + [PaperStarted] + Beats(HEARTBEATS)
    case EndCompleted => Opening(seen) + [PaperStarted] + Beats(HEARTBEATS) + [PaperCompleted, RunCompleted]
    case _ => Opening(seen) + [PaperStarted] + Beats(HEARTBEATS) + [PaperCompleted]
  }

  function StatusAt(pc: Pc): Option<RunStatus> {
    match pc
    case WriteRunning => None
    case LogBlocked => Some(Blocked)
    case LogBlockedEnd => Some(Blocked)
    case WriteBlockedMetrics => Some(Blocked)
    case WriteBlockedReport => Some(Blocked)
    case EndBlocked => Some(Blocked)
    case LogFailed(_) => Some(Failed)
    case EndFailed(_) => Some(Failed)
    case LogCompleted => Some(Completed)
    case EndCompleted => Some(Completed)
    case _ => Some(Running)
  }

  function MetricsAt(pc: Pc): Option<nat> {
    match pc
    case WriteBlockedReport => Some(0)
    case EndBlocked => Some(0)
    case WriteReport => Some(HEARTBEATS)
    case WriteCompleted => Some(HEARTBEATS)
    case LogCompleted => Some(HEARTBEATS)
    case EndCompleted => Some(HEARTBEATS)
    case _ => None
  }

  function ReportAt(pc: Pc): Option<RunStatus> {
    match pc
    case EndBlocked => Some(Blocked)
    case WriteCompleted => Some(Completed)
    case LogCompleted => Some(Completed)
    case EndCompleted => Some(Completed)
    case _ => None
  }

  /** The branch taken fits the single look at the switch. */
  predicate PcFits(pc: Pc, seen: StateName) {
    match pc
    case WriteRunning => true
    case LogStarted => true
    case LogChecked => true
    case WriteBlocked => seen == Active
    case LogBlocked => seen == Active
    case LogBlockedEnd => seen == Active
    case WriteBlockedMetrics => seen == Active
    case WriteBlockedReport => seen == Active
    case EndBlocked => seen == Active
    case Beat(k) => seen != Active && k < HEARTBEATS
    case WriteFailed(k) => seen != Active && k <= HEARTBEATS
    case LogFailed(k) => seen != Active && k <= HEARTBEATS
    case EndFailed(k) => seen != Active && k <= HEARTBEATS
    case _ => seen != Active
  }

  /** Journal and metrics are those of a point of progress. */
  predicate LoggedAt(f: Files, pc: Pc, seen: StateName) {
    && f.dir && PcFits(pc, seen) && !f.switch.journal.NotAFile?
    && Trace(f) == TraceAt(pc, seen)
    && f.heartbeatCount == MetricsAt(pc) && f.report == ReportAt(pc)
  }

  /** `metadata["safety"]` shows what the lifecycle saw, and what it made of it, until a kill command refreshes it. */
  predicate SafetyFits(m: MetadataFile, seen: StateName) {
    m.Usable? && m.value.safety.outcome.Some? ==>
      && m.value.safety.state == seen
      && (m.value.safety.outcome.value.BlockedKillSwitch? <==> seen == Active)
  }

  /** The metadata too. */
  predicate FilesAt(f: Files, pc: Pc, seen: StateName) {
    && LoggedAt(f, pc, seen) && SafetyFits(f.metadata, seen)
    && (if f.metadata.Usable? then Some(f.metadata.value.status) else None) == StatusAt(pc)
  }

  /** A process may have died in the middle of writing the metadata. */
  predicate LeftAt(f: Files, pc: Pc, seen: StateName) {
    FilesAt(f, pc, seen) || (WritesMetadata(pc) && f.metadata.Unusable? && LoggedAt(f, pc, seen))
  }

  predicate Invariant(s: System) {
    match s.owner
    case NoOwner =>
      && !s.files.dir && s.files.switch.journal.NoJournal? && s.files.metadata.NoMetadata?
      && s.files.heartbeatCount.None? && s.files.report.None?
    case Alive(pc, seen) => FilesAt(s.files, pc, seen)
    case Dead(pc, seen) => LeftAt(s.files, pc, seen)
  }

  /** A run id nobody has run: no directory, so no journal, metadata or metrics. Its switch may have a past. */
  predicate FreshRun(s: System) {
    s.pending == [] && s.owner.NoOwner? && Invariant(s)
  }

  lemma RunEventsSnoc(entries: seq<JournalEntry>, e: JournalEntry)
    ensures RunEvents(entries + [e]) == RunEvents(entries) + (if e.RunEntry? then [e.run] else [])
  {
    assert (entries + [e])[..|entries|] == entries;
  }

  lemma LogTrace(f: Files, e: RunEvent)
    requires !f.switch.journal.NotAFile?
    ensures Trace(Log(f, e)) == Trace(f) + [e] && !Log(f, e).switch.journal.NotAFile?
  {
    if f.switch.journal.Lines? {
      RunEventsSnoc(f.switch.journal.entries, RunEntry(e));
    } else {
      RunEventsSnoc([], RunEntry(e));
      assert [] + [RunEntry(e)] == [RunEntry(e)];
    }
  }

  lemma LogWrites(f: Files, e: RunEvent)
    ensures Log(f, e).dir == f.dir && Log(f, e).metadata == f.metadata
    ensures Log(f, e).heartbeatCount == f.heartbeatCount && Log(f, e).report == f.report
  {
  }

  /** A kill command leaves every fact the lifecycle's files state about the lifecycle as it is. */
  lemma KillKeeps(f: Files, c: Command)
    ensures var g := KillCommand(f, c);
      && g.dir == f.dir && g.heartbeatCount == f.heartbeatCount && g.report == f.report
      && Trace(g) == Trace(f)
      && (g.switch.journal.NotAFile? <==> f.switch.journal.NotAFile?)
      && (g.switch.journal.NoJournal? <==> f.switch.journal.NoJournal?)
      && (g.metadata.Usable? <==> f.metadata.Usable?) && (g.metadata.Unusable? <==> f.metadata.Unusable?)
      && (f.metadata.Usable? ==> g.metadata.value.status == f.metadata.value.status)
      && (f.metadata.Usable? ==> g.metadata == f.metadata || g.metadata.value.safety.outcome.None?)
  {
    hide ParseState, Serialize, After;
    if f.switch.journal.Lines? && KillCommand(f, c).switch.journal != f.switch.journal {
      var e := EventOf(c, GetStatus(f.switch.file).Name());
      RunEventsSnoc(f.switch.journal.entries, KillEntry(e));
      assert RunEvents(f.switch.journal.entries) + [] == RunEvents(f.switch.journal.entries);
    }
  }

  /** The event a statement logs, if it logs one. */
  function EventAt(pc: Pc, seen: StateName): seq<RunEvent> {
    match pc
    case LogStarted => [RunStarted]
    case LogChecked => [SafetyChecked(seen)]
    case LogBlocked => [SafetyBlocked]
    case LogBlockedEnd => [RunCompleted]
    case LogPaperStarted => [PaperStarted]
    case Beat(done) => [Heartbeat(done + 1)]
    case LogFailed(_) => [RunFailed]
    case LogPaperCompleted => [PaperCompleted]
    case LogCompleted => [RunCompleted]
    case _ => []
  }

  lemma NoneYet()
    ensures Beats(0) == []
  {
  }

  lemma BeatsStep(k: nat)
    ensures Beats(k + 1) == Beats(k) + [Heartbeat(k + 1)]
  {
  }

  lemma BeatAdvances(k: nat, front: seq<RunEvent>)
    ensures front + Beats(k + 1) == front + Beats(k) + [Heartbeat(k + 1)]
  {
    hide Beats;
    assert Beats(k + 1) == Beats(k) + [Heartbeat(k + 1)] by { BeatsStep(k); }
    assert front + Beats(k) + [Heartbeat(k + 1)] == front + (Beats(k) + [Heartbeat(k + 1)]);
  }

  lemma TwoMore(t: seq<RunEvent>, a: RunEvent, b: RunEvent)
    ensures t + [a] + [b] == t + [a, b] && t + [] == t
  {
  }

  lemma OpeningIs(seen: StateName)
    ensures Opening(seen) == [RunStarted] + [SafetyChecked(seen)] && [] + [RunStarted] == [RunStarted]
  {
  }

  /** The statement logs nothing, and the trace stays as it is. */
  lemma QuietAdvances(pc: Pc, seen: StateName)
    requires PcFits(pc, seen) && EventAt(pc, seen) == []
    ensures TraceAt(NextPc(pc, seen), seen) == TraceAt(pc, seen)
  {
    hide Beats, Opening;
  }

  lemma OpeningAdvances(pc: Pc, seen: StateName)
    requires pc.LogStarted? || pc.LogChecked? || pc.LogBlocked? || pc.LogBlockedEnd?
    ensures TraceAt(NextPc(pc, seen), seen) == TraceAt(pc, seen) + EventAt(pc, seen)
  {
    hide Beats, Opening;
    OpeningIs(seen);
    TwoMore(Opening(seen), SafetyBlocked, RunCompleted);
  }

  lemma PaperAdvances(pc: Pc, seen: StateName)
    requires PcFits(pc, seen)
    requires pc.LogPaperStarted? || pc.Beat? || pc.LogFailed? || pc.LogPaperCompleted? || pc.LogCompleted?
    ensures TraceAt(NextPc(pc, seen), seen) == TraceAt(pc, seen) + EventAt(pc, seen)
  {
    hide Beats, Opening;
    var front := Opening(seen) + [PaperStarted];
    match pc {
      case Beat(k) => BeatAdvances(k, front);
      case LogPaperStarted =>
        assert Beats(0) == [] by { NoneYet(); }
        TwoMore(front, RunCompleted, RunCompleted);
      case _ => TwoMore(front + Beats(HEARTBEATS), PaperCompleted, RunCompleted);
    }
  }

  lemma TraceAdvances(pc: Pc, seen: StateName)
    requires PcFits(pc, seen)
    ensures TraceAt(NextPc(pc, seen), seen) == TraceAt(pc, seen) + EventAt(pc, seen)
  {
    hide TraceAt, NextPc, PcFits;
    if EventAt(pc, seen) == [] {
      QuietAdvances(pc, seen);
      TwoMore(TraceAt(pc, seen), RunCompleted, RunCompleted);
    } else if pc.LogStarted? || pc.LogChecked? || pc.LogBlocked? || pc.LogBlockedEnd? {
      OpeningAdvances(pc, seen);
    } else {
      PaperAdvances(pc, seen);
    }
  }

  lemma StepLogs(f: Files, pc: Pc, seen: StateName)
    requires !f.switch.journal.NotAFile?
    ensures var g := StepFiles(f, pc, seen);
      Trace(g) == Trace(f) + EventAt(pc, seen) && !g.switch.journal.NotAFile?
  {
    hide Trace;
    var e := EventAt(pc, seen);
    if e != [] {
      LogTrace(f, e[0]);
      assert StepFiles(f, pc, seen) == Log(f, e[0]);
      assert e == [e[0]];
    } else {
      SameJournal(f, StepFiles(f, pc, seen));
      assert Trace(f) + [] == Trace(f);
    }
  }

  lemma SameJournal(f: Files, g: Files)
    requires f.switch.journal == g.switch.journal
    ensures Trace(f) == Trace(g)
  {
  }

  lemma StepKeeps(f: Files, pc: Pc, seen: StateName)
    requires FilesAt(f, pc, seen)
    ensures FilesAt(StepFiles(f, pc, seen), NextPc(pc, seen), seen)
  {
    hide Trace, TraceAt;
    TraceAdvances(pc, seen);
    StepLogs(f, pc, seen);
  }

  lemma NextKeeps(s: System, a: Action)
    requires Invariant(s)
    ensures Invariant(Next(s, a))
  {
    hide FilesAt, LoggedAt, LeftAt, StepFiles, NextPc, Log, KillCommand, Tear;
    match a {
      case Crash(torn) => if s.owner.Alive? { CrashKeeps(s.files, s.owner.pc, s.owner.seen); }
      case Step => if s.owner.Alive? { StepKeeps(s.files, s.owner.pc, s.owner.seen); }
      case BeatFails(written) =>
        if s.owner.Alive? && s.owner.pc.Beat? { FailKeeps(s.files, s.owner.pc.done, s.owner.seen); }
      case Kill(c) => KillKeepsInvariant(s, c);
      case Create(i) => if i < |s.pending| && !s.files.dir { CreateKeeps(s, s.pending[i]); }
      case _ =>
    }
  }

  lemma CrashKeeps(f: Files, pc: Pc, seen: StateName)
    requires FilesAt(f, pc, seen)
    ensures LeftAt(f, pc, seen) && LeftAt(Tear(f, pc), pc, seen)
  {
    hide TraceAt, Trace;
    SameJournal(f, Tear(f, pc));
  }

  lemma CreateKeeps(s: System, seen: StateName)
    requires Invariant(s) && !s.files.dir
    ensures FilesAt(s.files.(dir := true), WriteRunning, seen)
  {
  }

  lemma KillKeepsInvariant(s: System, c: Command)
    requires Invariant(s)
    ensures Invariant(Next(s, Kill(c)))
  {
    hide KillCommand, Trace, TraceAt;
    KillKeeps(s.files, c);
  }

  lemma FailKeeps(f: Files, done: nat, seen: StateName)
    requires FilesAt(f, Beat(done), seen)
    ensures FilesAt(f, WriteFailed(done), seen)
    ensures FilesAt(Log(f, Heartbeat(done + 1)), WriteFailed(done + 1), seen)
  {
    hide Trace, Log, Beats;
    LogTrace(f, Heartbeat(done + 1));
    LogWrites(f, Heartbeat(done + 1));
    BeatAdvances(done, Opening(seen) + [PaperStarted]);
  }

  lemma {:induction false} EveryRun(s: System, actions: seq<Action>)
    requires FreshRun(s)
    ensures Invariant(RunSystem(s, actions))
    decreases |actions|
  {
    hide Next, Invariant;
    if actions == [] {
      assert Invariant(s) by { assert FreshRun(s); }
    } else {
      EveryRun(s, actions[..|actions| - 1]);
      NextKeeps(RunSystem(s, actions[..|actions| - 1]), actions[|actions| - 1]);
    }
  }

  // ---------------------------------------------------------------- main theorems

  lemma {:induction false} BeatsPrefix(j: nat, k: nat)
    requires j <= k
    ensures Beats(j) <= Beats(k)
  {
    if j < k {
      BeatsPrefix(j, k - 1);
      assert Beats(k - 1) <= Beats(k);
    }
  }

  lemma Before(t: seq<RunEvent>, more: seq<RunEvent>)
    ensures t <= t + more
  {
  }

  lemma BlockedPrefix(pc: Pc, seen: StateName)
    requires PcFits(pc, seen) && seen == Active
    ensures TraceAt(pc, seen) <= Opening(seen) + [SafetyBlocked, RunCompleted]
  {
    hide Beats;
  }

  lemma BeatsWithin(k: nat, front: seq<RunEvent>, back: seq<RunEvent>)
    requires k <= HEARTBEATS
    ensures front + Beats(k) <= front + Beats(HEARTBEATS) + back
  {
    hide Beats;
    BeatsPrefix(k, HEARTBEATS);
    assert front + Beats(HEARTBEATS) + back == front + Beats(k) + (Beats(HEARTBEATS)[|Beats(k)|..] + back);
  }

  lemma PaperPrefix(pc: Pc, seen: StateName)
    requires PcFits(pc, seen) && seen != Active && !pc.EndFailed?
    ensures TraceAt(pc, seen) <= Opening(seen) + [PaperStarted] + Beats(HEARTBEATS) + [PaperCompleted, RunCompleted]
  {
    hide Beats;
    var front, back := Opening(seen) + [PaperStarted], [PaperCompleted, RunCompleted];
    match pc {
      case Beat(k) => BeatsWithin(k, front, back);
      case WriteFailed(k) => BeatsWithin(k, front, back);
      case LogFailed(k) => BeatsWithin(k, front, back);
      case LogPaperCompleted => BeatsWithin(HEARTBEATS, front, back);
      case EndCompleted =>
      case _ =>
        TwoMore(front + Beats(HEARTBEATS), PaperCompleted, RunCompleted);
        Before(front + Beats(HEARTBEATS) + [PaperCompleted], [RunCompleted]);
    }
  }

  /** Every trace met on the way is the beginning of a complete one. */
  lemma TraceIsPrefix(pc: Pc, seen: StateName)
    requires PcFits(pc, seen)
    ensures exists t :: Legal(t, seen) && TraceAt(pc, seen) <= t
    ensures pc.Ended() ==> Legal(TraceAt(pc, seen), seen)
  {
    hide Beats;
    if seen == Active {
      BlockedPrefix(pc, seen);
      assert Legal(Opening(seen) + [SafetyBlocked, RunCompleted], seen);
    } else if pc.EndFailed? {
      Before(TraceAt(pc, seen), []);
      assert Legal(TraceAt(pc, seen), seen);
    } else {
      PaperPrefix(pc, seen);
      assert Legal(Opening(seen) + [PaperStarted] + Beats(HEARTBEATS) + [PaperCompleted, RunCompleted], seen);
    }
  }

  /** Trace grammar: however many processes are started, killed or interleaved with kill commands,
      the lifecycle events in the journal are the beginning of one complete trace. */
  lemma TraceGrammar(s: System, actions: seq<Action>)
    requires FreshRun(s)
    ensures exists t, seen :: Legal(t, seen) && Trace(RunSystem(s, actions).files) <= t
  {
    hide Legal, TraceAt, Next;
    EveryRun(s, actions);
    var r := RunSystem(s, actions);
    if r.owner.NoOwner? {
      TraceIsPrefix(WriteRunning, Absent);
    } else {
      TraceIsPrefix(r.owner.pc, r.owner.seen);
    }
  }

  function CountBeats(t: seq<RunEvent>): nat {
    if t == [] then 0 else CountBeats(t[..|t| - 1]) + (if t[|t| - 1].Heartbeat? then 1 else 0)
  }

  lemma {:induction false} CountConcat(a: seq<RunEvent>, b: seq<RunEvent>)
    ensures CountBeats(a + b) == CountBeats(a) + CountBeats(b)
    decreases |b|
  {
    if b == [] {
      assert a + b == a;
    } else {
      assert (a + b)[..|a + b| - 1] == a + b[..|b| - 1];
      CountConcat(a, b[..|b| - 1]);
    }
  }

  lemma {:induction false} BeatsOnly(n: nat)
    ensures CountBeats(Beats(n)) == n && forall e <- Beats(n) :: e.Heartbeat?
  {
    if n > 0 {
      BeatsOnly(n - 1);
      CountConcat(Beats(n - 1), [Heartbeat(n)]);
      assert [Heartbeat(n)][..0] == [];
    }
  }

  /** What a complete or broken-off trace says about the other two files. */
  predicate Consistent(t: seq<RunEvent>, status: Option<RunStatus>, heartbeatCount: Option<nat>, seen: StateName) {
    && (RunCompleted in t ==> status == Some(Completed) || status == Some(Blocked))
    && (RunFailed in t ==> status == Some(Failed))
    && (heartbeatCount.Some? ==> heartbeatCount.value == CountBeats(t))
    && (CountBeats(t) > 0 ==> SafetyChecked(seen) in t && seen != Active)
  }

  lemma NoBeats(t: seq<RunEvent>)
    requires |t| <= 2 && forall e <- t :: !e.Heartbeat?
    ensures CountBeats(t) == 0
  {
    if |t| > 0 {
      assert t[..|t| - 1] == [] || t[..|t| - 1] == [t[0]];
      assert |t| == 2 ==> [t[0]][..0] == [];
    }
  }

  lemma BlockedConsistent(pc: Pc)
    requires PcFits(pc, Active)
    ensures Consistent(TraceAt(pc, Active), StatusAt(pc), MetricsAt(pc), Active)
  {
    hide CountBeats, Beats;
    var opening := Opening(Active);
    NoBeats([]);
    NoBeats([RunStarted]);
    NoBeats(opening);
    NoBeats([SafetyBlocked]);
    NoBeats([SafetyBlocked, RunCompleted]);
    CountConcat(opening, [SafetyBlocked]);
    CountConcat(opening, [SafetyBlocked, RunCompleted]);
  }

  lemma BeatsTrace(k: nat, seen: StateName, more: seq<RunEvent>)
    requires |more| <= 2 && forall e <- more :: !e.Heartbeat?
    ensures var t := Opening(seen) + [PaperStarted] + Beats(k);
      && CountBeats(t) == k && CountBeats(t + more) == k && SafetyChecked(seen) in t
      && forall e <- t :: e in Opening(seen) || e == PaperStarted || e.Heartbeat?
  {
    hide CountBeats, Beats;
    var opening := Opening(seen);
    BeatsOnly(k);
    NoBeats(opening);
    NoBeats([PaperStarted]);
    NoBeats(more);
    CountConcat(opening, [PaperStarted]);
    CountConcat(opening + [PaperStarted], Beats(k));
    CountConcat(opening + [PaperStarted] + Beats(k), more);
    assert opening[1] == SafetyChecked(seen) && SafetyChecked(seen) in opening;
  }

  lemma PaperConsistent(pc: Pc, seen: StateName)
    requires PcFits(pc, seen) && seen != Active
    ensures Consistent(TraceAt(pc, seen), StatusAt(pc), MetricsAt(pc), seen)
  {
    hide CountBeats, Beats;
    var k := match pc
      case Beat(k) => k
      case WriteFailed(k) => k
      case LogFailed(k) => k
      case EndFailed(k) => k
      case _ => HEARTBEATS;
    NoBeats([]);
    NoBeats([RunStarted]);
    NoBeats(Opening(seen));
    BeatsTrace(k, seen, [RunFailed]);
    BeatsTrace(k, seen, [PaperCompleted]);
    BeatsTrace(k, seen, [PaperCompleted, RunCompleted]);
  }

  lemma TraceConsistent(pc: Pc, seen: StateName)
    requires PcFits(pc, seen)
    ensures Consistent(TraceAt(pc, seen), StatusAt(pc), MetricsAt(pc), seen)
  {
    hide TraceAt, Consistent, PcFits;
    if seen == Active { BlockedConsistent(pc); } else { PaperConsistent(pc, seen); }
  }

  /** What the report says about the end. */
  predicate ReportFits(t: seq<RunEvent>, report: Option<RunStatus>) {
    && (report == Some(Blocked) ==> SafetyBlocked in t && RunCompleted in t && PaperStarted !in t)
    && (report == Some(Completed) ==> PaperCompleted in t && SafetyBlocked !in t)
    && report != Some(Running) && report != Some(Failed)
  }

  lemma ReportConsistent(pc: Pc, seen: StateName)
    requires PcFits(pc, seen)
    ensures ReportFits(TraceAt(pc, seen), ReportAt(pc))
  {
    hide Beats;
    BeatsOnly(HEARTBEATS);
    var opening, paper := Opening(seen), Opening(seen) + [PaperStarted] + Beats(HEARTBEATS);
    assert (opening + [SafetyBlocked, RunCompleted])[2] == SafetyBlocked;
    assert (opening + [SafetyBlocked, RunCompleted])[3] == RunCompleted;
    assert (paper + [PaperCompleted])[|paper|] == PaperCompleted;
    assert (paper + [PaperCompleted, RunCompleted])[|paper|] == PaperCompleted;
  }

  predicate Agree(f: Files, seen: StateName) {
    && Consistent(Trace(f), if f.metadata.Usable? then Some(f.metadata.value.status) else None, f.heartbeatCount, seen)
    && ReportFits(Trace(f), f.report) && SafetyFits(f.metadata, seen)
  }

  /** Metadata that broke off states no status; no trace that far on speaks of an end. */
  lemma TornConsistent(pc: Pc, seen: StateName)
    requires WritesMetadata(pc) && Consistent(TraceAt(pc, seen), StatusAt(pc), MetricsAt(pc), seen)
    ensures Consistent(TraceAt(pc, seen), None, MetricsAt(pc), seen)
  {
    hide TraceAt, CountBeats;
  }

  /** Journal, metadata and metrics agree at every step, also after a crash, be it in the middle of writing the
      metadata: a completed run is marked completed or blocked, a failed one failed, the heartbeat count is the
      number of heartbeats logged, heartbeats follow a look at the switch that did not find it active, the report
      speaks of the end the journal has, and the safety entry of what was seen. */
  lemma ArtifactsAgree(s: System, actions: seq<Action>)
    requires FreshRun(s)
    ensures exists seen :: Agree(RunSystem(s, actions).files, seen)
  {
    hide Next, TraceAt, Consistent, ReportFits;
    EveryRun(s, actions);
    var r := RunSystem(s, actions);
    if r.owner.NoOwner? {
      TraceConsistent(WriteRunning, Absent);
      ReportConsistent(WriteRunning, Absent);
      assert TraceAt(WriteRunning, Absent) == [] by { OpeningIsEmpty(); }
      assert Agree(r.files, Absent);
    } else {
      TraceConsistent(r.owner.pc, r.owner.seen);
      ReportConsistent(r.owner.pc, r.owner.seen);
      if !FilesAt(r.files, r.owner.pc, r.owner.seen) { TornConsistent(r.owner.pc, r.owner.seen); }
      assert Agree(r.files, r.owner.seen);
    }
  }

  lemma OpeningIsEmpty()
    ensures TraceAt(WriteRunning, Absent) == []
  {
  }

  // ---------------------------------------------------------------- the switch beside the lifecycle

  lemma LogKeepsSwitch(f: Files, e: RunEvent, committed: seq<bool>)
    requires KillSwitch.Invariant(Audit(f.switch, committed))
    ensures KillSwitch.Invariant(Audit(Log(f, e).switch, committed))
  {
    hide KillSwitch.Invariant;
    KillSwitch.StepKeeps(Audit(f.switch, committed), JournalLine(e));
  }

  lemma NextKeepsSwitch(s: System, a: Action, committed: seq<bool>) returns (committed': seq<bool>)
    requires KillSwitch.Invariant(Audit(s.files.switch, committed))
    requires a.Kill? ==> Stamped(a.command)
    ensures KillSwitch.Invariant(Audit(Next(s, a).files.switch, committed'))
  {
    hide KillSwitch.Invariant, Execute, Log;
    committed' := committed;
    match a {
      case Kill(c) =>
        var audit := Audit(s.files.switch, committed);
        KillSwitch.StepKeeps(audit, Run(c));
        committed' := KillSwitch.Next(audit, Run(c)).committed;
      case Step =>
        if s.owner.Alive? {
          var e := EventAt(s.owner.pc, s.owner.seen);
          if e != [] { LogKeepsSwitch(s.files, e[0], committed); }
        }
      case BeatFails(_) =>
        if s.owner.Alive? && s.owner.pc.Beat? {
          LogKeepsSwitch(s.files, Heartbeat(s.owner.pc.done + 1), committed);
        }
      case _ =>
    }
  }

  /** Everything the kill switch keeps on its own it also keeps while lifecycles write the same journal. */
  lemma {:induction false} SwitchKept(s: System, before: seq<bool>, actions: seq<Action>) returns (committed: seq<bool>)
    requires KillSwitch.Invariant(Audit(s.files.switch, before))
    requires forall a <- actions :: a.Kill? ==> Stamped(a.command)
    ensures KillSwitch.Invariant(Audit(RunSystem(s, actions).files.switch, committed))
    decreases |actions|
  {
    hide KillSwitch.Invariant, Next;
    if actions == [] {
      committed := before;
    } else {
      var n := |actions| - 1;
      assert actions[n] in actions;
      committed := SwitchKept(s, before, actions[..n]);
      committed := NextKeepsSwitch(RunSystem(s, actions[..n]), actions[n], committed);
    }
  }

  /** A run id is used once: with the directory there and nobody at work, no launch, however timed and
      whatever the switch says by then, adds a lifecycle event or changes status, metrics or report. */
  lemma {:induction false} RerunRefused(s: System, actions: seq<Action>)
    requires s.files.dir && !s.owner.Alive?
    ensures var r := RunSystem(s, actions);
      && r.files.dir && r.owner == s.owner && Trace(r.files) == Trace(s.files)
      && r.files.heartbeatCount == s.files.heartbeatCount && r.files.report == s.files.report
      && r.files.metadata.Usable? == s.files.metadata.Usable?
      && r.files.metadata.Unusable? == s.files.metadata.Unusable?
      && (s.files.metadata.Usable? ==> r.files.metadata.value.status == s.files.metadata.value.status)
    decreases |actions|
  {
    hide Trace, KillCommand;
    if actions != [] {
      var n := |actions| - 1;
      RerunRefused(s, actions[..n]);
      if actions[n].Kill? {
        KillKeeps(RunSystem(s, actions[..n]).files, actions[n].command);
      }
    }
  }

  /** Fails closed: once the state file cannot be read and nobody has looked before, no command and no
      launch writes anything at all. */
  lemma {:induction false} UnreadableStopsAll(s: System, actions: seq<Action>)
    requires GetStatus(s.files.switch.file).ReadError? && s.pending == [] && !s.owner.Alive?
    ensures RunSystem(s, actions) == s
    decreases |actions|
  {
    hide ParseState;
    if actions != [] {
      UnreadableStopsAll(s, actions[..|actions| - 1]);
    }
  }

  function WithoutKills(actions: seq<Action>): seq<Action> {
    if actions == [] then []
    else
      WithoutKills(actions[..|actions| - 1])
      + (if actions[|actions| - 1].Kill? then [] else [actions[|actions| - 1]])
  }

  /** Two metadata files that differ at most in the safety snapshot. */
  predicate SameStatus(m: MetadataFile, n: MetadataFile) {
    && (m.Usable? <==> n.Usable?) && (m.Unusable? <==> n.Unusable?)
    && (m.Usable? ==> m.value.status == n.value.status)
  }

  ghost predicate SameCourse(a: System, b: System) {
    && a.owner == b.owner && a.pending == b.pending
    && a.files.dir == b.files.dir && Trace(a.files) == Trace(b.files)
    && SameStatus(a.files.metadata, b.files.metadata)
    && a.files.heartbeatCount == b.files.heartbeatCount && a.files.report == b.files.report
    && (a.files.switch.journal.NotAFile? <==> b.files.switch.journal.NotAFile?)
  }

  lemma StepSameCourse(a: System, b: System, x: Action)
    requires SameCourse(a, b) && !x.Launch? && !x.Kill? && !a.files.switch.journal.NotAFile?
    ensures SameCourse(Next(a, x), Next(b, x)) && !Next(a, x).files.switch.journal.NotAFile?
  {
    hide Trace, Log, StepFiles, NextPc;
    match x {
      case Step =>
        if a.owner.Alive? {
          StepLogs(a.files, a.owner.pc, a.owner.seen);
          StepLogs(b.files, a.owner.pc, a.owner.seen);
          SameWrites(a.files, b.files, a.owner.pc, a.owner.seen);
        }
      case BeatFails(_) =>
        if a.owner.Alive? && a.owner.pc.Beat? {
          LogTrace(a.files, Heartbeat(a.owner.pc.done + 1));
          LogTrace(b.files, Heartbeat(a.owner.pc.done + 1));
          LogWrites(a.files, Heartbeat(a.owner.pc.done + 1));
          LogWrites(b.files, Heartbeat(a.owner.pc.done + 1));
        }
      case Create(i) =>
        SameJournal(a.files, a.files.(dir := true));
        SameJournal(b.files, b.files.(dir := true));
      case Crash(torn) =>
        if a.owner.Alive? {
          SameJournal(a.files, Tear(a.files, a.owner.pc));
          SameJournal(b.files, Tear(b.files, a.owner.pc));
        }
      case _ =>
    }
  }

  lemma SameWrites(f: Files, g: Files, pc: Pc, seen: StateName)
    requires f.dir == g.dir && f.heartbeatCount == g.heartbeatCount && f.report == g.report
    requires SameStatus(f.metadata, g.metadata)
    ensures var f', g' := StepFiles(f, pc, seen), StepFiles(g, pc, seen);
      && f'.dir == g'.dir && f'.heartbeatCount == g'.heartbeatCount && f'.report == g'.report
      && SameStatus(f'.metadata, g'.metadata)
  {
  }

  /** The gate is one look: after the last launch, kill commands change nothing in the course of the
      lifecycle. It makes the same steps, logs the same events and writes the same status, metrics and
      report as without them, whether they activate the switch or clear it. */
  lemma {:induction false} KillsDoNotSteer(s: System, actions: seq<Action>)
    requires !s.files.switch.journal.NotAFile?
    requires forall a <- actions :: !a.Launch?
    ensures SameCourse(RunSystem(s, actions), RunSystem(s, WithoutKills(actions)))
    ensures !RunSystem(s, actions).files.switch.journal.NotAFile?
    decreases |actions|
  {
    hide Next, Trace;
    if actions != [] {
      var n := |actions| - 1;
      var x, before, quiet := actions[n], RunSystem(s, actions[..n]), WithoutKills(actions[..n]);
      assert x in actions;
      KillsDoNotSteer(s, actions[..n]);
      if x.Kill? {
        KillKeeps(before.files, x.command);
        KillOnlyFiles(before, x.command);
        assert quiet + [] == quiet;
      } else {
        assert (quiet + [x])[..|quiet|] == quiet;
        StepSameCourse(before, RunSystem(s, quiet), x);
      }
    }
  }

  lemma KillOnlyFiles(s: System, c: Command)
    ensures Next(s, Kill(c)) == s.(files := KillCommand(s.files, c))
  {
  }

  // ---------------------------------------------------------------- the gate acts on what the switch says

  /** Some launch among the actions met a state file that says this. */
  ghost predicate Looked(s: System, actions: seq<Action>, seen: StateName) {
    exists i :: 0 <= i < |actions| && LookAt(s, actions, i, seen)
  }

  predicate LookAt(s: System, actions: seq<Action>, i: nat, seen: StateName)
    requires i < |actions|
  {
    actions[i].Launch? && Says(RunSystem(s, actions[..i]).files.switch.file, seen)
  }

  lemma LookedSnoc(s: System, actions: seq<Action>, a: Action, seen: StateName)
    ensures Looked(s, actions, seen) ==> Looked(s, actions + [a], seen)
    ensures a.Launch? && Says(RunSystem(s, actions).files.switch.file, seen) ==> Looked(s, actions + [a], seen)
  {
    hide Says, RunSystem;
    var all := actions + [a];
    if i :| 0 <= i < |actions| && LookAt(s, actions, i, seen) {
      assert all[i] == actions[i] && all[..i] == actions[..i];
      assert LookAt(s, all, i, seen);
    }
    assert all[|actions|] == a && all[..|actions|] == actions;
    assert a.Launch? && Says(RunSystem(s, actions).files.switch.file, seen) ==> LookAt(s, all, |actions|, seen);
  }

  ghost predicate AllLooked(s: System, actions: seq<Action>, r: System) {
    && (forall seen <- r.pending :: Looked(s, actions, seen))
    && (!r.owner.NoOwner? ==> Looked(s, actions, r.owner.seen))
  }

  lemma NextLooked(r: System, a: Action)
    ensures var n := Next(r, a);
      && (forall seen <- n.pending :: seen in r.pending || (a.Launch? && Says(r.files.switch.file, seen)))
      && (!n.owner.NoOwner? ==>
            if r.owner.NoOwner? || a.Create? then n.owner.seen in r.pending || n.owner == r.owner
            else n.owner.seen == r.owner.seen)
  {
    hide Says, GetStatus, StepFiles, NextPc, KillCommand, Log, Tear;
    StatusSaid(r.files.switch.file);
  }

  /** Whatever is in progress, the state it acts on was in the state file when one of the launches read it. */
  lemma {:induction false} LookedAtSwitch(s: System, actions: seq<Action>)
    requires s.pending == [] && s.owner.NoOwner?
    ensures AllLooked(s, actions, RunSystem(s, actions))
    decreases |actions|
  {
    hide Next, Looked, Says;
    if actions != [] {
      var front, a := actions[..|actions| - 1], actions[|actions| - 1];
      var r := RunSystem(s, front);
      assert front + [a] == actions;
      LookedAtSwitch(s, front);
      NextLooked(r, a);
      forall seen: StateName
        ensures Looked(s, front, seen) || (a.Launch? && Says(r.files.switch.file, seen)) ==> Looked(s, actions, seen)
      {
        LookedSnoc(s, front, a, seen);
      }
    }
  }

  lemma {:induction false} RunHead(s: System, a: Action, rest: seq<Action>)
    ensures RunSystem(s, [a] + rest) == RunSystem(Next(s, a), rest)
  {
    hide Next;
    var all := [a] + rest;
    if rest == [] {
      assert all[..0] == [] && all[0] == a;
    } else {
      assert all[..|all| - 1] == [a] + rest[..|rest| - 1];
      RunHead(s, a, rest[..|rest| - 1]);
    }
  }

  lemma NextKeepsFile(s: System, a: Action)
    requires !a.Kill?
    ensures Next(s, a).files.switch.file == s.files.switch.file
  {
  }

  /** Nobody but the kill commands writes the state file. */
  lemma {:induction false} FileKept(s: System, actions: seq<Action>)
    requires forall a <- actions :: !a.Kill?
    ensures RunSystem(s, actions).files.switch.file == s.files.switch.file
  {
    hide Next;
    if actions != [] {
      var n := |actions| - 1;
      assert actions[n] in actions;
      FileKept(s, actions[..n]);
      NextKeepsFile(RunSystem(s, actions[..n]), actions[n]);
    }
  }

  /** A file says one thing only. */
  lemma SaysOne(f: StateFile, a: StateName, b: StateName)
    requires Says(f, a) && Says(f, b)
    ensures a == b
  {
    hide WellFormed;
    assert "active"[0] != "cleared"[0];
  }

  lemma CommandSays(w: World, c: Command)
    requires w.runId != "" && Stamped(c) && Execute(w, c).1.Done?
    ensures Says(Execute(w, c).0.file, if c.activates then Active else Cleared)
  {
    hide Execute, ParseState, Shows, Appended, MirrorsTo, WellFormed, EventOf, Says;
    CommandMeant(w, c);
    ReturnedIsRead(w, c);
    StatusSaid(Execute(w, c).0.file);
    SaidByState(Execute(w, c).0.file);
    AppendedRecords(w, c, Execute(w, c).0);
    ShownState(Execute(w, c).0.file, w.file, Execute(w, c).0.events[|w.events|], w.runId);
  }

  lemma AppendedRecords(w: World, c: Command, w': World)
    requires Appended(w, c, w')
    ensures |w'.events| > |w.events| && Records(w'.events[|w.events|], c)
  {
  }

  lemma ShownState(f: StateFile, before: StateFile, e: KillEvent, runId: string)
    requires Shows(f, before, e, runId)
    ensures f.Object? && State in f.payload && f.payload[State] == Text(if e.activates then "active" else "cleared")
  {
  }

  lemma SaidByState(f: StateFile)
    requires CanBeRead(f)
    ensures f.Object? && State in f.payload && f.payload[State] == Text("active") ==> Says(f, Active)
    ensures f.Object? && State in f.payload && f.payload[State] == Text("cleared") ==> Says(f, Cleared)
  {
    hide WellFormed;
    assert "active"[0] != "cleared"[0];
  }

  /** A completed command leaves its own state in the metadata's safety entry, and the rest as it was. */
  lemma SnapshotSays(f: Files, c: Command)
    requires Execute(f.switch, c).1.Done? && f.dir && f.metadata.Usable?
    ensures KillCommand(f, c).metadata
      == Usable(Metadata(f.metadata.value.status, Safety(if c.activates then Active else Cleared, None)))
  {
    hide Execute, CarriedOut;
    CommandMeant(f.switch, c);
  }

  /** After a completed command and no further one, every lifecycle acts on what that command asked for. */
  lemma GateAfterCommand(s: System, c: Command, rest: seq<Action>)
    requires FreshRun(s) && s.files.switch.runId != "" && Stamped(c) && Execute(s.files.switch, c).1.Done?
    requires forall a <- rest :: !a.Kill?
    ensures var r, seen := RunSystem(s, [Kill(c)] + rest), if c.activates then Active else Cleared;
      Invariant(r) && (!r.owner.NoOwner? ==> r.owner.seen == seen)
  {
    hide Says, Execute, Next, Invariant;
    var t := Next(s, Kill(c));
    KillOnlyFiles(s, c);
    RunHead(s, Kill(c), rest);
    CommandSays(s.files.switch, c);
    EveryRun(s, [Kill(c)] + rest);
    LookedAtSwitch(t, rest);
    var r := RunSystem(t, rest);
    if !r.owner.NoOwner? {
      var i :| 0 <= i < |rest| && LookAt(t, rest, i, r.owner.seen);
      assert forall a <- rest[..i] :: a in rest;
      FileKept(t, rest[..i]);
      KillFile(s, c);
      SaysOne(t.files.switch.file, r.owner.seen, if c.activates then Active else Cleared);
    }
  }

  lemma KillFile(s: System, c: Command)
    ensures Next(s, Kill(c)).files.switch.file == Execute(s.files.switch, c).0.file
  {
    hide Execute;
  }

  /** End to end: after a completed activation no lifecycle gets any further than being blocked, and an ended
      one says so. */
  lemma ActivationBlocks(s: System, c: Command, rest: seq<Action>)
    requires FreshRun(s) && s.files.switch.runId != "" && Stamped(c) && Execute(s.files.switch, c).1.Done?
    requires c.activates && forall a <- rest :: !a.Kill?
    ensures var r := RunSystem(s, [Kill(c)] + rest);
      && Trace(r.files) <= [RunStarted, SafetyChecked(Active), SafetyBlocked, RunCompleted]
      && (r.owner.Alive? && r.owner.pc.Ended() ==>
            Trace(r.files) == [RunStarted, SafetyChecked(Active), SafetyBlocked, RunCompleted])
  {
    hide Execute, Next, RunSystem, TraceAt;
    GateAfterCommand(s, c, rest);
    var r := RunSystem(s, [Kill(c)] + rest);
    BlockedTrace();
    if r.owner.NoOwner? {
      assert Trace(r.files) == [];
    } else {
      BlockedPrefix(r.owner.pc, Active);
      if r.owner.pc.Ended() { BlockedEnd(r.owner.pc); }
    }
  }

  lemma BlockedTrace()
    ensures Opening(Active) + [SafetyBlocked, RunCompleted]
      == [RunStarted, SafetyChecked(Active), SafetyBlocked, RunCompleted]
  {
  }

  lemma BlockedEnd(pc: Pc)
    requires PcFits(pc, Active) && pc.Ended()
    ensures TraceAt(pc, Active) == Opening(Active) + [SafetyBlocked, RunCompleted]
  {
  }

  /** After a completed clearance none is blocked, and one that ends without an exception has logged all beats. */
  lemma ClearanceContinues(s: System, c: Command, rest: seq<Action>)
    requires FreshRun(s) && s.files.switch.runId != "" && Stamped(c) && Execute(s.files.switch, c).1.Done?
    requires !c.activates && forall a <- rest :: !a.Kill?
    ensures var r := RunSystem(s, [Kill(c)] + rest);
      && SafetyBlocked !in Trace(r.files)
      && (r.owner.Alive? && r.owner.pc.Ended() && RunFailed !in Trace(r.files) ==>
            Trace(r.files) == [RunStarted, SafetyChecked(Cleared), PaperStarted, Heartbeat(1), Heartbeat(2),
                               Heartbeat(3), PaperCompleted, RunCompleted])
  {
    hide Execute, Next, RunSystem, TraceAt;
    GateAfterCommand(s, c, rest);
    var r := RunSystem(s, [Kill(c)] + rest);
    if r.owner.NoOwner? {
      assert Trace(r.files) == [];
    } else {
      ContinuedTrace(r.owner.pc);
    }
  }

  lemma ContinuedTrace(pc: Pc)
    requires PcFits(pc, Cleared)
    ensures SafetyBlocked !in TraceAt(pc, Cleared)
    ensures pc.Ended() && RunFailed !in TraceAt(pc, Cleared) ==>
      TraceAt(pc, Cleared) == [RunStarted, SafetyChecked(Cleared), PaperStarted, Heartbeat(1), Heartbeat(2),
                               Heartbeat(3), PaperCompleted, RunCompleted]
  {
    hide Beats;
    match pc {
      case Beat(k) => BeatsOnly(k);
      case WriteFailed(k) => BeatsOnly(k);
      case LogFailed(k) => BeatsOnly(k);
      case EndFailed(k) =>
        BeatsOnly(k);
        var t := TraceAt(pc, Cleared);
        assert t[|t| - 1] == RunFailed;
      case _ =>
        BeatsOnly(HEARTBEATS);
        ThreeBeats();
    }
  }

  lemma ThreeBeats()
    ensures Beats(HEARTBEATS) == [Heartbeat(1), Heartbeat(2), Heartbeat(3)]
  {
    assert Beats(0) == [] && Beats(1) == Beats(0) + [Heartbeat(1)];
    assert Beats(2) == Beats(1) + [Heartbeat(2)] && Beats(3) == Beats(2) + [Heartbeat(3)];
  }

  // ---------------------------------------------------------------- the artifacts of an ended run

  predicate EndsAs(f: Files, trace: seq<RunEvent>, status: RunStatus, beats: Option<nat>, report: Option<RunStatus>) {
    && Trace(f) == trace && f.metadata.Usable? && f.metadata.value.status == status
    && f.heartbeatCount == beats && f.report == report
  }

  predicate EndsBlocked(f: Files) {
    EndsAs(f, [RunStarted, SafetyChecked(Active), SafetyBlocked, RunCompleted], Blocked, Some(0), Some(Blocked))
  }

  predicate EndsCompleted(f: Files, seen: StateName) {
    EndsAs(f, [RunStarted, SafetyChecked(seen), PaperStarted, Heartbeat(1), Heartbeat(2), Heartbeat(3), PaperCompleted,
               RunCompleted], Completed, Some(3), Some(Completed))
  }

  /** The heartbeats from one on. */
  function Count(n: nat): seq<RunEvent> {
    seq(n, i requires 0 <= i < n => Heartbeat(i + 1))
  }

  predicate EndsFailed(f: Files, seen: StateName, beats: nat) {
    EndsAs(f, [RunStarted, SafetyChecked(seen), PaperStarted] + Count(beats) + [RunFailed],
           Failed, None, None)
  }

  lemma {:induction false} BeatsInOrder(n: nat)
    ensures Beats(n) == Count(n)
  {
    if n > 0 {
      BeatsInOrder(n - 1);
      assert Count(n) == Count(n - 1) + [Heartbeat(n)];
    }
  }

  lemma EndArtifacts(f: Files, pc: Pc, seen: StateName)
    requires FilesAt(f, pc, seen)
    ensures pc.EndBlocked? ==> seen == Active && EndsBlocked(f)
    ensures pc.EndCompleted? ==> seen != Active && EndsCompleted(f, seen)
    ensures pc.EndFailed? ==> seen != Active && EndsFailed(f, seen, pc.done)
  {
    hide Trace, Beats;
    ThreeBeats();
    if pc.EndFailed? { BeatsInOrder(pc.done); }
    assert Opening(seen) + [PaperStarted] == [RunStarted, SafetyChecked(seen), PaperStarted];
  }
}
