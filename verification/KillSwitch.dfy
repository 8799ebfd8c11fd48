/** The file-based kill switch of safety/kill_switch.py for one run: an append-only event log, an
    optional mirror in the run's journal, and a state file that is written last. */
module KillSwitch {
  import opened Decimals
  import Text

  // ---------------------------------------------------------------- records

  datatype StateName = Active | Cleared | Absent

  datatype KillEvent = KillEvent(eventId: string, ts: string, activates: bool, reason: string, actor: string,
                                 previousState: StateName)
  {
    function NewState(): StateName {
      if activates then Active else Cleared
    }
  }

  /** Events the paper lifecycle writes to the same journal. */
  datatype RunEvent =
    | RunStarted | SafetyChecked(seen: StateName) | SafetyBlocked | PaperStarted | Heartbeat(index: nat)
    | PaperCompleted | RunCompleted | RunFailed

  datatype JournalEntry = KillEntry(kill: KillEvent) | RunEntry(run: RunEvent)

  /** The journal path: nothing there, something that is not a file, or its lines. */
  datatype JournalFile = NoJournal | NotAFile | Lines(entries: seq<JournalEntry>)

  datatype KillSwitchState = KillSwitchState(state: StateName, updatedAt: string, lastEventId: string,
                                             lastReason: string, lastActor: string,
                                             activeSince: Option<string>, clearedAt: Option<string>)

  // ---------------------------------------------------------------- the state file

  datatype Key =
    | SchemaVersion | RunId | State | UpdatedAt | LastEventId | LastReason | LastActor | ActiveSince | ClearedAt

  datatype Json = Text(s: string) | Null | OtherJson

  /** `Garbage` is anything that is not a JSON object, such as a file whose writing was cut short. */
  datatype StateFile = NoFile | Garbage | Object(payload: map<Key, Json>)

  predicate NonEmptyText(j: Json) {
    j.Text? && j.s != ""
  }

  predicate TextOrNull(j: Json) {
    j.Text? || j.Null?
  }

  function OptionalText(j: Json): Option<string> {
    if j.Text? then Some(j.s) else None
  }

  function ToJson(o: Option<string>): Json {
    if o.Some? then Text(o.value) else Null
  }

  /** `_parse_state_payload`. */
  function ParseState(p: map<Key, Json>): Option<KillSwitchState> {
    if !({SchemaVersion, RunId, State, UpdatedAt, LastEventId, LastReason, LastActor, ActiveSince, ClearedAt} <= p.Keys)
    then None
    else if p[State] != Text("active") && p[State] != Text("cleared") then None
    else if p[SchemaVersion] != Text("v1") then None
    else if !NonEmptyText(p[RunId]) || !NonEmptyText(p[UpdatedAt]) || !NonEmptyText(p[LastEventId])
         || !NonEmptyText(p[LastReason]) || !NonEmptyText(p[LastActor]) then None
    else if !TextOrNull(p[ActiveSince]) || !TextOrNull(p[ClearedAt]) then None
    else
      Some(KillSwitchState(
        if p[State] == Text("active") then Active else Cleared,
        p[UpdatedAt].s, p[LastEventId].s, p[LastReason].s, p[LastActor].s,
        OptionalText(p[ActiveSince]), OptionalText(p[ClearedAt])))
  }

  /** `asdict` of a state, as `_write_state` stores it. */
  function Serialize(s: KillSwitchState, runId: string): map<Key, Json>
    requires s.state != Absent
  {
    map[SchemaVersion := Text("v1"), RunId := Text(runId),
        State := Text(if s.state == Active then "active" else "cleared"),
        UpdatedAt := Text(s.updatedAt), LastEventId := Text(s.lastEventId),
        LastReason := Text(s.lastReason), LastActor := Text(s.lastActor),
        ActiveSince := ToJson(s.activeSince), ClearedAt := ToJson(s.clearedAt)]
  }

  /** What a written state must carry to be read back. */
  predicate Writable(s: KillSwitchState) {
    s.state != Absent && s.updatedAt != "" && s.lastEventId != "" && s.lastReason != "" && s.lastActor != ""
  }

  /** A state file gives back exactly the state written to it. */
  lemma StateRoundTrip(s: KillSwitchState, runId: string)
    requires Writable(s) && runId != ""
    ensures ParseState(Serialize(s, runId)) == Some(s)
  {
  }

  /** `get_kill_switch_status`: absent without a file, an error for a file that cannot be read. */
  datatype Status = Readable(last: Option<KillSwitchState>) | ReadError {
    function Name(): StateName
      requires Readable?
    {
      if last.Some? then last.value.state else Absent
    }
  }

  function GetStatus(f: StateFile): Status {
    match f
    case NoFile => Readable(None)
    case Garbage => ReadError
    case Object(p) => if ParseState(p).Some? then Readable(ParseState(p)) else ReadError
  }

  // ---------------------------------------------------------------- commands and their crashes

  /** Where the process dies, if it does. */
  datatype Fault = NoFault | DiesBeforeAppend | DiesAfterAppend | DiesAfterMirror | TearsStateFile | DiesAfterState

  /** One `kill activate` or `kill clear`. Clock, uuid and environment are given. */
  datatype Command = Command(activates: bool, reason: string, actor: Option<string>, user: string,
                             eventId: string, ts: string, fault: Fault)

  /** The files of one run's switch. */
  datatype World = World(runId: string, events: seq<KillEvent>, journal: JournalFile, file: StateFile)

  datatype Outcome = Done(state: KillSwitchState) | ValidationError | StateReadError | JournalError | Died

  /** `_resolve_actor`. */
  function ResolveActor(actor: Option<string>, user: string): string {
    if actor.Some? && Text.NonBlank(actor.value) then Text.Strip(actor.value)
    else if Text.Strip(user) != "" then Text.Strip(user)
    else "unknown"
  }

  function EventOf(c: Command, previous: StateName): KillEvent {
    KillEvent(c.eventId, c.ts, c.activates, Text.Strip(c.reason), ResolveActor(c.actor, c.user), previous)
  }

  /** The state an event leads to: an activation restarts `active_since`, a clearance keeps it. */
  function After(before: Option<KillSwitchState>, e: KillEvent): KillSwitchState {
    if e.activates then
      KillSwitchState(Active, e.ts, e.eventId, e.reason, e.actor, Some(e.ts), None)
    else
      KillSwitchState(Cleared, e.ts, e.eventId, e.reason, e.actor,
                      if before.Some? then before.value.activeSince else None, Some(e.ts))
  }

  function Mirror(j: JournalFile, e: KillEvent): JournalFile {
    if j.Lines? then Lines(j.entries + [KillEntry(e)]) else j
  }

  /** The log, the journal and the state file after one command, and how the command ended. */
  function Execute(w: World, c: Command): (World, Outcome) {
    if !Text.NonBlank(c.reason) then (w, ValidationError)
    else if GetStatus(w.file).ReadError? then (w, StateReadError)
    else if c.fault.DiesBeforeAppend? then (w, Died)
    else
      var before := GetStatus(w.file);
      var e := EventOf(c, before.Name());
      var logged := w.(events := w.events + [e]);
      if c.fault.DiesAfterAppend? then (logged, Died)
      else if w.journal.NotAFile? then (logged, JournalError)
      else
        var mirrored := logged.(journal := Mirror(w.journal, e));
        var s := After(before.last, e);
        match c.fault
        case DiesAfterMirror => (mirrored, Died)
        case TearsStateFile => (mirrored.(file := Garbage), Died)
        case DiesAfterState => (mirrored.(file := Object(Serialize(s, w.runId))), Died)
        case _ => (mirrored.(file := Object(Serialize(s, w.runId))), Done(s))
  }

  /** The command gets as far as a complete state file. */
  predicate Commits(w: World, c: Command) {
    && Text.NonBlank(c.reason) && GetStatus(w.file).Readable? && !w.journal.NotAFile?
    && (c.fault.NoFault? || c.fault.DiesAfterState?)
  }

  /** The command gets as far as the log. */
  predicate Logs(w: World, c: Command) {
    Text.NonBlank(c.reason) && GetStatus(w.file).Readable? && !c.fault.DiesBeforeAppend?
  }

  /** uuid4 and the clock never give empty text. */
  predicate Stamped(c: Command) {
    c.eventId != "" && c.ts != ""
  }

  // ---------------------------------------------------------------- what a command means

  /** A state file that says this: no file, or a well-formed payload whose state is the text. */
  predicate Says(f: StateFile, s: StateName) {
    match s
    case Absent => f.NoFile?
    case Active => f.Object? && WellFormed(f.payload) && f.payload[State] == Text("active")
    case Cleared => f.Object? && WellFormed(f.payload) && f.payload[State] == Text("cleared")
  }

  /** All nine keys, the version, five texts that are not empty, and two that may be null. */
  predicate WellFormed(p: map<Key, Json>) {
    && (forall k: Key :: k in p)
    && p[SchemaVersion] == Text("v1")
    && p[RunId].Text? && p[UpdatedAt].Text? && p[LastEventId].Text? && p[LastReason].Text? && p[LastActor].Text?
    && Text("") !in {p[RunId], p[UpdatedAt], p[LastEventId], p[LastReason], p[LastActor]}
    && !p[ActiveSince].OtherJson? && !p[ClearedAt].OtherJson?
  }

  predicate CanBeRead(f: StateFile) {
    Says(f, Absent) || Says(f, Active) || Says(f, Cleared)
  }

  /** Reading tells which of the three a file says, and fails on every other file. */
  lemma StatusSaid(f: StateFile)
    ensures GetStatus(f).Readable? <==> CanBeRead(f)
    ensures GetStatus(f).Readable? ==> forall s: StateName :: GetStatus(f).Name() == s <==> Says(f, s)
  {
    if f.Object? {
      PayloadSaid(f.payload);
      if GetStatus(f).Readable? {
        forall s: StateName ensures GetStatus(f).Name() == s <==> Says(f, s) { match s { case _ => } }
      }
    }
  }

  lemma PayloadSaid(p: map<Key, Json>)
    ensures ParseState(p).Some? <==> WellFormed(p) && (p[State] == Text("active") || p[State] == Text("cleared"))
    ensures ParseState(p).Some? ==>
      ParseState(p).value.state == if p[State] == Text("active") then Active else Cleared
    ensures ParseState(p).Some? ==> ToJson(ParseState(p).value.activeSince) == p[ActiveSince]
  {
    if {SchemaVersion, RunId, State, UpdatedAt, LastEventId, LastReason, LastActor, ActiveSince, ClearedAt} <= p.Keys {
      forall k: Key ensures k in p { AllKeys(k); }
    }
  }

  lemma AllKeys(k: Key)
    ensures k in {SchemaVersion, RunId, State, UpdatedAt, LastEventId, LastReason, LastActor, ActiveSince, ClearedAt}
  {
    match k { case _ => }
  }

  /** The event a command stands for: its own id and time, the stripped reason, who gave it, and whether it
      activates. */
  predicate Records(e: KillEvent, c: Command) {
    && e.eventId == c.eventId && e.ts == c.ts && e.activates == c.activates && e.reason == Text.Strip(c.reason)
    && (if c.actor.Some? && Text.NonBlank(c.actor.value) then e.actor == Text.Strip(c.actor.value)
        else if Text.NonBlank(c.user) then e.actor == Text.Strip(c.user)
        else e.actor == "unknown")
  }

  /** The payload a completed command leaves, given the file before it. */
  predicate Shows(f: StateFile, before: StateFile, e: KillEvent, runId: string) {
    && f.Object? && (forall k: Key :: k in f.payload)
    && f.payload[SchemaVersion] == Text("v1") && f.payload[RunId] == Text(runId)
    && f.payload[UpdatedAt] == Text(e.ts) && f.payload[LastEventId] == Text(e.eventId)
    && f.payload[LastReason] == Text(e.reason) && f.payload[LastActor] == Text(e.actor)
    && (if e.activates then
          f.payload[State] == Text("active") && f.payload[ActiveSince] == Text(e.ts) && f.payload[ClearedAt] == Null
        else
          && f.payload[State] == Text("cleared") && f.payload[ClearedAt] == Text(e.ts)
          && f.payload[ActiveSince] ==
             if before.Object? && ActiveSince in before.payload then before.payload[ActiveSince] else Null)
  }

  /** The journal has one line more if it was there, and is not made otherwise. */
  predicate MirrorsTo(before: JournalFile, after: JournalFile, e: KillEvent) {
    if before.Lines? then after == Lines(before.entries + [KillEntry(e)]) else after == before
  }

  /** The log has one event more, that of the command, which knows the state it was given in. */
  predicate Appended(w: World, c: Command, w': World) {
    && w'.runId == w.runId
    && |w'.events| == |w.events| + 1 && w'.events[..|w.events|] == w.events
    && Records(w'.events[|w.events|], c) && Says(w.file, w'.events[|w.events|].previousState)
  }

  /** The relation between the files before and after a completed command. */
  predicate CarriedOut(w: World, c: Command, w': World) {
    && Appended(w, c, w')
    && MirrorsTo(w.journal, w'.journal, w'.events[|w.events|])
    && Shows(w'.file, w.file, w'.events[|w.events|], w.runId)
  }

  /** What is there when the command dies: each of its three writes is there or not, the last one perhaps torn. */
  predicate BrokenOff(w: World, c: Command, w': World) {
    match c.fault
    case NoFault => false
    case DiesBeforeAppend => w' == w
    case DiesAfterAppend => Appended(w, c, w') && w'.journal == w.journal && w'.file == w.file
    case DiesAfterMirror =>
      Appended(w, c, w') && MirrorsTo(w.journal, w'.journal, w'.events[|w.events|]) && w'.file == w.file
    case TearsStateFile =>
      Appended(w, c, w') && MirrorsTo(w.journal, w'.journal, w'.events[|w.events|]) && w'.file == Garbage
    case DiesAfterState => CarriedOut(w, c, w')
  }

  /** How a command ends and what it leaves, said from its arguments and the files before it. */
  predicate Meant(w: World, c: Command, w': World, outcome: Outcome) {
    if !Text.NonBlank(c.reason) then outcome.ValidationError? && w' == w
    else if !CanBeRead(w.file) then outcome.StateReadError? && w' == w
    else
      match outcome
      case Done(s) =>
        && c.fault.NoFault? && !w.journal.NotAFile? && CarriedOut(w, c, w')
        && s.state == (if c.activates then Active else Cleared)
      case Died => BrokenOff(w, c, w')
      case JournalError => w.journal.NotAFile? && Appended(w, c, w') && w'.journal == w.journal && w'.file == w.file
      case _ => false
  }

  lemma StatePayload(before: StateFile, e: KillEvent, runId: string)
    requires GetStatus(before).Readable?
    ensures Shows(Object(Serialize(After(GetStatus(before).last, e), runId)), before, e, runId)
  {
    hide ParseState;
    if before.Object? { PayloadSaid(before.payload); }
    var p := Serialize(After(GetStatus(before).last, e), runId);
    forall k: Key ensures k in p { AllKeys(k); }
  }

  /** Main result on one command. */
  lemma CommandMeant(w: World, c: Command)
    ensures Meant(w, c, Execute(w, c).0, Execute(w, c).1)
  {
    hide ParseState, Serialize, Shows, Says, Records;
    StatusSaid(w.file);
    if Logs(w, c) {
      var e := EventOf(c, GetStatus(w.file).Name());
      ActorResolved(c, GetStatus(w.file).Name());
      StatePayload(w.file, e, w.runId);
      assert (w.events + [e])[..|w.events|] == w.events;
    }
  }

  lemma ActorResolved(c: Command, previous: StateName)
    ensures Records(EventOf(c, previous), c) && EventOf(c, previous).previousState == previous
  {
    hide Text.Strip;
  }

  class Switch {
    const runId: string
    var events: seq<KillEvent>
    var journal: JournalFile
    var file: StateFile

    constructor (w: World)
      ensures Contents() == w
    {
      runId := w.runId;
      events, journal, file := w.events, w.journal, w.file;
    }

    function Contents(): World
      reads this
    {
      World(runId, events, journal, file)
    }

    method AppendEvent(e: KillEvent)
      modifies this`events
      ensures events == old(events) + [e]
    {
      events := events + [e];
    }

    /** `_append_optional_artifact_journal_event`. */
    method AppendOptionalJournalEvent(e: KillEvent) returns (ok: bool)
      modifies this`journal
      ensures ok <==> !old(journal).NotAFile?
      ensures journal == Mirror(old(journal), e)
    {
      if journal.NoJournal? {
        return true;
      }
      if journal.NotAFile? {
        return false;
      }
      journal := Lines(journal.entries + [KillEntry(e)]);
      ok := true;
    }

    method WriteState(s: KillSwitchState)
      requires s.state != Absent
      modifies this`file
      ensures file == Object(Serialize(s, runId))
    {
      file := Object(Serialize(s, runId));
    }

    /** `activate_kill_switch`. */
    method Activate(c: Command) returns (outcome: Outcome)
      requires c.activates
      modifies this
      ensures (Contents(), outcome) == Execute(old(Contents()), c)
      ensures Meant(old(Contents()), c, Contents(), outcome)
      ensures outcome.Done? ==>
        && events[|events| - 1].activates && file.payload[State] == Text("active")
        && file.payload[ActiveSince] == Text(c.ts) && file.payload[ClearedAt] == Null
    {
      CommandMeant(Contents(), c);
      if !Text.NonBlank(c.reason) {
        return ValidationError;
      }
      var reason := Text.Strip(c.reason);
      var actor := ResolveActor(c.actor, c.user);
      var status := GetStatus(file);
      if status.ReadError? {
        return StateReadError;
      }
      var event := KillEvent(c.eventId, c.ts, true, reason, actor, status.Name());
      if c.fault.DiesBeforeAppend? { return Died; }
      AppendEvent(event);
      if c.fault.DiesAfterAppend? { return Died; }
      var mirrored := AppendOptionalJournalEvent(event);
      if !mirrored {
        return JournalError;
      }
      if c.fault.DiesAfterMirror? { return Died; }
      if c.fault.TearsStateFile? {
        file := Garbage;
        return Died;
      }
      var state := KillSwitchState(Active, c.ts, event.eventId, reason, actor, Some(c.ts), None);
      WriteState(state);
      if c.fault.DiesAfterState? { return Died; }
      outcome := Done(state);
    }

    /** `clear_kill_switch`. */
    method Clear(c: Command) returns (outcome: Outcome)
      requires !c.activates
      modifies this
      ensures (Contents(), outcome) == Execute(old(Contents()), c)
      ensures Meant(old(Contents()), c, Contents(), outcome)
      ensures outcome.Done? ==>
        && !events[|events| - 1].activates && file.payload[State] == Text("cleared")
        && file.payload[ClearedAt] == Text(c.ts)
        && file.payload[ActiveSince] == if old(file).Object? then old(file).payload[ActiveSince] else Null
    {
      CommandMeant(Contents(), c);
      if !Text.NonBlank(c.reason) {
        return ValidationError;
      }
      var reason := Text.Strip(c.reason);
      var actor := ResolveActor(c.actor, c.user);
      var status := GetStatus(file);
      if status.ReadError? {
        return StateReadError;
      }
      var event := KillEvent(c.eventId, c.ts, false, reason, actor, status.Name());
      if c.fault.DiesBeforeAppend? { return Died; }
      AppendEvent(event);
      if c.fault.DiesAfterAppend? { return Died; }
      var mirrored := AppendOptionalJournalEvent(event);
      if !mirrored {
        return JournalError;
      }
      if c.fault.DiesAfterMirror? { return Died; }
      if c.fault.TearsStateFile? {
        file := Garbage;
        return Died;
      }
      var since := if status.last.Some? then status.last.value.activeSince else None;
      var state := KillSwitchState(Cleared, c.ts, event.eventId, reason, actor, since, Some(c.ts));
      WriteState(state);
      if c.fault.DiesAfterState? { return Died; }
      outcome := Done(state);
    }
  }

  // ---------------------------------------------------------------- every run of commands and crashes

  /** A world together with a note, per logged event, whether its command also completed the state file. */
  datatype Audit = Audit(world: World, committed: seq<bool>)

  /** What may happen to one run's files: a command, or another writer's journal line. */
  datatype Action = Run(command: Command) | JournalLine(event: RunEvent)

  function AppendRunEvent(j: JournalFile, e: RunEvent): JournalFile {
    match j
    case NoJournal => Lines([RunEntry(e)])
    case NotAFile => j
    case Lines(entries) => Lines(entries + [RunEntry(e)])
  }

  function Next(a: Audit, action: Action): Audit {
    match action
    case JournalLine(e) => a.(world := a.world.(journal := AppendRunEvent(a.world.journal, e)))
    case Run(c) =>
      Audit(Execute(a.world, c).0, if Logs(a.world, c) then a.committed + [Commits(a.world, c)] else a.committed)
  }

  function RunAll(a: Audit, actions: seq<Action>): Audit {
    if actions == [] then a else Next(RunAll(a, actions[..|actions| - 1]), actions[|actions| - 1])
  }

  /** The events whose commands committed. */
  function Committed(events: seq<KillEvent>, committed: seq<bool>): seq<KillEvent>
    requires |events| == |committed|
  {
    if events == [] then []
    else
      Committed(events[..|events| - 1], committed[..|events| - 1])
      + (if committed[|events| - 1] then [events[|events| - 1]] else [])
  }

  /** The state a log of events stands for. */
  function Replay(events: seq<KillEvent>): Option<KillSwitchState> {
    if events == [] then None
    else Some(After(Replay(events[..|events| - 1]), events[|events| - 1]))
  }

  /** `a` is obtained from `b` by leaving events out. */
  predicate Subsequence(a: seq<KillEvent>, b: seq<KillEvent>) {
    a == [] || (b != [] && (
      || (a[|a| - 1] == b[|b| - 1] && Subsequence(a[..|a| - 1], b[..|b| - 1]))
      || Subsequence(a, b[..|b| - 1])))
  }

  /** The kill events a journal holds. */
  function Mirrored(entries: seq<JournalEntry>): seq<KillEvent> {
    if entries == [] then []
    else
      var last := entries[|entries| - 1];
      Mirrored(entries[..|entries| - 1]) + (if last.KillEntry? then [last.kill] else [])
  }

  function MirroredIn(j: JournalFile): seq<KillEvent> {
    if j.Lines? then Mirrored(j.entries) else []
  }

  function NewStateOf(events: seq<KillEvent>): StateName {
    if events == [] then Absent else events[|events| - 1].NewState()
  }

  /** Every event's previous state is where the last event committed before it had led. */
  ghost predicate Chained(events: seq<KillEvent>, committed: seq<bool>)
    requires |events| == |committed|
  {
    forall i :: 0 <= i < |events| ==> events[i].previousState == NewStateOf(Committed(events[..i], committed[..i]))
  }

  ghost predicate Invariant(a: Audit) {
    && a.world.runId != ""
    && |a.committed| == |a.world.events|
    && Chained(a.world.events, a.committed)
    && Subsequence(MirroredIn(a.world.journal), a.world.events)
    && (GetStatus(a.world.file).Readable? ==>
          GetStatus(a.world.file).last == Replay(Committed(a.world.events, a.committed)))
    && (forall e <- a.world.events :: e.ts != "" && e.eventId != "" && e.reason != "" && e.actor != "")
  }

  /** A switch nobody has used: no log, no state file, a journal without kill events. */
  predicate Unused(w: World) {
    w.runId != "" && w.events == [] && w.file == NoFile && MirroredIn(w.journal) == []
  }

  lemma CommittedSnoc(events: seq<KillEvent>, committed: seq<bool>, e: KillEvent, b: bool)
    requires |events| == |committed|
    ensures Committed(events + [e], committed + [b]) == Committed(events, committed) + (if b then [e] else [])
  {
    var es, bs := events + [e], committed + [b];
    assert es[..|es| - 1] == events && bs[..|bs| - 1] == committed;
  }

  lemma {:induction false} CommittedFrom(events: seq<KillEvent>, committed: seq<bool>)
    requires |events| == |committed|
    ensures forall e <- Committed(events, committed) :: e in events
    ensures Subsequence(Committed(events, committed), events)
  {
    if events != [] {
      var n := |events| - 1;
      CommittedFrom(events[..n], committed[..n]);
      var c := Committed(events[..n], committed[..n]);
      if committed[n] {
        assert (c + [events[n]])[..|c|] == c;
      } else {
        assert c + [] == c;
      }
    }
  }

  lemma SubsequenceSnoc(a: seq<KillEvent>, b: seq<KillEvent>, e: KillEvent)
    requires Subsequence(a, b)
    ensures Subsequence(a, b + [e]) && Subsequence(a + [e], b + [e])
  {
    assert (b + [e])[..|b|] == b && (a + [e])[..|a|] == a;
  }

  lemma ReplaySnoc(events: seq<KillEvent>, e: KillEvent)
    ensures Replay(events + [e]) == Some(After(Replay(events), e))
  {
    assert (events + [e])[..|events|] == events;
  }

  lemma ReplayWritable(events: seq<KillEvent>)
    requires forall e <- events :: e.ts != "" && e.eventId != "" && e.reason != "" && e.actor != ""
    ensures events != [] ==> Replay(events).Some? && Writable(Replay(events).value)
    ensures (if Replay(events).Some? then Replay(events).value.state else Absent) == NewStateOf(events)
  {
    if events != [] {
      assert events[|events| - 1] in events;
    }
  }

  lemma MirrorSnoc(j: JournalFile, entry: JournalEntry)
    ensures j.Lines? ==>
      MirroredIn(Lines(j.entries + [entry])) == MirroredIn(j) + (if entry.KillEntry? then [entry.kill] else [])
  {
    if j.Lines? {
      assert (j.entries + [entry])[..|j.entries|] == j.entries;
    }
  }

  lemma ChainedSnoc(events: seq<KillEvent>, committed: seq<bool>, e: KillEvent, b: bool)
    requires |events| == |committed| && Chained(events, committed)
    requires e.previousState == NewStateOf(Committed(events, committed))
    ensures Chained(events + [e], committed + [b])
  {
    hide Committed, NewStateOf;
    var es, bs := events + [e], committed + [b];
    forall i | 0 <= i < |es| ensures es[i].previousState == NewStateOf(Committed(es[..i], bs[..i])) {
      if i < |events| {
        assert es[..i] == events[..i] && bs[..i] == committed[..i];
      } else {
        assert es[..i] == events && bs[..i] == committed;
      }
    }
  }

  /** What a command that reaches the log leaves behind, by how far it got. */
  lemma LoggedShape(w: World, c: Command)
    requires Logs(w, c)
    ensures var w', before := Execute(w, c).0, GetStatus(w.file);
      var e := EventOf(c, before.Name());
      && w'.runId == w.runId && w'.events == w.events + [e]
      && (w'.journal == w.journal || (w.journal.Lines? && w'.journal == Lines(w.journal.entries + [KillEntry(e)])))
      && (if Commits(w, c) then w'.file == Object(Serialize(After(before.last, e), w.runId))
          else w'.file == w.file || w'.file == Garbage)
  {
  }

  /** A command that reaches the log, seen as one step of the audit. */
  lemma LoggedStep(a: Audit, c: Command)
    requires Invariant(a) && Stamped(c) && Logs(a.world, c)
    ensures Invariant(Next(a, Run(c)))
  {
    hide Committed, Replay, ParseState, Chained, Subsequence, Text.NonBlank, Text.Strip, ResolveActor, Execute, Commits,
      Serialize, After;
    var w, before := a.world, GetStatus(a.world.file);
    var done := Committed(w.events, a.committed);
    var e, b := EventOf(c, before.Name()), Commits(w, c);
    LoggedShape(w, c);
    CommittedFrom(w.events, a.committed);
    ReplayWritable(done);
    ChainedSnoc(w.events, a.committed, e, b);
    CommittedSnoc(w.events, a.committed, e, b);
    SubsequenceSnoc(MirroredIn(w.journal), w.events, e);
    MirrorSnoc(w.journal, KillEntry(e));
    StampedEvent(c, before.Name());
    if b {
      ReplaySnoc(done, e);
      AfterWritable(before.last, e);
      StateRoundTrip(After(before.last, e), w.runId);
    } else {
      assert done + [] == done;
    }
  }

  lemma AfterWritable(before: Option<KillSwitchState>, e: KillEvent)
    requires e.ts != "" && e.eventId != "" && e.reason != "" && e.actor != ""
    ensures Writable(After(before, e))
  {
  }

  lemma StampedEvent(c: Command, previous: StateName)
    requires Stamped(c) && Text.NonBlank(c.reason)
    ensures var e := EventOf(c, previous); e.ts != "" && e.eventId != "" && e.reason != "" && e.actor != ""
  {
  }

  lemma StepKeeps(a: Audit, action: Action)
    requires Invariant(a) && (action.Run? ==> Stamped(action.command))
    ensures Invariant(Next(a, action))
  {
    hide Committed, Replay, ParseState, Chained, Subsequence;
    if action.JournalLine? {
      JournalLineKeeps(a.world.journal, action.event);
    } else if Logs(a.world, action.command) {
      LoggedStep(a, action.command);
    }
  }

  /** Main theorem: whatever commands run, whatever kills them, whoever else writes the journal. */
  lemma {:induction false} EveryRun(w: World, actions: seq<Action>)
    requires Unused(w)
    requires forall x <- actions :: x.Run? ==> Stamped(x.command)
    ensures Invariant(RunAll(Audit(w, []), actions))
    decreases |actions|
  {
    hide Next, Invariant;
    if actions == [] {
      assert Invariant(Audit(w, [])) by { UnusedInvariant(w); }
    } else {
      var n := |actions| - 1;
      EveryRun(w, actions[..n]);
      assert actions[n] in actions;
      StepKeeps(RunAll(Audit(w, []), actions[..n]), actions[n]);
    }
  }

  lemma UnusedInvariant(w: World)
    requires Unused(w)
    ensures Invariant(Audit(w, []))
  {
  }

  lemma NextGrows(a: Audit, action: Action)
    ensures a.world.events <= Next(a, action).world.events
  {
  }

  /** The log only grows. */
  lemma {:induction false} LogGrows(a: Audit, before: seq<Action>, after: seq<Action>)
    ensures RunAll(a, before).world.events <= RunAll(a, before + after).world.events
    decreases |after|
  {
    hide Execute, Commits;
    if after == [] {
      assert before + after == before;
    } else {
      var n := |after| - 1;
      NextGrows(RunAll(a, before + after[..n]), after[n]);
      LogGrows(a, before, after[..n]);
      var all := before + after;
      assert all[..|all| - 1] == before + after[..n] && all[|all| - 1] == after[n];
    }
  }

  // ---------------------------------------------------------------- what the invariant means

  /** The last activation among some events. */
  function LastActivation(events: seq<KillEvent>): Option<string> {
    if events == [] then None
    else if events[|events| - 1].activates then Some(events[|events| - 1].ts)
    else LastActivation(events[..|events| - 1])
  }

  /** A replayed state, said without replaying: who, when and why come from the last event,
      `active_since` from the last activation, and `cleared_at` is set exactly when cleared. */
  lemma {:induction false} ReplayMeaning(events: seq<KillEvent>)
    requires events != []
    ensures Replay(events).Some?
    ensures var s, last := Replay(events).value, events[|events| - 1];
      && s.state == last.NewState() && s.updatedAt == last.ts && s.lastEventId == last.eventId
      && s.lastReason == last.reason && s.lastActor == last.actor
      && s.activeSince == LastActivation(events)
      && s.clearedAt == (if s.state == Cleared then Some(last.ts) else None)
  {
    if |events| > 1 {
      ReplayMeaning(events[..|events| - 1]);
    }
  }

  /** What a completed command returned is what the next reader of the state file sees. */
  lemma ReturnedIsRead(w: World, c: Command)
    requires w.runId != "" && Stamped(c) && Execute(w, c).1.Done?
    ensures GetStatus(Execute(w, c).0.file) == Readable(Some(Execute(w, c).1.state))
  {
    var before := GetStatus(w.file);
    StampedEvent(c, before.Name());
    AfterWritable(before.last, EventOf(c, before.Name()));
    StateRoundTrip(Execute(w, c).1.state, w.runId);
  }

  predicate CrashFree(actions: seq<Action>) {
    forall x <- actions :: x.Run? ==> x.command.fault.NoFault?
  }

  ghost predicate AllCommitted(a: Audit) {
    && Invariant(a) && !a.world.journal.NotAFile? && GetStatus(a.world.file).Readable?
    && (forall i :: 0 <= i < |a.committed| ==> a.committed[i])
  }

  lemma CrashFreeStep(a: Audit, action: Action)
    requires AllCommitted(a)
    requires action.Run? ==> Stamped(action.command) && action.command.fault.NoFault?
    ensures AllCommitted(Next(a, action))
  {
    hide Invariant, Execute, ParseState, Serialize, After, Text.NonBlank;
    StepKeeps(a, action);
    if action.Run? {
      var w, c := a.world, action.command;
      if Logs(w, c) {
        LoggedShape(w, c);
        var e := EventOf(c, GetStatus(w.file).Name());
        StampedEvent(c, GetStatus(w.file).Name());
        AfterWritable(GetStatus(w.file).last, e);
        assert w.runId != "" by { RunIdKept(a); }
        StateRoundTrip(After(GetStatus(w.file).last, e), w.runId);
      } else {
        BlankReason(w, c);
      }
    }
  }

  lemma RunIdKept(a: Audit)
    requires Invariant(a)
    ensures a.world.runId != ""
  {
  }

  lemma BlankReason(w: World, c: Command)
    requires !Logs(w, c)
    ensures Execute(w, c).0 == w
  {
  }

  lemma {:induction false} CrashFreeRun(w: World, actions: seq<Action>)
    requires Unused(w) && !w.journal.NotAFile? && CrashFree(actions)
    requires forall x <- actions :: x.Run? ==> Stamped(x.command)
    ensures AllCommitted(RunAll(Audit(w, []), actions))
    decreases |actions|
  {
    hide Next, Invariant;
    if actions == [] {
      UnusedInvariant(w);
    } else {
      var n := |actions| - 1;
      CrashFreeRun(w, actions[..n]);
      assert actions[n] in actions;
      CrashFreeStep(RunAll(Audit(w, []), actions[..n]), actions[n]);
    }
  }

  lemma {:induction false} AllOfThem(events: seq<KillEvent>, committed: seq<bool>)
    requires |events| == |committed| && forall i :: 0 <= i < |committed| ==> committed[i]
    ensures Committed(events, committed) == events
  {
    if events != [] {
      AllOfThem(events[..|events| - 1], committed[..|events| - 1]);
    }
  }

  /** Without crashes the state file is a replay of the whole log, and each event starts where its
      predecessor ended. */
  lemma CrashFreeRefinement(w: World, actions: seq<Action>)
    requires Unused(w) && !w.journal.NotAFile? && CrashFree(actions)
    requires forall x <- actions :: x.Run? ==> Stamped(x.command)
    ensures var after := RunAll(Audit(w, []), actions).world;
      && GetStatus(after.file) == Readable(Replay(after.events))
      && (forall i :: 0 <= i < |after.events| ==>
            after.events[i].previousState == if i == 0 then Absent else after.events[i - 1].NewState())
  {
    hide Next, Replay;
    CrashFreeRun(w, actions);
    var a := RunAll(Audit(w, []), actions);
    AllOfThem(a.world.events, a.committed);
    assert Chained(a.world.events, a.committed);
    hide Invariant, Committed;
    forall i | 0 <= i < |a.world.events|
      ensures a.world.events[i].previousState == if i == 0 then Absent else a.world.events[i - 1].NewState()
    {
      AllOfThem(a.world.events[..i], a.committed[..i]);
    }
  }

  /** The commands with a reason, in their order. */
  function Reasoned(actions: seq<Action>): seq<Command> {
    if actions == [] then []
    else
      var last := actions[|actions| - 1];
      Reasoned(actions[..|actions| - 1])
      + (if last.Run? && Text.NonBlank(last.command.reason) then [last.command] else [])
  }

  /** Without crashes the log is the list of the commands that gave a reason, each with its own event. */
  lemma {:induction false} LogIsCommands(w: World, actions: seq<Action>)
    requires Unused(w) && !w.journal.NotAFile? && CrashFree(actions)
    requires forall x <- actions :: x.Run? ==> Stamped(x.command)
    ensures var events, given := RunAll(Audit(w, []), actions).world.events, Reasoned(actions);
      |events| == |given| && forall i :: 0 <= i < |events| ==> Records(events[i], given[i])
    decreases |actions|
  {
    hide Execute, Records, Invariant, Text.NonBlank;
    if actions != [] {
      var n := |actions| - 1;
      var a := RunAll(Audit(w, []), actions[..n]);
      LogIsCommands(w, actions[..n]);
      CrashFreeRun(w, actions[..n]);
      assert actions[n] in actions;
      if actions[n].Run? {
        var c := actions[n].command;
        CommandMeant(a.world, c);
        StatusSaid(a.world.file);
        if Text.NonBlank(c.reason) {
          var after := Execute(a.world, c).0.events;
          assert after == after[..|a.world.events|] + [after[|a.world.events|]];
        }
      }
    }
  }

  lemma JournalLineKeeps(j: JournalFile, e: RunEvent)
    ensures MirroredIn(AppendRunEvent(j, e)) == MirroredIn(j)
  {
    MirrorSnoc(j, RunEntry(e));
    assert MirroredIn(j) + [] == MirroredIn(j);
    MirrorSnoc(Lines([]), RunEntry(e));
    assert [] + [RunEntry(e)] == [RunEntry(e)];
  }

  ghost predicate SameSwitch(a: Audit, b: Audit) {
    && b.world.events == a.world.events && b.world.file == a.world.file && b.committed == a.committed
    && MirroredIn(b.world.journal) == MirroredIn(a.world.journal)
  }

  /** An unreadable state file fails closed: no command writes anything any more. */
  lemma {:induction false} UnreadableForever(a: Audit, actions: seq<Action>)
    requires GetStatus(a.world.file).ReadError?
    ensures SameSwitch(a, RunAll(a, actions))
    decreases |actions|
  {
    hide MirroredIn, ParseState;
    if actions != [] {
      var n := |actions| - 1;
      UnreadableForever(a, actions[..n]);
      if actions[n].JournalLine? {
        JournalLineKeeps(RunAll(a, actions[..n]).world.journal, actions[n].event);
      }
    }
  }
}
