/** `run_paper_lifecycle` statement by statement on mutable files, proved to be a run of the step
    machine of PaperLifecycle. Other processes' kill commands run between any two statements. */
module PaperRun {
  import opened Decimals
  import opened KillSwitch
  import opened PaperLifecycle

  datatype Result = SwitchUnreadable | ArtifactsExist | BlockedBySwitch | HeartbeatError | RunFinished

  datatype Snapshot = Patched | NotThere | SnapshotError

  /** The commands other processes run just before the n-th statement. */
  type Schedule = nat -> seq<Command>

  ghost predicate AllStamped(env: Schedule) {
    forall n, i :: 0 <= i < |env(n)| ==> Stamped(env(n)[i])
  }

  /** Which statements write metadata, metrics and report, and what. */
  function StatusWritten(pc: Pc): Option<RunStatus> {
    match pc
    case WriteRunning => Some(Running)
    case WriteBlocked => Some(Blocked)
    case WriteFailed(_) => Some(Failed)
    case WriteCompleted => Some(Completed)
    case _ => None
  }

  function CountWritten(pc: Pc): Option<nat> {
    match pc
    case WriteBlockedMetrics => Some(0)
    case WriteMetrics => Some(HEARTBEATS)
    case _ => None
  }

  function ReportWritten(pc: Pc): Option<RunStatus> {
    match pc
    case WriteBlockedReport => Some(Blocked)
    case WriteReport => Some(Completed)
    case _ => None
  }

  ghost function Then(start: System, trace: seq<PaperLifecycle.Action>, a: PaperLifecycle.Action)
    : (r: seq<PaperLifecycle.Action>)
    ensures RunSystem(start, r) == PaperLifecycle.Next(RunSystem(start, trace), a)
  {
    assert (trace + [a])[..|trace|] == trace;
    trace + [a]
  }

  class Workspace {
    const kill: Switch
    var dir: bool
    var metadata: MetadataFile
    var heartbeatCount: Option<nat>
    var report: Option<RunStatus>

    constructor (kill: Switch)
      ensures this.kill == kill && Contents() == Files(kill.Contents(), false, NoMetadata, None, None)
    {
      this.kill := kill;
      dir, metadata, heartbeatCount, report := false, NoMetadata, None, None;
    }

    function Contents(): Files
      reads this, kill
    {
      Files(kill.Contents(), dir, metadata, heartbeatCount, report)
    }

    /** `append_journal_event`. */
    method AppendJournalEvent(e: RunEvent)
      modifies kill
      ensures Contents() == Log(old(Contents()), e)
    {
      kill.journal := match kill.journal
        case NoJournal => Lines([RunEntry(e)])
        case NotAFile => kill.journal
        case Lines(entries) => Lines(entries + [RunEntry(e)]);
    }

    /** `update_artifact_metadata_safety_snapshot`: patch `safety`, keep the rest. Without metadata nothing
        is done; unusable metadata and an unreadable switch are errors that leave everything as it is. */
    method UpdateSafetySnapshot() returns (outcome: Snapshot)
      modifies this`metadata
      ensures outcome == (if !dir || old(metadata).NoMetadata? then NotThere
        else if old(metadata).Unusable? || GetStatus(kill.file).ReadError? then SnapshotError
        else Patched)
      ensures metadata == (if outcome.Patched?
        then Usable(Metadata(old(metadata).value.status, Safety(GetStatus(kill.file).Name(), None)))
        else old(metadata))
      ensures outcome.Patched? ==> Says(kill.file, metadata.value.safety.state)
      ensures outcome.SnapshotError? ==> old(metadata).Unusable? || !CanBeRead(kill.file)
    {
      StatusSaid(kill.file);
      if !dir {
        return NotThere;
      }
      if metadata.NoMetadata? {
        return NotThere;
      }
      if metadata.Unusable? {
        return SnapshotError;
      }
      var status := GetStatus(kill.file);
      if status.ReadError? {
        return SnapshotError;
      }
      metadata := Usable(metadata.value.(safety := Safety(status.Name(), None)));
      outcome := Patched;
    }

    /** `tc kill activate` and `tc kill clear`. */
    method RunKillCommand(c: Command)
      requires kill.runId != "" && Stamped(c)
      modifies this`metadata, kill
      ensures Contents() == KillCommand(old(Contents()), c)
    {
      hide Execute, GetStatus;
      ghost var before := kill.Contents();
      var outcome;
      if c.activates {
        outcome := kill.Activate(c);
      } else {
        outcome := kill.Clear(c);
      }
      if outcome.Done? {
        ReturnedIsRead(before, c);
        assert kill.Contents().file == kill.file;
        var _ := UpdateSafetySnapshot();
      }
    }

    /** The process that made the directory is about to execute `pc`. */
    ghost predicate At(start: System, trace: seq<PaperLifecycle.Action>, pc: Pc, seen: StateName)
      reads this, kill
    {
      kill.runId != "" && RunSystem(start, trace) == System(Contents(), [], Alive(pc, seen))
    }

    /** A run id's first run leaves a complete trace. */
    lemma CompleteTrace(start: System, trace: seq<PaperLifecycle.Action>, pc: Pc, seen: StateName)
      requires At(start, trace, pc, seen) && pc.Ended()
      ensures RunSystem(start, trace) == System(Contents(), [], Alive(pc, seen))
      ensures FreshRun(start) ==> FilesAt(Contents(), pc, seen) && Legal(Trace(Contents()), seen)
    {
      if FreshRun(start) {
        PaperLifecycle.EveryRun(start, trace);
        TraceIsPrefix(pc, seen);
      }
    }

    method Interfere(commands: seq<Command>, ghost start: System, ghost trace0: seq<PaperLifecycle.Action>)
      returns (ghost trace: seq<PaperLifecycle.Action>)
      requires kill.runId != "" && forall i :: 0 <= i < |commands| ==> Stamped(commands[i])
      requires RunSystem(start, trace0).files == Contents()
      modifies this`metadata, kill
      ensures RunSystem(start, trace) == RunSystem(start, trace0).(files := Contents())
    {
      hide KillCommand;
      trace := trace0;
      for n := 0 to |commands|
        invariant RunSystem(start, trace) == RunSystem(start, trace0).(files := Contents())
      {
        RunKillCommand(commands[n]);
        trace := Then(start, trace, Kill(commands[n]));
      }
    }

    method LogStep(e: RunEvent, commands: seq<Command>, ghost start: System, ghost trace0: seq<PaperLifecycle.Action>,
                   ghost pc: Pc, ghost seen: StateName)
      returns (ghost trace: seq<PaperLifecycle.Action>)
      requires At(start, trace0, pc, seen) && EventAt(pc, seen) == [e]
      requires forall i :: 0 <= i < |commands| ==> Stamped(commands[i])
      modifies this`metadata, kill
      ensures At(start, trace, NextPc(pc, seen), seen)
    {
      trace := Interfere(commands, start, trace0);
      AppendJournalEvent(e);
      trace := Then(start, trace, Step);
    }

    method MetadataStep(status: RunStatus, commands: seq<Command>, seen: StateName, ghost start: System,
                        ghost trace0: seq<PaperLifecycle.Action>, ghost pc: Pc)
      returns (ghost trace: seq<PaperLifecycle.Action>)
      requires At(start, trace0, pc, seen)
      requires StatusWritten(pc) == Some(status)
      requires forall i :: 0 <= i < |commands| ==> Stamped(commands[i])
      modifies this`metadata, kill
      ensures At(start, trace, NextPc(pc, seen), seen)
    {
      trace := Interfere(commands, start, trace0);
      metadata := Usable(Metadata(status, Safety(seen, Some(OutcomeFor(seen)))));
      trace := Then(start, trace, Step);
    }

    method MetricsStep(count: nat, commands: seq<Command>, ghost start: System,
                       ghost trace0: seq<PaperLifecycle.Action>,
                       ghost pc: Pc, ghost seen: StateName)
      returns (ghost trace: seq<PaperLifecycle.Action>)
      requires At(start, trace0, pc, seen)
      requires CountWritten(pc) == Some(count)
      requires forall i :: 0 <= i < |commands| ==> Stamped(commands[i])
      modifies this, kill
      ensures At(start, trace, NextPc(pc, seen), seen)
    {
      trace := Interfere(commands, start, trace0);
      heartbeatCount := Some(count);
      trace := Then(start, trace, Step);
    }

    method ReportStep(status: RunStatus, commands: seq<Command>, ghost start: System,
                      ghost trace0: seq<PaperLifecycle.Action>, ghost pc: Pc, ghost seen: StateName)
      returns (ghost trace: seq<PaperLifecycle.Action>)
      requires At(start, trace0, pc, seen)
      requires ReportWritten(pc) == Some(status)
      requires forall i :: 0 <= i < |commands| ==> Stamped(commands[i])
      modifies this, kill
      ensures At(start, trace, NextPc(pc, seen), seen)
    {
      trace := Interfere(commands, start, trace0);
      report := Some(status);
      trace := Then(start, trace, Step);
    }

    method WriteBlockedResults(env: Schedule, ghost start: System, ghost trace0: seq<PaperLifecycle.Action>,
                               ghost seen: StateName)
      returns (ghost trace: seq<PaperLifecycle.Action>)
      requires At(start, trace0, WriteBlockedMetrics, seen) && AllStamped(env)
      modifies this, kill
      ensures At(start, trace, EndBlocked, seen)
    {
      hide RunSystem, At;
      trace := MetricsStep(0, env(8), start, trace0, WriteBlockedMetrics, seen);
      trace := ReportStep(Blocked, env(9), start, trace, WriteBlockedReport, seen);
    }


    method RunBlocked(env: Schedule, seen: StateName, ghost start: System, ghost trace0: seq<PaperLifecycle.Action>)
      returns (ghost trace: seq<PaperLifecycle.Action>)
      requires At(start, trace0, WriteBlocked, seen) && AllStamped(env)
      modifies this, kill
      ensures At(start, trace, EndBlocked, seen)
    {
      hide RunSystem, At;
      trace := MetadataStep(Blocked, env(5), seen, start, trace0, WriteBlocked);
      trace := LogStep(SafetyBlocked, env(6), start, trace, LogBlocked, seen);
      trace := LogStep(RunCompleted, env(7), start, trace, LogBlockedEnd, seen);
      trace := WriteBlockedResults(env, start, trace, seen);
    }

    /** `_append_synthetic_heartbeat_events`; `failing` is the beat that raises and whether its line got out. */
    method AppendHeartbeats(env: Schedule, failing: Option<(nat, bool)>, ghost start: System,
                            ghost trace0: seq<PaperLifecycle.Action>, ghost seen: StateName)
      returns (ok: bool, ghost beats: nat, ghost trace: seq<PaperLifecycle.Action>)
      requires At(start, trace0, Beat(0), seen) && AllStamped(env)
      modifies this`metadata, kill
      ensures ok ==> At(start, trace, LogPaperCompleted, seen)
      ensures !ok ==> At(start, trace, WriteFailed(beats), seen)
    {
      hide RunSystem;
      trace, beats := trace0, 0;
      for index := 1 to HEARTBEATS + 1
        invariant At(start, trace, if index <= HEARTBEATS then Beat(index - 1) else LogPaperCompleted, seen)
      {
        if failing.Some? && failing.value.0 == index {
          trace := Interfere(env(5 + index), start, trace);
          if failing.value.1 {
            AppendJournalEvent(Heartbeat(index));
            beats := index;
          } else {
            beats := index - 1;
          }
          trace := Then(start, trace, BeatFails(failing.value.1));
          return false, beats, trace;
        }
        trace := LogStep(Heartbeat(index), env(5 + index), start, trace, Beat(index - 1), seen);
      }
      ok := true;
    }

    /** The exception branch. */
    method FailPaper(env: Schedule, seen: StateName, ghost start: System, ghost trace0: seq<PaperLifecycle.Action>,
                     ghost beats: nat)
      returns (ghost trace: seq<PaperLifecycle.Action>)
      requires At(start, trace0, WriteFailed(beats), seen) && AllStamped(env)
      modifies this, kill
      ensures At(start, trace, EndFailed(beats), seen)
    {
      hide RunSystem, At;
      trace := MetadataStep(Failed, env(9), seen, start, trace0, WriteFailed(beats));
      trace := LogStep(RunFailed, env(10), start, trace, LogFailed(beats), seen);
    }

    method WriteResults(env: Schedule, ghost start: System, ghost trace0: seq<PaperLifecycle.Action>,
                        ghost seen: StateName)
      returns (ghost trace: seq<PaperLifecycle.Action>)
      requires At(start, trace0, WriteMetrics, seen) && AllStamped(env)
      modifies this, kill
      ensures At(start, trace, WriteCompleted, seen)
    {
      hide RunSystem, At;
      trace := MetricsStep(HEARTBEATS, env(10), start, trace0, WriteMetrics, seen);
      trace := ReportStep(Completed, env(11), start, trace, WriteReport, seen);
    }

    method FinishPaper(env: Schedule, seen: StateName, ghost start: System, ghost trace0: seq<PaperLifecycle.Action>)
      returns (ghost trace: seq<PaperLifecycle.Action>)
      requires At(start, trace0, LogPaperCompleted, seen) && AllStamped(env)
      modifies this, kill
      ensures At(start, trace, EndCompleted, seen)
    {
      hide RunSystem, At;
      trace := LogStep(PaperCompleted, env(9), start, trace0, LogPaperCompleted, seen);
      trace := WriteResults(env, start, trace, seen);
      trace := MetadataStep(Completed, env(12), seen, start, trace, WriteCompleted);
      trace := LogStep(RunCompleted, env(13), start, trace, LogCompleted, seen);
    }

    /** From the fresh directory to the safety decision. */
    method StartPaper(env: Schedule, seen: StateName, ghost start: System, ghost trace0: seq<PaperLifecycle.Action>)
      returns (ghost trace: seq<PaperLifecycle.Action>)
      requires At(start, trace0, WriteRunning, seen) && AllStamped(env)
      modifies this, kill
      ensures At(start, trace, if seen == Active then WriteBlocked else LogPaperStarted, seen)
    {
      hide RunSystem, At;
      trace := MetadataStep(Running, env(2), seen, start, trace0, WriteRunning);
      trace := LogStep(RunStarted, env(3), start, trace, LogStarted, seen);
      trace := LogStep(SafetyChecked(seen), env(4), start, trace, LogChecked, seen);
    }

    method RunPaper(env: Schedule, failing: Option<(nat, bool)>, seen: StateName, ghost start: System,
                    ghost trace0: seq<PaperLifecycle.Action>)
      returns (result: Result, ghost beats: nat, ghost trace: seq<PaperLifecycle.Action>)
      requires At(start, trace0, LogPaperStarted, seen) && AllStamped(env)
      modifies this, kill
      ensures result == RunFinished || result == HeartbeatError
      ensures At(start, trace, if result == RunFinished then EndCompleted else EndFailed(beats), seen)
    {
      hide RunSystem, At;
      trace := LogStep(PaperStarted, env(5), start, trace0, LogPaperStarted, seen);
      var ok;
      ok, beats, trace := AppendHeartbeats(env, failing, start, trace, seen);
      if !ok {
        trace := FailPaper(env, seen, start, trace, beats);
        return HeartbeatError, beats, trace;
      }
      trace := FinishPaper(env, seen, start, trace);
      result := RunFinished;
    }

    /** `run_paper_lifecycle`. Whatever runs in between, the files end as a run of the step machine
        leaves them, and the result tells where that run stands. */
    method RunPaperLifecycle(env: Schedule, failing: Option<(nat, bool)>)
      returns (result: Result, ghost beats: nat, ghost seen: StateName, ghost trace: seq<PaperLifecycle.Action>)
      requires kill.runId != "" && AllStamped(env)
      modifies this, kill
      ensures var end := RunSystem(System(old(Contents()), [], NoOwner), trace);
        && end.files == Contents() && end.pending == []
        && match result
           case SwitchUnreadable => end.owner == NoOwner && Contents() == old(Contents())
           case ArtifactsExist => end.owner == NoOwner && old(dir)
           case BlockedBySwitch => end.owner == Alive(EndBlocked, Active)
           case HeartbeatError => end.owner == Alive(EndFailed(beats), seen) && seen != Active
           case RunFinished => end.owner == Alive(EndCompleted, seen) && seen != Active
      ensures result == SwitchUnreadable <==> !CanBeRead(old(kill.file))
      ensures result == ArtifactsExist <==> CanBeRead(old(kill.file)) && old(dir)
      ensures result == BlockedBySwitch <==> Says(old(kill.file), StateName.Active) && !old(dir)
      ensures result in {HeartbeatError, RunFinished} ==>
        && Says(old(kill.file), seen)
        && (Says(old(kill.file), StateName.Absent) || Says(old(kill.file), StateName.Cleared))
      ensures FreshRun(System(old(Contents()), [], NoOwner))
              && result in {BlockedBySwitch, HeartbeatError, RunFinished} ==>
        Legal(Trace(Contents()), if result == BlockedBySwitch then StateName.Active else seen)
      ensures FreshRun(System(old(Contents()), [], NoOwner)) ==>
        && (result == BlockedBySwitch ==> EndsBlocked(Contents()))
        && (result == RunFinished ==> EndsCompleted(Contents(), seen))
        && (result == HeartbeatError ==> EndsFailed(Contents(), seen, beats))
    {
      ghost var start := System(Contents(), [], NoOwner);
      seen, beats := Absent, 0;
      assert RunSystem(start, []) == start;
      var status := GetStatus(kill.file);
      StatusSaid(kill.file);
      assert status.Readable? ==> Says(kill.file, status.Name());
      assert Says(kill.file, StateName.Active) ==> status.Readable? && status.Name() == StateName.Active;
      trace := Then(start, [], Launch);
      if status.ReadError? {
        return SwitchUnreadable, beats, seen, trace;
      }
      var killSwitchState := status.Name();
      seen := killSwitchState;
      trace := Interfere(env(1), start, trace);
      if dir {
        trace := Then(start, trace, Create(0));
        return ArtifactsExist, beats, seen, trace;
      }
      dir := true;
      trace := Then(start, trace, Create(0));
      hide RunSystem, At, Legal, TraceAt, FilesAt, Says, EndsBlocked, EndsCompleted, EndsFailed;
      trace := StartPaper(env, killSwitchState, start, trace);
      if killSwitchState == Active {
        trace := RunBlocked(env, killSwitchState, start, trace);
        CompleteTrace(start, trace, EndBlocked, seen);
        if FreshRun(start) { EndArtifacts(Contents(), EndBlocked, seen); }
        return BlockedBySwitch, beats, seen, trace;
      }
      result, beats, trace := RunPaper(env, failing, killSwitchState, start, trace);
      CompleteTrace(start, trace, if result == RunFinished then EndCompleted else EndFailed(beats), seen);
      if FreshRun(start) {
        EndArtifacts(Contents(), if result == RunFinished then EndCompleted else EndFailed(beats), seen);
      }
    }
  }
}
