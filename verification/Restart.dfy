/** From the bytes on disk back to the engine: the journal file and durable replay together. */
module Restart {
  import opened Types
  import opened Codec
  import opened EngineModel
  import opened Exchange
  import opened Exposure
  import J = JournalFile
  import opened DurableReplay

  /** Nothing has been asked of the exchange yet: its file may just be getting its header. */
  predicate Unused(x: Server) {
    x.journal == [] && x.done == [] && x.pending.None?
  }

  /** The bytes a crash can leave: the whole file, or a part of what was being written, header or record. */
  ghost predicate LeftOnDisk(config: nat, x: Server, disk: Bytes) {
    && (forall c | c in x.journal :: WellTyped(c))
    && var file := J.Header(config) + J.Log(x.journal);
      && |disk| <= |file| && disk == file[..|disk|]
      && (Unused(x) || |disk| >= J.HEADER_SIZE + J.RECORD_SIZE * (|x.journal| - if x.pending.Some? then 1 else 0))
  }

  /** The commands the engine thread appends are commands the journal can give back. */
  lemma AppendsAreWritable(s0: Engine, x: Server)
    requires Inv(s0) && WriteAhead(s0, x) && forall c | c in x.journal :: WellTyped(c)
    ensures J.Writable(x.journal)
  {
    hide Inv, WellTyped, WriteAhead;
    JournalIsDurable(s0, x);
  }

  ghost predicate Resumes(x: Server, reborn: Engine, found: J.Recovery)
    requires Inv(reborn) && Inv(x.engine)
  {
    match found
    case Recovered(commands) =>
      || Twin(x.engine, After(reborn, commands))
      || (x.pending.Some? && Twin(Process(x.engine, x.pending.value).engine, After(reborn, commands)))
    case Torn => x.pending.Some? || Unused(x)
    case MissingChecksum => x.pending.Some?
    case Mismatch => false
    case Corrupt => false
  }

  lemma DiskResumes(s0: Engine, restarted: Engine, config: nat, x: Server, disk: Bytes)
    requires Inv(s0) && Inv(restarted) && Twin(s0, restarted) && WriteAhead(s0, x) && Inv(x.engine)
    requires LeftOnDisk(config, x, disk)
    ensures Resumes(x, restarted, J.Opened(config, disk))
  {
    hide Inv, Twin, Process, After, J.Opened, J.Header, J.Log, J.Writable;
    AppendsAreWritable(s0, x);
    J.LogSize(x.journal);
    J.Truncated(config, x.journal, |disk|);
    CrashRecovery(s0, restarted, x);
    assert x.journal[..|x.journal|] == x.journal;
    if x.pending.Some? {
      WithoutPending(s0, x);
      CrashRecovery(s0, restarted, x.(journal := x.journal[..|x.journal| - 1], pending := None));
    }
  }

  /** What recovery returns is what a restart replays: the journal, or the journal without the torn append. */
  lemma RecoveredSurvives(s0: Engine, config: nat, x: Server, disk: Bytes)
    requires Inv(s0) && WriteAhead(s0, x) && LeftOnDisk(config, x, disk) && J.Opened(config, disk).Recovered?
    ensures Survives(x, J.Opened(config, disk).commands)
  {
    hide Inv, J.Opened, J.Header, J.Log, J.Writable, WriteAhead;
    AppendsAreWritable(s0, x);
    J.LogSize(x.journal);
    J.Truncated(config, x.journal, |disk|);
    JournalIsDurable(s0, x);
    assert x.journal[..|x.journal|] == x.journal;
  }

  /**
   Crash anywhere in any life of the exchange, however often it has crashed and restarted before, even in the
   middle of an append or of the first header, and open the file again under any epoch. Either the file is
   refused because its last record or its header is torn, which only happens to a command that was never
   processed and before the first command, or what it returns is what a restart may replay, and replay gives the engine that crashed with at most the one command that had reached
   the disk.
   */
  lemma EveryRestartResumes(instruments: map<InstrumentId, Rules>, capacity: nat, e: nat, f: nat, config: nat,
                            trace: seq<Server>, k: nat, disk: Bytes)
    requires ConfigOk(instruments) && Life(instruments, capacity, e, trace) && k < |trace|
    requires LeftOnDisk(config, trace[k], disk)
    ensures Inv(Fresh(instruments, capacity, f)) && Inv(trace[k].engine)
    ensures Resumes(trace[k], Fresh(instruments, capacity, f), J.Opened(config, disk))
    ensures J.Opened(config, disk).Recovered? ==> Survives(trace[k], J.Opened(config, disk).commands)
  {
    hide Life;
    var now := EveryLifeKeepsItsPast(instruments, capacity, e, trace, k, k);
    FreshInv(instruments, capacity, now);
    FreshInv(instruments, capacity, f);
    FreshTwins(instruments, capacity, now, f);
    var s0 := Fresh(instruments, capacity, now);
    hide Core, Bounded, Process, Fresh, Twin, After, Resumes, LeftOnDisk, Survives;
    DiskResumes(s0, Fresh(instruments, capacity, f), config, trace[k], disk);
    if J.Opened(config, disk).Recovered? {
      RecoveredSurvives(s0, config, trace[k], disk);
    }
  }

  /** A file that got only a part of its header is refused by every later start. */
  lemma TornHeaderRefused(config: nat, n: nat)
    requires 0 < n < J.HEADER_SIZE
    ensures J.Opened(config, J.Header(config)[..n]) == J.Torn
  {
    hide J.Header, J.ReadLog;
  }
}
