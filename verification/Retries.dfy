/** Exactly-once commands across crashes: what a client gets that sends its last command again after a restart. */
module Retries {
  import opened Types
  import opened EngineModel
  import opened Exchange
  import opened Exposure
  import opened Sequencing
  import opened DurableReplay

  /** A command that asks the engine to do something, under a client and a request number. */
  predicate IsRequest(c: Message) {
    c.kind == Command && Durable(c) && c.clientId != 0 && c.requestId != 0
  }

  /** The reborn engine is the engine that crashed, or that engine after the command that was being appended. */
  lemma RebornIsTwin(instruments: map<InstrumentId, Rules>, capacity: nat, e: nat, f: nat, x: Server, y: Server)
    requires ConfigOk(instruments) && Living(instruments, capacity, e, x) && Reborn(instruments, capacity, f, x, y)
    ensures Inv(x.engine) && Inv(y.engine)
    ensures x.pending.Some? && y.journal == x.journal ==> Twin(Process(x.engine, x.pending.value).engine, y.engine)
    ensures x.pending.None? || y.journal != x.journal ==> Twin(x.engine, y.engine)
  {
    FreshInv(instruments, capacity, e);
    FreshInv(instruments, capacity, f);
    FreshTwins(instruments, capacity, e, f);
    var s0, reborn := Fresh(instruments, capacity, e), Fresh(instruments, capacity, f);
    assert Inv(x.engine) && Inv(y.engine) by { hide Inv; }
    hide Inv, Fresh, Twin, Process, After, WriteAhead;
    if y.journal == x.journal {
      CrashRecovery(s0, reborn, x);
    } else {
      WithoutPending(s0, x);
      CrashRecovery(s0, reborn, x.(journal := y.journal, pending := None));
    }
  }

  /** A retry on a twin changes nothing, publishes nothing and returns the cached reports up to their stamps. */
  lemma TwinRetry(s: Engine, t: Engine, c: Message)
    requires Twin(s, t) && Core(t) && IsRequest(c) && IsRetry(s, c)
    ensures var r := Process(t, c);
      r.engine == t && r.batch.updates == [] && SameText(s.clients[c.clientId].cached, r.batch.reports)
  {
    hide Core, SameText;
    assert SameClient(s.clients[c.clientId], t.clients[c.clientId]);
  }

  /**
   Sending a processed command again after a crash: in any life of the exchange, under any new epoch, whatever
   other client's command was being appended, the client's last command changes nothing, publishes nothing and
   returns the reports that were cached for it, up to epoch and report numbers.
   */
  lemma RetryAfterRestart(instruments: map<InstrumentId, Rules>, capacity: nat, e: nat, trace: seq<Server>, k: nat,
                          f: nat, y: Server, c: Message)
    requires ConfigOk(instruments) && Life(instruments, capacity, e, trace) && k < |trace|
    requires Reborn(instruments, capacity, f, trace[k], y)
    requires IsRequest(c) && IsRetry(trace[k].engine, c)
    requires trace[k].pending.Some? ==> trace[k].pending.value.clientId != c.clientId
    ensures Inv(y.engine)
    ensures var r := Process(y.engine, c);
      && r.engine == y.engine && r.batch.updates == []
      && SameText(trace[k].engine.clients[c.clientId].cached, r.batch.reports)
  {
    hide Life, Living, Reborn, Twin, SameText, Core, Bounded, Process;
    var x := trace[k];
    var now := EveryLifeKeepsItsPast(instruments, capacity, e, trace, k, k);
    RebornIsTwin(instruments, capacity, now, f, x, y);
    if x.pending.Some? && y.journal == x.journal {
      ProcessMemory(x.engine, x.pending.value, c.clientId);
      TwinRetry(Process(x.engine, x.pending.value).engine, y.engine, c);
    } else {
      TwinRetry(x.engine, y.engine, c);
    }
  }

  lemma EffectiveIsRemembered(s: Engine, c: Message)
    requires Core(s) && Effective(s, c)
    ensures var r := Process(s, c);
      IsRetry(r.engine, c) && r.engine.clients[c.clientId].cached == Private(r.batch.reports, c.clientId)
  {
    hide Core, Perform, Private;
    PerformMemory(s, c, c.clientId);
  }

  /**
   Sending a command again that was being appended when the exchange crashed, so that the client cannot know
   whether it survived: it takes effect exactly once. Whether replay has already performed it, and the repetition
   is a mere retry, or it was lost, and the repetition performs it, the engine ends where performing it once on
   the engine that crashed ends, and the client receives the reports of that one performance.
   */
  lemma ResentAfterCrash(instruments: map<InstrumentId, Rules>, capacity: nat, e: nat, trace: seq<Server>, k: nat,
                         f: nat, y: Server, c: Message)
    requires ConfigOk(instruments) && Life(instruments, capacity, e, trace) && k < |trace|
    requires Reborn(instruments, capacity, f, trace[k], y)
    requires trace[k].pending == Some(c) && Effective(trace[k].engine, c)
    ensures Inv(trace[k].engine) && Inv(y.engine)
    ensures var once, r := Process(trace[k].engine, c), Process(y.engine, c);
      && Twin(once.engine, r.engine)
      && SameText(Private(once.batch.reports, c.clientId), Private(r.batch.reports, c.clientId))
      && (if y.journal == trace[k].journal then r.engine == y.engine && r.batch.updates == []
          else SameText(once.batch.updates, r.batch.updates))
  {
    hide Life, Living, Reborn, Twin, SameText, Core, Bounded, Process, Private;
    var x := trace[k];
    var now := EveryLifeKeepsItsPast(instruments, capacity, e, trace, k, k);
    RebornIsTwin(instruments, capacity, now, f, x, y);
    if y.journal == x.journal {
      EffectiveIsRemembered(x.engine, c);
      TwinRetry(Process(x.engine, c).engine, y.engine, c);
      OwnReports(Process(x.engine, c).batch.reports, Process(y.engine, c).batch.reports, c.clientId);
    } else {
      TwinProcess(x.engine, y.engine, c);
      TextPrivate(Process(x.engine, c).batch.reports, Process(y.engine, c).batch.reports, c.clientId);
    }
  }

  /** Reports that read like a client's own are that client's own. */
  lemma OwnReports(a: seq<Message>, b: seq<Message>, client: ClientId)
    requires SameText(Private(a, client), b)
    ensures Private(b, client) == b
  {
    var own := Private(a, client);
    forall k | 0 <= k < |b| ensures b[k].clientId == client {
      assert own[k] in own;
      PlainClient(own[k], b[k]);
    }
    AllPrivate(b, client);
  }

  lemma {:induction false} AllPrivate(b: seq<Message>, client: ClientId)
    requires forall k | 0 <= k < |b| :: b[k].clientId == client
    ensures Private(b, client) == b
  {
    if b != [] {
      AllPrivate(b[1..], client);
    }
  }
}
