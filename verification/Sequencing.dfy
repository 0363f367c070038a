/** Exactly-once commands: request numbering, retries and what other clients cannot disturb. */
module Sequencing {
  import opened Types
  import opened EngineModel
  import opened Exchange
  import opened Exposure
  import opened Outcome

  // ---- Numbering ----------------------------------------------------------

  /** What the engine remembers of a client's last request. */
  ghost predicate SameMemory(s: Engine, s': Engine, client: ClientId) {
    client in s.clients ==>
      && client in s'.clients
      && s'.clients[client].lastRequest == s.clients[client].lastRequest
      && s'.clients[client].lastCommand == s.clients[client].lastCommand
      && s'.clients[client].cached == s.clients[client].cached
  }

  lemma PerformMemory(s: Engine, c: Message, client: ClientId)
    requires Core(s) && Effective(s, c)
    ensures var r := Perform(s, c);
            && LastRequest(r.engine, c.clientId) == c.requestId
            && c.clientId in r.engine.clients
            && r.engine.clients[c.clientId].lastCommand == c
            && r.engine.clients[c.clientId].cached == Private(r.batch.reports, c.clientId)
            && (client != c.clientId ==> SameMemory(s, r.engine, client) && LastRequest(r.engine, client) == LastRequest(s, client))
  {
    hide Core, Business, Completion, Private;
    BeginCore(s, c);
    BusinessCore(Begin(s, c), c);
  }

  lemma AnswerMemory(s: Engine, c: Message, client: ClientId)
    ensures SameMemory(s, Answer(s, c).engine, client)
    ensures LastRequest(Answer(s, c).engine, client) == LastRequest(s, client)
  {
    hide Answer;
    AnswerKeeps(s, c);
  }

  /** A command changes a client's memory only when it is that client's next one. */
  lemma ProcessMemory(s: Engine, c: Message, client: ClientId)
    requires Core(s)
    ensures var s' := Process(s, c).engine;
            if Effective(s, c) && c.clientId == client then LastRequest(s', client) == LastRequest(s, client) + 1
            else SameMemory(s, s', client) && LastRequest(s', client) == LastRequest(s, client)
  {
    hide Core, Perform, Answer, SameMemory;
    if Effective(s, c) {
      PerformMemory(s, c, client);
    } else {
      AnswerMemory(s, c, client);
    }
  }

  /** The request numbers of a client's commands that took effect in a run, in order. */
  ghost function Effects(s: Engine, commands: seq<Message>, client: ClientId): seq<nat>
    requires Inv(s)
    decreases |commands|
  {
    if commands == [] then [] else
    ProcessKeepsInv(s, commands[0]);
    (if Effective(s, commands[0]) && commands[0].clientId == client then [commands[0].requestId] else [])
    + Effects(Process(s, commands[0]).engine, commands[1..], client)
  }

  /** In every run, a client's requests take effect once each, in order and without gaps. */
  lemma {:induction false} ExactlyOnce(s: Engine, commands: seq<Message>, client: ClientId)
    requires Inv(s)
    ensures var done := Effects(s, commands, client);
            && LastRequest(After(s, commands), client) == LastRequest(s, client) + |done|
            && forall k | 0 <= k < |done| :: done[k] == LastRequest(s, client) + 1 + k
    decreases |commands|
  {
    hide Core, Bounded, Process;
    if commands != [] {
      ProcessKeepsInv(s, commands[0]);
      ProcessMemory(s, commands[0], client);
      ExactlyOnce(Process(s, commands[0]).engine, commands[1..], client);
    }
  }

  /** From a fresh engine these are 1, 2, ..., last request. */
  lemma ExactlyOnceFromStart(instruments: map<InstrumentId, Rules>, capacity: nat, epoch: nat,
                             commands: seq<Message>, client: ClientId)
    requires ConfigOk(instruments)
    ensures Inv(Fresh(instruments, capacity, epoch))
    ensures var s := Fresh(instruments, capacity, epoch);
            var done := Effects(s, commands, client);
            && |done| == LastRequest(After(s, commands), client)
            && forall k | 0 <= k < |done| :: done[k] == k + 1
  {
    FreshInv(instruments, capacity, epoch);
    var s := Fresh(instruments, capacity, epoch);
    hide Inv;
    ExactlyOnce(s, commands, client);
  }

  // ---- Retries ------------------------------------------------------------

  /** No command of the run is the client's next one. */
  ghost predicate NoneEffective(s: Engine, commands: seq<Message>, client: ClientId)
    requires Inv(s)
  {
    Effects(s, commands, client) == []
  }

  lemma {:induction false} MemoryLasts(s: Engine, commands: seq<Message>, client: ClientId)
    requires Inv(s) && NoneEffective(s, commands, client)
    ensures SameMemory(s, After(s, commands), client)
    decreases |commands|
  {
    hide Core, Bounded, Process;
    if commands != [] {
      ProcessKeepsInv(s, commands[0]);
      ProcessMemory(s, commands[0], client);
      MemoryLasts(Process(s, commands[0]).engine, commands[1..], client);
    }
  }

  lemma {:induction false} PrivateAppend(a: seq<Message>, b: seq<Message>, client: ClientId)
    ensures Private(a + b, client) == Private(a, client) + Private(b, client)
    decreases |a|
  {
    if a == [] {
      assert a + b == b;
    } else {
      assert (a + b)[1..] == a[1..] + b;
      PrivateAppend(a[1..], b, client);
    }
  }

  /** A performed command's private reports end in its only `Complete`. */
  lemma PerformCompletes(s: Engine, c: Message)
    requires Core(s) && Effective(s, c)
    ensures var own := Private(Perform(s, c).batch.reports, c.clientId);
            && own != [] && own[|own| - 1].report == Complete && own[|own| - 1].requestId == c.requestId
            && forall k | 0 <= k < |own| - 1 :: own[k].report != Complete
  {
    hide Core, Business, Private;
    BeginCore(s, c);
    BusinessCore(Begin(s, c), c);
    BusinessRefused(Begin(s, c), c);
    var done := Business(Begin(s, c), c);
    var last := Perform(s, c).batch.reports[|done.batch.reports|];
    assert Perform(s, c).batch.reports == done.batch.reports + [last];
    PrivateAppend(done.batch.reports, [last], c.clientId);
    PrivateSingle(last);
    var first := Private(done.batch.reports, c.clientId);
    forall k | 0 <= k < |first| ensures first[k].report != Complete {
      assert first[k] in first;
    }
  }

  lemma PrivateSingle(m: Message)
    ensures Private([m], m.clientId) == [m]
  {
    assert [m][1..] == [];
  }

  /**
   Resubmitting a client's last command, after any run in which none of its
   requests took effect, changes nothing, publishes nothing and returns exactly the
   private reports of the original, ending in the one `Complete`.
   */
  lemma RetryIsIdempotent(s: Engine, c: Message, between: seq<Message>)
    requires Inv(s) && Effective(s, c)
    requires Inv(Process(s, c).engine) && NoneEffective(Process(s, c).engine, between, c.clientId)
    ensures var first := Process(s, c);
            var s1 := After(first.engine, between);
            var again := Process(s1, c);
            && again.engine == s1
            && again.batch.updates == []
            && again.batch.reports == Private(first.batch.reports, c.clientId)
            && var own := again.batch.reports;
            && own != [] && own[|own| - 1].report == Complete
            && forall k | 0 <= k < |own| - 1 :: own[k].report != Complete
  {
    hide Core, Bounded, Perform, Private, NoneEffective;
    PerformMemory(s, c, c.clientId);
    PerformCompletes(s, c);
    MemoryLasts(Process(s, c).engine, between, c.clientId);
  }
}
