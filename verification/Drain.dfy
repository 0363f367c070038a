/**
 The three threads of the exchange and the flags that stop them.

 The I/O thread admits requests and drains responses, the engine thread turns requests
 into responses and market updates, the publisher sends updates. They share three bounded
 FIFO queues and the flags `ingressDone`, `engineDone` and `fatal`. A scheduler picks who
 moves; a step is one queue operation, one access to a flag, or work on what a thread holds
 alone, and a thread may throw between any two of its steps. `admitted`, `handled`,
 `delivered` and `published` are histories that no thread reads; `dropped` and
 `publisherFailed` record that a failing thread gave something up.
 */
module Drain {
  import opened Types
  import opened EngineModel
  import opened Exchange
  import opened Exposure
  import opened DeltaStream
  import opened ReplicaModel

  const QUEUE_SIZE := 4096

  datatype Envelope = Envelope(connection: nat, message: Message)

  datatype EngineThread =
    | EngineTop
    | EngineChecked
    | EngineLoaded(inputFinished: bool)
    | EngineIdle
    | EngineHolding(request: Envelope)
    | EnginePushing(responses: seq<Envelope>, updates: seq<Message>, blocked: bool)
    | EngineStopping
    | EngineStopped

  datatype PublisherThread =
    | PublisherTop
    | PublisherLoaded(matchingFinished: bool)
    | PublisherHolding(update: Message)
    | PublisherSent
    | PublisherStopped

  datatype IoThread =
    | IoTop
    | IoClosing
    | IoLoading
    | IoPopping(finished: bool, popped: nat)
    | IoDeciding(matchingFinished: bool, responsesEmpty: bool)
    | IoAdmitting
    | IoExit
    | IoStopped

  datatype Wires = Wires(requests: seq<Envelope>, responses: seq<Envelope>, updates: seq<Message>)

  datatype Signals = Signals(
    stop: bool,
    draining: bool,
    ingressDone: bool,
    engineDone: bool,
    fatal: bool,
    dropped: bool,
    publisherFailed: bool)

  datatype Threads = Threads(engine: EngineThread, publisher: PublisherThread, io: IoThread)

  datatype Past = Past(admitted: seq<Envelope>, handled: seq<Envelope>, delivered: seq<Envelope>, published: seq<Message>)

  datatype System = System(engine: Engine, wires: Wires, sig: Signals, at: Threads, past: Past) {
    function EngineTo(x: EngineThread): System {
      this.(at := at.(engine := x))
    }

    function PublisherTo(x: PublisherThread): System {
      this.(at := at.(publisher := x))
    }

    function IoTo(x: IoThread): System {
      this.(at := at.(io := x))
    }
  }

  /** What the scheduler and the world decide. */
  datatype Choice =
    | EngineMoves
    | PublisherMoves
    | IoMoves(request: Option<Envelope>, pendingOutput: bool, deadline: bool)
    | StopSignal
    | EngineThrows
    | PublisherThrows
    | IoThrows

  // ---- What one request makes the engine send -----------------------------

  function Address(to: Envelope, rows: seq<Message>): seq<Envelope> {
    seq(|rows|, k requires 0 <= k < |rows| => Envelope(to.connection, rows[k]))
  }

  /** A report of another client is routed by its client number. */
  function Route(c: Envelope, reports: seq<Message>): seq<Envelope> {
    seq(|reports|, k requires 0 <= k < |reports| =>
      Envelope(if reports[k].clientId == c.message.clientId then c.connection else 0, reports[k]))
  }

  ghost function Outcome(s: Engine, c: Envelope): (r: (Engine, seq<Envelope>, seq<Message>))
    requires Inv(s)
    ensures Inv(r.0)
  {
    if c.message.action == Snapshot then (s, Address(c, EngineSnapshot(s)), [])
    else
      ProcessKeepsInv(s, c.message);
      var step := Process(s, c.message);
      (step.engine, Route(c, step.batch.reports), step.batch.updates)
  }

  /** The engine, and everything it has sent, after handling requests in order. */
  ghost function Handled(s0: Engine, requests: seq<Envelope>): (r: (Engine, seq<Envelope>, seq<Message>))
    requires Inv(s0)
    ensures Inv(r.0)
    decreases |requests|
  {
    if requests == [] then (s0, [], [])
    else
      var before := Handled(s0, requests[..|requests| - 1]);
      var o := Outcome(before.0, requests[|requests| - 1]);
      (o.0, before.1 + o.1, before.2 + o.2)
  }

  // ---- The threads --------------------------------------------------------

  /** The engine takes the next request, if there is one. */
  function EnginePop(s: System): System
    requires s.at.engine.EngineLoaded?
  {
    if s.wires.requests == [] then s.EngineTo(if s.at.engine.inputFinished then EngineStopping else EngineIdle)
    else s.(wires := s.wires.(requests := s.wires.requests[1..])).EngineTo(EngineHolding(s.wires.requests[0]))
  }

  /** The engine journals and processes the request it holds. */
  ghost function EngineHandle(s: System): System
    requires Inv(s.engine) && s.at.engine.EngineHolding?
  {
    var c := s.at.engine.request;
    var o := Outcome(s.engine, c);
    s.(engine := o.0, past := s.past.(handled := s.past.handled + [c])).EngineTo(EnginePushing(o.1, o.2, false))
  }

  /** The engine pushes a response, or finds the queue full. */
  function PushResponse(s: System): System
    requires s.at.engine.EnginePushing? && s.at.engine.responses != []
  {
    var (responses, updates) := (s.at.engine.responses, s.at.engine.updates);
    if |s.wires.responses| < QUEUE_SIZE then
      s.(wires := s.wires.(responses := s.wires.responses + [responses[0]]))
       .EngineTo(EnginePushing(responses[1..], updates, false))
    else s.EngineTo(EnginePushing(responses, updates, true))
  }

  /** The engine pushes an update, or finds the queue full, or has nothing left to push. */
  function PushUpdate(s: System): System
    requires s.at.engine.EnginePushing? && s.at.engine.responses == []
  {
    var updates := s.at.engine.updates;
    if updates == [] then s.EngineTo(EngineTop)
    else if |s.wires.updates| < QUEUE_SIZE then
      s.(wires := s.wires.(updates := s.wires.updates + [updates[0]])).EngineTo(EnginePushing([], updates[1..], false))
    else s.EngineTo(EnginePushing([], updates, true))
  }

  /** After a full queue the engine looks at the alarm: it gives up the rest of the loop, or tries again. */
  function PushBlocked(s: System): System
    requires s.at.engine.EnginePushing?
  {
    var (responses, updates) := (s.at.engine.responses, s.at.engine.updates);
    if !s.sig.fatal then s.EngineTo(EnginePushing(responses, updates, false))
    else if responses != [] then s.(sig := s.sig.(dropped := true)).EngineTo(EnginePushing([], updates, false))
    else s.(sig := s.sig.(dropped := true)).EngineTo(EngineTop)
  }

  /** The engine thread. */
  ghost function EngineStep(s: System): System
    requires Inv(s.engine)
  {
    match s.at.engine
    case EngineTop => s.EngineTo(if s.sig.fatal then EngineStopping else EngineChecked)
    case EngineChecked => s.EngineTo(EngineLoaded(s.sig.ingressDone))
    case EngineLoaded(_) => EnginePop(s)
    case EngineIdle => s.EngineTo(if s.sig.fatal then EngineStopping else EngineTop)
    case EngineHolding(_) => EngineHandle(s)
    case EnginePushing(responses, _, blocked) =>
      if blocked then PushBlocked(s) else if responses != [] then PushResponse(s) else PushUpdate(s)
    case EngineStopping => s.(sig := s.sig.(engineDone := true)).EngineTo(EngineStopped)
    case EngineStopped => s
  }

  /** The publisher takes the next update, if there is one. */
  function PublisherPop(s: System): System
    requires s.at.publisher.PublisherLoaded?
  {
    if s.wires.updates != [] then
      s.(wires := s.wires.(updates := s.wires.updates[1..])).PublisherTo(PublisherHolding(s.wires.updates[0]))
    else s.PublisherTo(if s.at.publisher.matchingFinished then PublisherStopped else PublisherSent)
  }

  /** The publisher thread; heartbeats carry no delta and are not recorded. */
  function PublisherStep(s: System): System {
    match s.at.publisher
    case PublisherTop => s.PublisherTo(PublisherLoaded(s.sig.engineDone))
    case PublisherLoaded(_) => PublisherPop(s)
    case PublisherHolding(m) => s.(past := s.past.(published := s.past.published + [m])).PublisherTo(PublisherSent)
    case PublisherSent => s.PublisherTo(if s.sig.fatal then PublisherStopped else PublisherTop)
    case PublisherStopped => s
  }

  /** The I/O thread takes responses, at most 4096 in a row. */
  function IoPop(s: System): System
    requires s.at.io.IoPopping?
  {
    if s.at.io.popped < 4096 && s.wires.responses != [] then
      s.(wires := s.wires.(responses := s.wires.responses[1..]),
         past := s.past.(delivered := s.past.delivered + [s.wires.responses[0]]))
       .IoTo(IoPopping(s.at.io.finished, s.at.io.popped + 1))
    else s.IoTo(IoDeciding(s.at.io.finished, s.at.io.popped == 0))
  }

  /** It leaves when everything has been drained, or when the deadline has passed. */
  function IoDecide(s: System, pendingOutput: bool, deadline: bool): System
    requires s.at.io.IoDeciding?
  {
    if s.sig.draining && s.at.io.matchingFinished && s.at.io.responsesEmpty && !pendingOutput then s.IoTo(IoExit)
    else if s.sig.draining && deadline then s.(sig := s.sig.(fatal := true)).IoTo(IoExit)
    else s.IoTo(IoAdmitting)
  }

  /** It admits requests while it is not draining and the queue has room. */
  function IoAdmit(s: System, request: Option<Envelope>): System {
    if request.None? then s.IoTo(IoTop)
    else if !s.sig.draining && |s.wires.requests| < QUEUE_SIZE then
      s.(wires := s.wires.(requests := s.wires.requests + [request.value]),
         past := s.past.(admitted := s.past.admitted + [request.value]))
    else s
  }

  /** The I/O thread; it begins to drain when it is told to stop. */
  function IoStep(s: System, request: Option<Envelope>, pendingOutput: bool, deadline: bool): System {
    match s.at.io
    case IoTop =>
      if !s.sig.draining && (s.sig.stop || s.sig.fatal) then s.(sig := s.sig.(draining := true)).IoTo(IoClosing)
      else s.IoTo(IoLoading)
    case IoClosing => s.(sig := s.sig.(ingressDone := true)).IoTo(IoLoading)
    case IoLoading => s.IoTo(IoPopping(s.sig.engineDone, 0))
    case IoPopping(_, _) => IoPop(s)
    case IoDeciding(_, _) => IoDecide(s, pendingOutput, deadline)
    case IoAdmitting => IoAdmit(s, request)
    case IoExit => s.(sig := s.sig.(ingressDone := true)).IoTo(IoStopped)
    case IoStopped => s
  }

  ghost function Next(s: System, choice: Choice): System
    requires Inv(s.engine)
  {
    match choice
    case EngineMoves => EngineStep(s)
    case PublisherMoves => PublisherStep(s)
    case IoMoves(request, pending, deadline) => IoStep(s, request, pending, deadline)
    case StopSignal => s.(sig := s.sig.(stop := true))
    case EngineThrows =>
      if s.at.engine.EngineStopped? then s
      else s.(sig := s.sig.(fatal := true, dropped := true)).EngineTo(EngineStopping)
    case PublisherThrows =>
      if s.at.publisher.PublisherStopped? then s
      else s.(sig := s.sig.(fatal := true, publisherFailed := true)).PublisherTo(PublisherStopped)
    case IoThrows =>
      if s.at.io.IoExit? || s.at.io.IoStopped? then s else s.(sig := s.sig.(fatal := true)).IoTo(IoExit)
  }

  // ---- The invariant ------------------------------------------------------

  ghost predicate IsPrefix<T>(a: seq<T>, b: seq<T>) {
    |a| <= |b| && a == b[..|a|]
  }

  /** What the engine thread has taken and not yet handled. */
  function InHand(at: EngineThread): seq<Envelope> {
    if at.EngineHolding? then [at.request] else []
  }

  /** What the engine thread has still to push. */
  function Unsent(at: EngineThread): (seq<Envelope>, seq<Message>) {
    if at.EnginePushing? then (at.responses, at.updates) else ([], [])
  }

  /** What the publisher has taken and not yet sent. */
  function InFlight(at: PublisherThread): seq<Message> {
    if at.PublisherHolding? then [at.update] else []
  }

  /** What is on its way is all there is, or the first part of it once something has been given up. */
  ghost predicate Accounted<T>(dropped: bool, sent: seq<T>, all: seq<T>) {
    if dropped then IsPrefix(sent, all) else sent == all
  }

  /** Requests go from admission through the queue and the engine's hand to being handled. */
  ghost predicate RequestsKept(s: System) {
    if s.sig.dropped then IsPrefix(s.past.handled, s.past.admitted)
    else s.past.admitted == s.past.handled + InHand(s.at.engine) + s.wires.requests
  }

  /** Responses go from the engine through the queue to the I/O thread. */
  ghost predicate ResponsesKept(s: System, all: seq<Envelope>) {
    Accounted(s.sig.dropped, s.past.delivered + s.wires.responses + Unsent(s.at.engine).0, all)
  }

  /** Updates go from the engine through the queue and the publisher's hand to the network. */
  ghost predicate UpdatesKept(s: System, all: seq<Message>) {
    if s.sig.publisherFailed then IsPrefix(s.past.published, all)
    else
      Accounted(s.sig.dropped, s.past.published + InFlight(s.at.publisher) + s.wires.updates + Unsent(s.at.engine).1, all)
  }

  /** Nothing is lost, doubled or reordered on the way through the queues. */
  ghost predicate Kept(s: System, responses: seq<Envelope>, updates: seq<Message>) {
    RequestsKept(s) && ResponsesKept(s, responses) && UpdatesKept(s, updates)
  }

  /** The flags say what they are meant to say. */
  ghost predicate Flags(s: System) {
    && (s.sig.dropped ==> s.sig.fatal)
    && (s.sig.dropped ==>
          || s.at.engine.EngineTop? || s.at.engine.EnginePushing? || s.at.engine.EngineStopping? || s.at.engine.EngineStopped?)
    && (s.sig.publisherFailed ==> s.sig.fatal && s.at.publisher.PublisherStopped?)
    && (s.sig.ingressDone ==> s.sig.draining || s.at.io.IoStopped?)
    && (s.sig.draining ==> s.sig.ingressDone || s.at.io.IoClosing? || (s.sig.fatal && s.at.io.IoExit?))
    && (s.at.io.IoClosing? ==> s.sig.draining)
    && (s.at.engine == EngineLoaded(true) ==> s.sig.ingressDone)
    && (s.sig.engineDone <==> s.at.engine.EngineStopped?)
    && ((s.at.engine.EngineStopping? || s.at.engine.EngineStopped?) && !s.sig.fatal ==>
          s.sig.ingressDone && s.wires.requests == [])
  }

  ghost predicate Readers(s: System) {
    && (s.at.publisher == PublisherLoaded(true) ==> s.sig.engineDone)
    && (s.at.publisher.PublisherStopped? && !s.sig.fatal ==> s.sig.engineDone && s.wires.updates == [])
    && (s.at.io.IoPopping? && s.at.io.finished ==> s.sig.engineDone)
    && (s.at.io.IoDeciding? && s.at.io.matchingFinished ==> s.sig.engineDone)
    && (s.at.io == IoDeciding(true, true) ==> s.wires.responses == [])
    && ((s.at.io.IoExit? || s.at.io.IoStopped?) && !s.sig.fatal ==> s.sig.engineDone && s.wires.responses == [])
  }

  ghost predicate Fit(s: System, responses: seq<Envelope>, updates: seq<Message>) {
    Kept(s, responses, updates) && Flags(s) && Readers(s)
  }

  /** The engine is where handling the requests so far leaves it, and all it made is accounted for. */
  ghost predicate Sound(s0: Engine, s: System)
    requires Inv(s0)
  {
    var all := Handled(s0, s.past.handled);
    s.engine == all.0 && Fit(s, all.1, all.2)
  }

  // ---- Moving through a queue ---------------------------------------------

  lemma HandledNext(s0: Engine, handled: seq<Envelope>, c: Envelope)
    requires Inv(s0)
    ensures var before := Handled(s0, handled);
      var o := Outcome(before.0, c);
      Handled(s0, handled + [c]) == (o.0, before.1 + o.1, before.2 + o.2)
  {
    hide Inv, Outcome;
    assert (handled + [c])[..|handled|] == handled;
  }

  /** Taking the first item of a queue in hand. */
  lemma Taken<T>(done: seq<T>, queue: seq<T>, rest: seq<T>)
    requires queue != []
    ensures done + [queue[0]] + queue[1..] + rest == done + [] + queue + rest == done + queue + rest
    ensures done + [queue[0]] + queue[1..] == done + [] + queue == done + queue
  {
    assert queue == [queue[0]] + queue[1..];
  }

  /** Pushing the first of the waiting items. */
  lemma Moved<T>(done: seq<T>, queue: seq<T>, rest: seq<T>)
    requires rest != []
    ensures done + (queue + [rest[0]]) + rest[1..] == done + queue + rest
  {
    assert rest == [rest[0]] + rest[1..];
  }

  /** Putting what was in hand away. */
  lemma PutAway<T>(done: seq<T>, x: T, rest: seq<T>)
    ensures done + [x] + [] == done + [x] && done + [x] + [] + rest == done + [x] + rest
  {
  }

  lemma GiveUp<T>(dropped: bool, sent: seq<T>, rest: seq<T>, all: seq<T>)
    requires Accounted(dropped, sent + rest, all)
    ensures Accounted(true, sent + rest, all) && Accounted(true, sent + [], all)
  {
  }

  lemma FirstPart<T>(a: seq<T>, b: seq<T>, c: seq<T>)
    ensures IsPrefix(a + b, c) ==> IsPrefix(a, c)
    ensures a + b == c ==> IsPrefix(a, c)
    ensures IsPrefix(a, c) ==> IsPrefix(a, c + b)
  {
  }

  // ---- Every step keeps it ------------------------------------------------

  /** A step that moves no response keeps them accounted for. */
  lemma SameResponses(s: System, t: System, all: seq<Envelope>)
    requires t.sig.dropped == s.sig.dropped && t.past.delivered == s.past.delivered
    requires t.wires.responses == s.wires.responses && Unsent(t.at.engine).0 == Unsent(s.at.engine).0
    ensures ResponsesKept(s, all) == ResponsesKept(t, all)
  {
  }

  /** A step that moves no update keeps them accounted for. */
  lemma SameUpdates(s: System, t: System, all: seq<Message>)
    requires t.sig.dropped == s.sig.dropped && t.sig.publisherFailed == s.sig.publisherFailed
    requires t.past.published == s.past.published && InFlight(t.at.publisher) == InFlight(s.at.publisher)
    requires t.wires.updates == s.wires.updates && Unsent(t.at.engine).1 == Unsent(s.at.engine).1
    ensures UpdatesKept(s, all) == UpdatesKept(t, all)
  {
  }

  lemma SameRequests(s: System, t: System)
    requires t.sig.dropped == s.sig.dropped && t.past.admitted == s.past.admitted && t.past.handled == s.past.handled
    requires t.wires.requests == s.wires.requests && InHand(t.at.engine) == InHand(s.at.engine)
    ensures RequestsKept(s) == RequestsKept(t)
  {
  }

  /** A step that changes only flags and places keeps everything where it is. */
  lemma NothingMoves(s: System, t: System, r: seq<Envelope>, u: seq<Message>)
    requires Kept(s, r, u) && t.wires == s.wires && t.past == s.past
    requires t.sig.dropped == s.sig.dropped && t.sig.publisherFailed == s.sig.publisherFailed
    requires InHand(t.at.engine) == InHand(s.at.engine) && Unsent(t.at.engine) == Unsent(s.at.engine)
    requires InFlight(t.at.publisher) == InFlight(s.at.publisher)
    ensures Kept(t, r, u)
  {
    hide RequestsKept, ResponsesKept, UpdatesKept;
    SameRequests(s, t);
    SameResponses(s, t, r);
    SameUpdates(s, t, u);
  }

  lemma PopKept(s: System, r: seq<Envelope>, u: seq<Message>)
    requires Fit(s, r, u) && s.at.engine.EngineLoaded?
    ensures Kept(EnginePop(s), r, u)
  {
    hide ResponsesKept, UpdatesKept;
    SameResponses(s, EnginePop(s), r);
    SameUpdates(s, EnginePop(s), u);
    if s.wires.requests != [] {
      Taken(s.past.handled, s.wires.requests, []);
    }
  }

  lemma PopFlags(s: System)
    requires Flags(s) && Readers(s) && s.at.engine.EngineLoaded?
    ensures Flags(EnginePop(s)) && Readers(EnginePop(s))
  {
  }

  lemma ResponseKept(s: System, r: seq<Envelope>, u: seq<Message>)
    requires Kept(s, r, u) && s.at.engine.EnginePushing? && s.at.engine.responses != []
    ensures Kept(PushResponse(s), r, u)
  {
    hide Accounted, UpdatesKept, RequestsKept;
    SameRequests(s, PushResponse(s));
    SameUpdates(s, PushResponse(s), u);
    Moved(s.past.delivered, s.wires.responses, s.at.engine.responses);
  }

  lemma UpdateKept(s: System, r: seq<Envelope>, u: seq<Message>)
    requires Kept(s, r, u) && s.at.engine.EnginePushing? && s.at.engine.responses == []
    ensures Kept(PushUpdate(s), r, u)
  {
    hide Accounted, ResponsesKept, RequestsKept;
    SameRequests(s, PushUpdate(s));
    SameResponses(s, PushUpdate(s), r);
    if s.at.engine.updates != [] {
      Moved(s.past.published + InFlight(s.at.publisher), s.wires.updates, s.at.engine.updates);
    }
  }

  lemma RequestsGivenUp(s: System)
    requires RequestsKept(s)
    ensures IsPrefix(s.past.handled, s.past.admitted)
  {
    var rest := InHand(s.at.engine) + s.wires.requests;
    FirstPart(s.past.handled, rest, s.past.admitted);
    assert s.past.handled + InHand(s.at.engine) + s.wires.requests == s.past.handled + rest;
  }

  lemma BlockedKept(s: System, r: seq<Envelope>, u: seq<Message>)
    requires Kept(s, r, u) && s.at.engine.EnginePushing?
    ensures Kept(PushBlocked(s), r, u)
  {
    hide Accounted;
    RequestsGivenUp(s);
    GiveUp(s.sig.dropped, s.past.delivered + s.wires.responses, s.at.engine.responses, r);
    if !s.sig.publisherFailed {
      GiveUp(s.sig.dropped, s.past.published + InFlight(s.at.publisher) + s.wires.updates, s.at.engine.updates, u);
    }
  }

  lemma PushFlags(s: System)
    requires Flags(s) && Readers(s) && s.at.engine.EnginePushing?
    ensures s.at.engine.responses != [] ==> Flags(PushResponse(s)) && Readers(PushResponse(s))
    ensures s.at.engine.responses == [] ==> Flags(PushUpdate(s)) && Readers(PushUpdate(s))
    ensures Flags(PushBlocked(s)) && Readers(PushBlocked(s))
  {
  }

  lemma PushFits(s: System, r: seq<Envelope>, u: seq<Message>)
    requires Inv(s.engine) && Fit(s, r, u) && s.at.engine.EnginePushing?
    ensures Fit(EngineStep(s), r, u)
  {
    hide Inv, Kept, Flags, Readers, PushResponse, PushUpdate, PushBlocked;
    PushFlags(s);
    if s.at.engine.blocked {
      BlockedKept(s, r, u);
    } else if s.at.engine.responses != [] {
      ResponseKept(s, r, u);
    } else {
      UpdateKept(s, r, u);
    }
  }

  /** The steps of the engine that move nothing. */
  lemma EngineFlagFits(s: System, r: seq<Envelope>, u: seq<Message>)
    requires Inv(s.engine) && Fit(s, r, u)
    requires !s.at.engine.EnginePushing? && !s.at.engine.EngineLoaded? && !s.at.engine.EngineHolding?
    ensures Fit(EngineStep(s), r, u)
  {
    hide Inv, Kept;
    NothingMoves(s, EngineStep(s), r, u);
  }

  lemma EngineFits(s: System, r: seq<Envelope>, u: seq<Message>)
    requires Inv(s.engine) && Fit(s, r, u) && !s.at.engine.EngineHolding?
    ensures Fit(EngineStep(s), r, u) && EngineStep(s).engine == s.engine
    ensures EngineStep(s).past.handled == s.past.handled
  {
    hide Inv, Kept, Flags, Readers;
    if s.at.engine.EnginePushing? {
      PushFits(s, r, u);
    } else if s.at.engine.EngineLoaded? {
      PopKept(s, r, u);
      PopFlags(s);
    } else {
      EngineFlagFits(s, r, u);
    }
  }

  /** Handling a request adds what it makes the engine send. */
  lemma HandleFits(s: System, r: seq<Envelope>, u: seq<Message>)
    requires Inv(s.engine) && Fit(s, r, u) && s.at.engine.EngineHolding?
    ensures var o := Outcome(s.engine, s.at.engine.request);
      Fit(EngineHandle(s), r + o.1, u + o.2) && EngineHandle(s).engine == o.0
  {
    hide Inv, Outcome;
    var c := s.at.engine.request;
    PutAway(s.past.handled, c, s.wires.requests);
    assert s.past.delivered + s.wires.responses + [] == s.past.delivered + s.wires.responses;
    var sent := s.past.published + InFlight(s.at.publisher) + s.wires.updates;
    assert sent + [] == sent;
    FirstPart(s.past.published, Outcome(s.engine, c).2, u);
  }

  lemma EngineKeeps(s0: Engine, s: System)
    requires Inv(s0) && Sound(s0, s)
    ensures Inv(s.engine) && Sound(s0, EngineStep(s))
  {
    hide Inv, Handled, Fit, Outcome;
    var all := Handled(s0, s.past.handled);
    if s.at.engine.EngineHolding? {
      HandledNext(s0, s.past.handled, s.at.engine.request);
      HandleFits(s, all.1, all.2);
    } else {
      EngineFits(s, all.1, all.2);
      hide EngineStep;
    }
  }

  /** The publisher takes an update in hand, or sends the one it holds. */
  lemma UpdatePassed(s: System, t: System, u: seq<Message>)
    requires UpdatesKept(s, u) && t.sig == s.sig && t.at.engine == s.at.engine
    requires t.past.published + InFlight(t.at.publisher) + t.wires.updates + Unsent(t.at.engine).1
          == s.past.published + InFlight(s.at.publisher) + s.wires.updates + Unsent(s.at.engine).1
    requires !s.sig.publisherFailed
    ensures UpdatesKept(t, u)
  {
    hide Accounted;
  }

  lemma PublisherKept(s: System, r: seq<Envelope>, u: seq<Message>)
    requires Fit(s, r, u)
    ensures Kept(PublisherStep(s), r, u)
  {
    var t := PublisherStep(s);
    if s.at.publisher.PublisherHolding? || (s.at.publisher.PublisherLoaded? && s.wires.updates != []) {
      hide UpdatesKept, ResponsesKept, RequestsKept, Readers;
      SameRequests(s, t);
      SameResponses(s, t, r);
      if s.at.publisher.PublisherHolding? {
        PutAway(s.past.published, s.at.publisher.update, s.wires.updates);
      } else {
        Taken(s.past.published, s.wires.updates, Unsent(s.at.engine).1);
      }
      UpdatePassed(s, t, u);
    } else {
      hide Kept, Flags, Readers;
      NothingMoves(s, t, r, u);
    }
  }

  lemma PublisherFlags(s: System)
    requires Flags(s) && Readers(s)
    ensures Flags(PublisherStep(s)) && Readers(PublisherStep(s))
  {
  }

  lemma PopFront<T>(done: seq<T>, queue: seq<T>, rest: seq<T>)
    requires queue != []
    ensures done + [queue[0]] + queue[1..] + rest == done + queue + rest
  {
    assert queue == [queue[0]] + queue[1..];
  }

  /** One response is taken. */
  lemma TakenKept(s: System, t: System, r: seq<Envelope>, u: seq<Message>)
    requires Kept(s, r, u) && s.wires.responses != []
    requires t.wires == s.wires.(responses := s.wires.responses[1..])
    requires t.past == s.past.(delivered := s.past.delivered + [s.wires.responses[0]])
    requires t.sig == s.sig && t.at.engine == s.at.engine && t.at.publisher == s.at.publisher
    ensures Kept(t, r, u)
  {
    hide Accounted, UpdatesKept, RequestsKept;
    SameRequests(s, t);
    SameUpdates(s, t, u);
    PopFront(s.past.delivered, s.wires.responses, Unsent(s.at.engine).0);
  }

  lemma IoPopKept(s: System, r: seq<Envelope>, u: seq<Message>)
    requires Kept(s, r, u) && s.at.io.IoPopping?
    ensures Kept(IoPop(s), r, u)
  {
    hide Kept;
    if s.at.io.popped < 4096 && s.wires.responses != [] {
      TakenKept(s, IoPop(s), r, u);
    } else {
      NothingMoves(s, IoPop(s), r, u);
    }
  }

  lemma IoAdmitKept(s: System, request: Option<Envelope>, r: seq<Envelope>, u: seq<Message>)
    requires Kept(s, r, u) && s.at.io.IoAdmitting?
    ensures Kept(IoAdmit(s, request), r, u)
  {
    hide ResponsesKept, UpdatesKept;
    var t := IoAdmit(s, request);
    SameUpdates(s, t, u);
    SameResponses(s, t, r);
    if request.Some? {
      var hand := s.past.handled + InHand(s.at.engine);
      assert hand + (s.wires.requests + [request.value]) == hand + s.wires.requests + [request.value];
      FirstPart(s.past.handled, [request.value], s.past.admitted);
    }
  }

  /** Wires, histories, losses and the other threads are as they were. */
  predicate Still(s: System, t: System) {
    && t.wires == s.wires && t.past == s.past && t.at.engine == s.at.engine && t.at.publisher == s.at.publisher
    && t.sig.dropped == s.sig.dropped && t.sig.publisherFailed == s.sig.publisherFailed
  }

  lemma DecideStill(s: System, pendingOutput: bool, deadline: bool)
    requires s.at.io.IoDeciding?
    ensures Still(s, IoDecide(s, pendingOutput, deadline))
  {
  }

  /** The steps of the I/O thread that move nothing. */
  lemma IoStill(s: System, request: Option<Envelope>, pendingOutput: bool, deadline: bool)
    requires !s.at.io.IoPopping? && !s.at.io.IoAdmitting?
    ensures Still(s, IoStep(s, request, pendingOutput, deadline))
  {
    hide IoPop, IoAdmit, IoDecide;
    if s.at.io.IoDeciding? {
      DecideStill(s, pendingOutput, deadline);
    }
  }

  lemma IoKept(s: System, request: Option<Envelope>, pendingOutput: bool, deadline: bool, r: seq<Envelope>,
               u: seq<Message>)
    requires Kept(s, r, u)
    ensures Kept(IoStep(s, request, pendingOutput, deadline), r, u)
  {
    hide Kept, IoPop, IoAdmit, IoDecide;
    if s.at.io.IoPopping? {
      IoPopKept(s, r, u);
    } else if s.at.io.IoAdmitting? {
      IoAdmitKept(s, request, r, u);
    } else {
      IoStill(s, request, pendingOutput, deadline);
      hide IoStep;
      NothingMoves(s, IoStep(s, request, pendingOutput, deadline), r, u);
    }
  }

  lemma IoFlags(s: System, request: Option<Envelope>, pendingOutput: bool, deadline: bool)
    requires Flags(s) && Readers(s)
    ensures Flags(IoStep(s, request, pendingOutput, deadline))
  {
  }

  lemma IoReaders(s: System, request: Option<Envelope>, pendingOutput: bool, deadline: bool)
    requires Flags(s) && Readers(s)
    ensures Readers(IoStep(s, request, pendingOutput, deadline))
  {
  }

  /** The publisher and the I/O thread leave the engine and the handled requests alone. */
  lemma OthersFit(s: System, choice: Choice, r: seq<Envelope>, u: seq<Message>)
    requires Inv(s.engine) && Fit(s, r, u) && (choice.PublisherMoves? || choice.IoMoves?)
    ensures Fit(Next(s, choice), r, u)
    ensures Next(s, choice).engine == s.engine && Next(s, choice).past.handled == s.past.handled
  {
    hide Inv, Kept, Flags, Readers;
    match choice
    case PublisherMoves =>
      PublisherKept(s, r, u);
      PublisherFlags(s);
    case IoMoves(request, pending, deadline) =>
      IoKept(s, request, pending, deadline, r, u);
      IoFlags(s, request, pending, deadline);
      IoReaders(s, request, pending, deadline);
  }

  lemma EngineThrowFits(s: System, r: seq<Envelope>, u: seq<Message>)
    requires Fit(s, r, u) && !s.at.engine.EngineStopped?
    ensures Fit(s.(sig := s.sig.(fatal := true, dropped := true)).EngineTo(EngineStopping), r, u)
  {
    hide Accounted;
    RequestsGivenUp(s);
    GiveUp(s.sig.dropped, s.past.delivered + s.wires.responses, Unsent(s.at.engine).0, r);
    if !s.sig.publisherFailed {
      GiveUp(s.sig.dropped, s.past.published + InFlight(s.at.publisher) + s.wires.updates, Unsent(s.at.engine).1, u);
    }
  }

  lemma PublisherThrowFits(s: System, r: seq<Envelope>, u: seq<Message>)
    requires Fit(s, r, u) && !s.at.publisher.PublisherStopped?
    ensures Fit(s.(sig := s.sig.(fatal := true, publisherFailed := true)).PublisherTo(PublisherStopped), r, u)
  {
    hide ResponsesKept, RequestsKept;
    var t := s.(sig := s.sig.(fatal := true, publisherFailed := true)).PublisherTo(PublisherStopped);
    SameRequests(s, t);
    SameResponses(s, t, r);
    var rest := InFlight(s.at.publisher) + s.wires.updates + Unsent(s.at.engine).1;
    FirstPart(s.past.published, rest, u);
    assert s.past.published + InFlight(s.at.publisher) + s.wires.updates + Unsent(s.at.engine).1
        == s.past.published + rest;
  }

  lemma IoThrowFits(s: System, r: seq<Envelope>, u: seq<Message>)
    requires Fit(s, r, u)
    ensures !s.at.io.IoStopped? ==> Fit(s.(sig := s.sig.(fatal := true)).IoTo(IoExit), r, u)
    ensures Fit(s.(sig := s.sig.(stop := true)), r, u)
  {
    hide Kept;
    NothingMoves(s, s.(sig := s.sig.(fatal := true)).IoTo(IoExit), r, u);
    NothingMoves(s, s.(sig := s.sig.(stop := true)), r, u);
  }

  /** Every step of every thread keeps the invariant. */
  lemma StepKeeps(s0: Engine, s: System, choice: Choice)
    requires Inv(s0) && Sound(s0, s)
    ensures Inv(s.engine) && Sound(s0, Next(s, choice))
  {
    hide Inv, Handled, Fit, EngineStep, IoStep, PublisherStep;
    var all := Handled(s0, s.past.handled);
    match choice
    case EngineMoves => EngineKeeps(s0, s);
    case PublisherMoves => OthersFit(s, choice, all.1, all.2);
    case IoMoves(_, _, _) => OthersFit(s, choice, all.1, all.2);
    case StopSignal => IoThrowFits(s, all.1, all.2);
    case EngineThrows =>
      if !s.at.engine.EngineStopped? {
        EngineThrowFits(s, all.1, all.2);
      }
    case PublisherThrows =>
      if !s.at.publisher.PublisherStopped? {
        PublisherThrowFits(s, all.1, all.2);
      }
    case IoThrows => IoThrowFits(s, all.1, all.2);
  }

  // ---- Every run ----------------------------------------------------------

  /** The exchange when its threads have just been started. */
  function Started(s0: Engine): System {
    System(s0, Wires([], [], []), Signals(false, false, false, false, false, false, false),
           Threads(EngineTop, PublisherTop, IoTop), Past([], [], [], []))
  }

  ghost function RunSystem(s0: Engine, choices: seq<Choice>): (t: System)
    requires Inv(s0)
    ensures Sound(s0, t)
    decreases |choices|
  {
    if choices == [] then
      assert Handled(s0, []) == (s0, [], []);
      Started(s0)
    else
      var s := RunSystem(s0, choices[..|choices| - 1]);
      StepKeeps(s0, s, choices[|choices| - 1]);
      Next(s, choices[|choices| - 1])
  }

  lemma OutcomeNumbered(s: Engine, c: Envelope)
    requires Inv(s)
    ensures var (t, _, updates) := Outcome(s, c);
      Numbered(updates, s.sequence, s.epoch) && t.sequence == s.sequence + |updates| && t.epoch == s.epoch
  {
    hide Core, Bounded, Process;
    ProcessContinues(s, c.message);
  }

  lemma {:induction false} UpdatesNumbered(s0: Engine, requests: seq<Envelope>)
    requires Inv(s0)
    ensures var (s, _, updates) := Handled(s0, requests);
      Numbered(updates, s0.sequence, s0.epoch) && s.sequence == s0.sequence + |updates| && s.epoch == s0.epoch
    decreases |requests|
  {
    hide Inv, Outcome;
    if requests != [] {
      var n := |requests| - 1;
      UpdatesNumbered(s0, requests[..n]);
      OutcomeNumbered(Handled(s0, requests[..n]).0, requests[n]);
    }
  }

  /**
   Whatever the interleaving, and even after a failure: requests are handled in admission order and at most once,
   responses reach the I/O thread in the order the engine made them, and the deltas that were published carry
   consecutive sequence numbers from the start.
   */
  lemma EveryScheduleInOrder(s0: Engine, choices: seq<Choice>)
    requires Inv(s0)
    ensures var t := RunSystem(s0, choices);
      var all := Handled(s0, t.past.handled);
      && IsPrefix(t.past.handled, t.past.admitted) && t.engine == all.0
      && IsPrefix(t.past.delivered, all.1) && IsPrefix(t.past.published, all.2)
      && Numbered(t.past.published, s0.sequence, s0.epoch)
  {
    hide Inv, Handled, RunSystem, Kept, Flags, Readers;
    var t := RunSystem(s0, choices);
    var all := Handled(s0, t.past.handled);
    UpdatesNumbered(s0, t.past.handled);
    KeptInOrder(t, all.1, all.2);
  }

  lemma KeptInOrder(t: System, r: seq<Envelope>, u: seq<Message>)
    requires Kept(t, r, u)
    ensures IsPrefix(t.past.handled, t.past.admitted) && IsPrefix(t.past.delivered, r) && IsPrefix(t.past.published, u)
  {
    hide UpdatesKept, ResponsesKept, RequestsKept, IsPrefix;
    RequestsGivenUp(t);
    ResponsesInOrder(t, r);
    UpdatesInOrder(t, u);
  }

  lemma ResponsesInOrder(t: System, r: seq<Envelope>)
    requires ResponsesKept(t, r)
    ensures IsPrefix(t.past.delivered, r)
  {
    hide IsPrefix;
    var rest := t.wires.responses + Unsent(t.at.engine).0;
    FirstPart(t.past.delivered, rest, r);
    assert t.past.delivered + t.wires.responses + Unsent(t.at.engine).0 == t.past.delivered + rest;
  }

  lemma UpdatesInOrder(t: System, u: seq<Message>)
    requires UpdatesKept(t, u)
    ensures IsPrefix(t.past.published, u)
  {
    hide IsPrefix;
    var rest := InFlight(t.at.publisher) + t.wires.updates + Unsent(t.at.engine).1;
    FirstPart(t.past.published, rest, u);
    assert t.past.published + InFlight(t.at.publisher) + t.wires.updates + Unsent(t.at.engine).1
        == t.past.published + rest;
  }

  /** All three threads have returned and nobody raised the alarm. */
  predicate StoppedCleanly(s: System) {
    s.at.engine.EngineStopped? && s.at.publisher.PublisherStopped? && s.at.io.IoStopped? && !s.sig.fatal
  }

  /**
   Clean drain: if every thread has stopped without the fatal flag, every admitted request was handled, once
   and in order, every response was taken from its queue and every delta was published.
   */
  lemma CleanDrain(s0: Engine, choices: seq<Choice>)
    requires Inv(s0) && StoppedCleanly(RunSystem(s0, choices))
    ensures var t := RunSystem(s0, choices);
      && t.past.handled == t.past.admitted && t.wires.requests == [] && t.wires.responses == [] && t.wires.updates == []
      && (t.engine, t.past.delivered, t.past.published) == Handled(s0, t.past.admitted)
  {
    hide Inv, Handled, RunSystem;
    var t := RunSystem(s0, choices);
    assert t.past.delivered + [] + [] == t.past.delivered;
    assert t.past.published + [] + [] + [] == t.past.published;
    assert t.past.handled + [] + [] == t.past.handled;
  }

  /** One more step of a schedule. */
  lemma OneMore(s0: Engine, choices: seq<Choice>, c: Choice)
    requires Inv(s0)
    ensures var s := RunSystem(s0, choices); Inv(s.engine) && RunSystem(s0, choices + [c]) == Next(s, c)
  {
    hide Inv, Sound, Next;
    assert (choices + [c])[..|choices|] == choices;
    StepKeeps(s0, RunSystem(s0, choices), c);
  }

  // ---- When threads leave -------------------------------------------------

  /**
   Nobody leaves early. Without an alarm: the I/O thread leaves while draining, after it has seen the engine thread
   finished, the response queue empty and no output pending; the engine thread when it has seen admission closed
   and the request queue empty; the publisher when it has seen the engine thread finished and its queue empty.
   */
  lemma NobodyLeavesEarly(s: System, c: Choice)
    requires Inv(s.engine) && !Next(s, c).sig.fatal
    ensures var t := Next(s, c);
      && (t.at.io.IoExit? && !s.at.io.IoExit? ==>
            s.at.io.IoDeciding? && s.sig.draining && s.at.io.matchingFinished && s.at.io.responsesEmpty
            && c.IoMoves? && !c.pendingOutput)
      && (t.at.engine.EngineStopping? && !s.at.engine.EngineStopping? ==>
            s.at.engine.EngineLoaded? && s.at.engine.inputFinished && s.wires.requests == [])
      && (t.at.publisher.PublisherStopped? && !s.at.publisher.PublisherStopped? ==>
            s.at.publisher.PublisherLoaded? && s.at.publisher.matchingFinished && s.wires.updates == [])
  {
    hide Inv, Outcome;
  }

  /** What a thread decides by is what it saw when it last looked. */
  lemma SeenFlags(s: System, c: Choice)
    requires Inv(s.engine)
    ensures var t := Next(s, c);
      && (t.at.io.IoPopping? && !s.at.io.IoPopping? ==> t.at.io.finished == s.sig.engineDone && t.at.io.popped == 0)
      && (t.at.engine.EngineLoaded? && !s.at.engine.EngineLoaded? ==> t.at.engine.inputFinished == s.sig.ingressDone)
      && (t.at.publisher.PublisherLoaded? && !s.at.publisher.PublisherLoaded? ==>
            t.at.publisher.matchingFinished == s.sig.engineDone)
      && (t.at.io.IoDeciding? && !s.at.io.IoDeciding? ==>
            s.at.io.IoPopping? && t.at.io.matchingFinished == s.at.io.finished
            && (t.at.io.responsesEmpty ==> s.wires.responses == []))
  {
    hide Inv, Outcome;
  }

  /** Once draining has begun nothing is admitted, and it does not end. */
  lemma DrainingAdmitsNothing(s: System, c: Choice)
    requires Inv(s.engine) && s.sig.draining
    ensures Next(s, c).past.admitted == s.past.admitted && Next(s, c).sig.draining
  {
    hide Inv, Outcome;
  }

  // ---- Whose answers they are ---------------------------------------------

  /**
   The message answers the request: snapshot rows go back to the connection that asked, a report goes there if it
   concerns the client that asked, and to no named connection if it concerns another.
   */
  predicate AnswerTo(x: Envelope, c: Envelope) {
    x.connection
      == if c.message.action == Snapshot || x.message.clientId == c.message.clientId then c.connection else 0
  }

  /** Row `k` of the answer to one request is report `k` of its command, or row `k` of the snapshot, which changes nothing. */
  lemma OneAnswered(s: Engine, c: Envelope)
    requires Inv(s)
    ensures var (s', responses, updates) := Outcome(s, c);
      && (forall x | x in responses :: AnswerTo(x, c))
      && if c.message.action == Snapshot then
           s' == s && updates == [] && Bodies(responses) == EngineSnapshot(s)
         else
           var r := Process(s, c.message);
           s' == r.engine && updates == r.batch.updates && Bodies(responses) == r.batch.reports
  {
    hide Inv, Process, EngineSnapshot;
  }

  function Bodies(xs: seq<Envelope>): seq<Message> {
    seq(|xs|, k requires 0 <= k < |xs| => xs[k].message)
  }

  lemma {:induction false} AllAnswered(s0: Engine, requests: seq<Envelope>)
    requires Inv(s0)
    ensures forall x | x in Handled(s0, requests).1 :: exists c :: c in requests && AnswerTo(x, c)
    decreases |requests|
  {
    hide Inv, Outcome, AnswerTo;
    if requests != [] {
      var n := |requests| - 1;
      AllAnswered(s0, requests[..n]);
      var before := Handled(s0, requests[..n]);
      OneAnswered(before.0, requests[n]);
      forall x | x in Handled(s0, requests).1 ensures exists c :: c in requests && AnswerTo(x, c) {
        if x in before.1 {
          var c :| c in requests[..n] && AnswerTo(x, c);
          assert c in requests;
        } else {
          assert requests[n] in requests && AnswerTo(x, requests[n]);
        }
      }
    }
  }

  /** Under every schedule, everything delivered answers an admitted request, and names no connection but the one that asked. */
  lemma AnswersGoHome(s0: Engine, choices: seq<Choice>)
    requires Inv(s0)
    ensures var t := RunSystem(s0, choices);
      forall x | x in t.past.delivered :: exists c :: c in t.past.admitted && AnswerTo(x, c)
  {
    hide Inv, Handled, RunSystem, AnswerTo;
    var t := RunSystem(s0, choices);
    EveryScheduleInOrder(s0, choices);
    AllAnswered(s0, t.past.handled);
    forall x | x in t.past.delivered ensures exists c :: c in t.past.admitted && AnswerTo(x, c) {
      assert x in Handled(s0, t.past.handled).1;
      var c :| c in t.past.handled && AnswerTo(x, c);
      assert c in t.past.admitted;
    }
  }
}
