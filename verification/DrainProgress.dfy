/**
 The drain cannot get stuck: from every state that any schedule reaches without the fatal
 flag, some schedule stops every thread cleanly, however full the bounded queues are.
 */
module DrainProgress {
  import opened Types
  import opened EngineModel
  import opened Drain

  /** The I/O thread works without leaving, and without admitting anything. */
  const WAIT := IoMoves(None, true, false)
  /** The I/O thread leaves as soon as it may. */
  const LEAVE := IoMoves(None, false, false)

  /** How far the shutdown still is: to be announced, to close admission, the engine, the publisher, the I/O thread. */
  function Phase(s: System): nat {
    if !s.sig.stop then 4
    else if !s.sig.ingressDone then 3
    else if !s.sig.engineDone then 2
    else if !s.at.publisher.PublisherStopped? then 1
    else 0
  }

  predicate ResponsesFull(s: System) {
    && s.at.engine.EnginePushing? && !s.at.engine.blocked
    && s.at.engine.responses != [] && |s.wires.responses| >= QUEUE_SIZE
  }

  predicate UpdatesFull(s: System) {
    && s.at.engine.EnginePushing? && !s.at.engine.blocked
    && s.at.engine.responses == [] && s.at.engine.updates != [] && |s.wires.updates| >= QUEUE_SIZE
  }

  /** The next choice: whoever the shutdown is waiting for, or whoever makes room for it. */
  function Plan(s: System): Choice {
    match Phase(s)
    case 4 => StopSignal
    case 3 => WAIT
    case 2 => if ResponsesFull(s) then WAIT else if UpdatesFull(s) then PublisherMoves else EngineMoves
    case 1 => PublisherMoves
    case _ => LEAVE
  }

  // ---- What every planned step brings down --------------------------------

  function CloseRank(at: IoThread): nat {
    match at
    case IoClosing => 1
    case IoTop => 2
    case IoAdmitting => 3
    case IoDeciding(_, _) => 4
    case IoPopping(_, _) => 5
    case IoLoading => 6
    case _ => 0
  }

  function RoomRank(at: IoThread): nat {
    match at
    case IoPopping(_, popped) => if popped < 4096 then 0 else 6
    case IoLoading => 1
    case IoClosing => 2
    case IoTop => 3
    case IoAdmitting => 4
    case IoDeciding(_, _) => 5
    case _ => 0
  }

  function EngineRank(at: EngineThread): nat {
    match at
    case EngineStopped => 0
    case EngineStopping => 1
    case EngineHolding(_) => 1
    case EngineLoaded(finished) => if finished then 2 else 6
    case EngineChecked => 3
    case EngineTop => 4
    case EngineIdle => 5
    case EnginePushing(_, _, blocked) => if blocked then 8 else 7
  }

  function SendRank(at: PublisherThread): nat {
    match at
    case PublisherLoaded(_) => 0
    case PublisherTop => 1
    case PublisherSent => 2
    case PublisherHolding(_) => 3
    case PublisherStopped => 0
  }

  function StopRank(at: PublisherThread): nat {
    match at
    case PublisherHolding(_) => 0
    case PublisherLoaded(finished) => if finished then 1 else 4
    case PublisherTop => 2
    case PublisherSent => 3
    case PublisherStopped => 0
  }

  function LeaveRank(at: IoThread): nat {
    match at
    case IoStopped => 0
    case IoExit => 1
    case IoDeciding(finished, empty) => if finished && empty then 2 else 8
    case IoPopping(finished, popped) => if finished && popped == 0 then 3 else 9
    case IoLoading => 4
    case IoClosing => 5
    case IoTop => 6
    case IoAdmitting => 7
  }

  /** The work left in the phase, the most significant part first. */
  function Work(s: System): (nat, nat, nat, nat) {
    match Phase(s)
    case 4 => (0, 0, 0, 0)
    case 3 => (0, 0, |s.wires.responses|, CloseRank(s.at.io))
    case 2 =>
      (|s.wires.requests| + |InHand(s.at.engine)|,
       |Unsent(s.at.engine).0| + |Unsent(s.at.engine).1|,
       |s.wires.responses| + |s.wires.updates|,
       EngineRank(s.at.engine) + RoomRank(s.at.io) + SendRank(s.at.publisher))
    case 1 => (0, 0, |s.wires.updates| + |InFlight(s.at.publisher)|, StopRank(s.at.publisher))
    case _ => (0, 0, |s.wires.responses|, LeaveRank(s.at.io))
  }

  predicate Less(a: (nat, nat, nat, nat), b: (nat, nat, nat, nat)) {
    || a.0 < b.0
    || (a.0 == b.0 && a.1 < b.1)
    || (a.0 == b.0 && a.1 == b.1 && a.2 < b.2)
    || (a.0 == b.0 && a.1 == b.1 && a.2 == b.2 && a.3 < b.3)
  }

  predicate Nearer(t: System, s: System) {
    !t.sig.fatal && (Phase(t) < Phase(s) || (Phase(t) == Phase(s) && Less(Work(t), Work(s))))
  }

  lemma ClosingAdvances(s: System)
    requires Flags(s) && Readers(s) && !s.sig.fatal && Phase(s) == 3
    ensures Nearer(IoStep(s, None, true, false), s)
  {
  }

  lemma EngineAdvances(s: System)
    requires Inv(s.engine) && Flags(s) && Readers(s) && !s.sig.fatal && Phase(s) == 2
    requires !ResponsesFull(s) && !UpdatesFull(s)
    ensures Nearer(EngineStep(s), s)
  {
    hide Inv, Outcome;
  }

  lemma RoomAdvances(s: System)
    requires Flags(s) && Readers(s) && !s.sig.fatal && Phase(s) == 2 && ResponsesFull(s)
    ensures Nearer(IoStep(s, None, true, false), s)
  {
  }

  lemma SendAdvances(s: System)
    requires Flags(s) && Readers(s) && !s.sig.fatal && Phase(s) == 2 && UpdatesFull(s)
    ensures Nearer(PublisherStep(s), s)
  {
  }

  lemma PublisherAdvances(s: System)
    requires Flags(s) && Readers(s) && !s.sig.fatal && Phase(s) == 1
    ensures Nearer(PublisherStep(s), s)
  {
  }

  lemma LeavingAdvances(s: System)
    requires Flags(s) && Readers(s) && !s.sig.fatal && Phase(s) == 0 && !s.at.io.IoStopped?
    ensures Nearer(IoStep(s, None, false, false), s)
  {
  }

  /** Until everything has stopped, the planned step exists and brings the end nearer. */
  lemma PlanAdvances(s: System)
    requires Inv(s.engine) && Flags(s) && Readers(s) && !s.sig.fatal && !StoppedCleanly(s)
    ensures Nearer(Next(s, Plan(s)), s)
  {
    hide Inv, Nearer, EngineStep, PublisherStep, IoStep;
    if Phase(s) == 4 {
      Announced(s);
    } else if Phase(s) == 3 {
      ClosingAdvances(s);
    } else if Phase(s) == 2 {
      if ResponsesFull(s) {
        RoomAdvances(s);
      } else if UpdatesFull(s) {
        SendAdvances(s);
      } else {
        EngineAdvances(s);
      }
    } else if Phase(s) == 1 {
      PublisherAdvances(s);
    } else {
      LeavingAdvances(s);
    }
  }

  lemma Announced(s: System)
    requires !s.sig.fatal && Phase(s) == 4
    ensures Nearer(s.(sig := s.sig.(stop := true)), s)
  {
  }

  /**
   No deadlock: every schedule that has not raised the alarm can be continued to a clean stop, in which by
   `CleanDrain` nothing is left behind.
   */
  lemma {:induction false} CleanStopAlwaysPossible(s0: Engine, choices: seq<Choice>) returns (more: seq<Choice>)
    requires Inv(s0) && !RunSystem(s0, choices).sig.fatal
    ensures StoppedCleanly(RunSystem(s0, choices + more))
    decreases Phase(RunSystem(s0, choices)), Work(RunSystem(s0, choices)).0, Work(RunSystem(s0, choices)).1,
              Work(RunSystem(s0, choices)).2, Work(RunSystem(s0, choices)).3
  {
    hide Inv, RunSystem, StoppedCleanly, Phase, Work, Plan, Next, Kept, Flags, Readers;
    var s := RunSystem(s0, choices);
    if StoppedCleanly(s) {
      more := [];
      assert choices + more == choices;
    } else {
      OneMore(s0, choices, Plan(s));
      PlanAdvances(s);
      var rest := CleanStopAlwaysPossible(s0, choices + [Plan(s)]);
      more := [Plan(s)] + rest;
      assert choices + more == choices + [Plan(s)] + rest;
    }
  }
}
