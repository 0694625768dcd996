/** The one-shot exit channel between the goroutine that waits for mysqld and the code
    that launched it, under every interleaving of mysqld, goroutine, launcher and
    cancellation. The launcher is a start of the node, or an upgrade. A move that is not
    possible changes nothing. */
module ExitChannel {
  import opened Trace

  datatype Result =
    | StartupError                 // the startup loop found an exit message
    | PipelineError                // upgrade polling, seeding, SQL or the state file write failed
    | SignalError                  // SIGTERM could not be sent
    | Returned(exit: Exit)         // an exit message was received while supervising

  datatype Pc =
    | DoingUpgrade                    // upgrade: polling, script and stop; the channel is not looked at
    | Checking                     // node start, top of the startup loop: a look at the channel
    | Polling | Sleeping
    | Finishing                    // seeding, SQL, state file, status server
    | Selecting                    // waiting for the exit message or a cancellation
    | Signalling
    | Receiving                    // waiting for the exit message alone
    | Done(result: Result)

  datatype Process = Running | Exited(exit: Exit)

  /** The goroutine: waiting for the process, about to send, done. */
  datatype Waiter = Waits | Holds(exit: Exit) | Sent

  const CAPACITY := 1

  datatype System = System(
    pc: Pc, process: Process, waiter: Waiter, buffer: seq<Exit>, cancelled: bool, received: nat)

  datatype Move =
    | MysqldExits(exit: Exit)
    | WaitReturns
    | Sends
    | Cancel
    | Work(ok: bool)
    | Check | Poll(reachable: bool) | Wake | Finish(ok: bool)
    | SelectExit | SelectCancel | Signal(ok: bool) | Receive

  function Take(s: System, result: Result): System
    requires s.buffer != []
  {
    s.(pc := Done(result), buffer := s.buffer[1..], received := s.received + 1)
  }

  function Step(s: System, m: Move): System {
    match m
    case MysqldExits(exit) => if s.process.Running? then s.(process := Exited(exit)) else s
    case WaitReturns => if s.waiter.Waits? && s.process.Exited? then s.(waiter := Holds(s.process.exit)) else s
    case Sends =>
      if s.waiter.Holds? && |s.buffer| < CAPACITY then s.(waiter := Sent, buffer := s.buffer + [s.waiter.exit]) else s
    case Cancel => s.(cancelled := true)
    case Work(ok) => if s.pc.DoingUpgrade? then s.(pc := if ok then Receiving else Done(PipelineError)) else s
    case Check =>
      if !s.pc.Checking? then s
      else if s.buffer != [] then Take(s, StartupError)
      else s.(pc := Polling)
    case Poll(reachable) => if s.pc.Polling? then s.(pc := if reachable then Finishing else Sleeping) else s
    case Wake => if s.pc.Sleeping? then s.(pc := Checking) else s
    case Finish(ok) => if s.pc.Finishing? then s.(pc := if ok then Selecting else Done(PipelineError)) else s
    case SelectExit => if s.pc.Selecting? && s.buffer != [] then Take(s, Returned(s.buffer[0])) else s
    case SelectCancel => if s.pc.Selecting? && s.cancelled then s.(pc := Signalling) else s
    case Signal(ok) => if s.pc.Signalling? then s.(pc := if ok then Receiving else Done(SignalError)) else s
    case Receive => if s.pc.Receiving? && s.buffer != [] then Take(s, Returned(s.buffer[0])) else s
  }

  /** The state after a sequence of moves from the launch of mysqld. */
  function Run(upgrade: bool, moves: seq<Move>): System {
    if moves == [] then System(if upgrade then DoingUpgrade else Checking, Running, Waits, [], false, 0)
    else Step(Run(upgrade, moves[..|moves| - 1]), moves[|moves| - 1])
  }

  /** Messages sent are the one in the channel and the one received. */
  predicate Conserved(s: System) {
    (if s.waiter.Sent? then 1 else 0) == |s.buffer| + s.received
  }

  predicate Invariant(s: System) {
    && Conserved(s)
    && (s.waiter.Holds? ==> s.process == Exited(s.waiter.exit))
    && (s.buffer != [] ==> s.process == Exited(s.buffer[0]))
    && (s.received == 1 <==> s.pc == Done(StartupError) || (s.pc.Done? && s.pc.result.Returned?))
    && (s.received == 1 ==> s.process.Exited?)
    && (s.pc.Done? && s.pc.result.Returned? ==> s.process == Exited(s.pc.result.exit))
    && (s.pc.Signalling? || s.pc == Done(SignalError) ==> s.cancelled)
  }

  lemma {:induction false} StepKeepsInvariant(s: System, m: Move)
    requires Invariant(s)
    ensures Invariant(Step(s, m))
  {
  }

  lemma {:induction false} RunKeepsInvariant(upgrade: bool, moves: seq<Move>)
    ensures Invariant(Run(upgrade, moves))
  {
    if moves != [] {
      RunKeepsInvariant(upgrade, moves[..|moves| - 1]);
      StepKeepsInvariant(Run(upgrade, moves[..|moves| - 1]), moves[|moves| - 1]);
    }
  }

  /** Whatever the launcher is doing, or whether it has returned, the send finds room. */
  lemma {:induction false} SendNeverBlocks(upgrade: bool, moves: seq<Move>)
    ensures Run(upgrade, moves).waiter.Holds? ==> Step(Run(upgrade, moves), Sends).waiter.Sent?
  {
    RunKeepsInvariant(upgrade, moves);
  }

  /** The message is consumed at most once; the startup loop consumes it only when the
      start then fails; and a launcher that returns an exit returns the exit of mysqld. */
  lemma {:induction false} ExitMessageIsConserved(upgrade: bool, moves: seq<Move>)
    ensures var s := Run(upgrade, moves);
      && Conserved(s) && s.received <= 1
      && (s.received == 1 <==> s.pc == Done(StartupError) || (s.pc.Done? && s.pc.result.Returned?))
      && (s.pc.Done? && s.pc.result.Returned? ==> s.process == Exited(s.pc.result.exit))
      && (s.pc.Signalling? || s.pc == Done(SignalError) ==> s.cancelled)
  {
    RunKeepsInvariant(upgrade, moves);
  }

  /** The launcher of a node waits for the message alone only after a cancellation; an upgrade
      waits for nothing else once its work is done. */
  lemma {:induction false} ReceivesAfterCancel(moves: seq<Move>)
    ensures Run(false, moves).pc.Receiving? ==> Run(false, moves).cancelled
    ensures Run(true, moves).pc in {DoingUpgrade, Receiving} || Run(true, moves).pc.Done?
    ensures !Run(false, moves).pc.DoingUpgrade?
  {
    if moves != [] {
      ReceivesAfterCancel(moves[..|moves| - 1]);
      RunKeepsInvariant(false, moves[..|moves| - 1]);
    }
  }

  /** An upgrade that has done its work returns the exit of its mysqld; one that has not
      returns without it. */
  lemma {:induction false} UpgradeReturns(moves: seq<Move>, ok: bool)
    requires Run(true, moves).pc.DoingUpgrade?
    ensures var s := Step(Run(true, moves), Work(ok));
      if ok then s.pc.Receiving? && (s.buffer != [] ==> Step(s, Receive).pc == Done(Returned(s.buffer[0])))
      else s.pc == Done(PipelineError)
  {
  }

  /** While the launcher is running and mysqld has exited, the message is still to come or
      waiting in the channel: the goroutine alone can bring it there. */
  lemma {:induction false} MessageIsNotLost(upgrade: bool, moves: seq<Move>)
    requires !Run(upgrade, moves).pc.Done? && Run(upgrade, moves).process.Exited?
    ensures var s := Step(Step(Run(upgrade, moves), WaitReturns), Sends);
      s.pc == Run(upgrade, moves).pc && s.buffer == [Run(upgrade, moves).process.exit]
  {
    RunKeepsInvariant(upgrade, moves);
  }

  // ------------------------------------------------------------ progress

  /** How many steps of its own the launcher still takes once the message is in the channel. */
  function StepsLeft(pc: Pc): nat {
    match pc
    case Done(_) => 0
    case DoingUpgrade => 2
    case Receiving => 1 case Signalling => 2 case Selecting => 3 case Finishing => 4
    case Checking => 1 case Sleeping => 2 case Polling => 5
  }

  predicate OwnMove(m: Move) {
    !m.MysqldExits? && !m.WaitReturns? && !m.Sends? && !m.Cancel?
  }

  /** With the message in the channel the launcher is never stuck and every step it takes
      brings it closer to returning. */
  lemma {:induction false} ReturnsOnceMessageIsThere(upgrade: bool, moves: seq<Move>, m: Move)
    requires Run(upgrade, moves).waiter.Sent? && !Run(upgrade, moves).pc.Done?
    ensures OwnMove(m) && Step(Run(upgrade, moves), m) != Run(upgrade, moves) ==>
      StepsLeft(Step(Run(upgrade, moves), m).pc) < StepsLeft(Run(upgrade, moves).pc)
    ensures exists own :: OwnMove(own) && Step(Run(upgrade, moves), own) != Run(upgrade, moves)
  {
    RunKeepsInvariant(upgrade, moves);
    var s := Run(upgrade, moves);
    var own := match s.pc
      case DoingUpgrade => Work(true) case Checking => Check case Polling => Move.Poll(true)
      case Sleeping => Wake case Finishing => Finish(true) case Selecting => SelectExit
      case Signalling => Signal(true) case _ => Receive;
    assert OwnMove(own) && Step(s, own).pc != s.pc;
  }

  /** The launcher's steps `own` are all effective from `s` on. */
  predicate Effective(s: System, own: seq<Move>)
    decreases |own|
  {
    own == [] || (OwnMove(own[0]) && Step(s, own[0]) != s && Effective(Step(s, own[0]), own[1..]))
  }

  /** So after the message has been sent the launcher takes at most five more steps. */
  lemma {:induction false} AtMostFiveStepsAfterExit(upgrade: bool, moves: seq<Move>, own: seq<Move>)
    requires Run(upgrade, moves).waiter.Sent? && Effective(Run(upgrade, moves), own)
    ensures |own| <= StepsLeft(Run(upgrade, moves).pc) <= 5
    decreases |own|
  {
    if own != [] {
      var longer := moves + [own[0]];
      assert longer[..|moves|] == moves;
      assert Run(upgrade, longer) == Step(Run(upgrade, moves), own[0]);
      RunKeepsInvariant(upgrade, moves);
      assert !Run(upgrade, moves).pc.Done?;
      ReturnsOnceMessageIsThere(upgrade, moves, own[0]);
      AtMostFiveStepsAfterExit(upgrade, longer, own[1..]);
    }
  }
}
