/** `Execute` is stated over what its startup rounds find and over how its supervision ends.
    Here these are tied to the interleavings of the exit channel: every run of the channel
    is described by some rounds and some ending, every such description has a run, and what
    `Execute` returns is what that run comes to. */
module ExitOracle {
  import opened Options
  import opened Trace
  import opened Upgrader
  import opened StartManager
  import opened Seeding
  import opened AccountDatabase
  import Channel = ExitChannel

  /** What one start of the node comes to, as `Execute` accounts for it; `populated` says
      whether seeding, SQL and the write of the state file succeed. */
  ghost function Ends(ticks: seq<Tick>, populated: bool, finish: Finish): Channel.Result {
    if !BecomesReachable(ticks) then Channel.StartupError
    else if !populated then Channel.PipelineError
    else if finish.Cancelled? && !finish.signalOk then Channel.SignalError
    else Channel.Returned(finish.exit)
  }

  /** The outcome of `Execute` is what the launcher of the channel returns. */
  predicate Corresponds(r: Outcome, result: Channel.Result) {
    match result
    case StartupError => r == Failure(MysqldExited)
    case PipelineError =>
      r in {Failure(SeedFailed), Failure(SeedUsersFailed), Failure(PostStartSqlFailed), Failure(StateNotWritten)}
    case SignalError => r == Failure(SignalFailed)
    case Returned(exit) => r == if exit.Clean? then Success else Failure(MysqldFailed(exit))
  }

  /** Seeding, SQL and the write of the state file all succeed. */
  predicate PopulatedAndRecorded(
    env: Environment, s: Session, entries: seq<PreseededDatabase>, users: seq<SeededUser>) {
    Populated(s, entries, users, SqlSucceeds(env.start)).Success? && env.write.Complete?
  }

  lemma {:induction false} VerdictCorresponds(
    env: Environment, s: Session, entries: seq<PreseededDatabase>, users: seq<SeededUser>)
    ensures Corresponds(Verdict(env, s, entries, users),
                        Ends(env.start.ticks, PopulatedAndRecorded(env, s, entries, users), env.finish))
  {
  }

  // ------------------------------------------ from the channel to the account

  const UNREACHABLE := View(false, QueryFailed, QueryFailed)
  const REACHABLE := View(true, NoRow, NoRow)

  /** The round that a move completes, if it completes one. */
  function RoundOf(s: Channel.System, m: Channel.Move): seq<Tick> {
    if m.Check? && s.pc.Checking? && s.buffer != [] then [Tick(Some(s.buffer[0]), UNREACHABLE)]
    else if m.Poll? && s.pc.Polling? then [Tick(None, if m.reachable then REACHABLE else UNREACHABLE)]
    else []
  }

  /** The rounds of the startup loop in a run of the channel. */
  function Rounds(moves: seq<Channel.Move>): seq<Tick> {
    if moves == [] then []
    else
      var before := moves[..|moves| - 1];
      Rounds(before) + RoundOf(Channel.Run(false, before), moves[|moves| - 1])
  }

  /** SIGTERM was sent, or could not be. */
  predicate Terminates(moves: seq<Channel.Move>) {
    moves != [] &&
    var before := moves[..|moves| - 1];
    Terminates(before) || (moves[|moves| - 1].Signal? && Channel.Run(false, before).pc.Signalling?)
  }

  predicate NoneSettled(ticks: seq<Tick>) {
    forall i :: 0 <= i < |ticks| ==> !Settled(ticks[i])
  }

  /** Only the last round settles the wait. */
  predicate LastSettles(ticks: seq<Tick>) {
    ticks != [] && NoneSettled(ticks[..|ticks| - 1]) && Settled(ticks[|ticks| - 1])
  }

  predicate Describes(ticks: seq<Tick>, signalled: bool, pc: Channel.Pc) {
    match pc
    case DoingUpgrade => false
    case Checking => NoneSettled(ticks) && !signalled
    case Polling => NoneSettled(ticks) && !signalled
    case Sleeping => NoneSettled(ticks) && !signalled
    case Done(StartupError) => LastSettles(ticks) && ticks[|ticks| - 1].exit.Some? && !signalled
    case Receiving => LastSettles(ticks) && ticks[|ticks| - 1].exit.None? && signalled
    case Done(SignalError) => LastSettles(ticks) && ticks[|ticks| - 1].exit.None? && signalled
    case Done(Returned(_)) => LastSettles(ticks) && ticks[|ticks| - 1].exit.None?
    case _ => LastSettles(ticks) && ticks[|ticks| - 1].exit.None? && !signalled
  }

  lemma {:induction false} RoundsDescribe(moves: seq<Channel.Move>)
    ensures Describes(Rounds(moves), Terminates(moves), Channel.Run(false, moves).pc)
  {
    if moves != [] {
      var before, m := moves[..|moves| - 1], moves[|moves| - 1];
      RoundsDescribe(before);
      StepDescribes(Rounds(before), Terminates(before), Channel.Run(false, before), m);
    }
  }

  lemma {:induction false} StepDescribes(ticks: seq<Tick>, signalled: bool, s: Channel.System, m: Channel.Move)
    requires Describes(ticks, signalled, s.pc)
    ensures Describes(ticks + RoundOf(s, m), signalled || (m.Signal? && s.pc.Signalling?), Channel.Step(s, m).pc)
  {
    var round := RoundOf(s, m);
    if round == [] {
      assert ticks + round == ticks;
    } else {
      assert (ticks + round)[..|ticks|] == ticks && (ticks + round)[|ticks|] == round[0];
    }
  }

  lemma {:induction false} LastSettlesIsFirst(ticks: seq<Tick>)
    requires LastSettles(ticks)
    ensures Settles(ticks) && (BecomesReachable(ticks) <==> ticks[|ticks| - 1].exit.None?)
  {
    var last := |ticks| - 1;
    forall j | 0 <= j < last ensures !Settled(ticks[j]) { assert ticks[j] == ticks[..last][j]; }
    if ticks[last].exit.None? { assert ReachableAt(ticks, last); }
  }

  /** However mysqld, goroutine, launcher and cancellation interleave, a start that returns
      returns what `Execute` accounts for with the rounds that were observed and with an
      ending that is a cancellation exactly if SIGTERM was sent. */
  lemma {:induction false} ChannelIsAccountedFor(moves: seq<Channel.Move>)
    returns (populated: bool, finish: Finish)
    requires Channel.Run(false, moves).pc.Done?
    ensures Settles(Rounds(moves))
    ensures Channel.Run(false, moves).pc.result == Ends(Rounds(moves), populated, finish)
    ensures BecomesReachable(Rounds(moves)) && populated ==> (finish.Cancelled? <==> Terminates(moves))
  {
    var result := Channel.Run(false, moves).pc.result;
    RoundsDescribe(moves);
    LastSettlesIsFirst(Rounds(moves));
    populated := !result.PipelineError?;
    var exit := if result.Returned? then result.exit else Clean;
    finish := if Terminates(moves) then Cancelled(result.Returned?, exit) else MysqldExits(exit);
  }

  // ------------------------------------------ from the account to the channel

  /** A run under construction: it leads to `s`, after these rounds. */
  predicate Leads(moves: seq<Channel.Move>, s: Channel.System, rounds: seq<Tick>, signalled: bool) {
    Channel.Run(false, moves) == s && Rounds(moves) == rounds && (Terminates(moves) <==> signalled)
  }

  /** mysqld runs, nothing has been sent and nobody has cancelled. */
  function At(pc: Channel.Pc): Channel.System {
    Channel.System(pc, Channel.Running, Channel.Waits, [], false, 0)
  }

  lemma {:induction false} Then(
    moves: seq<Channel.Move>, s: Channel.System, rounds: seq<Tick>, t: bool, m: Channel.Move)
    returns (longer: seq<Channel.Move>)
    requires Leads(moves, s, rounds, t)
    ensures Leads(longer, Channel.Step(s, m), rounds + RoundOf(s, m), t || (m.Signal? && s.pc.Signalling?))
  {
    longer := moves + [m];
    assert longer[..|moves|] == moves;
  }

  /** A move that completes no round and sends no signal. */
  lemma {:induction false} ThenQuietly(
    moves: seq<Channel.Move>, s: Channel.System, rounds: seq<Tick>, t: bool, m: Channel.Move)
    returns (longer: seq<Channel.Move>)
    requires Leads(moves, s, rounds, t) && !m.Signal? && RoundOf(s, m) == []
    ensures Leads(longer, Channel.Step(s, m), rounds, t)
  {
    longer := Then(moves, s, rounds, t, m);
    assert rounds + [] == rounds;
  }

  /** Rounds that find mysqld running and the database unreachable. */
  function VainTicks(n: nat): seq<Tick> {
    seq(n, i => Tick(None, UNREACHABLE))
  }

  lemma {:induction false} VainRounds(n: nat) returns (moves: seq<Channel.Move>)
    ensures Leads(moves, At(Channel.Checking), VainTicks(n), false)
  {
    if n == 0 {
      moves := [];
    } else {
      moves := VainRounds(n - 1);
      moves := ThenQuietly(moves, At(Channel.Checking), VainTicks(n - 1), false, Channel.Check);
      moves := Then(moves, At(Channel.Polling), VainTicks(n - 1), false, Channel.Move.Poll(false));
      assert VainTicks(n - 1) + [Tick(None, UNREACHABLE)] == VainTicks(n);
      moves := ThenQuietly(moves, At(Channel.Sleeping), VainTicks(n), false, Channel.Wake);
    }
  }

  /** mysqld has exited and the goroutine has sent the message. */
  function Arrived(s: Channel.System, exit: Exit): Channel.System {
    s.(process := Channel.Exited(exit), waiter := Channel.Sent, buffer := [exit])
  }

  lemma {:induction false} Arrive(
    moves: seq<Channel.Move>, s: Channel.System, rounds: seq<Tick>, t: bool, exit: Exit)
    returns (longer: seq<Channel.Move>)
    requires Leads(moves, s, rounds, t) && s.process.Running? && s.waiter.Waits? && s.buffer == []
    ensures Leads(longer, Arrived(s, exit), rounds, t)
  {
    var exited := s.(process := Channel.Exited(exit));
    longer := ThenQuietly(moves, s, rounds, t, Channel.MysqldExits(exit));
    longer := ThenQuietly(longer, exited, rounds, t, Channel.WaitReturns);
    longer := ThenQuietly(longer, exited.(waiter := Channel.Holds(exit)), rounds, t, Channel.Sends);
    assert [] + [exit] == [exit];
  }

  lemma {:induction false} FindExit(moves: seq<Channel.Move>, rounds: seq<Tick>, exit: Exit)
    returns (longer: seq<Channel.Move>)
    requires Leads(moves, At(Channel.Checking), rounds, false)
    ensures Channel.Run(false, longer).pc == Channel.Done(Channel.StartupError)
    ensures Rounds(longer) == rounds + [Tick(Some(exit), UNREACHABLE)] && !Terminates(longer)
  {
    longer := Arrive(moves, At(Channel.Checking), rounds, false, exit);
    longer := Then(longer, Arrived(At(Channel.Checking), exit), rounds, false, Channel.Check);
  }

  lemma {:induction false} FindReachable(moves: seq<Channel.Move>, rounds: seq<Tick>, populated: bool)
    returns (longer: seq<Channel.Move>)
    requires Leads(moves, At(Channel.Checking), rounds, false)
    ensures Leads(longer,
      At(if populated then Channel.Selecting else Channel.Done(Channel.PipelineError)),
      rounds + [Tick(None, REACHABLE)], false)
  {
    longer := ThenQuietly(moves, At(Channel.Checking), rounds, false, Channel.Check);
    longer := Then(longer, At(Channel.Polling), rounds, false, Channel.Move.Poll(true));
    var reached := rounds + [Tick(None, REACHABLE)];
    longer := ThenQuietly(longer, At(Channel.Finishing), reached, false, Channel.Finish(populated));
  }

  /** The start is cancelled while it supervises mysqld. */
  lemma {:induction false} CancelAndSignal(moves: seq<Channel.Move>, rounds: seq<Tick>, ok: bool)
    returns (longer: seq<Channel.Move>)
    requires Leads(moves, At(Channel.Selecting), rounds, false)
    ensures Leads(longer,
      At(if ok then Channel.Receiving else Channel.Done(Channel.SignalError)).(cancelled := true), rounds, true)
  {
    longer := ThenQuietly(moves, At(Channel.Selecting), rounds, false, Channel.Cancel);
    longer := ThenQuietly(longer, At(Channel.Selecting).(cancelled := true), rounds, false, Channel.SelectCancel);
    longer := Then(longer, At(Channel.Signalling).(cancelled := true), rounds, false, Channel.Signal(ok));
    assert rounds + [] == rounds;
  }

  /** mysqld exits and its message is received, by the select or after a signal. */
  lemma {:induction false} ArriveAndReceive(
    moves: seq<Channel.Move>, s: Channel.System, rounds: seq<Tick>, t: bool, exit: Exit)
    returns (longer: seq<Channel.Move>)
    requires Leads(moves, s, rounds, t) && s.process.Running? && s.waiter.Waits? && s.buffer == []
    requires s.pc.Selecting? || s.pc.Receiving?
    ensures Channel.Run(false, longer).pc == Channel.Done(Channel.Returned(exit))
    ensures Rounds(longer) == rounds && (Terminates(longer) <==> t)
  {
    longer := Arrive(moves, s, rounds, t, exit);
    var m := if s.pc.Selecting? then Channel.SelectExit else Channel.Receive;
    longer := ThenQuietly(longer, Arrived(s, exit), rounds, t, m);
  }

  /** From the final select on. */
  lemma {:induction false} Conclude(moves: seq<Channel.Move>, rounds: seq<Tick>, finish: Finish)
    returns (longer: seq<Channel.Move>)
    requires Leads(moves, At(Channel.Selecting), rounds, false)
    ensures Channel.Run(false, longer).pc ==
      Channel.Done(if finish.Cancelled? && !finish.signalOk then Channel.SignalError else Channel.Returned(finish.exit))
    ensures Rounds(longer) == rounds && (Terminates(longer) <==> finish.Cancelled?)
  {
    if finish.Cancelled? {
      longer := CancelAndSignal(moves, rounds, finish.signalOk);
      if finish.signalOk {
        longer := ArriveAndReceive(longer, At(Channel.Receiving).(cancelled := true), rounds, true, finish.exit);
      }
    } else {
      longer := ArriveAndReceive(moves, At(Channel.Selecting), rounds, false, finish.exit);
    }
  }

  lemma {:induction false} FirstSettled(ticks: seq<Tick>, lo: nat) returns (round: nat)
    requires exists i :: lo <= i < |ticks| && Settled(ticks[i])
    ensures lo <= round < |ticks| && Settled(ticks[round])
    ensures forall j :: lo <= j < round ==> !Settled(ticks[j])
    decreases |ticks| - lo
  {
    if Settled(ticks[lo]) {
      round := lo;
    } else {
      round := FirstSettled(ticks, lo + 1);
    }
  }

  lemma {:induction false} FirstSettledDecides(ticks: seq<Tick>, round: nat)
    requires round < |ticks| && Settled(ticks[round]) && forall j :: 0 <= j < round ==> !Settled(ticks[j])
    ensures LastSettles(ticks[..round + 1])
    ensures BecomesReachable(ticks) <==> ticks[round].exit.None?
  {
    assert ticks[..round + 1][..round] == ticks[..round];
    if ticks[round].exit.None? { assert ReachableAt(ticks, round); }
    if i: nat :| ReachableAt(ticks, i) {
      assert Settled(ticks[i]);
    }
  }

  /** `rounds` are the rounds in `ticks` up to the one that settles the wait: the same exits,
      and the same rounds that settle it. */
  predicate SameRounds(rounds: seq<Tick>, ticks: seq<Tick>) {
    && 0 < |rounds| <= |ticks| && LastSettles(ticks[..|rounds|])
    && forall i :: 0 <= i < |rounds| ==>
         rounds[i].exit == ticks[i].exit && (Settled(rounds[i]) <==> Settled(ticks[i]))
  }

  /** The rounds of the channel that go with the rounds up to `round`. */
  function RoundsUpTo(ticks: seq<Tick>, round: nat): seq<Tick>
    requires round < |ticks|
  {
    VainTicks(round) + [Tick(ticks[round].exit, if ticks[round].exit.Some? then UNREACHABLE else REACHABLE)]
  }

  lemma {:induction false} RoundsAgree(ticks: seq<Tick>, round: nat)
    requires round < |ticks| && LastSettles(ticks[..round + 1])
    ensures SameRounds(RoundsUpTo(ticks, round), ticks)
  {
    var rounds := RoundsUpTo(ticks, round);
    forall i | 0 <= i < |rounds|
      ensures rounds[i].exit == ticks[i].exit && (Settled(rounds[i]) <==> Settled(ticks[i]))
    {
      if i < round {
        assert rounds[i] == Tick(None, UNREACHABLE);
        assert ticks[..round + 1][..round][i] == ticks[i];
      }
    }
  }

  /** Whatever rounds and whatever ending `Execute` is given, some interleaving of the
      channel goes through these rounds and comes to the same result. */
  lemma {:induction false} AccountHasChannel(ticks: seq<Tick>, populated: bool, finish: Finish)
    returns (moves: seq<Channel.Move>)
    requires Settles(ticks)
    ensures Channel.Run(false, moves).pc == Channel.Done(Ends(ticks, populated, finish))
    ensures SameRounds(Rounds(moves), ticks)
    ensures Terminates(moves) <==> BecomesReachable(ticks) && populated && finish.Cancelled?
  {
    var round := FirstSettled(ticks, 0);
    FirstSettledDecides(ticks, round);
    RoundsAgree(ticks, round);
    moves := VainRounds(round);
    if ticks[round].exit.Some? {
      moves := FindExit(moves, VainTicks(round), ticks[round].exit.value);
    } else {
      moves := FindReachable(moves, VainTicks(round), populated);
      if populated { moves := Conclude(moves, RoundsUpTo(ticks, round), finish); }
    }
    assert Rounds(moves) == RoundsUpTo(ticks, round);
  }

  /** Every execution that launches mysqld is a run of the channel: it goes through the same
      rounds, sends SIGTERM exactly if the run does, and returns what the run comes to. */
  method ExecuteOverChannel(node: Node, env: Environment)
    returns (r: Outcome, trace: seq<Event>, ghost moves: seq<Channel.Move>)
    requires |env.start.answers| == |node.cfg.clusterIps| && Settles(env.start.ticks) && node.db.session.alive
    modifies node, node.db`session
    ensures Launched(trace) ==>
      var s := Channel.Run(false, moves);
      && s.pc.Done? && Corresponds(r, s.pc.result) && SameRounds(Rounds(moves), env.start.ticks)
      && (SentSigterm(trace) <==> Terminates(moves))
  {
    ghost var s := node.db.session;
    ghost var entries, users := node.db.preseededDatabases, node.db.seededUsers;
    r, trace := node.Execute(env);
    VerdictCorresponds(env, s, entries, users);
    moves := AccountHasChannel(env.start.ticks, PopulatedAndRecorded(env, s, entries, users), env.finish);
  }
}
