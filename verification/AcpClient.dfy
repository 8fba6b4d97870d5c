/** The client object whose methods run the turn engine; every method is proved against `TurnEngine`. */
module AcpClients {
  import opened Wrappers
  import opened JsonValues
  import opened TurnEngine
  import opened TurnLaws

  class AcpClient {
    var nextId: nat
    var lastPromptId: Option<nat>
    var currentHardDeadline: Option<Instant>
    var pendingPermissionId: Option<Json>
    var permissionResponded: bool
    var activeRunId: Option<string>
    var steeringSupported: bool
    var steerRx: bool
    /** The completed writes, and the permission requests that have come in. */
    ghost var wire: seq<Wire>
    ghost var asked: seq<Json>

    ghost function State(): Client
      reads this
    {
      Client(nextId, lastPromptId, currentHardDeadline, activeRunId, steeringSupported, steerRx,
             Ledger(wire, asked, pendingPermissionId, permissionResponded))
    }

    constructor (steering: bool)
      ensures State() == Spawned(steering)
    {
      nextId, lastPromptId, currentHardDeadline := 0, None, None;
      pendingPermissionId, permissionResponded := None, false;
      activeRunId, steeringSupported, steerRx := None, steering, false;
      wire, asked := [], [];
    }

    method InstallSteerRx()
      requires !steerRx
      modifies this`steerRx
      ensures State() == old(State()).(steerRx := true)
    {
      steerRx := true;
    }

    method ClearSteerRx()
      modifies this`steerRx
      ensures State() == old(State()).(steerRx := false)
    {
      steerRx := false;
    }

    method HandlePermissionRequest(id: Option<Json>, choice: Result<string, AcpError>, writeOk: bool)
      returns (error: Option<AcpError>)
      modifies this
      ensures var (ledger, e) := OnPermission(old(State()).ledger, id, choice, writeOk);
              State() == old(State()).(ledger := ledger) && error == e
    {
      if id.None? {
        return Some(Protocol(NoRequestId));
      }
      pendingPermissionId := id;
      permissionResponded := false;
      asked := asked + [id.value];
      if choice.Err? {
        return Some(choice.error);
      }
      if !writeOk {
        return Some(WriteFailed);
      }
      wire := wire + [PermissionAnswer(id.value, Some(choice.value))];
      permissionResponded := true;
      pendingPermissionId := None;
      error := None;
    }

    /** Take a steer request from the channel and write it out. */
    method SendSteer(ghost t: Turn, req: SteerRequest, writeOk: bool) returns (pending: Option<Pending>, acks: seq<(nat, Ack)>)
      requires t.client == State() && t.pending.None?
      modifies this
      ensures OnSteer(t, req, writeOk) ==
              t.(client := State(), pending := pending, taken := t.taken + [req.ticket], acks := t.acks + acks)
    {
      hide Keeps;
      pending, acks := None, [];
      var transport: Transport;
      if activeRunId.Some? {
        transport := Goose;
      } else if steeringSupported {
        transport := AcpExtension;
      } else {
        acks := [(req.ticket, ExpectedRunIdMissing)];
        return;
      }
      var id := nextId;
      nextId := nextId + 1;
      if writeOk {
        wire := wire + [SteerWrite(id, transport, activeRunId, req.blocks)];
        pending := Some(Pending(id, transport, req.ticket));
      } else {
        acks := [(req.ticket, TransportFailed)];
      }
    }

    /** Route a reply to the steer in flight; `hard` is the hard deadline afterwards. */
    method ReceiveSteerReply(ghost t: Turn, pending: Pending, msg: Message, now: Instant, hardDeadline: Instant, maxDuration: nat)
      returns (hard: Instant, ack: Ack)
      requires t.client == State() && t.pending == Some(pending) && t.hardDeadline == hardDeadline && t.maxDuration == maxDuration
      modifies this`currentHardDeadline
      ensures OnSteerReply(t, msg, now) ==
              t.(client := State(), pending := None, hardDeadline := hard, acks := t.acks + [(pending.ticket, ack)])
    {
      hide Keeps;
      hard := hardDeadline;
      if msg.error.Some? {
        ack := AgentRefused(msg.error.value);
        return;
      }
      var outcome := if pending.transport.Goose? then Injected else msg.outcome;
      if outcome.Unrecognised? {
        ack := OutcomeRejected(outcome.reported);
      } else {
        ack := Success;
        if outcome.Injected? && now + maxDuration > hard {
          hard := now + maxDuration;
          currentHardDeadline := Some(hard);
        }
      }
    }

    /** Dispatch a notification or an agent request. */
    method DispatchFrame(ghost t: Turn, msg: Message, later: Instant, writeOk: bool)
      returns (toolCall: bool, error: Option<AcpError>)
      requires t.client == State() && t.exit.None?
      modifies this
      ensures Dispatch(t, msg, later, writeOk) ==
              t.(client := State(),
                 idleDeadline := if toolCall then later + t.idleTimeout else t.idleDeadline,
                 lastActivity := if toolCall then later else t.lastActivity,
                 exit := if error.Some? then Some(Bailed(error.value)) else None)
    {
      hide Keeps, Quiet, LedgerMoves;
      toolCall, error := false, None;
      match msg.verb {
        case Some(SessionUpdate(started, run)) =>
          toolCall := started;
          match run {
            case KeepRun =>
            case ClearRun => activeRunId := None;
            case SetRun(id) => activeRunId := Some(id);
          }
        case Some(RequestPermission(choice)) =>
          error := HandlePermissionRequest(msg.id, choice, writeOk);
        case Some(Unknown(name)) =>
          if msg.id.Some? {
            if writeOk {
              wire := wire + [MethodNotFound(msg.id.value, name)];
            } else {
              error := Some(WriteFailed);
            }
          }
        case _ =>
      }
    }

    /** The acknowledgement a departing loop owes. */
    static function FinalAck(pending: Option<Pending>): seq<(nat, Ack)> {
      if pending.Some? then [(pending.value.ticket, PromptCompletedNeutral)] else []
    }

    /** Handle a frame that has reset the idle clock. */
    method HandleFrame(
      ghost t: Turn, expectedId: nat, maxDuration: nat, pending: Option<Pending>, hardDeadline: Instant,
      msg: Message, later: Instant, writeOk: bool
    ) returns (toolCall: bool, pending': Option<Pending>, hard: Instant, acks: seq<(nat, Ack)>, exit: Option<Exit>)
      requires t.client == State() && t.exit.None? && t.expectedId == expectedId && t.maxDuration == maxDuration
      requires t.pending == pending && t.hardDeadline == hardDeadline
      modifies this
      ensures OnFrame(t, msg, later, writeOk) ==
              t.(client := State(), pending := pending', hardDeadline := hard, acks := t.acks + acks, exit := exit,
                 idleDeadline := if toolCall then later + t.idleTimeout else t.idleDeadline,
                 lastActivity := if toolCall then later else t.lastActivity)
    {
      hide Dispatch, OnSteerReply, Keeps, Quiet;
      toolCall, pending', hard, acks, exit := false, pending, hardDeadline, [], None;
      if msg.id.Some? && msg.verb.None? {
        if pending.Some? && msg.id.value == Int(pending.value.id) {
          var ack;
          hard, ack := ReceiveSteerReply(t, pending.value, msg, later, hardDeadline, maxDuration);
          pending', acks := None, [(pending.value.ticket, ack)];
          return;
        }
        if msg.id.value == Int(expectedId) {
          pending', acks := None, FinalAck(pending);
          exit := Some(Returned(if msg.error.Some? then Err(AgentError(msg.error.value)) else Ok(msg.result)));
          return;
        }
      }
      var error;
      toolCall, error := DispatchFrame(t, msg, later, writeOk);
      exit := if error.Some? then Some(Bailed(error.value)) else None;
      assert t.acks + acks == t.acks;
    }

    /** One iteration of the read loop. */
    method PollOnce(
      ghost t: Turn, p: Poll, expectedId: nat, idleTimeout: nat, maxDuration: nat, rx: bool,
      pending: Option<Pending>, idleDeadline: Instant, hardDeadline: Instant, lastActivity: Instant
    ) returns (pending': Option<Pending>, idle: Instant, hard: Instant, last: Instant, acks: seq<(nat, Ack)>, exit: Option<Exit>)
      requires t == Turn(State(), expectedId, idleTimeout, maxDuration, rx, pending, idleDeadline, hardDeadline,
                         lastActivity, t.taken, t.acks, None)
      modifies this
      ensures var t' := Step(t, p);
              t' == Turn(State(), expectedId, idleTimeout, maxDuration, rx, pending', idle, hard, last,
                         t'.taken, t.acks + acks, exit)
    {
      hide OnFrame, OnSteer, Keeps, Quiet;
      pending', idle, hard, last, acks, exit := pending, idleDeadline, hardDeadline, lastActivity, [], None;
      assert t.acks + [] == t.acks;
      var idleFiresFirst := idleDeadline < hardDeadline;
      var next := if idleFiresFirst then idleDeadline else hardDeadline;
      if p.now >= next || (p.reader.None? && !(rx && pending.None? && p.steer.Some?)) {
        // Either the check before the select or the sleeping arm of the select fires.
        var now := if p.now >= next then p.at else Max(p.at, next);
        pending', acks := None, FinalAck(pending);
        exit := Some(Returned(Err(if idleFiresFirst then IdleTimeout else HardTimeout(Max(0, now - lastActivity)))));
        return;
      }
      if p.reader.None? {
        pending', acks := SendSteer(t, p.steer.value, p.writeOk);
        return;
      }
      match p.reader.value {
        case Blank =>
        case Garbage =>
        case Frame(msg) =>
          idle, last := p.at + idleTimeout, p.at;
          ghost var t1 := t.(idleDeadline := idle, lastActivity := last);
          var toolCall;
          toolCall, pending', hard, acks, exit :=
            HandleFrame(t1, expectedId, maxDuration, pending, hardDeadline, msg, p.later, p.writeOk);
          if toolCall {
            idle, last := p.later + idleTimeout, p.later;
          }
        case ended =>
          pending', acks := None, FinalAck(pending);
          exit := Some(Returned(Err(if ended.Eof? then AgentExited
                                    else if ended.LineTooLong? then Protocol(LineLimit) else Io)));
      }
    }

    /** The read loop, over whatever the environment offers it; without an exit it is still reading. */
    method ReadUntilResponse(
      expectedId: nat, idleTimeout: nat, hardDeadline: Instant, maxDuration: nat, start: Instant, polls: seq<Poll>
    ) returns (exit: Option<Exit>, acks: seq<(nat, Ack)>, ghost turn: Turn)
      modifies this
      ensures turn == Run(Begin(old(State()), expectedId, idleTimeout, hardDeadline, maxDuration, start), polls)
      ensures State() == turn.client && exit == turn.exit && acks == turn.acks
    {
      hide Step, Keeps, Quiet;
      ghost var t0 := Begin(State(), expectedId, idleTimeout, hardDeadline, maxDuration, start);
      var rx := steerRx;
      steerRx := false;
      var pending: Option<Pending> := None;
      var idle, hard, last := start + idleTimeout, hardDeadline, start;
      acks, exit, turn := [], None, t0;
      for i := 0 to |polls|
        invariant turn == Run(t0, polls[..i])
        invariant turn == Turn(State(), expectedId, idleTimeout, maxDuration, rx, pending, idle, hard, last, turn.taken, acks, None)
        invariant exit.None?
      {
        var sent;
        pending, idle, hard, last, sent, exit :=
          PollOnce(turn, polls[i], expectedId, idleTimeout, maxDuration, rx, pending, idle, hard, last);
        acks := acks + sent;
        RunPrefix(t0, polls, i);
        turn := Step(turn, polls[i]);
        if exit.Some? {
          ExitIsFinal(t0, polls, i + 1);
          return;
        }
      }
      assert polls[..|polls|] == polls;
    }

    /** `session/prompt`: send the prompt and read until its reply, a timeout or a failure. */
    method SessionPrompt(now: Instant, idleTimeout: nat, maxDuration: nat, writeOk: bool, start: Instant, polls: seq<Poll>)
      returns (r: Option<Result<StopReason, AcpError>>)
      modifies this
      ensures (State(), r) == Prompt(old(State()), now, idleTimeout, maxDuration, writeOk, start, polls)
    {
      hide Step, Run;
      var hardDeadline := now + maxDuration;
      currentHardDeadline := Some(hardDeadline);
      lastPromptId := Some(nextId);
      var id := nextId;
      nextId := nextId + 1;
      if !writeOk {
        lastPromptId, currentHardDeadline := None, None;
        return Some(Err(WriteFailed));
      }
      wire := wire + [PromptRequest(id)];
      assert State() == PromptSent(old(State()), now, maxDuration);
      var exit, _, _ := ReadUntilResponse(id, idleTimeout, hardDeadline, maxDuration, start, polls);
      if exit.None? {
        return None;
      }
      var result := ExitResult(exit.value);
      if result.Ok? || (!result.error.IdleTimeout? && !result.error.HardTimeout?) {
        lastPromptId, currentHardDeadline := None, None;
      }
      r := Some(StopOf(result));
    }

    method CancelWithCleanupUntil(hardDeadline: Instant, answerOk: bool, cancelOk: bool, start: Instant, polls: seq<Poll>)
      returns (r: Option<Result<StopReason, AcpError>>)
      modifies this
      ensures (State(), r) == CancelUntil(old(State()), hardDeadline, answerOk, cancelOk, start, polls)
    {
      hide Step, Run;
      if lastPromptId.None? {
        return Some(Err(Protocol(NoPromptInFlight)));
      }
      var promptId := lastPromptId.value;
      lastPromptId := None;
      if pendingPermissionId.Some? {
        if !permissionResponded {
          if !answerOk {
            return Some(Err(WriteFailed));
          }
          wire := wire + [PermissionAnswer(pendingPermissionId.value, None)];
        }
        pendingPermissionId := None;
        permissionResponded := false;
      }
      if !cancelOk {
        return Some(Err(WriteFailed));
      }
      wire := wire + [SessionCancel(promptId)];
      assert State() == CancelSent(old(State()));
      var remaining := Max(0, hardDeadline - start);
      var exit, _, _ := ReadUntilResponse(promptId, CLEANUP, hardDeadline, remaining, start, polls);
      r := if exit.None? then None else Some(StopOf(ExitResult(exit.value)));
    }

    method CancelWithCleanup(now: Instant, answerOk: bool, cancelOk: bool, start: Instant, polls: seq<Poll>)
      returns (r: Option<Result<StopReason, AcpError>>)
      modifies this
      ensures (State(), r) == Cancel(old(State()), now, answerOk, cancelOk, start, polls)
    {
      hide CancelUntil;
      var stored := currentHardDeadline;
      currentHardDeadline := None;
      var floor := now + CLEANUP;
      var hardDeadline := if stored.Some? && stored.value > floor then stored.value else floor;
      r := CancelWithCleanupUntil(hardDeadline, answerOk, cancelOk, start, polls);
    }

    method CancelWithCleanupGrace(grace: nat, now: Instant, answerOk: bool, cancelOk: bool, start: Instant, polls: seq<Poll>)
      returns (r: Option<Result<StopReason, AcpError>>)
      modifies this
      ensures (State(), r) == CancelGrace(old(State()), grace, now, answerOk, cancelOk, start, polls)
    {
      hide CancelUntil;
      currentHardDeadline := None;
      r := CancelWithCleanupUntil(now + grace, answerOk, cancelOk, start, polls);
      if r.Some? && r.value.Err? && r.value.error.HardTimeout? {
        r := Some(Err(CancelDrainTimeout(grace)));
      }
    }
  }
}
