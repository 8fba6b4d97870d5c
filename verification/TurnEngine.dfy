/**
 * The turn engine of the ACP client as a state machine: the read loop, the prompt and cancel calls
 * around it, and the client fields that outlive them.  Instants and durations are nanoseconds.
 */
module TurnEngine {
  import opened Wrappers
  import opened JsonValues
  import Text

  type Instant = int

  const CLEANUP: nat := 30_000_000_000

  // ---- Data ----

  datatype Transport = Goose | AcpExtension

  datatype Ack =
    | Success
    | AgentRefused(error: Json)
    | OutcomeRejected(reported: Option<Json>)
    | TransportFailed
    | ExpectedRunIdMissing
    | PromptCompletedNeutral

  /** The protocol violations the engine reports. */
  datatype Fault =
    | LineLimit
    | NoRequestId
    | NoOptions
    | NoOptionId
    | NoSuitableOption
    | NoStopReason
    | NoPromptInFlight

  datatype AcpError =
    | AgentExited
    | Io
    | WriteFailed
    | Protocol(fault: Fault)
    | IdleTimeout
    | HardTimeout(silence: nat)
    | CancelDrainTimeout(grace: nat)
    | AgentError(error: Json)

  datatype StopReason = EndTurn | Cancelled | MaxTokens | MaxTurnRequests | Refusal

  /** A message written to the agent.  A cancel notification is tagged with the prompt that was in flight. */
  datatype Wire =
    | PromptRequest(id: nat)
    | SteerWrite(id: nat, transport: Transport, runId: Option<string>, blocks: seq<string>)
    | PermissionAnswer(request: Json, selected: Option<string>)
    | MethodNotFound(request: Json, name: string)
    | SessionCancel(prompt: nat)

  /** The permission fields, with a log of the completed writes and of the permission requests received. */
  datatype Ledger = Ledger(wire: seq<Wire>, asked: seq<Json>, pending: Option<Json>, responded: bool)

  /** The client's fields. */
  datatype Client = Client(
    nextId: nat,
    lastPromptId: Option<nat>,
    hardDeadline: Option<Instant>,
    activeRunId: Option<string>,
    steeringSupported: bool,
    steerRx: bool,
    ledger: Ledger)

  /** A client that has just been spawned. */
  function Spawned(steering: bool): Client {
    Client(0, None, None, None, steering, false, Ledger([], [], None, false))
  }

  function Write(l: Ledger, w: Wire): Ledger { l.(wire := l.wire + [w]) }

  /** A permission request has come in and is not answered yet. */
  function Asked(l: Ledger, id: Json): Ledger { l.(pending := Some(id), responded := false, asked := l.asked + [id]) }

  datatype RunChange = KeepRun | ClearRun | SetRun(id: string)

  datatype Method =
    | SessionUpdate(toolCall: bool, run: RunChange)
    | UsageUpdate
    | RequestPermission(choice: Result<string, AcpError>)
    | Unknown(name: string)
    | NotAString

  datatype Outcome = Injected | StartedNewTurn | Unrecognised(reported: Option<Json>)

  /** A result value, and the stop reason it states if it is a prompt's. */
  datatype Reply = Reply(value: Json, stop: Option<StopReason>)

  /** What the loop looks at in a frame; see `Decode`. */
  datatype Message = Message(
    id: Option<Json>, verb: Option<Method>, error: Option<Json>, result: Reply, outcome: Outcome)

  datatype ReadResult = Eof | LineTooLong | ReadError | Blank | Garbage | Frame(msg: Message)

  /** `ticket` stands for the one-shot channel on which the request is acknowledged. */
  datatype SteerRequest = SteerRequest(ticket: nat, blocks: seq<string>)

  /**
   * What the environment offers one iteration of the read loop: the clock at the deadline check, what the
   * reader and the steer channel have ready, two later clock readings, and whether a write would succeed.
   */
  datatype Poll = Poll(
    now: Instant, reader: Option<ReadResult>, steer: Option<SteerRequest>, at: Instant, later: Instant, writeOk: bool)

  datatype Pending = Pending(id: nat, transport: Transport, ticket: nat)

  /** `Bailed` is an exit by error propagation while a frame is being dispatched. */
  datatype Exit = Returned(result: Result<Reply, AcpError>) | Bailed(error: AcpError)

  /** One activation of the read loop, with a log of the steer requests it took and of the acks it sent. */
  datatype Turn = Turn(
    client: Client,
    expectedId: nat,
    idleTimeout: nat,
    maxDuration: nat,
    steerRx: bool,
    pending: Option<Pending>,
    idleDeadline: Instant,
    hardDeadline: Instant,
    lastActivity: Instant,
    taken: seq<nat>,
    acks: seq<(nat, Ack)>,
    exit: Option<Exit>)

  // ---- Reading a frame ----

  /** The first option of the given kind. */
  function FindOption(options: seq<Json>, kind: string): Option<Json> {
    if options == [] then None
    else if AsStr(Get(options[0], "kind")) == Some(kind) then Some(options[0])
    else FindOption(options[1..], kind)
  }

  /** The option id a permission request is answered with. */
  function ChooseOption(msg: Json): Result<string, AcpError> {
    var options := Index(Index(msg, "params"), "options");
    if !options.Arr? then Err(Protocol(NoOptions))
    else
      var allow := FindOption(options.items, "allow_once");
      if allow.Some? then
        var id := Index(allow.value, "optionId");
        if id.Str? then Ok(id.s) else Err(Protocol(NoOptionId))
      else
        var reject := FindOption(options.items, "reject_once");
        if reject.None? then Err(Protocol(NoSuitableOption))
        else
          var id := Index(reject.value, "optionId");
          Ok(if id.Str? then id.s else "reject")
  }

  function DecodeUpdate(update: Json): Method {
    var kind := Index(update, "sessionUpdate");
    var run := Get(Index(Index(update, "_meta"), "goose"), "activeRunId");
    SessionUpdate(kind == Str("tool_call"),
                  if kind != Str("session_info_update") || run.None? then KeepRun
                  else if run.value.Str? then SetRun(run.value.s)
                  else if run.value.Null? then ClearRun
                  else KeepRun)
  }

  function DecodeMethod(msg: Json): Option<Method> {
    var name := Get(msg, "method");
    if name.None? then None
    else if !name.value.Str? then Some(NotAString)
    else if name.value.s == "session/update" then Some(DecodeUpdate(Index(Index(msg, "params"), "update")))
    else if name.value.s == "_goose/unstable/session/update" then Some(UsageUpdate)
    else if name.value.s == "session/request_permission" then Some(RequestPermission(ChooseOption(msg)))
    else Some(Unknown(name.value.s))
  }

  function DecodeOutcome(msg: Json): Outcome {
    var outcome := Get(Index(msg, "result"), "outcome");
    if outcome == Some(Str("injected")) then Injected
    else if outcome == Some(Str("startedNewTurn")) then StartedNewTurn
    else Unrecognised(outcome)
  }

  function DecodeStop(result: Json): Option<StopReason> {
    var raw := Index(result, "stopReason");
    if !raw.Str? then None
    else
      var name := Text.Lower(raw.s);
      if name == "end_turn" then Some(EndTurn)
      else if name == "cancelled" then Some(Cancelled)
      else if name == "max_tokens" then Some(MaxTokens)
      else if name == "max_turn_requests" then Some(MaxTurnRequests)
      else if name == "refusal" then Some(Refusal)
      else None
  }

  /** The frame whose line parses to `msg`. */
  function Decode(msg: Json): Message {
    var result := Index(msg, "result");
    Message(Get(msg, "id"), DecodeMethod(msg), Get(msg, "error"), Reply(result, DecodeStop(result)), DecodeOutcome(msg))
  }

  // ---- The read loop ----

  /** The loop's own terms: nothing below a step may change them. */
  ghost predicate SameTerms(t: Turn, t': Turn) {
    t'.expectedId == t.expectedId && t'.idleTimeout == t.idleTimeout && t'.maxDuration == t.maxDuration
    && t'.steerRx == t.steerRx && t'.client.lastPromptId == t.client.lastPromptId
    && t'.client.steerRx == t.client.steerRx && t.client.nextId <= t'.client.nextId
  }

  /** At most one acknowledgement is added. */
  ghost predicate AddsAck(t: Turn, t': Turn) {
    t'.acks == t.acks || (|t'.acks| == |t.acks| + 1 && t'.acks == t.acks + [t'.acks[|t.acks|]])
  }

  function Tickets(acks: seq<(nat, Ack)>): seq<nat> {
    seq(|acks|, i requires 0 <= i < |acks| => acks[i].0)
  }

  function PendingTicket(t: Turn): seq<nat> {
    if t.pending.Some? then [t.pending.value.ticket] else []
  }

  /** The acks sent, then the steer in flight, are exactly the requests taken, in the order they were taken. */
  ghost predicate Accounted(t: Turn) { Tickets(t.acks) + PendingTicket(t) == t.taken }

  /** The prompt's id comes before that of any steer in flight, and both before the next id. */
  ghost predicate IdsOrdered(t: Turn) {
    t.expectedId < t.client.nextId &&
    (t.pending.Some? ==> t.expectedId < t.pending.value.id < t.client.nextId)
  }

  ghost predicate Mirrored(t: Turn) { t.client.hardDeadline == Some(t.hardDeadline) }

  ghost predicate IdleTracksActivity(t: Turn) { t.idleDeadline == t.lastActivity + t.idleTimeout }

  /**
   * The ways a step may move the ledger: not at all, by a write that is neither a cancel nor an answer, or by a
   * permission request that is left unanswered or answered.
   */
  ghost predicate LedgerMoves(l: Ledger, l': Ledger) {
    || l' == l
    || (|l'.wire| == |l.wire| + 1 && l' == Write(l, l'.wire[|l.wire|])
        && (l'.wire[|l.wire|].SteerWrite? || l'.wire[|l.wire|].MethodNotFound?))
    || (|l'.asked| == |l.asked| + 1 && l' == Asked(l, l'.asked[|l.asked|]))
    || (|l'.asked| == |l.asked| + 1 && |l'.wire| == |l.wire| + 1 && l'.wire[|l.wire|].PermissionAnswer?
        && l'.wire[|l.wire|].request == l'.asked[|l.asked|]
        && l' == Write(Asked(l, l'.asked[|l.asked|]), l'.wire[|l.wire|]).(pending := None, responded := true))
  }

  /** What holds while no steer is in flight. */
  ghost predicate Quiet(t: Turn, t': Turn) {
    t.pending.None? ==>
      t'.pending.None? && t'.hardDeadline == t.hardDeadline && t'.acks == t.acks && t'.taken == t.taken
      && t'.client.nextId == t.client.nextId
  }

  /** What every part of a step keeps. */
  ghost predicate Keeps(t: Turn, t': Turn) {
    SameTerms(t, t') && AddsAck(t, t') && (Accounted(t) ==> Accounted(t')) && (IdsOrdered(t) ==> IdsOrdered(t')) && (Mirrored(t) ==> Mirrored(t'))
    && (IdleTracksActivity(t) ==> IdleTracksActivity(t')) && LedgerMoves(t.client.ledger, t'.client.ledger)
  }

  function NextDeadline(t: Turn): Instant { Min(t.idleDeadline, t.hardDeadline) }

  function Begin(c: Client, expectedId: nat, idleTimeout: nat, hard: Instant, maxDuration: nat, now: Instant): Turn {
    Turn(c.(steerRx := false), expectedId, idleTimeout, maxDuration, c.steerRx, None,
         now + idleTimeout, hard, now, [], [], None)
  }

  /** Acknowledge the pending steer, if there is one. */
  function Settle(t: Turn, ack: Ack): (r: Turn)
    ensures Keeps(t, r) && r.pending.None?
  {
    match t.pending
    case None => t
    case Some(p) => t.(pending := None, acks := t.acks + [(p.ticket, ack)])
  }

  function Leave(t: Turn, result: Result<Reply, AcpError>): (r: Turn)
    ensures Keeps(t, r) && Quiet(t, r) && r.pending.None? && r.exit == Some(Returned(result))
    ensures r.hardDeadline == t.hardDeadline && r.client == t.client
    ensures r.acks != t.acks ==> r.acks[|t.acks|].1 == PromptCompletedNeutral
  {
    Settle(t, PromptCompletedNeutral).(exit := Some(Returned(result)))
  }

  function TimeOut(t: Turn, now: Instant): Turn {
    Leave(t, Err(if t.idleDeadline < t.hardDeadline then IdleTimeout
                 else HardTimeout(Max(0, now - t.lastActivity))))
  }

  function SteerTransport(c: Client): Option<Transport> {
    if c.activeRunId.Some? then Some(Goose) else if c.steeringSupported then Some(AcpExtension) else None
  }

  function OnSteer(t: Turn, req: SteerRequest, writeOk: bool): (r: Turn)
    requires t.pending.None?
    ensures Keeps(t, r) && r.exit == t.exit && r.hardDeadline == t.hardDeadline
    ensures r.acks != t.acks ==> r.acks[|t.acks|].1 != Success
  {
    var t := t.(taken := t.taken + [req.ticket]);
    match SteerTransport(t.client)
    case None => t.(acks := t.acks + [(req.ticket, ExpectedRunIdMissing)])
    case Some(transport) =>
      var id := t.client.nextId;
      if writeOk then
        var w := SteerWrite(id, transport, t.client.activeRunId, req.blocks);
        t.(client := t.client.(nextId := id + 1, ledger := Write(t.client.ledger, w)),
           pending := Some(Pending(id, transport, req.ticket)))
      else t.(client := t.client.(nextId := id + 1), acks := t.acks + [(req.ticket, TransportFailed)])
  }

  function OnSteerReply(t: Turn, msg: Message, now: Instant): (r: Turn)
    requires t.pending.Some?
    ensures Keeps(t, r) && r.exit == t.exit && r.pending.None? && r.taken == t.taken
    ensures |r.acks| == |t.acks| + 1 && r.acks[|t.acks|].0 == t.pending.value.ticket
    ensures r.acks[|t.acks|].1 == Success <==>
            msg.error.None? && (t.pending.value.transport.Goose? || !msg.outcome.Unrecognised?)
    ensures t.hardDeadline <= r.hardDeadline
  {
    if msg.error.Some? then Settle(t, AgentRefused(msg.error.value))
    else
      var outcome := if t.pending.value.transport.Goose? then Injected else msg.outcome;
      match outcome
      case Unrecognised(reported) => Settle(t, OutcomeRejected(reported))
      case StartedNewTurn => Settle(t, Success)
      case Injected =>
        var renewed := now + t.maxDuration;
        var t := Settle(t, Success);
        if renewed > t.hardDeadline then
          t.(hardDeadline := renewed, client := t.client.(hardDeadline := Some(renewed)))
        else t
  }

  function OnPermission(l: Ledger, id: Option<Json>, choice: Result<string, AcpError>, writeOk: bool)
    : (r: (Ledger, Option<AcpError>))
    ensures LedgerMoves(l, r.0)
  {
    match id
    case None => (l, Some(Protocol(NoRequestId)))
    case Some(id) =>
      var l := Asked(l, id);
      if choice.Err? then (l, Some(choice.error))
      else if !writeOk then (l, Some(WriteFailed))
      else (Write(l, PermissionAnswer(id, Some(choice.value))).(pending := None, responded := true), None)
  }

  function NewRunId(current: Option<string>, change: RunChange): Option<string> {
    match change
    case KeepRun => current
    case ClearRun => None
    case SetRun(id) => Some(id)
  }

  /** Dispatching a frame leaves the pending steer, the acks and the hard deadline alone. */
  ghost predicate Dispatched(t: Turn, r: Turn) {
    Keeps(t, r) && Quiet(t, r) && r.pending == t.pending && r.taken == t.taken && r.acks == t.acks
    && r.hardDeadline == t.hardDeadline && (t.exit.None? && r.exit.Some? ==> r.exit.value.Bailed?)
  }

  function OnUpdate(t: Turn, toolCall: bool, run: RunChange, later: Instant): (r: Turn)
    ensures Dispatched(t, r)
  {
    var t := t.(client := t.client.(activeRunId := NewRunId(t.client.activeRunId, run)));
    if toolCall then t.(idleDeadline := later + t.idleTimeout, lastActivity := later) else t
  }

  function OnRequest(t: Turn, id: Option<Json>, choice: Result<string, AcpError>, writeOk: bool): (r: Turn)
    ensures Dispatched(t, r)
  {
    var (l, error) := OnPermission(t.client.ledger, id, choice, writeOk);
    t.(client := t.client.(ledger := l), exit := if error.Some? then Some(Bailed(error.value)) else None)
  }

  function OnUnknown(t: Turn, id: Option<Json>, name: string, writeOk: bool): (r: Turn)
    ensures Dispatched(t, r)
  {
    if id.None? then t
    else if writeOk then t.(client := t.client.(ledger := Write(t.client.ledger, MethodNotFound(id.value, name))))
    else t.(exit := Some(Bailed(WriteFailed)))
  }

  function Dispatch(t: Turn, msg: Message, later: Instant, writeOk: bool): (r: Turn)
    ensures Dispatched(t, r)
  {
    match msg.verb
    case Some(SessionUpdate(toolCall, run)) => OnUpdate(t, toolCall, run, later)
    case Some(RequestPermission(choice)) => OnRequest(t, msg.id, choice, writeOk)
    case Some(Unknown(name)) => OnUnknown(t, msg.id, name, writeOk)
    case _ => t
  }

  /** A reply carries an id and no method. */
  predicate IsReply(msg: Message, id: nat) { msg.id == Some(Int(id)) && msg.verb.None? }

  function OnFrame(t: Turn, msg: Message, later: Instant, writeOk: bool): (r: Turn)
    ensures Keeps(t, r) && Quiet(t, r) && t.hardDeadline <= r.hardDeadline
  {
    if t.pending.Some? && IsReply(msg, t.pending.value.id) then OnSteerReply(t, msg, later)
    else if IsReply(msg, t.expectedId) then
      Leave(t, if msg.error.Some? then Err(AgentError(msg.error.value)) else Ok(msg.result))
    else Dispatch(t, msg, later, writeOk)
  }

  function OnRead(t: Turn, got: ReadResult, p: Poll): (r: Turn)
    ensures Keeps(t, r) && Quiet(t, r) && t.hardDeadline <= r.hardDeadline
  {
    match got
    case Eof => Leave(t, Err(AgentExited))
    case LineTooLong => Leave(t, Err(Protocol(LineLimit)))
    case ReadError => Leave(t, Err(Io))
    case Blank => t
    case Garbage => t
    case Frame(msg) =>
      OnFrame(t.(idleDeadline := p.at + t.idleTimeout, lastActivity := p.at), msg, p.later, p.writeOk)
  }

  predicate SteerArmOpen(t: Turn) { t.steerRx && t.pending.None? }

  /** One iteration.  The reader is preferred; with nothing else ready the loop sleeps until the deadline. */
  function Step(t: Turn, p: Poll): (r: Turn)
    ensures Keeps(t, r) && (!t.steerRx ==> Quiet(t, r)) && t.hardDeadline <= r.hardDeadline
    ensures t.exit.Some? ==> r == t
    ensures t.exit.None? && r.exit.Some? && r.exit.value.Returned? ==> r.pending.None?
  {
    if t.exit.Some? then t
    else if p.now >= NextDeadline(t) then TimeOut(t, p.at)
    else if p.reader.Some? then OnRead(t, p.reader.value, p)
    else if SteerArmOpen(t) && p.steer.Some? then OnSteer(t, p.steer.value, p.writeOk)
    else TimeOut(t, Max(p.at, NextDeadline(t)))
  }

  function Run(t: Turn, polls: seq<Poll>): Turn {
    if polls == [] then t else Step(Run(t, polls[..|polls| - 1]), polls[|polls| - 1])
  }

  /** A clock that never goes back. */
  ghost predicate Clocked(polls: seq<Poll>) {
    (forall i | 0 <= i < |polls| :: polls[i].now <= polls[i].at <= polls[i].later) &&
    (forall i, j | 0 <= i < j < |polls| :: polls[i].later <= polls[j].now)
  }

  // ---- Prompt and cancel calls ----

  function ExitResult(exit: Exit): Result<Reply, AcpError> {
    match exit case Returned(r) => r case Bailed(e) => Err(e)
  }

  function StopOf(r: Result<Reply, AcpError>): Result<StopReason, AcpError> {
    if r.Err? then Err(r.error)
    else if r.value.stop.Some? then Ok(r.value.stop.value)
    else Err(Protocol(NoStopReason))
  }

  predicate IsTimeout(r: Result<Reply, AcpError>) { r.Err? && (r.error.IdleTimeout? || r.error.HardTimeout?) }

  /** The client between calls, and the call's result; `None` while a call is still reading. */
  type Called = (Client, Option<Result<StopReason, AcpError>>)

  function PromptSent(c: Client, now: Instant, maxDuration: nat): Client {
    c.(hardDeadline := Some(now + maxDuration), lastPromptId := Some(c.nextId), nextId := c.nextId + 1,
       ledger := Write(c.ledger, PromptRequest(c.nextId)))
  }

  function PromptTurn(c: Client, now: Instant, idle: nat, max: nat, start: Instant, polls: seq<Poll>): Turn {
    Run(Begin(PromptSent(c, now, max), c.nextId, idle, now + max, max, start), polls)
  }

  function Prompt(c: Client, now: Instant, idle: nat, max: nat, writeOk: bool, start: Instant, polls: seq<Poll>): Called {
    if !writeOk then
      (c.(lastPromptId := None, hardDeadline := None, nextId := c.nextId + 1), Some(Err(WriteFailed)))
    else
      var t := PromptTurn(c, now, idle, max, start, polls);
      if t.exit.None? then (t.client, None)
      else
        var r := ExitResult(t.exit.value);
        (if IsTimeout(r) then t.client else t.client.(lastPromptId := None, hardDeadline := None), Some(StopOf(r)))
  }

  /** The drain deadline: the turn's own, but never less than the cleanup grace from now. */
  function DrainDeadline(c: Client, now: Instant): Instant {
    if c.hardDeadline.Some? then Max(c.hardDeadline.value, now + CLEANUP) else now + CLEANUP
  }

  /** The permission request the agent is still waiting on. */
  predicate OwesAnswer(l: Ledger) { l.pending.Some? && !l.responded }

  /** The ledger once a pending permission request has been answered with a cancellation. */
  function Answered(l: Ledger): Ledger {
    if l.pending.None? then l
    else (if l.responded then l else Write(l, PermissionAnswer(l.pending.value, None))).(pending := None, responded := false)
  }

  /** The client after the cancel messages have been written. */
  function CancelSent(c: Client): Client
    requires c.lastPromptId.Some?
  {
    c.(lastPromptId := None, ledger := Write(Answered(c.ledger), SessionCancel(c.lastPromptId.value)))
  }

  function DrainTurn(c: Client, hard: Instant, start: Instant, polls: seq<Poll>): Turn
    requires c.lastPromptId.Some?
  {
    Run(Begin(CancelSent(c), c.lastPromptId.value, CLEANUP, hard, Max(0, hard - start), start), polls)
  }

  /** `answerOk` and `cancelOk`: whether the permission answer and the cancel notification are written. */
  function CancelUntil(c: Client, hard: Instant, answerOk: bool, cancelOk: bool, start: Instant, polls: seq<Poll>): Called {
    if c.lastPromptId.None? then (c, Some(Err(Protocol(NoPromptInFlight))))
    else
      if OwesAnswer(c.ledger) && !answerOk then (c.(lastPromptId := None), Some(Err(WriteFailed)))
      else if !cancelOk then (c.(lastPromptId := None, ledger := Answered(c.ledger)), Some(Err(WriteFailed)))
      else
        var t := DrainTurn(c, hard, start, polls);
        (t.client, if t.exit.None? then None else Some(StopOf(ExitResult(t.exit.value))))
  }

  function Cancel(c: Client, now: Instant, answerOk: bool, cancelOk: bool, start: Instant, polls: seq<Poll>): Called {
    CancelUntil(c.(hardDeadline := None), DrainDeadline(c, now), answerOk, cancelOk, start, polls)
  }

  function CancelGrace(c: Client, grace: nat, now: Instant, answerOk: bool, cancelOk: bool, start: Instant, polls: seq<Poll>): Called {
    var (c', r) := CancelUntil(c.(hardDeadline := None), now + grace, answerOk, cancelOk, start, polls);
    (c', if r.Some? && r.value.Err? && r.value.error.HardTimeout? then Some(Err(CancelDrainTimeout(grace))) else r)
  }
}
