/** What the client does with each frame, in terms of the JSON that arrives and the messages that go out. */
module WireLaws {
  import opened Wrappers
  import opened JsonValues
  import opened TurnEngine
  import opened TurnLaws
  import Text

  /** The loop is handed a frame before its deadline. */
  ghost predicate Receives(t: Turn, p: Poll, json: Json) {
    t.exit.None? && p.now < NextDeadline(t) && p.reader == Some(Frame(Decode(json)))
  }

  function Wrote(t: Turn): seq<Wire> { t.client.ledger.wire }

  // ---- Permission requests ----

  /** The first option of this kind. */
  ghost predicate FirstOfKind(options: seq<Json>, kind: string, i: nat) {
    i < |options| && Get(options[i], "kind") == Some(Str(kind)) &&
    forall j | 0 <= j < i :: Get(options[j], "kind") != Some(Str(kind))
  }

  ghost predicate NoneOfKind(options: seq<Json>, kind: string) {
    forall j | 0 <= j < |options| :: Get(options[j], "kind") != Some(Str(kind))
  }

  lemma {:induction false} FindOptionFinds(options: seq<Json>, kind: string)
    ensures FindOption(options, kind).None? <==> NoneOfKind(options, kind)
    ensures forall i: nat | FirstOfKind(options, kind, i) :: FindOption(options, kind) == Some(options[i])
  {
    if options != [] {
      var rest := options[1..];
      FindOptionFinds(rest, kind);
      forall i: nat | FirstOfKind(options, kind, i) ensures FindOption(options, kind) == Some(options[i]) {
        if i > 0 {
          assert FirstOfKind(rest, kind, i - 1) by {
            forall j | 0 <= j < i - 1 ensures Get(rest[j], "kind") != Some(Str(kind)) {
              assert rest[j] == options[j + 1];
            }
          }
        }
      }
      if NoneOfKind(options, kind) {
        forall j | 0 <= j < |rest| ensures Get(rest[j], "kind") != Some(Str(kind)) {
          assert rest[j] == options[j + 1];
        }
      }
      if FindOption(options, kind).None? {
        forall j | 0 <= j < |options| ensures Get(options[j], "kind") != Some(Str(kind)) {
          assert j > 0 ==> options[j] == rest[j - 1];
        }
      }
    }
  }

  /** Which option a request is answered with: the first `allow_once`; only if there is none, the first `reject_once`. */
  lemma OptionChosen(msg: Json, options: seq<Json>, i: nat)
    requires At(msg, ["params", "options"]) == Some(Arr(options))
    ensures FirstOfKind(options, "allow_once", i) ==>
              ChooseOption(msg) == match Get(options[i], "optionId") case Some(Str(id)) => Ok(id) case _ => Err(Protocol(NoOptionId))
    ensures NoneOfKind(options, "allow_once") && FirstOfKind(options, "reject_once", i) ==>
              ChooseOption(msg) == match Get(options[i], "optionId") case Some(Str(id)) => Ok(id) case _ => Ok("reject")
    ensures NoneOfKind(options, "allow_once") && NoneOfKind(options, "reject_once") ==>
              ChooseOption(msg) == Err(Protocol(NoSuitableOption))
  {
    OptionsAt(msg);
    FindOptionFinds(options, "allow_once");
    FindOptionFinds(options, "reject_once");
    hide FindOption, FirstOfKind, NoneOfKind, At;
  }

  lemma NoOptionsChosen(msg: Json)
    requires At(msg, ["params", "options"]).None? || !At(msg, ["params", "options"]).value.Arr?
    ensures ChooseOption(msg) == Err(Protocol(NoOptions))
  {
    OptionsAt(msg);
  }

  lemma OptionsAt(msg: Json)
    ensures At(msg, ["params", "options"]) == Get(Index(msg, "params"), "options")
  {
    assert ["params", "options"][1..] == ["options"] && ["options"][1..] == [];
    assert At(Index(msg, "params"), ["options"]) == Get(Index(msg, "params"), "options");
  }

  /** A permission request is answered with the option chosen; one that cannot be answered ends the loop and stays pending. */
  lemma PermissionOnTheWire(t: Turn, p: Poll, json: Json, id: Json)
    requires Receives(t, p, json) && Get(json, "method") == Some(Str("session/request_permission"))
    requires Get(json, "id") == Some(id)
    ensures var t' := Step(t, p); var l, l' := t.client.ledger, t'.client.ledger;
            && l'.asked == l.asked + [id]
            && match ChooseOption(json)
               case Ok(option) =>
                 if p.writeOk then t'.exit.None? && l'.wire == l.wire + [PermissionAnswer(id, Some(option))] && l'.pending.None?
                 else t'.exit == Some(Bailed(WriteFailed)) && l'.wire == l.wire && l'.pending == Some(id) && !l'.responded
               case Err(error) => t'.exit == Some(Bailed(error)) && l'.wire == l.wire && l'.pending == Some(id) && !l'.responded
  {
    hide Keeps, Quiet, Dispatched, ChooseOption, DecodeOutcome, DecodeStop;
  }

  /** The usual request, end to end. */
  lemma AllowOnceAnswered(t: Turn, p: Poll, json: Json, id: Json, options: seq<Json>, i: nat, option: string)
    requires Receives(t, p, json) && Get(json, "method") == Some(Str("session/request_permission"))
    requires Get(json, "id") == Some(id) && At(json, ["params", "options"]) == Some(Arr(options)) && p.writeOk
    requires FirstOfKind(options, "allow_once", i) && Get(options[i], "optionId") == Some(Str(option))
    ensures Wrote(Step(t, p)) == Wrote(t) + [PermissionAnswer(id, Some(option))] && Step(t, p).exit.None?
  {
    OptionChosen(json, options, i);
    PermissionOnTheWire(t, p, json, id);
    hide Step, ChooseOption, At, Receives;
  }

  lemma PermissionWithoutId(t: Turn, p: Poll, json: Json)
    requires Receives(t, p, json) && Get(json, "method") == Some(Str("session/request_permission")) && Get(json, "id").None?
    ensures Step(t, p).exit == Some(Bailed(Protocol(NoRequestId))) && Step(t, p).client == t.client
  {
    hide Keeps, Quiet, Dispatched, ChooseOption, DecodeOutcome, DecodeStop;
  }

  // ---- Other frames ----

  predicate Known(name: string) {
    name == "session/update" || name == "_goose/unstable/session/update" || name == "session/request_permission"
  }

  /** A request for any other method is refused, and a notification of any other method is ignored. */
  lemma UnknownOnTheWire(t: Turn, p: Poll, json: Json, name: string)
    requires Receives(t, p, json) && Get(json, "method") == Some(Str(name)) && !Known(name)
    ensures var t' := Step(t, p);
            match Get(json, "id")
            case None => t'.client == t.client && t'.exit.None?
            case Some(id) =>
              if p.writeOk then t'.exit.None? && t'.client == t.client.(ledger := Write(t.client.ledger, MethodNotFound(id, name)))
              else t'.exit == Some(Bailed(WriteFailed)) && t'.client == t.client
  {
    hide Keeps, Quiet, Dispatched, ChooseOption, DecodeOutcome, DecodeStop;
  }

  /** A session update sets or clears the active run as its `activeRunId` says, and a tool call restarts the idle clock. */
  lemma UpdateOnTheWire(t: Turn, p: Poll, json: Json)
    requires Receives(t, p, json) && Get(json, "method") == Some(Str("session/update"))
    ensures var t' := Step(t, p); var update := Index(Index(json, "params"), "update");
            && t'.exit.None?
            && t'.client == t.client.(activeRunId :=
                 if Get(update, "sessionUpdate") != Some(Str("session_info_update")) then t.client.activeRunId
                 else match Get(Index(Index(update, "_meta"), "goose"), "activeRunId")
                      case Some(Str(run)) => Some(run)
                      case Some(Null) => None
                      case _ => t.client.activeRunId)
            && t'.lastActivity == if Get(update, "sessionUpdate") == Some(Str("tool_call")) then p.later else p.at
  {
    hide Keeps, Quiet, Dispatched, ChooseOption, DecodeOutcome, DecodeStop;
  }

  /** Usage updates, and frames with neither a known reply id nor a method name, change nothing but the idle clock. */
  lemma IgnoredOnTheWire(t: Turn, p: Poll, json: Json)
    requires Receives(t, p, json)
    requires match Get(json, "method")
             case Some(Str(name)) => name == "_goose/unstable/session/update"
             case Some(_) => true
             case None => Get(json, "id") != Some(Int(t.expectedId)) && (t.pending.Some? ==> Get(json, "id") != Some(Int(t.pending.value.id)))
    ensures Step(t, p) == t.(idleDeadline := p.at + t.idleTimeout, lastActivity := p.at)
  {
    hide Keeps, Quiet, Dispatched, ChooseOption, DecodeOutcome, DecodeStop;
  }

  // ---- Steers ----

  /** What a steer request does when it is taken: by the run id if there is one, else by the extension, else not at all. */
  lemma SteerOnTheWire(t: Turn, p: Poll)
    requires t.exit.None? && t.steerRx && t.pending.None? && p.now < NextDeadline(t) && p.reader.None? && p.steer.Some?
    ensures var t', c, req := Step(t, p), t.client, p.steer.value;
            && t'.taken == t.taken + [req.ticket] && t'.exit.None?
            && (c.activeRunId.None? && !c.steeringSupported ==>
                  t'.client == c && t'.pending.None? && t'.acks == t.acks + [(req.ticket, ExpectedRunIdMissing)])
            && (c.activeRunId.Some? || c.steeringSupported ==>
                  var transport := if c.activeRunId.Some? then Goose else AcpExtension;
                  && t'.client.nextId == c.nextId + 1
                  && (p.writeOk ==>
                        && Wrote(t') == Wrote(t) + [SteerWrite(c.nextId, transport, c.activeRunId, req.blocks)]
                        && t'.pending == Some(Pending(c.nextId, transport, req.ticket)) && t'.acks == t.acks)
                  && (!p.writeOk ==>
                        Wrote(t') == Wrote(t) && t'.pending.None? && t'.acks == t.acks + [(req.ticket, TransportFailed)]))
  {
    hide Keeps, Quiet;
  }

  /** The answer to a steer in flight, from the reply that carries its id. */
  lemma SteerReplyOnTheWire(t: Turn, p: Poll, json: Json)
    requires Receives(t, p, json) && t.pending.Some? && Get(json, "method").None?
    requires Get(json, "id") == Some(Int(t.pending.value.id))
    ensures var t', outcome := Step(t, p), At(json, ["result", "outcome"]);
            && t'.exit.None? && t'.pending.None?
            && t'.acks == t.acks + [(t.pending.value.ticket,
                 match Get(json, "error")
                 case Some(error) => AgentRefused(error)
                 case None =>
                   if t.pending.value.transport.Goose? || outcome == Some(Str("injected")) || outcome == Some(Str("startedNewTurn"))
                   then Success else OutcomeRejected(outcome))]
            && t'.hardDeadline ==
               if Get(json, "error").None? && (t.pending.value.transport.Goose? || outcome == Some(Str("injected")))
                  && p.later + t.maxDuration > t.hardDeadline
               then p.later + t.maxDuration else t.hardDeadline
  {
    assert ["result", "outcome"][1..] == ["outcome"] && ["outcome"][1..] == [];
    assert At(Index(json, "result"), ["outcome"]) == Get(Index(json, "result"), "outcome");
    hide Keeps, Quiet, Dispatched, Dispatch, ChooseOption, DecodeStop;
  }

  // ---- How the loop ends ----

  /** A turn that ends tells a steer in flight that it did. */
  ghost predicate EndsWith(t: Turn, t': Turn, result: Result<Reply, AcpError>) {
    && t'.exit == Some(Returned(result)) && t'.pending.None? && t'.client == t.client
    && t'.acks == t.acks + if t.pending.Some? then [(t.pending.value.ticket, PromptCompletedNeutral)] else []
  }

  lemma ReaderEnds(t: Turn, p: Poll)
    requires t.exit.None? && p.now < NextDeadline(t) && p.reader.Some?
    ensures p.reader.value.Eof? ==> EndsWith(t, Step(t, p), Err(AgentExited))
    ensures p.reader.value.LineTooLong? ==> EndsWith(t, Step(t, p), Err(Protocol(LineLimit)))
    ensures p.reader.value.ReadError? ==> EndsWith(t, Step(t, p), Err(Io))
    ensures p.reader.value.Blank? || p.reader.value.Garbage? ==> Step(t, p) == t
  {
    hide Keeps, Quiet, OnFrame;
  }

  lemma PromptReplyEnds(t: Turn, p: Poll, json: Json)
    requires Receives(t, p, json) && IdsOrdered(t) && Get(json, "method").None? && Get(json, "id") == Some(Int(t.expectedId))
    ensures var result := Index(json, "result");
            EndsWith(t, Step(t, p), match Get(json, "error")
                                    case Some(error) => Err(AgentError(error))
                                    case None => Ok(Reply(result, DecodeStop(result))))
  {
    hide Keeps, Quiet, Dispatch, OnSteerReply, DecodeStop, DecodeOutcome;
  }

  lemma DeadlineEnds(t: Turn, p: Poll)
    requires t.exit.None? && p.now >= NextDeadline(t)
    ensures EndsWith(t, Step(t, p), Err(if t.idleDeadline < t.hardDeadline then IdleTimeout
                                        else HardTimeout(if p.at < t.lastActivity then 0 else p.at - t.lastActivity)))
  {
    hide Keeps, Quiet, OnRead, OnSteer;
  }

  /** With nothing to read and no steer to take, the loop sleeps until the nearer deadline and then ends. */
  lemma SleepEnds(t: Turn, p: Poll)
    requires t.exit.None? && p.now < NextDeadline(t) && p.reader.None? && (p.steer.None? || t.pending.Some? || !t.steerRx)
    ensures var woke := if p.at < NextDeadline(t) then NextDeadline(t) else p.at;
            EndsWith(t, Step(t, p), Err(if t.idleDeadline < t.hardDeadline then IdleTimeout
                                        else HardTimeout(if woke < t.lastActivity then 0 else woke - t.lastActivity)))
  {
    hide Keeps, Quiet, OnRead, OnSteer;
  }

  // ---- Stop reasons ----

  /** The wire form of a stop reason. */
  function StopName(r: StopReason): string {
    match r
    case EndTurn => "end_turn"
    case Cancelled => "cancelled"
    case MaxTokens => "max_tokens"
    case MaxTurnRequests => "max_turn_requests"
    case Refusal => "refusal"
  }

  lemma StopNameTells(r: StopReason, r': StopReason)
    requires StopName(r) == StopName(r')
    ensures r == r'
  {
    assert StopName(r)[0] == StopName(r')[0] && |StopName(r)| == |StopName(r')|;
  }

  /** A result states a stop reason exactly if its `stopReason` is that reason's name, in letters of either case. */
  lemma StopReasonIff(result: Json, r: StopReason)
    ensures DecodeStop(result) == Some(r) <==>
            match Get(result, "stopReason") case Some(Str(raw)) => Text.Lower(raw) == StopName(r) case _ => false
  {
    var raw := Index(result, "stopReason");
    if raw.Str? {
      var name := Text.Lower(raw.s);
      hide Text.Lower;
      if DecodeStop(result).Some? {
        assert StopName(DecodeStop(result).value) == name;
        if StopName(r) == name {
          StopNameTells(r, DecodeStop(result).value);
        }
      }
    }
  }

  /** A prompt call reports what its loop returned: the stop reason of the reply, or the error. */
  lemma PromptReport(c: Client, now: Instant, idle: nat, max: nat, writeOk: bool, start: Instant, polls: seq<Poll>)
    ensures var r := Prompt(c, now, idle, max, writeOk, start, polls).1;
            var exit := PromptTurn(c, now, idle, max, start, polls).exit;
            && (!writeOk ==> r == Some(Err(WriteFailed)))
            && (writeOk && exit.None? ==> r.None?)
            && (writeOk && exit.Some? ==>
                  r == Some(match exit.value
                            case Bailed(error) => Err(error)
                            case Returned(Err(error)) => Err(error)
                            case Returned(Ok(reply)) => if reply.stop.Some? then Ok(reply.stop.value) else Err(Protocol(NoStopReason))))
  {
    hide Run;
  }

  // ---- Messages of a call ----

  lemma MoveAppends(l: Ledger, l': Ledger)
    requires LedgerMoves(l, l')
    ensures l.wire <= l'.wire
    ensures forall i | |l.wire| <= i < |l'.wire| :: !l'.wire[i].PromptRequest? && !l'.wire[i].SessionCancel?
  {
  }

  /** The loop only appends to what was written, and writes neither prompts nor cancels. */
  lemma {:induction false} RunAppends(t: Turn, polls: seq<Poll>)
    ensures var w, w' := Wrote(t), Wrote(Run(t, polls));
            w <= w' && forall i | |w| <= i < |w'| :: !w'[i].PromptRequest? && !w'[i].SessionCancel?
  {
    hide Step;
    if polls != [] {
      var n := |polls| - 1;
      RunAppends(t, polls[..n]);
      MoveAppends(Run(t, polls[..n]).client.ledger, Run(t, polls).client.ledger);
      hide LedgerMoves;
      var w, w1, w2 := Wrote(t), Wrote(Run(t, polls[..n])), Wrote(Run(t, polls));
      forall i | |w| <= i < |w2| ensures !w2[i].PromptRequest? && !w2[i].SessionCancel? {
        assert i < |w1| ==> w2[i] == w1[i];
      }
    }
  }

  /** `w` is what `before` has grown to by writing `first` and then anything but prompts and cancels. */
  ghost predicate GrownBy(before: seq<Wire>, first: seq<Wire>, w: seq<Wire>) {
    before + first <= w && forall i | |before + first| <= i < |w| :: !w[i].PromptRequest? && !w[i].SessionCancel?
  }

  /** A prompt call writes its request under the next id, once, before anything else. */
  lemma PromptWrites(c: Client, now: Instant, idle: nat, max: nat, writeOk: bool, start: Instant, polls: seq<Poll>)
    ensures var c' := Prompt(c, now, idle, max, writeOk, start, polls).0;
            && (writeOk ==> GrownBy(c.ledger.wire, [PromptRequest(c.nextId)], c'.ledger.wire) && c.nextId < c'.nextId)
            && (!writeOk ==> c'.ledger == c.ledger && c'.nextId == c.nextId + 1)
  {
    hide Run;
    var t := Begin(PromptSent(c, now, max), c.nextId, idle, now + max, max, start);
    RunAppends(t, polls);
    RunKeeps(t, polls);
  }

  /** A cancel answers the permission request still owed, then notifies, and only then reads. */
  lemma CancelWrites(c: Client, hard: Instant, answerOk: bool, cancelOk: bool, start: Instant, polls: seq<Poll>)
    requires c.lastPromptId.Some?
    ensures var (c', r) := CancelUntil(c, hard, answerOk, cancelOk, start, polls); var l := c.ledger;
            var owed := if l.pending.Some? && !l.responded then [PermissionAnswer(l.pending.value, None)] else [];
            && (owed != [] && !answerOk ==> c'.ledger == l && r == Some(Err(WriteFailed)))
            && ((owed == [] || answerOk) && !cancelOk ==> c'.ledger.wire == l.wire + owed && c'.ledger.pending.None? && r == Some(Err(WriteFailed)))
            && ((owed == [] || answerOk) && cancelOk ==> GrownBy(l.wire, owed + [SessionCancel(c.lastPromptId.value)], c'.ledger.wire))
  {
    hide Run;
    var owed := if OwesAnswer(c.ledger) then [PermissionAnswer(c.ledger.pending.value, None)] else [];
    assert Answered(c.ledger).wire == c.ledger.wire + owed;
    assert c.ledger.wire + owed + [SessionCancel(c.lastPromptId.value)] == c.ledger.wire + (owed + [SessionCancel(c.lastPromptId.value)]);
    RunAppends(Begin(CancelSent(c), c.lastPromptId.value, CLEANUP, hard, Max(0, hard - start), start), polls);
    hide Answered;
  }

  /** What a drain is run with: the prompt cancelled, thirty seconds of silence at most, and the caller's deadline. */
  lemma DrainTerms(c: Client, grace: nat, now: Instant, answerOk: bool, start: Instant, polls: seq<Poll>)
    requires c.lastPromptId.Some? && (OwesAnswer(c.ledger) ==> answerOk)
    ensures var floor := now + 30_000_000_000;
            var hard := if c.hardDeadline.Some? && c.hardDeadline.value > floor then c.hardDeadline.value else floor;
            var plain := DrainTurn(c.(hardDeadline := None), hard, start, polls);
            var (c', r) := Cancel(c, now, answerOk, true, start, polls);
            && c' == plain.client && (r.None? <==> plain.exit.None?)
            && plain.expectedId == c.lastPromptId.value && plain.idleTimeout == 30_000_000_000 && plain.hardDeadline >= hard
            && (plain.exit.Some? && plain.exit.value.Returned? && plain.exit.value.result.Err? ==> r == Some(Err(plain.exit.value.result.error)))
    ensures var bounded := DrainTurn(c.(hardDeadline := None), now + grace, start, polls);
            var (c', r) := CancelGrace(c, grace, now, answerOk, true, start, polls);
            && c' == bounded.client && (r.None? <==> bounded.exit.None?)
            && bounded.expectedId == c.lastPromptId.value && bounded.idleTimeout == 30_000_000_000 && bounded.hardDeadline >= now + grace
            && (bounded.exit.Some? && bounded.exit.value.Returned? && bounded.exit.value.result.Err? ==>
                  r == Some(Err(if bounded.exit.value.result.error.HardTimeout? then CancelDrainTimeout(grace)
                                else bounded.exit.value.result.error)))
  {
    hide Run;
    var c0 := c.(hardDeadline := None);
    var hard := DrainDeadline(c, now);
    RunKeeps(Begin(CancelSent(c0), c.lastPromptId.value, CLEANUP, hard, Max(0, hard - start), start), polls);
    RunKeeps(Begin(CancelSent(c0), c.lastPromptId.value, CLEANUP, now + grace, Max(0, now + grace - start), start), polls);
    hide CancelSent, Answered;
  }
}
