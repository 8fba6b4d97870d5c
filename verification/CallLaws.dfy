/** What any history of prompt and cancel calls keeps: one cancel per prompt, one answer per permission request. */
module CallLaws {
  import opened Wrappers
  import opened JsonValues
  import opened TurnEngine
  import opened TurnLaws

  // ---- Reading the log of writes ----

  /** The prompts a cancel notification was written for, in order. */
  ghost function Cancels(wire: seq<Wire>): seq<nat> {
    if wire == [] then []
    else
      var last := wire[|wire| - 1];
      Cancels(wire[..|wire| - 1]) + if last.SessionCancel? then [last.prompt] else []
  }

  /** The permission requests an answer was written for, in order. */
  ghost function Answers(wire: seq<Wire>): seq<Json> {
    if wire == [] then []
    else
      var last := wire[|wire| - 1];
      Answers(wire[..|wire| - 1]) + if last.PermissionAnswer? then [last.request] else []
  }

  lemma Written(wire: seq<Wire>, w: Wire)
    ensures Cancels(wire + [w]) == Cancels(wire) + if w.SessionCancel? then [w.prompt] else []
    ensures Answers(wire + [w]) == Answers(wire) + if w.PermissionAnswer? then [w.request] else []
  {
    assert (wire + [w])[..|wire|] == wire;
  }

  // ---- Permission requests ----

  function Unanswered(l: Ledger): multiset<Json> {
    if l.pending.Some? then multiset{l.pending.value} else multiset{}
  }

  /** No request is answered more often than it was made, even counting the answer still owed. */
  ghost predicate PermissionsSound(l: Ledger) {
    multiset(Answers(l.wire)) + Unanswered(l) <= multiset(l.asked) && (l.pending.Some? ==> !l.responded)
  }

  /** A step of the read loop keeps the permissions sound and never writes a cancel. */
  lemma MoveSound(l: Ledger, l': Ledger)
    requires LedgerMoves(l, l') && PermissionsSound(l)
    ensures PermissionsSound(l') && Cancels(l'.wire) == Cancels(l.wire) && l.wire <= l'.wire
  {
    if |l'.asked| != |l.asked| {
      var id := l'.asked[|l.asked|];
      assert multiset(l.asked + [id]) == multiset(l.asked) + multiset{id};
    }
    if |l'.wire| != |l.wire| {
      Written(l.wire, l'.wire[|l.wire|]);
    }
  }

  lemma {:induction false} RunWrites(t: Turn, polls: seq<Poll>)
    requires PermissionsSound(t.client.ledger)
    ensures SameTerms(t, Run(t, polls))
    ensures var l, l' := t.client.ledger, Run(t, polls).client.ledger;
            PermissionsSound(l') && Cancels(l'.wire) == Cancels(l.wire) && l.wire <= l'.wire
  {
    hide Step;
    if polls != [] {
      var n := |polls| - 1;
      RunWrites(t, polls[..n]);
      MoveSound(Run(t, polls[..n]).client.ledger, Run(t, polls).client.ledger);
    }
  }

  // ---- Histories of calls ----

  datatype Call =
    | CallPrompt(now: Instant, idle: nat, max: nat, writeOk: bool, start: Instant, polls: seq<Poll>)
    | CallCancel(now: Instant, answerOk: bool, cancelOk: bool, start: Instant, polls: seq<Poll>)
    | CallCancelGrace(grace: nat, now: Instant, answerOk: bool, cancelOk: bool, start: Instant, polls: seq<Poll>)
    | InstallSteerRx
    | ClearSteerRx

  /** How a call came back. */
  datatype Report = Ended(result: Result<StopReason, AcpError>) | Done

  function Reported(r: Option<Result<StopReason, AcpError>>): Option<Report> {
    if r.Some? then Some(Ended(r.value)) else None
  }

  /** The client after a call, and its report once it has come back. */
  function Perform(c: Client, call: Call): (Client, Option<Report>) {
    match call
    case CallPrompt(now, idle, max, writeOk, start, polls) =>
      var (c', r) := Prompt(c, now, idle, max, writeOk, start, polls);
      (c', Reported(r))
    case CallCancel(now, answerOk, cancelOk, start, polls) =>
      var (c', r) := Cancel(c, now, answerOk, cancelOk, start, polls);
      (c', Reported(r))
    case CallCancelGrace(grace, now, answerOk, cancelOk, start, polls) =>
      var (c', r) := CancelGrace(c, grace, now, answerOk, cancelOk, start, polls);
      (c', Reported(r))
    case InstallSteerRx => (c.(steerRx := true), if c.steerRx then None else Some(Done))
    case ClearSteerRx => (c.(steerRx := false), Some(Done))
  }

  datatype Past = Past(client: Client, reports: seq<Report>)

  /** The client and the reports after a history in which every call came back; `None` if one did not. */
  function History(c: Client, calls: seq<Call>): Option<Past> {
    if calls == [] then Some(Past(c, []))
    else
      var before := History(c, calls[..|calls| - 1]);
      if before.None? then None
      else
        var (after, report) := Perform(before.value.client, calls[|calls| - 1]);
        if report.Some? then Some(Past(after, before.value.reports + [report.value])) else None
  }

  ghost predicate Ascending(ids: seq<nat>) { forall i, j | 0 <= i < j < |ids| :: ids[i] < ids[j] }

  ghost predicate AllBelow(ids: seq<nat>, bound: nat) { forall i | 0 <= i < |ids| :: ids[i] < bound }

  /** Each prompt has been cancelled at most once, and the one in flight not yet. */
  ghost predicate CancelsSound(cancels: seq<nat>, inFlight: Option<nat>, nextId: nat) {
    Ascending(cancels) && AllBelow(cancels, nextId) &&
    (inFlight.Some? ==> inFlight.value < nextId && AllBelow(cancels, inFlight.value))
  }

  ghost predicate Sound(c: Client) {
    PermissionsSound(c.ledger) && CancelsSound(Cancels(c.ledger.wire), c.lastPromptId, c.nextId)
  }

  /** Soundness depends on the ledger, the prompt in flight and the id counter only. */
  lemma StaysSound(c: Client, c': Client)
    requires Sound(c) && PermissionsSound(c'.ledger) && Cancels(c'.ledger.wire) == Cancels(c.ledger.wire)
    requires c.nextId <= c'.nextId && c'.lastPromptId in {None, c.lastPromptId}
    ensures Sound(c')
  {
  }

  /** A write that is no permission answer. */
  lemma WriteSound(l: Ledger, w: Wire)
    requires PermissionsSound(l) && !w.PermissionAnswer?
    ensures PermissionsSound(Write(l, w))
  {
    Written(l.wire, w);
  }

  lemma LoopKeepsSound(t: Turn, polls: seq<Poll>)
    requires Sound(t.client)
    ensures var c := Run(t, polls).client;
            Sound(c) && SameTerms(t, Run(t, polls)) && Cancels(c.ledger.wire) == Cancels(t.client.ledger.wire)
  {
    hide Step;
    RunWrites(t, polls);
    StaysSound(t.client, Run(t, polls).client);
  }

  lemma PromptKeeps(c: Client, now: Instant, idle: nat, max: nat, writeOk: bool, start: Instant, polls: seq<Poll>)
    requires Sound(c)
    ensures Sound(Prompt(c, now, idle, max, writeOk, start, polls).0)
  {
    hide Step, PermissionsSound, CancelsSound, Cancels;
    var c' := Prompt(c, now, idle, max, writeOk, start, polls).0;
    if writeOk {
      var t := Begin(PromptSent(c, now, max), c.nextId, idle, now + max, max, start);
      PromptSound(c, t.client);
      LoopKeepsSound(t, polls);
      StaysSound(Run(t, polls).client, c');
    } else {
      StaysSound(c, c');
    }
  }

  lemma PromptSound(c: Client, c': Client)
    requires Sound(c) && c'.ledger == Write(c.ledger, PromptRequest(c.nextId))
    requires c'.lastPromptId == Some(c.nextId) && c'.nextId == c.nextId + 1
    ensures Sound(c')
  {
    Written(c.ledger.wire, PromptRequest(c.nextId));
    WriteSound(c.ledger, PromptRequest(c.nextId));
  }

  lemma AnsweredSound(l: Ledger)
    requires PermissionsSound(l)
    ensures PermissionsSound(Answered(l)) && Cancels(Answered(l).wire) == Cancels(l.wire)
  {
    if l.pending.Some? {
      Written(l.wire, PermissionAnswer(l.pending.value, None));
    }
  }

  lemma CancelsExtended(cancels: seq<nat>, id: nat, nextId: nat)
    requires CancelsSound(cancels, Some(id), nextId)
    ensures CancelsSound(cancels + [id], None, nextId)
  {
  }

  lemma CancelWrites(c: Client)
    requires Sound(c) && c.lastPromptId.Some?
    ensures Sound(CancelSent(c)) && Cancels(CancelSent(c).ledger.wire) == Cancels(c.ledger.wire) + [c.lastPromptId.value]
  {
    hide PermissionsSound, Answered, CancelsSound, Cancels;
    AnsweredSound(c.ledger);
    CancelsExtended(Cancels(c.ledger.wire), c.lastPromptId.value, c.nextId);
    var w := SessionCancel(c.lastPromptId.value);
    Written(Answered(c.ledger).wire, w);
    WriteSound(Answered(c.ledger), w);
  }

  lemma CancelUntilKeeps(c: Client, hard: Instant, answerOk: bool, cancelOk: bool, start: Instant, polls: seq<Poll>)
    requires Sound(c)
    ensures var c' := CancelUntil(c, hard, answerOk, cancelOk, start, polls).0;
            && Sound(c') && c'.lastPromptId.None?
            && Cancels(c'.ledger.wire) == Cancels(c.ledger.wire) +
               if c.lastPromptId.Some? && cancelOk && (c.ledger.pending.None? || answerOk) then [c.lastPromptId.value] else []
  {
    var c' := CancelUntil(c, hard, answerOk, cancelOk, start, polls).0;
    assert OwesAnswer(c.ledger) == c.ledger.pending.Some?;
    hide Step, PermissionsSound, CancelsSound, Answered, Cancels, OwesAnswer;
    if c.lastPromptId.Some? {
      AnsweredSound(c.ledger);
      if cancelOk && (c.ledger.pending.None? || answerOk) {
        var t := Begin(CancelSent(c), c.lastPromptId.value, CLEANUP, hard, Max(0, hard - start), start);
        CancelWrites(c);
        StaysSound(CancelSent(c), t.client);
        LoopKeepsSound(t, polls);
      } else {
        StaysSound(c, c');
      }
    }
  }

  /** Over any history, each prompt is cancelled at most once and each permission request answered at most once. */
  lemma {:induction false} HistorySound(c: Client, calls: seq<Call>)
    requires Sound(c) && History(c, calls).Some?
    ensures Sound(History(c, calls).value.client)
  {
    hide Step, Run, PermissionsSound, CancelsSound, Prompt, CancelUntil;
    if calls != [] {
      var n := |calls| - 1;
      HistorySound(c, calls[..n]);
      var before := History(c, calls[..n]).value.client;
      match calls[n]
      case CallPrompt(now, idle, max, writeOk, start, polls) =>
        PromptKeeps(before, now, idle, max, writeOk, start, polls);
      case CallCancel(now, answerOk, cancelOk, start, polls) =>
        CancelUntilKeeps(before.(hardDeadline := None), DrainDeadline(before, now), answerOk, cancelOk, start, polls);
      case CallCancelGrace(grace, now, answerOk, cancelOk, start, polls) =>
        CancelUntilKeeps(before.(hardDeadline := None), now + grace, answerOk, cancelOk, start, polls);
      case _ =>
    }
  }

  /** From a client just spawned: no prompt is cancelled twice, and no permission request answered more often than it was made. */
  lemma SpawnedHistory(steering: bool, calls: seq<Call>)
    requires History(Spawned(steering), calls).Some?
    ensures var ledger := History(Spawned(steering), calls).value.client.ledger;
            && (forall i, j | 0 <= i < j < |Cancels(ledger.wire)| :: Cancels(ledger.wire)[i] != Cancels(ledger.wire)[j])
            && multiset(Answers(ledger.wire)) <= multiset(ledger.asked)
  {
    assert Sound(Spawned(steering));
    HistorySound(Spawned(steering), calls);
    hide History, Cancels, Answers;
  }

  // ---- Single calls ----

  /** A cancel notifies once, for the prompt in flight, if the writes succeed; with none in flight it writes nothing. */
  lemma CancelNotifiesOnce(c: Client, hard: Instant, answerOk: bool, cancelOk: bool, start: Instant, polls: seq<Poll>)
    requires Sound(c)
    ensures var (c', r) := CancelUntil(c, hard, answerOk, cancelOk, start, polls);
            && c'.lastPromptId.None?
            && (c.lastPromptId.None? ==> c' == c && r == Some(Err(Protocol(NoPromptInFlight))))
            && Cancels(c'.ledger.wire) == Cancels(c.ledger.wire) +
               if c.lastPromptId.Some? && cancelOk && (c.ledger.pending.None? || answerOk) then [c.lastPromptId.value] else []
  {
    hide Step, Run;
    CancelUntilKeeps(c, hard, answerOk, cancelOk, start, polls);
  }

  /** A prompt call that has come back leaves its prompt cancellable exactly when it timed out. */
  lemma TimeoutLeavesCancelCallable(c: Client, now: Instant, idle: nat, max: nat, start: Instant, polls: seq<Poll>)
    requires PromptTurn(c, now, idle, max, start, polls).exit.Some?
    ensures var (c', r) := Prompt(c, now, idle, max, true, start, polls);
            && r.Some? && !c'.steerRx
            && (r.value.Err? && (r.value.error.IdleTimeout? || r.value.error.HardTimeout?) <==> c'.lastPromptId.Some?)
            && (c'.lastPromptId.Some? ==>
                  c'.lastPromptId == Some(c.nextId) && c'.hardDeadline.Some? && now + max <= c'.hardDeadline.value)
            && (c'.lastPromptId.None? ==> c'.hardDeadline.None?)
  {
    hide Step;
    var t := Begin(PromptSent(c, now, max), c.nextId, idle, now + max, max, start);
    RunKeeps(t, polls);
  }

  /** A loop with no steer channel takes no steer, issues no id and never moves its hard deadline. */
  lemma {:induction false} QuietRun(t: Turn, polls: seq<Poll>)
    requires !t.steerRx && t.pending.None?
    ensures var t' := Run(t, polls);
            && !t'.steerRx && t'.pending.None? && t'.hardDeadline == t.hardDeadline
            && t'.taken == t.taken && t'.acks == t.acks && t'.client.nextId == t.client.nextId
  {
    hide Step;
    if polls != [] {
      QuietRun(t, polls[..|polls| - 1]);
    }
  }

  /**
   * After a timeout, the drain has the turn's remaining time but at least the cleanup grace, and nothing the
   * agent sends extends it.
   */
  lemma DrainAfterTimeout(
    c: Client, now: Instant, idle: nat, max: nat, start: Instant, polls: seq<Poll>,
    now': Instant, start': Instant, polls': seq<Poll>
  )
    requires PromptTurn(c, now, idle, max, start, polls).exit.Some?
    requires IsTimeout(ExitResult(PromptTurn(c, now, idle, max, start, polls).exit.value))
    ensures var c' := Prompt(c, now, idle, max, true, start, polls).0;
            && c'.hardDeadline.Some? && c'.lastPromptId == Some(c.nextId)
            && DrainDeadline(c', now') == Max(c'.hardDeadline.value, now' + CLEANUP)
            && var drain := DrainTurn(c'.(hardDeadline := None), DrainDeadline(c', now'), start', polls');
               drain.hardDeadline == DrainDeadline(c', now') && drain.taken == []
  {
    hide Step;
    TimeoutLeavesCancelCallable(c, now, idle, max, start, polls);
    var c' := Prompt(c, now, idle, max, true, start, polls).0;
    var hard := DrainDeadline(c', now');
    QuietRun(Begin(CancelSent(c'.(hardDeadline := None)), c.nextId, CLEANUP, hard, Max(0, hard - start'), start'), polls');
  }

  /** A bounded cancel reports an expired drain as such, never as a breach of the turn's hard cap. */
  lemma GraceNeverHardTimeout(
    c: Client, grace: nat, now: Instant, answerOk: bool, cancelOk: bool, start: Instant, polls: seq<Poll>
  )
    ensures var r := CancelGrace(c, grace, now, answerOk, cancelOk, start, polls).1;
            var r' := CancelUntil(c.(hardDeadline := None), now + grace, answerOk, cancelOk, start, polls).1;
            && !(r.Some? && r.value.Err? && r.value.error.HardTimeout?)
            && (r == r' || (r == Some(Err(CancelDrainTimeout(grace))) && r'.value.error.HardTimeout?))
  {
  }

  predicate TimedOut(r: Report) { r.Ended? && r.result.Err? && (r.result.error.IdleTimeout? || r.result.error.HardTimeout?) }

  /** The last call that was not about the steer channel is a prompt that timed out. */
  predicate LastTurnTimedOut(calls: seq<Call>, reports: seq<Report>)
    requires |calls| == |reports|
  {
    calls != [] &&
    var n := |calls| - 1;
    match calls[n]
    case CallPrompt(_, _, _, _, _, _) => TimedOut(reports[n])
    case InstallSteerRx => LastTurnTimedOut(calls[..n], reports[..n])
    case ClearSteerRx => LastTurnTimedOut(calls[..n], reports[..n])
    case _ => false
  }

  /** What one call does to the prompt in flight, and what it can report. */
  lemma CallReports(c: Client, call: Call)
    requires Perform(c, call).1.Some?
    ensures var (c', report) := Perform(c, call);
            && (call.CallPrompt? ==> (c'.lastPromptId.Some? <==> TimedOut(report.value)))
            && (call.CallCancel? || call.CallCancelGrace? ==>
                  c'.lastPromptId.None? && (c.lastPromptId.None? ==> report.value == Ended(Err(Protocol(NoPromptInFlight)))))
            && (call.CallCancelGrace? ==> !(report.value.Ended? && report.value.result.Err? && report.value.result.error.HardTimeout?))
            && (call.InstallSteerRx? || call.ClearSteerRx? ==> c'.lastPromptId == c.lastPromptId)
  {
    hide Prompt, CancelUntil, DrainDeadline;
    match call
    case CallPrompt(now, idle, max, writeOk, start, polls) =>
      PromptReports(c, now, idle, max, writeOk, start, polls);
    case CallCancel(now, answerOk, cancelOk, start, polls) =>
      CancelLeavesNone(c.(hardDeadline := None), DrainDeadline(c, now), answerOk, cancelOk, start, polls);
    case CallCancelGrace(grace, now, answerOk, cancelOk, start, polls) =>
      CancelLeavesNone(c.(hardDeadline := None), now + grace, answerOk, cancelOk, start, polls);
      GraceNeverHardTimeout(c, grace, now, answerOk, cancelOk, start, polls);
    case _ =>
  }

  lemma PromptReports(c: Client, now: Instant, idle: nat, max: nat, writeOk: bool, start: Instant, polls: seq<Poll>)
    ensures var (c', r) := Prompt(c, now, idle, max, writeOk, start, polls);
            r.Some? ==> (c'.lastPromptId.Some? <==> TimedOut(Ended(r.value)))
  {
    hide Run;
    if writeOk && PromptTurn(c, now, idle, max, start, polls).exit.Some? {
      TimeoutLeavesCancelCallable(c, now, idle, max, start, polls);
      hide Prompt;
    }
  }

  lemma CancelLeavesNone(c: Client, hard: Instant, answerOk: bool, cancelOk: bool, start: Instant, polls: seq<Poll>)
    ensures var (c', r) := CancelUntil(c, hard, answerOk, cancelOk, start, polls);
            c'.lastPromptId.None? && (c.lastPromptId.None? ==> r == Some(Err(Protocol(NoPromptInFlight))))
  {
    hide Step;
    if c.lastPromptId.Some? {
      RunKeeps(Begin(CancelSent(c), c.lastPromptId.value, CLEANUP, hard, Max(0, hard - start), start), polls);
    }
  }

  /**
   * Over any history of a fresh client: a prompt is in flight, so that cancel is callable, exactly if the last turn
   * timed out and was not cancelled since; a cancel made at any other time is refused; and no bounded cancel ever
   * reports a breach of the hard cap.
   */
  lemma {:induction false} HistoryReports(c: Client, calls: seq<Call>)
    requires c.lastPromptId.None? && History(c, calls).Some?
    ensures var past := History(c, calls).value;
            && |past.reports| == |calls|
            && (past.client.lastPromptId.Some? <==> LastTurnTimedOut(calls, past.reports))
            && (forall i | 0 <= i < |calls| && calls[i].CallCancelGrace? ::
                  !(TimedOut(past.reports[i]) && past.reports[i].result.error.HardTimeout?))
            && (forall i | 0 <= i < |calls| && (calls[i].CallCancel? || calls[i].CallCancelGrace?)
                           && !LastTurnTimedOut(calls[..i], past.reports[..i]) ::
                  past.reports[i] == Ended(Err(Protocol(NoPromptInFlight))))
  {
    hide Perform;
    if calls != [] {
      var n := |calls| - 1;
      var front := calls[..n];
      HistoryReports(c, front);
      var before, past := History(c, front).value, History(c, calls).value;
      CallReports(before.client, calls[n]);
      assert past.reports[..n] == before.reports;
      forall i | 0 <= i < n ensures front[..i] == calls[..i] && before.reports[..i] == past.reports[..i] {
      }
      assert forall i | 0 <= i < n :: front[i] == calls[i] && before.reports[i] == past.reports[i];
    }
  }

  // ---- When a drain can be extended ----

  /** The call gets as far as the read loop, which takes the steer receiver. */
  predicate Reads(c: Client, call: Call) {
    match call
    case CallPrompt(_, _, _, writeOk, _, _) => writeOk
    case CallCancel(_, answerOk, cancelOk, _, _) => c.lastPromptId.Some? && cancelOk && (OwesAnswer(c.ledger) ==> answerOk)
    case CallCancelGrace(_, _, answerOk, cancelOk, _, _) => c.lastPromptId.Some? && cancelOk && (OwesAnswer(c.ledger) ==> answerOk)
    case _ => false
  }

  /** A receiver was installed and neither cleared nor taken since. */
  predicate Installed(c: Client, calls: seq<Call>)
    requires History(c, calls).Some?
  {
    if calls == [] then c.steerRx
    else
      var n := |calls| - 1;
      if calls[n].InstallSteerRx? then true
      else if calls[n].ClearSteerRx? || Reads(History(c, calls[..n]).value.client, calls[n]) then false
      else Installed(c, calls[..n])
  }

  lemma CallReceiver(c: Client, call: Call)
    ensures Perform(c, call).0.steerRx ==
            if call.InstallSteerRx? then true else if call.ClearSteerRx? || Reads(c, call) then false else c.steerRx
  {
    hide Prompt, CancelUntil, DrainDeadline, OwesAnswer;
    match call
    case CallPrompt(now, idle, max, writeOk, start, polls) =>
      PromptReceiver(c, now, idle, max, writeOk, start, polls);
    case CallCancel(now, answerOk, cancelOk, start, polls) =>
      CancelReceiver(c.(hardDeadline := None), DrainDeadline(c, now), answerOk, cancelOk, start, polls);
    case CallCancelGrace(grace, now, answerOk, cancelOk, start, polls) =>
      CancelReceiver(c.(hardDeadline := None), now + grace, answerOk, cancelOk, start, polls);
    case _ =>
  }

  lemma PromptReceiver(c: Client, now: Instant, idle: nat, max: nat, writeOk: bool, start: Instant, polls: seq<Poll>)
    ensures Prompt(c, now, idle, max, writeOk, start, polls).0.steerRx == (c.steerRx && !writeOk)
  {
    hide Run;
    RunKeeps(Begin(PromptSent(c, now, max), c.nextId, idle, now + max, max, start), polls);
  }

  lemma CancelReceiver(c: Client, hard: Instant, answerOk: bool, cancelOk: bool, start: Instant, polls: seq<Poll>)
    ensures CancelUntil(c, hard, answerOk, cancelOk, start, polls).0.steerRx ==
            (c.steerRx && !(c.lastPromptId.Some? && cancelOk && (OwesAnswer(c.ledger) ==> answerOk)))
  {
    hide Step;
    if c.lastPromptId.Some? {
      RunKeeps(Begin(CancelSent(c), c.lastPromptId.value, CLEANUP, hard, Max(0, hard - start), start), polls);
    }
  }

  lemma {:induction false} HistoryReceiver(c: Client, calls: seq<Call>)
    requires History(c, calls).Some?
    ensures History(c, calls).value.client.steerRx <==> Installed(c, calls)
  {
    hide Perform, Reads;
    if calls != [] {
      HistoryReceiver(c, calls[..|calls| - 1]);
      CallReceiver(History(c, calls[..|calls| - 1]).value.client, calls[|calls| - 1]);
    }
  }

  /** A client just spawned has no receiver until one is installed. */
  lemma {:induction false} SpawnedReceiver(steering: bool, calls: seq<Call>)
    requires History(Spawned(steering), calls).Some? && Installed(Spawned(steering), calls)
    ensures exists i :: 0 <= i < |calls| && calls[i].InstallSteerRx?
  {
    var n := |calls| - 1;
    if !calls[n].InstallSteerRx? {
      hide Perform, Reads;
      SpawnedReceiver(steering, calls[..n]);
    }
  }

  /** A run update, a steer, and its reply a moment later. */
  function ExtendingPolls(c: Client, now: Instant): seq<Poll> {
    var reply := Reply(Null, None);
    [Poll(now, Some(Frame(Message(None, Some(SessionUpdate(false, SetRun("run"))), None, reply, Unrecognised(None)))), None, now, now, true),
     Poll(now, None, Some(SteerRequest(0, [])), now, now, true),
     Poll(now, Some(Frame(Message(Some(Int(c.nextId)), None, None, reply, Unrecognised(None)))), None, now, now + 1, true)]
  }

  function Drain(c: Client, now: Instant, polls: seq<Poll>): Turn
    requires c.lastPromptId.Some?
  {
    DrainTurn(c.(hardDeadline := None), DrainDeadline(c, now), now, polls)
  }

  lemma ReceiverExtends(c: Client, now: Instant)
    requires c.lastPromptId.Some? && c.steerRx
    ensures Drain(c, now, ExtendingPolls(c, now)).hardDeadline == DrainDeadline(c, now) + 1
  {
    hide Step, Keeps, Quiet, Answered;
    var c', hard := c.(hardDeadline := None), DrainDeadline(c, now);
    var t := Begin(CancelSent(c'), c.lastPromptId.value, CLEANUP, hard, Max(0, hard - now), now);
    var polls := ExtendingPolls(c, now);
    UpdateStep(t, polls[0], "run");
    var t1 := Step(t, polls[0]);
    SteerGoesOut(t1, polls[1]);
    SteerStep(t1, polls[1]);
    var t2 := Step(t1, polls[1]);
    DeadlinesStep(t2, polls[2]);
    assert Renews(t2, polls[2]);
    hide Renews, CancelSent;
    RunPrefix(t, polls, 0);
    RunPrefix(t, polls, 1);
    RunPrefix(t, polls, 2);
    assert polls[..0] == [] && polls[..3] == polls;
  }

  /** A frame that names the active run. */
  lemma UpdateStep(t: Turn, p: Poll, run: string)
    requires t.exit.None? && t.pending.None? && p.now < NextDeadline(t)
    requires p.reader.Some? && p.reader.value.Frame?
    requires p.reader.value.msg.verb == Some(SessionUpdate(false, SetRun(run)))
    ensures Step(t, p) == t.(client := t.client.(activeRunId := Some(run)), idleDeadline := p.at + t.idleTimeout, lastActivity := p.at)
  {
    hide Keeps, Quiet;
  }

  lemma SteerStep(t: Turn, p: Poll)
    requires t.exit.None? && SteerArmOpen(t) && t.client.activeRunId.Some? && p.now < NextDeadline(t)
    requires p.reader.None? && p.steer.Some? && p.writeOk
    ensures var t' := Step(t, p);
            t'.pending == Some(Pending(t.client.nextId, Goose, p.steer.value.ticket)) && t'.hardDeadline == t.hardDeadline
            && t'.maxDuration == t.maxDuration
  {
    hide Keeps, Quiet;
  }

  lemma QuietDrain(c: Client, now: Instant, polls: seq<Poll>)
    requires c.lastPromptId.Some? && !c.steerRx
    ensures Drain(c, now, polls).hardDeadline == DrainDeadline(c, now)
  {
    hide Run;
    var hard := DrainDeadline(c, now);
    QuietRun(Begin(CancelSent(c.(hardDeadline := None)), c.lastPromptId.value, CLEANUP, hard, Max(0, hard - now), now), polls);
  }

  /** After any history, the drain of a cancel can outlive its deadline exactly if a steer receiver has been left installed for it. */
  lemma DrainExtendsIff(c: Client, calls: seq<Call>, now: Instant)
    requires History(c, calls).Some? && History(c, calls).value.client.lastPromptId.Some?
    ensures var c' := History(c, calls).value.client;
            (exists polls :: Clocked(polls) && Drain(c', now, polls).hardDeadline != DrainDeadline(c', now)) <==> Installed(c, calls)
  {
    HistoryReceiver(c, calls);
    hide History, Installed, Drain, DrainDeadline;
    var c' := History(c, calls).value.client;
    if c'.steerRx {
      ReceiverExtends(c', now);
      assert Clocked(ExtendingPolls(c', now));
      hide ExtendingPolls;
    } else {
      forall polls ensures Drain(c', now, polls).hardDeadline == DrainDeadline(c', now) {
        QuietDrain(c', now, polls);
      }
    }
  }

  // ---- Frames as they arrive on the wire ----

  /** The delivery condition spelled out on the JSON of the frame. */
  lemma DeliveryOnTheWire(t: Turn, p: Poll, json: Json)
    requires p.reader == Some(Frame(Decode(json)))
    ensures Delivers(t, p) <==>
            && t.exit.None? && p.now < NextDeadline(t) && t.pending.Some?
            && Get(json, "id") == Some(Int(t.pending.value.id)) && Get(json, "method").None? && Get(json, "error").None?
            && (t.pending.value.transport.Goose?
                || At(json, ["result", "outcome"]) in {Some(Str("injected")), Some(Str("startedNewTurn"))})
  {
    assert ["result", "outcome"][1..] == ["outcome"] && ["outcome"][1..] == [];
    assert At(Index(json, "result"), ["outcome"]) == Get(Index(json, "result"), "outcome");
    assert At(json, ["result", "outcome"]) == Get(Index(json, "result"), "outcome");
  }
}
