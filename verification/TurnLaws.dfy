/** What every run of the read loop keeps: acknowledgements, request ids and deadlines. */
module TurnLaws {
  import opened Wrappers
  import opened JsonValues
  import opened TurnEngine

  lemma RunPrefix(t: Turn, polls: seq<Poll>, k: nat)
    requires k < |polls|
    ensures Run(t, polls[..k + 1]) == Step(Run(t, polls[..k]), polls[k])
  {
    assert polls[..k + 1][..k] == polls[..k];
  }

  /** A loop that has left stays as it was when it left. */
  lemma {:induction false} ExitIsFinal(t: Turn, polls: seq<Poll>, k: nat)
    requires k <= |polls| && Run(t, polls[..k]).exit.Some?
    ensures Run(t, polls) == Run(t, polls[..k])
    decreases |polls| - k
  {
    if k == |polls| {
      assert polls[..k] == polls;
    } else {
      RunPrefix(t, polls, k);
      ExitIsFinal(t, polls, k + 1);
    }
  }

  // ---- Every steer request is acknowledged exactly once ----

  ghost predicate Started(t: Turn) { t.pending.None? && t.taken == [] && t.acks == [] && t.exit.None? }

  /** The steer is left without an acknowledgement: dispatch failed while it was in flight. */
  ghost predicate Abandoned(t: Turn) { t.exit.Some? && t.exit.value.Bailed? && t.pending.Some? }

  lemma {:induction false} SteersAcknowledged(t: Turn, polls: seq<Poll>)
    requires Started(t)
    ensures var t' := Run(t, polls);
            && Tickets(t'.acks) + PendingTicket(t') == t'.taken
            && (t'.exit.Some? ==> (Tickets(t'.acks) == t'.taken <==> !Abandoned(t')))
            && (t'.exit.Some? && t'.exit.value.Returned? ==> t'.pending.None? && Tickets(t'.acks) == t'.taken)
  {
    hide Step;
    if polls != [] {
      var k := |polls| - 1;
      SteersAcknowledged(t, polls[..k]);
    }
  }

  /** Dispatching the frame ends in an error: a permission request that cannot be answered, or a refusal that cannot be written. */
  predicate DispatchFailsOn(msg: Message, writeOk: bool) {
    match msg.verb
    case Some(RequestPermission(choice)) => msg.id.None? || choice.Err? || !writeOk
    case Some(Unknown(_)) => msg.id.Some? && !writeOk
    case _ => false
  }

  /** Before a deadline, the poll hands the loop a frame whose dispatch fails while a steer is in flight. */
  ghost predicate Abandons(t: Turn, p: Poll) {
    t.exit.None? && t.pending.Some? && p.now < NextDeadline(t) && p.reader.Some? && p.reader.value.Frame?
    && DispatchFailsOn(p.reader.value.msg, p.writeOk)
  }

  /** A step abandons the steer in flight exactly on such a poll. */
  lemma AbandonedStep(t: Turn, p: Poll)
    requires t.exit.None?
    ensures Abandoned(Step(t, p)) <==> Abandons(t, p)
  {
    hide Keeps, Quiet;
  }

  ghost predicate AbandonedAt(t: Turn, polls: seq<Poll>, k: nat) {
    k < |polls| && Abandons(Run(t, polls[..k]), polls[k])
  }

  ghost predicate SomeAbandons(t: Turn, polls: seq<Poll>) { exists k: nat :: AbandonedAt(t, polls, k) }

  /** A run leaves a steer without its acknowledgement exactly if one of its polls abandons it. */
  lemma {:induction false} AbandonedIff(t: Turn, polls: seq<Poll>)
    requires Started(t)
    ensures Abandoned(Run(t, polls)) <==> SomeAbandons(t, polls)
    ensures Run(t, polls).exit.Some? ==> (Tickets(Run(t, polls).acks) != Run(t, polls).taken <==> SomeAbandons(t, polls))
  {
    hide Step, Abandons, Keeps, Quiet, Accounted;
    SteersAcknowledged(t, polls);
    if polls != [] {
      var n := |polls| - 1;
      var front := polls[..n];
      AbandonedIff(t, front);
      if Run(t, front).exit.None? {
        AbandonedStep(Run(t, front), polls[n]);
        assert Abandons(Run(t, front), polls[n]) <==> AbandonedAt(t, polls, n);
      } else {
        ExitIsFinal(t, polls, n);
        assert !AbandonedAt(t, polls, n) by {
          NoneAfterExit(Run(t, front), polls[n]);
        }
      }
      forall k: nat | k < n ensures AbandonedAt(t, polls, k) <==> AbandonedAt(t, front, k) {
        assert front[..k] == polls[..k];
      }
      if SomeAbandons(t, front) {
        var k: nat :| AbandonedAt(t, front, k);
        assert AbandonedAt(t, polls, k);
      }
    }
  }

  lemma NoneAfterExit(t: Turn, p: Poll)
    requires t.exit.Some?
    ensures !Abandons(t, p)
  {
  }

  /** A run that abandons a steer: the write that refuses an unknown agent request fails while it is in flight. */
  lemma AbandonedSteer(c: Client)
    requires c.steerRx && c.steeringSupported
    ensures exists polls ::
              Clocked(polls) && var t := Run(Begin(c, 1, 10, 100, 100, 0), polls);
              Abandoned(t) && t.taken == [7] && t.acks == []
  {
    hide Step, Keeps, Quiet, IsTimeout, Dispatch;
    var p0, p1 := Poll(0, None, Some(SteerRequest(7, [])), 0, 0, true), Poll(1, Some(Frame(REQUEST)), None, 1, 1, false);
    var t0, polls := Begin(c, 1, 10, 100, 100, 0), [p0, p1];
    SteerGoesOut(t0, p0);
    DispatchFails(Step(t0, p0), p1);
    RunPrefix(t0, polls, 0);
    RunPrefix(t0, polls, 1);
    assert polls[..0] == [] && polls[..2] == polls;
  }

  /** An agent request for a method the client does not know. */
  const REQUEST := Message(Some(Int(1)), Some(Unknown("fs/read")), None, Reply(Null, None), Unrecognised(None))

  lemma SteerGoesOut(t: Turn, p: Poll)
    requires t.exit.None? && SteerArmOpen(t) && SteerTransport(t.client).Some? && p.now < NextDeadline(t)
    requires p.reader.None? && p.steer.Some? && p.writeOk
    ensures var t' := Step(t, p);
            && t'.exit.None? && t'.pending.Some? && t'.taken == t.taken + [p.steer.value.ticket] && t'.acks == t.acks
            && NextDeadline(t') == NextDeadline(t)
  {
    hide OnRead;
  }

  lemma DispatchFails(t: Turn, p: Poll)
    requires t.exit.None? && t.pending.Some? && p.now < NextDeadline(t)
    requires p.reader == Some(Frame(REQUEST)) && !p.writeOk
    ensures Abandoned(Step(t, p)) && Step(t, p).taken == t.taken && Step(t, p).acks == t.acks
  {
    hide OnSteer;
  }

  // ---- Request ids keep the two replies apart ----

  /** What every run keeps. */
  lemma {:induction false} RunKeeps(t: Turn, polls: seq<Poll>)
    ensures var t' := Run(t, polls);
            && SameTerms(t, t') && t.hardDeadline <= t'.hardDeadline
            && (IdsOrdered(t) ==> IdsOrdered(t')) && (Mirrored(t) ==> Mirrored(t'))
            && (IdleTracksActivity(t) ==> IdleTracksActivity(t'))
  {
    hide Step;
    if polls != [] {
      RunKeeps(t, polls[..|polls| - 1]);
    }
  }

  /** The poll hands the loop, before its deadline, a frame that replies to request `id` without an error. */
  ghost predicate Replies(t: Turn, p: Poll, id: nat) {
    t.exit.None? && p.now < NextDeadline(t) && p.reader.Some? && p.reader.value.Frame? &&
    IsReply(p.reader.value.msg, id) && p.reader.value.msg.error.None?
  }

  /** The poll delivers the pending steer: an error-free reply with its id and a recognised outcome. */
  ghost predicate Delivers(t: Turn, p: Poll) {
    t.pending.Some? && Replies(t, p, t.pending.value.id) &&
    (t.pending.value.transport.Goose? || !p.reader.value.msg.outcome.Unrecognised?)
  }

  /** The delivery landed in the turn the loop is waiting for. */
  ghost predicate Renews(t: Turn, p: Poll) {
    Delivers(t, p) &&
    (t.pending.value.transport.Goose? || p.reader.value.msg.outcome.Injected?)
  }

  /** A step acknowledges success exactly when it is a delivery, and then to the steer that was in flight. */
  lemma SuccessIsDelivery(t: Turn, p: Poll)
    requires t.exit.None? && IdsOrdered(t)
    ensures var t' := Step(t, p);
            && (Delivers(t, p) <==> |t'.acks| > |t.acks| && t'.acks[|t.acks|].1 == Success)
            && (Delivers(t, p) ==> t'.acks[|t.acks|].0 == t.pending.value.ticket && t'.exit.None?)
  {
    hide Dispatch, OnSteer, OnSteerReply, Leave, LedgerMoves, SameTerms, Accounted, Quiet;
  }

  /** A step returns a prompt result exactly on an error-free reply to the prompt. */
  lemma ResultIsPromptReply(t: Turn, p: Poll, v: Reply)
    requires t.exit.None? && IdsOrdered(t)
    ensures Step(t, p).exit == Some(Returned(Ok(v))) <==>
            Replies(t, p, t.expectedId) && v == p.reader.value.msg.result
  {
  }

  /** Poll `k` of the run delivers the steer with this ticket. */
  ghost predicate DeliveredAt(t: Turn, polls: seq<Poll>, k: nat, ticket: nat) {
    k < |polls| && Delivers(Run(t, polls[..k]), polls[k]) && Run(t, polls[..k]).pending.value.ticket == ticket
  }

  lemma DeliveredLater(t: Turn, polls: seq<Poll>, n: nat, k: nat, ticket: nat)
    requires n <= |polls| && DeliveredAt(t, polls[..n], k, ticket)
    ensures DeliveredAt(t, polls, k, ticket)
  {
    assert polls[..n][..k] == polls[..k];
  }

  /** Every success ever acknowledged was a delivery of that very steer. */
  lemma {:induction false} SuccessMeansDelivered(t: Turn, polls: seq<Poll>, i: nat)
    requires Started(t) && IdsOrdered(t)
    requires i < |Run(t, polls).acks| && Run(t, polls).acks[i].1 == Success
    ensures exists k :: DeliveredAt(t, polls, k, Run(t, polls).acks[i].0)
  {
    hide Step;
    var n := |polls| - 1;
    var before, after := Run(t, polls[..n]), Run(t, polls);
    RunKeeps(t, polls[..n]);
    if i < |before.acks| {
      assert after.acks[..|before.acks|][i] == before.acks[i];
      SuccessMeansDelivered(t, polls[..n], i);
      var k :| DeliveredAt(t, polls[..n], k, before.acks[i].0);
      DeliveredLater(t, polls, n, k, before.acks[i].0);
    } else {
      SuccessIsDelivery(before, polls[n]);
      assert DeliveredAt(t, polls, n, after.acks[i].0);
    }
  }

  /** Poll `k` of the run brings the prompt's own reply, with result `v`. */
  ghost predicate RepliedAt(t: Turn, polls: seq<Poll>, k: nat, v: Reply) {
    k < |polls| && Replies(Run(t, polls[..k]), polls[k], t.expectedId) && polls[k].reader.value.msg.result == v
  }

  /** A result the loop returns is that of a reply to the prompt, never of one to a steer. */
  lemma {:induction false} ReturnedIsReply(t: Turn, polls: seq<Poll>, v: Reply)
    requires Started(t) && IdsOrdered(t) && Run(t, polls).exit == Some(Returned(Ok(v)))
    ensures exists k: nat :: RepliedAt(t, polls, k, v)
  {
    hide Step, Replies, Keeps, Quiet;
    var n := |polls| - 1;
    var before := Run(t, polls[..n]);
    RunKeeps(t, polls[..n]);
    if before.exit.Some? {
      ReturnedIsReply(t, polls[..n], v);
      var k: nat :| RepliedAt(t, polls[..n], k, v);
      assert polls[..n][..k] == polls[..k];
      assert RepliedAt(t, polls, k, v);
    } else {
      ResultIsPromptReply(before, polls[n], v);
      assert RepliedAt(t, polls, n, v);
    }
  }

  /** At every point of a prompt turn, whatever the client did before. */
  lemma PromptTurnKeeps(c: Client, now: Instant, idle: nat, max: nat, start: Instant, polls: seq<Poll>)
    ensures var t := PromptTurn(c, now, idle, max, start, polls);
            && Tickets(t.acks) + PendingTicket(t) == t.taken
            && c.nextId < t.client.nextId && (t.pending.Some? ==> c.nextId < t.pending.value.id < t.client.nextId)
            && t.client.hardDeadline == Some(t.hardDeadline) && now + max <= t.hardDeadline
            && t.idleDeadline == t.lastActivity + idle && t.maxDuration == max && t.expectedId == c.nextId
  {
    hide Step;
    var t := Begin(PromptSent(c, now, max), c.nextId, idle, now + max, max, start);
    SteersAcknowledged(t, polls);
    RunKeeps(t, polls);
  }

  // ---- Deadlines ----

  lemma DeadlinesStep(t: Turn, p: Poll)
    ensures var t' := Step(t, p);
            t'.hardDeadline == if Renews(t, p) then Max(t.hardDeadline, p.later + t.maxDuration) else t.hardDeadline
  {
  }

  /** Poll `k` of the run renews the hard deadline. */
  ghost predicate RenewedAt(t: Turn, polls: seq<Poll>, k: nat) {
    k < |polls| && Renews(Run(t, polls[..k]), polls[k])
  }

  /** The hard deadline never moves back, and where it differs from an earlier one a steer has renewed it since. */
  lemma {:induction false} HardDeadlineMoves(t: Turn, polls: seq<Poll>, k: nat)
    requires k <= |polls|
    ensures Run(t, polls[..k]).hardDeadline <= Run(t, polls).hardDeadline
    ensures Run(t, polls[..k]).hardDeadline < Run(t, polls).hardDeadline ==>
              exists j: nat :: k <= j && RenewedAt(t, polls, j)
  {
    hide Step, Renews, Keeps, Quiet;
    if k == |polls| {
      assert polls[..k] == polls;
    } else {
      var n := |polls| - 1;
      var front := polls[..n];
      HardDeadlineMoves(t, front, k);
      DeadlinesStep(Run(t, front), polls[n]);
      assert front[..k] == polls[..k];
      if Run(t, polls[..k]).hardDeadline < Run(t, front).hardDeadline {
        var j: nat :| k <= j && RenewedAt(t, front, j);
        assert front[..j] == polls[..j];
        assert RenewedAt(t, polls, j);
      } else if Run(t, front).hardDeadline < Run(t, polls).hardDeadline {
        assert RenewedAt(t, polls, n);
      }
    }
  }

  /** Poll `k` renews the hard deadline to a moment past the one the loop was started with. */
  ghost predicate ExtendedAt(t: Turn, polls: seq<Poll>, k: nat) {
    RenewedAt(t, polls, k) && polls[k].later + t.maxDuration > t.hardDeadline
  }

  ghost predicate SomeExtends(t: Turn, polls: seq<Poll>) { exists k: nat :: ExtendedAt(t, polls, k) }

  /** The hard deadline ends up past the one the loop was started with exactly if some poll renewed it beyond that. */
  lemma {:induction false} HardDeadlineMovesIff(t: Turn, polls: seq<Poll>)
    ensures t.hardDeadline < Run(t, polls).hardDeadline <==> SomeExtends(t, polls)
    ensures Run(t, polls).hardDeadline == t.hardDeadline <==> !SomeExtends(t, polls)
  {
    hide Step, Renews, Keeps, Quiet;
    RunKeeps(t, polls);
    if polls != [] {
      var n := |polls| - 1;
      var front := polls[..n];
      HardDeadlineMovesIff(t, front);
      RunKeeps(t, front);
      DeadlinesStep(Run(t, front), polls[n]);
      forall k: nat | k < n ensures ExtendedAt(t, polls, k) <==> ExtendedAt(t, front, k) {
        assert front[..k] == polls[..k];
      }
      assert RenewedAt(t, polls, n) <==> Renews(Run(t, front), polls[n]);
      if SomeExtends(t, front) {
        var k: nat :| ExtendedAt(t, front, k);
        assert ExtendedAt(t, polls, k);
      }
      if t.hardDeadline < Run(t, polls).hardDeadline && !SomeExtends(t, front) {
        assert ExtendedAt(t, polls, n);
      }
    }
  }

  /** Poll `k` gets past the deadline check, so that its select outcome is handled. */
  ghost predicate Handled(t: Turn, polls: seq<Poll>, k: nat)
    requires k < |polls|
  {
    Run(t, polls[..k]).exit.None? && polls[k].now < NextDeadline(Run(t, polls[..k]))
  }

  /** A poll that ends at or past the deadline in force, and does not renew it, is the last one handled. */
  lemma InForce(t: Turn, polls: seq<Poll>, j: nat, k: nat)
    requires Clocked(polls) && j < k < |polls| && Handled(t, polls, k) && !RenewedAt(t, polls, j)
    ensures polls[j].later < Run(t, polls[..j]).hardDeadline
  {
    hide Renews, Keeps, Quiet;
    var next := Run(t, polls[..j + 1]);
    RunPrefix(t, polls, j);
    DeadlinesStep(Run(t, polls[..j]), polls[j]);
    assert polls[j].later <= polls[j + 1].now;
    if polls[j].later >= next.hardDeadline && j + 1 < k {
      RunPrefix(t, polls, j + 1);
      assert Run(t, polls[..j + 2]).exit.Some? by {
        hide Run;
      }
      var front := polls[..k];
      assert front[..j + 2] == polls[..j + 2];
      hide Step;
      ExitIsFinal(t, front, j + 2);
    }
  }

  /**
   * However frames arrive, when poll `k` is handled every earlier poll had ended before the hard deadline in
   * force now, and before the one in force then unless it renewed it.  So at most one outcome is handled past a
   * deadline that is not renewed.
   */
  lemma HardDeadlineBounds(t: Turn, polls: seq<Poll>, j: nat, k: nat)
    requires Clocked(polls) && j < k < |polls| && Handled(t, polls, k)
    ensures polls[j].later < Run(t, polls[..k]).hardDeadline
    ensures (forall i: nat | i < k :: !RenewedAt(t, polls, i)) ==> polls[j].later < t.hardDeadline
    ensures polls[j].later < Run(t, polls[..j]).hardDeadline || RenewedAt(t, polls, j)
  {
    hide Step, Renews, Keeps, Quiet;
    if !RenewedAt(t, polls, j) {
      InForce(t, polls, j, k);
    }
    assert polls[j].later <= polls[k].now;
    var front := polls[..k];
    HardDeadlineMoves(t, front, 0);
    if t.hardDeadline < Run(t, front).hardDeadline {
      var i: nat :| RenewedAt(t, front, i);
      assert front[..i] == polls[..i];
      assert RenewedAt(t, polls, i);
    }
  }

  /** A timeout is never early: the idle one needs that much silence, the hard one the hard deadline. */
  lemma TimeoutsAreDue(t: Turn, p: Poll)
    requires t.exit.None? && IdleTracksActivity(t) && p.now <= p.at
    ensures var t' := Step(t, p); var over := Max(p.at, NextDeadline(t));
            && (t'.exit == Some(Returned(Err(IdleTimeout))) ==> t.lastActivity + t.idleTimeout <= over && t.idleDeadline < t.hardDeadline)
            && (t'.exit.Some? && t'.exit.value.Returned? && t'.exit.value.result.Err? && t'.exit.value.result.error.HardTimeout?
                ==> t.hardDeadline <= over && t.hardDeadline <= t.idleDeadline
                    && t'.exit.value.result.error.silence == Max(0, over - t.lastActivity))
            && (p.now >= NextDeadline(t) ==> t'.exit.Some? && IsTimeout(ExitResult(t'.exit.value)))
  {
    hide Dispatch, OnSteer, OnSteerReply, Keeps, Quiet;
  }
}
