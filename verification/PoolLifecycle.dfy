/** The lazy agent pool: attempt tokens, saturating back-off and the hand-over of a ready pool. */
module PoolLifecycles {
  import opened Wrappers
  import opened Text

  type u32 = n: nat | n <= U32_MAX

  /** Instants and durations, in seconds. */
  type Instant = real

  datatype State<P> =
    | Listening
    | Waking(attempt: u32)
    | Ready(pool: P)
    | Failed(attempt: u32, retryAt: Instant, error: string)

  datatype WakeError = AttemptMismatch | NotWaking

  // ---- Back-off ----

  const INITIAL_RETRY_DELAY: nat := 5
  const MAX_RETRY_DELAY: nat := 300

  function Pow2(n: nat): (r: nat)
    ensures r >= 1
  {
    if n == 0 then 1 else 2 * Pow2(n - 1)
  }

  /** Shifting a 64-bit one, which fails from 64 places on and otherwise keeps the low 64 bits. */
  function CheckedShl(places: nat): Option<nat> {
    if places < 64 then Some(Pow2(places) % (U64_MAX + 1)) else None
  }

  function RetryDelay(attempt: u32): nat {
    var exponent := Min(if attempt == 0 then 0 else attempt - 1, 63);
    var shifted := CheckedShl(exponent);
    var multiplier := if shifted.Some? then shifted.value else U64_MAX;
    Min(Min(INITIAL_RETRY_DELAY * multiplier, U64_MAX), MAX_RETRY_DELAY)
  }

  lemma {:induction false} Pow2Grows(m: nat, n: nat)
    requires m <= n
    ensures Pow2(m) <= Pow2(n)
  {
    if m < n {
      Pow2Grows(m, n - 1);
    }
  }

  lemma {:induction false} Pow2Adds(m: nat, n: nat)
    ensures Pow2(m + n) == Pow2(m) * Pow2(n)
  {
    if n > 0 {
      Pow2Adds(m, n - 1);
    }
  }

  lemma SmallShift()
    ensures Pow2(7) == 128
  {
  }

  lemma LargestShift()
    ensures Pow2(63) == 0x8000_0000_0000_0000
  {
    hide Pow2;
    SmallShift();
    Pow2Adds(7, 7);
    Pow2Adds(14, 7);
    Pow2Adds(21, 21);
    Pow2Adds(42, 21);
  }

  /** The delay doubles from five seconds up to five minutes, over every 32-bit attempt, whatever the shift and product do. */
  lemma RetryDelayMeans(n: u32)
    requires n >= 1
    ensures RetryDelay(n) == Min(5 * Pow2(n - 1), 300)
    ensures n < U32_MAX ==> RetryDelay(n + 1) == Min(2 * RetryDelay(n), 300)
  {
    Shifted(n);
    if n < U32_MAX {
      Shifted(n + 1);
    }
  }

  lemma Shifted(n: u32)
    requires n >= 1
    ensures RetryDelay(n) == Min(5 * Pow2(n - 1), 300)
  {
    LargestShift();
    hide Pow2;
    if n - 1 <= 63 {
      Pow2Grows(n - 1, 63);
    } else {
      Pow2Grows(63, n - 1);
    }
  }

  // ---- The transitions ----

  function StartWake<P>(s: State<P>, pending: bool, now: Instant): (State<P>, Option<u32>) {
    if !pending then (s, None)
    else match s
      case Listening => (Waking(1), Some(1))
      case Failed(attempt, retryAt, _) =>
        if now < retryAt then (s, None)
        else
          var next: u32 := Min(attempt + 1, U32_MAX);
          (Waking(next), Some(next))
      case _ => (s, None)
  }

  function CompleteWake<P>(s: State<P>, token: u32, result: Result<P, string>, now: Instant): (State<P>, Result<(), WakeError>) {
    match s
    case Waking(attempt) =>
      if attempt != token then (s, Err(AttemptMismatch))
      else if result.Ok? then (Ready(result.value), Ok(()))
      else (Failed(attempt, now + RetryDelay(attempt) as real, result.error), Ok(()))
    case _ => (s, Err(NotWaking))
  }

  function TakeReady<P>(s: State<P>): (State<P>, Option<P>) {
    if s.Ready? then (Listening, Some(s.pool)) else (s, None)
  }

  /** A wake starts exactly if work is pending and either none has failed yet or the retry is due; its token counts on. */
  lemma StartsIff<P>(s: State<P>, pending: bool, now: Instant, n: u32)
    ensures var (s', token) := StartWake(s, pending, now);
            && (token == Some(n) <==>
                  pending && ((s.Listening? && n == 1)
                              || (s.Failed? && s.retryAt <= now && n == if s.attempt == 4_294_967_295 then s.attempt else s.attempt + 1)))
            && s' == if token.Some? then Waking(token.value) else s
  {
  }

  /** A result for the outstanding wake hands in its pool, or sets the time of the retry; any other is refused. */
  lemma CompletesIff<P>(s: State<P>, token: u32, result: Result<P, string>, now: Instant)
    requires token >= 1
    ensures var (s', r) := CompleteWake(s, token, result, now);
            && (r.Ok? <==> s == Waking(token)) && (r.Err? ==> s' == s)
            && (r == Err(AttemptMismatch) <==> s.Waking? && s.attempt != token)
            && (r.Ok? ==> s' == match result
                                case Ok(pool) => Ready(pool)
                                case Err(error) => Failed(token, now + Min(5 * Pow2(token - 1), 300) as real, error))
  {
    RetryDelayMeans(token);
    hide RetryDelay, Pow2;
  }

  class PoolLifecycle<P(0)> {
    var state: State<P>

    constructor ()
      ensures state == Listening
    {
      state := Listening;
    }

    method StartWakeIfDue(hasPendingWork: bool, now: Instant) returns (token: Option<u32>)
      modifies this
      ensures (state, token) == StartWake(old(state), hasPendingWork, now)
      ensures token.Some? <==> state != old(state)
      ensures token.Some? ==> state == Waking(token.value)
    {
      if !hasPendingWork {
        return None;
      }
      match state {
        case Listening => token := Some(1);
        case Failed(attempt, retryAt, _) =>
          token := if now >= retryAt then Some(Min(attempt + 1, U32_MAX)) else None;
        case _ => token := None;
      }
      if token.Some? {
        state := Waking(token.value);
      }
    }

    method Take() returns (pool: Option<P>)
      modifies this
      ensures (state, pool) == TakeReady(old(state))
      ensures pool.None? <==> state == old(state)
    {
      var other := state;
      state := Listening;
      match other {
        case Ready(p) => pool := Some(p);
        case _ =>
          state := other;
          pool := None;
      }
    }

    method Complete(token: u32, result: Result<P, string>, now: Instant) returns (r: Result<(), WakeError>)
      modifies this
      ensures (state, r) == CompleteWake(old(state), token, result, now)
      ensures r.Ok? <==> old(state) == Waking(token)
      ensures r.Err? ==> state == old(state)
    {
      match state {
        case Waking(attempt) =>
          if attempt != token {
            return Err(AttemptMismatch);
          }
          state := match result
            case Ok(pool) => Ready(pool)
            case Err(error) => Failed(attempt, now + RetryDelay(attempt) as real, error);
          r := Ok(());
        case _ => r := Err(NotWaking);
      }
    }

    method CancelWake(token: u32, error: string, now: Instant) returns (cancelled: bool)
      modifies this
      ensures state == CompleteWake(old(state), token, Err(error), now).0
      ensures cancelled <==> old(state) == Waking(token)
    {
      var r := Complete(token, Err(error), now);
      cancelled := r.Ok?;
    }
  }

  // ---- Runs ----

  datatype Op<P> = Start(pending: bool) | Complete(token: u32, result: Result<P, string>) | Take

  datatype Call<P> = Call(now: Instant, op: Op<P>)

  datatype Wake = Wake(token: u32, at: Instant)

  /** The state with logs: wakes started and results accepted since the last hand-over, and all pools received and handed over. */
  datatype Trace<P> = Trace(
    now: Instant, state: State<P>, wakes: seq<Wake>, results: seq<(u32, Result<P, string>)>, received: seq<P>, taken: seq<P>)

  function Apply<P>(t: Trace<P>, c: Call<P>): Trace<P> {
    match c.op
    case Start(pending) =>
      var (state, token) := StartWake(t.state, pending, c.now);
      t.(now := c.now, state := state, wakes := t.wakes + if token.Some? then [Wake(token.value, c.now)] else [])
    case Complete(token, result) =>
      var (state, r) := CompleteWake(t.state, token, result, c.now);
      t.(now := c.now, state := state,
         results := t.results + if r.Ok? then [(token, result)] else [],
         received := t.received + if r.Ok? && result.Ok? then [result.value] else [])
    case Take =>
      var (state, pool) := TakeReady(t.state);
      if pool.None? then t.(now := c.now, state := state)
      else t.(now := c.now, state := state, wakes := [], results := [], taken := t.taken + [pool.value])
  }

  function Run<P>(start: Instant, calls: seq<Call<P>>): Trace<P> {
    if calls == [] then Trace(start, Listening, [], [], [], [])
    else Apply(Run(start, calls[..|calls| - 1]), calls[|calls| - 1])
  }

  function Latest<P>(start: Instant, calls: seq<Call<P>>): Instant {
    if calls == [] then start else calls[|calls| - 1].now
  }

  /** The clock never goes back. */
  predicate InOrder<P>(start: Instant, calls: seq<Call<P>>) {
    calls != [] ==>
      var n := |calls| - 1;
      InOrder(start, calls[..n]) && Latest(start, calls[..n]) <= calls[n].now
  }

  ghost predicate TokensCount(wakes: seq<Wake>) {
    forall k | 0 <= k < |wakes| :: wakes[k].token == Min(k + 1, U32_MAX)
  }

  ghost predicate Spaced(wakes: seq<Wake>) {
    forall k | 0 < k < |wakes| :: wakes[k - 1].at + RetryDelay(wakes[k - 1].token) as real <= wakes[k].at
  }

  /** Each accepted result settles the wake of its position; only the last can be a success, and then the pool is held. */
  ghost predicate Settled<P>(t: Trace<P>) {
    && |t.results| == |t.wakes| - (if t.state.Waking? then 1 else 0)
    && (forall k | 0 <= k < |t.results| :: t.results[k].0 == t.wakes[k].token)
    && (forall k | 0 <= k < |t.results| :: t.results[k].1.Ok? ==> k == |t.results| - 1 && t.state == Ready(t.results[k].1.value))
    && (t.state.Ready? ==> t.results != [] && t.results[|t.results| - 1].1 == Ok(t.state.pool))
  }

  ghost predicate LastWake<P>(t: Trace<P>) {
    match t.state
    case Listening => t.wakes == []
    case Waking(attempt) => t.wakes != [] && t.wakes[|t.wakes| - 1].token == attempt && t.wakes[|t.wakes| - 1].at <= t.now
    case Ready(_) => t.wakes != []
    case Failed(attempt, retryAt, _) =>
      t.wakes != [] && var last := t.wakes[|t.wakes| - 1];
      last.token == attempt && last.at + RetryDelay(attempt) as real <= retryAt
  }

  /** Pools received are those handed over, then the one held. */
  ghost predicate Conserved<P>(t: Trace<P>) {
    t.received == t.taken + if t.state.Ready? then [t.state.pool] else []
  }

  ghost predicate Sound<P>(t: Trace<P>) {
    TokensCount(t.wakes) && Spaced(t.wakes) && Settled(t) && LastWake(t) && Conserved(t)
  }

  lemma StartSound<P>(t: Trace<P>, c: Call<P>)
    requires Sound(t) && t.now <= c.now && c.op.Start?
    ensures Sound(Apply(t, c))
  {
    hide RetryDelay, CompleteWake, TakeReady;
  }

  lemma CompleteSound<P>(t: Trace<P>, c: Call<P>)
    requires Sound(t) && t.now <= c.now && c.op.Complete?
    ensures Sound(Apply(t, c))
  {
    hide RetryDelay, StartWake, TakeReady, Spaced, TokensCount;
  }

  lemma TakeSound<P>(t: Trace<P>, c: Call<P>)
    requires Sound(t) && t.now <= c.now && c.op.Take?
    ensures Sound(Apply(t, c))
  {
    hide RetryDelay, StartWake, CompleteWake;
  }

  /** In every run on a clock that never goes back. */
  lemma {:induction false} RunSound<P>(start: Instant, calls: seq<Call<P>>)
    requires InOrder(start, calls)
    ensures Sound(Run(start, calls))
    ensures Run(start, calls).now == Latest(start, calls)
  {
    if calls != [] {
      var n := |calls| - 1;
      RunSound(start, calls[..n]);
      hide Sound;
      match calls[n].op {
        case Start(_) => StartSound(Run(start, calls[..n]), calls[n]);
        case Complete(_, _) => CompleteSound(Run(start, calls[..n]), calls[n]);
        case Take => TakeSound(Run(start, calls[..n]), calls[n]);
      }
    }
  }

  /** Of two wakes before a hand-over, the later has the larger token exactly if the earlier is below the saturation point. */
  lemma TokensIncreaseIff<P>(start: Instant, calls: seq<Call<P>>, i: nat, j: nat)
    requires InOrder(start, calls) && i < j < |Run(start, calls).wakes|
    ensures var wakes := Run(start, calls).wakes; wakes[i].token < wakes[j].token <==> i + 1 < U32_MAX
  {
    RunSound(start, calls);
    hide Spaced, Settled, LastWake, Conserved, Run;
  }

  function Delays(wakes: seq<Wake>): real {
    if wakes == [] then 0.0 else Delays(wakes[..|wakes| - 1]) + RetryDelay(wakes[|wakes| - 1].token) as real
  }

  lemma {:induction false} DelaysAddUp(wakes: seq<Wake>, n: nat)
    requires Spaced(wakes) && n < |wakes|
    ensures wakes[0].at + Delays(wakes[..n]) <= wakes[n].at
  {
    if n > 0 {
      DelaysAddUp(wakes, n - 1);
      assert wakes[..n][..n - 1] == wakes[..n - 1];
    }
  }

  /** No wake starts before the first one's time and all the delays since. */
  lemma WakesBackOff<P>(start: Instant, calls: seq<Call<P>>, n: nat)
    requires InOrder(start, calls) && n < |Run(start, calls).wakes|
    ensures var wakes := Run(start, calls).wakes; wakes[0].at + Delays(wakes[..n]) <= wakes[n].at
  {
    RunSound(start, calls);
    DelaysAddUp(Run(start, calls).wakes, n);
  }

  /** A result is accepted exactly if a wake is outstanding and the result carries its token, the number of wakes since the last hand-over. */
  lemma TokenAcceptedIff<P>(start: Instant, calls: seq<Call<P>>, token: u32, result: Result<P, string>, now: Instant)
    requires InOrder(start, calls)
    ensures var t := Run(start, calls);
            var (state, r) := CompleteWake(t.state, token, result, now);
            && (r.Ok? <==> t.state.Waking? && token == Min(|t.wakes|, U32_MAX))
            && (r.Err? ==> state == t.state)
  {
    RunSound(start, calls);
    hide Spaced, Settled, Conserved, Run;
  }

  lemma {:induction false} EarlierInOrder<P>(start: Instant, before: seq<Call<P>>, after: seq<Call<P>>)
    requires InOrder(start, before + after)
    ensures InOrder(start, before)
    decreases |after|
  {
    if after == [] {
      assert before + after == before;
    } else {
      var n := |after| - 1;
      assert (before + after)[..|before| + n] == before + after[..n];
      EarlierInOrder(start, before, after[..n]);
    }
  }

  /**
   * The result of any earlier wake, whatever has happened since: that of the k-th wake of its own hand-over is accepted
   * exactly if a wake is outstanding which is the k-th of the current one, or both tokens are saturated.  Within one
   * hand-over that is the wake itself, below saturation; across hand-overs it can be another one.
   */
  lemma AcceptedIff<P>(
    start: Instant, before: seq<Call<P>>, after: seq<Call<P>>, k: nat, result: Result<P, string>, now: Instant)
    requires InOrder(start, before + after) && k < |Run(start, before).wakes|
    ensures var t := Run(start, before + after);
            var (state, r) := CompleteWake(t.state, Run(start, before).wakes[k].token, result, now);
            && (r.Ok? <==> t.state.Waking? && Min(k + 1, U32_MAX) == Min(|t.wakes|, U32_MAX))
            && (k < |t.wakes| ==> (r.Ok? <==> t.state.Waking? && (k == |t.wakes| - 1 || k + 1 >= U32_MAX)))
            && (r.Err? ==> state == t.state)
  {
    EarlierInOrder(start, before, after);
    RunSound(start, before);
    var token := Run(start, before).wakes[k].token;
    assert token == Min(k + 1, U32_MAX);
    hide Sound, Run;
    TokenAcceptedIff(start, before + after, token, result, now);
  }

  lemma OneCallMore<P>(start: Instant, calls: seq<Call<P>>, c: Call<P>)
    ensures Run(start, calls + [c]) == Apply(Run(start, calls), c)
    ensures InOrder(start, calls + [c]) <==> InOrder(start, calls) && Latest(start, calls) <= c.now
  {
    assert (calls + [c])[..|calls|] == calls;
  }

  /** Start, cancel, retry, succeed, hand over, start again. */
  function Restarted<P>(pool: P): seq<Call<P>> {
    [Call(0.0, Start(true))] + [Call(1.0, Complete(1, Err("")))] + [Call(6.0, Start(true))]
    + [Call(7.0, Complete(2, Ok(pool)))] + [Call(7.0, Take)] + [Call(8.0, Start(true))]
  }

  /** A wake cancelled before a hand-over shares its token with one after it: its late result is then taken for the new one. */
  lemma TokensRestart<P>(pool: P, late: P)
    ensures var calls := Restarted(pool) + [Call(9.0, Complete(1, Ok(late)))];
            InOrder(0.0, calls) && Run(0.0, calls).state == Ready(late) && Run(0.0, calls).taken == [pool]
  {
    var a: seq<Call<P>> := [Call(0.0, Start(true))];
    var b := a + [Call(1.0, Complete(1, Err("")))];
    var c := b + [Call(6.0, Start(true))];
    var d := c + [Call(7.0, Complete(2, Ok(pool)))];
    var e := d + [Call(7.0, Take)];
    OneCallMore<P>(0.0, [], Call(0.0, Start(true)));
    assert [] + a == a;
    OneCallMore(0.0, a, Call(1.0, Complete(1, Err(""))));
    OneCallMore(0.0, b, Call(6.0, Start(true)));
    OneCallMore(0.0, c, Call(7.0, Complete(2, Ok(pool))));
    OneCallMore(0.0, d, Call(7.0, Take));
    OneCallMore(0.0, e, Call(8.0, Start(true)));
    OneCallMore(0.0, Restarted(pool), Call(9.0, Complete(1, Ok(late))));
    assert RetryDelay(1) == 5 && Run<P>(0.0, []).state == Listening && Run<P>(0.0, []).taken == [] && InOrder<P>(0.0, []);
    hide Run, InOrder, RetryDelay;
    assert Run(0.0, b).state == Failed(1, 6.0, "");
    assert Run(0.0, d).state == Ready(pool);
  }
}
