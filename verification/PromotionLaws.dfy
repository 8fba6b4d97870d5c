/** What every run of a promotion authority keeps, which faults can still be recovered, and what a restore comes to. */
module PromotionLaws {
  import opened Wrappers
  import opened Text
  import opened PromotionFault

  // ---- Soundness ----

  /** The fingerprint recorded by the `i`-th state; 0 is the injection. */
  function FingerprintAt(s: Stored, origin: string, i: nat): string
    requires i <= |s.recoveries|
  {
    if i == 0 then origin else s.recoveries[i - 1].fingerprint
  }

  /** The recoveries are the proofs in their fixed order, and the fingerprint changes at most at a session revocation. */
  ghost predicate Chained(s: Stored, origin: string) {
    |s.recoveries| <= |PROOFS| &&
    (forall i | 0 <= i < |s.recoveries| ::
       s.recoveries[i] == FaultState(s.identity, PhaseAfter(i + 1), Some(PROOFS[i]), i + 2, s.recoveries[i].fingerprint)) &&
    (forall i | 0 <= i < |s.recoveries| ::
       FingerprintAt(s, origin, i) != FingerprintAt(s, origin, i + 1) ==> i == 2 && SessionLoss(s.identity)) &&
    s.current == if s.recoveries == [] then FaultState(s.identity, Injected, None, 1, origin)
                 else s.recoveries[|s.recoveries| - 1]
  }

  /** What holds of storage, given the snapshots taken before it. */
  ghost predicate Sound(st: Storage, snapshots: seq<Storage>) {
    st.record.Some? ==>
      var s := st.record.value;
      && s.bookmark < |snapshots| && snapshots[s.bookmark].business.Some?
      && Hex(snapshots[s.bookmark].business.value, 64)
      && Chained(s, snapshots[s.bookmark].business.value)
      && !Active(snapshots[s.bookmark].record)
      && (snapshots[s.bookmark].record.Some? ==> snapshots[s.bookmark].record.value.identity != s.identity)
  }

  ghost predicate SoundWorld(w: World) {
    Sound(w.live, w.snapshots) &&
    forall i | 0 <= i < |w.snapshots| :: Sound(w.snapshots[i], w.snapshots[..i])
  }

  lemma Snapshot(w: World, live: Storage)
    requires SoundWorld(w) && Sound(live, w.snapshots + [w.live])
    ensures SoundWorld(World(live, w.snapshots + [w.live]))
  {
    var snapshots := w.snapshots + [w.live];
    forall i | 0 <= i < |snapshots| ensures Sound(snapshots[i], snapshots[..i]) {
      assert i < |w.snapshots| ==> snapshots[..i] == w.snapshots[..i];
      assert i == |w.snapshots| ==> snapshots[..i] == w.snapshots;
    }
  }

  lemma RestoreSound(w: World, bookmark: nat)
    requires SoundWorld(w)
    ensures SoundWorld(Restored(w, bookmark))
  {
    if bookmark < |w.snapshots| {
      var st := w.snapshots[bookmark];
      assert Sound(st, w.snapshots[..bookmark]);
      if st.record.Some? {
        assert w.snapshots[..bookmark][st.record.value.bookmark] == w.snapshots[st.record.value.bookmark];
      }
    }
  }

  lemma AdvanceSound(env: Env, w: World, s: Stored, proof: Proof, fingerprint: string)
    requires SoundWorld(w) && w.live.record == Some(s)
    requires |s.recoveries| < |PROOFS| && PROOFS[|s.recoveries|] == proof
    requires fingerprint != s.current.fingerprint ==> proof == SessionNonRestauree && SessionLoss(s.identity)
    ensures SoundWorld(Advance(env, w, s, proof, fingerprint).0)
  {
    var n, origin := |s.recoveries|, w.snapshots[s.bookmark].business.value;
    var current := FaultState(s.identity, PhaseAfter(n + 1), Some(proof), n + 2, fingerprint);
    var s' := s.(current := current, recoveries := s.recoveries + [current]);
    assert s.current.fingerprint == FingerprintAt(s, origin, n);
    forall i | 0 <= i < |s'.recoveries|
      ensures FingerprintAt(s', origin, i) != FingerprintAt(s', origin, i + 1) ==> i == 2 && SessionLoss(s.identity)
    {
      assert FingerprintAt(s', origin, i) == FingerprintAt(s, origin, i);
      assert i < n ==> FingerprintAt(s', origin, i + 1) == FingerprintAt(s, origin, i + 1);
    }
    assert Chained(s', origin);
    RestoreSound(w.(live := w.live.(record := Some(s'))), s.bookmark);
  }

  lemma FinalChained(id: Identity, fingerprint: string, bookmark: nat)
    ensures Chained(FinalRecord(id, fingerprint, bookmark), fingerprint)
  {
  }

  lemma RecoverSound(env: Env, w: World, input: Identity, proof: Proof, h: Hooks)
    requires SoundWorld(w)
    ensures SoundWorld(Recover(env, w, input, proof, h).0)
  {
    var w' := Recover(env, w, input, proof, h).0;
    if w' != w {
      var s := w.live.record.value;
      var w1 := Changed(w, HookOf(input, proof, h).effect);
      var w2 := Changed(w1, h.drift);
      hide Advance, Chained, Hex;
      if w' != w1 && w' != w2 {
        AdvanceSound(env, w2, s, proof, w2.live.business.value);
      }
    }
  }

  lemma PerformSound(env: Env, w: World, call: Call)
    requires SoundWorld(w)
    ensures SoundWorld(Perform(env, w, call))
  {
    var w' := Perform(env, w, call);
    match call
    case CallInject(input, ok) =>
      if w' != w {
        Snapshot(w, w'.live);
      }
    case CallRecover(input, proof, h) =>
      RecoverSound(env, w, input, proof, h);
    case CutRecover(input, proof, h, stored) =>
      RecoverSound(env.(staging := !stored), w, input, proof, h.(bookmarkOk := stored));
    case CallFinalize(input, proof, expected, ok) =>
      if w' != w {
        FinalChained(input, expected, |w.snapshots|);
        hide Chained, FinalRecord, Hex;
        Snapshot(w, w'.live);
      }
    case Business(_) =>
    case Erase =>
  }

  /** Every run keeps storage sound, snapshots included. */
  lemma {:induction false} RunSound(env: Env, w: World, calls: seq<Call>)
    requires SoundWorld(w)
    ensures SoundWorld(Run(env, w, calls))
  {
    hide Perform, SoundWorld;
    if calls != [] {
      RunSound(env, w, calls[..|calls| - 1]);
      PerformSound(env, Run(env, w, calls[..|calls| - 1]), calls[|calls| - 1]);
    }
  }

  /**
   * After any run that starts without a fault: the proofs recorded are a prefix of the fixed order, the sequence
   * number and the phase follow their count, the fence is open exactly for no fault or all four proofs, and from the
   * business state before the injection on, the fingerprint changes only at the third proof of a session loss.
   */
  lemma StoredFault(env: Env, business: Option<string>, calls: seq<Call>)
    ensures var w := Run(env, World(Storage(None, business), []), calls);
            && (Available(w) <==> w.live.record.None? || |w.live.record.value.recoveries| == 4)
            && (w.live.record.Some? ==>
                  var s := w.live.record.value; var n := |s.recoveries|;
                  && n <= 4 && (forall i | 0 <= i < n ::
                       s.recoveries[i].proof == Some([RollForward, RpoLogiqueNul, SessionNonRestauree, RecuResistantPitr][i]))
                  && s.current.identity == s.identity && s.current.sequence == n + 1
                  && s.current.phase == (if n == 0 then Injected else if n < 4 then Recovering else Recovered)
                  && s.bookmark < |w.snapshots| && w.snapshots[s.bookmark].business.Some?
                  && var origin := w.snapshots[s.bookmark].business.value;
                     && s.current.fingerprint == FingerprintAt(s, origin, n)
                     && (forall i, j | 0 <= i < j <= n && FingerprintAt(s, origin, i) != FingerprintAt(s, origin, j) ::
                           i <= 2 < j && s.identity.authority == "auth-session" && s.identity.kind == PerteAutorite))
  {
    RunSound(env, World(Storage(None, business), []), calls);
    var w := Run(env, World(Storage(None, business), []), calls);
    hide Run;
    if w.live.record.Some? {
      var s, origin := w.live.record.value, w.snapshots[w.live.record.value.bookmark].business.value;
      forall i, j | 0 <= i < j <= |s.recoveries| && FingerprintAt(s, origin, i) != FingerprintAt(s, origin, j)
        ensures i <= 2 < j && SessionLoss(s.identity)
      {
        OneChange(s, origin, i, j);
      }
    }
  }

  lemma {:induction false} OneChange(s: Stored, origin: string, i: nat, j: nat)
    requires Chained(s, origin) && i <= j <= |s.recoveries|
    requires FingerprintAt(s, origin, i) != FingerprintAt(s, origin, j)
    ensures i <= 2 < j && SessionLoss(s.identity)
    decreases j
  {
    if FingerprintAt(s, origin, j - 1) != FingerprintAt(s, origin, i) {
      OneChange(s, origin, i, j - 1);
    }
  }

  /** While a fault is active no call replaces it: its identity stays and its recoveries only grow. */
  lemma ActiveFaultStays(env: Env, w: World, call: Call)
    requires SoundWorld(w) && Active(w.live.record) && Active(Perform(env, w, call).live.record)
    ensures var s, s' := w.live.record.value, Perform(env, w, call).live.record.value;
            s'.identity == s.identity && s'.bookmark == s.bookmark && s.recoveries <= s'.recoveries
  {
    hide Chained, Hex, FindReplay;
  }

  ghost predicate ActiveThroughout(env: Env, w: World, calls: seq<Call>) {
    forall k | 0 <= k <= |calls| :: Active(Run(env, w, calls[..k]).live.record)
  }

  /** However many calls are made while a fault stays active, it is the same fault with the same bookmark and more recoveries. */
  lemma {:induction false} SameFaultWhileActive(env: Env, w: World, calls: seq<Call>)
    requires SoundWorld(w) && ActiveThroughout(env, w, calls)
    ensures w.live.record.Some? && Run(env, w, calls).live.record.Some?
    ensures var s, s' := w.live.record.value, Run(env, w, calls).live.record.value;
            s'.identity == s.identity && s'.bookmark == s.bookmark && s.recoveries <= s'.recoveries
  {
    hide Perform, SoundWorld;
    var n := |calls| - 1;
    assert calls[..0] == [] && calls[..|calls|] == calls;
    assert Active(Run(env, w, calls[..0]).live.record) && Active(Run(env, w, calls[..|calls|]).live.record);
    if calls != [] {
      var front := calls[..n];
      forall k | 0 <= k <= n ensures Active(Run(env, w, front[..k]).live.record) {
        assert front[..k] == calls[..k];
      }
      SameFaultWhileActive(env, w, front);
      RunSound(env, w, front);
      assert front[..n] == front;
      ActiveFaultStays(env, Run(env, w, front), calls[n]);
    }
  }

  lemma {:induction false} ReplayFound(s: Stored, recoveries: seq<FaultState>, from: nat, i: nat)
    requires from <= i < |s.recoveries| <= |PROOFS| && recoveries == s.recoveries[from..]
    requires forall k | 0 <= k < |s.recoveries| :: s.recoveries[k].proof == Some(PROOFS[k])
    ensures FindReplay(recoveries, PROOFS[i]) == Some(s.recoveries[i])
    decreases i - from
  {
    assert recoveries[0] == s.recoveries[from];
    if from < i {
      ReplayFound(s, recoveries[1..], from + 1, i);
    }
  }

  /** Sending a recorded proof again changes nothing, and returns the recorded state exactly if business state is still what was last recorded. */
  lemma ReplayIsIdempotent(env: Env, w: World, i: nat, h: Hooks)
    requires SoundWorld(w) && w.live.record.Some? && i < |w.live.record.value.recoveries|
    ensures var s := w.live.record.value;
            var (w', r) := Recover(env, w, s.identity, PROOFS[i], h);
            && w' == w
            && (r == Ok(s.recoveries[i]) <==> env.valid(s.identity) && w.live.business == Some(s.current.fingerprint))
            && (r.Err? ==> r.error in {InvalidInput, TargetMissing, StateChanged})
  {
    var s := w.live.record.value;
    assert s.recoveries == s.recoveries[0..];
    ReplayFound(s, s.recoveries, 0, i);
    hide FindReplay, Verify;
  }

  // ---- Replies ----

  lemma {:induction false} ReplayIsRecorded(recoveries: seq<FaultState>, proof: Proof)
    requires FindReplay(recoveries, proof).Some?
    ensures var r := FindReplay(recoveries, proof).value; r in recoveries && r.proof == Some(proof)
  {
    if recoveries[0].proof != Some(proof) {
      ReplayIsRecorded(recoveries[1..], proof);
    }
  }

  /** A recovery that replies with a state replies with the recorded one of that proof, which is the current one if it is new. */
  lemma RecoverReplies(env: Env, w: World, input: Identity, proof: Proof, h: Hooks)
    requires SoundWorld(w)
    ensures var (w', r) := Recover(env, w, input, proof, h);
            r.Ok? ==>
              && w'.live.record.Some? && w'.live.record.value.identity == input
              && var s' := w'.live.record.value;
                 && r.value.proof == Some(proof) && r.value.identity == input && r.value in s'.recoveries
                 && (w' != w ==> r.value == s'.current && w'.live.business == Some(r.value.fingerprint)
                                 && |s'.recoveries| == |w.live.record.value.recoveries| + 1 && r.value.sequence == |s'.recoveries| + 1)
  {
    hide FindReplay, Hex, HookOf;
    var s := w.live.record;
    if s.Some? && FindReplay(s.value.recoveries, proof).Some? {
      ReplayIsRecorded(s.value.recoveries, proof);
    }
  }

  /** The last check fails for want of a bookmark in staging, or of the business state to be recorded. */
  lemma VerifyReplies(env: Env, w: World, s: Stored, proof: Proof, fingerprint: string, h: Hooks)
    ensures var r := Verify(env, w, s, proof, fingerprint, h).1; var drifted := After(w.live.business, h.drift);
            && (r == Err(NoBookmark) <==> env.staging && !h.bookmarkOk)
            && (!(env.staging && !h.bookmarkOk) ==>
                  && (r == Err(TargetMissing) <==> drifted.None?)
                  && (r == Err(RpoCheckFailed) <==> drifted.Some? && drifted.value != fingerprint)
                  && (drifted == Some(fingerprint) ==> r.Ok? || r == Err(Aborted)))
            && (r.Err? ==> r.error in {NoBookmark, TargetMissing, RpoCheckFailed, Aborted})
  {
  }

  /** A proof already recorded is replayed; of the others one is due, and the rest are out of order. */
  lemma ReplayedOrDue(w: World, proof: Proof)
    requires SoundWorld(w) && w.live.record.Some?
    ensures var s := w.live.record.value; var done := |s.recoveries|;
            && done <= 4 && (FindReplay(s.recoveries, proof).Some? <==> exists i :: 0 <= i < done && PROOFS[i] == proof)
            && (Due(s, proof) <==> done < 4 && PROOFS[done] == proof)
  {
    var s := w.live.record.value;
    var done := |s.recoveries|;
    ProofPlaces(proof);
    if i :| 0 <= i < done && PROOFS[i] == proof {
      assert s.recoveries == s.recoveries[0..];
      ReplayFound(s, s.recoveries, 0, i);
    } else {
      NoReplay(s.recoveries, proof);
    }
    hide FindReplay, Hex;
  }

  /** What each refusal of a recovery means, in the order the checks are made. */
  lemma RecoverRefusals(env: Env, w: World, input: Identity, proof: Proof, h: Hooks)
    requires SoundWorld(w)
    ensures var r := Recover(env, w, input, proof, h).1;
            var matching := w.live.record.Some? && w.live.record.value.identity == input;
            && (r == Err(InvalidInput) <==> !env.valid(input))
            && (r == Err(NoMatchingFault) <==> env.valid(input) && !matching)
            && (r == Err(StateChanged) <==>
                  env.valid(input) && matching && w.live.business.Some? && w.live.business.value != w.live.record.value.current.fingerprint)
            && (env.valid(input) && matching && w.live.business == Some(w.live.record.value.current.fingerprint) ==>
                  var done := |w.live.record.value.recoveries|;
                  && (r == Err(OutOfOrder) <==> forall i | 0 <= i <= done && i < 4 :: PROOFS[i] != proof)
                  && (r == Err(RepairFailed) <==> done == 0 && proof == RollForward && !h.repair.ok)
                  && (r == Err(RevocationFailed) <==>
                        done == 2 && proof == SessionNonRestauree && SessionLoss(input) && !h.revocation.ok))
  {
    hide SoundWorld, FindReplay, Verify, Due;
    if w.live.record.Some? {
      ReplayedOrDue(w, proof);
      var s := w.live.record.value;
      var w1 := Changed(w, HookOf(input, proof, h).effect);
      VerifyReplies(env, w1, s, proof, s.current.fingerprint, h);
      if w1.live.business.Some? {
        VerifyReplies(env, w1, s, proof, w1.live.business.value, h);
      }
    }
  }

  lemma ProofPlaces(proof: Proof)
    ensures exists i | 0 <= i < |PROOFS| :: PROOFS[i] == proof
    ensures forall i, j | 0 <= i < |PROOFS| && 0 <= j < |PROOFS| && PROOFS[i] == PROOFS[j] :: i == j
  {
    assert PROOFS[0] == RollForward && PROOFS[1] == RpoLogiqueNul && PROOFS[2] == SessionNonRestauree && PROOFS[3] == RecuResistantPitr;
  }

  /** What an injection replies: the state of the fault that is then active under that identity, new or not. */
  lemma InjectReplies(env: Env, w: World, input: Identity, ok: bool)
    ensures var (w', r) := Inject(env, w, input, ok); var s := w.live.record;
            && (r.Ok? ==> Active(w'.live.record) && w'.live.record.value.identity == input && r.value == w'.live.record.value.current)
            && (r.Ok? && w' != w ==>
                  r.value == FaultState(input, Injected, None, 1, w.live.business.value) && w'.live.record.value.recoveries == [])
            && (r.Ok? && w' == w ==> Active(s) && s.value.identity == input)
            && (r == Err(InvalidInput) <==> !env.valid(input))
            && (r == Err(AnotherActiveFault) <==> env.valid(input) && Active(s) && s.value.identity != input)
            && (r == Err(CannotReopen) <==> env.valid(input) && s.Some? && !Active(s) && s.value.identity == input)
            && (env.valid(input) && !Active(s) && (s.Some? ==> s.value.identity != input) ==>
                  && (r == Err(TargetMissing) <==> w.live.business.None?)
                  && (r == Err(InvalidFingerprint) <==> w.live.business.Some? && !Hex(w.live.business.value, 64))
                  && (r.Ok? <==> w.live.business.Some? && Hex(w.live.business.value, 64) && (env.staging ==> ok)))
  {
    hide Hex;
  }

  /** What finalization replies, and what it takes. */
  lemma FinalizeReplies(env: Env, w: World, input: Identity, proof: Proof, expected: string, ok: bool)
    ensures var (w', r) := Finalize(env, w, input, proof, expected, ok); var s := w.live.record;
            var asked := (env.staging || env.localFaults) && env.valid(input) && proof == RecuResistantPitr
                         && input.authority != "auth-session" && Hex(expected, 64);
            && (r == Err(InvalidInput) <==> !asked)
            && (r.Ok? ==> w'.live.record.Some? && w'.live.record.value.identity == input && r.value == w'.live.record.value.current
                          && r.value.phase == Recovered && r.value.fingerprint == expected)
            && (asked && s.Some? ==>
                  (r.Ok? <==> s.value.current.phase == Recovered && s.value.identity == input && s.value.current.fingerprint == expected)
                  && (r.Err? ==> r.error == ResurrectedFence))
            && (asked && s.None? ==>
                  && (r.Ok? <==> w.live.business == Some(expected) && ok)
                  && (r == Err(TargetMissing) <==> w.live.business.None?)
                  && (r == Err(StateChanged) <==> w.live.business.Some? && w.live.business.value != expected)
                  && (r.Ok? ==> r.value == FaultState(input, Recovered, Some(RecuResistantPitr), 5, expected)))
  {
    hide Hex;
  }

  // ---- Which faults can still be recovered ----

  /** Business state has left what the fault recorded, or the fault was stored under an identity that is refused. */
  ghost predicate Frozen(env: Env, w: World) {
    Active(w.live.record) &&
    !(env.valid(w.live.record.value.identity) && w.live.business == Some(w.live.record.value.current.fingerprint))
  }

  /** The calls of the promotion controller. */
  predicate Controller(call: Call) { !call.Business? && !call.Erase? }

  /** What brings a frozen authority back: business state as recorded, or the loss of the record itself. */
  ghost predicate Thaws(env: Env, w: World, call: Call) {
    w.live.record.Some? &&
    (call.Erase? || (env.valid(w.live.record.value.identity) && call == Business(Some(w.live.record.value.current.fingerprint))))
  }

  /** A frozen authority ignores the controller, and stays frozen under any call that does not thaw it. */
  lemma FrozenStep(env: Env, w: World, call: Call)
    requires Frozen(env, w)
    ensures Controller(call) ==> Perform(env, w, call) == w
    ensures Frozen(env, Perform(env, w, call)) <==> !Thaws(env, w, call)
    ensures !call.Erase? ==> Perform(env, w, call).live.record == w.live.record
  {
    hide Verify, FindReplay, Hex;
  }

  ghost predicate ControllerOnly(calls: seq<Call>) { forall i | 0 <= i < |calls| :: Controller(calls[i]) }

  /** The controller can never change a frozen authority again. */
  lemma {:induction false} FrozenForever(env: Env, w: World, calls: seq<Call>)
    requires Frozen(env, w) && ControllerOnly(calls)
    ensures Run(env, w, calls) == w
  {
    hide Perform, Frozen;
    if calls != [] {
      FrozenForever(env, w, calls[..|calls| - 1]);
      FrozenStep(env, w, calls[|calls| - 1]);
    }
  }

  /** Nothing fails; `revoked` is what revoking the session leaves. */
  function Revoking(revoked: string): Hooks { SMOOTH.(revocation := Hook(true, Left(Some(revoked)))) }

  /** The proofs still due, given without a failure. */
  function Remaining(id: Identity, k: nat, revoked: string): (calls: seq<Call>)
    requires k <= |PROOFS|
    ensures ControllerOnly(calls)
  {
    seq(|PROOFS| - k, i requires 0 <= i < |PROOFS| - k => CallRecover(id, PROOFS[k + i], Revoking(revoked)))
  }

  /** What the next proof does to an authority that is not frozen. */
  lemma ProofAdvances(env: Env, w: World, revoked: string)
    requires SoundWorld(w) && Active(w.live.record) && !Frozen(env, w)
    requires |w.live.record.value.recoveries| <= 2 ==> revoked != w.live.record.value.current.fingerprint
    ensures var s := w.live.record.value; var n := |s.recoveries|;
            && n < |PROOFS|
            && var w' := Perform(env, w, CallRecover(s.identity, PROOFS[n], Revoking(revoked)));
               || (n == 3 && Available(w'))
               || (n < 3 && Active(w'.live.record) && !Frozen(env, w') && w'.live.record.value.identity == s.identity
                   && |w'.live.record.value.recoveries| == n + 1
                   && (n < 2 ==> w'.live.record.value.current.fingerprint == s.current.fingerprint))
  {
    var s := w.live.record.value;
    var n := |s.recoveries|;
    NoReplay(s.recoveries, PROOFS[n]);
    hide FindReplay, Hex;
    var w1 := if Revokes(s.identity, PROOFS[n]) then Changed(w, Left(Some(revoked))) else w;
    assert Recover(env, w, s.identity, PROOFS[n], Revoking(revoked)) == Advance(env, w1, s, PROOFS[n], w1.live.business.value);
    hide Recover, Verify;
  }

  lemma {:induction false} FirstCall(env: Env, w: World, call: Call, calls: seq<Call>)
    ensures Run(env, w, [call] + calls) == Run(env, Perform(env, w, call), calls)
    decreases |calls|
  {
    hide Perform;
    var all := [call] + calls;
    if calls == [] {
      assert all[..0] == [];
      assert Run(env, w, all) == Perform(env, Run(env, w, all[..0]), call);
    } else {
      var n := |calls| - 1;
      FirstCall(env, w, call, calls[..n]);
      assert all[..n + 1] == [call] + calls[..n];
    }
  }

  /** The proofs that are left recover any authority that is not frozen. */
  lemma {:induction false} ProofsRecover(env: Env, w: World, revoked: string)
    requires SoundWorld(w) && Active(w.live.record) && !Frozen(env, w)
    requires |w.live.record.value.recoveries| <= 2 ==> revoked != w.live.record.value.current.fingerprint
    ensures var s := w.live.record.value;
            |s.recoveries| < |PROOFS| && Available(Run(env, w, Remaining(s.identity, |s.recoveries|, revoked)))
    decreases if Active(w.live.record) then |PROOFS| - |w.live.record.value.recoveries| else 0
  {
    hide Perform, Frozen, SoundWorld;
    var s := w.live.record.value;
    var n := |s.recoveries|;
    ProofAdvances(env, w, revoked);
    var call := CallRecover(s.identity, PROOFS[n], Revoking(revoked));
    assert Remaining(s.identity, n, revoked) == [call] + Remaining(s.identity, n + 1, revoked);
    FirstCall(env, w, call, Remaining(s.identity, n + 1, revoked));
    if n < 3 {
      PerformSound(env, w, call);
      ProofsRecover(env, Perform(env, w, call), revoked);
    }
  }

  /** Some digest other than the given one. */
  function Other(fingerprint: string): (r: string)
    ensures r != fingerprint && Hex(r, 64)
  {
    var zeros, ones: string := seq(64, _ => '0'), seq(64, _ => '1');
    assert zeros[0] != ones[0];
    if fingerprint == zeros then ones else zeros
  }

  /** The controller can still recover a fault, by whatever calls, exactly if it is not frozen. */
  lemma RecoverableIff(env: Env, w: World)
    requires SoundWorld(w) && Active(w.live.record)
    ensures (exists calls :: ControllerOnly(calls) && Available(Run(env, w, calls))) <==> !Frozen(env, w)
  {
    hide Run, SoundWorld, Hex;
    if Frozen(env, w) {
      forall calls | ControllerOnly(calls) ensures !Available(Run(env, w, calls)) {
        FrozenForever(env, w, calls);
      }
    } else {
      ProofsRecover(env, w, Other(w.live.record.value.current.fingerprint));
    }
  }

  /** A recovery of the proof that is due, with business state as recorded. */
  ghost predicate Attempts(env: Env, w: World, input: Identity, proof: Proof) {
    env.valid(input) && w.live.record.Some? && w.live.record.value.identity == input
    && w.live.business == Some(w.live.record.value.current.fingerprint) && Due(w.live.record.value, proof)
  }

  /** The recovery does not store its proof, and business state is no longer as recorded: its hook or a drift has moved it. */
  ghost predicate LeavesMoved(env: Env, w: World, input: Identity, proof: Proof, h: Hooks) {
    Attempts(env, w, input, proof) &&
    var hook, recorded := HookOf(input, proof, h), w.live.business;
    var hooked := After(recorded, hook.effect);
    var target := if Revokes(input, proof) then hooked else recorded;
    if !hook.ok || (env.staging && !h.bookmarkOk) || target.None? then hooked != recorded
    else !(Revokes(input, proof) && hooked == recorded) && After(hooked, h.drift) != target && After(hooked, h.drift) != recorded
  }

  ghost predicate Freezes(env: Env, w: World, call: Call) {
    match call
    case CallRecover(input, proof, h) => LeavesMoved(env, w, input, proof, h)
    case CutRecover(input, proof, h, stored) =>
      LeavesMoved(env.(staging := !stored), w, input, proof, h.(bookmarkOk := stored))
    case Business(state) => Active(w.live.record) && state != Some(w.live.record.value.current.fingerprint)
    case _ => false
  }

  /** Soundness does not speak of the live business state. */
  lemma AnyBusiness(w: World, business: Option<string>)
    requires SoundWorld(w)
    ensures SoundWorld(w.(live := w.live.(business := business)))
  {
    hide Chained, Hex;
  }

  lemma AdvanceNeverFreezes(env: Env, w: World, s: Stored, proof: Proof, fingerprint: string)
    requires SoundWorld(w) && w.live == Storage(Some(s), Some(fingerprint)) && env.valid(s.identity) && Due(s, proof)
    ensures !Frozen(env, Advance(env, w, s, proof, fingerprint).0)
  {
    hide Hex, Chained;
  }

  lemma RecoverFreezesIff(env: Env, w: World, input: Identity, proof: Proof, h: Hooks)
    requires SoundWorld(w) && !Frozen(env, w)
    ensures Frozen(env, Recover(env, w, input, proof, h).0) <==> LeavesMoved(env, w, input, proof, h)
  {
    hide FindReplay, Hex, Advance;
    if Attempts(env, w, input, proof) {
      var s := w.live.record.value;
      NoReplay(s.recoveries, proof);
      var w1 := Changed(w, HookOf(input, proof, h).effect);
      var w2 := Changed(w1, h.drift);
      hide SoundWorld, Due;
      var fingerprint := if Revokes(input, proof) then w1.live.business else w.live.business;
      if fingerprint.Some? && w2.live.business == fingerprint {
        AnyBusiness(w, w2.live.business);
        AdvanceNeverFreezes(env, w2, s, proof, fingerprint.value);
      }
    }
  }

  /**
   * A call freezes an authority exactly if it moves the business state of an active fault and stores no proof of that:
   * a recovery that fails or is lost after its hook or a drift moved it, or a business operation that asks no fence.
   */
  lemma FreezesIff(env: Env, w: World, call: Call)
    requires SoundWorld(w) && !Frozen(env, w)
    ensures Frozen(env, Perform(env, w, call)) <==> Freezes(env, w, call)
  {
    match call
    case CallRecover(input, proof, h) => RecoverFreezesIff(env, w, input, proof, h);
    case CutRecover(input, proof, h, stored) =>
      RecoverFreezesIff(env.(staging := !stored), w, input, proof, h.(bookmarkOk := stored));
      hide Recover, LeavesMoved;
    case _ => hide Hex, FinalRecord;
  }

  ghost predicate FreezesAt(env: Env, w: World, calls: seq<Call>, k: nat) {
    k < |calls| && !Frozen(env, Run(env, w, calls[..k])) && Freezes(env, Run(env, w, calls[..k]), calls[k])
  }

  ghost predicate NoThawAfter(env: Env, w: World, calls: seq<Call>, k: nat) {
    forall j | k < j < |calls| :: !Thaws(env, Run(env, w, calls[..j]), calls[j])
  }

  ghost predicate FrozenFrom(env: Env, w: World, calls: seq<Call>, k: nat) {
    FreezesAt(env, w, calls, k) && NoThawAfter(env, w, calls, k)
  }

  lemma PrefixFrozenFrom(env: Env, w: World, calls: seq<Call>, k: nat)
    requires k < |calls| - 1
    ensures var n := |calls| - 1;
            FrozenFrom(env, w, calls, k) <==>
            FrozenFrom(env, w, calls[..n], k) && !Thaws(env, Run(env, w, calls[..n]), calls[n])
  {
    hide Run, Thaws, Frozen, Freezes;
    var front := calls[..|calls| - 1];
    forall j | 0 <= j <= |front| ensures front[..j] == calls[..j] {
    }
    if FrozenFrom(env, w, front, k) && !Thaws(env, Run(env, w, front), calls[|front|]) {
      forall j | k < j < |calls| ensures !Thaws(env, Run(env, w, calls[..j]), calls[j]) {
        assert j < |front| ==> !Thaws(env, Run(env, w, front[..j]), front[j]);
      }
    }
    if FrozenFrom(env, w, calls, k) {
      forall j | k < j < |front| ensures !Thaws(env, Run(env, w, front[..j]), front[j]) {
        assert !Thaws(env, Run(env, w, calls[..j]), calls[j]);
      }
    }
  }

  ghost predicate SomeFreezes(env: Env, w: World, calls: seq<Call>) { exists k: nat :: FrozenFrom(env, w, calls, k) }

  /** A run ends frozen exactly if one of its calls froze the authority and no later one thawed it. */
  lemma {:induction false} RunFreezesIff(env: Env, w: World, calls: seq<Call>)
    requires SoundWorld(w) && !Frozen(env, w)
    ensures Frozen(env, Run(env, w, calls)) <==> SomeFreezes(env, w, calls)
  {
    hide Perform, Frozen, Freezes, Thaws, SoundWorld, NoThawAfter;
    if calls != [] {
      var n := |calls| - 1;
      var front := calls[..n];
      RunFreezesIff(env, w, front);
      RunSound(env, w, front);
      forall k: nat | k < n
        ensures FrozenFrom(env, w, calls, k) <==> FrozenFrom(env, w, front, k) && !Thaws(env, Run(env, w, front), calls[n])
      {
        PrefixFrozenFrom(env, w, calls, k);
      }
      LastFrozenFrom(env, w, calls);
      if Frozen(env, Run(env, w, front)) {
        FrozenStep(env, Run(env, w, front), calls[n]);
        var k: nat :| FrozenFrom(env, w, front, k);
        assert k < n;
      } else {
        FreezesIff(env, Run(env, w, front), calls[n]);
      }
    }
  }

  lemma LastFrozenFrom(env: Env, w: World, calls: seq<Call>)
    requires calls != []
    ensures var n := |calls| - 1;
            FrozenFrom(env, w, calls, n) <==>
            !Frozen(env, Run(env, w, calls[..n])) && Freezes(env, Run(env, w, calls[..n]), calls[n])
  {
  }

  /** An active fault is frozen by any business operation that asks no fence, such as the session's own logout. */
  lemma LogoutFreezes(env: Env, id: Identity, fingerprint: string, after: Option<string>)
    requires env.valid(id) && Hex(fingerprint, 64) && after != Some(fingerprint)
    ensures var w := World(Storage(None, Some(fingerprint)), []);
            SoundWorld(w) && !Frozen(env, w) && Frozen(env, Run(env, w, [CallInject(id, true)] + ([Business(after)] + [])))
  {
    var w0 := World(Storage(None, Some(fingerprint)), []);
    var a, b := CallInject(id, true), Business(after);
    assert Frozen(env, Perform(env, Perform(env, w0, a), b));
    hide Perform, Frozen;
    FirstCall(env, w0, a, [b] + []);
    FirstCall(env, Perform(env, w0, a), b, []);
  }

  /** The third proof of a session loss, with the session revoked and no bookmark to be had. */
  function LossCalls(id: Identity, revoked: string): seq<Call> {
    var h := Revoking(revoked);
    [CallInject(id, true)] + ([CallRecover(id, PROOFS[0], h)] + ([CallRecover(id, PROOFS[1], h)]
    + ([CallRecover(id, PROOFS[2], h.(bookmarkOk := false))] + [])))
  }

  /** In staging, every session loss can come to this. */
  lemma SessionLossFreezes(env: Env, id: Identity, fingerprint: string, revoked: string)
    requires env.staging && env.valid(id) && Hex(fingerprint, 64) && revoked != fingerprint
    requires id.authority == "auth-session" && id.kind == PerteAutorite
    ensures var w := World(Storage(None, Some(fingerprint)), []);
            SoundWorld(w) && !Frozen(env, w) && Frozen(env, Run(env, w, LossCalls(id, revoked)))
  {
    var h := Revoking(revoked);
    var w0 := World(Storage(None, Some(fingerprint)), []);
    var a, b, c, d := CallInject(id, true), CallRecover(id, PROOFS[0], h), CallRecover(id, PROOFS[1], h),
                      CallRecover(id, PROOFS[2], h.(bookmarkOk := false));
    var w1 := Perform(env, w0, a);
    assert w1.live == Storage(Some(Stored(id, FaultState(id, Injected, None, 1, fingerprint), [], 0)), Some(fingerprint));
    assert !Frozen(env, w1);
    PerformSound(env, w0, a);
    hide Perform, SoundWorld, Hex;
    ProofAdvances(env, w1, revoked);
    var w2 := Perform(env, w1, b);
    PerformSound(env, w1, b);
    ProofAdvances(env, w2, revoked);
    var w3 := Perform(env, w2, c);
    PerformSound(env, w2, c);
    FreezesIff(env, w3, d);
    FirstCall(env, w0, a, [b] + ([c] + ([d] + [])));
    FirstCall(env, w1, b, [c] + ([d] + []));
    FirstCall(env, w2, c, [d] + []);
    FirstCall(env, w3, d, []);
  }

  // ---- Restore and finalization ----

  /** A recovered record is determined by its identity and fingerprint, unless a session was revoked on the way. */
  lemma RecoveredIsFinal(s: Stored, origin: string)
    requires Chained(s, origin) && |s.recoveries| == |PROOFS| && !SessionLoss(s.identity)
    ensures s == FinalRecord(s.identity, origin, s.bookmark)
  {
    forall i | 0 <= i < |PROOFS| ensures s.recoveries[i] == ReceiptChain(s.identity, origin)[i] {
      if FingerprintAt(s, origin, i + 1) != origin {
        OneChange(s, origin, 0, i + 1);
      }
    }
    assert s.recoveries == ReceiptChain(s.identity, origin);
  }

  /** Finalization never overwrites a record, and doing it again changes nothing and gives the same reply. */
  lemma FinalizeIdempotent(env: Env, w: World, input: Identity, proof: Proof, expected: string, ok: bool, ok': bool)
    ensures var (w1, r1) := Finalize(env, w, input, proof, expected, ok);
            && (w.live.record.Some? || r1.Err? ==> w1 == w)
            && (r1.Ok? ==> Finalize(env, w1, input, proof, expected, ok') == (w1, r1))
  {
    hide Hex;
  }

  // ---- A whole drill: inject, then recover in order ----

  /** The record of a fault that has had its first `k` proofs without a change of business state. */
  function Partial(id: Identity, fingerprint: string, bookmark: nat, k: nat): Stored
    requires k <= |PROOFS|
  {
    var chain := ReceiptChain(id, fingerprint);
    Stored(id, if k == 0 then FaultState(id, Injected, None, 1, fingerprint) else chain[k - 1], chain[..k], bookmark)
  }

  lemma {:induction false} NoReplay(recoveries: seq<FaultState>, proof: Proof)
    requires forall i | 0 <= i < |recoveries| :: recoveries[i].proof != Some(proof)
    ensures FindReplay(recoveries, proof).None?
  {
    if recoveries != [] {
      NoReplay(recoveries[1..], proof);
    }
  }

  lemma NextProof(env: Env, w: World, s: Stored, k: nat)
    requires k < |PROOFS| && w.live == Storage(Some(s), Some(s.current.fingerprint))
    requires s == Partial(s.identity, s.current.fingerprint, s.bookmark, k)
    requires env.valid(s.identity) && !SessionLoss(s.identity)
    ensures var s' := Partial(s.identity, s.current.fingerprint, s.bookmark, k + 1);
            var stored := w.(live := w.live.(record := Some(s')));
            Recover(env, w, s.identity, PROOFS[k], SMOOTH).0 ==
            if k == 3 && env.staging && s.identity.authority != "auth-session" then Restored(stored, s.bookmark) else stored
  {
    NoReplay(s.recoveries, PROOFS[k]);
    hide FindReplay;
    var chain := ReceiptChain(s.identity, s.current.fingerprint);
    assert chain[..k + 1] == chain[..k] + [chain[k]];
  }

  function DrillCalls(input: Identity): seq<Call> {
    [CallInject(input, true)]
    + seq(|PROOFS|, i requires 0 <= i < |PROOFS| => CallRecover(input, PROOFS[i], SMOOTH))
  }

  /** A world in which this fault can be injected: the fence is open and the fault is new. */
  predicate Injectable(env: Env, w: World, input: Identity) {
    env.valid(input) && Available(w) && w.live.business.Some? && Hex(w.live.business.value, 64)
    && (w.live.record.Some? ==> w.live.record.value.identity != input)
  }

  lemma {:induction false} DrillSoFar(env: Env, w: World, input: Identity, k: nat)
    requires Injectable(env, w, input) && !SessionLoss(input) && k < |PROOFS|
    ensures Run(env, w, DrillCalls(input)[..k + 1]) ==
            World(w.live.(record := Some(Partial(input, w.live.business.value, |w.snapshots|, k))), w.snapshots + [w.live])
  {
    var calls := DrillCalls(input);
    assert calls[..k + 1][..k] == calls[..k];
    if k == 0 {
      assert calls[..0] == [] && Run(env, w, calls[..0]) == w;
    } else {
      DrillSoFar(env, w, input, k - 1);
      hide Recover, Inject, Hex;
      NextProof(env, Run(env, w, calls[..k]), Partial(input, w.live.business.value, |w.snapshots|, k - 1), k - 1);
    }
  }

  /**
   * A complete drill.  In staging it puts the storage of any authority but a session back exactly as it was before
   * the injection; anywhere else it leaves the recovered record.
   */
  lemma Drill(env: Env, w: World, input: Identity)
    requires Injectable(env, w, input) && !SessionLoss(input)
    ensures Run(env, w, DrillCalls(input)) ==
            World(if env.staging && input.authority != "auth-session" then w.live
                  else w.live.(record := Some(FinalRecord(input, w.live.business.value, |w.snapshots|))),
                  w.snapshots + [w.live])
  {
    var calls := DrillCalls(input);
    var fingerprint := w.live.business.value;
    DrillSoFar(env, w, input, 3);
    assert calls[..4] == calls[..|calls| - 1];
    assert ReceiptChain(input, fingerprint)[..4] == ReceiptChain(input, fingerprint);
    hide Recover, Inject, Hex;
    NextProof(env, Run(env, w, calls[..4]), Partial(input, fingerprint, |w.snapshots|, 3), 3);
  }

  /** Each reply of a drill. */
  lemma DrillReplies(env: Env, w: World, input: Identity, k: nat)
    requires Injectable(env, w, input) && !SessionLoss(input) && k < 4
    ensures Inject(env, w, input, true).1 == Ok(FaultState(input, Injected, None, 1, w.live.business.value))
    ensures Recover(env, Run(env, w, DrillCalls(input)[..k + 1]), input, PROOFS[k], SMOOTH).1 ==
            if k == 3 && env.staging && input.authority != "auth-session" then Err(Aborted)
            else Ok(FaultState(input, if k == 3 then Recovered else Recovering, Some(PROOFS[k]), k + 2, w.live.business.value))
  {
    DrillSoFar(env, w, input, k);
    var s := Partial(input, w.live.business.value, |w.snapshots|, k);
    NoReplay(s.recoveries, PROOFS[k]);
    hide FindReplay, Hex, Run;
  }

  /**
   * Restore, then finalize, refines recovery step by step: it succeeds exactly if the authority held no record
   * before the injection, and then leaves the record of the drill without a restore, up to the bookmark.
   */
  lemma FinalizeAfterRestore(env: Env, w: World, input: Identity)
    requires Injectable(env, w, input) && env.staging && input.authority != "auth-session"
    ensures var restored := Run(env, w, DrillCalls(input));
            var stepwise := Run(env.(staging := false), w, DrillCalls(input));
            var (final, reply) := Finalize(env, restored, input, RecuResistantPitr, w.live.business.value, true);
            && (reply.Ok? <==> w.live.record.None?)
            && (reply.Err? ==> reply == Err(ResurrectedFence) && final == restored)
            && stepwise.live.record.Some?
            && (reply.Ok? ==>
                  && final.live.record.Some? && final.live.business == stepwise.live.business
                  && final.live.record.value.(bookmark := 0) == stepwise.live.record.value.(bookmark := 0))
  {
    Drill(env, w, input);
    Drill(env.(staging := false), w, input);
    hide Run, Hex;
  }

  /** So a second drill on the same authority can never be finalized. */
  lemma SecondDrillStuck(env: Env, first: Identity, second: Identity, fingerprint: string)
    requires env.valid(first) && env.valid(second) && first != second && Hex(fingerprint, 64) && env.staging
    requires first.authority != "auth-session" && second.authority != "auth-session"
    ensures var w := Run(env, World(Storage(None, Some(fingerprint)), []), DrillCalls(first));
            var w' := Finalize(env, w, first, RecuResistantPitr, fingerprint, true).0;
            var w'' := Run(env, w', DrillCalls(second));
            Finalize(env, w'', second, RecuResistantPitr, fingerprint, true).1 == Err(ResurrectedFence)
  {
    var w0 := World(Storage(None, Some(fingerprint)), []);
    Drill(env, w0, first);
    var w := Run(env, w0, DrillCalls(first));
    hide Run, Hex;
    var w' := Finalize(env, w, first, RecuResistantPitr, fingerprint, true).0;
    FinalizeAfterRestore(env, w', second);
  }
}
