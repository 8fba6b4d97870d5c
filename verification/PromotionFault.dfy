/** The fault fence of a promotion authority: injection, ordered recovery, point-in-time restore, finalization. */
module PromotionFault {
  import opened Wrappers
  import opened Text

  datatype FaultType = Coupure | Revocation | PerteAutorite

  datatype Proof = RollForward | RpoLogiqueNul | SessionNonRestauree | RecuResistantPitr

  const PROOFS := [RollForward, RpoLogiqueNul, SessionNonRestauree, RecuResistantPitr]

  datatype TargetKind = Aggregate | Service

  /** `probe` keeps its properties in order: identities are compared by their serialized probes. */
  datatype Identity = Identity(
    executionId: string, candidateSha: string, stagingDeploymentId: string, kind: FaultType, authority: string,
    targetKind: TargetKind, targetId: string, probe: seq<(string, string)>)

  datatype Phase = Injected | Recovering | Recovered

  datatype FaultState = FaultState(
    identity: Identity, phase: Phase, proof: Option<Proof>, sequence: nat, fingerprint: string)

  /** `bookmark` names the snapshot taken just before the fault was stored. */
  datatype Stored = Stored(identity: Identity, current: FaultState, recoveries: seq<FaultState>, bookmark: nat)

  /** Durable storage: the fault record, and the business state, seen through its fingerprint. */
  datatype Storage = Storage(record: Option<Stored>, business: Option<string>)

  /** The live storage and the snapshots bookmarks refer to. */
  datatype World = World(live: Storage, snapshots: seq<Storage>)

  /** The deployment: which identities are well formed, whether this is staging, and whether local faults are on. */
  datatype Env = Env(valid: Identity -> bool, staging: bool, localFaults: bool)

  datatype FaultError =
    | InvalidInput
    | AnotherActiveFault
    | CannotReopen
    | TargetMissing
    | InvalidFingerprint
    | NoBookmark
    | NoMatchingFault
    | StateChanged
    | OutOfOrder
    | RepairFailed
    | RevocationFailed
    | NotRevoked
    | RpoCheckFailed
    | ResurrectedFence
    | Aborted

  type Reply = Result<FaultState, FaultError>

  predicate Active(r: Option<Stored>) { r.Some? && r.value.current.phase != Recovered }

  /** The business fence: an authority serves exactly while it has no unrecovered fault. */
  predicate Available(w: World) { !Active(w.live.record) }

  // ---- The calls ----

  function Inject(env: Env, w: World, input: Identity, bookmarkOk: bool): (World, Reply) {
    var record := w.live.record;
    if !env.valid(input) then (w, Err(InvalidInput))
    else if Active(record) then
      (w, if record.value.identity == input then Ok(record.value.current) else Err(AnotherActiveFault))
    else if record.Some? && record.value.identity == input then (w, Err(CannotReopen))
    else if w.live.business.None? then (w, Err(TargetMissing))
    else if !Hex(w.live.business.value, 64) then (w, Err(InvalidFingerprint))
    else if env.staging && !bookmarkOk then (w, Err(NoBookmark))
    else
      var current := FaultState(input, Injected, None, 1, w.live.business.value);
      (World(w.live.(record := Some(Stored(input, current, [], |w.snapshots|))), w.snapshots + [w.live]), Ok(current))
  }

  function FindReplay(recoveries: seq<FaultState>, proof: Proof): Option<FaultState> {
    if recoveries == [] then None
    else if recoveries[0].proof == Some(proof) then Some(recoveries[0])
    else FindReplay(recoveries[1..], proof)
  }

  /** A lost session authority is revoked instead of restored. */
  predicate SessionLoss(id: Identity) { id.authority == "auth-session" && id.kind == PerteAutorite }

  function PhaseAfter(recoveries: nat): Phase {
    if recoveries == 0 then Injected else if recoveries < |PROOFS| then Recovering else Recovered
  }

  /** The storage after a restore of the snapshot a bookmark names. */
  function Restored(w: World, bookmark: nat): World {
    if bookmark < |w.snapshots| then w.(live := w.snapshots[bookmark]) else w
  }

  /**
   * The proof that is due has been verified against business state `fingerprint`.  In staging the last one also
   * restores the snapshot taken before the injection and aborts the object, so that its caller gets no reply.
   */
  function Advance(env: Env, w: World, s: Stored, proof: Proof, fingerprint: string): (World, Reply) {
    var n := |s.recoveries| + 1;
    var current := FaultState(s.identity, PhaseAfter(n), Some(proof), n + 1, fingerprint);
    var stored := w.(live := w.live.(record := Some(s.(current := current, recoveries := s.recoveries + [current]))));
    if current.phase == Recovered && s.identity.authority != "auth-session" && env.staging
    then (Restored(stored, s.bookmark), Err(Aborted))
    else (stored, Ok(current))
  }

  /** What happens to business state meanwhile; `Left(None)`: there is none any more. */
  datatype Effect = Untouched | Left(state: Option<string>)

  /** A hook may change business state whether or not it then succeeds. */
  datatype Hook = Hook(ok: bool, effect: Effect)

  const IDLE := Hook(true, Untouched)

  /** What a recovery meets: its two hooks, whether storage gives a bookmark, and what else changes business state before the last check. */
  datatype Hooks = Hooks(repair: Hook, revocation: Hook, bookmarkOk: bool, drift: Effect)

  /** Nothing fails. */
  const SMOOTH := Hooks(IDLE, IDLE, true, Untouched)

  function After(business: Option<string>, e: Effect): Option<string> {
    if e.Left? then e.state else business
  }

  function Changed(w: World, e: Effect): World { w.(live := w.live.(business := After(w.live.business, e))) }

  /** The last check: business state must be what the recovery is about to record. */
  function Verify(env: Env, w: World, s: Stored, proof: Proof, fingerprint: string, h: Hooks): (World, Reply) {
    if env.staging && !h.bookmarkOk then (w, Err(NoBookmark))
    else
      var w := Changed(w, h.drift);
      if w.live.business.None? then (w, Err(TargetMissing))
      else if w.live.business.value != fingerprint then (w, Err(RpoCheckFailed))
      else Advance(env, w, s, proof, fingerprint)
  }

  /** The proof that comes next. */
  predicate Due(s: Stored, proof: Proof) {
    |s.recoveries| < |PROOFS| && PROOFS[|s.recoveries|] == proof && s.current.phase != Recovered
  }

  predicate Revokes(input: Identity, proof: Proof) { proof == SessionNonRestauree && SessionLoss(input) }

  /** The hook that the proof runs. */
  function HookOf(input: Identity, proof: Proof, h: Hooks): Hook {
    if proof == RollForward then h.repair else if Revokes(input, proof) then h.revocation else IDLE
  }

  function Recover(env: Env, w: World, input: Identity, proof: Proof, h: Hooks): (World, Reply) {
    var record := w.live.record;
    if !env.valid(input) then (w, Err(InvalidInput))
    else if record.None? || record.value.identity != input then (w, Err(NoMatchingFault))
    else if w.live.business.None? then (w, Err(TargetMissing))
    else if w.live.business.value != record.value.current.fingerprint then (w, Err(StateChanged))
    else
      var s := record.value;
      var replay := FindReplay(s.recoveries, proof);
      if replay.Some? then (w, Ok(replay.value))
      else if !Due(s, proof) then (w, Err(OutOfOrder))
      else
        var hook := HookOf(input, proof, h);
        var w := Changed(w, hook.effect);
        if !hook.ok then (w, Err(if proof == RollForward then RepairFailed else RevocationFailed))
        else if !Revokes(input, proof) then Verify(env, w, s, proof, s.current.fingerprint, h)
        else if w.live.business.None? then (w, Err(TargetMissing))
        else if w.live.business.value == s.current.fingerprint then (w, Err(NotRevoked))
        else Verify(env, w, s, proof, w.live.business.value, h)
  }

  /** The recovery states of a fault recovered without a change of business state. */
  function ReceiptChain(id: Identity, fingerprint: string): seq<FaultState> {
    seq(|PROOFS|, i requires 0 <= i < |PROOFS| => FaultState(id, PhaseAfter(i + 1), Some(PROOFS[i]), i + 2, fingerprint))
  }

  function FinalRecord(id: Identity, fingerprint: string, bookmark: nat): Stored {
    var chain := ReceiptChain(id, fingerprint);
    Stored(id, chain[|chain| - 1], chain, bookmark)
  }

  function Finalize(env: Env, w: World, input: Identity, proof: Proof, expected: string, bookmarkOk: bool): (World, Reply) {
    var record := w.live.record;
    if !(env.staging || env.localFaults) || !env.valid(input) || proof != RecuResistantPitr
       || input.authority == "auth-session" || !Hex(expected, 64)
    then (w, Err(InvalidInput))
    else if record.Some? then
      (w, if record.value.current.phase == Recovered && record.value.identity == input
             && record.value.current.fingerprint == expected
          then Ok(record.value.current) else Err(ResurrectedFence))
    else if w.live.business.None? then (w, Err(TargetMissing))
    else if w.live.business.value != expected then (w, Err(StateChanged))
    else if !bookmarkOk then (w, Err(NoBookmark))
    else
      var final := FinalRecord(input, expected, |w.snapshots|);
      (World(w.live.(record := Some(final)), w.snapshots + [w.live]), Ok(final.current))
  }

  // ---- Every run ----

  datatype Call =
    | CallInject(input: Identity, bookmarkOk: bool)
    | CallRecover(input: Identity, proof: Proof, hooks: Hooks)
    | CutRecover(input: Identity, proof: Proof, hooks: Hooks, stored: bool)
    | CallFinalize(input: Identity, proof: Proof, expected: string, bookmarkOk: bool)
    | Business(state: Option<string>)
    | Erase

  /**
   * A recovery can be cut short: the object is lost after its hooks, before the proof is stored, or just after it is
   * stored, before anything can be restored.  Business state can change at any time: not every operation asks the fence
   * first.  An expired session erases all its storage, the fault record included.
   */
  function Perform(env: Env, w: World, call: Call): World {
    match call
    case CallInject(input, ok) => Inject(env, w, input, ok).0
    case CallRecover(input, proof, h) => Recover(env, w, input, proof, h).0
    case CutRecover(input, proof, h, stored) =>
      Recover(env.(staging := !stored), w, input, proof, h.(bookmarkOk := stored)).0
    case CallFinalize(input, proof, expected, ok) => Finalize(env, w, input, proof, expected, ok).0
    case Business(state) => Changed(w, Left(state))
    case Erase => w.(live := Storage(None, None))
  }

  function Run(env: Env, w: World, calls: seq<Call>): World {
    if calls == [] then w else Perform(env, Run(env, w, calls[..|calls| - 1]), calls[|calls| - 1])
  }

  // ---- The durable object ----

  class PromotionFaultableDurableObject {
    const env: Env
    var record: Option<Stored>
    var business: Option<string>
    /** The states the storage service can restore; a bookmark is an index. */
    var snapshots: seq<Storage>

    ghost function State(): World
      reads this
    {
      World(Storage(record, business), snapshots)
    }

    constructor (env: Env, business: Option<string>)
      ensures this.env == env && State() == World(Storage(None, business), [])
    {
      this.env, this.business, record, snapshots := env, business, None, [];
    }

    /** Throws while a stored fault is not recovered. */
    method RequirePromotionAuthorityAvailable() returns (ok: bool)
      ensures ok == Available(State())
    {
      ok := record.None? || record.value.current.phase == Recovered;
    }

    method InjectPromotionFault(input: Identity, bookmarkOk: bool) returns (reply: Reply)
      modifies this
      ensures (State(), reply) == Inject(env, old(State()), input, bookmarkOk)
    {
      if !env.valid(input) {
        return Err(InvalidInput);
      }
      if record.Some? && record.value.current.phase != Recovered {
        if record.value.identity != input {
          return Err(AnotherActiveFault);
        }
        return Ok(record.value.current);
      }
      if record.Some? && record.value.identity == input {
        return Err(CannotReopen);
      }
      if business.None? {
        return Err(TargetMissing);
      }
      if !Hex(business.value, 64) {
        return Err(InvalidFingerprint);
      }
      if env.staging && !bookmarkOk {
        return Err(NoBookmark);
      }
      var current := FaultState(input, Injected, None, 1, business.value);
      var bookmark := |snapshots|;
      snapshots := snapshots + [Storage(record, business)];
      record := Some(Stored(input, current, [], bookmark));
      reply := Ok(current);
    }

    method RecoverPromotionFault(input: Identity, proof: Proof, h: Hooks) returns (reply: Reply)
      modifies this
      ensures (State(), reply) == Recover(env, old(State()), input, proof, h)
    {
      if !env.valid(input) {
        return Err(InvalidInput);
      }
      if record.None? || record.value.identity != input {
        return Err(NoMatchingFault);
      }
      var s := record.value;
      if business.None? {
        return Err(TargetMissing);
      }
      if business.value != s.current.fingerprint {
        return Err(StateChanged);
      }
      var replay := FindReplay(s.recoveries, proof);
      if replay.Some? {
        return Ok(replay.value);
      }
      if |s.recoveries| >= |PROOFS| || PROOFS[|s.recoveries|] != proof || s.current.phase == Recovered {
        return Err(OutOfOrder);
      }
      if proof == RollForward {
        business := After(business, h.repair.effect);
        if !h.repair.ok {
          return Err(RepairFailed);
        }
      }
      var fingerprint := s.current.fingerprint;
      if proof == SessionNonRestauree && input.authority == "auth-session" && input.kind == PerteAutorite {
        business := After(business, h.revocation.effect);
        if !h.revocation.ok {
          return Err(RevocationFailed);
        }
        if business.None? {
          return Err(TargetMissing);
        }
        fingerprint := business.value;
        if fingerprint == s.current.fingerprint {
          return Err(NotRevoked);
        }
      }
      if env.staging && !h.bookmarkOk {
        return Err(NoBookmark);
      }
      business := After(business, h.drift);
      if business.None? {
        return Err(TargetMissing);
      }
      if business.value != fingerprint {
        return Err(RpoCheckFailed);
      }
      var phase := if |s.recoveries| + 1 == |PROOFS| then Recovered else Recovering;
      var current := FaultState(s.identity, phase, Some(proof), |s.recoveries| + 2, fingerprint);
      record := Some(s.(current := current, recoveries := s.recoveries + [current]));
      if phase == Recovered && input.authority != "auth-session" && env.staging {
        if s.bookmark < |snapshots| {
          record, business := snapshots[s.bookmark].record, snapshots[s.bookmark].business;
        }
        return Err(Aborted);
      }
      reply := Ok(current);
    }

    method FinalizePromotionAuthorityAfterPitr(input: Identity, proof: Proof, expected: string, bookmarkOk: bool)
      returns (reply: Reply)
      modifies this
      ensures (State(), reply) == Finalize(env, old(State()), input, proof, expected, bookmarkOk)
    {
      if !(env.staging || env.localFaults) || !env.valid(input) || proof != RecuResistantPitr
         || input.authority == "auth-session" || !Hex(expected, 64) {
        return Err(InvalidInput);
      }
      if record.Some? {
        var s := record.value;
        if s.current.phase == Recovered && s.identity == input && s.current.fingerprint == expected {
          return Ok(s.current);
        }
        return Err(ResurrectedFence);
      }
      if business.None? {
        return Err(TargetMissing);
      }
      if business.value != expected {
        return Err(StateChanged);
      }
      if !bookmarkOk {
        return Err(NoBookmark);
      }
      var chain: seq<FaultState> := [];
      for i := 0 to |PROOFS|
        invariant chain == ReceiptChain(input, expected)[..i]
      {
        var phase := if i + 1 == |PROOFS| then Recovered else Recovering;
        chain := chain + [FaultState(input, phase, Some(PROOFS[i]), i + 2, expected)];
      }
      assert chain == ReceiptChain(input, expected);
      var bookmark := |snapshots|;
      snapshots := snapshots + [Storage(record, business)];
      record := Some(Stored(input, chain[|chain| - 1], chain, bookmark));
      reply := Ok(chain[|chain| - 1]);
    }
  }
}
