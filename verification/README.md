# Punks: verified models of the hard cores

Dafny models of eight parts of Punks, with what each of them promises proved for every input and every run.

| part | modules |
|---|---|
| ACP turn engine: one read loop that interleaves agent frames, at most one steer request and two deadlines, with the prompt, cancel and permission state around it | `TurnEngine`, `TurnLaws`, `CallLaws`, `WireLaws`, `AcpClients` |
| `CODEX_CONFIG`: recursive JSON merge with precedence rules | `ConfigMerge`, `JsonValues` |
| NIP-GS git signatures: condition grammar, envelope printer and parser, armor, signing preimage, the decisions of signing and verifying | `Conditions`, `Signature`, `Signing`, over `Text`, `Unicode`, `Base64`, `JsonText` |
| Promotion faults: a durable record with an ordered four-proof recovery, a fence, point-in-time restore and reconstruction | `PromotionFault`, `PromotionLaws` |
| Subscriptions: first-match, fail-closed rules with timeout counters, and the coarse channel filters that must cover them | `Subscription`, `UuidForms` |
| Lazy agent pool: attempt tokens, back-off, hand-over | `PoolLifecycles` |
| Audio worklet: re-chunking behind a push-to-talk gate | `SttTap` |
| Redis wire codec of the relay-bus benchmark | `Resp` |

`dafny verify dfyconfig.toml` checks everything.

Each component has a specification on values: a step function and its fold over a sequence of events, or a printer and
a reader. The theorems are about that specification. Where the source changes fields, buffers or streams step by step,
a class or a looping method does the same and is proved equal to the specification. The environment is a parameter: an
event says what the clock shows, what arrived, and whether a write succeeds. Clocks never go back and are otherwise
arbitrary.

Byte strings have one character per byte. Cryptography is abstract: `Signature.Correct` says only that keys and
signatures have their hexadecimal shape and that a signature verifies under the key and digest it was made for.

What the models show that a reader of the code might not expect:

- The read loop's comments say every return path drains a steer in flight. It is dropped without an acknowledgement
  exactly when, before a deadline, a frame arrives that is a permission request without an id, without a usable option or
  whose answer cannot be written, or a request for an unknown method whose refusal cannot be written
  (`TurnLaws.AbandonedIff`; `TurnLaws.AbandonedSteer` is such a run).
- Merging configurations is not associative. `ConfigMerge.MergeAssociatesIff` gives the exact condition: nowhere does a
  non-object of the middle source stand between an object of the first and an object of the last that lacks one of its keys.
- Two signed messages share a preimage exactly when the payload of one spells out the attestation of the other
  (`Signature.PreimageIff`; `Signature.PreimageCollides` is an instance), which commits and tags never do.
- Finalizing a restored promotion authority succeeds exactly if it held no record before the injection
  (`PromotionLaws.FinalizeAfterRestore`), so the drill after a finalized one is refused
  (`PromotionLaws.SecondDrillStuck`).
- Business state can move behind a closed fence: some operations ask no fence, a revocation hook can fail after it has
  revoked, and a recovery can fail or be lost after its hook. While business state is not what an active fault recorded,
  nothing the promotion controller does has any effect. `PromotionLaws.RecoverableIff` says exactly which faults the
  controller can still recover, `PromotionLaws.FreezesIff` and `RunFreezesIff` which calls and runs lead there;
  `PromotionLaws.LogoutFreezes` and `SessionLossFreezes` are two.
- The channel filter parses ids while the matcher compares their text, and rules may list 32-bit kinds while events have
  16-bit ones. A channel is subscribed while no event on it can match, whatever the filter expressions come to, exactly
  if every rule that applies to it spells its id only in other forms or lists only kinds above 65535
  (`Subscription.SubscribedButDeafIff`): an id in capitals (`Subscription.CapitalsAreDeaf`), kind 70000 on all channels
  (`Subscription.LargeKindIsDeaf`).
- A steer receiver installed between a timed-out prompt and its cancel lets the agent extend the drain past its deadline,
  and nothing else does (`CallLaws.DrainExtendsIff`).
- Wake tokens restart at 1 after a hand-over. The late result of any earlier wake is accepted exactly if the outstanding
  wake has the same number within its own hand-over (`PoolLifecycles.AcceptedIff`; `PoolLifecycles.TokensRestart` is a
  run). Within one hand-over this takes 2^32 - 1 attempts. The one caller goes back to listening only when no wake task
  is left (crates/punks-acp/src/lib.rs:3044).
- 960 samples is the exact chunk size up to which the worklet cannot throw (`SttTap.NeverThrowsIff`).

## Model

| member | source | states |
|---|---|---|
| `TurnLaws.SteersAcknowledged` | crates/punks-acp/src/acp.rs:1315-1732 | in every run the acks sent, then the steer in flight, are exactly the requests taken, in order; so none is acknowledged twice, at most one is in flight, and every return with a result or a timeout has acknowledged all of them |
| `TurnLaws.AbandonedStep` | crates/punks-acp/src/acp.rs:1694-1727 | a step abandons the steer in flight exactly on a frame whose dispatch fails: an unanswerable permission request or an unwritable refusal |
| `TurnLaws.AbandonedIff` | crates/punks-acp/src/acp.rs:1315-1732 | a run leaves a taken steer unacknowledged exactly if one of its polls brings such a frame before the deadline while a steer is in flight |
| `TurnLaws.AbandonedSteer` | crates/punks-acp/src/acp.rs:1708-1723 | a run whose failed write leaves a taken steer without any ack |
| `TurnLaws.ExitIsFinal` | crates/punks-acp/src/acp.rs:1350-1730 | once the loop has left, nothing changes what it left |
| `TurnLaws.RunKeeps` | crates/punks-acp/src/acp.rs:1315-1732 | every run keeps prompt id < steer id < next id, the stored deadline equal to the loop's, and idle deadline = last activity + idle timeout; the hard deadline never goes back |
| `TurnLaws.PromptTurnKeeps` | crates/punks-acp/src/acp.rs:777-839 | the same at every point of every prompt turn, whatever the client did before |
| `TurnLaws.SuccessIsDelivery` | crates/punks-acp/src/acp.rs:1571-1665 | a step acks Success exactly on an error-free, method-less reply with the pending steer's id and a recognised outcome, and then to that steer |
| `TurnLaws.SuccessMeansDelivered` | crates/punks-acp/src/acp.rs:1571-1665 | in every run, each Success ack was the delivery of that very steer at some step |
| `TurnLaws.ResultIsPromptReply` | crates/punks-acp/src/acp.rs:1675-1690 | a step returns a result exactly on an error-free reply to the prompt, and returns that reply's result |
| `TurnLaws.ReturnedIsReply` | crates/punks-acp/src/acp.rs:1566-1692 | in every run, a returned result came with a reply to the prompt, never with one to a steer |
| `TurnLaws.DeadlinesStep` | crates/punks-acp/src/acp.rs:1615-1640 | the hard deadline moves exactly on an injected or goose success, to that moment plus the maximum duration if that is later |
| `TurnLaws.HardDeadlineMoves` | crates/punks-acp/src/acp.rs:1344-1382 | between any two points of a run the hard deadline does not decrease, and if it grew a steer renewed it in between |
| `TurnLaws.HardDeadlineMovesIff` | crates/punks-acp/src/acp.rs:1615-1640 | a run ends with a later hard deadline exactly if some poll in it was an injected or goose success that renewed it beyond the first |
| `TurnLaws.HardDeadlineBounds` | crates/punks-acp/src/acp.rs:1350-1382 | however frames arrive, every poll before one that is handled ended before the hard deadline in force when it was taken, unless it renewed it: at most one outcome is handled after a deadline has passed |
| `TurnLaws.TimeoutsAreDue` | crates/punks-acp/src/acp.rs:1350-1382 | no timeout is early, a passed deadline always ends the loop, and the reported silence is exact |
| `CallLaws.HistorySound` | crates/punks-acp/src/acp.rs:777-1062 | over any history of completed calls each prompt id gets at most one session/cancel, the one in flight none yet, and no permission request gets more answers than it was asked |
| `CallLaws.SpawnedHistory` | crates/punks-acp/src/acp.rs:777-1062 | from a freshly spawned client, no history cancels a prompt twice or answers a permission request more often than it was made |
| `CallLaws.RunWrites` | crates/punks-acp/src/acp.rs:1934-2009 | a whole run of the loop never writes a cancel, only appends to the wire and keeps permission answers within requests |
| `CallLaws.CancelNotifiesOnce` | crates/punks-acp/src/acp.rs:1014-1062 | cancelling writes exactly one session/cancel, for the prompt in flight, if the writes succeed; with none in flight it changes nothing and is an error |
| `CallLaws.TimeoutLeavesCancelCallable` | crates/punks-acp/src/acp.rs:818-838 | a finished prompt call leaves its prompt cancellable exactly when it timed out, and then keeps a deadline no earlier than its own |
| `CallLaws.QuietRun` | crates/punks-acp/src/acp.rs:1315-1732 | without a steer channel a run takes no steer, issues no id and never moves its hard deadline |
| `CallLaws.DrainAfterTimeout` | crates/punks-acp/src/acp.rs:954-985 | the drain after a timeout has deadline max(inherited, now + 30 s), and no traffic extends it |
| `CallLaws.HistoryReceiver` | crates/punks-acp/src/acp.rs:917-934 | over any history a steer receiver is installed exactly if it was installed and neither cleared nor taken by a read loop since |
| `CallLaws.SpawnedReceiver` | crates/punks-acp/src/acp.rs:917-934 | a freshly spawned client has none until one is installed |
| `CallLaws.DrainExtendsIff` | crates/punks-acp/src/acp.rs:954-1062 | after any history, the drain of a cancel can outlive its deadline exactly if a steer receiver is installed |
| `CallLaws.HistoryReports` | crates/punks-acp/src/acp.rs:777-1062 | over any history a prompt is in flight exactly if the last turn timed out and was not cancelled since, a cancel at any other time is refused, and no bounded cancel reports HardTimeout |
| `CallLaws.GraceNeverHardTimeout` | crates/punks-acp/src/acp.rs:998-1012 | the bounded cancel alters no result but HardTimeout |
| `CallLaws.DeliveryOnTheWire` | crates/punks-acp/src/acp.rs:1571-1606 | the delivery condition in terms of the JSON of the frame: id, no method, no error, and `/result/outcome` exactly `injected` or `startedNewTurn` |
| `WireLaws.OptionChosen` | crates/punks-acp/src/acp.rs:1957-1983 | a permission request is answered with the id of the first `allow_once` option; only if there is none, of the first `reject_once` one, or `reject` if that has none; the exact errors otherwise |
| `WireLaws.NoOptionsChosen` | crates/punks-acp/src/acp.rs:1947-1949 | without an array of options the request is an error |
| `WireLaws.PermissionOnTheWire` | crates/punks-acp/src/acp.rs:1934-2009 | the JSON of a permission request yields exactly one answer with the chosen option, or ends the loop with the request pending |
| `WireLaws.AllowOnceAnswered` | crates/punks-acp/src/acp.rs:1957-2009 | end to end: the first `allow_once` option's id is what goes out |
| `WireLaws.PermissionWithoutId` | crates/punks-acp/src/acp.rs:1936-1939 | a request without an id ends the loop and changes no field |
| `WireLaws.UnknownOnTheWire` | crates/punks-acp/src/acp.rs:1711-1725 | any other request is refused by name under its id, any other notification ignored |
| `WireLaws.UpdateOnTheWire` | crates/punks-acp/src/acp.rs:1748-1854 | the active run follows `activeRunId` of a session info update, string or null, and nothing else; a tool call restarts the idle clock |
| `WireLaws.IgnoredOnTheWire` | crates/punks-acp/src/acp.rs:1562-1727 | frames that are neither replies nor known methods only restart the idle clock |
| `WireLaws.SteerOnTheWire` | crates/punks-acp/src/acp.rs:1397-1486 | what a steer writes, under which id, method and run, and what it is acknowledged with if it cannot be written |
| `WireLaws.SteerReplyOnTheWire` | crates/punks-acp/src/acp.rs:1571-1670 | the ack and the hard deadline that the JSON of a steer reply leads to |
| `WireLaws.ReaderEnds` | crates/punks-acp/src/acp.rs:1532-1560 | end of file, an over-long line and a read error end the loop each with its error; blank and unparsable lines change nothing |
| `WireLaws.PromptReplyEnds` | crates/punks-acp/src/acp.rs:1675-1690 | the prompt's reply ends the loop with its result or error and releases the steer in flight |
| `WireLaws.DeadlineEnds` | crates/punks-acp/src/acp.rs:1365-1382 | a passed deadline ends the loop with the timeout of the nearer one |
| `WireLaws.SleepEnds` | crates/punks-acp/src/acp.rs:1487-1507 | so does sleeping to it with nothing to read and no steer to take |
| `WireLaws.StopReasonIff` | crates/punks-acp/src/acp.rs:61-76 | each stop reason is read exactly from its name, in either case |
| `WireLaws.PromptReport` | crates/punks-acp/src/acp.rs:818-838 | a prompt call reports the stop reason of the reply, the loop's error, or that the reply states none |
| `WireLaws.PromptWrites` | crates/punks-acp/src/acp.rs:794-811 | a prompt call writes its request once, first, under a fresh id |
| `WireLaws.CancelWrites` | crates/punks-acp/src/acp.rs:1014-1045 | a cancel answers the owed permission request with a cancellation, then notifies, and writes no more of either |
| `WireLaws.DrainTerms` | crates/punks-acp/src/acp.rs:954-1062 | which prompt, idle time-out and deadline each drain runs with, and what its timeout is reported as |
| `AcpClients.AcpClient.InstallSteerRx` | crates/punks-acp/src/acp.rs:917-924 | installs the receiver and changes nothing else |
| `AcpClients.AcpClient.ClearSteerRx` | crates/punks-acp/src/acp.rs:932-934 | clears the receiver and changes nothing else |
| `AcpClients.AcpClient.HandlePermissionRequest` | crates/punks-acp/src/acp.rs:1934-2009 | the permission fields and the log of writes end as specified on every error path |
| `AcpClients.AcpClient.SendSteer` | crates/punks-acp/src/acp.rs:1397-1486 | taking and writing a steer is the specified step: transport choice, id, pending entry or ack |
| `AcpClients.AcpClient.ReceiveSteerReply` | crates/punks-acp/src/acp.rs:1576-1670 | routing a steer reply is the specified step: ack and deadline |
| `AcpClients.AcpClient.DispatchFrame` | crates/punks-acp/src/acp.rs:1694-1727 | dispatching notifications and agent requests is the specified step |
| `AcpClients.AcpClient.HandleFrame` | crates/punks-acp/src/acp.rs:1562-1727 | handling a frame, replies before dispatch, is the specified step |
| `AcpClients.AcpClient.PollOnce` | crates/punks-acp/src/acp.rs:1350-1530 | one iteration of the loop is one step of the specification |
| `AcpClients.AcpClient.ReadUntilResponse` | crates/punks-acp/src/acp.rs:1315-1732 | the loop over mutable fields computes the specified run |
| `AcpClients.AcpClient.SessionPrompt` | crates/punks-acp/src/acp.rs:777-839 | the whole prompt call, with its result and all fields, is as specified |
| `AcpClients.AcpClient.CancelWithCleanupUntil` | crates/punks-acp/src/acp.rs:1014-1062 | the cancel sequence and its drain are as specified on every write failure |
| `AcpClients.AcpClient.CancelWithCleanup` | crates/punks-acp/src/acp.rs:954-989 | the inherited deadline is consumed and the cancel is as specified |
| `AcpClients.AcpClient.CancelWithCleanupGrace` | crates/punks-acp/src/acp.rs:998-1012 | the bounded cancel is as specified |
| `ConfigMerge.DeepMerge` | crates/punks-acp/src/acp.rs:222-242 | the in-place merge, over any order of the overlay's keys, gives the specified merge |
| `ConfigMerge.MergeAt` | crates/punks-acp/src/acp.rs:222-242 | the merge seen through every path: the base shows through exactly where the overlay falls off |
| `ConfigMerge.MergeLeaves` | crates/punks-acp/src/acp.rs:222-242 | every overlay leaf is kept, a base leaf survives exactly where its path falls off an overlay object, and no other leaf appears |
| `ConfigMerge.CoveredAddsNothing` | crates/punks-acp/src/acp.rs:222-242 | merging over a base changes nothing of the overlay exactly if the overlay has every key of the base at every shared depth |
| `ConfigMerge.MergeAssociatesIff` | crates/punks-acp/src/acp.rs:222-242 | the exact condition under which the grouping of three sources does not matter |
| `ConfigMerge.MergeNotAssociative` | crates/punks-acp/src/acp.rs:222-242 | three sources whose grouping matters |
| `ConfigMerge.ReadEntries` | crates/punks-acp/src/acp.rs:295-314 | the entries are parsed in order and the first failure is the one reported |
| `ConfigMerge.MergeEntries` | crates/punks-acp/src/acp.rs:316-320 | the entries are merged with later ones over earlier ones |
| `ConfigMerge.BuildCodexConfigEnv` | crates/punks-acp/src/acp.rs:271-359 | the whole builder, every error included, gives the specified configuration |
| `ConfigMerge.LastSourceDecides` | crates/punks-acp/src/acp.rs:271-359 | a leaf of the merge of any number of sources is that of the last source that does not fall off its path |
| `ConfigMerge.ForcedLeaves` | crates/punks-acp/src/acp.rs:341-359 | forcing network access changes exactly the leaves at or below that path |
| `ConfigMerge.BuiltConfig` | crates/punks-acp/src/acp.rs:271-359 | every built configuration grants network access, and its other leaves are exactly the parent's and those of an entry of the environment whose path every later entry and the parent fall off |
| `ConfigMerge.EntriesAppend` | crates/punks-acp/src/acp.rs:280-286 | an environment variable adds its value after the earlier ones exactly if it is named `CODEX_CONFIG` |
| `ConfigMerge.TextsPlaced` | crates/punks-acp/src/acp.rs:295-340 | each entry stands by its rank in the environment, the first is the persona's, and the parent's comes last |
| `ConfigMerge.DecidersPlaced` | crates/punks-acp/src/acp.rs:271-359 | which source decides a leaf, by its position in the environment |
| `ConfigMerge.NothingBuiltIff` | crates/punks-acp/src/acp.rs:276-293 | nothing is built exactly if nothing was generated or no variable is named `CODEX_CONFIG` |
| `ConfigMerge.FirstFailure` | crates/punks-acp/src/acp.rs:298-340 | the first text that is no JSON object is the one reported, with its source and reason |
| `ConfigMerge.BuildFails` | crates/punks-acp/src/acp.rs:341-356 | otherwise a build fails exactly if the merged sandbox setting is no object, and reports it |
| `Conditions.ParseDecimalIff` | crates/git-sign-nostr/src/lib.rs:632-650 | reading a decimal is the exact two-way inverse of printing on 0..=4294967295 |
| `Conditions.ReadClauseIff` | crates/git-sign-nostr/src/lib.rs:562-584 | a clause is accepted exactly if it is a printed valid clause |
| `Conditions.ValidateIff` | crates/git-sign-nostr/src/lib.rs:562-584 | the validator accepts exactly the printed lists of valid clauses |
| `Conditions.EnforceIff` | crates/git-sign-nostr/src/lib.rs:591-616 | on a valid list a time passes exactly if it is strictly above every lower and strictly below every upper bound |
| `Conditions.EnforceOnlyBounds` | crates/git-sign-nostr/src/lib.rs:591-625 | clause order, repetition and kind clauses make no difference |
| `Conditions.OneBound` | crates/git-sign-nostr/src/lib.rs:562-616 | the written bounds `created_at<n` and `created_at>n` mean strictly before and strictly after, and `kind=n` is valid up to 65535 |
| `Base64.AlphabetRuns` | crates/git-sign-nostr/src/lib.rs:938-941 | the standard alphabet |
| `Base64.GroupBits` | crates/git-sign-nostr/src/lib.rs:938-941 | four symbols spell the 24 bits of three bytes |
| `Base64.TailBits` | crates/git-sign-nostr/src/lib.rs:938-941 | the padded group spells the bits of one or two bytes |
| `Base64.EncodeAt` | crates/git-sign-nostr/src/lib.rs:938-941 | the groups stand in the order of the bytes |
| `Base64.EncodeShape` | crates/git-sign-nostr/src/lib.rs:938-941 | four symbols of the alphabet for every three bytes begun |
| `Base64.DecodeEncode` | crates/git-sign-nostr/src/lib.rs:1124-1133 | every byte string is read back from its encoding |
| `Base64.EncodeDecode` | crates/git-sign-nostr/src/lib.rs:1124-1133 | strict decoding accepts only the encoding of what it returns |
| `JsonText.HasNonStringWhitespace` | crates/git-sign-nostr/src/lib.rs:1704-1726 | the flag-updating scan finds white space outside strings exactly where the specification does |
| `JsonText.LooseSpaceIff` | crates/git-sign-nostr/src/lib.rs:1704-1726 | it is found exactly if some white space stands where an even number of unescaped quotes has been passed |
| `JsonText.ShortEscapes` | crates/git-sign-nostr/src/lib.rs:1348-1352 | what each short escape of a string stands for, and that no other is read |
| `JsonText.PrintedReads` | crates/git-sign-nostr/src/lib.rs:1348-1360 | every compact document, nested to any depth, is read back as its value |
| `JsonText.PrintedCompact` | crates/git-sign-nostr/src/lib.rs:1151-1160 | no compact document is rejected for white space |
| `Signature.PreimageIff` | crates/git-sign-nostr/src/lib.rs:895-916 | two preimages are equal exactly if time, attestation and payload are, or one payload spells the other's attestation |
| `Signature.PreimageUnique` | crates/git-sign-nostr/src/lib.rs:895-916 | for payloads that do not begin with 64 hexadecimal digits and a colon the preimage determines time, attestation and payload |
| `Signature.GitNeverSpells` | crates/git-sign-nostr/src/lib.rs:895-916 | a payload that is empty or starts with no hexadecimal digit is such a payload |
| `Signature.PreimageCollides` | crates/git-sign-nostr/src/lib.rs:895-916 | for every payload, a valid attestation and another payload with the same preimage |
| `Signature.PreimageText` | crates/git-sign-nostr/src/lib.rs:895-916 | the preimage letter by letter |
| `Signature.EnvelopeText` | crates/git-sign-nostr/src/lib.rs:924-935 | the envelope letter by letter |
| `Signature.ArmorForm` | crates/git-sign-nostr/src/lib.rs:938-941 | the armor letter by letter |
| `Signature.EnvelopeAscii` | crates/git-sign-nostr/src/lib.rs:924-935 | the envelope text is ASCII and at most 439 bytes longer than its conditions |
| `Signature.EnvelopeRoundTrip` | crates/git-sign-nostr/src/lib.rs:1348-1450 | every valid envelope is parsed back from its text, which is compact |
| `Signature.ParseArmorIff` | crates/git-sign-nostr/src/lib.rs:1468-1497 | the armor parser is the exact inverse of the armor printer |
| `Signing.TagBounds` | crates/git-sign-nostr/src/lib.rs:463-549 | an accepted auth tag is a valid attestation whose conditions fit the tag's size cap |
| `Signing.ParsedIsValid` | crates/git-sign-nostr/src/lib.rs:1348-1466 | whatever the envelope parser accepts is valid field by field |
| `Signing.EnvelopeParsedIff` | crates/git-sign-nostr/src/lib.rs:1348-1450 | the parser takes exactly the fields of a valid envelope, no more and no less |
| `Signing.TagAcceptedIff` | crates/git-sign-nostr/src/lib.rs:463-549 | exactly which auth tags are accepted, and as what |
| `Signing.SignsIff` | crates/git-sign-nostr/src/lib.rs:943-1080 | exactly which payloads, times and tags are signed, and the envelope that results |
| `Signing.StagesRefuse` | crates/git-sign-nostr/src/lib.rs:1099-1133 | what each stage up to base64 refuses |
| `Signing.DecodedRefused` | crates/git-sign-nostr/src/lib.rs:1135-1188 | what each later stage refuses |
| `Signing.VerdictIff` | crates/git-sign-nostr/src/lib.rs:1190-1275 | exactly when a well-formed file is rejected, bad or good, and each attestation status |
| `Signing.GenuineAttestation` | crates/git-sign-nostr/src/lib.rs:1504-1550 | the owner's signature over the agent's key and the conditions is accepted |
| `Signing.AttestsOneAgent` | crates/git-sign-nostr/src/lib.rs:1504-1550 | with cryptography that binds signatures to texts, one attestation attests one agent only |
| `Signing.ReadSignatureIff` | crates/git-sign-nostr/src/lib.rs:1099-1188 | the structural stages accept exactly the files of valid envelopes within the size cap, and yield that envelope |
| `Signing.AcceptedTextUnique` | crates/git-sign-nostr/src/lib.rs:1099-1188 | two accepted files that yield the same envelope are the same bytes |
| `Signing.SignedIsValid` | crates/git-sign-nostr/src/lib.rs:943-1080 | what signing emits is a valid envelope, and its size follows from the auth tag's cap |
| `Signing.SignedPasses` | crates/git-sign-nostr/src/lib.rs:943-1080 | it carries the signer's key, time and tag, and passes the key, signature and owner checks |
| `Signing.SignedVerifies` | crates/git-sign-nostr/src/lib.rs:943-1338 | for every payload, time, key and tag that signing accepts, verifying accepts the file, yields the same key, time and attestation, and reports the attestation valid |
| `Signing.GoodMeansSigned` | crates/git-sign-nostr/src/lib.rs:1190-1275 | a good verdict means the signature over exactly this time, attestation and payload verifies, and the attestation status is exact |
| `PromotionLaws.RunSound` | cloudflare/shared/promotion-faultable-do.ts:234-416 | every run of inject, recover, a recovery cut short before or after it stores, finalize, business changes at any time and erasure keeps the live and every restorable storage sound |
| `PromotionLaws.StoredFault` | cloudflare/shared/promotion-faultable-do.ts:193-355 | after any run the proofs are a prefix of the fixed order, sequence is their number plus one, the phase follows from it, the fence is closed exactly while unrecovered, and from the state before the injection on the fingerprint changes only at the session revocation |
| `PromotionLaws.ActiveFaultStays` | cloudflare/shared/promotion-faultable-do.ts:234-355 | while a fault is active no call changes its identity or bookmark or removes a recovery |
| `PromotionLaws.SameFaultWhileActive` | cloudflare/shared/promotion-faultable-do.ts:234-355 | over any number of calls during which a fault stays active, it keeps its identity and bookmark and its recoveries only grow |
| `PromotionLaws.ReplayIsIdempotent` | cloudflare/shared/promotion-faultable-do.ts:272-310 | replaying a recorded proof changes no storage, and returns the recorded state exactly if the identity is well formed and business state is what was last recorded; otherwise it is refused |
| `PromotionLaws.RecoverReplies` | cloudflare/shared/promotion-faultable-do.ts:291-354 | a reply is the recorded state of that proof, and for a new proof the current one, with the business state found |
| `PromotionLaws.RecoverRefusals` | cloudflare/shared/promotion-faultable-do.ts:272-327 | the exact condition of each refusal |
| `PromotionLaws.VerifyReplies` | cloudflare/shared/promotion-faultable-do.ts:316-327 | the exact condition of each failure of the last check |
| `PromotionLaws.InjectReplies` | cloudflare/shared/promotion-faultable-do.ts:234-269 | what an injection replies, first or repeated, and the exact condition of each refusal |
| `PromotionLaws.FinalizeReplies` | cloudflare/shared/promotion-faultable-do.ts:363-416 | what finalization replies and the exact condition of each refusal |
| `PromotionLaws.DrillReplies` | cloudflare/shared/promotion-faultable-do.ts:234-355 | each reply of a drill |
| `PromotionLaws.FrozenForever` | cloudflare/shared/promotion-faultable-do.ts:234-416 | once business state differs from what an active fault recorded, no calls of the controller ever change anything |
| `PromotionLaws.FrozenStep` | cloudflare/shared/promotion-faultable-do.ts:234-416 | under any call such a fault stays frozen unless business state returns to what was recorded or all storage is erased |
| `PromotionLaws.ProofsRecover` | cloudflare/shared/promotion-faultable-do.ts:272-355 | from any other active fault, the proofs still due, given in order, open the fence |
| `PromotionLaws.RecoverableIff` | cloudflare/shared/promotion-faultable-do.ts:234-416 | some calls of the controller open the fence of an active fault exactly if it is not frozen in that way |
| `PromotionLaws.FreezesIff` | cloudflare/shared/promotion-faultable-do.ts:272-355 | a call freezes a fault exactly if it moves the business state of an active fault without storing a proof: a recovery that fails or is lost after its hook or a drift moved it, or an operation that asks no fence |
| `PromotionLaws.RunFreezesIff` | cloudflare/shared/promotion-faultable-do.ts:234-416 | a run ends frozen exactly if one of its calls did that and no later one brought business state back or erased the record |
| `PromotionLaws.LogoutFreezes` | cloudflare/workers/auth/src/session-do.ts:602-618 | injecting a fault and then changing business state in any way freezes it |
| `PromotionLaws.SessionLossFreezes` | cloudflare/shared/promotion-faultable-do.ts:298-327 | in staging, a run for every session loss that ends frozen |
| `PromotionLaws.RecoveredIsFinal` | cloudflare/shared/promotion-faultable-do.ts:328-343 | a recovered record without a session loss is determined by identity and fingerprint |
| `PromotionLaws.FinalizeIdempotent` | cloudflare/shared/promotion-faultable-do.ts:363-416 | finalizing never overwrites a record; a second call changes nothing and replies the same |
| `PromotionLaws.Drill` | cloudflare/shared/promotion-faultable-do.ts:234-355 | inject and four ordered proofs: in staging the storage is as before the injection, elsewhere the record is the recovered one |
| `PromotionLaws.FinalizeAfterRestore` | cloudflare/shared/promotion-faultable-do.ts:363-416 | restore then finalize succeeds exactly if there was no record before, and then leaves the stepwise record up to the bookmark |
| `PromotionLaws.SecondDrillStuck` | cloudflare/shared/promotion-faultable-do.ts:363-416 | after one finalized drill, the next one on that authority is refused |
| `PromotionFault.PromotionFaultableDurableObject.RequirePromotionAuthorityAvailable` | cloudflare/shared/promotion-faultable-do.ts:193-201 | throws exactly while a stored fault is unrecovered |
| `PromotionFault.PromotionFaultableDurableObject.InjectPromotionFault` | cloudflare/shared/promotion-faultable-do.ts:234-269 | the new storage and the reply are as specified, every refusal included |
| `PromotionFault.PromotionFaultableDurableObject.RecoverPromotionFault` | cloudflare/shared/promotion-faultable-do.ts:272-355 | the new storage, restored storage and reply are as specified |
| `PromotionFault.PromotionFaultableDurableObject.FinalizePromotionAuthorityAfterPitr` | cloudflare/shared/promotion-faultable-do.ts:363-416 | the new storage and the reply are as specified |
| `Subscription.MatchedIff` | crates/punks-acp/src/filter.rs:368-460 | a rule is chosen exactly if it fits, with its filter if any enabled and true, and every earlier one does not fit or has an enabled filter that is false; anything else first means no match |
| `Subscription.EligibleIff` | crates/punks-acp/src/filter.rs:377-400 | a rule fits an event by its channel, its kinds and a `p` tag for the agent |
| `Subscription.ModeFilters` | crates/punks-acp/src/config.rs:1299-1330 | the filters of the Mentions and All modes, and which channels have one |
| `Subscription.MergedDistinct` | crates/punks-acp/src/config.rs:1340-1350 | a merged filter lists each kind once |
| `Subscription.Matcher.MatchEvent` | crates/punks-acp/src/filter.rs:368-460 | the rule loop yields that rule and its prompt tag, and updates the counters as specified |
| `Subscription.CountersTrackTimeouts` | crates/punks-acp/src/filter.rs:341-460 | over any stream each counter is its rule's number of timeouts since its last completed evaluation, and never exceeds 5 |
| `Subscription.DisabledForever` | crates/punks-acp/src/filter.rs:341-460 | at 5 a rule stays disabled, and every event that reaches it matches nothing |
| `Subscription.MergedMeans` | crates/punks-acp/src/config.rs:1316-1363 | what the merged filter says over all rules that apply to the channel |
| `Subscription.MergeApplicable` | crates/punks-acp/src/config.rs:1418-1457 | the accumulating loop computes the merged filter |
| `Subscription.TargetChannels` | crates/punks-acp/src/config.rs:1278-1300 | the target channels are exactly the discovered ones the allow list names |
| `Subscription.ResolveDynamicChannelFilter` | crates/punks-acp/src/config.rs:1380-1458 | the single-channel resolver gives the channel's filter in every mode |
| `Subscription.ResolveChannelFilters` | crates/punks-acp/src/config.rs:1278-1370 | in every mode the batch resolver has an entry for exactly the discovered channels with a filter, equal to the single-channel resolver's |
| `Subscription.FilterCoversMatching` | crates/punks-acp/src/config.rs:1460-1469 | in Config mode the channel of every matched event is subscribed, and its kinds and mention filter admit the event |
| `Subscription.ScopesAgreeIff` | crates/punks-acp/src/filter.rs:67-72 | matcher and filter agree on a rule's scope exactly unless it names the channel only in non-canonical form |
| `Subscription.DeafIff` | crates/punks-acp/src/filter.rs:368-400 | no event on a channel matches, for any outcome of the filters and no rule disabled, exactly if every rule that applies names it only in non-canonical form or lists only kinds above 65535 |
| `Subscription.SubscribedButDeafIff` | crates/punks-acp/src/config.rs:1460-1469 | a channel is subscribed and can match nothing exactly if some rule applies and all that do are of that kind |
| `Subscription.CapitalsAreDeaf` | crates/punks-acp/src/config.rs:1460-1469 | with real ids, a rule that writes its channel in capitals is an instance |
| `Subscription.LargeKindIsDeaf` | crates/punks-acp/src/filter.rs:383-386 | so is a rule for all channels whose only kind is 70000 |
| `UuidForms.ParseIff` | crates/punks-acp/src/config.rs:1460-1469 | the spellings an id is read from: digits or hyphenated digits of either case, the latter also in braces or as a URN |
| `UuidForms.ShownForm` | crates/punks-acp/src/filter.rs:67-72 | an id is printed in groups of 8, 4, 4, 4 and 12 digits |
| `UuidForms.StandardRoundTrips` | crates/punks-acp/src/filter.rs:67-72 | a printed id is read back, and so is its form in capitals |
| `PoolLifecycles.RetryDelayMeans` | crates/punks-acp/src/pool_lifecycle.rs:123-132 | the delay is min(5 * 2^(n-1), 300) for every 32-bit n >= 1, so it doubles up to the cap and no shift or product overflows |
| `PoolLifecycles.PoolLifecycle.StartWakeIfDue` | crates/punks-acp/src/pool_lifecycle.rs:37-58 | a token is issued exactly on a transition into Waking, and is the one waited for |
| `PoolLifecycles.PoolLifecycle.Take` | crates/punks-acp/src/pool_lifecycle.rs:60-68 | hands over the ready pool once; in any other state nothing changes |
| `PoolLifecycles.PoolLifecycle.Complete` | crates/punks-acp/src/pool_lifecycle.rs:99-120 | a result is accepted exactly for the outstanding token; otherwise nothing changes |
| `PoolLifecycles.PoolLifecycle.CancelWake` | crates/punks-acp/src/pool_lifecycle.rs:91-93 | cancelling is completing with an error |
| `PoolLifecycles.StartsIff` | crates/punks-acp/src/pool_lifecycle.rs:37-58 | exactly when a wake starts, and its token |
| `PoolLifecycles.CompletesIff` | crates/punks-acp/src/pool_lifecycle.rs:99-120 | exactly which results are accepted, and the pool or retry time they leave |
| `PoolLifecycles.RunSound` | crates/punks-acp/src/pool_lifecycle.rs:37-120 | in every run the k-th wake since a hand-over has token min(k, u32::MAX), wakes are spaced by their delays, each accepted result settles the wake of its position, and pools received = pools handed over, then the one held |
| `PoolLifecycles.TokensIncreaseIff` | crates/punks-acp/src/pool_lifecycle.rs:47-52 | of two wakes the later has the larger token exactly if the earlier is below saturation |
| `PoolLifecycles.WakesBackOff` | crates/punks-acp/src/pool_lifecycle.rs:37-120 | no wake starts before the first one's time plus all delays since |
| `PoolLifecycles.TokenAcceptedIff` | crates/punks-acp/src/pool_lifecycle.rs:99-109 | in every run a result is accepted exactly if a wake is outstanding and its token is the number of wakes since the last hand-over, saturated; otherwise it changes nothing |
| `PoolLifecycles.AcceptedIff` | crates/punks-acp/src/pool_lifecycle.rs:99-109 | the result of any earlier wake, before or after a hand-over, is accepted exactly if the outstanding wake has the same number in its hand-over, saturated; within one hand-over that is the wake itself |
| `PoolLifecycles.TokensRestart` | crates/punks-acp/src/pool_lifecycle.rs:60-68 | a run in which a late result from before a hand-over is taken for a new wake |
| `SttTap.SttTapProcessor.Process` | desktop/public/worklet.js:34-65 | a quantum over the mutable buffer does what the specification says, a throw included |
| `SttTap.SttTapProcessor.OnPtt` | desktop/public/worklet.js:27-31 | the handler sets the gate and touches no sample |
| `SttTap.OpenQuantum` | desktop/public/worklet.js:45-62 | a chunk of any length throws exactly if it and what is held exceed two frames, and otherwise nothing is lost |
| `SttTap.ClosedQuantum` | desktop/public/worklet.js:35-43 | a gated quantum drops what is held, one without a channel does nothing |
| `SttTap.FramesAreBlocks` | desktop/public/worklet.js:18-65 | in every run on chunks of at most 960 samples nothing throws, the posted frames are the whole 960-sample blocks of each ungated stretch in order, and the buffer holds the rest of the current one |
| `SttTap.BlocksRejoin` | desktop/public/worklet.js:46-62 | the blocks of a stretch and its rest are the stretch: nothing lost, repeated or reordered |
| `SttTap.NeverThrowsIff` | desktop/public/worklet.js:46-62 | runs on chunks of at most c samples never throw exactly if c <= 960 |
| `Unicode.DecodeEncode` | perf/relay_bus_scaling.py:110-147 | UTF-8 decoding gives back every encoded text |
| `Resp.EncodeCommand` | perf/relay_bus_scaling.py:110-117 | the appending loop prints the command frame |
| `Resp.IntReads` | perf/relay_bus_scaling.py:136-147 | Python's `int` gives back every printed integer |
| `Resp.Stream.TakeLine` | perf/relay_bus_scaling.py:120-126 | consumes one line and strips its terminator, or fails, as specified |
| `Resp.Stream.ReadResp` | perf/relay_bus_scaling.py:129-153 | the recursive reader returns or raises as specified and leaves exactly the specified bytes |
| `Resp.ReadLineIff` | perf/relay_bus_scaling.py:120-126 | a line is read exactly if it ends in CR LF at the first newline; a closed stream is told apart from a bad line |
| `Resp.SpaceIgnored` | perf/relay_bus_scaling.py:136-147 | white space around an integer is ignored |
| `Resp.UnderscoreIgnored` | perf/relay_bus_scaling.py:136-147 | so is a single underscore between its digits |
| `Resp.SignsRead` | perf/relay_bus_scaling.py:136-147 | a sign may come first |
| `Resp.ErrorReads` | perf/relay_bus_scaling.py:135-136 | an error reply raises its text and is consumed |
| `Resp.NegativeLengths` | perf/relay_bus_scaling.py:139-152 | a negative length other than -1 is an empty array and no bulk string |
| `Resp.BulkRefused` | perf/relay_bus_scaling.py:139-147 | a bulk string cut short, wrongly ended or not UTF-8 is refused, and what is consumed |
| `Resp.NoReply` | perf/relay_bus_scaling.py:130-153 | a closed stream and an unknown prefix are refused |
| `Resp.ReadLocal` | perf/relay_bus_scaling.py:129-153 | what is read never depends on the bytes after it |
| `Resp.TruncatedFails` | perf/relay_bus_scaling.py:129-153 | no proper beginning of a value reads as a value |
| `Resp.SentReads` | perf/relay_bus_scaling.py:129-153 | every error-free protocol value, nested to any depth, is read back and no byte beyond it is taken |
| `Resp.CommandReads` | perf/relay_bus_scaling.py:110-153 | an encoded command reads back as its arguments, of any length and content |
| `Resp.CommandsRead` | perf/relay_bus_scaling.py:110-153 | any concatenation of commands reads back in order and leaves exactly the remaining bytes |
| `Resp.CommandUnique` | perf/relay_bus_scaling.py:110-117 | no encoded command is a proper prefix of another, and equal bytes mean equal arguments |

## Left out

- ACP: process spawning and shutdown, stdio framing, logging and observers, usage tracking, and the requests outside a turn (`initialize`, `session/new`, model switching and the catalogue check).
- ACP: a write either completes or fails; the log of the wire holds completed writes, not the bytes of a failed one. Dropping a prompt call while it waits is not modelled, nor is overflow of the 64-bit id counter or of instants.
- ACP: `session/cancel` is tagged in the log with the prompt it is for; on the wire it names only the session. Error texts are reduced to their kind.
- AcpClients.AcpClient.InstallSteerRx: the source panics when a receiver is already installed; the model makes that a precondition.
- `CODEX_CONFIG`: the JSON parser is a parameter of the builder, and the result is the object rather than its printed text.
- Git signatures: SHA-256, BIP-340 and key parsing are abstract; key and key-id loading, file descriptors, trust level, status lines, dates and the best-effort key extraction for error lines are not modelled.
- Git signatures: the JSON reader has no depth limit (the library stops at 128), does not give the value of a fraction or an exponent, and the envelope parser's error texts are reduced to failure.
- Promotion faults: identity syntax, fingerprints and bookmarks are abstract; injection and finalization are single steps, whereas a recovery can be interleaved with business changes; finalization stores its input with an extra `proof` property, which the model drops. Probing and observing a fault only read and are not modelled.
- Subscriptions: a filter expression evaluates to true, false, timeout or error, chosen by the environment; concurrent dispatch, in which a late reset can undo a disabling, is not modelled. The text of channel ids is a parameter, for which printing then parsing is assumed to be the identity; `UuidForms.STANDARD` is the one the UUID library has, modelled from RFC 9562 and the spellings that library documents. Configuration and command-line parsing are not modelled.
- Agent pool: overflow of instants, and the accessors, which only read.
- Audio: samples are real numbers, since they are only copied; a processor that threw is not called again.
- Redis codec: arguments are texts (converting other objects with `str` is not modelled), the stream is the bytes until it closes, without time-outs, nesting is unlimited, and `int` has no digit limit. A length beyond the platform's size type is a `ValueError` here and an `OverflowError` in Python.
- The relay, its database and search, the desktop, mobile and web applications, the admin tools, the release scripts and the benchmarks: interfaces, plumbing or behaviour of other systems.
