# A verified model of the gateway's decision core

This project models the state machines that decide, in the gateway, what a response cost, which WebSocket bytes pass,
who is authenticated, how fast a source may call, what a stack of policies permits, and what a guardrail changes. Each
part is a model of the code in `gateway-core` or `gateway-proxy` together with proofs, for every input or every run, of
what that code is for. `dafny verify dfyconfig.toml` checks all of it.

Where the source updates an object in place (`Observer`, `FrameLimit`, `ConnectionLimits`, `Cache`, `Table`,
`RequestAdmission`, `Redaction`, `Executor`) the model has a class with the same fields; each of its methods is proved
equal to a step of a pure specification, and the theorems are about that specification. Loops over values that build a
result (`ResolveEffectivePolicy`, `SumBatch`, `ResolvePlan`, `SelectProvider`, …) are methods proved against a function
or against the property itself.

## The parts

* **Response cost** (`Numerals`, `NumeralValues`, `JsonStrings`, `JsonDocuments`, `CostObserver`, `CostObserverReads`,
  `CostObserverAccepts`, `ResponseCost`). A byte-at-a-time observer of a JSON response keeps no payload. JSON texts are
  trees that keep every byte, so "some tree has this text" is RFC 8259 (sections 2 to 7) with the UTF-8 of section 4 of
  RFC 3629, without reference to the observer. The observer accepts exactly the texts of objects with at most 128 open
  containers and paired surrogate escapes, and then reports the cost that a complete parse finds, with later duplicate
  keys replacing earlier ones. Numbers become floats through an arbitrary `Decoder`. When its parsers charge a numeral
  for the number it denotes, the reported cost is the one by value, unless truncation harms a numeral at one of the six
  places; which numerals those are is said exactly.
* **WebSocket frames and leases** (`FrameLimits`, `ConnectionLeases`). Streams are sequences of frames encoded per
  sections 5.1, 5.2, 5.4 and 5.5 of RFC 6455; the limiter is compared with that encoding and with a reader that never
  skips. Leases are runs of acquire and drop events.
* **Key authentication** (`VerificationCache`, `VerificationFlights`, `KeyAuthentication`, `KeyOutcomes`). Requests, shared secret
  checks, the proof cache and store edits interleave freely; theorems are over every state of every run, and say exactly
  which step ends a request and how.
* **Source admission** (`SourceAdmission`). A token bucket per source in exact arithmetic, against a reference that
  never prunes.
* **Policies and output caps** (`Policies`, `OutputCaps`). The fold over layers against the set-theoretic meet, and
  what passing a cap means for a body whose objects may repeat keys.
* **Guardrails and providers** (`Placeholders`, `PiiRedaction`, `PiiRoundTrip`, `Guardrails`, `GuardrailExecution`,
  `ProviderChoice`). Redaction and restoration as inverse functions, plans, their execution by arbitrary handlers and
  by the handlers that the gateway registers, and provider choice.

## Where a plausible property fails

* Restoring redacted text does not always give back the text: "a@b.c [EMAIL_1]" comes back as "a@b.c a@b.c"
  (`SpelledPlaceholderIsLost`). `RestoreUndoesRedact` says exactly when it does: no string of the value spells out a
  placeholder whose number is within the count of matches.
* A frame limiter bounds fragmented messages, as the comment at `accessa_transport.rs:67` promises, if and only if its
  limit is below 2^64 - 1 (`LimitBindsExactly`): there the sum of fragments saturates and a message of 3·(2^63 - 1) bytes
  passes, masked or not (`SaturatedLimitIsVoid`). That limit reaches `FrameLimit::new` only by its type. Both callers
  pass settings that are held to 125..=16,777,216 (`endpoint_access.rs:50` and `endpoint_access.rs:230`; `websocket.rs:61`
  validates before the limiter is made), so every limiter they make does bound its messages.
* A layer after the first whose allowed hours all lie outside 0 to 23 loses its restriction in the merge
  (`OutOfRangeHoursVanish`). `EffectiveIsMeetOfStated` is exact: at every hour of the day the layers as stated all pass
  and share elements if and only if the effective policy passes and no later layer lost all of its hours. Such hours are
  an input of `resolve_effective_policy` alone: the policy patches of the store and of the API refuse any hour outside
  0 to 23 (`gateway-store/src/postgres.rs:5631-5637`, `gateway-api/src/app.rs:3488-3491`), so no admin call stores one.
* After an entry has left the single-flight table a waiter need not have a result or a closed channel yet.
  `RemovedFlightsWake` says exactly when it does not: the leader is within its drop, the sender not yet dropped, and it
  never published. `GapIsReached` is such a state and `ClosingEndsTheGap` shows that exactly the close ends it. The code
  publishes before it drops the leader (`verification_flight.rs:151-152`), so only a panic or a shutdown opens the gap.
* A numeral of more than 128 bytes is not always charged for its number: of 129 ones the last 65 are lost
  (`OnesAreCut`). The kept decimal is the number if and only if the number is zero, or the written exponent is at most
  10^9 and every digit after the first 64 significant ones is 0 (`KeptIsTheNumber`); without rounding, exactly these
  long numerals are charged for what they denote (`ChargedByValueExactly`).

## Model

| member | source | states |
|---|---|---|
| `ResponseCost.AcceptsExactlyObjectTexts` | crates/gateway-core/src/response_cost.rs:182-451 | a body is not rejected if and only if it is the text of one JSON object, whitespace around it, at most 128 containers open at once |
| `ResponseCost.ReportsTheParsedCost` | crates/gateway-core/src/response_cost.rs:182-206 | for every tree with that text the reported cost is the first finite positive value in the order of the six places, later duplicates replacing earlier ones and each numeral read as the observer reads it; a rejected body has no cost |
| `ResponseCost.ReportsTheCostByValue` | crates/gateway-core/src/usage.rs:207-222 | when the parsers charge a numeral for the number it denotes, the reported cost is that of the tree with every number read by value, unless truncation harms a numeral at one of the six places |
| `ResponseCost.ReportsTheFirstOffer` | crates/gateway-core/src/response_cost.rs:201-206 | the parsed cost is x exactly if some place of the six, written out, has a numeral that reads as finite x > 0 and no place before it has one; there is none exactly if no place has |
| `ResponseCost.RunBounded` | crates/gateway-core/src/response_cost.rs:182-192 | over every run at most 128 frames, paths of 2 names, 256 key bytes, 129 scalar bytes and 64 digits are retained |
| `ResponseCost.StepBounded` | crates/gateway-core/src/response_cost.rs:212-467 | each byte keeps these bounds |
| `ResponseCost.ObserveChunks` | crates/gateway-core/src/response_cost.rs:182-206 | feeding any chunks and finishing accepts exactly the object texts and reports the cost of the first of the six places that offers a finite positive one, which is also the cost by value |
| `ResponseCost.Observer.Feed` | crates/gateway-core/src/response_cost.rs:182-192 | a chunk leaves the state that its bytes leave one at a time, and nothing changes after a failure |
| `ResponseCost.Observer.Finish` | crates/gateway-core/src/response_cost.rs:194-199 | the end of input settles a pending scalar and fails unless the object is complete |
| `ResponseCost.Observer.Cost` | crates/gateway-core/src/response_cost.rs:201-206 | the first charged place in priority order, nothing for a failed or unfinished body |
| `ResponseCost.Observer.ConsumeToken` | crates/gateway-core/src/response_cost.rs:212-320 | the token in progress takes the byte or ends before it, as the specification's step says |
| `ResponseCost.Observer.StringByte` | crates/gateway-core/src/response_cost.rs:225-317 | a byte of a string advances its escape, surrogate and UTF-8 counters and its bounded key buffer |
| `ResponseCost.Observer.CloseKey` | crates/gateway-core/src/response_cost.rs:282-297 | a closed key names the next value of the innermost frame, which always exists |
| `ResponseCost.Observer.ValuePath` | crates/gateway-core/src/response_cost.rs:322-348 | the collapsed path of the value about to be read, if one may be; readings at or below it are forgotten |
| `ResponseCost.Observer.Forget` | crates/gateway-core/src/response_cost.rs:334-346 | every place at or below the path is emptied and no other, and whether there is one is told |
| `ResponseCost.Observer.StructuralByte` | crates/gateway-core/src/response_cost.rs:350-451 | a byte outside tokens moves the frames as the grammar's step says |
| `ResponseCost.Observer.InsideByte` | crates/gateway-core/src/response_cost.rs:372-450 | the same inside an open container |
| `ResponseCost.Observer.Open` | crates/gateway-core/src/response_cost.rs:395-415 | an opening bracket pushes a frame or fails at 128 |
| `ResponseCost.Observer.OpenQuote` | crates/gateway-core/src/response_cost.rs:377-394 | a quote opens a key, which is buffered, or a value, which is not, as the frame expects, and fails where neither may stand |
| `ResponseCost.Observer.BeginScalar` | crates/gateway-core/src/response_cost.rs:439-448 | the first byte of a scalar begins it where a value may stand |
| `ResponseCost.Observer.FinishScalar` | crates/gateway-core/src/response_cost.rs:453-467 | an ended scalar is charged to the place of its path or fails |
| `CostObserverReads.DocumentIsRead` | crates/gateway-core/src/response_cost.rs:182-206 | every rendering of every object tree within 128 containers is read unfailed and leaves the costs of the tree, each numeral read as the observer reads it |
| `CostObserverReads.ReadValue` | crates/gateway-core/src/response_cost.rs:350-467 | from any state that expects a value, the text of any value is read and charges, under its path, what the value denotes |
| `CostObserverReads.ReadMembers` | crates/gateway-core/src/response_cost.rs:350-451 | members of an object in turn charge what the object denotes when later duplicates replace earlier ones |
| `CostObserverReads.ReadItems` | crates/gateway-core/src/response_cost.rs:350-451 | items of an array charge nothing |
| `CostObserverReads.CollapseKeepsTargets` | crates/gateway-core/src/response_cost.rs:322-348 | collapsing a path loses nothing: each of the six places depends on it as before |
| `CostObserverReads.KeyChoosesTarget` | crates/gateway-core/src/response_cost.rs:282-297 | a key dropped for its length leads to the same places as its real name |
| `CostObserverReads.SlotsAreEstimates` | crates/gateway-core/src/usage.rs:207-222 | the six readings are what a complete parse finds at the six places |
| `CostObserverReads.CostIsByValue` | crates/gateway-core/src/usage.rs:207-222 | the six-place search gives the same cost whether numerals are read as the observer reads them or by value, if the numerals at the six places are unharmed |
| `CostObserverReads.CostsAtNumerals` | crates/gateway-core/src/usage.rs:207-222 | what is found at a path of keys is the reading of the last numeral written there |
| `CostObserverAccepts.AcceptedIsDocument` | crates/gateway-core/src/response_cost.rs:182-199 | an unrejected body is the text of a well-formed object tree, which the lemma returns |
| `CostObserverAccepts.ReadByte` | crates/gateway-core/src/response_cost.rs:212-451 | every unrejected byte extends a partial tree whose text is exactly what has been read |
| `JsonStrings.StepAdvances` | crates/gateway-core/src/response_cost.rs:233-317 | an unrejected byte of a string is one byte more of a well-formed spelling |
| `JsonStrings.ReadsAll` | crates/gateway-core/src/response_cost.rs:225-317 | every well-formed spelling, of any escapes and UTF-8, is read without an error |
| `JsonStrings.ClosesString` | crates/gateway-core/src/response_cost.rs:282-297 | the closing quote closes the string with the buffer of the whole text |
| `JsonStrings.DecodeText` | crates/gateway-core/src/response_cost.rs:287-289 | decoding the text of a string gives back the string that was spelled |
| `JsonStrings.KeyIsRead` | crates/gateway-core/src/response_cost.rs:236-297 | a key within the buffer is decoded to its name |
| `JsonStrings.DroppedKeyIsLong` | crates/gateway-core/src/response_cost.rs:236-242 | a key whose text overflowed the buffer is none of the names that matter |
| `Numerals.RecognisesScalars` | crates/gateway-core/src/response_cost.rs:91-140 | a scalar is valid if and only if it is an RFC 8259 number or one of the three literal names |
| `Numerals.NumeralIsRead` | crates/gateway-core/src/response_cost.rs:91-132 | reading any prefix of a numeral leaves its state, digits, counts and exponent |
| `Numerals.UnrejectedIsNumeral` | crates/gateway-core/src/response_cost.rs:91-132 | what is not rejected is a prefix of a numeral |
| `Numerals.CostIsDecoded` | crates/gateway-core/src/response_cost.rs:142-168 | the cost of a numeral is the decoding of its whole text, or beyond 128 bytes of its kept decimal, if finite and positive |
| `Numerals.KeptDecimalBrackets` | crates/gateway-core/src/response_cost.rs:91-168 | with d the kept digits and e the computed exponent, d·10^e ≤ value < (d+1)·10^e, with equality when nothing was omitted |
| `Numerals.KeptDecimalZero` | crates/gateway-core/src/response_cost.rs:91-168 | the kept decimal is zero exactly when the number is, whatever its exponent |
| `NumeralValues.KeptIsTheNumber` | crates/gateway-core/src/response_cost.rs:91-168 | the kept decimal is the number if and only if the number is zero, or its exponent is at most 10^9 and every omitted digit is 0 |
| `NumeralValues.OnesAreCut` | crates/gateway-core/src/response_cost.rs:108-129 | 129 ones are a numeral whose kept decimal is not its number |
| `NumeralValues.UnharmedIsReadByValue` | crates/gateway-core/src/response_cost.rs:142-168 | a numeral of at most 128 bytes, or whose kept decimal is its number, is charged for the number it denotes |
| `NumeralValues.ChargedByValueExactly` | crates/gateway-core/src/response_cost.rs:142-168 | without rounding a positive numeral is charged for its number if and only if it is one of these |
| `NumeralValues.EveryReadingHasADecoder` | crates/gateway-core/src/response_cost.rs:142-168 | for every way of reading numbers by value there are parsers of whole numerals and of kept decimals that do so |
| `NumeralValues.TextDetermines` | crates/gateway-core/src/response_cost.rs:91-132 | a numeral is determined by its text |
| `FrameLimits.AcceptsExactlyLegalStreams` | crates/gateway-proxy/src/accessa_transport.rs:92-155 | a stream is accepted and ends between frames if and only if it encodes a legal sequence of frames: mask, reserved bits, minimal lengths, fragmentation order, control frames, frame and message limits |
| `FrameLimits.CountsFrames` | crates/gateway-proxy/src/accessa_transport.rs:92-155 | the frame count and close flag are those of the encoded frames, of which there are fewer than 2^64 |
| `FrameLimits.LimitBindsExactly` | crates/gateway-proxy/src/accessa_transport.rs:130-148 | every message of every legal stream is within the limit if and only if the limit is below 2^64 - 1, for masked and unmasked limiters |
| `FrameLimits.MessagesAreBounded` | crates/gateway-proxy/src/accessa_transport.rs:130-148 | below 2^64 - 1, no message of a legal stream exceeds the limit |
| `FrameLimits.SaturatedLimitIsVoid` | crates/gateway-proxy/src/accessa_transport.rs:130-148 | at 2^64 - 1 a stream of three fragments of 2^63 - 1 bytes each is legal and accepted to its end, with any mask |
| `FrameLimits.RefusalsAreToldApart` | crates/gateway-proxy/src/accessa_transport.rs:119-143 | after a legal stream a header is refused as too large exactly for its own bits and sizes or a message grown too long in order, and as malformed exactly if it is good but out of order |
| `FrameLimits.RefusedAtItsHeader` | crates/gateway-proxy/src/accessa_transport.rs:92-155 | a legal stream followed by a header is judged at the last byte of that header |
| `FrameLimits.RunConcat` | crates/gateway-proxy/src/accessa_transport.rs:92-155 | any chunking leaves the state and verdict of one feed |
| `FrameLimits.RunSkip` | crates/gateway-proxy/src/accessa_transport.rs:94-99 | skipping payload in bulk is skipping it byte by byte |
| `FrameLimits.RejectionIsFinal` | crates/gateway-proxy/src/accessa_transport.rs:92-155 | after a rejection every further non-empty feed is rejected |
| `FrameLimits.HeaderIsBounded` | crates/gateway-proxy/src/accessa_transport.rs:100-114 | until a rejection at most 13 header bytes wait for the next |
| `FrameLimits.FrameLimit.Feed` | crates/gateway-proxy/src/accessa_transport.rs:92-155 | the loop over the shrinking slice gives the byte-by-byte state and verdict |
| `FrameLimits.FrameLimit.FinishHeader` | crates/gateway-proxy/src/accessa_transport.rs:119-152 | a complete header is admitted or refused as the reference judges it |
| `FrameLimits.FrameLimit.ReadSize` | crates/gateway-proxy/src/accessa_transport.rs:105-118 | the size that a header announces, from its 7, 16 or 64 bits |
| `ConnectionLeases.LeasesAreExactAndBounded` | crates/gateway-proxy/src/accessa_transport.rs:14-65 | in every state of every run, whatever limits its calls name, counts equal live leases, no zero entry remains and the total is at most 4096 |
| `ConnectionLeases.LimitsHold` | crates/gateway-proxy/src/accessa_transport.rs:14-65 | routes and keys stay within any bounds that the limits named by the calls so far stay within; with limits fixed per service, within those limits |
| `ConnectionLeases.TotalIsLive` | crates/gateway-proxy/src/accessa_transport.rs:14-65 | in every state of every run the total is the number of live leases |
| `ConnectionLeases.ReleaseNeverUnderflows` | crates/gateway-proxy/src/accessa_transport.rs:54-65 | the entry of a live lease is present with a positive count |
| `ConnectionLeases.TotalTaken` | crates/gateway-proxy/src/accessa_transport.rs:26-41 | taking a lease adds one to the total |
| `ConnectionLeases.RouteTaken` | crates/gateway-proxy/src/accessa_transport.rs:27-41 | taking a lease adds one to its route's total and to no other |
| `ConnectionLeases.ConnectionLimits.Acquire` | crates/gateway-proxy/src/accessa_transport.rs:15-46 | a lease is granted and counted if and only if fewer than 4096 are counted in all, fewer than the route limit for the service and fewer than the key limit for the entry |
| `ConnectionLeases.ConnectionLimits.Release` | crates/gateway-proxy/src/accessa_transport.rs:54-65 | a drop takes one off its entry, and the entry with the last |
| `ConnectionLeases.ConnectionLimits.SumCounts` | crates/gateway-proxy/src/accessa_transport.rs:26-31 | the loop over the map, in any order, computes the sum over a family of keys |
| `KeyAuthentication.SuccessIsJustified` | crates/gateway-core/src/auth.rs:182-247 | in every run a granted record was read from the store during the call, was unrevoked, enabled and unexpired at the read, and its hash verifies the presented secret |
| `KeyAuthentication.ColdReadFollowsCheck` | crates/gateway-core/src/auth.rs:202-223 | on the cold path a step before that read checked the secret against the same id and hash |
| `KeyAuthentication.WarmGrantIsFresh` | crates/gateway-core/src/auth.rs:199-225 | on the warm path a step stored that very proof in the cache, and the cache was asked, after the record was read, less than 60 s later |
| `KeyAuthentication.CachedByAStep` | crates/gateway-core/src/verification_cache.rs:55-70 | every proof in the cache was stored by a step of the run at the time the cache has for it |
| `KeyAuthentication.CheckedByAStep` | crates/gateway-core/src/verification_flight.rs:134-158 | a proof counts as checked only from a step in which its secret matched its hash |
| `KeyAuthentication.FlightsStaySafe` | crates/gateway-core/src/verification_flight.rs:50-158 | the single-flight invariants hold throughout the whole protocol |
| `KeyAuthentication.AlwaysShared` | crates/gateway-core/src/verification_flight.rs:134-158 | in every state cached proofs, results and jobs hold only what a successful check established |
| `KeyAuthentication.AlwaysKnown` | crates/gateway-core/src/auth.rs:182-234 | in every state each request is at a point justified by an earlier read and check |
| `KeyOutcomes.DenialsAreExact` | crates/gateway-core/src/auth.rs:182-247 | in every state of every run a request is denied with an error exactly if one of its steps denied it so: no record, a record revoked, else disabled, else expired, another id or hash at the second read, a check that ended invalid or overloaded, no room or no time |
| `KeyOutcomes.GrantsAreExact` | crates/gateway-core/src/auth.rs:199-232 | and granted exactly if one of its steps found its proof under 60 s old in the cache, or its second read was usable with the same id and hash |
| `KeyOutcomes.InvalidIsJustified` | crates/gateway-core/src/auth.rs:205-221 | a key is called invalid only if a record was missing or changed, or an earlier check of exactly this secret against exactly this record failed or panicked |
| `KeyOutcomes.RightKeysGetIn` | crates/gateway-core/src/auth.rs:182-233 | for every usable stored record whose hash verifies the secret there is a run from an empty cache to a cold grant of it, with and without the cache |
| `KeyOutcomes.StepSettles` | crates/gateway-core/src/auth.rs:182-247 | each step of a request leaves a denial or a grant exactly as its cause, by the fields of the records, says |
| `VerificationFlights.AlwaysSafe` | crates/gateway-core/src/verification_flight.rs:50-158 | in every state of every run table entries and live leaders match by proof, at most 10 flights, 63 followers each, 64 in all, used permits equal follower waits |
| `VerificationFlights.NextIsSafe` | crates/gateway-core/src/verification_flight.rs:50-158 | each step keeps these invariants |
| `VerificationFlights.JoinDecides` | crates/gateway-core/src/verification_flight.rs:63-113 | a join follows exactly if the proof is listed, fewer than 64 followers wait in all and fewer than 63 on that flight, and leads exactly if it is not listed and fewer than 10 are |
| `VerificationFlights.RemovedFlightsWake` | crates/gateway-core/src/verification_flight.rs:50-60 | once a flight has left the table a waiter of it cannot wake if and only if its leader is still within its drop and never published |
| `VerificationFlights.ResultIsPublished` | crates/gateway-core/src/verification_flight.rs:148-152 | in every state of every run a flight has a result if and only if its leader published one in an earlier step |
| `VerificationFlights.ClosingEndsTheGap` | crates/gateway-core/src/verification_flight.rs:50-60 | a waiter left without a result by a leader within its drop can wake again exactly from the step that drops the sender |
| `VerificationFlights.GapIsReached` | crates/gateway-core/src/verification_flight.rs:50-60 | a run in which a leader drops without a result reaches a state where its waiter can not wake |
| `VerificationFlights.Table.JoinFlight` | crates/gateway-core/src/verification_flight.rs:63-113 | a join follows, leads or is refused, and a permit taken before a refusal is given back |
| `VerificationFlights.Table.DropLeader` | crates/gateway-core/src/verification_flight.rs:50-60 | a leader's drop removes its own entry and closes its channel |
| `VerificationFlights.Table.Poll` | crates/gateway-core/src/verification_flight.rs:117-131 | a waiter gets the result or learns of the closed channel, and then its permit is free |
| `VerificationCache.HoldsExactlyTheRecent` | crates/gateway-core/src/verification_cache.rs:30-71 | after any chronological calls the cache holds exactly the proofs last inserted under 60 s ago with fewer than 1024 effective insertions since |
| `VerificationCache.RemembersExactly` | crates/gateway-core/src/verification_cache.rs:49-53 | the same for any state consistent with its log |
| `VerificationCache.ReplayConsistent` | crates/gateway-core/src/verification_cache.rs:30-71 | queue and map have the same keys without duplicates, and timestamps are sorted along the queue |
| `VerificationCache.AddKeeps` | crates/gateway-core/src/verification_cache.rs:55-70 | insertion keeps the state consistent with the log and leaves the proof present |
| `VerificationCache.MaintainKeeps` | crates/gateway-core/src/verification_cache.rs:40-48 | maintenance keeps the state consistent with the log |
| `VerificationCache.Cache.InsertProof` | crates/gateway-core/src/verification_cache.rs:55-70 | the eviction loops and the insertion give the specified entries |
| `VerificationCache.Cache.PurgeExpired` | crates/gateway-core/src/verification_cache.rs:40-48 | the loop removes the expired front of the queue |
| `VerificationCache.Cache.RemoveFront` | crates/gateway-core/src/verification_cache.rs:31-38 | the oldest proof leaves queue and map |
| `SourceAdmission.PruningIsInvisible` | crates/gateway-core/src/auth_admission.rs:85-120 | on all calls not refused for room the decisions equal those of a limiter that never prunes, and there are never more than 4096 buckets |
| `SourceAdmission.RefusalEvictsNobody` | crates/gateway-core/src/auth_admission.rs:94-105 | a call refused for room adds nothing and removes only buckets that were idle and full |
| `SourceAdmission.CallDecides` | crates/gateway-core/src/auth_admission.rs:94-119 | by numbers alone: refused for room exactly if new with 4096 buckets left after pruning; else admitted exactly if min(tokens + elapsed·rps, burst), or the burst for a new source, is at least 1, taking exactly one token if admitted and none if not |
| `SourceAdmission.BurstIsGranted` | crates/gateway-core/src/auth_admission.rs:106-118 | in every run a source admitted at most burst - 1 times so far is not rate limited |
| `SourceAdmission.SilenceIsRewarded` | crates/gateway-core/src/auth_admission.rs:110-118 | in every run a source silent for at least 1/rps seconds is not rate limited |
| `SourceAdmission.SharedBuckets` | crates/gateway-core/src/auth_admission.rs:86-89 | peers share a bucket exactly if equal or one is the IPv4-mapped IPv6 form of the other |
| `SourceAdmission.WindowIsBounded` | crates/gateway-core/src/auth_admission.rs:94-118 | calls within d seconds admit a source at most burst + rps·d times, across any pruning |
| `SourceAdmission.WindowSpends` | crates/gateway-core/src/auth_admission.rs:94-118 | admitted calls plus the level left never exceed the level before plus what was earned |
| `SourceAdmission.ReplayAgrees` | crates/gateway-core/src/auth_admission.rs:85-120 | after every sequence of calls both limiters see the same level for every source |
| `SourceAdmission.RequestAdmission.CheckSource` | crates/gateway-core/src/auth_admission.rs:85-120 | the in-place check gives the specified buckets and decision |
| `SourceAdmission.RequestAdmission.New` | crates/gateway-core/src/auth_admission.rs:49-65 | a limiter with exactly these rates and no buckets, refused if and only if a rate is outside 1 to 1,000,000 |
| `Policies.ResolveEffectivePolicy` | crates/gateway-core/src/policies.rs:648-754 | the loop over the layers computes the fold, in which every limit and quota is the least that a layer states |
| `Policies.EffectiveIsMeet` | crates/gateway-core/src/policies.rs:648-754 | for any layers the effective policy passes a request if and only if every layer, with the hours it contributes, passes it and the restricting lists of each kind share an element |
| `Policies.EffectiveIsMeetOfStated` | crates/gateway-core/src/policies.rs:648-754 | every layer passes a request as stated and the lists of each kind share an element if and only if the effective policy passes it and every later layer that restricts hours names one in 0 to 23 |
| `Policies.OutOfRangeHoursVanish` | crates/gateway-core/src/policies.rs:804-829 | a later layer's hour 99 is lost in the merge, so the effective policy passes what that layer refuses |
| `Policies.OrderAndNeutralLayersAreIrrelevant` | crates/gateway-core/src/policies.rs:648-754 | stacks with the same layers, up to order, repetition and neutral layers, decide alike as long as no later layer loses all of its hours |
| `Policies.FoldMeets` | crates/gateway-core/src/policies.rs:786-802 | folding allowlists is emptied on the way if and only if no element is common, and otherwise holds exactly the common ones |
| `Policies.FoldTolerates` | crates/gateway-core/src/policies.rs:683-754 | the merged limits and switches tolerate a request if and only if every layer's do |
| `Policies.EffectiveQuotasAreLeast` | crates/gateway-core/src/policies.rs:705-752 | each of the eleven quotas is absent exactly if no layer states it, and otherwise the value of some layer and at most that of every layer |
| `Policies.EffectiveLimitsAreLeast` | crates/gateway-core/src/policies.rs:715-738 | the same for the five limits on a request |
| `Policies.EffectiveVersionIsHighest` | crates/gateway-core/src/policies.rs:753-753 | the version is that of some layer and at least that of every layer |
| `Policies.NoLayers` | crates/gateway-core/src/policies.rs:38-66 | without layers: chat completions and responses through LiteLLM, no streaming, no tools, no limits, version 1 |
| `Policies.PassesByField` | crates/gateway-core/src/policies.rs:200-286 | a policy passes a request exactly by these comparisons of its fields |
| `Policies.SizesAreToldApart` | crates/gateway-core/src/policies.rs:259-275 | within its hours a too large request, else a too large response, has its own error |
| `OutputCaps.PassingACap` | crates/gateway-core/src/policies.rs:315-362 | on a generation route a body passes a cap if and only if it has no override and all stated maxima agree on a positive m with m·n at most the cap |
| `OutputCaps.PassingABatchCap` | crates/gateway-core/src/policies.rs:315-362 | a batch passes a cap if and only if every entry states its maximum and their sum is at most the cap |
| `OutputCaps.EffectiveCapIsEveryCap` | crates/gateway-core/src/policies.rs:315-440 | a body passes under the effective policy if and only if it passes under every layer |
| `OutputCaps.MergeRejects` | crates/gateway-core/src/policies.rs:364-440 | overrides are rejected under a merge if and only if under one of its sides |
| `OutputCaps.RefusedExtras` | crates/gateway-core/src/policies.rs:364-440 | on generation, embedding and rerank routes an extra body is refused exactly by the keys it names, and passes if absent or null |
| `OutputCaps.MaximumIsAsked` | crates/gateway-core/src/policies.rs:442-599 | a computed maximum is m·n for the m and n that the body states |
| `OutputCaps.AskedIsMaximum` | crates/gateway-core/src/policies.rs:442-599 | a body stating m and n, without overflow, has the maximum m·n |
| `OutputCaps.SumBatch` | crates/gateway-core/src/policies.rs:347-354 | the loop over a batch stops at the first refusal or overflow and otherwise sums |
| `PiiRoundTrip.RestoreUndoesRedact` | crates/gateway-core/src/guardrails.rs:1082-1277 | with fewer than 10^9 matches of each kind, restoring a redacted value gives it back if and only if no string of it spells out an issued placeholder |
| `PiiRoundTrip.BracketlessComesBack` | crates/gateway-core/src/guardrails.rs:1082-1277 | every value without '[' comes back |
| `PiiRoundTrip.SpelledPlaceholderIsLost` | crates/gateway-core/src/guardrails.rs:1258-1277 | "a@b.c [EMAIL_1]" does not come back |
| `PiiRoundTrip.SsnsAreRedacted` | crates/gateway-core/src/guardrails.rs:1236-1245 | three, two and four digits between dashes become "[SSN_n]" |
| `PiiRoundTrip.PhonesAreRedacted` | crates/gateway-core/src/guardrails.rs:1247-1256 | ten to fifteen digits become "[PHONE_n]" |
| `PiiRoundTrip.EmailsAreRedacted` | crates/gateway-core/src/guardrails.rs:1222-1234 | a name, '@' and a domain with a dot inside become "[EMAIL_n]" |
| `PiiRoundTrip.DecimalReadsBack` | crates/gateway-core/src/guardrails.rs:1213-1213 | n is written in decimal without leading zeros |
| `PiiRoundTrip.CollectingIsInvisible` | crates/gateway-core/src/guardrails.rs:1214-1218 | redaction and counts are the same whether or not mappings are collected, and none are added when not |
| `PiiRoundTrip.TextPieces` | crates/gateway-core/src/guardrails.rs:1111-1220 | after three passes the text is literals and holes: it reads as the redaction and stands for the original |
| `PiiRoundTrip.ReadPlaceholder` | crates/gateway-core/src/guardrails.rs:1140-1159 | a later pass leaves an earlier placeholder as it is |
| `PiiRoundTrip.TrimSplits` | crates/gateway-core/src/guardrails.rs:1184-1219 | replacing the first occurrence of the trimmed part replaces it where trimming left it |
| `PiiRoundTrip.ConsistentIsRestorable` | crates/gateway-core/src/guardrails.rs:1197-1218 | issued placeholders are distinct, and no original occurs within one |
| `Placeholders.RestoresUnlessSpelled` | crates/gateway-core/src/guardrails.rs:1258-1264 | replacing one mapping after another fills exactly the holes, if and only if no placeholder was spelled out |
| `Placeholders.ReplaceFills` | crates/gateway-core/src/guardrails.rs:1260-1263 | one replace-all fills the holes of its mapping and nothing else |
| `Placeholders.RestoreText` | crates/gateway-core/src/guardrails.rs:1260-1263 | the loop applies the mappings in order |
| `PiiRedaction.Redaction.PushRedactedToken` | crates/gateway-core/src/guardrails.rs:1174-1220 | a finished token goes out, counted, mapped and replaced if it is a match |
| `PiiRedaction.Redaction.Tokens` | crates/gateway-core/src/guardrails.rs:1140-1159 | the loop over characters computes one pass |
| `PiiRedaction.Redaction.String` | crates/gateway-core/src/guardrails.rs:1111-1115 | three passes in order |
| `PiiRedaction.Redaction.Json` | crates/gateway-core/src/guardrails.rs:1088-1109 | every string of a value is redacted in order, with one running tally |
| `PiiRedaction.RestoreJson` | crates/gateway-core/src/guardrails.rs:1258-1277 | every string of a value is restored |
| `Guardrails.ResolvePlan` | crates/gateway-core/src/guardrails.rs:1292-1360 | the loops compute the plan or the first error |
| `Guardrails.PlanIsExact` | crates/gateway-core/src/guardrails.rs:1292-1371 | a plan exists exactly when policies are valid and all mandatory and requested guardrails are allowed and in force; it names each once, and exactly the default, mandatory and requested ones |
| `Guardrails.ClientsOnlyAppend` | crates/gateway-core/src/guardrails.rs:1344-1357 | the plan without client requests is a prefix of the plan with them |
| `Guardrails.LastDefinitionIsInForce` | crates/gateway-core/src/guardrails.rs:1295-1301 | the dictionary is sorted and holds for each name the last supported definition with its overrides |
| `Guardrails.ValidationIsSoundness` | crates/gateway-core/src/guardrails.rs:1373-1392 | validation passes exactly if every name is 1 to 128 allowed characters and every override is a known, unforbidden object |
| `Guardrails.PlanInOrder` | crates/gateway-core/src/guardrails.rs:1318-1357 | a plan lists defaults by name, then mandatory, then requested guardrails, each at its first mention |
| `GuardrailExecution.RecordsFollowPlan` | crates/gateway-core/src/guardrails.rs:671-765 | a successful execution leaves one record per entry in plan order, none reporting a block |
| `GuardrailExecution.LastModificationRemains` | crates/gateway-core/src/guardrails.rs:746-760 | a successful run leaves the last request and the last response that an entry not in dry run returned with action Modify, or those at the start |
| `GuardrailExecution.FirstStopIsTheError` | crates/gateway-core/src/guardrails.rs:686-762 | a run ends with an error exactly if it reaches an entry, not in dry run, that blocks, or a fail-closed one without a working handler; the error is that of the first |
| `GuardrailExecution.PreCallRedacts` | crates/gateway-core/src/guardrails.rs:862-866 | the live built-in guardrail leaves the redaction of the request and adds its mappings |
| `GuardrailExecution.PostCallRestores` | crates/gateway-core/src/guardrails.rs:867-881 | it leaves the response restored, if configured, and redacted again |
| `GuardrailExecution.DryRunsAreInvisible` | crates/gateway-core/src/guardrails.rs:671-765 | when no handler of the plan looks at the context in that mode, deleting dry-run entries changes neither verdict, request nor response |
| `GuardrailExecution.DryRunsLeaveMappings` | crates/gateway-core/src/guardrails.rs:671-765 | when they look at mappings only and dry runs add none, the mappings come out the same as well |
| `GuardrailExecution.GatewayDryRunsAreInvisible` | crates/gateway-core/src/guardrails.rs:768-945 | under every executor the gateway builds, in every mode and for every plan, deleting dry-run entries changes neither verdict, request nor response, and after the provider call not the mappings |
| `GuardrailExecution.RegisterHandlers` | crates/gateway-core/src/guardrails.rs:768-787 | the loop registers the built-in handler and the remote ones |
| `GuardrailExecution.RegisteredByName` | crates/gateway-core/src/guardrails.rs:768-787 | registered are the built-in guardrail and every other definition with a remote configuration |
| `GuardrailExecution.Executor.Execute` | crates/gateway-core/src/guardrails.rs:671-765 | the loop stops at the first error and otherwise runs every entry |
| `GuardrailExecution.Executor.ExecuteEntry` | crates/gateway-core/src/guardrails.rs:687-761 | one entry updates request, response, context and records, or ends the run |
| `GuardrailExecution.Executor.HandleFailure` | crates/gateway-core/src/guardrails.rs:1464-1491 | a failure ends the run under fail-closed and is recorded as a warning otherwise |
| `ProviderChoice.WeightsAreExact` | crates/gateway-core/src/provider_intelligence.rs:393-407 | over any total-weight consecutive hashes each position is chosen exactly max(weight, 1) times |
| `ProviderChoice.WeightedPick` | crates/gateway-core/src/provider_intelligence.rs:393-407 | the walk ends at the position that owns the slot, and the fallback is unreachable |
| `ProviderChoice.OwnersDiffer` | crates/gateway-core/src/provider_intelligence.rs:393-407 | no slot is owned by two positions |
| `ProviderChoice.SelectProvider` | crates/gateway-core/src/provider_intelligence.rs:279-329 | refused if and only if nobody is eligible; otherwise the strategy's choice among the eligible, with a reason for each of the others |
| `ProviderChoice.KeptAndDropped` | crates/gateway-core/src/provider_intelligence.rs:283-294 | eligible and rejected candidates partition the input |
| `ProviderChoice.KeptExactly` | crates/gateway-core/src/provider_intelligence.rs:283-294 | a candidate is kept if and only if no rule rejects it |
| `ProviderChoice.EligibleByField` | crates/gateway-core/src/provider_intelligence.rs:350-391 | a candidate is eligible exactly by these comparisons of its and the request's fields |
| `ProviderChoice.ReasonByField` | crates/gateway-core/src/provider_intelligence.rs:350-391 | which rule each reason reports |
| `ProviderChoice.PickBest` | crates/gateway-core/src/provider_intelligence.rs:300-318 | the first of the best: nobody is better, everybody before is worse |
| `ProviderChoice.BestByValue` | crates/gateway-core/src/provider_intelligence.rs:409-423 | the chosen candidate has the least latency, cost or priority, then the least priority, then comes first |

## Left out

- Floating point: costs are reals behind an arbitrary `Decoder`, tokens and prices are exact; rounding and NaN are not modelled, and neither are the depth and range limits of the JSON library.
- ResponseCost.ReportsTheParsedCost: reads a numeral of more than 128 bytes by the decimal the observer keeps; ReportsTheCostByValue compares with the number itself, on the premise that short and long numerals go through parsers that agree on equal numbers.
- Numerals.NumeralIsRead: the counts of fraction and omitted digits are unbounded, where the code holds them in 64 bits.
- KeyAuthentication.SuccessIsJustified: the proof is injective in id, hash and secret and the secret check is an arbitrary predicate; HMAC and Argon2 are not modelled, and one clock stands for wall and monotonic time.
- Slots and waiting queues of lookups, of the crypto executor and of admitted requests, their deadlines and the usage marks written after authentication.
- Poisoned mutexes, zeroization, telemetry, latencies and debug output.
- Policies.ResolveEffectivePolicy: the guardrail lists merged along with a policy, and their validation, are not part of this model; nor is the source listing of an effective policy.
- OutputCaps.PassingACap: a body is a parsed value, so bodies that the typed reader would take positionally from an array count as malformed.
- PiiRoundTrip.RestoreUndoesRedact: beyond 10^9 matches of a kind the number of a placeholder is itself taken for a phone number, and the statement is not made there.
- The handler that restores a response redacts it again afterwards; completeness of redaction is not claimed.
- Guardrails.ResolvePlan: configurations are opaque and overlaid by an arbitrary function.
- GuardrailExecution.GatewayDryRunsAreInvisible: a remote guardrail is a function of what it is sent, so two runs that send the same get the same answer; the parts of the context that no execution changes are not modelled.
- ProviderChoice.SelectProvider: the provider enum and route of a candidate, which no rule reads, are dropped; prices are never NaN.
- Identity providers, admin and store interfaces, routing tables, configuration, start-up and the user interface.
