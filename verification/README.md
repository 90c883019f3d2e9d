# 1Patch management server: a verified model

This project models the small engines inside the 1Patch management server that carry its hardest
promises, and proves those promises for all inputs and all runs. It is checked with
`dafny verify dfyconfig.toml` (Dafny 4.11). Nothing here executes the server.

| part | modules |
|---|---|
| Canonical JSON: printer, reader, the text itself, equality, JSON trips | `CanonicalJson`, `JsonRoundTrip`, `JsonText`, `JsonEquality`, `JsonTrip` |
| Scoped signer: configuration, signing, two verifiers and their conditions, envelopes on the wire | `Signing`, `SigningRules`, `SigningTrip`, `SigningConfig` |
| Dashboard runtime: documents, reconciler, rendering, one mounted root | `Dom`, `Reconciler`, `KeptNodes`, `VirtualTree`, `Rendering`, `Page` |
| Dashboard runtime: where a vnode occurs, and what follows for visits, nodes and refs | `VnodePlaces`, `VnodeTrees` |
| Dashboard runtime: path keys, hook state, effects, render scheduling | `PathKeys`, `EffectLog`, `HookState`, `HookReplay`, `EffectQueue`, `HookRuntime` |
| Audit hash chain | `AuditChain`, `AuditVerdicts` |
| Protocols: node nonces, second-factor login, lockout, node events | `NonceStore`, `MfaLogin`, `MfaRuns`, `Lockout`, `Enrollment` |
| Dashboard pages: CSV export, data loader | `Csv`, `Resource` |
| The two fleet aggregations | `Fleet`, `FleetRows` |

How the model is laid out. Code that only computes is a function. Code that changes things step by step
is a class or a method with the same branches and loops; its `ensures` ties the new state to a function of
the old one, and the lemmas are about that function and about runs of it. Interleaved calls are state
machines with one step for each turn of the event loop and each command at the store.

A function that both a method and its contract use is pinned by a lemma that says what it gives without it,
with the source's own constants: what is escaped (`JsonText`), what an envelope has to satisfy (`SigningRules`),
what a log's events have to satisfy (`AuditVerdicts`), where a tree's components and nodes are (`VnodePlaces`,
`VnodeTrees`), and the lemmas named …Mean or …Means.

Assumptions. SHA-256 is injective with non-empty digests, and an ES256 signature verifies under the
matching key and for one message only (`Signing.Ideal`, `AuditChain.IdealHash`). Generated identifiers are
fresh where a lemma says so. A printed date parses back. `localeCompare` is a total preorder. Clocks, the
outcome of password and code comparisons, what effects and loaders do, and whether a command reaches the
key-value store and is answered are parameters.

Where the code does less than it seems to promise, the model keeps the code and proves when the promise holds
and what holds instead:

- `canonicalJson` prints an array holding one `undefined` as an empty array (`JsonEquality.LoneUndefinedItemIsLost`),
  and a payload with `undefined` in an array no longer verifies after a JSON trip (`SigningTrip.SignTripVerify`).
- `verifyChain` does not compare an empty `eventHash`, so one such event leaves everything before it open
  (`AuditChain.HeadFixesHistoryIff`), and `createAudit` breaks the chain when the newest event has no hash
  (`AuditChain.AppendAccepted`).
- `setIfAbsent` and `increment` answer as if nothing were stored when no answer comes, whether or not the
  command took effect; the exact price is in `MfaLogin.OneSession`, `MfaLogin.TenChecks` and
  `MfaRuns.UnansweredReplays`. A call that outlives the marker also gets a second session
  (`MfaRuns.LateCallWinsAgain`).
- The repository's README speaks of five consecutive failures before a lock; the counter is not reset when a lock
  lapses, so from then on each failure locks again, which is what `Lockout.RateBound` rests on.
- `toCSV` does not escape its header (`Csv.CsvRoundTrip`). Its comment names RFC 4180, whose section 2 ends
  records with CRLF; the code writes a bare line feed, does not quote a carriage return, and writes no final
  line end, so the reader here takes the line feed as a separator.
- `devicePlatform` looks for `win` anywhere in a system's name. It gives Windows to exactly the names that
  mention Windows if and only if a name mentioning `win` mentions `windows` (`Fleet.WindowsByName`); Darwin does
  not (`Fleet.DarwinIsWindows`).
- The list's app key joins name and publisher with a bar without escaping; when two apps share a row is stated in
  `Fleet.KeysAgreeIff`, and that no two do when no name contains a bar in `Fleet.GroupsAreApps`.
- A node envelope whose signature is wrong has used its nonce up (`NonceStore.NodeCryptoService.VerifyEnvelope`,
  `NonceStore.AskedTwice`).

## Model

| member | source | states |
|---|---|---|
| JsonRoundTrip.EscapeReads | src/signing.service.ts:473 | a string printed with the escapes of section 7 of RFC 8259, lone surrogates included, reads back unit by unit |
| JsonRoundTrip.PrintReads | src/signing.service.ts:472-481 | a reader recovers the value, up to its normal form, from the canonical text of any value followed by any delimiter or the end |
| JsonText.EscapeText | src/signing.service.ts:473 | which units of a string are escaped and how: quote and backslash, the five short forms, four lower-case hexadecimal digits for other control characters and lone surrogates, and every other unit and every surrogate pair as it is |
| JsonText.PlainEscape | src/signing.service.ts:473 | text without control characters, quotes, backslashes and surrogates is printed unchanged, accents included |
| JsonText.LessMeans | src/signing.service.ts:478 | keys are ordered by the first unit in which they differ, a proper prefix coming first |
| JsonText.ScalarText | src/signing.service.ts:473 | the texts of null, booleans, numbers, minus zero and numbers without a finite value |
| JsonText.ArrayText | src/signing.service.ts:474 | brackets, and the items' texts in order with commas between them; an undefined item leaves nothing in the canonical form and null in the plain one |
| JsonText.ObjectText | src/signing.service.ts:475-481 | braces, and one quoted key, colon and value for each property with a value, with commas between them, in the order of the keys in the canonical form and of the properties in the plain one |
| JsonEquality.SortSorts | src/signing.service.ts:478 | sorting distinct keys gives strictly ascending code unit order, as in section 3.2.3 of RFC 8785 |
| JsonEquality.SortedUnique | src/signing.service.ts:478 | the sorted order depends on the set of keys only, not on property order |
| JsonEquality.SameIsNormal | src/signing.service.ts:472-481 | equality up to property order and undefined properties is equality of normal forms |
| JsonEquality.CanonicalUnambiguous | src/signing.service.ts:472-481 | two values have the same canonical text if and only if they are equal up to property order, undefined properties and the values JSON has no text for |
| JsonEquality.LoneUndefinedItemIsLost | src/signing.service.ts:474 | a concrete pair of different arrays with the same canonical text |
| JsonTrip.TripSame | src/signing.service.ts:472-481 | stringify and parse changes nothing canonical text can show, if and only if no array holds undefined |
| JsonTrip.StringifyTrip | src/signing.service.ts:472-491 | what JSON.stringify prints is parsed back, and has the same canonical text, so the same hash, if and only if no array holds undefined |
| Signing.VerifiersAgree | src/signing.service.ts:138-180 | the detached verifier accepts an envelope's fields exactly when the envelope verifier accepts the envelope for that scope and tenant at that instant |
| Signing.ActiveKeysDistinct | src/signing.service.ts:358-385 | in an accepted configuration no two scopes share an active key, in production or not |
| Signing.SigningTotal | src/signing.service.ts:92-130 | after an accepted configuration signing reaches no configuration error for any scope: it succeeds exactly when payload and dates can be written down, with a key of that scope |
| Signing.SignedFacts | src/signing.service.ts:92-130 | what a signed envelope carries, and that its signature verifies under the key the verifier resolves at any time |
| Signing.SignThenVerify | src/signing.service.ts:92-147 | a signed envelope is accepted at exactly the instants before it expires, with its payload, by both verifiers |
| Signing.OtherScopeRejected | src/signing.service.ts:395-413 | for any other expected scope a signed envelope is rejected at any time |
| Signing.ScopeIsolated | src/signing.service.ts:438-463 | under an accepted configuration whatever is accepted was checked with a key of its own scope, never a wildcard |
| SigningRules.EnvelopeAccepted | src/signing.service.ts:138-147 | for any keys an envelope is accepted if and only if algorithm, one of the seven scopes, expected scope and tenant, both dates, hash, key and signature are right; the key's conditions are its scope or an admitted wildcard, not revoked, a deadline still ahead when retired, no development key in production, and the tenant on its list if it has one |
| SigningRules.DetachedAccepted | src/signing.service.ts:154-180 | the same for the detached verifier, over the object it builds itself |
| SigningRules.SignedWhen | src/signing.service.ts:92-130 | for any keys signing succeeds if and only if a key can sign for the scope and payload and dates can be written, and the envelope with its signature is given |
| SigningTrip.SameRecords | src/signing.service.ts:472-481 | objects with the same keys print alike if and only if they agree value by value |
| SigningTrip.EnvelopeTrip | src/signing.service.ts:109-130 | an envelope stringified and parsed back differs from the original in its payload only |
| SigningTrip.SignTripVerify | src/signing.service.ts:92-147 | after a JSON trip a signed envelope is accepted before it expires if and only if no array of the payload holds undefined; otherwise the hash does not match |
| SigningTrip.AcceptedIsAsSigned | src/signing.service.ts:138-147 | an accepted envelope with the key id and signature of a signed one carries all its signed fields and an equal payload |
| SigningConfig.DuplicateTestIsRedundant | src/signing.service.ts:359-363 | the production test for a key active in two scopes never rejects what the per-scope tests accept |
| SigningConfig.NormalizeMeans | src/signing.service.ts:500-526 | a metadata entry is taken if and only if it is complete and well named, and then with its own status, deadline and tenants |
| SigningConfig.SigningService.LoadPrivateKeys | src/signing.service.ts:266-269 | the loop succeeds exactly when every entry is a readable key, and the map then holds exactly the entries |
| SigningConfig.SigningService.LoadMetadata | src/signing.service.ts:271-275 | the loop succeeds exactly when every entry normalises and has a readable public key, and both maps then hold exactly the entries |
| SigningConfig.SigningService.LoadActiveKeys | src/signing.service.ts:277-281 | the loop succeeds exactly when every scope is known and every key id is more than white space |
| SigningConfig.SigningService.ValidateScopedConfiguration | src/signing.service.ts:358-385 | validation succeeds exactly when every scope has an active, non-wildcard key of its own with its private half |
| SigningConfig.SigningService.InitialiseScopedSigner | src/signing.service.ts:256-285 | initialisation returns exactly for acceptable configurations, stated on the three input objects, and the service can then sign for every scope |
| Dom.DomNode.AppendChild | src/dashboard-ui/mini-react.js:66-67 | the child comes last and leaves the list of the parent it had |
| Dom.DomNode.ReplaceChild | src/dashboard-ui/mini-react.js:77-80 | replacing a child changes that position only, and the new node leaves the list of the parent it had |
| Dom.HandlersMean | src/dashboard-ui/mini-react.js:258 | a function is attached for an event if and only if it is the value of a prop named on and the event's name, capitals made small |
| Reconciler.RemoveOldListeners | src/dashboard-ui/mini-react.js:98-102 | the listeners the old props ask for are taken off, and no others |
| Reconciler.SyncAttributes | src/dashboard-ui/mini-react.js:103-110 | the two attribute loops and the style step leave the new node's attributes, an empty style counted as none |
| Reconciler.SyncProps | src/dashboard-ui/mini-react.js:95-121 | afterwards attributes and props are those of the new node, each listener is one that a prop of it asks for by its name in lower case, and its ref object points at the kept node |
| Reconciler.MorphNode | src/dashboard-ui/mini-react.js:76-87 | the position holds the old node if the kinds agree and the new one otherwise, and shows the new subtree |
| Reconciler.MorphChildren | src/dashboard-ui/mini-react.js:60-74 | the parent's children show exactly what the new children showed before the call, in place; listeners and refs stay right |
| KeptNodes.MergedAt | src/dashboard-ui/mini-react.js:60-93 | every position of the result holds the old node if and only if the kinds agree there and at every ancestor below the parent |
| KeptNodes.OldNodeKept | src/dashboard-ui/mini-react.js:60-93 | an old node is still in the tree if and only if the kinds agree down to its position |
| KeptNodes.MergeKidsSeparate | src/dashboard-ui/mini-react.js:60-87 | no node ends up at two positions |
| Rendering.SetProps | src/dashboard-ui/mini-react.js:250-262 | a fresh element gets the attributes and the ref its props ask for, and exactly the listeners their names in lower case ask for |
| Rendering.AppendFragment | src/dashboard-ui/mini-react.js:204-216 | appending a fragment appends its children, in order, and leaves it empty |
| Rendering.ElementToDom | src/dashboard-ui/mini-react.js:231-239 | an element is made with its props set and its children appended |
| Rendering.ToDom | src/dashboard-ui/mini-react.js:202-239 | the tree made is fresh, shows exactly what the vnode stands for, and holds the refs used once |
| VnodeTrees.AttributesMean | src/dashboard-ui/mini-react.js:253-261 | the attribute each prop makes, with class, for, the hyphenated names, true as the empty text, and what makes none; of two props that make one attribute the later wins |
| VnodeTrees.ExpectedFollowsTree | src/dashboard-ui/mini-react.js:202-239 | the nodes a vnode leaves are its texts and elements wherever they occur below groups, elements and components, each once, in the order of the tree, as deep as it has elements above it, with its namespace, props and attributes |
| VnodeTrees.UsesCount | src/dashboard-ui/mini-react.js:257 | how often a ref object is used is the number of elements in the tree that have it as ref |
| Page.Root.Commit | src/dashboard-ui/mini-react.js:53 | morphing the container into a made tree leaves a valid root showing the vnode |
| Page.Root.Render | src/dashboard-ui/mini-react.js:51-53 | over any sequence of renders the page shows the latest vnode; every element listens to exactly the events its current props name, in lower case, with their functions; every ref object used once points at the live element that names it |
| PathKeys.DecimalReads | src/dashboard-ui/mini-react.js:206 | different child numbers print differently |
| PathKeys.OneChild | src/dashboard-ui/mini-react.js:202-239 | a path key lies below one child only |
| PathKeys.KeysDistinct | src/dashboard-ui/mini-react.js:202-244 | within one render distinct component occurrences get distinct keys, so distinct state records |
| VnodePlaces.VisitsFollowTree | src/dashboard-ui/mini-react.js:202-244 | a render calls exactly the components that occur in the tree, each once, in the order of the tree, with its hook calls and under the key of its path and name |
| EffectLog.CleanedOnce | src/dashboard-ui/mini-react.js:123-131 | no cleanup function is called twice |
| EffectLog.CleanedAfter | src/dashboard-ui/mini-react.js:123-131 | the cleanup function a run returned is still waiting, or it has been called since |
| EffectLog.CleanedBetween | src/dashboard-ui/mini-react.js:327-331 | between two runs of an effect the cleanup function of the first has been called |
| EffectLog.RerunMeansChanged | src/dashboard-ui/mini-react.js:301-303 | an effect runs again only if its dependencies are missing or other than at its last run |
| EffectLog.OverStaysOver | src/dashboard-ui/mini-react.js:321-332 | a run that was cleaned up never becomes live again |
| EffectLog.LiveRuns | src/dashboard-ui/mini-react.js:321-332 | each waiting cleanup function belongs to one run at one place |
| HookState.HookConsistent | src/dashboard-ui/mini-react.js:305-332 | a hook call keeps records, effect log and queued effects consistent |
| HookState.UnmountConsistent | src/dashboard-ui/mini-react.js:123-131 | dropping a component all of whose cleanups were called leaves no live effect of it |
| HookState.RunConsistent | src/dashboard-ui/mini-react.js:327-331 | running a queued effect keeps the log lawful and the records consistent |
| HookReplay.AppliedAllState | src/dashboard-ui/mini-react.js:311-317 | a run of setter calls leaves every slot with the value last set for it, and with its old value if none was |
| HookReplay.StateHoldsLastSet | src/dashboard-ui/mini-react.js:45-58 | after a whole render a piece of state holds the value of the last call of its setter, by any component, effect or cleanup, and its old value if there was none |
| HookReplay.NewStateHoldsLastSet | src/dashboard-ui/mini-react.js:305-319 | the same for a component rendered for the first time, starting from the initial value |
| EffectQueue.QueueMeans | src/dashboard-ui/mini-react.js:301-332 | the effects queued are exactly those without dependencies, with changed ones or called for the first time, component after component in the order of the visits and within one in the order of its calls |
| HookRuntime.Runtime.ScheduleRender | src/dashboard-ui/mini-react.js:36-43 | exactly one microtask is pending afterwards, however often it is called |
| HookRuntime.Runtime.RootRender | src/dashboard-ui/mini-react.js:29-32 | a new root vnode is recorded and a render queued |
| HookRuntime.Runtime.SetState | src/dashboard-ui/mini-react.js:311-317 | the slot takes the value and no record changes otherwise; a render is queued if and only if one was already or the value differs by Object.is |
| HookRuntime.Runtime.ApplyUpdates | src/dashboard-ui/mini-react.js:311-317 | a run of setter calls changes the records as the calls one by one; without a queued render nothing changed |
| HookRuntime.Runtime.Dispatch | src/dashboard-ui/mini-react.js:311-317 | setter calls between tasks, from handlers or timers, lose no update and keep the effect log lawful: what is between tasks holds again |
| HookRuntime.Runtime.RunHook | src/dashboard-ui/mini-react.js:305-332 | one hook call changes its slot and the queue exactly as its kind says, the lawful log kept |
| HookRuntime.Runtime.CallComponent | src/dashboard-ui/mini-react.js:217-226 | the component's record becomes what its hook calls in order make of it, every other record stays, and a new component gets a record of its own |
| HookRuntime.Runtime.RenderComponent | src/dashboard-ui/mini-react.js:217-228 | rendering a component changes its own record by its hook calls and the others by its setter calls only, queues only its own effects, and loses no update |
| HookRuntime.Runtime.Clean | src/dashboard-ui/mini-react.js:126-128 | one cleanup is called and logged, and the records change by its setter calls only |
| HookRuntime.Runtime.CleanupUnusedComponents | src/dashboard-ui/mini-react.js:123-131 | exactly the components used in this render stay, every waiting cleanup of the others has been called, and the records change as the logged calls say |
| HookRuntime.Runtime.RunEffect | src/dashboard-ui/mini-react.js:327-331 | the old cleanup is called if there is one, then the effect runs, its cleanup is kept, and the records change as these calls say |
| HookRuntime.Runtime.Render | src/dashboard-ui/mini-react.js:45-58 | after a render the components are those of the tree, those that stay keep their records, every effect last ran with the dependencies of its latest call, the effects run are exactly those queued, in their order and after the cleanups of the components that left, the records are exactly what the calls made in order make of the old ones, and any change not yet rendered has a render queued |
| HookRuntime.Runtime.RunMicrotask | src/dashboard-ui/mini-react.js:39-42 | between tasks one microtask is pending if and only if a render is queued, and an unrendered change implies one |
| HookRuntime.LiveMeansMounted | src/dashboard-ui/mini-react.js:123-131 | between tasks the effect log is lawful and the only cleanups not yet called are those of components in the tree, one for each slot |
| HookRuntime.LeftMeansCleaned | src/dashboard-ui/mini-react.js:123-131 | when a component has left the tree, every cleanup its effects ever returned has been called |
| AuditChain.EventTextInjective | src/audit/audit.hash.ts:11-25 | the hashed text determines the six covered fields and the previous hash |
| AuditChain.HeadFixesHistory | src/audit/audit.service.ts:47-69 | accepted logs with the same newest hash and no empty hash in one of them have the same length and covered fields throughout |
| AuditChain.EmptyHashUnpins | src/audit/audit.service.ts:52 | an accepted log with an empty event hash shares its head with a different accepted log |
| AuditChain.HeadFixesHistoryIff | src/audit/audit.service.ts:47-69 | the newest hash of an accepted log fixes its history if and only if no event hash in it is empty |
| AuditChain.EmptyHashExample | src/audit/audit.service.ts:52 | two concrete logs with different actors, both accepted with the same head |
| AuditChain.AppendAccepted | src/storage/memory.store.ts:130-147 | appending keeps a log accepted if and only if it is empty or its newest event has a hash |
| AuditChain.MissingHashExample | src/storage/memory.store.ts:132-141 | a concrete accepted log that appending breaks |
| AuditChain.BuiltAccepted | src/storage/memory.store.ts:130-147 | every log built by appending is accepted, carries a hash on every event and no empty one |
| AuditVerdicts.VerdictMeans | src/audit/audit.service.ts:47-69 | a log is valid if and only if every stored non-empty hash is that of its event and every event names the hash carried to it; otherwise the answer is about the oldest event of which this fails, with the stored and the right value |
| AuditVerdicts.AcceptedLinks | src/audit/audit.service.ts:59-65 | in an accepted log every event after one with a stored hash names that hash |
| AuditVerdicts.AppendedMeans | src/storage/memory.store.ts:130-147 | an appended event keeps the fields of the call, names the newest stored hash and carries the hash of its own fields with it |
| AuditVerdicts.RelinkedFound | src/audit/audit.service.ts:59-65 | in a log built by appending, a changed link is answered as a link mismatch at that event |
| AuditVerdicts.RewrittenFound | src/audit/audit.service.ts:52-58 | in a log built by appending, a changed covered field with the stored hash left as it was is answered as a hash mismatch at that event |
| AuditChain.AuditService.Record | src/storage/memory.store.ts:130-147 | one hashed event is put in front of the stored list |
| AuditChain.AuditService.VerifyChain | src/audit/audit.service.ts:47-69 | the answer is that about the oldest failing event; it accepts exactly the intact logs, and all events older than a failing one form an intact chain |
| NonceStore.NodeCryptoService.IssueNonce | src/nodes/node-crypto.service.ts:14-22 | the new challenge comes first and the list is cut at 5000 |
| NonceStore.NodeCryptoService.ConsumeNonce | src/nodes/node-crypto.service.ts:66-73 | the first matching challenge decides, and only a success marks it |
| NonceStore.NodeCryptoService.VerifyEnvelope | src/nodes/node-crypto.service.ts:24-64 | the nonce is consumed exactly when the earlier checks pass, and the payload returned only if also the signature verifies |
| NonceStore.AdmittedWhen | src/nodes/node-crypto.service.ts:29-52 | an envelope gets to its nonce if and only if algorithm, node, kind, dates within five minutes and unexpired, registered key and hash are right |
| NonceStore.ConsumeMeans | src/nodes/node-crypto.service.ts:66-73 | the first challenge for the nonce, node and purpose decides: spent and expired ones are refused, any other is marked with the time and nothing else changes |
| NonceStore.AskedTwice | src/nodes/node-crypto.service.ts:53-61 | after the nonce step of any admitted envelope, right or wrong in its signature, the nonce is refused |
| NonceStore.BurntNonce | src/nodes/node-crypto.service.ts:53-61 | a concrete admitted envelope with a wrong signature that spends its nonce |
| NonceStore.StoreHoldsNewest | src/nodes/node-crypto.service.ts:14-22 | at every point of every run the list is the newest 5000 nonces issued, newest first, with their marks |
| NonceStore.ConsumeSucceedsIff | src/nodes/node-crypto.service.ts:66-73 | consuming succeeds if and only if the nonce was issued to that node and purpose, is among the newest 5000, is unspent and has not expired |
| NonceStore.SingleUse | src/nodes/node-crypto.service.ts:66-73 | no nonce is consumed twice in any run, evictions included |
| MfaLogin.Dragonfly.Increment | src/storage/dragonfly.service.ts:102-119 | one atomic count, with the time to live set when the counter is new; undefined when the command did not arrive or its answer was lost |
| MfaLogin.Dragonfly.SetIfAbsent | src/storage/dragonfly.service.ts:134-146 | true if and only if the key was absent or no answer came; the key is set whenever the command arrived |
| MfaLogin.MfaCalls.Increment | src/auth/auth.service.ts:183-185 | the turn up to the first await, missing answers counted as one attempt |
| MfaLogin.MfaCalls.CheckCode | src/auth/auth.service.ts:186-201 | a sixth attempt is rejected without checking its code |
| MfaLogin.MfaCalls.SetMarker | src/auth/auth.service.ts:205-206 | the consume marker is set if absent |
| MfaLogin.OneSession | src/auth/auth.service.ts:169-220 | under any interleaving a token yields at most one session plus one for each marker command not answered |
| MfaLogin.SessionIsEarned | src/auth/auth.service.ts:186-219 | a session is only opened by a call within the limit, with a correct code, that was first to set the marker |
| MfaLogin.FiveChecks | src/auth/auth.service.ts:183-201 | until a call gets past the marker, at most five codes are checked plus one for each count not answered |
| MfaLogin.TenChecks | src/auth/auth.service.ts:183-212 | ever, at most ten codes are checked for a token plus one for each count and five for each marker not answered, since the counter is cleared only by calls past the marker |
| MfaLogin.AvailableStore | src/auth/auth.service.ts:169-220 | with a store that answers: one session per token, at most five code checks before its marker, and at most ten ever |
| MfaRuns.TenIsReached | src/auth/auth.service.ts:183-212 | a run that attains ten, at one instant, with every command answered |
| MfaRuns.UnansweredReplays | src/storage/dragonfly.service.ts:134-146 | the bound is attained: without answers one token opens any number of sessions |
| MfaRuns.LateCallWinsAgain | src/auth/auth.service.ts:205-206 | a run in which a call outlives the marker and opens a second session |
| Lockout.AuthService.Login | src/auth/auth.service.ts:91-158 | one login call: who is turned away before the comparison, and what each outcome does to counter, lock and country |
| Lockout.OutcomesMean | src/auth/auth.service.ts:91-158 | unknown, disabled and locked accounts are turned away unchanged; a wrong password counts and from the fifth on locks for 900000 milliseconds; a right one resets counter and lock and records the country |
| Lockout.LockHolds | src/auth/auth.service.ts:108-124 | after the failure that locks an account every call for it in the next 900000 milliseconds is refused, with the right password too |
| Lockout.RunPaced | src/auth/auth.service.ts:108-137 | without a success the counter never falls and from the fifth comparison on each one moves the lock a period further |
| Lockout.RateBound | src/auth/auth.service.ts:108-137 | a success-free stretch of T milliseconds has at most 5 + floor(T / 900000) password comparisons for an account, from any state |
| Lockout.BoundIsReached | src/auth/auth.service.ts:118-124 | for every number of periods a run attains the bound |
| Enrollment.AgentController.Register | src/agent/agent.controller.ts:99-137 | one registration: found by token, refused beyond the quota, counted once, device assigned or added |
| Enrollment.AgentController.TakeInventory | src/agent/agent.controller.ts:150-157 | the device's apps are replaced by the payload's, in order, at the end |
| Enrollment.AgentController.SyncNodeEvents | src/agent/agent.controller.ts:89-157 | a batch is handled event by event, rejected events included |
| Enrollment.RegistrationMeans | src/agent/agent.controller.ts:98-137 | a registration is accepted if and only if the first enrollment its token fits has the device counted or a use left; it then counts the device once and renews it where it stands or adds it, and otherwise changes nothing |
| Enrollment.HeartbeatMeans | src/agent/agent.controller.ts:138-149 | a heartbeat gives the first device of its id the node and the time, and changes nothing else |
| Enrollment.InventoryMeans | src/agent/agent.controller.ts:150-157 | an inventory keeps the other devices' apps in their order and puts the device's new ones after them, in order |
| Enrollment.RunSplit | src/agent/agent.controller.ts:95 | batches one after another are one run |
| Enrollment.RunSound | src/agent/agent.controller.ts:95-137 | over any batches uses equals the number of distinct devices of an enrollment and stays within its quota, and device ids stay unique |
| Enrollment.KnownDeviceSpendsNothing | src/agent/agent.controller.ts:109-118 | a device already counted registers again for free, even at the limit |
| Enrollment.UsedIffAccepted | src/agent/agent.controller.ts:109-118 | the devices counted are those counted at the start and those accepted since |
| Enrollment.DeviceIsLastAccepted | src/agent/agent.controller.ts:119-135 | after any run a device is what its last accepted registration says, under that enrollment's tenant |
| Enrollment.ContactIsLastReached | src/agent/agent.controller.ts:119-149 | after any run a device names the node and time of the last accepted registration or heartbeat that reached it, and keeps its other members |
| Enrollment.AppsAreLastInventory | src/agent/agent.controller.ts:150-157 | after any run a device's apps are its last inventory, in order, whatever came in for others |
| Csv.EscReads | src/dashboard-ui/pages.jsx:5544-5549 | an escaped cell reads back, whatever it contains |
| Csv.CellText | src/dashboard-ui/pages.jsx:5544-5549 | a cell without commas, quotes and line feeds is printed as it is, any other between quotes with its quotes doubled |
| Csv.LineText | src/dashboard-ui/pages.jsx:5550 | a line is the row's cells in column order, missing members empty, with commas between them |
| Csv.ExportText | src/dashboard-ui/pages.jsx:5550 | the export is the header and one line for each row, in order, with line feeds between them |
| Csv.FieldMisreads | src/dashboard-ui/pages.jsx:5550 | a header name with a comma, quote or line end never reads back |
| Csv.CsvRoundTrip | src/dashboard-ui/pages.jsx:5543-5551 | header and cells are recovered from the export, for any rows, if and only if there is a column and no column name contains a comma, quote or line end |
| Resource.UseResource.LoadData | src/dashboard-ui/pages.jsx:33-38 | a load takes the next number, clears the error and shows loading unless silent; nothing when unmounted |
| Resource.UseResource.OnThen | src/dashboard-ui/pages.jsx:40-48 | a response is kept only for the newest request while mounted, and only if its signature is new |
| Resource.LoadsMean | src/dashboard-ui/pages.jsx:33-38 | mounting and reloading start the next request, clear the error, keep the data and show loading unless silent; unmounted, a reload does nothing |
| Resource.CleanupMeans | src/dashboard-ui/pages.jsx:58-61 | cleaning up unmounts and puts every request out of date |
| Resource.CallbackMeans | src/dashboard-ui/pages.jsx:40-51 | a callback settles its own request, and the page follows it only when mounted and for the latest request |
| Resource.StaleNeverWrites | src/dashboard-ui/pages.jsx:40-51 | in any run a callback of an older request, or after unmounting, changes nothing shown |
| Resource.WritesMoveForward | src/dashboard-ui/pages.jsx:40-48 | of two writes of data the later one comes from a later request |
| Resource.SignatureIsOfData | src/dashboard-ui/pages.jsx:42-46 | the signature kept is always that of the data held |
| Resource.SettledIsShown | src/dashboard-ui/pages.jsx:33-52 | once the newest request has settled the page is not loading, shows its error or none, and data that is the same JSON as its response |
| Resource.LoadingEnds | src/dashboard-ui/pages.jsx:51-63 | while mounted and loading the newest request has still to settle |
| Fleet.WindowsByName | src/apps/apps.controller.ts:236-241 | a device is Windows if and only if its system's name mentions "win"; that is right for the names that mention Windows if and only if "win" comes only with "windows"; every name mentioning Darwin is Windows |
| Fleet.LinuxByName | src/apps/apps.controller.ts:236-241 | a device is Linux if and only if its system's name mentions a Linux name and not "win" |
| Fleet.DarwinIsWindows | src/apps/apps.controller.ts:238 | the concrete name Darwin mentions no Windows and is grouped as Windows |
| Fleet.KeysAgreeIff | src/apps/apps.controller.ts:232-234 | two installs share a key if and only if they share the platform and name and publisher joined by a bar |
| Fleet.KeyIsApp | src/apps/apps.controller.ts:232-234 | when neither name contains a bar, they share a key if and only if they are the same app on the same platform |
| Fleet.KeysCollide | src/apps/apps.controller.ts:232-234 | a concrete pair of different apps with one key |
| Fleet.GroupsAreApps | src/apps/apps.controller.ts:65-87 | when no name contains a bar, a row's installs are exactly those of its name, publisher and platform |
| Fleet.List | src/apps/apps.controller.ts:64-96 | the rows are the groups the query selects, each with its count of devices behind its latest version |
| FleetRows.RowsMean | src/apps/apps.controller.ts:88-96 | the rows are, in order, exactly the groups whose name and publisher in lower case contain the query in lower case, each with the number of its installs before its latest version |
| FleetRows.SortIsStable | src/apps/apps.controller.ts:70 | the sort is stable: a version stays before every later one that it does not come after, so also before one that counts as equal |
| FleetRows.GroupsInOrder | src/apps/apps.controller.ts:65-87 | the groups come in the order in which their first installs do |
| FleetRows.MentionsMeans | src/apps/apps.controller.ts:236-241 | a name mentions a word when its letters stand in it one after another, capital or small |
| Fleet.ComputeSummaryStats | src/dashboard.controller.ts:86-109 | compliant and outdated apps add up to the installs, and coverage is the nearest integer percentage, halves upwards, and 100 for an empty fleet |
| FleetRows.OnlineCounts | src/dashboard.controller.ts:87-89 | the devices online are those last seen less than two minutes ago |
| Fleet.SortSorts | src/apps/apps.controller.ts:70 | the versions of a group are in ascending order |
| Fleet.GroupsAreRight | src/apps/apps.controller.ts:65-87 | groups have distinct keys, cover all installs, count their devices and hold their versions sorted and without repeats |
| Fleet.ListFindsNewest | src/apps/apps.controller.ts:81-86 | a group's latest version is a maximum of the group, its oldest a minimum |
| Fleet.SummaryFindsNewest | src/dashboard.controller.ts:91-96 | the summary's latest version is a maximum of its group too |
| Fleet.DevicesAddUp | src/apps/apps.controller.ts:83 | device counts summed over the list are the installs |
| Fleet.OutdatedAgree | src/dashboard.controller.ts:98-104 | outdated counts summed over the list's groups equal the summary's outdated apps |
| Fleet.FleetViewsAgree | src/apps/apps.controller.ts:88-96 | the rows of the unfiltered list and the summary of the same fleet agree on both sums |

## Left out

- Values `JSON.stringify` treats specially beyond plain data: functions, symbols, big integers, `toJSON`, boxed and sparse values, cycles, `Date` objects, and the reordering of integer-like property names. Numbers stand for the text ECMAScript prints for them; the printing itself is not modelled.
- UTF-8 encoding before hashing and signing: text is a sequence of UTF-16 code units, and lone surrogates never reach it because they are printed as escapes.
- PEM decoding, ECDSA, SHA-256, bcrypt, TOTP, JWT and `localeCompare`: functions with the stated laws.
- Envelopes with fields beyond the ten signed ones and the signature, and envelope fields of another JSON type.
- Metadata members of another JSON type than declared, the fields `retiredAt` and `revokedAt`, which nothing reads, and which of several configuration errors is reported first.
- The legacy and ephemeral development signers, except that the development flag is a parameter of the verifiers.
- The instants within one call of the signer or the node verifier: each call happens at one instant.
- Dom: lower-casing event names beyond the letters A to Z, and props named like members of `Object.prototype`, which the attribute table inherits.
- Reconciler: the live `value` and `checked` properties, scroll and focus capture, document nodes given as vnodes, two roots, and style objects, which are known by their CSS text. Refs used more than once in a tree have no claim.
- Rendering and hooks are proved side by side: `Rendering` takes what a component returned, `HookRuntime` takes which hooks it called. Setters called inside a component function are applied after its hooks.
- HookRuntime.Runtime.Render: assumes that each component calls the hooks it called before and that nothing throws, as the runtime itself does; `useMemo`, `useCallback` and `useRef` only occupy their slots.
- `metadata` and the request address of audit events: the hash does not cover them.
- Expiry of store keys while calls of the token are still in progress, beyond the run shown in `MfaRuns.LateCallWinsAgain`; each lemma names its window.
- Lockout: overlapping login calls, which all read the lock before any of them sets it, and the normalisation of the country header.
- NonceStore: an override of the clock skew by the environment; it is the default of five minutes here.
- Csv: `String()` on cell values; cells are given as text.
- Enrollment: members of an installed app beyond name, publisher and version, task results and alarms, which touch none of the modelled lists, and audit entries.
- Fleet: `encodeURIComponent` on row ids, the lower-casing of the search text, and floating point in the coverage quotient, which is exact here.
- Resource: a loader that throws instead of returning a promise, and responses that cannot be stringified.
- HTTP controllers, guards, validation, logging, persistence, SSO, routing, roles, tasks, catalogs and all page markup.
