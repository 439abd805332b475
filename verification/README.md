# NgenOrca in Dafny

NgenOrca is a personal-assistant gateway written in Rust. Most of it moves bytes between channels, models and
tools; a few components keep state or do arithmetic that the rest relies on for the whole life of the process.
This project models those components and proves what they promise over every input and every run.

* **Staged skill execution** (`StagedRun`, `StagedExecutor`, `StagedTheorems`, with `Paths`, `Skills`, `ShellWords`,
  `Json`, `Utf8`, `StagedSteps`): a small transaction engine. Steps run in order, each write takes a snapshot first, every step is
  journalled, and a failure may undo the writes last to first. A command is an arbitrary function of the world.
  `StateAfter` gives the history of a run, one state per step; the theorems relate the result of a run to that history.
* **Identity** (`Handles`, `HandleList`, `Directory`, `Manager`, `IdentityTheorems`, `RequestTheorems`,
  `SpellingTheorems`, `TeamsSpelling`, `AliasTheorems`, `PairingTheorems`, `RuntimeIdentity`, `RuntimeTheorems`,
  `ClaimTheorems`): raw channel handles expand to alias
  lists; links, pairings, challenges and automatic linking change five tables. `Step` and `After` give one operation,
  `StateAt` and `StateBefore` the tables at any point of a run; the latter runs mix management operations with requests.
* **Sessions** (`Sessions`, `SessionStore`, `SessionTheorems`): the session table and the index by user and channel.
* **Limiters** (`RateLimit`, `WebSocketLimit`): the sliding window per key and the fixed window per connection.
* **Memory** (`WorkingMemory`, `MemoryStores`, `MemoryManager`): eviction, budgets and consolidation.
* **Addresses** (`Cidr`): the mask test of the proxy allowlist.

Code that changes state in place is a class whose methods are proved equal to specification functions on values;
the theorems are about those functions and so about every sequence of method calls. Characters are Dafny `char`s and
bytes come from an explicit UTF-8 encoding; clocks and new identifiers are parameters.

Where the code and its comments disagree, the model follows the code:

* the WebSocket limiter is described as a token bucket of 30 messages per 60 seconds
  (`crates/ngenorca-gateway/src/routes.rs:2328`); it is a fixed window, 60 messages can pass in a minute
  (`WebSocketLimit.SixtyIsReached`), and 30 is kept exactly from moments where nothing of the open window is left
  (`WebSocketLimit.ThirtyPerMinuteIff`);
* `auto_rollback_on_failure` asks for a failing run to be undone; a malformed write or command step
  leaves the run through `?` instead, and earlier writes stay (`StagedTheorems.EarlyExit`, `StagedTheorems.LeakySkillKeepsNote`);
* `docs/OPENCLAW_PARITY_STATUS.md:319` says that handles resolve across casing variants; the Teams prefixes `orgid:` and
  `8:orgid:` are matched with their case, so the case of a Teams handle can decide whom it resolves to
  (`TeamsSpelling.CaseNeverDecidesIff`);
* `record_message` on an ended session makes it active again without consulting the index, so a user can come to have
  two live sessions on one channel (`SessionTheorems.ResurrectionBreaksUniqueness`; the exact condition on a run is
  `SessionTheorems.RunKeepsInvIff`).

## Model

| member | source | states |
|---|---|---|
| StagedTheorems.RollbackRestores | crates/ngenorca-gateway/src/tools.rs:2286-2480 | For every skill, request, initial world and command behaviour that spares this run's snapshots: the rollback never fails, and a run that ends as rolled back leaves each path written by a step it did with what it held just before the first such step, and every other path as the steps left it. |
| StagedTheorems.RollbackIsInverse | crates/ngenorca-gateway/src/tools.rs:2445-2473 | A rolled-back run leaves every path its commands spare exactly as before the run, however often its steps overwrote or appended to it. |
| StagedTheorems.UndoRewinds | crates/ngenorca-gateway/src/tools.rs:1903-1947 | Undoing all prepared writes last to first succeeds, keeps the snapshots and rewinds each written path to the state before its first write. |
| StagedTheorems.UndoMeaning | crates/ngenorca-gateway/src/tools.rs:2445-2449 | Reverse-order restore leaves at each path what the first write to it had saved, and leaves all other paths and every snapshot alone. |
| StagedTheorems.UndoSucceedsIff | crates/ngenorca-gateway/src/tools.rs:1907-1914 | A rollback goes through exactly when every snapshot it needs is still in the store. |
| StagedTheorems.SnapshotsStayFaithful | crates/ngenorca-gateway/src/tools.rs:1846-1869 | At every point of a run each prepared rollback holds what its target held just before its own step; no later step or command spoils an earlier snapshot. |
| StagedTheorems.PreparedInOrder | crates/ngenorca-gateway/src/tools.rs:2396-2411 | The prepared rollbacks are exactly those of the write steps done so far, in strictly increasing step order. |
| StagedTheorems.LoopFollowsHistory | crates/ngenorca-gateway/src/tools.rs:2288-2443 | The loop ends after the first failure when failures stop it and after the last step otherwise, in the state its history gives, or leaves at the first malformed step in the state the earlier steps left. |
| StagedTheorems.StateExists | crates/ngenorca-gateway/src/tools.rs:2316-2401 | A run gets past its first n steps exactly when none of them is malformed: no command name, no path or content, or a path out of the workspace. |
| StagedTheorems.CompletesIff | crates/ngenorca-gateway/src/tools.rs:2316-2492 | An admitted run is answered as completed exactly if no requested step is malformed and every requested command, in the world it meets, could be started and ended successfully and in time; the stop-on-failure switch makes no difference to that. |
| StagedTheorems.JournalMeaning | crates/ngenorca-gateway/src/tools.rs:2430-2496 | The journal of every answered run: step records 1..n, then rollback records of write steps in strictly decreasing order, one per completed write if rolled back and none otherwise; the three counters; Completed iff no step failed, RolledBack iff one failed with automatic rollback and at least one write, else Failed. |
| StagedTheorems.ProcessedSteps | crates/ngenorca-gateway/src/tools.rs:2440-2443 | With stop on failure the processed steps are the requested ones up to the first failure; otherwise all of them. |
| StagedTheorems.JournalStaysTrue | crates/ngenorca-gateway/src/tools.rs:2288-2443 | After every step: one record per step with its labels and a status that fits its tool, counters equal to what they count, the status Failed as soon as one record is, and a record says Failed exactly when its step failed. |
| StagedTheorems.WriteRecordsNameSnapshots | crates/ngenorca-gateway/src/tools.rs:2300-2405 | The record of every write step carries its own plan entry, available, with a snapshot name exactly if the target existed before the step. |
| StagedTheorems.PlanAfterRun | crates/ngenorca-gateway/src/tools.rs:2465-2472 | A rollback makes the plan entry of each completed write available and gives it the snapshot of that step (none if the file was new); every other entry is unchanged, and so is the whole plan of a run that is not rolled back. |
| StagedTheorems.OtherwiseStepsStand | crates/ngenorca-gateway/src/tools.rs:2445-2492 | An answered run that is not rolled back leaves files and snapshots as its steps left them. |
| StagedTheorems.EarlyExit | crates/ngenorca-gateway/src/tools.rs:2396-2398 | Once admitted, and with commands that spare its snapshots, a run ends in an error exactly when it reaches a malformed step; the world is then as the steps before it left it. |
| StagedTheorems.MalformedStepKeepsWrite | crates/ngenorca-gateway/src/tools.rs:2396-2398 | A family of inputs where a requested rollback does not happen: a write followed by a malformed step keeps its full effect, overwriting or appending. |
| StagedTheorems.LeakySkillKeepsNote | crates/ngenorca-gateway/src/tools.rs:2316-2338 | One member of that family: a guarded two-step skill on an empty workspace, a write and a command without a name, passes the gate, asks for rollback, ends in an error and leaves its file behind. |
| StagedTheorems.GateOpensIff | crates/ngenorca-gateway/src/tools.rs:2172-2256 | A run starts exactly if some step is risky, the caller confirmed, the range lies within the skill, each executable step in range has rollback guidance and checkpoints, and the working directory is inside the workspace: confirmation is needed in every case. |
| StagedTheorems.RollbackRecordsTell | crates/ngenorca-gateway/src/tools.rs:2450-2464 | Every record after those of the steps done, in a rolled-back run, is the undoing of one write: titled after its step, with a rollback checkpoint, naming the target and the snapshot of what the target held before that step. |
| StagedTheorems.OtherRecordsCarryPlan | crates/ngenorca-gateway/src/tools.rs:2300-2312 | The record of a command carries its plan entry as it was made; a manual step carries none. |
| StagedSteps.WriteStepEffect | crates/ngenorca-gateway/src/tools.rs:1795-1901 | Step n of every run, told from the JSON of its arguments: with a string path inside the workspace and a string content it is done, and its target then holds the encoded content, after the old bytes exactly if `append` is the boolean true; no other file changes, and the snapshot of the step holds what an existing target held. |
| StagedSteps.WriteStepDoneIff | crates/ngenorca-gateway/src/tools.rs:1801-1838 | A write step is done exactly if it has such arguments. |
| StagedSteps.CommandStepEffect | crates/ngenorca-gateway/src/tools.rs:2316-2394 | A command step that names its command runs it with the string items of `args`, in order, in the working directory of the run, and fails exactly unless it ended successfully and in time. |
| StagedSteps.CommandStepDoneIff | crates/ngenorca-gateway/src/tools.rs:2317-2332 | A command step is done exactly if it names its command. |
| StagedSteps.ManualStepEffect | crates/ngenorca-gateway/src/tools.rs:2412-2428 | A step with any other tool, or none, changes nothing and never fails. |
| StagedSteps.RunStarts | crates/ngenorca-gateway/src/tools.rs:2193-2284 | An admitted run takes the first `through_step` steps, all if none is given, in what `cwd` resolves to or the workspace root, with the plan made for exactly these steps. |
| StagedSteps.PlanEntryMeaning | crates/ngenorca-gateway/src/skills.rs:389-429 | A planned write is available, by snapshot, exactly if its path is a string; a planned command exactly if there is guidance, which is then its instruction. |
| StagedExecutor.Executor.Execute | crates/ngenorca-gateway/src/tools.rs:2166-2510 | The in-place execution has the result of the specification function, and the persisted journal is the one answered. |
| StagedExecutor.Executor.RunSteps | crates/ngenorca-gateway/src/tools.rs:2286-2443 | The loop over the steps, with a journal saved after each, ends in the state of the specified run; on an early exit the last saved journal is the one before the malformed step. |
| StagedExecutor.Executor.TakeStep | crates/ngenorca-gateway/src/tools.rs:2288-2439 | One turn of the loop has the specified effect on files, snapshots, journal and prepared rollbacks, or leaves with none. |
| StagedExecutor.Executor.WriteFileStep | crates/ngenorca-gateway/src/tools.rs:1795-1901 | A write step snapshots an existing target, overwrites or appends, and prepares its rollback; on an error nothing changes. |
| StagedExecutor.Executor.RollBack | crates/ngenorca-gateway/src/tools.rs:2445-2473 | The reverse loop undoes and journals the prepared writes as specified, stopping at an unreadable snapshot. |
| StagedExecutor.Executor.ExecuteWriteRollback | crates/ngenorca-gateway/src/tools.rs:1903-1947 | Restores one snapshot, or removes the file the step created if it is still there. |
| Skills.PlanMeaning | crates/ngenorca-gateway/src/skills.rs:378-434 | The rollback plan lists every executable step in range exactly once, in strictly decreasing order, each with its own entry. |
| Skills.PlanReversesPreview | crates/ngenorca-gateway/src/skills.rs:350-384 | The plan visits the steps of the staged preview in reverse. |
| Utf8.TextReadsBack | crates/ngenorca-gateway/src/tools.rs:1868-1882 | Reading the written bytes by section 3 of RFC 3629 gives back the characters of the content. |
| Paths.NormalizePath | crates/ngenorca-gateway/src/tools.rs:99-115 | The push-and-pop loop computes the stack fold, which is also what matching each `..` with the name it cancels gives. |
| Paths.MatchingIsNormalize | crates/ngenorca-gateway/src/tools.rs:99-115 | Reading components from the right and cancelling names against pending `..` gives the same path as the stack, for any number of pending ones. |
| Paths.NormalizeIdempotent | crates/ngenorca-gateway/src/tools.rs:99-115 | Normalising a normalised path changes nothing. |
| Paths.NormalizeJoin | crates/ngenorca-gateway/src/tools.rs:117-127 | Normalising root joined with p continues the component stack from the normalised root, so the root may be normalised first. |
| Paths.ParsePrinted | crates/ngenorca-gateway/src/tools.rs:99-142 | A printed well-formed path splits back into its own components. |
| Paths.ResolvedPathIsInside | crates/ngenorca-gateway/src/tools.rs:117-135 | Every resolved path lies under the normalised workspace root and is made of proper names. |
| Paths.RelativizeRoundTrip | crates/ngenorca-gateway/src/tools.rs:117-142 | Resolving the relativised form of a resolved path gives that path back exactly if its names below the root hold no backslash. |
| ShellWords.RenderedCommandReadsBack | crates/ngenorca-gateway/src/skills.rs:815-829 | By the quoting rules of sections 2.2.2, 2.2.3 and 2.3 of the POSIX.1-2017 Shell Command Language, the rendered line splits into exactly the command and its string arguments; there is no line exactly if there is no command. |
| ShellWords.WordsOfJoined | crates/ngenorca-gateway/src/skills.rs:845-847 | Splitting any list of quoted words gives the words back, with quotes, blanks and newlines in them. |
| ShellWords.PrintingIsInjective | crates/ngenorca-gateway/src/skills.rs:815-847 | Different word lists print differently. |
| ShellWords.PrintCommand | crates/ngenorca-gateway/src/skills.rs:815-829 | The loop over the arguments prints the command and the string ones, in order, and skips the others. |
| HandleList.ChannelHandleCandidates | crates/ngenorca-identity/src/resolver.rs:8-53 | The growing vector ends as the specified alias list, without repetition. |
| Handles.CandidatesClosed | crates/ngenorca-identity/src/resolver.rs:197-310 | Every alias is non-empty and trimmed and comes with its lowercase; none is listed twice. |
| Handles.CandidatesHead | crates/ngenorca-identity/src/resolver.rs:8-20 | The trimmed handle heads its list; exactly the blank handles have none. |
| Handles.AliasHeadsItsOwnList | crates/ngenorca-identity/src/resolver.rs:8-53 | Each alias of a handle heads its own candidate list. |
| Handles.ColonFreeAliasHasDigitForm | crates/ngenorca-identity/src/resolver.rs:221-234 | On a phone channel a colon-free alias with digits brings its pure digit form into the same list. |
| Handles.ColonFreeHandleAliases | crates/ngenorca-identity/src/resolver.rs:221-287 | All aliases of a colon-free phone handle are colon-free and have its digits. |
| AliasTheorems.AliasesAre | crates/ngenorca-identity/src/resolver.rs:8-53 | For every kind and handle, the aliases are exactly those its text gives: its own spelling, that of the text without the channel prefix, and what the kind adds, each told by how the text is composed (names, mentions, digits, local parts, Matrix names, Teams tails). |
| AliasTheorems.MatrixAliases | crates/ngenorca-identity/src/resolver.rs:236-249 | A Matrix identifier has exactly itself, its name and its name with an at sign as aliases, with their lowercase. |
| AliasTheorems.MatrixUsersApart | crates/ngenorca-identity/src/resolver.rs:236-249 | Two Matrix identifiers whose names differ in more than case share no alias, whatever their servers. |
| AliasTheorems.MatrixLinkLeavesOthers | crates/ngenorca-identity/src/lib.rs:168-206 | Linking one Matrix identifier never changes whom one with another name resolves to. |
| AliasTheorems.LinkLeavesStrangers | crates/ngenorca-identity/src/lib.rs:168-206 | A link never changes the resolution of a handle that shares no alias with the linked one. |
| AliasTheorems.NameAliases | crates/ngenorca-identity/src/resolver.rs:211-219 | On the six kinds with user names a bare name and its at-sign form have the same aliases: both, with their lowercase. |
| AliasTheorems.AddressAliases | crates/ngenorca-identity/src/resolver.rs:251-261 | On the web channel an address has exactly itself and its local part as aliases. |
| AliasTheorems.MentionAliases | crates/ngenorca-identity/src/resolver.rs:263-272 | A bracketed mention has exactly itself, itself with an at sign, and the identifier inside. |
| AliasTheorems.PhoneAliases | crates/ngenorca-identity/src/resolver.rs:221-234 | A colon-free phone handle has exactly its spelling, its digits, and its digits after a plus. |
| AliasTheorems.PrefixOnlyAdds | crates/ngenorca-identity/src/resolver.rs:274-287 | A channel prefix adds the prefixed spelling to the aliases of what follows it and takes none away. |
| Manager.IdentityManager.LinkChannel | crates/ngenorca-identity/src/lib.rs:168-206 | Checks all aliases, then binds them all: on any error the tables are unchanged. |
| Manager.IdentityManager.ResolveByChannel | crates/ngenorca-identity/src/lib.rs:115-127 | Answers the owner of the first bound alias. |
| Manager.IdentityManager.CompletePairingRequest | crates/ngenorca-identity/src/lib.rs:248-320 | Changes users, channels, devices and the request as specified, in that order; a link conflict or a refused device leaves the request open. |
| Manager.IdentityManager.VerifyChallengeResponse | crates/ngenorca-identity/src/lib.rs:351-384 | Answers and marks the challenge as specified; a failing answer changes no table. |
| Directory.BindAllRow | crates/ngenorca-identity/src/store.rs:260-280 | Binding a list touches exactly its rows. |
| IdentityTheorems.LinkRows | crates/ngenorca-identity/src/lib.rs:168-206 | A successful link gives exactly the aliases to the user, takes none from another user and leaves every other row alone. |
| IdentityTheorems.ResolvesToFirst | crates/ngenorca-identity/src/lib.rs:115-127 | A handle resolves to the owner of the first of its aliases that has a registered owner, and to nobody if none has. |
| IdentityTheorems.RunKeepsInv | crates/ngenorca-identity/src/lib.rs:115-402 | Over every run: row owners stay registered, whoever owns a spelling owns its lowercase and, on phone channels, the digit form of a colon-free one; no operation takes a spelling from its owner. |
| IdentityTheorems.LinkIsPermanent | crates/ngenorca-identity/src/lib.rs:168-206 | Once a non-blank handle is linked, directly or by a pairing, it and each of its aliases resolve to that user in every later state. |
| IdentityTheorems.LinkedHandlesAreDisjoint | crates/ngenorca-identity/src/lib.rs:168-198 | Handles linked to different users at any two moments of a run share no alias. |
| IdentityTheorems.LinkTakesEffect | crates/ngenorca-identity/src/store.rs:207-280 | A successful link of a non-blank handle resolves to its user exactly if that user is registered. |
| IdentityTheorems.PhoneSpellingsAgree | crates/ngenorca-identity/src/resolver.rs:15-27 | Two colon-free WhatsApp, Signal or iMessage handles with the same non-empty digits resolve alike in every state that keeps the invariant. |
| IdentityTheorems.ReachablePhoneSpellingsAgree | crates/ngenorca-identity/src/lib.rs:115-198 | The same in every state reached from empty tables. |
| TeamsSpelling.CaseNeverDecidesIff | crates/ngenorca-identity/src/resolver.rs:296-304 | A handle and its lowercase resolve alike in every state of every run on empty tables exactly if the kind is not Teams or the `orgid:` prefix of the handle, if any, is in lower case. |
| TeamsSpelling.WrongCaseDecides | crates/ngenorca-identity/src/resolver.rs:197-304 | For every Teams handle with such a prefix in another case, a run of two operations after which the handle resolves to a user and its lowercase to nobody. |
| TeamsSpelling.TeamsCaseCanDecide | crates/ngenorca-identity/src/resolver.rs:296-304 | One such handle, 8:ORGID:x, with its run. |
| SpellingTheorems.CaseNeverDecides | crates/ngenorca-identity/src/resolver.rs:197-310 | In every state that keeps the invariant a handle and its lowercase resolve alike, for ten channel kinds without condition and for Teams if the `orgid:` prefix of the handle, if any, is in lower case. |
| RequestTheorems.PairingCompletedOnce | crates/ngenorca-identity/src/lib.rs:248-264 | In every run that mixes management operations, web requests and inbound messages a pairing request is completed at most once; any later attempt is refused as done. |
| RequestTheorems.PairingCompletedInTime | crates/ngenorca-identity/src/lib.rs:225-264 | In every such run a pairing is never completed more than an hour after it was issued. |
| RequestTheorems.ChallengeVerifiedOnce | crates/ngenorca-identity/src/lib.rs:351-384 | In every such run a challenge is verified at most once; any later answer is refused as done. |
| RequestTheorems.ChallengeVerifiedInTime | crates/ngenorca-identity/src/lib.rs:322-370 | In every such run a challenge is never verified more than fifteen minutes after it was issued. |
| RequestTheorems.ClaimTables | crates/ngenorca-gateway/src/runtime_identity.rs:63-214 | A resolution by device claim, with all its automatic linking, writes to the channel table only. |
| RequestTheorems.CompletionRequests | crates/ngenorca-identity/src/lib.rs:248-320 | Only a successful completion changes a request: an open one, in time, which it marks done; challenges stay as they are. |
| RequestTheorems.AnswerAccepted | crates/ngenorca-identity/src/lib.rs:351-402 | An answer is accepted, naming a user and trust, exactly if the challenge is open and in time and the stored key of its device, which that user owns at that trust now, verifies the nonce. |
| RequestTheorems.CompletionTakesEffect | crates/ngenorca-identity/src/lib.rs:265-320 | A completed pairing leaves its non-blank handle resolving to the user and its device at hardware trust. |
| PairingTheorems.CompletionBinds | crates/ngenorca-identity/src/lib.rs:265-320 | A successful completion binds exactly what request and completion name: a new user under the first name given and the role of the completion (one that was registered keeps both), the aliases of the handle, and the device under the public key of the completion, at hardware trust. |
| PairingTheorems.CompletionSucceedsIff | crates/ngenorca-identity/src/lib.rs:248-320 | A completion succeeds exactly if its request is known, open and in time, no alias of its handle belongs to another registered user, and there is a public key for its device. |
| PairingTheorems.MissingKeyStillLinks | crates/ngenorca-identity/src/lib.rs:265-300 | A completion that fails for want of a public key has registered the user and linked the handle, with the request still open. |
| PairingTheorems.PairedDeviceAnswers | crates/ngenorca-identity/src/lib.rs:289-384 | Over every run: after a pairing, a challenge issued for its device, while nobody pairs or revokes the device, is answered successfully exactly by what the public key of the pairing verifies for the issued nonce, once and within fifteen minutes, and the answer names the paired user at hardware trust. |
| PairingTheorems.PairingBindsSeed | crates/ngenorca-identity/src/lib.rs:225-320 | Over every run: a pairing that is completed binds what its seed asked for when it was issued. |
| PairingTheorems.PairingIsOpen | crates/ngenorca-identity/src/lib.rs:225-264 | A pairing is open from its issue for one hour: a completion then, with a free handle and the key its device needs, succeeds. |
| PairingTheorems.RevokedStaysOut | crates/ngenorca-identity/src/lib.rs:219-223 | Over every run: once its owner has revoked a device, nobody is identified by it until it is paired again. |
| PairingTheorems.RevocationMeaning | crates/ngenorca-identity/src/lib.rs:219-223 | A revocation removes the device exactly if the user owns it, and nothing else. |
| PairingTheorems.DeviceStays | crates/ngenorca-identity/src/store.rs:236-293 | Over every run a device keeps its row as long as nobody pairs or revokes it. |
| RuntimeIdentity.ResolveWebIdentityWithDevice | crates/ngenorca-gateway/src/runtime_identity.rs:63-142 | The in-place resolution of a web caller has the specified answer and effect on the tables. |
| RuntimeIdentity.ResolveMessageIdentity | crates/ngenorca-gateway/src/runtime_identity.rs:144-214 | The same for a channel message. |
| RuntimeIdentity.AutoLinkHandles | crates/ngenorca-gateway/src/runtime_identity.rs:646-655 | Links the still unresolved handles one after another and answers those linked. |
| RuntimeTheorems.TryLinkNeverConflicts | crates/ngenorca-gateway/src/runtime_identity.rs:679-704 | After a handle resolved to nobody, linking it meets no conflict. |
| RuntimeTheorems.TryLinkKeeps | crates/ngenorca-gateway/src/runtime_identity.rs:679-704 | An automatic link happens exactly for non-blank handles that resolve to nobody, gives all aliases to the user and takes none away. |
| RuntimeTheorems.EventsKeepOwners | crates/ngenorca-gateway/src/runtime_identity.rs:63-214 | Over every mix of requests, messages and management operations no bound spelling changes its owner. |
| RuntimeTheorems.LinkedCallerKeepsIdentity | crates/ngenorca-gateway/src/runtime_identity.rs:63-142 | Once a device-verified web request reports the caller's username as linked, every later request of that caller without a device claim resolves to the same user. |
| ClaimTheorems.WebClaimAnswer | crates/ngenorca-gateway/src/runtime_identity.rs:63-113 | How a web request with a device claim is answered: the owner of a known device, reduced and at channel trust at most if unsigned, proceeding at the larger of stored and own trust if the stored key verifies the message, challenged at no trust if it does not; an unknown device is answered as no claim. |
| ClaimTheorems.MessageClaimAnswer | crates/ngenorca-gateway/src/runtime_identity.rs:144-187 | The same for an inbound message. |
| ClaimTheorems.OnlySignaturesLink | crates/ngenorca-identity/src/resolver.rs:106-160 | Nothing but a non-empty message verified by the stored key of a known device makes a resolution change a table. |
| ClaimTheorems.SignedWebRequestLinks | crates/ngenorca-gateway/src/runtime_identity.rs:646-704 | A signed web request wins rows only for the owner of the device and only aliases of the handles it reports; it reports only handles of the caller that resolved to nobody, and each of those resolves to the owner afterwards. |
| ClaimTheorems.SignedMessageLinks | crates/ngenorca-gateway/src/runtime_identity.rs:657-704 | A signed message links the handle of its sender for the owner of the device, exactly if it resolved to nobody. |
| ClaimTheorems.WebHandlesAnswer | crates/ngenorca-gateway/src/runtime_identity.rs:115-142 | Without a claim a web caller is answered with the owner of a text it is looked up under (username or email, or the local part of either), the username first, and with its own word exactly if nobody owns any of them. |
| ClaimTheorems.MessageHandlesAnswer | crates/ngenorca-gateway/src/runtime_identity.rs:189-214 | The same for a message, looked up under its metadata and its user by the rules of its channel, the metadata first. |
| SessionStore.SessionManager.GetOrCreate | crates/ngenorca-gateway/src/sessions.rs:35-108 | Reuses the indexed live session or creates one, as specified. |
| SessionStore.SessionManager.PromoteToUser | crates/ngenorca-gateway/src/sessions.rs:140-191 | Touches, merges or rebinds, as specified. |
| SessionStore.SessionManager.PruneExpired | crates/ngenorca-gateway/src/sessions.rs:254-293 | The removal loop drops the expired sessions and their index entries, and counts them. |
| SessionTheorems.RunKeepsSound | crates/ngenorca-gateway/src/sessions.rs:35-351 | In every reachable state each index entry names a stored session whose user and channel are its key. |
| SessionTheorems.RecordExactly | crates/ngenorca-gateway/src/sessions.rs:117-131 | Recording a message keeps the one-live-session invariant exactly if the session is live, anonymous, unknown or still the indexed one of its key. |
| SessionTheorems.RunKeepsInvIff | crates/ngenorca-gateway/src/sessions.rs:35-351 | Each live session of a user is the indexed one of its key in every state of a run, exactly if no message of the run resurrects a session that the index has dropped. |
| SessionTheorems.OneLiveSession | crates/ngenorca-gateway/src/sessions.rs:35-108 | In such a run at most one live session exists per user and channel, and it is the indexed one. |
| SessionTheorems.ResurrectionBreaksUniqueness | crates/ngenorca-gateway/src/sessions.rs:117-131 | A run of four operations after which one user has two live sessions on one channel. |
| SessionTheorems.SessionIsReused | crates/ngenorca-gateway/src/sessions.rs:35-69 | Repeated requests get the same session until it is ended, pruned or promoted away. |
| SessionTheorems.PromoteMeaning | crates/ngenorca-gateway/src/sessions.rs:140-191 | A promotion answers a session under the user's key on the same channel, stores the user's name except for the empty name on an anonymous session, and neither adds nor removes a session. |
| SessionTheorems.PromoteKeepsCounters | crates/ngenorca-gateway/src/sessions.rs:140-191 | A promotion keeps every session's message and token totals and channel, and no other session changes its user. |
| SessionTheorems.PruneMeaning | crates/ngenorca-gateway/src/sessions.rs:254-293 | Pruning removes exactly the sessions older than the cutoff and exactly the index entries that named them. |
| SessionTheorems.OpenMeaning | crates/ngenorca-gateway/src/sessions.rs:35-108 | Opening answers the current session of a named user, and otherwise starts one: active, empty, and indexed if the user is named. |
| SessionTheorems.RecordMeaning | crates/ngenorca-gateway/src/sessions.rs:117-131 | Recording counts one message and its tokens and makes the session active as of now; nothing else changes. |
| SessionTheorems.RecordedSurvives | crates/ngenorca-gateway/src/sessions.rs:117-293 | A session that a message was recorded for survives every prune whose cutoff is not later. |
| SessionTheorems.EndMeaning | crates/ngenorca-gateway/src/sessions.rs:222-234 | Ending changes the state of the session only; its index entry stays. |
| SessionTheorems.PromoteCases | crates/ngenorca-gateway/src/sessions.rs:140-191 | Which session a promotion yields, what becomes of the promoted one and of the index, and that nothing else changes. |
| SessionTheorems.PromoteAliasMeaning | crates/ngenorca-gateway/src/sessions.rs:193-219 | Promoting an alias takes its indexed session to the canonical user on the same channel and leaves the alias without an entry. |
| SessionTheorems.TokensAreConserved | crates/ngenorca-gateway/src/sessions.rs:117-131 | While a session is stored, its token total grows by exactly what is recorded for it. |
| RateLimit.RateLimiter.CheckRequest | crates/ngenorca-gateway/src/rate_limit.rs:73-100 | The drain loop and the admission have the specified effect on the queue. |
| RateLimit.QueueHoldsWindow | crates/ngenorca-gateway/src/rate_limit.rs:73-100 | After any history with a running clock, a key's queue is the admitted times since the cutoff of its last check, at most max of them. |
| RateLimit.CheckRefinesCounting | crates/ngenorca-gateway/src/rate_limit.rs:73-100 | A check admits exactly if fewer than max admissions of its key lie in the closed window before it; the cast to 32 bits never truncates. |
| RateLimit.WindowBound | crates/ngenorca-gateway/src/rate_limit.rs:73-100 | Any closed interval of k windows holds at most k times max admissions of a key. |
| RateLimit.ZeroAdmitsAll | crates/ngenorca-gateway/src/rate_limit.rs:73-76 | A limit of zero admits everything, over every history, and remembers nothing. |
| RateLimit.AdmissionsAreSpread | crates/ngenorca-gateway/src/rate_limit.rs:90-97 | An admission and the one max places before it are more than a window apart. |
| WebSocketLimit.ReceiveLoop | crates/ngenorca-gateway/src/routes.rs:2349-2380 | The receive loop passes the messages that the specification passes. |
| WebSocketLimit.SixtyPerMinute | crates/ngenorca-gateway/src/routes.rs:2367-2386 | Whatever the arrival times, at most sixty messages pass in any half-open minute. |
| WebSocketLimit.ThirtyPerWindow | crates/ngenorca-gateway/src/routes.rs:2367-2386 | At most thirty pass between two resets. |
| WebSocketLimit.SixtyIsReached | crates/ngenorca-gateway/src/routes.rs:2327-2386 | Arrival times for which sixty do pass. |
| WebSocketLimit.ThirtyPerMinuteIff | crates/ngenorca-gateway/src/routes.rs:2327-2386 | The documented thirty per minute hold from a moment on, whatever arrives then, exactly if the window open at that moment is over, used up, or not begun before. |
| WebSocketLimit.DoubleBurstPasses | crates/ngenorca-gateway/src/routes.rs:2367-2386 | Otherwise the rest of the open window and a full new one pass within the minute: sixty less what was used. |
| WorkingMemory.Memory.Push | crates/ngenorca-memory/src/working.rs:40-63 | Appends, then evicts as specified; totals are the sums before and after, so the subtraction never underflows. |
| WorkingMemory.EvictIsLeast | crates/ngenorca-memory/src/working.rs:50-62 | The loop drops the k oldest non-system messages for the least k that leaves the session within budget, at most two messages long, or with system messages only. |
| WorkingMemory.EvictMeaning | crates/ngenorca-memory/src/working.rs:50-62 | Afterwards the session is within budget, or has at most two messages, or only system messages, all of which are kept in order. |
| WorkingMemory.PushMeaning | crates/ngenorca-memory/src/working.rs:40-63 | A push appends and then drops the oldest non-system messages, just until the session is within budget, or at most two messages long, or has only system messages. |
| WorkingMemory.SystemMessagesSurvive | crates/ngenorca-memory/src/working.rs:40-87 | Over every run the totals are the sums and a session holds every system message pushed since it was last cleared, in order. |
| MemoryStores.FitBudget | crates/ngenorca-memory/src/semantic.rs:208-219 | The budget loop returns the longest prefix of the ranked facts within four characters a token. |
| MemoryStores.LongestFittingUnique | crates/ngenorca-memory/src/semantic.rs:208-219 | That prefix is unique. |
| MemoryStores.TrimEpisodes | crates/ngenorca-memory/src/episodic.rs:218-230 | The episode loop returns a prefix within the limit and the budget, or one single episode, and stops early only where the next one would not fit. |
| MemoryStores.EpisodicMemory.Prune | crates/ngenorca-memory/src/episodic.rs:310-334 | Deletes the positions the query picks and answers how many they are. |
| MemoryStores.PruneMeaning | crates/ngenorca-memory/src/episodic.rs:310-334 | Pruning keeps exactly the smaller of count and maximum of the user's episodes, none older than a removed one, and every other user's rows in order. |
| MemoryStores.SemanticMemory.RetrieveForUser | crates/ngenorca-memory/src/semantic.rs:131-232 | Retrieval answers that longest prefix and raises the access count of exactly the returned facts, by one. |
| MemoryManager.SharesBound | crates/ngenorca-memory/src/lib.rs:376-411 | For every task profile the two shares are at most three quarters of the budget. |
| MemoryManager.RetrievedWithinThreeQuarters | crates/ngenorca-memory/src/lib.rs:101-128 | The token estimate of what is retrieved is at most three quarters of the budget, unless exactly one oversized episode is. |
| MemoryManager.ProfileGets | crates/ngenorca-memory/src/lib.rs:376-411 | The retrieval profile of every kind of task, as numbers. |
| MemoryManager.FactBytesMeaning | crates/ngenorca-memory/src/lib.rs:113-118 | The estimate of the facts is the length of their texts put together, and the budget charges twenty more for each. |
| MemoryManager.EpisodeBytesMeaning | crates/ngenorca-memory/src/lib.rs:119-123 | The estimate of the episodes is the length of their contents put together, and the budget charges their summaries too. |
| MemoryManager.Manager.BuildContextForTask | crates/ngenorca-memory/src/lib.rs:79-144 | For every classification, with its shares and limit as numbers: the context holds the longest prefix of the ranked facts within four characters per token of their share, and episodes up to the limit or to where the next would not fit; exactly those facts are counted as accessed; the three-quarter bound holds; the estimate counts the three blocks. |
| MemoryManager.Manager.ConsolidateForUser | crates/ngenorca-memory/src/lib.rs:147-226 | The nested loops create the novel facts, prune both stores, and answer the four counts: scanned, created, episodes and facts pruned. |
| MemoryManager.NovelMeaning | crates/ngenorca-memory/src/lib.rs:165-195 | No two created facts are equal ignoring case, each was extracted, and their lowercase texts are exactly those extracted and not loaded. |
| MemoryManager.RecentIsAll | crates/ngenorca-memory/src/episodic.rs:236-262 | A window of at most the limit is returned whole. |
| MemoryManager.ConsolidationKeeps | crates/ngenorca-memory/src/lib.rs:147-207 | A consolidation that scans anything removes just the user's facts below 0.1 last confirmed more than 180 days ago and leaves every earlier fact otherwise as it was, but for one access of each loaded one. |
| MemoryManager.CreatedFactStays | crates/ngenorca-memory/src/lib.rs:177-195 | Each novel fact is stored with its category, text and episode, at confidence one half, as of now. |
| MemoryManager.SecondConsolidationCreatesNone | crates/ngenorca-memory/src/lib.rs:147-207 | With no new episodes a second consolidation creates no fact, provided that the window held at most 200 episodes and the user's recalled facts fit the 10,000-token load. |
| Cidr.MaskTestIsQuotientTest | crates/ngenorca-gateway/src/auth.rs:283-309 | The shifted-mask test, with the zero prefix apart, agrees with equal quotients by the block size (section 3.1 of RFC 4632). |
| Cidr.QuotientTestIsBitTest | crates/ngenorca-gateway/src/auth.rs:283-309 | Equal quotients are equal leading bits. |
| Cidr.CidrMeaning | crates/ngenorca-gateway/src/auth.rs:283-309 | For all IPv4 and IPv6 addresses a match means the same family, a legal prefix length and agreement on the leading bits. |
| Cidr.ShorterPrefixIsLarger | crates/ngenorca-gateway/src/auth.rs:283-309 | Shortening the prefix only enlarges a block. |
| Cidr.BlocksNestOrAreDisjoint | crates/ngenorca-gateway/src/auth.rs:283-309 | Two blocks of one family with an address in common are nested. |
| Cidr.AllowlistMeaning | crates/ngenorca-gateway/src/auth.rs:267-281 | An address is let through exactly if some entry is a block that it lies in or, not being a block, is the address. |

## Left out

- RollbackRestores: assumes that commands leave the snapshots of the run alone; `UndoSucceedsIff` says exactly when a rollback can read what it needs without that.
- RelativizeRoundTrip: for Unix paths; Windows prefixes are not part of the model.
- LinkTakesEffect: whether the database enforces its REFERENCES clauses is a parameter (`foreignKeys`); if it does, a link of an unregistered user is refused.
- LinkIsPermanent: each operation of the identity manager is one atomic step, and links name registered users unless the database refuses the others.
- SixtyPerMinute: one clock reading per message, and no wrap of the 32-bit message counter within one window.
- QueueHoldsWindow: for nondecreasing clock readings; the reading is taken together with the queue, not before its lock.
- ConsolidateForUser: the rows a query answers are parameters constrained by what the query asks for; ties in the order stay open, a failure to store or to prune is not modelled, and the counts are not cut to 32 bits.
- SecondConsolidationCreatesNone: pattern extraction and lowercasing are arbitrary fixed functions.
- Episode scoring and its floating point: the order of the scored episodes is an arbitrary list.
- SQLite, JSON files, directories, symbolic links and I/O errors: tables are maps or sequences and the workspace is a flat map from paths to bytes; an I/O error in a write step leaves the run early just as a malformed one does.
- Snapshots and journals live beside the workspace, not inside it; a snapshot is named by journal and step instead of by its file name.
- Journal timestamps, step results, verification texts, the script preview, and the counters that a skill keeps about its own runs (`record_execution_result`).
- The command runner itself: sandbox, output capture and timeouts are an arbitrary function from the world to a new world and an outcome.
- `render_write_file`, `slugify`, skill validation reports and lifecycle text: presentation.
- Overflow of 64-bit counters and of the token totals, and the saturating product in the episode budget: quantities are unbounded.
- Lock interleavings between the parts of one call.
- Ed25519, base64, nonces and identifiers: an uninterpreted verification and fresh identifiers; `resolve_from_device` appears as it is used by the runtime resolution.
- Unicode case rules: lowercasing of handles is ASCII, as in the code; trimming uses the Unicode White_Space set.
- AllowlistMeaning: for any parser of addresses and lengths.
- `build_correction_timeline`, session model, thinking level and creation time, HTTP, middleware, configuration, metrics, plugins, channel adapters and the model orchestration: no run-wide state to reason about, or easy members only.
