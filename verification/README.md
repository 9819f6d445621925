# AgentPass: a verified model of its stateful core

AgentPass lets a person lend signing authority to software agents. This project models the parts of it
whose correctness depends on state, loops or interleaving, and proves what they promise for every input,
every run and every schedule. `dafny verify dfyconfig.toml` checks the whole project.

- **Strict JSON** (`JsonGrammar`, `JsonScan`, `JsonDuplicateScanner`). The onboarding adapter's scanner is a class that
  moves an index over bytes. It is proved equal to a recursive specification, and that specification is proved sound
  and complete for parse trees of RFC 8259 (sections 2 to 7) with distinct names and bounded depth. Decoding a string
  token and accepting a number token belong to the platform, so they are parameters.
- **Authenticated Git bridge** (`BridgeEncoding`, `BridgePeer`, `BridgeSession`, `BridgeRuns`). A locked session with
  strict sequence numbers, peer revalidation, an authenticated encoding and a budget ledger shared between sessions.
  Hash and message authentication code are parameters of fixed output size.
- **Sessions in the web console** (`ConsoleSession`, `SessionAuthority`, `OrganizationClient`, `Console`, `Workspace`,
  `ConsoleOverlay`). Every stretch of code between
  two awaits is one atomic step, and promise callbacks come in any order. The console and the organization client run
  over the session authority's own model, `Workspace` puts the three together, and `ConsoleOverlay` adds the effect that
  lays further records over the summary.
- **Atomic rename helper** (`RenamePaths`, `RenameWalk`, `RenameHelper`). From its paths to its exit: path splitting, the
  descriptor walk, and system calls interleaved with arbitrary other writers.
- **Agent host** (`StopController`, `Activation`, `ReplyRace`). Critical sections in any order, the polling loop with its
  deadline, and callback races.
- **Organization panel** (`Mutation`, `Pagination`). Optimistic mutations against a server that may commit and then lose
  its reply, and cursor loops against an arbitrary page server.
- **Bounded input** (`StandardInput`). The read loop of the legacy migration helper.

A method of a class is tied to a step function of the same module by its `ensures`; the theorems about whole runs are
about those step functions.

## Where the code does less than one might expect

Each point is a lemma with a concrete run, or an exact condition.

- An unchanged peer with an unknown ancestor is refused by every revalidation, so its first request closes the session
  (`NextRequestAccepted`, `AuthorizedExactly`).
- The session authority promises that a fenced result is never returned. That holds for loads that have not settled; a
  load that settled just before a clear is still delivered to getters already waiting (`LateGetterSeesClearedValue`), and
  `DeliveredIsCurrent` gives the condition.
- A tenant switch during a refresh starts no refresh of its own, and the display stays empty until the next one
  (`SwitchMayStartNothing`, `DisplayStaysEmpty`).
- Without a provider, a tenant switch overtaken by an invalidation never installs (`OvertakenNeverInstalls`). With one,
  which is how the console builds its client (`AgentPassConsole.tsx`, line 1393), it does, so a sign-out during a switch
  is undone when the switch is answered, in the authority and on the display (`ProviderInstallsRegardless`,
  `SignOutUndone`, `SignOutUndoneOnDisplay`).
- The overlays of the display have epochs that a switch does not advance. Between a switch and the next commit a run
  for the old tenant may still put up its records (`StaleRecordsAfterSwitch`, `FencedExactly`); they never stand beside
  a summary of another organization (`OverlayMatchesSummary`).
- The rename helper's success speaks about the file it opens at the destination afterwards. It is the file moved exactly
  when others left that name alone in between (`MovedFileIsPinned`); `ExchangeGoesUnnoticed` is a run where they did not.
- A stop handler replaced before any stop never runs (`HandlerRunsExactly`, `ReplacedHandlerNeverRuns`). The host registers
  one handler only (`AgentPassNativeAgentHost/main.swift`, line 100), so this concerns the controller's interface, not
  that program.
- A cancelled request, and a server failure whose error code matches one of the patterns for verification, session,
  expiry or conflict, count as definite failures, so a commit may be rolled back from view (`RollbackMayHideCommit`). Of
  these, a cancelled request and a code that asks for verification are also offered again (`LostCommitOffer`;
  `LostCommitOfferedAgain` is such a run). No mutation of the panel passes a signal (`OrganizationPanel.tsx`, lines 438 to
  690), so a request cancelled in flight concerns the client's interface, not that program.
- A rollback restores the view before the call only if what the call captured was current then (`RollbackIsExact`). A
  resend captures what an older render showed, so members loaded since are lost when it fails (`ResendLosesRefresh`).
- The panel's guard against a second mutation reads the rendered state, in its handlers (`SameRenderSendsTwice`) and behind
  the notice's button (`SameButtonRunsTwice`). It does what it is for exactly in runs whose handlers are timely
  (`RunAloneExactly`).

The bound on requests and signatures is 64, the lease codec's (`NativeAgentLeaseCodec.swift`, line 122). The 1024 of the
session response (`AgentXPCProtocol.swift`, line 200) is another bound.

## Model

| member | source | states |
|---|---|---|
| `JsonScan.ScanIffDocument` | native/macos/Sources/AgentPassApp/OnboardingStatusAdapter.swift:361-486 | for every byte string: the scanner accepts it if and only if it is white space, an object of the grammar with pairwise distinct decoded names in every object and no value deeper than 32, and white space; trailing commas and trailing bytes have no parse tree |
| `JsonScan.ScanOfShape` | native/macos/Sources/AgentPassApp/OnboardingStatusAdapter.swift:361-486 | a text that has any parse tree at all is accepted exactly when that tree is unique and not too deep, and reported as a duplicate exactly for the first reason when depth is no problem; so the verdict does not depend on which tree is chosen |
| `JsonScan.ScanIffRfcDocument` | native/macos/Sources/AgentPassApp/OnboardingStatusAdapter.swift:361-486 | with a platform reader that accepts the numbers of section 6 of RFC 8259, the accepted language is that of trees whose tokens obey the RFC's grammar alone, numbers included, with no word about delimiters |
| `JsonScan.UniqueExactly` | native/macos/Sources/AgentPassApp/OnboardingStatusAdapter.swift:391-408 | uniqueness is one condition per object, at every level by itself: a tree is unique if and only if each object inside it has distinct decoded names, so sibling and nested objects may share names |
| `JsonScan.RepeatedNameRejected` | native/macos/Sources/AgentPassApp/OnboardingStatusAdapter.swift:391-408 | two spellings of one decoded name in one object, at any level, always mean rejection, and as a duplicate when depth allows |
| `JsonScan.NestedNameAllowed` | native/macos/Sources/AgentPassApp/OnboardingStatusAdapter.swift:391-408 | an object with one member is accepted exactly when the member's value is acceptable one level down, whatever names that value uses |
| `JsonScan.ValueSound` | native/macos/Sources/AgentPassApp/OnboardingStatusAdapter.swift:375-389 | whatever bytes a value scan consumes are white space and the text of a well-formed, unique value that fits the depth left |
| `JsonScan.ValueComplete` | native/macos/Sources/AgentPassApp/OnboardingStatusAdapter.swift:375-389 | a value scan started on the text of any well-formed value ends right behind it, with success exactly when the value is unique and fits, whatever follows a delimiter |
| `JsonScan.StringEndSound` | native/macos/Sources/AgentPassApp/OnboardingStatusAdapter.swift:422-452 | the bytes between the quotes of an accepted string obey the escape and control-byte rules of section 7 |
| `JsonScan.StringEndAt` | native/macos/Sources/AgentPassApp/OnboardingStatusAdapter.swift:422-452 | every string body of section 7 is found with its own closing quote, not an earlier or later one |
| `JsonDuplicateScanner.JSONDuplicateScanner.constructor` | native/macos/Sources/AgentPassApp/OnboardingStatusAdapter.swift:361-365 | a scanner starts at the first byte |
| `JsonDuplicateScanner.JSONDuplicateScanner.ScanDocument` | native/macos/Sources/AgentPassApp/OnboardingStatusAdapter.swift:367-373 | the imperative scanner itself returns without error exactly on documents of the grammar, and reports a duplicate exactly where the specification does |
| `JsonDuplicateScanner.JSONDuplicateScanner.ScanValue` | native/macos/Sources/AgentPassApp/OnboardingStatusAdapter.swift:375-389 | one value: stays inside the buffer, consumes at least one byte on success, is never entered below depth 33, and agrees with the specification |
| `JsonDuplicateScanner.JSONDuplicateScanner.ScanObject` | native/macos/Sources/AgentPassApp/OnboardingStatusAdapter.swift:391-408 | the member loop agrees with the recursive specification, including the set of names seen so far |
| `JsonDuplicateScanner.JSONDuplicateScanner.ScanMember` | native/macos/Sources/AgentPassApp/OnboardingStatusAdapter.swift:396-407 | one turn of the member loop leaves the rest of the object to be scanned with exactly the enlarged name set |
| `JsonDuplicateScanner.JSONDuplicateScanner.ScanArray` | native/macos/Sources/AgentPassApp/OnboardingStatusAdapter.swift:410-420 | the item loop agrees with the recursive specification |
| `JsonDuplicateScanner.JSONDuplicateScanner.ScanString` | native/macos/Sources/AgentPassApp/OnboardingStatusAdapter.swift:422-452 | the escape loop finds the specified end and hands out the decoded key of exactly that token |
| `JsonDuplicateScanner.JSONDuplicateScanner.ScanLiteral` | native/macos/Sources/AgentPassApp/OnboardingStatusAdapter.swift:454-459 | consumes the literal or fails without leaving the buffer |
| `JsonDuplicateScanner.JSONDuplicateScanner.ScanNumber` | native/macos/Sources/AgentPassApp/OnboardingStatusAdapter.swift:461-469 | takes the longest run without a delimiter and accepts it when the platform reader does |
| `JsonDuplicateScanner.JSONDuplicateScanner.SkipWhitespace` | native/macos/Sources/AgentPassApp/OnboardingStatusAdapter.swift:473-475 | stops at the first byte that is not white space |
| `JsonDuplicateScanner.JSONDuplicateScanner.Consume` | native/macos/Sources/AgentPassApp/OnboardingStatusAdapter.swift:477-479 | advances over the expected byte or fails in place |
| `JsonDuplicateScanner.JSONDuplicateScanner.ConsumeIf` | native/macos/Sources/AgentPassApp/OnboardingStatusAdapter.swift:481-485 | advances exactly when the byte is the expected one |
| `JsonDuplicateScanner.Whitespace` | native/macos/Sources/AgentPassApp/OnboardingStatusAdapter.swift:473-475 | the scanner's white space is that of the grammar |
| `JsonDuplicateScanner.EndsNumber` | native/macos/Sources/AgentPassApp/OnboardingStatusAdapter.swift:461-469 | the bytes that end a number are the grammar's delimiters |
| `JsonDuplicateScanner.HexDigit` | native/macos/Sources/AgentPassApp/OnboardingStatusAdapter.swift:422-452 | the scanner's hexadecimal digits are the grammar's |
| `JsonDuplicateScanner.EscapedByte` | native/macos/Sources/AgentPassApp/OnboardingStatusAdapter.swift:422-452 | the scanner's simple escapes are the grammar's |
| `BridgeEncoding.AuthenticationDataInjective` | native/macos/Sources/AgentPassNativeCore/NativeAgentAuthenticatedGitBridge.swift:499-514 | two tuples of session, sequence, payload digest, audit identity, process hash and ancestry hash have equal authentication bytes if and only if all six components are equal |
| `BridgeEncoding.PrefixedInjective` | native/macos/Sources/AgentPassNativeCore/NativeAgentAuthenticatedGitBridge.swift:516-520 | a length-prefixed field followed by anything determines the field and what follows |
| `BridgeEncoding.BuildAuthenticationData` | native/macos/Sources/AgentPassNativeCore/NativeAgentAuthenticatedGitBridge.swift:499-514 | the appending code builds exactly that encoding |
| `BridgeEncoding.AppendLengthPrefixed` | native/macos/Sources/AgentPassNativeCore/NativeAgentAuthenticatedGitBridge.swift:516-520 | appends the four length bytes and the field, leaving what was there |
| `BridgePeer.CompareAncestry` | native/macos/Sources/AgentPassNativeCore/NativeProcessIdentity.swift:345-371 | the comparison loop finds no reason exactly when the two chains are equal and every ancestor is observed; one unknown ancestor is enough to deny |
| `BridgePeer.DenialReasons` | native/macos/Sources/AgentPassNativeCore/NativeProcessIdentity.swift:318-339 | a fresh snapshot is accepted exactly when every captured fact and the whole ancestry are unchanged |
| `BridgePeer.Revalidate` | native/macos/Sources/AgentPassNativeCore/NativeAgentAuthenticatedGitBridge.swift:74-92 | a bound peer passes if and only if its connection context and identity are the captured ones and no ancestor is unknown; the policy check at the end can then no longer fail |
| `BridgePeer.RevalidationErrors` | native/macos/Sources/AgentPassNativeCore/NativeAgentAuthenticatedGitBridge.swift:74-92 | why a bound peer is refused: another connection or other process numbers is a mismatch, anything else that differs and an unknown ancestor is a change, and its policy is never the reason |
| `BridgeSession.RevalidatePeer` | native/macos/Sources/AgentPassNativeCore/NativeAgentAuthenticatedGitBridge.swift:74-92 | the statement sequence with its three error mappings computes that outcome |
| `BridgeSession.CanonicalUUID` | native/macos/Sources/AgentPassNativeCore/NativeAgentAuthenticatedGitBridge.swift:494-497 | accepts exactly the 36-byte UUID form and answers with the same bytes, capital digits in lower case |
| `BridgeSession.CanonicalTwice` | native/macos/Sources/AgentPassNativeCore/NativeAgentAuthenticatedGitBridge.swift:494-497 | canonical identifiers are fixed points |
| `BridgeSession.InitRequest` | native/macos/Sources/AgentPassNativeCore/NativeAgentAuthenticatedGitBridge.swift:112-131 | exists exactly for a UUID, a sequence from 1 to 64, a payload of 1 byte to 1 MiB and a proof of 32 bytes, and carries them with the payload's own digest |
| `BridgeSession.SameProof` | native/macos/Sources/AgentPassNativeCore/NativeAgentAuthenticatedGitBridge.swift:219-228 | the accumulated XOR and OR difference is zero exactly for equal proofs of equal length |
| `BridgeSession.Verify` | native/macos/Sources/AgentPassNativeCore/NativeAgentAuthenticatedGitBridge.swift:212-229 | accepts exactly the requests whose session is the expected one and whose proof is the code of their own fields |
| `BridgeSession.MakeSignRequest` | native/macos/Sources/AgentPassNativeCore/NativeAgentAuthenticatedGitBridge.swift:187-210 | exists exactly for a valid session identifier, sequence and payload, and what it makes is accepted by verification |
| `BridgeSession.ProofBindsEverything` | native/macos/Sources/AgentPassNativeCore/NativeAgentAuthenticatedGitBridge.swift:231-242 | if the code does not collide on these two messages, a proof made for one request and peer verifies another if and only if all six bound fields agree |
| `BridgeSession.OpenLedger` | native/macos/Sources/AgentPassNativeCore/NativeAgentSignatureBudget.swift:13-20 | a budget exists exactly for a maximum from 1 to 64 and a use from 0 to that maximum |
| `BridgeSession.SignatureBudgetLedger.constructor` | native/macos/Sources/AgentPassNativeCore/NativeAgentSignatureBudget.swift:46-49 | starts with the given budget |
| `BridgeSession.SignatureBudgetLedger.Remaining` | native/macos/Sources/AgentPassNativeCore/NativeAgentSignatureBudget.swift:51-55 | what is left of the maximum |
| `BridgeSession.SignatureBudgetLedger.Reserve` | native/macos/Sources/AgentPassNativeCore/NativeAgentSignatureBudget.swift:57-67 | takes exactly one signature, or nothing when none is left |
| `BridgeSession.OpenSession` | native/macos/Sources/AgentPassNativeCore/NativeAgentAuthenticatedGitBridge.swift:330-345 | a session exists exactly for a UUID and starts new, with nothing consumed, over the shared ledger |
| `BridgeSession.AuthenticatedGitBridgeSession.constructor` | native/macos/Sources/AgentPassNativeCore/NativeAgentAuthenticatedGitBridge.swift:330-345 | a new session in its initial state |
| `BridgeSession.AuthenticatedGitBridgeSession.Prepare` | native/macos/Sources/AgentPassNativeCore/NativeAgentAuthenticatedGitBridge.swift:363-373 | new becomes prepared for a nonce of legal length; every other call changes nothing |
| `BridgeSession.AuthenticatedGitBridgeSession.Attach` | native/macos/Sources/AgentPassNativeCore/NativeAgentAuthenticatedGitBridge.swift:375-387 | prepared becomes attached for an allowed child and closed for any other; every other call changes nothing |
| `BridgeSession.LaunchOutcomes` | native/macos/Sources/AgentPassNativeCore/NativeAgentAuthenticatedGitBridge.swift:363-387 | what preparing and attaching answer: allowed exactly in turn, with a nonce of legal length and a child the policy allows; a denied child, a closed session and any other call out of turn each have their error |
| `BridgeSession.AuthenticatedGitBridgeSession.MakeRequest` | native/macos/Sources/AgentPassNativeCore/NativeAgentAuthenticatedGitBridge.swift:389-405 | answers exactly when attached, unused, in range and within budget, with an authentic request of that sequence and payload |
| `BridgeSession.AuthenticatedGitBridgeSession.AuthorizeAndConsume` | native/macos/Sources/AgentPassNativeCore/NativeAgentAuthenticatedGitBridge.swift:407-472 | session, ledger and outcome after the call, for every request and every observed peer |
| `BridgeSession.AuthenticatedGitBridgeSession.Close` | native/macos/Sources/AgentPassNativeCore/NativeAgentAuthenticatedGitBridge.swift:474-479 | closes and changes nothing else |
| `BridgeRuns.AuthorizedExactly` | native/macos/Sources/AgentPassNativeCore/NativeAgentAuthenticatedGitBridge.swift:407-472 | a request passes if and only if the session is attached, the sequence is the next one, session and proof are right, the peer is unchanged with no unknown ancestor, and budget is left; it then yields that payload, and any refusal while attached closes the session and consumes neither sequence nor budget |
| `BridgeRuns.RefusedExactly` | native/macos/Sources/AgentPassNativeCore/NativeAgentAuthenticatedGitBridge.swift:407-472 | which error an attached session refuses with, by the first of the checks that fails, and which a session in another phase gives |
| `BridgeRuns.AttachedByPolicy` | native/macos/Sources/AgentPassNativeCore/NativeAgentAuthenticatedGitBridge.swift:363-387 | in every run, a session that is attached or has authorised anything was prepared by an earlier step with a nonce of 16 to 64 bytes whose digest is the stored one, and then attached by a step whose child its policy allows |
| `BridgeRuns.LaunchExactly` | native/macos/Sources/AgentPassNativeCore/NativeAgentAuthenticatedGitBridge.swift:363-387 | conversely those two steps attach a new session if the policy allows the child, and otherwise close it for good |
| `BridgeRuns.OutOfTurn` | native/macos/Sources/AgentPassNativeCore/NativeAgentAuthenticatedGitBridge.swift:363-380 | a nonce of another length and any preparation or attachment out of turn change nothing |
| `BridgeRuns.RunsAreExact` | native/macos/Sources/AgentPassNativeCore/NativeAgentAuthenticatedGitBridge.swift:363-479 | for any number of sessions on one ledger and every interleaving of their steps: each session's payloads carry the sequences 1, 2, ..., n, its consumed set is {1..n}, and the ledger has grown by exactly the payloads and reservations taken, never past its maximum, which is at most 64 |
| `BridgeRuns.PayloadsAreEarned` | native/macos/Sources/AgentPassNativeCore/NativeAgentAuthenticatedGitBridge.swift:407-472 | in every run each authorised payload was brought by a step of that run whose request was made for this session and proved by its key, while context and identity of the peer were exactly those bound at the start |
| `BridgeRuns.RunKeeps` | native/macos/Sources/AgentPassNativeCore/NativeAgentAuthenticatedGitBridge.swift:363-479 | over any run closed stays closed, logs only grow, and a closed session authorizes nothing more |
| `BridgeRuns.RejectionIsFinal` | native/macos/Sources/AgentPassNativeCore/NativeAgentAuthenticatedGitBridge.swift:407-472 | after a request rejected while attached no run whatever authorizes anything on that session |
| `BridgeRuns.ExhaustionConsumesNothing` | native/macos/Sources/AgentPassNativeCore/NativeAgentAuthenticatedGitBridge.swift:451-459 | a failed reservation leaves the ledger and the consumed sequences alone, for good |
| `BridgeRuns.UninterruptedCall` | native/macos/Sources/AgentPassNativeCore/NativeAgentAuthenticatedGitBridge.swift:407-472 | the three interleavable steps, run together, are the method's own effect |
| `BridgeRuns.NextRequestAccepted` | native/macos/Sources/AgentPassNativeCore/NativeAgentAuthenticatedGitBridge.swift:389-472 | the next request made on an attached session with budget left is always in the range 1 to 64 and unused, and with an unchanged peer it is accepted and yields exactly its payload if and only if the peer has no unknown ancestor |
| `SessionAuthority.ReachableStates` | apps/web-console/app/session-authority.ts:22-64 | in every interleaving: a cached value and a pending load never coexist, at most one load of the current generation is unsettled, and a cached loaded value is of the current generation |
| `SessionAuthority.StaleLoadIsFenced` | apps/web-console/app/session-authority.ts:33-41 | a load overtaken by an invalidation never fulfils, is never cached and never reaches a getter, over any continuation |
| `SessionAuthority.InvalidationAdvances` | apps/web-console/app/session-authority.ts:49-61 | the generation moves exactly on a replacement and on a clear that takes effect |
| `SessionAuthority.ClearExactly` | apps/web-console/app/session-authority.ts:49-54 | a clear of anything or of the very value cached leaves no value and no pending load; any other clear changes nothing |
| `SessionAuthority.LaterGettersSeeLaterValues` | apps/web-console/app/session-authority.ts:29-54 | over every run: after an effective clear, a getter that begins later only receives a value put in after the clear or brought by a load that began after it |
| `SessionAuthority.ReplaceExactly` | apps/web-console/app/session-authority.ts:56-61 | a replacement is the value, in a new generation, with no load that could overwrite it |
| `SessionAuthority.SettleExactly` | apps/web-console/app/session-authority.ts:35-40 | a running load fills the cache exactly when it brings a value in its own generation |
| `SessionAuthority.CleanUpExactly` | apps/web-console/app/session-authority.ts:42-44 | a failed load is forgotten, so that the next getter starts another; no other load is |
| `SessionAuthority.AbortExactly` | apps/web-console/app/session-authority.ts:74-88 | an abort rejects its own getter, if that one waits and has a signal |
| `SessionAuthority.GettersShareOneLoad` | apps/web-console/app/session-authority.ts:29-47 | a getter is answered at once exactly when a session is cached; otherwise it shares the one load, which only a getter that finds none starts |
| `SessionAuthority.DeliveredIsCurrent` | apps/web-console/app/session-authority.ts:35-46 | a getter receives its own load's outcome, and that value is still the cached one if and only if nothing was invalidated since the load started |
| `SessionAuthority.LateGetterSeesClearedValue` | apps/web-console/app/session-authority.ts:35-46 | the fence stands where a load settles, not where it is delivered: a getter may still receive a value cleared in between |
| `SessionAuthority.AbortIsPrivate` | apps/web-console/app/session-authority.ts:74-88 | any run with the aborts of one waiter removed ends in the same state but for that waiter |
| `SessionAuthority.StepKeeps` | apps/web-console/app/session-authority.ts:22-88 | every step keeps the invariant, and a load keeps its generation and its outcome |
| `SessionAuthority.Authority.constructor` | apps/web-console/app/session-authority.ts:25-27 | starts empty |
| `SessionAuthority.Authority.GetSession` | apps/web-console/app/session-authority.ts:29-47 | the getter's synchronous part |
| `SessionAuthority.Authority.LoadSettled` | apps/web-console/app/session-authority.ts:35-40 | the load's callback: fulfils and caches only in its own generation |
| `SessionAuthority.Authority.LoadFailed` | apps/web-console/app/session-authority.ts:42-44 | the handler that forgets a failed load forgets only its own |
| `SessionAuthority.Authority.ClearSession` | apps/web-console/app/session-authority.ts:49-54 | clears only the expected value, and then everything |
| `SessionAuthority.Authority.ReplaceSession` | apps/web-console/app/session-authority.ts:56-61 | installs the given session as the only authority |
| `OrganizationClient.SwitchesAreSafe` | apps/web-console/app/organization-client.ts:243-282 | over every run of overlapping switches: each call sends at most one switch request, what it returns matches the requested organization and the member it started with, and installed sessions come from strictly increasing call sequences |
| `OrganizationClient.SupersededNeverInstalls` | apps/web-console/app/organization-client.ts:243-282 | once a newer switch has begun, an older one installs nothing, however its replies arrive |
| `OrganizationClient.UndisturbedSwitch` | apps/web-console/app/organization-client.ts:243-282 | a switch nothing disturbs, answered for the requested organization and same member, sends once, installs and returns |
| `OrganizationClient.CachedSessionKept` | apps/web-console/app/organization-client.ts:211-283 | without a provider no load of any generation overwrites a cached session; only an invalidation or an install changes it |
| `OrganizationClient.InstalledSessionStays` | apps/web-console/app/organization-client.ts:206-283 | the same over any run without invalidation |
| `OrganizationClient.StepKeeps` | apps/web-console/app/organization-client.ts:206-283 | every step keeps the cache, call and install invariants |
| `OrganizationClient.OvertakenNeverInstalls` | apps/web-console/app/organization-client.ts:229-282 | without a provider, a switch begun before an invalidation of any kind, another call's unauthorized or ambiguous reply included, never installs a session, whatever was reached before and whatever follows |
| `OrganizationClient.ProviderInstallsRegardless` | apps/web-console/app/organization-client.ts:272-282 | with a provider, only a newer switch keeps a posted switch from installing: a bound reply makes its session the provider's, whatever the provider went through since |
| `OrganizationClient.SignOutUndone` | apps/web-console/app/organization-client.ts:272-282 | in particular a clear of the provider during a switch is undone by the switch's reply |
| `OrganizationClient.AskedExactly` | apps/web-console/app/organization-client.ts:211-282 | with a provider, all that a step of the client does to it is a sequence of its own gets, clears and replacements |
| `OrganizationClient.ReplyExactly` | apps/web-console/app/organization-client.ts:248-282 | what each kind of reply leads to; a payload installs exactly under all the conditions of the source |
| `OrganizationClient.ReconcileExactly` | apps/web-console/app/organization-client.ts:257-265 | the session read back is the result exactly when no newer switch has begun and it is the one asked for; nothing is sent or installed |
| `OrganizationClient.ContinueExactly` | apps/web-console/app/organization-client.ts:246-250 | a switch posts with the session it waited for, or ends, exactly as that one is of another organization or not |
| `OrganizationClient.UnauthorizedForgets` | apps/web-console/app/organization-client.ts:405-415 | after an unauthorized reply the provider does not hold the session that was used, and keeps any other |
| `OrganizationClient.InvalidateExactly` | apps/web-console/app/organization-client.ts:229-239 | an invalidation leaves neither client nor provider with a session or a pending load |
| `OrganizationClient.GetExactly` | apps/web-console/app/organization-client.ts:211-227 | without a provider: the cached session, or the pending load, or a new one |
| `OrganizationClient.SettleExactly` | apps/web-console/app/organization-client.ts:216-220 | without a provider a load fills the cache exactly when it brings a session in its own generation |
| `OrganizationClient.CleanUpExactly` | apps/web-console/app/organization-client.ts:222-224 | a failed load is forgotten, so that the next caller starts another |
| `OrganizationClient.Client.constructor` | apps/web-console/app/organization-client.ts:206-209 | starts without a session of its own, over the given provider |
| `OrganizationClient.Client.StartGetSession` | apps/web-console/app/organization-client.ts:211-227 | asks the provider, or shares the pending load, or starts one |
| `OrganizationClient.Client.Lookup` | apps/web-console/app/organization-client.ts:211-227 | the same without the invariant, as the other methods use it |
| `OrganizationClient.Client.BootstrapSettled` | apps/web-console/app/organization-client.ts:216-220 | fills the cache only in its own generation |
| `OrganizationClient.Client.BootstrapFailed` | apps/web-console/app/organization-client.ts:222-224 | forgets only its own failed load |
| `OrganizationClient.Client.Peek` | apps/web-console/app/organization-client.ts:211-227 | what an awaited session promise has to offer |
| `OrganizationClient.Client.ContextReady` | apps/web-console/app/organization-client.ts:246-250 | ends the call or posts its one request |
| `OrganizationClient.Client.ReconcileReady` | apps/web-console/app/organization-client.ts:257-265 | returns the session read back exactly if it is the one asked for, by the latest switch; nothing is sent |
| `OrganizationClient.Client.DropSession` | apps/web-console/app/organization-client.ts:229-239 | clears the provider, or begins a new generation without session or pending load |
| `OrganizationClient.Client.Drop` | apps/web-console/app/organization-client.ts:229-239 | the same without the invariant, as the other methods use it |
| `OrganizationClient.Client.Forget` | apps/web-console/app/organization-client.ts:409-415 | an unauthorized reply clears the provider only of the session that was used |
| `OrganizationClient.Client.Adopt` | apps/web-console/app/organization-client.ts:275-281 | the switched session replaces the provider's, or the client's own |
| `OrganizationClient.Client.BeginSwitch` | apps/web-console/app/organization-client.ts:243-246 | takes the next sequence number and asks for the context |
| `OrganizationClient.Client.SwitchReplied` | apps/web-console/app/organization-client.ts:248-282 | every kind of reply: install, refuse, invalidate, or invalidate and reconcile without sending again, on the client and on its provider |
| `Console.DisplayIsFenced` | apps/web-console/app/components/AgentPassConsole.tsx:1502-1605 | in every reachable state, data on display comes from a refresh that started after the latest tenant switch or session end, and its organization is that of the session this refresh read; while nothing was invalidated since a switch, that session is the one switched to |
| `Console.SwitchThenShows` | apps/web-console/app/components/AgentPassConsole.tsx:1584-1605 | with nothing in flight, a switch starts the refresh that shows the new tenant |
| `Console.SwitchMayStartNothing` | apps/web-console/app/components/AgentPassConsole.tsx:1584-1605 | a switch starts a refresh exactly when none is in flight; otherwise every refresh under way is stale and the display is empty |
| `Console.DisplayStaysEmpty` | apps/web-console/app/components/AgentPassConsole.tsx:1553-1605 | after such a switch the display stays empty until somebody asks for another refresh, however the old one ends |
| `Console.FetchExactly` | apps/web-console/app/components/AgentPassConsole.tsx:1553-1582 | what the end of a refresh does: in its own epoch it shows the summary of its session's organization, or empties display and organization on a failure; from an older epoch or aborted it changes nothing on display |
| `Console.SessionExactly` | apps/web-console/app/components/AgentPassConsole.tsx:1508-1582 | what the session promise does to a refresh: given, refused or aborted |
| `Console.FinishedRefreshFrees` | apps/web-console/app/components/AgentPassConsole.tsx:1584-1592 | a finished refresh frees the slot, so that the next one asked for starts in a new epoch, unless a recent success ends it at once |
| `Console.OthersFreeNothing` | apps/web-console/app/components/AgentPassConsole.tsx:1588-1590 | any other settlement frees nothing |
| `Console.EndExactly` | apps/web-console/app/components/AgentPassConsole.tsx:1423-1441 | the end of a session empties authority, organization and display in a new epoch |
| `Console.StepKeeps` | apps/web-console/app/components/AgentPassConsole.tsx:1423-1605 | every step of console and authority keeps the fence |
| `Console.AgentPassConsole.constructor` | apps/web-console/app/components/AgentPassConsole.tsx:1385-1392 | starts empty |
| `Console.AgentPassConsole.RefreshSummary` | apps/web-console/app/components/AgentPassConsole.tsx:1584-1592 | joins the refresh in flight or starts one in a new epoch |
| `Console.AgentPassConsole.SummaryFetched` | apps/web-console/app/components/AgentPassConsole.tsx:1553-1582 | shows the summary only in its own epoch and for the session's organization |
| `Console.AgentPassConsole.EndSession` | apps/web-console/app/components/AgentPassConsole.tsx:1423-1441 | a new epoch, no session, no data |
| `Console.AgentPassConsole.HandleOrganizationSwitched` | apps/web-console/app/components/AgentPassConsole.tsx:1594-1605 | a new epoch, the new session, no data, and a refresh unless one is in flight |
| `Workspace.DisplayIsTheTenantAskedFor` | apps/web-console/app/components/AgentPassConsole.tsx:1594-1605 | console, client and authority together, in every run: a tenant the console switched to was returned by a call that asked for it, data on display is younger than that switch, and until something is invalidated it is of the organization asked for |
| `Workspace.SignOutUndoneOnDisplay` | apps/web-console/app/components/AgentPassConsole.tsx:1423-1441 | a sign-out during a switch empties authority and display; the switch's reply fills the authority again and, once the console is told, the display |
| `Workspace.StepKeeps` | apps/web-console/app/components/AgentPassConsole.tsx:1393-1605 | every step of the three keeps the console's fence and the client's invariant over the one authority |
| `ConsoleOverlay.OverlayMatchesSummary` | apps/web-console/app/components/AgentPassConsole.tsx:1723-1743 | in every run, capability records and summary on display together are of one organization |
| `ConsoleOverlay.FencedExactly` | apps/web-console/app/components/AgentPassConsole.tsx:1723-1743 | a step keeps the records younger than the latest switch or session end unless it is a run of the effect that arrives and passes its guard between a switch and the next commit, and then it does not |
| `ConsoleOverlay.PromptRunsAreFenced` | apps/web-console/app/components/AgentPassConsole.tsx:1723-1743 | so if every switch is committed before such a run arrives, records on display always come from after the latest fence |
| `ConsoleOverlay.StaleRecordsAfterSwitch` | apps/web-console/app/components/AgentPassConsole.tsx:1594-1605 | and otherwise records of the old tenant are put up beside the empty summary of the new one |
| `ConsoleOverlay.LiveRunReached` | apps/web-console/app/components/AgentPassConsole.tsx:1723-1743 | such a state is reached by one switch, its refresh and a commit |
| `ConsoleOverlay.ArriveExactly` | apps/web-console/app/components/AgentPassConsole.tsx:1733-1741 | a live run that fails takes the records down, one for the console's organization puts its own up, and one that is over leaves them |
| `ConsoleOverlay.CommitExactly` | apps/web-console/app/components/AgentPassConsole.tsx:1723-1742 | a commit cleans up the last run and begins another exactly with a summary on display |
| `RenamePaths.ComponentsExactly` | native/macos/Sources/AgentPassAtomicRename/main.swift:138-150 | splitting and joining undo each other: a path is accepted with given parts if and only if they are legal names and the path, within its length bound, is their join |
| `RenamePaths.InsideExactly` | native/macos/Sources/AgentPassAtomicRename/main.swift:119-128 | component by component inside the boundary is the same as being the boundary or lying below it as a path |
| `RenamePaths.CheckPaths` | native/macos/Sources/AgentPassAtomicRename/main.swift:119-128 | the path checks pass exactly for an accepted boundary, one accepted parent that is the boundary or lies below it, and two single names; what they hand on joins back to the same paths |
| `RenamePaths.ParseOptions` | native/macos/Sources/AgentPassAtomicRename/main.swift:83-101 | options are read exactly when they come in pairs of allowed, distinct flags with usable values, and the result holds exactly those pairs |
| `RenameWalk.MtimeExact` | native/macos/Sources/AgentPassAtomicRename/main.swift:305-307 | equal nanosecond counts mean equal seconds and nanoseconds |
| `RenameWalk.ErrnoExactly` | native/macos/Sources/AgentPassAtomicRename/main.swift:309-320 | which failed calls are reported as what |
| `RenameWalk.CheckedExactly` | native/macos/Sources/AgentPassAtomicRename/main.swift:241-251 | the directory check, field by field |
| `RenameWalk.Descend` | native/macos/Sources/AgentPassAtomicRename/main.swift:215-221 | one step down trades the current descriptor for a checked child; a name that cannot be opened changes nothing, and a child that fails its own check stays open beside it |
| `RenameWalk.WalkDown` | native/macos/Sources/AgentPassAtomicRename/main.swift:215-235 | ends exactly where the kernel's answers along the names lead, with one descriptor moved; a failed walk closes where it stood and leaves only a child that failed its own check |
| `RenameWalk.ReachedWalks` | native/macos/Sources/AgentPassAtomicRename/main.swift:215-231 | what a walk reaches, it reaches by entering one checked directory after another, name by name |
| `RenameWalk.HoldBoundary` | native/macos/Sources/AgentPassAtomicRename/main.swift:222-235 | a second descriptor of a checked boundary, or both closed |
| `RenameWalk.OpenBoundary` | native/macos/Sources/AgentPassAtomicRename/main.swift:209-224 | two descriptors of the boundary exactly when the walk, the copy and the owner check go through, or a clean failure |
| `RenameWalk.OpenDirectory` | native/macos/Sources/AgentPassAtomicRename/main.swift:209-238 | success, exactly when the kernel's answers allow it, leaves two new descriptors, of the boundary and of the parent the walks reach; failure leaves none except a just-opened directory that failed its own check |
| `RenameHelper.FileSystem.RenameExclusive` | native/macos/Sources/AgentPassAtomicRename/main.swift:180-184 | the exclusive rename moves one entry or changes nothing, and succeeds only onto an absent name |
| `RenameHelper.CheckSource` | native/macos/Sources/AgentPassAtomicRename/main.swift:174-175 | passes exactly when both checks of the opened file, each at its own moment, find the pinned, valid file |
| `RenameHelper.CheckDestinationAbsent` | native/macos/Sources/AgentPassAtomicRename/main.swift:176-178 | passes exactly when the destination is absent at that moment, the source syncs and the parent still passes its check |
| `RenameHelper.CheckMoved` | native/macos/Sources/AgentPassAtomicRename/main.swift:186-194 | passes exactly when the file then at the destination is the pinned, valid one and both syncs work; its descriptor is closed either way |
| `RenameHelper.RenameAndCheck` | native/macos/Sources/AgentPassAtomicRename/main.swift:180-195 | the rename and what follows it, with its exact success condition and the report of a taken destination, a vanished source and a refusing file system |
| `RenameHelper.PinnedExactly` | native/macos/Sources/AgentPassAtomicRename/main.swift:253-269 | the source check, field by field |
| `RenameHelper.PathLeads` | native/macos/Sources/AgentPassAtomicRename/main.swift:160-163 | when the parent lies inside the boundary, what opening reaches is where the parent path leads, name by name from the root |
| `RenameHelper.MoveFile` | native/macos/Sources/AgentPassAtomicRename/main.swift:171-195 | the source descriptor is closed on every path, and success is exactly that every call finds what it needs |
| `RenameHelper.Execute` | native/macos/Sources/AgentPassAtomicRename/main.swift:156-195 | from paths to exit, with arbitrary other writers and failing calls: it succeeds if and only if the process is the owner, the directories pass and every call finds, at its own moment, what it needs; success means that in the directory to which the parent path leads from the root, through the boundary and checked directories only, the source name became the free destination name and nothing else changed, and that the file then opened there has the owner, device, inode, size and time given; an existing destination is reported as such; every descriptor is closed but for a directory that failed its own check on the way; undisturbed, a failure changes nothing |
| `RenameHelper.UndisturbedExactly` | native/macos/Sources/AgentPassAtomicRename/main.swift:156-195 | with nobody else at work the file is moved exactly when the source is the pinned file, field by field, and the destination is free, and the result is that one move |
| `RenameHelper.MoveConserves` | native/macos/Sources/AgentPassAtomicRename/main.swift:180-184 | a move keeps the multiset of named inodes and every other entry |
| `RenameHelper.HelperConserves` | native/macos/Sources/AgentPassAtomicRename/main.swift:156-195 | every step of the helper conserves the multiset of named inodes and never removes or replaces an existing destination entry |
| `RenameHelper.MovedFileIsPinned` | native/macos/Sources/AgentPassAtomicRename/main.swift:171-194 | in a successful run the file moved was the pinned one if and only if others left the destination name alone between the rename and its open; and it was if they left the source name alone between its open and the rename |
| `RenameHelper.ExchangeGoesUnnoticed` | native/macos/Sources/AgentPassAtomicRename/main.swift:171-194 | a run in which both names are exchanged at those moments: the helper succeeds having moved any other file |
| `StopController.StopIsNeverLost` | native/macos/Sources/AgentPassNativeAgentHost/main.swift:399-423 | in every interleaving of the critical sections, once the later of a stop and a handler registration has returned and the handler was not replaced before the stop, the handler has run, whatever else is still running |
| `StopController.HandlerRunsExactly` | native/macos/Sources/AgentPassNativeAgentHost/main.swift:399-423 | a registered handler has run if and only if some stop finds it stored or was there before it and the later of the two has returned; a handler replaced before any stop never runs |
| `StopController.ReplacedHandlerNeverRuns` | native/macos/Sources/AgentPassNativeAgentHost/main.swift:399-423 | the log of two registrations and a stop: only the second handler runs |
| `StopController.ConnectionInvalidatedExactly` | native/macos/Sources/AgentPassNativeAgentHost/main.swift:385-423 | a connection has been invalidated if and only if some stop meets it while the bootstrap is not known at the later of the two, and that one has returned; in particular whenever both come before the bootstrap is known |
| `StopController.WokenExactly` | native/macos/Sources/AgentPassNativeAgentHost/main.swift:413-423 | the waiter has been woken if and only if some stop has returned |
| `StopController.ActivationSignalController.constructor` | native/macos/Sources/AgentPassNativeAgentHost/main.swift:356-365 | starts without stop, connection or handler |
| `StopController.ActivationSignalController.EnterSetConnection` | native/macos/Sources/AgentPassNativeAgentHost/main.swift:385-391 | the critical section and the decision taken in it |
| `StopController.ActivationSignalController.EnterMarkBootstrapKnown` | native/macos/Sources/AgentPassNativeAgentHost/main.swift:393-397 | the critical section; decides nothing |
| `StopController.ActivationSignalController.EnterSetStopHandler` | native/macos/Sources/AgentPassNativeAgentHost/main.swift:399-405 | the critical section and the decision taken in it |
| `StopController.ActivationSignalController.EnterRequestStop` | native/macos/Sources/AgentPassNativeAgentHost/main.swift:413-423 | the critical section and the decisions taken in it |
| `Activation.DeadlineSeconds` | native/macos/Sources/AgentPassNativeAgentHost/main.swift:552-555 | the deadline lies at least five and less than six seconds after expiry if and only if the session is alive and lasts at most 28800 seconds; it is six seconds for an expired one and capped for a longer one |
| `Activation.PollUntilClosed` | native/macos/Sources/AgentPassNativeAgentHost/main.swift:564-607 | the loop ends at the first turn with a stop, a passed deadline, an impossible status request or a reply other than active, which comes within one turn per second of the deadline; polls, close, status and output are exactly those of the first of these reasons that holds there |
| `Activation.Activate` | native/macos/Sources/AgentPassNativeAgentHost/main.swift:496-608 | a session is started exactly when nothing is missing, and again exactly after a timed-out first reply; every exit before the loop says what was missing, and the loop runs to the deadline of the reply that arrived |
| `ReplyRace.ControlInvocation.constructor` | native/macos/Sources/AgentPassNativeCore/NativeAgentAuthenticatedHostControlXPCClient.swift:93-97 | no callback has come and the connection stands |
| `ReplyRace.ControlInvocation.OnConnectionError` | native/macos/Sources/AgentPassNativeCore/NativeAgentAuthenticatedHostControlXPCClient.swift:98-106 | after any callbacks `failed` holds exactly when no value has arrived |
| `ReplyRace.ControlInvocation.OnReply` | native/macos/Sources/AgentPassNativeCore/NativeAgentAuthenticatedHostControlXPCClient.swift:107-116 | the same, and a value once there is never lost |
| `ReplyRace.ControlInvocation.Wait` | native/macos/Sources/AgentPassNativeCore/NativeAgentAuthenticatedHostControlXPCClient.swift:117-140 | a wait signalled in time gives the first value among all callbacks so far, in whatever order errors and replies came, or without one the latest error, mapped; a wait that was not invalidates the connection |
| `ReplyRace.FirstValueAppend` | native/macos/Sources/AgentPassNativeCore/NativeAgentAuthenticatedHostControlXPCClient.swift:98-116 | a later callback never changes the first value |
| `ReplyRace.SingleReply.Complete` | native/macos/Sources/AgentPassNativeAgentHost/main.swift:335-343 | only the first callback decides the reply |
| `ReplyRace.SingleReply.Wait` | native/macos/Sources/AgentPassNativeAgentHost/main.swift:344-351 | what the waiter ends with: a timeout, what the first callback brought, or a remote failure if it brought nothing |
| `Mutation.MutationsAreSafe` | apps/web-console/app/components/OrganizationPanel.tsx:368-431 | in every run each call invokes its operation exactly once; a finished call was rolled back if and only if its failure was neither ambiguous nor reconciled; a call that reconciles is neither rolled back nor offered again after a committed or ambiguous outcome |
| `Mutation.RollsBackExactly` | apps/web-console/app/components/OrganizationPanel.tsx:380-416 | exactly which replies roll a call back, for every reply and every option |
| `Mutation.BeginExactly` | apps/web-console/app/components/OrganizationPanel.tsx:369-373 | a mutation that begins shows its optimistic view and pending action and clears notice and offer; with something pending in its render it does nothing |
| `Mutation.SettleExactly` | apps/web-console/app/components/OrganizationPanel.tsx:374-426 | what each outcome does to view, pending action, notice and offer |
| `Mutation.ReconciledExactly` | apps/web-console/app/components/OrganizationPanel.tsx:384-414 | the end of a reconciliation puts up the reconciled view, and every outcome but a reconciled success is shown with its notice and a recheck, never a send |
| `Mutation.AmbiguousIsShown` | apps/web-console/app/components/OrganizationPanel.tsx:380-414 | an ambiguous outcome, reconciled well or badly, is on display as one to recheck |
| `Mutation.RecheckExactly` | apps/web-console/app/components/OrganizationPanel.tsx:397-411 | a recheck sends nothing and ends with the view read back |
| `Mutation.DismissExactly` | apps/web-console/app/components/OrganizationPanel.tsx:688-691 | a refresh of the panel clears notice and offer |
| `Mutation.RefusalExactly` | apps/web-console/app/organization-client.ts:491-502 | how a refusal is classified, class by class |
| `Mutation.CodesExactly` | apps/web-console/app/organization-client.ts:496-499 | which codes are taken for a verification, a session, an expiry or a conflict, by the texts that occur in them |
| `Mutation.WordExactly` | apps/web-console/app/organization-client.ts:497-497 | a word stands alone exactly between separators and ends of the text |
| `Mutation.ContainsExactly` | apps/web-console/app/organization-client.ts:499-499 | a text occurs exactly at some position |
| `Mutation.LowerExactly` | apps/web-console/app/organization-client.ts:496-498 | lower case and normal form, character by character |
| `Mutation.NoticeExactly` | apps/web-console/app/components/OrganizationPanel.tsx:982-1004 | the notice of every failure |
| `Mutation.RollbackIsExact` | apps/web-console/app/components/OrganizationPanel.tsx:373-416 | for every call, begun or sent again, and whatever happens in between: a rollback sets its states to the values captured for it and leaves all others alone, so the whole view is the one before the call if and only if the captured values were current then and nothing else was changed since |
| `Mutation.ResendLosesRefresh` | apps/web-console/app/components/OrganizationPanel.tsx:589-593 | a run in which they were not: a resend runs the closure of an older render, and its rollback throws away the members loaded since |
| `Mutation.RollbackMayHideCommit` | apps/web-console/app/organization-client.ts:491-502 | against a server that may commit and lose its reply, a rollback can hide a commit if and only if there is nothing to reconcile with, the request was cancelled in flight, or a server failure carries a code that is read as a definite refusal |
| `Mutation.LostCommitOffer` | apps/web-console/app/components/OrganizationPanel.tsx:416-426 | a mutation that may have committed and was rolled back is also shown with an offer to send it again if and only if the caller gave a retry and the request was cancelled in flight or the code asks for a recent verification, for every error code |
| `Mutation.LostCommitOfferedAgain` | apps/web-console/app/organization-client.ts:491-502 | a concrete such run: a 503 whose code asks for a new verification is rolled back and offered again |
| `Mutation.StepAloneExactly` | apps/web-console/app/components/OrganizationPanel.tsx:368-431 | from a panel with at most one activity a step keeps that if and only if it is timely: a handler rendered with nothing pending, and a button's, runs with nothing pending, and a notice shown while something is pending offers nothing |
| `Mutation.RunAloneExactly` | apps/web-console/app/components/OrganizationPanel.tsx:368-431 | over whole runs: no state has two activities if and only if every step is timely |
| `Mutation.OneOperationAtATime` | apps/web-console/app/components/OrganizationPanel.tsx:368-431 | in a timely run no two operations are ever under way, rechecks and resends included |
| `Mutation.SameRenderSendsTwice` | apps/web-console/app/components/OrganizationPanel.tsx:369-370 | the guard reads the rendered value, so two handlers of one render both send |
| `Mutation.SameButtonRunsTwice` | apps/web-console/app/components/OrganizationPanel.tsx:891-897 | a button's closure reads an older render too: two presses of one rendered offer send twice, or recheck twice |
| `Mutation.FreshPressIsTimely` | apps/web-console/app/components/OrganizationPanel.tsx:891-897 | a press of the button that the present state shows is timely |
| `Mutation.StepKeeps` | apps/web-console/app/components/OrganizationPanel.tsx:368-431 | every step keeps the invariant, and a finished call never changes |
| `Mutation.OrganizationPanel.constructor` | apps/web-console/app/components/OrganizationPanel.tsx:90-92 | starts idle |
| `Mutation.OrganizationPanel.RunMutation` | apps/web-console/app/components/OrganizationPanel.tsx:369-376 | up to the operation's await |
| `Mutation.OrganizationPanel.OperationSettled` | apps/web-console/app/components/OrganizationPanel.tsx:377-429 | from the operation's await: commit, reconcile, or roll back with at most an offer to retry |
| `Mutation.OrganizationPanel.ReconcileSettled` | apps/web-console/app/components/OrganizationPanel.tsx:379-414 | from the reconciliation's await; true exactly for a committed operation that reconciled |
| `Mutation.OrganizationPanel.RenderNotice` | apps/web-console/app/components/OrganizationPanel.tsx:891-897 | the button a render shows is the stored offer, exactly under the notices that show one |
| `Mutation.OrganizationPanel.Press` | apps/web-console/app/components/OrganizationPanel.tsx:397-424 | a press of a rendered button, whatever the state is by then |
| `Mutation.OrganizationPanel.RecheckSettled` | apps/web-console/app/components/OrganizationPanel.tsx:403-410 | the end of a recheck; nothing is sent |
| `Pagination.LoadAll` | apps/web-console/app/components/OrganizationPanel.tsx:922-950 | for every server and bound: returns if and only if the chain of pages ends within the bound without a repeated cursor, and then the pages' items in order |
| `Pagination.CompleteUnique` | apps/web-console/app/components/OrganizationPanel.tsx:922-950 | there is at most one such listing, so loops with different bounds agree whenever both return |
| `Pagination.LoadSwitcherOrganizations` | apps/web-console/app/organization-switcher.ts:18-41 | the same with every identity once: returns the in-order concatenation if and only if the listing exists within the bound and repeats no identity |
| `Pagination.AddPage` | apps/web-console/app/organization-switcher.ts:30-34 | adds one page or refuses exactly when an identity comes twice |
| `Pagination.FindMemberRole` | apps/web-console/app/components/OrganizationPanel.tsx:967-980 | whenever the whole listing exists, the answer is the role of the member at the least index with that identity, if it is active, and otherwise a viewer's; any answer is so for the pages read |
| `Pagination.RoleUnique` | apps/web-console/app/components/OrganizationPanel.tsx:967-980 | there is one such answer |
| `Pagination.SearchPages` | apps/web-console/app/components/OrganizationPanel.tsx:967-980 | the early-exit loop agrees with a search of the listing |
| `StandardInput.ReadStandardInput` | native/macos/Sources/AgentPassLegacyServiceMigration/main.swift:199-211 | the result depends on the stream alone, not on how reads cut it up or are interrupted: the whole of a nonempty input within 64 KiB, and otherwise the right refusal; a read error can only turn it into a failure |

## Left out

- React rendering, focus, copy text, toasts, timers and the parts of the console state that are only shown (roles, audit session, sync labels).
- fetch, XPC, launchd, Keychain, Secure Enclave and code-signature calls: their answers are arbitrary parameters.
- Strength of SHA-256 and HMAC: both are uninterpreted functions; where a proof must not collide, that is a hypothesis of the lemma.
- Swift's canonical equivalence of strings: JSON names are compared as an abstract key type, all other strings as bytes or characters.
- Secure coding of requests, response parsers, onboarding steps and access posture: field checks settled by reading one branch each.
- Process observation, its canonical hashing and the policy language: identities and policies are values and predicates.
- The numeric arguments of the rename helper, its process checks beyond their outcome, and traps on overflow of 64-bit counters; `RenamePaths.ParseOptions` covers the option loop, and paths are bytes.
- Activation.DeadlineSeconds: milliseconds are unbounded integers, so conversion of the clock from floating point and 64-bit overflow are not modelled.
- Activation.PollUntilClosed: it is assumed that the wait between two turns lasts its full second unless a stop was requested.
- Installation and cancellation of the signal sources, and the wake semaphore apart from that assumption.
- Sign-out requests of the console; only the session end they lead to is a step.
- The panel's own organization switch, which shares the pending action with mutations, and the bodies of the single mutations.
- RenameWalk.MtimeExact: counts are unbounded, so the trapping multiplication for times beyond 64 bits is not modelled.
- The server side of the control close, and the check that its answer names the same operation and session.
- A session provider without `replace`: the console's authority always has one.
- StandardInput.ReadStandardInput: a stream that is interrupted for ever has no result.
- The admin activities of the console, which are written by an effect of the same pattern as the capability records of `ConsoleOverlay`, and the emptying of the data by a refused sign-out.
