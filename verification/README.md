# Governance-station coordinator, modelled in Dafny

The App component of the governance station (`client/src/App.js`) keeps a
local mirror of a remote timed-voting contract. It polls the chain clock and
asks the contract to advance when the next execution time is due. From the
phase it then picks which embedded page to show: the administrative set-up
page, the voting page, or none. It also receives results from the embedded
page over `window.postMessage`, checks them, and appends them to a
vote table.

This project models that decision logic as pure functions over one immutable
`State` record. The record holds the phase, the active-group flag, the
show-web-view flag, the two clock texts, the voting URL, the iframe source and
the vote ledger. Every remote read, transaction outcome and clock face is an
input. A failed read or transaction is `None`, `TimeUnavailable`, `AdvanceFailed`,
`BlockUnavailable`, `CreateFailed` or `CloseFailed`.

Files, one module each:

- `wrappers.dfy`: `Option`.
- `text.dfy`: `toString`, `padStart`, `endsWith`, `join` and the `HH:MM:SS` clock text, with round-trip lemmas against an independent reader.
- `app_state.dfy`: the constants (trusted origin, admin URL), `VoteRecord`, `State`, the initial state.
- `gateway.dfy`: `receiveMessage`, plus a separately stated acceptance rule and a lemma about whole bursts of messages.
- `display.dfy`: the phase read, the next-time refresh, the surface decision in `checkAndUpdate`, the two contract-event handlers and the phase banner.
- `scheduler.dfy`: one tick of the polling interval.
- `lifecycle.dfy`: `createGroup`, `closeGroup`, and the whole coordinator as a step function over events, with the ledger's append-only property over runs.

Some behaviours of the code that a reader might not expect, all modelled as written:

- There is no at-most-once advance guard. A tick requests an advance whenever the chain time has reached the next execution time (`Scheduler.NoRepeatGuard`).
- There is no empty-URL guard. A voting phase embeds the stored URL even when it is empty (`Display.VotingSurfaceWithEmptyUrl`).
- The active-group flag is recomputed only by the phase refresh. `checkAndUpdate` mirrors the phase but not the flag, so an advance that lands on Idle leaves the two out of step (`Scheduler.AdvanceToIdleBreaksMirror`).
- Vote data with a proof hash but no transaction link is not logged as incomplete. `subscanUrl.endsWith` throws inside the listener, and the state stays unchanged (disposition `Threw`).
- `setVotingUrl(event.data.voteUrl)` stores an absent URL as `undefined`. That is why `votingUrl` and `iframeSrc` are `Option<string>`.
- A missing `pdfUrl` renders as the text `undefined` in the record's link.

Two assumptions:

- The phase the contract returns is compared with `===` against number literals at `client/src/App.js:195` and `:199`. The model assumes the ABI decoder returns the small enum as a plain number. Were it a BigNumber object, every comparison would fail and every advance would hide the view.
- `toNumber()` throws above `Number.MAX_SAFE_INTEGER`. The model treats such a next execution time like a failed read.

## Model

| member | source | states |
|---|---|---|
| `Text.DecimalRoundTrip` | client/src/App.js:126-128 | the decimal text of a component reads back to the same number |
| `Text.DecimalLength` | client/src/App.js:126-128 | the decimal text has one digit below 10, two below 100, three or more from 100, and starts with 0 only for zero |
| `Text.PadStart` | client/src/App.js:126-128 | padding reaches the width with fill characters on the left and keeps the original text as the suffix; text already wide enough is unchanged |
| `Text.TwoDigitsRoundTrip` | client/src/App.js:284-286 | below 100 a padded component is two digits that read back to the number; from 100 on padding adds nothing |
| `Text.JoinThree` | client/src/App.js:125-129 | joining three components puts the separator only between neighbours |
| `Text.ClockTextRoundTrip` | client/src/App.js:283-287 | for components below 100 the clock text is eight characters with colons at 2 and 5 and parses back to the same hour, minute and second |
| `Text.EndsWithDecomposition` | client/src/App.js:231 | a string ends with a suffix exactly when it is some prefix followed by that suffix |
| `Gateway.ReceiveMessage` | client/src/App.js:216-250 | an untrusted origin changes nothing; the URL is stored, unvalidated, exactly for a trusted SET_VOTING_URL, and only then does the voting URL change; a throw happens exactly for null data or a truthy hash without a transaction link; thrown, incomplete, ignored and untrusted messages leave the state unchanged; the ledger stays the same or gains one record at its end, exactly when the vote is recorded |
| `Gateway.LedgerGrowsIffAcceptable` | client/src/App.js:227-248 | the ledger gains one record if and only if the sender is trusted, the type is VOTE_DATA, the hash is non-empty and the subscan URL is present and ends neither in /None nor in /error; the new last record's link is the trusted origin followed by the document path, its proof is the hash, its transaction link is the subscan URL and its time is the displayed clock text; otherwise the ledger is unchanged |
| `Gateway.ReceiveAllAppendsInOrder` | client/src/App.js:245 | over any burst of messages the old ledger is kept and the accepted records follow it in arrival order |
| `Display.FetchCurrentPhase` | client/src/App.js:54-68 | after a successful read the phase is mirrored and the active flag is true exactly for a non-Idle phase; a failed read changes nothing |
| `Display.UpdateNextVoteTime` | client/src/App.js:121-136 | a successful, safely convertible read shows its clock text; anything else changes nothing; no other field changes |
| `Display.ApplyDisplayPolicy` | client/src/App.js:194-207 | phases 2 and 3 show the admin URL; phases 1 and 4 show the stored voting URL; any other phase hides the view and keeps the source |
| `Display.DisplayFollowsPolicy` | client/src/App.js:195-207 | what is embedded after the decision equals the surface class the phase selects, resolved against the stored voting URL |
| `Display.VotingSurfaceWithEmptyUrl` | client/src/App.js:199-203 | a voting phase with an empty stored URL still shows the view, with an empty source |
| `Display.CheckAndUpdate` | client/src/App.js:179-212 | a failed advance changes nothing; a confirmed one mirrors the phase, refreshes the next-time text as the refresh operation would, and embeds the phase's surface, keeping the old source when the phase hides the view; nothing else changes, in particular not the active flag |
| `Display.RenderPhaseMessage` | client/src/App.js:312-325 | a banner exists exactly for phases 1 to 4: "Next submission: ", "End of submission: ", "Next vote: " and "End of vote: " followed by the next execution time |
| `Display.PhaseBannersDistinct` | client/src/App.js:313-321 | with the same next execution time, two non-idle phases get the same banner only if they are the same phase |
| `Display.PushEventsKeepSurface` | client/src/App.js:96-104 | the contract events change only visibility, never the source: a display event after a hiding phase decision shows the source embedded before it, and a close then display after an admin or voting decision shows that decision's surface again |
| `Display.PushEventsInverse` | client/src/App.js:96-104 | from a shown view, close then display restores the state exactly; from a hidden view, display then close does |
| `Scheduler.PollTick` | client/src/App.js:265-303 | an inactive group does nothing; a failed block read changes nothing; an advance is requested exactly when the block and next time were read, the next time is safely convertible and the chain time has reached it; an advance applies checkAndUpdate; otherwise only the current clock text changes; the flag and ledger are untouched |
| `Scheduler.NoRepeatGuard` | client/src/App.js:296-298 | a tick seeing the same chain time and next time as one that requested an advance requests another |
| `Scheduler.StoredUrlShownInVotingPhase` | client/src/App.js:199-203 | after a due tick of an active group whose advance lands in phase 1 or 4 the embedded source is exactly the stored voting URL |
| `Scheduler.AdvanceToIdleBreaksMirror` | client/src/App.js:186-188 | from a consistent state, an advance keeps the flag and phase consistent if and only if it does not land on Idle |
| `Lifecycle.CreateGroup` | client/src/App.js:143-159 | a failed transaction changes nothing; a confirmed one mirrors a successful phase read consistently, keeps phase and flag when the read fails, and refreshes the next-time text; nothing but phase, flag and next-time text changes |
| `Lifecycle.CloseGroup` | client/src/App.js:162-175 | a confirmed close empties the ledger even when the phase read fails, and mirrors the phase when the read succeeds; a failed one changes nothing; nothing but phase, flag and ledger changes |
| `Lifecycle.StepLedger` | client/src/App.js:169 | every event except a confirmed close keeps the ledger as a prefix and adds at most one record; a confirmed close empties it |
| `Lifecycle.RunWithoutCloseOnlyAppends` | client/src/App.js:245 | over any run without a confirmed close the starting ledger is a prefix of the final one |
| `Lifecycle.LostRecordsMeanClose` | client/src/App.js:168-169 | if the final ledger does not extend the starting one, the run contains a confirmed close |
| `Lifecycle.CloseResetsToIdle` | client/src/App.js:162-169 | any run ending in a confirmed close that reads Idle ends with an empty ledger, Idle phase and no active group |
| `Lifecycle.StepKeepsMirror` | client/src/App.js:61-64 | flag and phase stay consistent across every event except a poll advance that lands on Idle |
| `Lifecycle.InitialIsIdle` | client/src/App.js:25-50 | the starting state is Idle with no group, flag and phase consistent, no view embedded and an empty ledger, and a poll tick from it does nothing |

## Left out

- The ethers `Contract`, `JsonRpcProvider` and `Wallet` calls and `tx.wait()` are not modelled. Their results are inputs: phase reads, time reads, transaction outcomes and block timestamps.
- Subscribing to and unsubscribing from contract events is not modelled; it is framework and RPC plumbing. The two handlers themselves are modelled.
- React hooks, effect registration and cleanup, and `setInterval` timing are not modelled. Neither is the interleaving of async handlers. This includes stale closures, where a tick uses the `votingUrl` of an earlier render, and overlapping ticks. The model applies each handler atomically.
- The value of `getCurrentWebViewState` is read and never used. Only its failure matters, and that is folded into `AdvanceFailed`.
- The conversion of epoch seconds to local hours, minutes and seconds through `Date` depends on the time zone. The components are inputs (`ClockFace`). That includes the `NaN` text an out-of-range `Date` would give.
- Display.UpdateNextVoteTime: the displayed text is the clock text of the given face. Whether the face matches the epoch seconds is not checked, because the `Date` conversion is outside the model.
- Payload fields holding non-string JavaScript values (numbers, objects) are not modelled, and neither are non-object `event.data` values. Fields are strings or `undefined`, and `event.data` is a payload or null.
- `increaseBlockTimeAndNumber` is not modelled. It is a test hook that moves the local chain forward and changes no local state.
- `alert`, `console` logging and all JSX rendering are not modelled. The rendered iframe is summarised by `Display.Rendered`.
- The contract's own phase transition rules are not modelled. Its source is not part of this model; the contract tests only call it over RPC.
- The deployment script and the build configuration are not modelled; they contain no logic.
