# What the Whisper CLI's protocols keep

A Dafny 4.11 model of the parts of the Whisper command line that decide things over many steps, and proofs of
what they keep. `dafny verify dfyconfig.toml` checks all of it.

The command line holds an agent's identity key on a host and moves it by pre-commitment: every key event on the
service's append-only chain names the digest of the next key, which this host minted and stored before. Commands
may crash, lose an answer, and run several at once on one host. The same program keeps an alert queue folded into
campaigns and watched through failing reads, finds the one agent a person means, enrols a device in two ways that
must agree, and reads and writes a few formats.

| file | what it models |
|---|---|
| `KeyMoves`, `RotationRuns`, `RotateCommand`, `RotationBound` | the key store, the chain, rotate, the connect-time commit and heal as processes; every run of any number of them; the command's own attempt loop; where the walk along moves runs out |
| `Vault`, `VaultChain`, `KeyCommands`, `AdoptRun` | every durable step and disclosure of all key commands as one system, and the chain beside it; recover, birth, first connect and heal over it; the `--adopt-key` connect with the self-heal under it |
| `AlertModel`, `Ordering`, `Folding`, `FoldingLaws` | rows, the stable sort, folding into campaigns, and what folding keeps |
| `Judging`, `Watching`, `WatchLoop` | what pages a person; snapshots and their differences; the watch loop |
| `AgentSelection`, `Enrolment`, `Selectors`, `Text` | one agent from a selector; the two enrolments; a row's printed name read back |
| `FirstSight`, `Container`, `CallerNames`, `Paging`, `Wrappers` | the first-writer-wins record; the `.wenc` container; accepted connections' records; reads that follow pages |

Imperative code keeps its form: classes with the source's fields, loops over arrays of rows, methods proved against
a function of the same inputs. A service is given by what it answers to each request and to each read, by their
number, and may answer anything. Where another process runs or a write may fail, a method chooses arbitrarily; what
a command comes to when nothing disturbs it and every write is done is stated beside what holds in any case.
Digests and commitments are modelled as the values they digest, a signed statement as the event it asks for.

Several properties the code's comments promise hold only under a condition. Each is stated as an if-and-only-if
with the condition, and a second lemma gives an input on which it fails:

- A load follows at most 1024 recorded moves, so from the birth key an identity moves at most 1025 times
  (`RotationsAreBounded`), and a rerun's record is read back only while the walk has room
  (`LostAnswerIsResentUnchanged`; every committed birth has a run that uses it up: `RecordsOutrunTheWalk`).
- A disclosed key is on disk unless some step cost this host that very key (`LostExactly`, `FirstKeyHeldExactly`): a
  first key whose best-effort save failed is sent although no store holds it (`SentUnheld`; undisturbed, exactly then
  in `FirstConnect`), and one is when another first connect of the name writes over its file (`OverwrittenUnheld`).
- A birth key is removed when what came back reads as a refusal, also when the service took the birth and a gateway's
  error page came back for it (`OrphanedExactly`, `GatewayErrorOrphansBirth`).
- A refused adopt is re-sent as it was, not over the new hosted key, when the history names no ref of the address or
  no key (`ResentExactly`, `RefusedStatementIsResent`).
- A fold runs on for ever when a campaign starts within a window of the last 64-bit millisecond (`FoldExactly`,
  `LastMillisecondDiverges`); an unstamped row takes its whole group into one campaign, whatever its span
  (`FitsExactly`, `UnstampedDoesNotFit`).
- The gate and the document count differently when the stale-acknowledgement bound is not positive
  (`CountsAgreeExactly`, `ZeroBoundForgets`).
- The change kinds alone do not replay a watch; the alert carried with an opening is needed (`KindsAloneExactly`,
  `KindsAloneMissAHeldOpening`).
- Checks of one head can keep different first sights after a torn record, after one link that fails for anything but
  a file being there, or with a clock in the epoch's first millisecond or before it (`FirstWriterWinsExactly`; `TornSplits`,
  `LinkFailureSplits`, `OldClockSplits`).
- A listed address with white space round it passes the preview and fails the forced ladder; a row with no handle is
  recorded by its label in one and by nothing in the other (`ProgramsAgree`; `SpacedAddressSplits`,
  `MissingHandleSplits`).
- Lengths of 65536 and more wrap in the `.wenc` header (`RoundTrip`, `LongRecipientIsLost`); an endpoint named by
  something that reads as no address, and a vulnerability id ending in a dot, do not find their own row
  (`RefRoundTripsExactly`; `UnreadAddressIsLost`, `LastDotIsLost`).

## Model

| member | source | states |
|---|---|---|
| RotationRuns.HeadIsRecordedOrNext | internal/cli/identity_kel.go:148-230 | in every run of any number of rotates, commits and heals on one host, with crashes, lost, late and repeated requests, and other identities' commands changing the store, the chain's key is the recorded key or its stored next key |
| RotationRuns.EveryCommitmentIsHeld | internal/cli/kel_moves.go:281-326 | every commitment on the chain is to a key on this host's disk |
| RotationRuns.DurableBeforeWire | internal/cli/identity_kel.go:194-213 | every statement ever sent has its key and the key it commits to on disk |
| RotationRuns.RotationsAreBounded | internal/idkey/chain.go:194-220 | the bounded walk along recorded moves bounds how far the chain's key ever gets from the birth key |
| RotationRuns.LostAnswerIsResentUnchanged | internal/cli/identity_kel.go:170-227 | a rerun after an unanswered rotation rebuilds exactly the head event, the chain gains nothing, the move is recorded, and a load reads the head's key iff the walk had room |
| RotationBound.RecordsOutrunTheWalk | internal/idkey/chain.go:194-220 | from every birth committed to a next key some run records as many moves as the walk follows, and the next rotation, rerun after a lost answer, is recorded and not read |
| RotationBound.SomeBirthOutrunsTheWalk | internal/idkey/chain.go:194-220 | one such birth, with its store and its chain |
| RotationRuns.UnansweredIsOurRotation | internal/cli/identity_kel.go:171-180 | a head that is the recorded key's next key was put there by this host's rotation from the recorded key |
| RotationRuns.RunKeeps | internal/cli/identity_kel.go:148-230 | the invariant of the whole system over every action of every run |
| RotationRuns.AdvanceKeeps | internal/cli/kel_moves.go:281-326 | one action of any process, whatever it hears, keeps the record on the line and never ahead of the chain |
| RotationRuns.HealKeeps | internal/cli/kel_moves.go:335-414 | a heal records a move only when a history shows it, so it too keeps the invariant |
| RotationRuns.ServedKeeps | internal/cli/kel_moves.go:101-121 | whatever statement is delivered, however late, the chain stays one this host's keys carry |
| RotationRuns.FollowReaches | internal/idkey/chain.go:194-220 | following recorded moves reaches the end of the record, or the bound |
| RotationRuns.LoadReads | internal/idkey/idkey.go:220-226 | a load reads the last recorded key the walk can reach, and it is on disk |
| RotationRuns.EventAtFinds | internal/cli/identity_kel.go:97-107 | the event at a sequence is found in a history numbered from its start |
| RotateCommand.Host.RotateIdentity | internal/cli/identity_kel.go:148-230 | the command is a run of that system; on success its key is the chain's and a load reads it while the walk has room, on failure the record is as it was; with whole reads, what its sends meet and what arrives late decide answer and chain; with nothing late, over a committed head one send of the rotation, and one more exactly when the first is turned away because the head moved; over its own unanswered rotation one send, whatever that meets; over a sealed head the commitment, again at most once, and once it is heard one send of the rotation |
| RotateCommand.Host.Attempt | internal/cli/identity_kel.go:156-228 | one time round the loop; with whole reads, the key, the next round or the end that the specified round gives for the fate of its send |
| RotateCommand.Host.RevealAndRecord | internal/cli/identity_kel.go:194-228 | nothing is recorded unless the answer names the new key as a committed chain's; a send turned away because the head moved goes round again, once and never after a rewind, and any other refusal ends it |
| RotateCommand.Host.Reveal | internal/cli/identity_kel.go:194-213 | the key after next is stored and the rotation noted before the send |
| RotateCommand.Host.CommitSealed | internal/cli/kel_moves.go:286-326 | the next key is stored first; turned away because the head moved, the commitment is sent once more over the head as it then is, unless that is committed; no more than that is sent |
| RotateCommand.Host.Exchange | internal/cli/kel_moves.go:229-257 | a request may not arrive, be answered unheard, be refused or be heard; only a heard answer is taken in |
| RotateCommand.CalmDecision | internal/cli/identity_kel.go:156-189 | at an undisturbed head the decision is never a refusal, and what it signs is accepted and confirmed |
| RotateCommand.RoundsComeTo | internal/cli/identity_kel.go:156-230 | the loop over any fates of its sends, while nothing arrives late and reads are whole: its answer, the number of its sends and the chain it leaves, case by case |
| RotateCommand.RivalCommits | internal/cli/kel_moves.go:300-326 | a commitment turned away because another run moved the head is not sent again over a head that is committed by then: it is done iff that commits to this host's next key |
| RotateCommand.MoveIsRead | internal/idkey/chain.go:129-146 | a recorded move is the key the next load reads, while the walk has room |
| Vault.DurableBeforeWire | internal/cli/identity_kel.go:278-306 | in every interleaving of all key commands' steps, a disclosed key is on disk unless some step cost this host that very key, and every commitment's key stays on disk |
| Vault.LostExactly | internal/idkey/idkey.go:198-215 | a key is among the lost iff some step of the run was its own failed save, the removal of its handle's file, or a save over it |
| Vault.SentUnheld | internal/idkey/idkey.go:198-215 | a failed best-effort save lets a key be sent that no store holds |
| Vault.FirstKeyHeldExactly | internal/idkey/idkey.go:198-215 | a first key, saved or not, is on disk after whatever else this host's commands do iff no step cost this host that key |
| Vault.OverwrittenUnheld | internal/idkey/idkey.go:198-215 | two first connects of one name: the first's key is sent and the second writes over its file |
| Vault.RunPreserves | internal/idkey/chain.go:28-37 | keys, next keys and moves, once stored, are never removed or changed by any command |
| Vault.RunSafe | internal/idkey/chain.go:94-117 | disciplined steps keep every disclosure backed by the disk |
| Vault.MoveStepIsDisciplined | internal/cli/identity_kel.go:194-227 | every step of rotate, commit and heal is a disciplined one, whatever runs beside it |
| Vault.ReadyStays | internal/cli/identity_kel.go:194-213 | what a rotate or commit has secured at any of its points stays so whatever the other commands do |
| Vault.LeadsSafe | internal/cli/connect_birth.go:18-29 | from any backed state every disciplined run leads to a backed one |
| VaultChain.ChainIsBacked | internal/idkey/chain.go:28-37 | in every run of every command, recoveries and adopts included, the key of every event on the chain is on disk unless some step cost this host that very key, and every commitment is to its own key's next key, on disk for good |
| VaultChain.CommittedHeadCanRotate | internal/cli/kel_moves.go:101-121 | over any committed head the service takes the rotation to the committed key, and that key is on this host's disk |
| KeyCommands.Host.RecoverIdentity | internal/cli/identity_kel.go:276-319 | the key it sends is held for good before it is sent, over a signable head that does not name it; it is done iff the head read, or the answer to what was sent, names it; until then the next run finds and sends that very key; undisturbed and with every write done, a recovery the service confirms ends recovered iff the handle's file reaches that key or there is none, or the held key has moved nowhere else, and then the key is where connects find it and no longer pending |
| KeyCommands.Host.RecoveryKey | internal/idkey/chain.go:312-341 | the key kept already, or a fresh one stored and then named; the same on every later ask |
| KeyCommands.Host.KeepRecovered | internal/cli/identity_kel.go:321-338 | a link when none or the same key is held, a move otherwise, and the pointers go only after it succeeded; undisturbed and with every write done it succeeds iff the handle's file, or the held key's one move, is free or leads to that key |
| KeyCommands.KeepableStays | internal/cli/identity_kel.go:276-306 | whether a recovered key can be kept is decided by the store before the command: naming it and storing its keys changes nothing of that |
| KeyCommands.Host.Link | internal/idkey/idkey.go:232-284 | never replaces a handle's file; success when the file reaches the key already |
| KeyCommands.Host.RecordMoved | internal/idkey/chain.go:125-146 | a key moves once |
| KeyCommands.Host.BirthConnect | internal/cli/connect_birth.go:60-101 | a birth key is stored under the address before it is sent and not sent when it cannot be; afterwards the store is the one before, with the key under the address unless the wire read as a refusal and its file was removed |
| KeyCommands.OrphanedExactly | internal/cli/connect_core.go:170-183 | a birth leaves a published key no store holds iff the service took it, what came back was read as a refusal, and the key's file was removed |
| KeyCommands.GatewayErrorOrphansBirth | internal/client/envelope.go:250-257 | a page that is no JSON, in place of the answer to a birth that was taken, leaves one iff its status says error and the key's file can be removed |
| KeyCommands.Host.LoadOrGenerate | internal/idkey/idkey.go:198-215 | the handle's key, or a minted one no store held and no one was shown, stored iff the save succeeded |
| KeyCommands.Host.FirstConnect | internal/cli/connect_core.go:486-514 | nothing is offered where no key may be minted or a recovery is pending; the request carries a commitment only once that is stored, and goes once more without it exactly when the refusal is about it; a first key sent is on disk afterwards iff it was saved |
| KeyCommands.Host.HealWithSuccessor | internal/cli/kel_moves.go:335-406 | the revealed next key, the pending recovery and then the outgoing key are each tried once, until the reply to one names it as the chain's key or the pin; a move is recorded only to a successor, and only when the history served walks to it, and then always when every write is done |
| KeyCommands.SuccessorsExactly | internal/cli/kel_moves.go:335-358 | the keys tried: the next key once stored and its rotation noted, and the pending recovery while its key is kept |
| KeyMoves.MoveIsWalked | internal/cli/kel_moves.go:445-470 | a history that shows a move begins an identity, numbers and links its events, reveals only what was committed to, and has both keys |
| KeyMoves.RotationIsAMove | internal/cli/kel_moves.go:445-470 | a rotation from the key at a walked history's head is a move in the history it leaves |
| KeyCommands.HealedExactly | internal/cli/connect_core.go:251-264 | no refusal is healed iff the connect carries no proof by the held key, and carries an event's signature only with an adopt |
| AdoptRun.Adopt.ConnectTierEnvelope | internal/cli/connect_core.go:144-195 | the whole adopt, through the self-heal and against any service: it opens over the head it read, or unsigned; it goes out unsigned when this host has the key and there is nothing to sign, and signed over that head when there is and every write is done; at most three sends, of which one that is unsigned after a signed one is the last, right after a deferred answer for a service not ready; every key it sends is stored first; undisturbed, with no other recovery in the way, its sends, its reads and its end are exactly those the service's answers call for, a moved head signed again over the head read anew included |
| AdoptRun.Adopt.Connect | internal/cli/adopt_recovery.go:312-318 | an adopt goes out exactly once, as it was prepared, whatever it is refused for |
| AdoptRun.Adopt.ConnectWithSelfHeal | internal/cli/connect_core.go:219-274 | one request, and for a refusal the one arm it takes: the proof left out, the event left out, a successor's proof for each that may be tried, or nothing more |
| AdoptRun.Adopt.ConnectAsSuccessor | internal/cli/kel_moves.go:359-406 | the same request with the proof of each successor, then of the outgoing key, until an answer names it, which is then the connect's answer; else the refusal stands |
| AdoptRun.Adopt.SettleAdopt | internal/cli/adopt_recovery.go:320-392 | a head that moved is read once more: nothing goes out when it cannot be read, when a hosted identity took another key or when there is nothing to sign there; else the statement over that head goes out, undisturbed and with every write done always, and a connect that could not store what it needs fails; any other answer adds one unsigned send iff a signed adopt was told to wait, and nothing otherwise; each end is told |
| AdoptRun.Adopt.CourseOpens | internal/cli/adopt_recovery.go:52-119 | the specified course opens as the selection and the single read say: with a failure, unsigned, or with the statement over the head read |
| AdoptRun.Adopt.FirstAnswerTells | internal/cli/connect_core.go:144-195 | what each first answer leads to: no answer or a refusal ends the connect, a signed adopt told to wait goes out once more unsigned, any other answer is the last |
| AdoptRun.Adopt.MovedHeadTells | internal/cli/adopt_recovery.go:335-356 | told that the head moved: over which heads the statement goes out again, which one, and what its answer leads to |
| AdoptRun.Adopt.BadSignatureTells | internal/cli/adopt_recovery.go:222-244 | told that a hosted inception's signature is bad: when it goes out again, over which key, and what its answer leads to |
| AdoptRun.PointersExactly | internal/cli/adopt_recovery.go:246-261 | the pointers a kept recovery is named from: the address's, the handle's, and that of another key held |
| AdoptRun.Adopt.ResignMovedHead | internal/cli/adopt_recovery.go:335-356 | nothing is sent over a history that cannot be read, a hosted identity that took another key, or a head there is nothing to sign over; a statement that could not be stored fails the connect |
| AdoptRun.Adopt.SettleMove | internal/cli/adopt_recovery.go:357-391 | a move in effect is finished on this host, a service that is not ready takes the unsigned form and the kept recovery is forgotten, and any other outcome changes nothing |
| AdoptRun.Adopt.FinishKeptRecovery | internal/cli/adopt_recovery.go:263-293 | undisturbed and with every write done, a recovery kept for this address is finished iff the store can keep it: connects for the address find it and no pointer names it; else nothing changes, and one that is not due is left alone |
| AdoptRun.Adopt.ResignHostedAdopt | internal/cli/adopt_recovery.go:222-244 | after an unverifiable hosted statement the history is read once; nothing goes out unless it names another hosted key than the one signed over, or none; what goes out is another statement iff it names the ref and a key, and it does go out unchanged when it names neither |
| AdoptRun.ResentExactly | internal/cli/adopt_recovery.go:237-243 | the statement sent again is another one iff the history names this address's ref and a hosted key |
| AdoptRun.RefusedStatementIsResent | internal/cli/adopt_recovery.go:191-196 | a history naming neither makes the refused statement go out again as it was |
| AdoptRun.Adopt.SignAdopt | internal/cli/adopt_recovery.go:143-182 | what was signed is withdrawn first; it fails, or signs iff the head is one to sign over, and then over that head; a recovery only once key, next key and pending recovery are kept |
| AdoptRun.Adopt.SignHostedAdopt | internal/cli/adopt_recovery.go:186-218 | signs over the hosted key the history names, or leaves plan and arguments as they were |
| AdoptRun.Adopt.KeepAdoptRecovery | internal/cli/adopt_recovery.go:246-261 | undisturbed, the key is kept and named from every pointer, or another recovery pending at any of them stops it and no pointer changes |
| AdoptRun.Adopt.PlanAdopt | internal/cli/adopt_recovery.go:52-119 | without an address nothing is signed and only a retryable failure stops the connect; with one, what the single read of the history says decides whether it fails, signs over that head, or goes unsigned |
| AdoptRun.Adopt.PrepareIdentityKey | internal/cli/connect_core.go:439-463 | the held key first, then the kept recovery's, and only then one minted that no store holds, never as root |
| AdoptRun.Adopt.StoreAdoptedKey | internal/cli/connect_core.go:197-217 | a key not stored yet is linked under the handle, and one that cannot be stops the connect before the send |
| Folding.Fold | internal/alerts/book.go:340-386 | the loops compute the fold, or do not end, exactly as the specification says |
| Folding.FindWorstLane | internal/alerts/book.go:388-396 | the loop finds the first worst lane |
| FoldingLaws.FoldExactly | internal/alerts/book.go:360-372 | the fold ends iff no campaign's start plus the window passes the last 64-bit millisecond, and is then the ideal one |
| FoldingLaws.LastMillisecondDiverges | internal/alerts/book.go:364-372 | one row at the last millisecond makes it run on for ever |
| FoldingLaws.FoldConserves | internal/alerts/book.go:340-386 | every row is in exactly one campaign as often as it came; lanes worst first, equal lanes in order |
| FoldingLaws.CampaignsOfKey | internal/alerts/book.go:357-381 | one key's campaigns are its rows in stamp order, ties as they came, cut into windows |
| FoldingLaws.CampaignsAreProper | internal/alerts/book.go:373-396 | a campaign holds rows of one key, is dated by its first, and its lane is as bad as its worst row's |
| FoldingLaws.FoldIsOptimal | internal/alerts/book.go:335-381 | each of a stamped key's campaigns fits the window asked for, in its own nanoseconds and an hour when none is, and no way of sharing the rows among as wide windows has fewer parts |
| FoldingLaws.NoSmallerCover | internal/alerts/book.go:360-381 | greedy cutting is a smallest cover |
| FoldingLaws.FitsExactly | internal/alerts/book.go:361-372 | every campaign of a key fits the window iff its rows are all stamped or all fit it together |
| FoldingLaws.UnstampedDoesNotFit | internal/alerts/book.go:361-363 | an unstamped row and one past the window make a campaign that does not fit |
| FoldingLaws.UnstampedSwallows | internal/alerts/book.go:361-363 | a group whose first row is unstamped is one campaign |
| FoldingLaws.IdFoldsWithTechnique | internal/alerts/book.go:346-350 | a row without technique folds with a technique iff its id spells it |
| Ordering.SortIsStable | internal/alerts/book.go:359 | the stable sort: in order, the same elements, equals as they came |
| Judging.FindSevered | internal/alerts/book.go:250-271 | the loop finds the specification's severing action |
| Judging.SeveredIsLatest | internal/alerts/book.go:250-271 | found iff some action severs, and then the latest |
| Judging.SeveredIsFirst | internal/alerts/book.go:266-268 | of several at one time, the first in the trail |
| Judging.SeveredAnyOrder | internal/alerts/book.go:250-271 | the verdict and its time do not depend on the trail's order |
| Judging.ContainmentOnlyQuiets | internal/alerts/book.go:205-238 | a longer trail never makes more rows page |
| Judging.MoreTrailQuiets | internal/alerts/book.go:220-222 | no row pages under a longer trail that did not before |
| Judging.PagesExactly | internal/alerts/book.go:188-238 | which rows page, in the fields of the row, of its endpoint and of the trail's actions: open, act-now, no action that says ok in any case of its own address since it began and not after now, and held too long or nobody's and not quiet for being offline |
| Judging.OnlyLandedQuiets | internal/alerts/book.go:247-257 | a trail in which nothing landed pages exactly the rows that page with no trail at all |
| Judging.FailedContainmentPages | internal/alerts/book.go:254-257 | one act-now row: a failed containment leaves it paging, one that landed does not |
| Judging.ContainedExactly | internal/alerts/book.go:250-271 | a row is severed iff some action of the trail contains it, in the action's own fields |
| Judging.PagingIsExact | internal/alerts/document.go:124-129 | the rows counted are exactly those that page, in the book's order |
| Judging.LoudExactly | internal/alerts/book.go:163-183 | a technique may never go quiet iff it is one of the five or a sub-technique of one, in any case and with space round it |
| Judging.SubTechniquesNeverQuiet | internal/alerts/book.go:163-183 | a sub-technique of a never-quiet technique is never quiet |
| Judging.CountPaging | internal/alerts/document.go:124-129 | the document's count is the number of paging rows under the rendering bound |
| Judging.Check | internal/cli/alerts.go:662-696 | the gate never passes an incomplete read, and names exactly the rows that page under the bound as given |
| Judging.CountsAgreeExactly | internal/cli/alerts.go:677-682 | gate and document count alike iff the bound is positive or no act-now row was held unmoved over a day |
| Judging.ZeroBoundForgets | internal/cli/alerts.go:677-682 | with no bound and a row held for two days, the gate counts none and the document one |
| Judging.SayHeadline | internal/alerts/book.go:400-436 | the headline counts the rows the document counts, says nothing when there are none, and counts the rows waiting beside them, naming their holder iff it is one person |
| Judging.WaitsExactly | internal/alerts/book.go:407-418 | which rows are waiting on somebody, in the same fields |
| Judging.SilentExactly | internal/alerts/book.go:205-217 | a row is in neither the page nor the digest iff it is not open or is banded below review |
| Judging.SoleHolder | internal/alerts/book.go:438-455 | the first holder iff every row has that one in any case |
| Watching.Snap | internal/alerts/watch.go:74-93 | the two passes give the last row of each ref with that row's own alert |
| Watching.SnapTells | internal/alerts/watch.go:74-93 | what is remembered under a ref, in the fields of its last row: lane, state, holder, whether it is contained, and an alert of that row that says page iff it pages |
| Watching.SnapsAreConsistent | internal/alerts/watch.go:74-93 | a snapshot's alerts and holders agree, duplicate refs included |
| Watching.SortedRefs | internal/alerts/watch.go:108-112 | whatever order a map's keys are met in, sorting gives the one listing |
| Watching.OneListing | internal/alerts/watch.go:108-112 | a set of refs has only one ascending listing |
| Watching.Diff | internal/alerts/watch.go:103-157 | the loops emit the specified changes in order |
| Watching.DiffReports | internal/alerts/watch.go:103-157 | a change is in a diff iff it reports what moved between the two: for each kind when, with which two sides, which lane and which alert |
| Watching.DiffInOrder | internal/alerts/watch.go:103-157 | what stands comes before what is gone, each by ref, one ref's changes in the kinds' order, none twice |
| Watching.DiffReplays | internal/alerts/watch.go:103-157 | replaying a diff over the older queue gives the newer refs, each held as the reader was told |
| Watching.RunReplays | internal/alerts/watch.go:103-157 | over any run of snapshots the stream replays the first queue into the last |
| Watching.KindsAloneExactly | internal/alerts/watch.go:113-119 | kinds alone replay a diff iff nothing opened already held |
| Watching.KindsAloneMissAHeldOpening | internal/alerts/watch.go:113-119 | one row that opens with somebody on it already is left free by the kinds |
| Watching.QuietExactly | internal/alerts/watch.go:11-23 | a diff is empty iff the same refs stand and none went up a lane, changed hands or was severed: scores, titles and demotions emit nothing |
| Watching.DiffWithItself | internal/alerts/watch.go:103-157 | a snapshot does not differ from itself |
| WatchLoop.Watcher.Run | internal/cli/alerts_watch.go:141-157 | after any polls the stream is the differences of the reads that answered, `changes` counts it, notices, signs of life and state are what the polls determine |
| WatchLoop.Watcher.Poll | internal/cli/alerts_watch.go:159-215 | one poll keeps that; a failed or cancelled one emits no change; the first answer emits nothing even after a failed opening |
| WatchLoop.Watcher.Beat | internal/cli/alerts_watch.go:210-222 | signs of life come a whole interval apart |
| WatchLoop.MarksKeepTheBeat | internal/cli/alerts_watch.go:197-222 | signs of life are a whole interval apart and each at an answer, at every answer the last one is less than an interval old, and without an interval there is at most the baseline |
| WatchLoop.KeptExactly | internal/cli/alerts_watch.go:191-199 | the rows watched are exactly those the selector takes, with the row's own endpoint, in their order |
| WatchLoop.NoticesAlternate | internal/cli/alerts_watch.go:174-189 | failure and recovery notices take turns, a failure first |
| WatchLoop.WatchReplays | internal/cli/alerts_watch.go:141-215 | whatever fails in between, the emitted stream replays the first answer's queue into the last one's |
| AgentSelection.SelectAgent | internal/cli/agent_resolve.go:202-235 | the loop computes the verdict of exact and folded matches, each de-duplicated greedily |
| AgentSelection.AppendDistinct | internal/cli/agent_resolve.go:237-248 | a row joins unless the same agent is there |
| AgentSelection.SelectAnyOrder | internal/cli/agent_resolve.go:202-235 | row order decides nothing: same verdict, same number of candidates, and a single winner is the same agent |
| AgentSelection.ExactBeatsFolded | internal/cli/agent_resolve.go:202-235 | where any row is typed exactly the candidates are such rows, otherwise those typed in another case; either way all of them, one for each agent |
| AgentSelection.PrefixIsOptional | internal/cli/agent_resolve.go:184-200 | an id is the same with its prefix, in any case and with space before it |
| AgentSelection.DistinctAnyOrder | internal/cli/agent_resolve.go:237-248 | greedy de-duplication keeps the same number in any order, and the same one when it keeps one |
| AgentSelection.DistinctCounts | internal/cli/agent_resolve.go:237-248 | it keeps one row for each identity and each row that is like no other |
| AgentSelection.SameAgentIsSameIdentity | internal/cli/agent_resolve.go:237-248 | the test is equality of address value or id core, and nothing for a row with neither |
| AgentSelection.SelectsExactlyKnown | internal/cli/agent_resolve.go:202-285 | something is selected iff some row matches |
| AgentSelection.AccountAgents | internal/cli/agent_resolve.go:261-285 | known iff some row matches, or the listing could not be read |
| Enrolment.ProgramsAgree | internal/cli/enroll_fix.go:137-236 | a plan that is not refused has the forced ladder's rung; the same address iff the listing's has no space round it; the same recorded agent iff there is a handle, and then the same saved agent |
| Enrolment.TakenStands | internal/cli/agents.go:1143-1169 | what either program takes off the listing is a row whose state is none or active and that has an address: the marker's own, or the newest called by the first name that is anybody's |
| Enrolment.StandingIsNotPassedOver | internal/cli/enroll_fix.go:137-168 | with one of the names on such a row nothing new is registered |
| Enrolment.MarkedIsBoundAgain | internal/cli/enroll_fix.go:137-160 | the marker's own row is bound again unless a name was given |
| Enrolment.BoundStands | internal/cli/enroll.go:198-330 | what the ladder, or acting on a plan, binds off the listing is such a row's address, with its handle and name where it gives them |
| Enrolment.RevokedIsNotReused | internal/cli/agents.go:1157-1161 | a revoked agent of this name is not bound again |
| Enrolment.RegisteredIsBound | internal/cli/enroll.go:536-551 | with nothing to bind, what a registration answered is bound as it stands |
| Enrolment.SavedExactly | internal/cli/enroll.go:343-376 | a person's saved agent stays iff the account lists it and it is not the one bound before, or the one bound now has no handle or is the one saved; otherwise it becomes that one |
| Enrolment.ServiceSavedExactly | internal/cli/enroll.go:336-345 | a service's own is replaced iff it has none or that is the identity bound before, listed or not |
| Enrolment.PlannedExactly | internal/cli/enroll_fix.go:195-271 | when a plan goes ahead |
| Enrolment.SpacedAddressSplits | internal/cli/enroll.go:317-321 | a listed address with a space before it: the plan goes ahead and the ladder stops |
| Enrolment.MissingHandleSplits | internal/cli/enroll.go:536-551 | a listed label with no handle: the two record different agents |
| Enrolment.NewIdentitiesAgree | internal/cli/enroll.go:489-518 | registering a new identity, both do the same with an answer; without one the plan stops and the ladder goes on |
| Enrolment.Device.RunEnroll | internal/cli/enroll.go:198-380 | the ladder as it runs for a person or a machine's service, with what a lenient reading makes of a marker cut short, computes its specification; a service that holds another key stops it first, one that holds none is given this run's, and nothing is written when it stops |
| Enrolment.Device.ActEnroll | internal/cli/enroll_fix.go:488-535 | acting does what the plan says and writes nothing when it stops |
| Enrolment.RegisteredAgentIn | internal/cli/agents.go:1048-1067 | the newest agent under a name, the first listed of equals |
| Enrolment.NewestIsFirstOfLatest | internal/cli/agents.go:1048-1067 | there is a newest iff somebody answers to the name; nobody who does was made later, and nobody listed before was made as late |
| Enrolment.ReplaceSaved | internal/cli/enroll.go:361-373 | the saved agent is replaced iff there is none, it names the identity bound before, or the account lacks it |
| Enrolment.PlanDiff | internal/cli/enroll_fix.go:418-439 | names each of the thirteen fields iff it differs, and nothing iff the plans are equal |
| Enrolment.RunPreview | internal/cli/enroll_fix.go:690-777 | a token iff the facts give a plan that can go ahead and its token is short enough to be read; and a confirm of that token acts, with the preview's name or none, while nothing changes |
| Enrolment.RunConfirm | internal/cli/enroll_fix.go:797-846 | acts iff the fresh plan equals the token's and is not refused, and writes nothing otherwise |
| Enrolment.PreviewThenConfirm | internal/cli/enroll_fix.go:764-812 | while nothing changes, the token of a plan that can go ahead is confirmed, with its own name or none |
| Selectors.RefRoundTripsExactly | internal/alerts/model.go:122-135 | when a row's printed name parses back into a selector that matches it, and exactly when it does not |
| Selectors.RefFindsExactly | internal/alerts/model.go:511-573 | which rows a printed name finds: those of its own condition, as technique or id, on its own agent, address or endpoint, and no other |
| Selectors.WordParses | internal/alerts/model.go:413-441 | a word alone is a condition iff it looks like a vulnerability's id or a technique's, character by character, and a subject otherwise |
| Selectors.PrefixLengthIsDropped | internal/alerts/model.go:551-564 | an address reads the same with a prefix length after it |
| Selectors.SubjectParses | internal/alerts/model.go:413-441 | subject and condition come back as they were, a subject with its prefix length included |
| Selectors.ConditionParses | internal/alerts/model.go:413-425 | a bare condition comes back but for a last dot |
| Selectors.UnreadAddressIsLost | internal/alerts/model.go:525-549 | a row on an endpoint named by no address is not found by its name |
| Selectors.LastDotIsLost | internal/alerts/model.go:418-422 | a vulnerability id ending in a dot is not found by its name |
| Selectors.SignedPrefixLength | internal/alerts/model.go:446-452 | a signed number counts as a prefix length |
| FirstSight.FirstWriterWinsExactly | internal/cli/identity_verify.go:605-662 | in every interleaving, with reads, removals and writes that fail, all kept sights are of one millisecond iff the record is readable, or there is none, no link fails but for a file being there, and clocks are past the epoch's first millisecond |
| FirstSight.OneSight | internal/cli/identity_verify.go:612-662 | from there the record never changes once linked, and every kept sight is of its millisecond |
| FirstSight.TornSplits | internal/cli/identity_verify.go:622-627 | two checks of a torn record keep different times |
| FirstSight.OldClockSplits | internal/cli/identity_verify.go:622-627 | so do two checks when a clock is in the epoch's first millisecond or before it |
| FirstSight.LinkFailureSplits | internal/cli/identity_verify.go:653-661 | and two checks of which one's link fails, as every link does on a filesystem without hard links |
| FirstSight.Store.FirstSightOf | internal/cli/identity_verify.go:612-662 | the check as it runs, with others between any two of its steps, is a run of that system; on a store that does what it is asked it is kept with the record's own time, whatever others do, when that is readable, and alone it is kept whatever is there before |
| Container.RoundTrip | internal/cli/encrypt.go:348-402 | parsing a printed header and ciphertext gives the three parts and that header iff both lengths fit in sixteen bits |
| Container.LongRecipientIsLost | internal/cli/encrypt.go:348-361 | a recipient of 65536 bytes is printed with length nothing and does not come back |
| Container.PrintsBack | internal/cli/encrypt.go:365-402 | whatever parses is its parts printed again, with that header as associated data |
| Container.CutShort | internal/cli/encrypt.go:365-402 | a header cut short anywhere is refused for the part in which it ends |
| Container.WrongOpening | internal/cli/encrypt.go:366-385 | with all its lengths there, a blob is refused for its magic, version or suite iff those bytes are not the opening's, in that order |
| Container.PrefixFree | internal/cli/encrypt.go:348-361 | no header begins another |
| Container.ParseWenc | internal/cli/encrypt.go:363-402 | the reader computes the parse, each fault in its place |
| Container.MarshalWencHeader | internal/cli/encrypt.go:348-361 | the buffer holds the printed header |
| Container.HighByteFirst | internal/cli/encrypt.go:348-361 | sixteen bits are printed and read high byte first |
| Container.OpeningBytes | internal/cli/encrypt.go:348-356 | the eleven bytes every container opens with |
| Container.DecryptsItsOwn | internal/cli/encrypt.go:317-346 | what is encrypted decrypts when both lengths fit |
| Container.HeaderIsBound | internal/cli/encrypt.go:314-333 | a sealed text under any other header does not open |
| Container.PointExactly | internal/cli/encrypt.go:205-247 | a point comes out exactly of a key packet that prints it |
| CallerNames.NamesTell | internal/cli/accept_caller.go:74-82 | equal record names mean equal four-tuples |
| CallerNames.PrefixIsClient | internal/cli/accept_caller.go:184-193 | a name begins with a client half iff it is its own |
| CallerNames.ScanIsExact | internal/cli/accept_caller.go:184-199 | the scan selects exactly the client's live records |
| CallerNames.FiledIsFound | internal/cli/accept_caller.go:84-131 | a filed record is found by its own four numbers and by its client half while its holder lives, and no lookup of another connection or another client changes |
| CallerNames.LookupExact | internal/cli/accept_caller.go:173-183 | the first directory's live record of exactly that connection |
| CallerNames.LookupClient | internal/cli/accept_caller.go:184-206 | an answer iff exactly one live record has that client half |
| CallerNames.Registry.RecordAcceptCaller | internal/cli/accept_caller.go:85-131 | the record goes to the first usable directory, under its own name |
| CallerNames.Registry.Remove | internal/cli/accept_caller.go:122-127 | removal takes only this holder's own record |
| CallerNames.Registry.LookupEither | internal/cli/accept_caller.go:165-171 | both orders are tried, each an exact match |
| Paging.ListWithTombstones | internal/cli/agents.go:148-226 | against any server it ends; its pages are the server's answers, each to the cursor the one before named and to every request made; success means every page witnessed, cursors distinct, the last complete with an empty cursor, and live, gone and dropped accounting for every agent row; each refusal means what it says of the last answer |
| Paging.EveryRowAccountedFor | internal/cli/agents.go:176-205 | live, gone and dropped account for every agent row served |
| Paging.TakePage | internal/cli/agents.go:175-205 | the last echoing row is the witness, and each agent row goes where it belongs |
| Paging.DeadExactly | internal/cli/agents.go:121-129 | an agent is listed as gone iff its row carries who did it or one of four states, in the rows' order |
| Paging.WitnessIsLast | internal/cli/agents.go:183-187 | a page is judged by the last of its own rows that echoes what was asked for |
| Paging.Server.AskRetrying | internal/cli/agents.go:131-146 | the same request again at most twice, each time after a pending answer and with the call's deadline not passed, and no more after any other |
| Paging.ReadHistory | internal/cli/identity_kel.go:61-95 | requests go strictly further on, within the page bound, each from where the page before said; success returns every page and the first head, and what it comes to is told by the answer it stopped at: no page, the last one, one that does not advance, or one more at the bound |
| Paging.EndIsReached | internal/cli/identity_kel.go:61-95 | answers that lead to an end within the bound are asked for to that end, and the history is read whole |
| Paging.EventAtPages | internal/cli/identity_kel.go:97-107 | the page by page search is the search of the whole history |
| Paging.HeadEvent | internal/cli/identity_kel.go:109-117 | the last event of the last page that has one is the history's last |

## Left out

- Cryptography: digests, commitments, signatures and HPKE are functions with their laws, not computed.
- Two runs of a command naming different handles whose file names coincide once colons and slashes are flattened.
- Removal of a pointer file that fails, and power cuts that lose a directory entry.
- The refusal to rotate or recover as root; where a connect offers nothing because of it, that is in.
- A rotation's serve-after time, which decides whether a connect has an outgoing key; and what a tunnel then serves.
- That the chain's key is the recorded key or its next key, with recoveries in it: a recovery may move the chain off the line. What holds then is `VaultChain`.
- AdoptRun.Adopt.ConnectTierEnvelope: an adopt of an agent this command created, which is `BirthConnect`; the session brought up afterwards, the pin read from the answer, and the commit a connect makes next are not in it; that commit is a process of RotationRuns.
- Judging.Check: the verdict's prose; only its token and cause are modelled.
- Judging.SayHeadline: its words, and that small numbers are spelled out.
- Watching.Diff: the one-line prose and the time of a change.
- WatchLoop.Watcher.Beat: the clock is any sequence of times.
- AgentSelection.SelectAnyOrder: the refusal's text lists its candidates in row order, which reordering changes.
- Enrolment.Device.RunEnroll: a marker, a key or a saved agent that cannot be written, and how the key used was found.
- Enrolment.ProgramsAgree: the marker's name when the listing gives no fqdn, where the two programs fall back differently.
- Enrolment.PlanDiff: the cleaned-up values it prints beside each field.
- Selectors.RefRoundTripsExactly: rows whose subject or condition has white space at an end, a slash in the condition, or a condition that is a prefix length.
- Container.ParseWenc: the armoured form.
- CallerNames.NamesTell: zoned and mapped addresses, and the ownership checks on a directory.
- The checks of a history's signatures, log inclusion and served keys (`verifyHistory`), and the lag window.
- Automatic choice between tiers, tunnels, egress checks, notebooks, prompts, tables and all other text.
- Address texts are read by a given function; case folding likewise, and upper and lower case change ASCII letters only.
