# agents-inc: a verified model

agents-inc installs delegation skills into coding agents, dispatches Workers for a Lead
through a broker, governs every call through a control database, and keeps ledgers of
what was done. This project models the parts in which a crash, a restart or an
interleaving could break a promise, and proves what they keep.

| files | what they model |
|---|---|
| `FileSystem`, `JournalSpec`, `JournalProofs`, `Journals` | the write-ahead journal of the installer and its crash recovery |
| `Installs` | an install with its backups copied aside on the way |
| `JournalClaims` | recovery from journals whose records are not true |
| `JournalStops` | what a single undo may touch, and when recovery raises |
| `UninstallSpec`, `UninstallHosts`, `UninstallRecovery`, `UninstallCuts`, `Uninstall` | uninstall, its read-only plan, what goes unannounced, a journal left behind, and an uninstall cut off |
| `Rollbacks` | rollback, and a rollback cut off |
| `AskLead` | the numbered question and answer files between a Worker, the broker and the Lead |
| `BrokerSpec`, `BrokerProofs`, `BrokerResumes`, `BrokerSources`, `Brokers` | the dispatch broker on both transports: fan-out, resumes, results and what asked for them, the serve loop |
| `ControlSpec`, `ControlVetting`, `ControlProofs`, `ControlBudget`, `ControlRace`, `ControlOverspend`, `Gateways` | the governance control database and the gateway's dispatch in enforce mode: what an allowed dispatch passed, the lease, the budgets |
| `JsonValues`, `LedgerLoad`, `LedgerGraph` | the ledger's merge, depth rule and cost roll-up |
| `Texts`, `Quotes`, `Verifier`, `Reviewer`, `Pipeline` | the draft, verify, review and correct loop |
| `LiveRows` | the incremental follower of an event log |
| `Ordering`, `Ranking`, `Lineup` | candidate ranking and the replayable routing record |
| `HostBlocks`, `HostHooks` | the managed block and the hooks in a host's configuration |
| `Versions`, `ModelSync` | the two version orders and the promotion of model slugs |

Protocols are step relations over explicit states: what is on disk, what is in memory,
and a history of what happened. A crash or a restart keeps the disk and drops the rest.
The code that changes state in place is written as classes and loops, each tied to a
specification function or to a step, and the theorems are about those. Randomness,
clocks, screens and the outcome of a Worker or a database call are arbitrary choices of
the environment. `dafny verify dfyconfig.toml` checks the whole project.

Where the code does not keep what one might expect, the model follows the code and a
lemma shows it:

- The recovery theorem needs true predecessors. `agents_inc/install/discovery.py:43`,
  `agents_inc/install/cli.py:251` and `agents_inc/install/cli.py:370` do not record one.
  `AnyJournalRestoresIff` says exactly when recovery restores without them;
  `CutUninstallLeaves` and `CutRollbackLeaves` say what it leaves, and
  `CutUninstallRestoresIff` and `CutRollbackRestoresIff` when that is what was there.
- `agents_inc/install/discovery.py:26` records a true predecessor but a result that its
  mutation does not leave (`AdoptionWindowLosesLink`).
- A recovery that is itself cut off between the unlink and the link of an unmarked
  record no longer finds the mutation proven (`CutOffRecovery` says exactly when).
- The uninstall plan reads the disk without recovering it: beside a pending journal it
  may announce what the uninstall does not do (`PlanBesideJournalIff`).
- The plan does not name everything the uninstall removes: host files that hold nothing
  but our block, and the emptied releases directory and its parent, go unannounced
  (`VanishedIff`, `OnlyAnnouncedIff`; `FirstInstallsFileGoes` is the ordinary case).
- The file broker may resume another Worker than the one named, when a lost resume's id
  was dispatched anew (`OwnResumeIff`).
- `ledger.load` promises never to raise; `Load` and `FoldRaisesIff` say when it does. A
  stamp that is an object cannot even be loaded twice (`ReplayChangesNothing`).
- `load_run_record` promises the same; `LoadRunRecord` says when it does.
- `Gateway.dispatch` promises never to raise; artifact capture and some audit writes may
  raise after the lease was taken. In the model this is the step `Stop`, and
  `DeadHolderStrands` says what follows; `FailedReleaseStrands` says the same of a
  release that fails.
- The policy reads the durable budget, the reservation the envelope's own: `OverspendIff`
  says which envelopes get past both.
- `replay_pick` equals the pick only while there is one (`ReplayIsPick`).
- The padding of versions stops at eight parts (`OrdersAgreeIff`).
- `upsert_block` on a text with a lone mark appends or cuts on every refresh
  (`UpsertIdempotentIff`), and `remove_block` then leaves the block or takes text of the
  user with it (`RemoveUndoesUpsertIff`).

## Model

| member | source | states |
|---|---|---|
| `JournalProofs.CrashRecovery` | agents_inc/install/transaction.py:40-80 | For every list of operations with true predecessors and every crash point, recovery ends with the journal gone and every path as before `begin` (as after the operations, when committed) if and only if the crash was safe: not between a mutation and its applied mark, or there with a mutation the disk proves, that changed nothing, or that follows a marked one on its target. |
| `JournalProofs.CutOffRecovery` | agents_inc/install/transaction.py:52-80 | Recovery cut off any number of times after any of its system calls, then run to its end, removes the journal; it restores every file if and only if it would have done so at once and no cut fell between the two calls that undo an unmarked record. |
| `JournalProofs.CrashThenCutOffRecovery` | agents_inc/install/transaction.py:40-80 | The two theorems joined: a crash of the transaction, any cuts of the recovery, one full recovery. |
| `JournalProofs.RecoverRestoresIff` | agents_inc/install/transaction.py:57-80 | From any disk that fits an original state, one full recovery gives that state back if and only if the last record is harmless. |
| `JournalProofs.UndoAllRestores` | agents_inc/install/transaction.py:57-79 | The reverse loop over a fitting journal with a harmless last record reaches the original files and never raises. |
| `JournalProofs.UndoAllMisses` | agents_inc/install/transaction.py:61-63 | Otherwise exactly one path differs afterwards: the last target keeps what the unproven mutation left. |
| `JournalProofs.UndoOnlyTarget` | agents_inc/install/transaction.py:58-79 | Undoing a record touches no path but its target, so a mutation that did not happen is never damaged elsewhere. |
| `JournalProofs.CrashLeavesFit` | agents_inc/install/transaction.py:40-50 | Every crash of a truthful transaction leaves a disk that fits the original files. |
| `JournalProofs.CutStep` | agents_inc/install/transaction.py:57-80 | One cut of the recovery keeps the journal fitting, and keeps it harmless unless the cut is a losing one. |
| `JournalProofs.MarkedJournalNeverLoses` | agents_inc/install/transaction.py:57-80 | When every record is marked, no cut of the recovery loses anything. |
| `JournalProofs.AdoptionWindowLosesLink` | agents_inc/install/discovery.py:24-26 | Adopting a foreign link journals a `symlink` with its true predecessor but with a result that its mutation, an unlink, does not leave: a crash right after it is never proven, and the adopted link is lost. |
| `FileSystem.ResolveIff` | agents_inc/install/transaction.py:62-70 | What `exists`, `copy2` and `is_file` see at a path is the end of its chain of links, if the chain has an end and is not too long. |
| `JournalStops.LinkRecoveryStopsIff` | agents_inc/install/transaction.py:67-72 | Recovery from a journal of links stops, leaving the journal, if and only if something that is no link stands where a marked record has a link to put back; on no way does it replace or remove a regular file or a directory. |
| `JournalStops.DirectoryUndone` | agents_inc/install/transaction.py:73-75 | The undo of a directory removes it if a real and empty one stands there, leaves everything else as it is, and never raises. |
| `JournalStops.BytesUndone` | agents_inc/install/transaction.py:62-66 | The undo of a byte operation puts the bytes of the backup where the target leads, or removes the target unless it leads nowhere; it raises and touches nothing if the backup cannot be read, is what it would overwrite, or a directory stands in the way. |
| `JournalClaims.RecoverGivesClaims` | agents_inc/install/transaction.py:57-80 | For every well-formed pending journal, true or not, recovery removes it and leaves at each path what the first record on it claims, if that record is undone, and otherwise what is there. |
| `JournalClaims.AnyJournalRestoresIff` | agents_inc/install/transaction.py:57-80 | It restores the original files if and only if the first record on every target gives its entry back. |
| `JournalClaims.MarkedRestoresIff` | agents_inc/install/transaction.py:57-80 | With all records marked: if and only if the first record on every target tells what was there. |
| `JournalClaims.UninstallRecordForgetsLink` | agents_inc/install/discovery.py:43 | In any journal a marked unlink record gives back the predecessor it names, or nothing, and the link that was there only if they are the same. |
| `JournalClaims.ReceiptWithoutBackupIsLost` | agents_inc/install/cli.py:251 | In any journal a marked receipt record without a backup leaves no receipt. |
| `Journals.UndoOp` | agents_inc/install/transaction.py:58-79 | The undo of one record as code passes through exactly the durable states of its specification and stops where a system call raises. |
| `Journals.UndoRecords` | agents_inc/install/transaction.py:57-79 | The reverse loop over the records, tied to the specification state by state. |
| `Journals.RecoverDisk` | agents_inc/install/transaction.py:52-80 | Recovery as code leaves the specified files and journal and writes exactly the specified trace of durable states. |
| `Journals.TransactionJournal.Begin` | agents_inc/install/transaction.py:40 | A new empty journal is on disk before anything changes. |
| `Journals.TransactionJournal.RecordIntent` | agents_inc/install/transaction.py:41-42 | The intent is durable, unmarked, as the last record. |
| `Journals.TransactionJournal.RecordApplied` | agents_inc/install/transaction.py:43 | Only the last record is marked. |
| `Journals.TransactionJournal.Apply` | agents_inc/install/transaction.py:44-49 | Intent, mutation and mark in this order on disk; a raising mutation or the injected failure leaves the intent unmarked. |
| `Journals.TransactionJournal.Commit` | agents_inc/install/transaction.py:50 | The commit record is durable before the journal goes. |
| `Installs.InstallCrashRestoresIff` | agents_inc/install/cli.py:143-183 | For every install whose records are honest, with its backups copied aside on the way: cut off at any moment, also in the middle of a copy, its recovery cut off anywhere, and a full recovery, the files at the start are back beside the backups made by then if and only if the moment was safe and no cut lost anything. |
| `Installs.StockedTruthful` | agents_inc/install/host_wiring.py:163-184 | Once each backup is made right before its record, the records so far are true of the files with the backups so far. |
| `Installs.CopyAside` | agents_inc/install/host_wiring.py:163-168 | The copy passes through its truncated state and then holds what is to be changed; the receipt's copy is put in place at once. |
| `Installs.ApplyAll` | agents_inc/install/transaction.py:44-49 | Applying the operations, each after its copy aside, keeps the disk at every instant in one of the moments of the install. |
| `Installs.Lifecycle` | agents_inc/install/cli.py:143-183 | A whole install: it succeeds with all operations done and no journal, or recovers to the files it began with, backups aside. |
| `Uninstall.UninstallAll` | agents_inc/install/cli.py:232-259 | Uninstall recovers first; it raises, leaving its journal, if and only if recovery raised, a host file cannot be read or a directory stands at the receipt. Else it retains what the plan of the recovered files says and leaves every path as that plan, the wiring and the emptied directories decide; the plan announced on the disk as it was is the same, and followed, if and only if it reads alike after recovery; what goes is what was announced if and only if nothing else was to go. Every pending durable state on the way is inside this uninstall. |
| `Uninstall.PlanUninstall` | agents_inc/install/cli.py:212-230 | The loop of the read-only mirror computes the plan, whose members the lemmas below tell: links removed and retained in order, receipt, `current` and releases only when nothing is retained. |
| `UninstallSpec.IsReleaseIff` | agents_inc/install/cli.py:195-199 | The releases are exactly the real directories directly under `releases` that are named by 64 nibbles in lower-case hexadecimal. |
| `UninstallHosts.AllReleasesGo` | agents_inc/install/cli.py:207-210 | If nothing is retained every such directory goes, but the one that a foreign `current` resolves to, which stays. |
| `Uninstall.RestoreSkillLinks` | agents_inc/install/discovery.py:33-49 | The journalled link pass, with the files, the retained set and the put-back set it leaves; run first in an uninstall, each of its durable states is inside that uninstall. |
| `UninstallSpec.LinkPass` | agents_inc/install/discovery.py:35-49 | With distinct owned paths each item is judged as by the files at the start: exactly those links are retained, exactly those put back. |
| `UninstallSpec.LinksMoved` | agents_inc/install/discovery.py:43-48 | Only unchanged owned links move, each to its recorded predecessor or to nothing; every other path stays. |
| `UninstallSpec.SecondLookRetainsNothing` | agents_inc/install/cli.py:240-243 | The second look over the receipt finds nothing the link pass did not. |
| `Uninstall.SecondLook` | agents_inc/install/cli.py:240-243 | The second look adds exactly the overlooked links to the retained set. |
| `Uninstall.RemoveOwned` | agents_inc/install/cli.py:238-243 | Link pass, host wiring and second look together leave exactly the specified files and retain what the link pass retained. |
| `UninstallSpec.DecisionsSame` | agents_inc/install/cli.py:204-210 | Moving the owned paths changes neither whose `current` is, nor which release it keeps, nor which releases are removable. |
| `UninstallSpec.LateDecisions` | agents_inc/install/cli.py:249-255 | The releases chosen after `current` and the receipt are gone are those the plan chose before. |
| `UninstallSpec.UninstalledCarriesOut` | agents_inc/install/cli.py:232-259 | Path by path: announced links are gone or their predecessors back; `current`, the receipt and the announced releases are gone; each host file is as its own bytes decide, with its old bytes in the backup; the two directories go exactly when emptied; everything else is as it was. |
| `UninstallSpec.WiringAfterLinks` | agents_inc/install/host_wiring.py:210-222 | The pass judges each host file by what was there before the uninstall, and touches no other path but its backup. |
| `UninstallHosts.VanishedIff` | agents_inc/install/cli.py:232-259 | Of the paths there were, exactly these are gone: the announced ones that are not put back, host files the wiring removes, and the releases directory and its parent when emptied. |
| `UninstallHosts.OnlyAnnouncedIff` | agents_inc/install/cli.py:212-230 | So the uninstall takes exactly what the dry run announced if and only if no host file is to be removed and the releases directory is not emptied. |
| `UninstallHosts.BlockFileGoesIff` | agents_inc/install/host_wiring.py:215-219 | An instruction file is removed if and only if it holds a block and, before and after it, only blanks. |
| `UninstallHosts.InstructionFileEnds` | agents_inc/install/host_wiring.py:171-219 | The uninstall leaves an instruction file without its block, byte for byte, removes it where only blanks would be left, and else leaves it alone; what a changed file held is in its backup. |
| `UninstallHosts.FirstInstallsFileGoes` | agents_inc/install/host_wiring.py:215-219 | The file a first install wrote to hold its block, unchanged since, is removed though no plan names it. |
| `UninstallSpec.PlanMembers` | agents_inc/install/cli.py:215-221 | The announced links are those to remove, and what is announced as retained is what the link pass retains. |
| `UninstallSpec.PlanAgreesIff` | agents_inc/install/cli.py:212-230 | Two disks give one plan if and only if every link is judged alike on them and, when none is retained, `current` is ours alike and the same releases go. |
| `UninstallSpec.RepeatedPathIff` | agents_inc/install/cli.py:215-221 | For an item recorded twice uninstall retains what the plan retains if and only if the link is not the receipt's own, or no predecessor, or the same text, is put back. |
| `UninstallRecovery.SettledDiskAgrees` | agents_inc/install/cli.py:235 | With no pending journal the plan of the disk is the uninstall's. |
| `UninstallRecovery.PlanBesideJournalIff` | agents_inc/install/cli.py:212-235 | Beside a pending journal it is if and only if the first record on each owned link claims an entry judged as the one there, and, when none is retained, that on `current` names the same release. |
| `UninstallRecovery.CrashedUpgradeDisagrees` | agents_inc/install/cli.py:212-235 | After an upgrade that crashed with `current` moved, the plan keeps `current` and the new release, and the uninstall removes both. |
| `UninstallCuts.CutUninstallLeaves` | agents_inc/install/cli.py:232-252 | What recovery leaves of an uninstall cut off at any durable state, path by path: a marked link has its predecessor or nothing, an unmarked one what is there; `current` is back once marked; a marked receipt is gone; host files and all else are as they were. |
| `UninstallCuts.CutUninstallRestoresIff` | agents_inc/install/cli.py:232-252 | It gives back the files the uninstall began with, backups aside, if and only if no link is gone unmarked or marked with another predecessor, `current` is there or marked, and no receipt was removed. |
| `UninstallCuts.CutLeavesLink` | agents_inc/install/discovery.py:43-46 | Link by link: recovery never brings back the link whose removal is marked, but its predecessor or nothing. |
| `UninstallCuts.ApplyStaysInside` | agents_inc/install/transaction.py:44-49 | Intent, mutation and mark of each operation of the uninstall stay inside it. |
| `Uninstall.RemoveHostWiring` | agents_inc/install/host_wiring.py:210-222 | The wiring pass takes the receipt's host files in order: each that changes is backed up, journalled, and left with exactly the bytes the wiring makes of its own, or removed, up to the first that raises; nothing else changes. |
| `Uninstall.RemoveLast` | agents_inc/install/cli.py:249-251 | `current`, if it is ours, and the receipt go last, each journalled; a directory at the receipt raises. |
| `Rollbacks.Rollback` | agents_inc/install/cli.py:365-371 | Rollback recovers, moves `current` in two system calls and the receipt in one, and passes through exactly its eight durable states; it raises, leaving its journal at the state said, if and only if a directory stands at `current` or at the receipt, or the predecessor's receipt cannot be made. |
| `Rollbacks.CutRollbackLeaves` | agents_inc/install/cli.py:365-371 | What recovery leaves of a rollback cut off at each of them: `current` is lost only between its unlink and its new link; the receipt is the old one, the new one once written, and gone once marked. |
| `Rollbacks.CutRollbackRestoresIff` | agents_inc/install/cli.py:365-371 | It restores what was there if and only if the cut missed those windows, or nothing changes there. |
| `AskLead.RunInOrder` | agents_inc/install/dispatch.py:2364-2436 | In every run the numbers asked, relayed and answered are 1..q, 1..r and 1..a with a <= r <= a+1 and r <= q. |
| `AskLead.StepKeepsOrder` | agents_inc/install/dispatch.py:2364-2436 | Which step raises which of the three numbers, and by one only. |
| `AskLead.PendingIsRelayedUnanswered` | agents_inc/install/dispatch.py:2396-2408 | The pending question is exactly the relayed unanswered one, and the broker relays no other while it stands. |
| `AskLead.CountedOnce` | agents_inc/install/dispatch.py:2385-2391 | The question counter equals the number of relayed questions if and only if no restart hit an unsaved count; it never exceeds it. |
| `AskLead.AnswerIsTheOneGiven` | agents_inc/install/dispatch.py:2426-2436 | The text a Worker may read for question n was given for n by exactly one answer of the run, with that text. |
| `AskLead.CopyIsTheOneShown` | agents_inc/install/dispatch.py:2364-2393 | What the Lead may read as question n was shown by exactly one relay of the run, made when n was the lowest unanswered question, with that text. |
| `AskLead.LeadReadsScreened` | agents_inc/install/dispatch.py:2384-2387 | If every relay shows the question as the screen leaves it, each copy is the Worker's question of that number, screened. |
| `AskLead.QuestionIsTheNth` | agents_inc/install/worker_mcp.py:44-70 | The questions are numbered from 1 without a gap, and question n is exactly the n-th that was asked. |
| `AskLead.CreatedOnce` | agents_inc/install/dispatch.py:1892-1903 | No file of the exchange is ever replaced or removed. |
| `AskLead.LostAnswerStaysLost` | agents_inc/install/dispatch.py:2427-2435 | An answer whose broker dies between the mark and the Worker's copy never reaches the Worker. |
| `AskLead.AllHandedOverIff` | agents_inc/install/dispatch.py:2426-2436 | Every question marked answered has its answer with the Worker if and only if no event lost one: a broker that died between the two writes, or a second write that failed. |
| `AskLead.AwaitAnswer` | agents_inc/install/worker_mcp.py:85-99 | The Worker's wait returns the first answer it finds, which is the text one answer of the run gave for its question, or gives up only after its time. |
| `AskLead.Files.WriteQuestion` | agents_inc/install/worker_mcp.py:44-70 | The question is written under the first free number. |
| `AskLead.Files.RelayQuestion` | agents_inc/install/dispatch.py:2364-2393 | The lowest unanswered question is copied once, as the screen leaves it, and counted once. |
| `AskLead.Files.Pending` | agents_inc/install/dispatch.py:2396-2408 | The scan over the copies finds the pending question of the specification. |
| `AskLead.Files.AnswerQuestion` | agents_inc/install/dispatch.py:2411-2436 | An answer is taken exactly for a relayed unanswered question, marked first and then handed over, which may fail. |
| `BrokerProofs.FanOutBound` | agents_inc/install/dispatch.py:2093-2142 | Over every run, restarts included, the launches are distinct ids and number at most `workers_spawned` of run.json, which is at most `fan_out.total`. |
| `BrokerProofs.SlotsAreLaunches` | agents_inc/install/dispatch.py:2093-2142 | While the broker lives no slot is lost: a Worker that never came up gives its slot back, and between turns `workers_spawned` of run.json is exactly the number of launches. |
| `BrokerProofs.StepKeepsFanOut` | agents_inc/install/dispatch.py:2093-2142 | Each step keeps that bound for the counter on disk and for the one in memory: a reservation is saved before its launch and released only without one. |
| `BrokerProofs.ResumesAreFree` | agents_inc/install/dispatch.py:2439-2507 | A resume, from request to end, launches nothing, and either counter keeps its value or takes over the other's, as when run.json is saved or read again. |
| `BrokerProofs.ResumeBounds` | agents_inc/install/dispatch.py:2439-2477 | Over every run and on both transports a Worker's n-th resume starts at most once, n is 1, or 2 for a Worker that is no grunt, and each resume id leads to a root that is no resume id. |
| `BrokerProofs.PlanIff` | agents_inc/install/dispatch.py:2439-2477 | A resume is planned if and only if the request passed the screens, its id was issued, it ended green, red or unverified, its session is known, and its root has had no resume, or one and is no grunt. |
| `BrokerProofs.StepKeepsResumes` | agents_inc/install/dispatch.py:2168-2229 | Each step keeps the resume maps in memory and on disk rooted, and the ids a broker knows settled. |
| `BrokerProofs.PlanNamesRoot` | agents_inc/install/dispatch.py:2460-2477 | A planned resume belongs to a root with a result, is its next turn, and all its earlier resumes are settled. |
| `BrokerProofs.ResultsStay` | agents_inc/install/dispatch.py:2085-2090 | A result, once written, is never replaced or removed by any later events. |
| `BrokerProofs.TurnIsNotReplaced` | agents_inc/install/dispatch.py:2185-2186 | While a turn runs, no step starts another. |
| `BrokerProofs.RedispatchedResumeIdGoesAstray` | agents_inc/install/dispatch.py:2192-2199 | A lost resume's id may be dispatched as a Worker of its own after a restart; a resume of that Worker is then planned for the old root. |
| `BrokerResumes.PlanForItselfIff` | agents_inc/install/dispatch.py:2467-2477 | A planned resume is for the named Worker itself if and only if its id stands for no resume. |
| `BrokerResumes.OwnResumeIff` | agents_inc/install/dispatch.py:2439-2477 | In every run a Worker that left its result is from then on resumed as itself if and only if its id stood for no resume when it was dispatched; over MCP it always is. |
| `BrokerResumes.StandingStays` | agents_inc/install/dispatch.py:2195-2199 | Once an id has a result, it stands for a resume or not for ever. |
| `Brokers.BrokerProcess.WriteRequestResult` | agents_inc/install/dispatch.py:2085-2090 | Both files are written, or neither when one of the names is taken. |
| `Brokers.BrokerProcess.HandleOne` | agents_inc/install/dispatch.py:2152-2229 | One inbox file: set aside, made to wait, answered, refused or turned into a turn, exactly as the step of the state machine; answers and unreadable files never wait. |
| `Brokers.BrokerProcess.PlanResume` | agents_inc/install/dispatch.py:2439-2477 | The checks of a resume in their order give the plan of the specification: the first resume, or the second of a Worker that is no grunt. |
| `Brokers.BrokerProcess.Issue` | agents_inc/install/mcp_broker.py:96-110 | An id is recorded once, durably and in memory, or refused without effect. |
| `Brokers.BrokerProcess.ToolDispatch` | agents_inc/install/mcp_broker.py:202-230 | The MCP dispatch refines the same step relation. |
| `Brokers.BrokerProcess.ToolResume` | agents_inc/install/mcp_broker.py:242-262 | The MCP resume issues its id, then records its root in run.json, then starts the turn; cut off after the first, only the id is issued. |
| `Brokers.BrokerProcess.Advance` | agents_inc/install/dispatch.py:2093-2142 | Each step of the turn thread refines a step of the state machine. |
| `Brokers.BrokerProcess.HandleListing` | agents_inc/install/dispatch.py:2613-2625 | A listing that makes no progress while no turn runs was empty. |
| `Brokers.BrokerProcess.ServeLocked` | agents_inc/install/dispatch.py:2599-2641 | Over any schedule the broker's life is a run of the state machine, and it stops by itself only with no turn and an empty last listing. |
| `Brokers.BrokerProcess.ServeLives` | agents_inc/install/dispatch.py:2582-2641 | Over any number of broker lives in one run directory: distinct launches within run.json's count and the total; each Worker resumed once at most for each of its turns, one for a grunt and two for another. |
| `BrokerSources.LaunchWasRequested` | agents_inc/install/dispatch.py:2093-2116 | In every run a Worker is launched only for a valid request, and only where there is a fan-out. |
| `BrokerSources.ResumeWasAsked` | agents_inc/install/dispatch.py:2439-2477 | Every resume that started was asked for while no turn ran, passed the screens with its session known, and was planned as that turn of that Worker. |
| `BrokerSources.ResultWasEarned` | agents_inc/install/dispatch.py:2085-2142 | A result says green, red or unverified only if that very turn's Worker ended so; answered only for an answer to a request that was issued and that the exchange took; and refused only for one of the refusals. |
| `BrokerSources.BadRequestIsRefused` | agents_inc/install/dispatch.py:2152-2229 | A file that cannot be read is refused at once, an invalid dispatch as soon as no turn runs, each without taking anything up. |
| `BrokerSources.AnswerIsSettled` | agents_inc/install/dispatch.py:2166-2186 | An answer request is settled at once, also while a turn runs: answered if what it answers was issued and the exchange took it, else refused. |
| `BrokerSources.TurnEndLeaves` | agents_inc/install/dispatch.py:2085-2090 | A turn's end leaves report, result and run.json; a broker that dies in it leaves the report and, if it came so far, the result. |
| `BrokerSources.IssueCutLeaves` | agents_inc/install/mcp_broker.py:242-262 | An MCP broker that dies between issuing a resume id and saving run.json leaves just the id, if it was idle and the id new. |
| `ControlProofs.OneInFlight` | agents_inc/gateway.py:208-327 | For every interleaving of any number of dispatches at most one holds the lease, hence at most one worker is in flight, and a dispatch that returned does not own it unless its own releasing transaction failed. |
| `ControlProofs.AllReturnedLeaseIsFree` | agents_inc/gateway.py:228-327 | When all dispatches returned and no release failed, the lease is free. |
| `ControlProofs.AdvanceLease` | agents_inc/control.py:224-236 | Only a granted reservation takes the lease, and only its holder gives it back. |
| `ControlProofs.DeadHolderStrands` | agents_inc/gateway.py:228-327 | A dispatch that dies holding the lease blocks the workspace: whatever the others do, no worker is invoked again. |
| `ControlProofs.FailedReleaseStrands` | agents_inc/control.py:320-328 | So does a dispatch that returned though its releasing transaction failed; there is at most one. |
| `ControlProofs.OncePerMessage` | agents_inc/control.py:187-202 | A worker is invoked at most once per message id, by the dispatch that claimed it under its own envelope hash. |
| `ControlProofs.AdvanceMessages` | agents_inc/gateway.py:101-118 | A claim is taken only when free and afterwards keeps its hash. |
| `ControlBudget.CallBudget` | agents_inc/control.py:204-222 | No interleaving invokes more workers in a run than it has unreleased calls, nor reserves more than a limit every envelope of the run stays within. |
| `ControlBudget.DurableBudgetStays` | agents_inc/control.py:155-169 | The budget a run first declares stays its durable one. |
| `ControlBudget.ReleaseReturnsOne` | agents_inc/control.py:120-130 | A release takes back at most the one call reserved under its key. |
| `ControlBudget.SecondsLeaveCalls` | agents_inc/control.py:140-153 | Observed seconds never change a call count. |
| `ControlBudget.UsedIsTotal` | agents_inc/control.py:132-138 | What is used of a run is the total, calls and seconds, over exactly its unreleased rows. |
| `ControlBudget.AdvanceRows` | agents_inc/gateway.py:216-327 | What each transaction of a dispatch does to a run's reserved calls. |
| `ControlRace.AloneRuns` | agents_inc/gateway.py:55-327 | An uninterrupted dispatch is a stretch of the interleaved run. |
| `ControlRace.SmoothDispatch` | agents_inc/gateway.py:120-327 | A dispatch that measured a use below the durable budget, with room in its own envelope, invokes its worker and leaves one call more. |
| `ControlOverspend.OverspendIff` | agents_inc/gateway.py:128-136 | Some interleaving overspends a run's durable call budget if and only if some envelope of the run declares that budget and one call more than it allows finds room, each in its own envelope, one after the other. |
| `ControlOverspend.OverspentHadQueue` | agents_inc/control.py:204-222 | The reservations of an overspent run are such a queue of envelopes. |
| `ControlOverspend.DifferentLimitsOverspend` | agents_inc/gateway.py:208-226 | More dispatches than the first declared limit, each with room for all, are enough. |
| `ControlOverspend.DurableCallBudget` | agents_inc/control.py:155-222 | When every envelope of a run declares at most its durable call budget, no continuation invokes or reserves more. |
| `Gateways.Control.ClaimReplay` | agents_inc/control.py:187-202 | New, duplicate, conflict or unavailable, and the claim is recorded exactly when new. |
| `Gateways.Control.Used` | agents_inc/control.py:132-138 | The sums over unreleased reservations, or nothing when the read fails. |
| `Gateways.Control.RecordRunBudget` | agents_inc/control.py:155-169 | The first budget is kept and the durable one returned. |
| `Gateways.Control.ReserveBounded` | agents_inc/control.py:204-236 | Lease, limits and row together or not at all. |
| `Gateways.Control.Release` | agents_inc/control.py:120-130 | Row by row: exactly the reservations of this run and node are released, and the lease goes if it is the run's, in one transaction. |
| `Gateways.Control.ReleaseLease` | agents_inc/control.py:320-328 | The lease of the run is deleted and the reservation kept. |
| `Gateways.Control.CommitUsage` | agents_inc/control.py:140-153 | Row by row: only the seconds of the unreleased reservation of this run and node change, never below zero. |
| `Gateways.Control.StoreArtifact` | agents_inc/control.py:238-259 | Entry by entry: only this message's claim changes, and only if it was free or has the same envelope hash. |
| `Gateways.Gateway.Authorize` | agents_inc/gateway.py:120-206 | A dispatch gets past policy if and only if the policy allows it, the durable limits have room, the route checks pass and both records can be written; then its allowing decision is recorded. |
| `Gateways.Gateway.Dispatch` | agents_inc/gateway.py:55-327 | A whole dispatch refines the machine and ends as the table of outcomes says: allowed only if policy, route and deadline let it through and its run is not cancelled. It adds exactly one reservation if it gets so far, given back only by a failed second look or an expired deadline; binds the output to the message; leaves the lease as found unless the release failed; and leaves its run within the durable call budget. |
| `ControlVetting.OutcomeIs` | agents_inc/gateway.py:94-327 | The outcome of a dispatch that nobody interrupts, condition by condition in the order in which they are decided. |
| `ControlVetting.InvokedWasVetted` | agents_inc/gateway.py:120-260 | In every interleaving each invoked worker was let through by the policy with room under the durable limits, by the route checks, and by two looks before any cancellation of its run, the second with its deadline ahead. |
| `ControlVetting.InvokedIff` | agents_inc/gateway.py:280-297 | The workers invoked, which the bounds on calls and messages speak of, are exactly those whose process was started by an armed dispatch. |
| `ControlVetting.AllowingIsVetted` | agents_inc/gateway.py:146-158 | Every allowing decision on record is that of a dispatch which the policy let through. |
| `ControlVetting.CancelledIff` | agents_inc/control.py:281-287 | A run counts as cancelled exactly from its first cancellation on. |
| `LedgerLoad.Load` | agents_inc/ledger.py:442-499 | The loaded nodes are the fold of the records and bad JSON is counted and skipped; the load raises if and only if a line is undecodable or no object, or a row cannot be added. |
| `LedgerLoad.FoldRaisesIff` | agents_inc/ledger.py:450-475 | For every log, adding the rows raises if and only if some row has a list or an object for an id, or a stamp that cannot be compared with that of the last row of its id that counts, or counts itself and has a number for `files_created`. |
| `LedgerLoad.ScalarsRaiseIff` | agents_inc/ledger.py:450-475 | With stamps that are texts, numbers or null: if and only if an id is a list or an object, one id has both a number and something else for a stamp, or a row that counts has a number for `files_created`. |
| `LedgerLoad.IncreasingLoadsIff` | agents_inc/ledger.py:471-475 | Rows whose stamps grow for each id load if and only if every id can be a key and no `files_created` is a number. |
| `JsonValues.GreaterThrough` | agents_inc/ledger.py:475 | Python's comparison of stamps, which may raise, is transitive where it does not. |
| `LedgerLoad.ReplayChangesNothing` | agents_inc/ledger.py:471-493 | Appending rows the log already has changes no node, in any stamp order, if and only if none of them has an object for a stamp; then it raises. |
| `LedgerLoad.FieldsAreLast` | agents_inc/ledger.py:453-493 | Every field of every node, whatever JSON values it was given, is the last true (or non-null) value among the rows later than all before them for the id, in any stamp order. |
| `LedgerLoad.KeptAs` | agents_inc/ledger.py:71-95 | A row's value is kept as it is, but a text for `files_created` is kept as its letters. |
| `JsonValues.FalseValues` | agents_inc/ledger.py:475-489 | Exactly null, zero, and the empty text, list and object count as false, and as no stamp. |
| `LedgerLoad.LastWriterWins` | agents_inc/ledger.py:475-492 | With growing stamps per id the last row with a value decides the field. |
| `LedgerLoad.LatestStamp` | agents_inc/ledger.py:474-475 | An id has a node exactly when a row bears it, with the stamp of one of its rows and no other of them later. |
| `LedgerGraph.ComputeDepth` | agents_inc/ledger.py:613-627 | The walk ends on every node map; it returns the hops to the chain's end, or 2 on a circle, and exceeds 1 exactly when the parent has a parent. |
| `LedgerGraph.RollupRoot` | agents_inc/ledger.py:804-822 | The depth-first walk adds up exactly the nodes whose chain of parents ends at the root. |
| `LedgerGraph.Rollup` | agents_inc/ledger.py:792-824 | One total per root, each of them the sum over its tree. |
| `LedgerGraph.SumAdds` | agents_inc/ledger.py:812-816 | Each node adds its own calls and seconds, where it has them, to a total that starts at nothing. |
| `LedgerGraph.TotalsAddUp` | agents_inc/ledger.py:792-824 | The totals add up to the cost of all nodes whose chain ends at a root, none counted twice, none on a circle or below a missing parent counted. |
| `LedgerGraph.OneRoot` | agents_inc/ledger.py:792-824 | A chain of parents ends at one root at most. |
| `Pipeline.Brief` | agents_inc/pipeline.py:200-355 | The status is `verified` if and only if some review within the cap was reached through runs fit for review and another provider's reviews with issues, and approved a fully cited draft. Every other end is that of the last run: blocked, paused, failed or returned as it says, with its draft and claims; a stopped correction leaves the draft before it; a draft left with issues has exactly the sentences marked that cite a rejected claim. |
| `Pipeline.VerifiedMeans` | agents_inc/pipeline.py:266-355 | From `verified`: claims exist and the words of each quote are consecutive words of its anchored paragraph, every sentence cites and every citation names a paragraph a claim quotes, and another provider approved each claim with no omission. |
| `Pipeline.ProcessWorkerResult` | agents_inc/pipeline.py:111-151 | A run needs review exactly when its claims match, a draft exists, and its citations are good or some sentence has none. |
| `Pipeline.MarkUnresolved` | agents_inc/pipeline.py:76-92 | Exactly the sentences citing a rejected claim's paragraph are marked, however the number is spelled. |
| `Pipeline.RejectedIsCited` | agents_inc/pipeline.py:58-92 | A sentence is marked exactly if it cites, in any spelling of the number, the paragraph of a claim that a verdict rejects. |
| `Reviewer.ReviewClaims` | agents_inc/reviewer.py:51-125 | Approval or issues come only from a reply of another provider whose verdicts are well formed. |
| `Reviewer.Judge` | agents_inc/reviewer.py:101-125 | Approved, with issues or invalid: the verdicts answer exactly the claims 0..n-1, each once, with booleans. |
| `Reviewer.CoverRange` | agents_inc/reviewer.py:116-121 | The uniqueness and range checks together accept exactly the permutations of 0..n-1. |
| `Reviewer.WellFormedIff` | agents_inc/reviewer.py:101-121 | n verdicts pass if and only if their answers are booleans, their claims numbers (true and false count as 1 and 0), and each of the n claims has one. |
| `Verifier.Verify` | agents_inc/verifier.py:21-41 | The failures are exactly the claims that do not match, matched equals checked exactly when there are none, and the words of every other claim's quote are consecutive words of the paragraph its anchor names. |
| `Verifier.OwnWordMatches` | agents_inc/verifier.py:25-37 | Whatever word of whatever paragraph is quoted under its number, from the first to the last, matches. |
| `Quotes.QuoteIsWholeWords` | agents_inc/verifier.py:34-35 | The words of a quote that stands in a paragraph are consecutive words of it, spacing and case aside. |
| `Quotes.OneWordIff` | agents_inc/verifier.py:34-35 | A quote of one word stands in a paragraph if and only if the paragraph has that word: never if it is cut out of a longer one. |
| `Quotes.NormIsSpaced` | agents_inc/verifier.py:15-16 | Normalizing is splitting at white space, lowering each piece, and joining with single spaces. |
| `Quotes.NormTwice` | agents_inc/verifier.py:15-16 | Normalizing twice is normalizing once, and the pieces between blanks are kept, lowered. |
| `Quotes.WordsOfNorm` | agents_inc/verifier.py:15-16 | Normalizing lowers the words and keeps them apart. |
| `Verifier.CheckDraft` | agents_inc/verifier.py:46-82 | Uncited sentences and bad citations are found exactly. |
| `Verifier.CiteIsAnchored` | agents_inc/pipeline.py:133-142 | A citation passes exactly when it is in shortest decimal form and its paragraph anchors a claim: (p03) is bad where (p3) is good. |
| `Verifier.ValueOfDecimal` | agents_inc/pipeline.py:71 | Writing a number and reading it gives the number. |
| `LiveRows.Follow` | agents_inc/live_rows.py:164-223 | However the bytes arrive, rows sent plus rows waiting are the rendered rows of the complete lines read up to `run.end`; it ends exactly when the whole-file view has ended, with all rows sent; non-full batches before the end are at least `interval` apart, and after every poll rows wait only if the last flush was less than that before; it gives up exactly at the first poll that still finds no file and whose time is past the wait. |
| `LiveRows.LinesInPieces` | agents_inc/live_rows.py:197 | Splitting a log in two reads gives the lines of the whole. |
| `LiveRows.HeaderIs` | agents_inc/live_rows.py:207-215 | The model shown is that of the last start of the run, times count from the first event since, and only our own end event ends. |
| `LiveRows.SplitLines` | agents_inc/live_rows.py:197 | The split of kept and new bytes at every newline. |
| `LiveRows.TakeLines` | agents_inc/live_rows.py:199-214 | Lines are taken once each, in order, and none after the end of the run. |
| `LiveRows.SendFull` | agents_inc/live_rows.py:215-216 | Full batches go at once, in order, and fewer rows than a batch remain. |
| `LiveRows.SendRest` | agents_inc/live_rows.py:217-220 | At the end everything is sent. |
| `LiveRows.Digest` | agents_inc/live_rows.py:196-220 | One poll keeps the follower in step with the whole-file view. |
| `Ranking.RankSorts` | agents_inc/lineup_router.py:80-106 | Ranking is a permutation of the pool in key order. |
| `Ranking.EarlierIsAtMost` | agents_inc/lineup_router.py:85-106 | Of two routes the earlier ranked has at most the other's value of the first criterion on which they differ, and, where all agree, no later model id. |
| `Ranking.CheapestFirst` | agents_inc/lineup_router.py:90-100 | Where cost comes first, free ranks before cheap, cheap before mid, mid before premium, and an unknown class last; where latency does, the larger context first. |
| `Ranking.AtMostIsTotal` | agents_inc/lineup_router.py:85-104 | The key order is total and ties only routes of one model. |
| `Ranking.PoolOrderIsNothing` | agents_inc/lineup_router.py:80-106 | With distinct model ids the ranking does not depend on the order of the pool. |
| `Lineup.ReplayIsPick` | agents_inc/derivation_store.py:122-142 | From an empty history the replayed pick equals the pick whenever there is one; without one, exactly when nothing was ever picked. |
| `Lineup.EmptyPoolForgetsPick` | agents_inc/lineup_router.py:111 | A later empty pool forgets the pick while the replay still finds the old one. |
| `Lineup.ReplayPick` | agents_inc/derivation_store.py:122-142 | The loop returns the last kept route of the history. |
| `Lineup.StepGrows` | agents_inc/lineup_router.py:236-278 | History, retries and changes only grow, a retry only within the rule, and only a holder that cannot continue gives way. |
| `Lineup.RunBounds` | agents_inc/lineup_router.py:236-278 | Over every run at most max_retries retries, numbered from 1, and authority changes that chain from the first holder to the present one. |
| `Lineup.NewPickIsUntried` | agents_inc/lineup_router.py:182-189 | After the retries, the new pick is of the pool, neither the failed model nor a retried one, and no such route ranks before it; there is none exactly when all were tried. |
| `Lineup.EventsDecide` | agents_inc/lineup_router.py:236-286 | What each event does to the pick, the retries, the holder and the history. |
| `Lineup.StepIgnoresPoolOrder` | agents_inc/lineup_router.py:236-278 | The same event on the same record decides the same however the pool is listed. |
| `Lineup.BuildPick` | agents_inc/lineup_router.py:109-120 | The pick and the history it appends. |
| `Lineup.RemoveFailed` | agents_inc/lineup_router.py:182-189 | The loops leave exactly the untried routes in order. |
| `Lineup.LoadRunRecord` | agents_inc/derivation_store.py:64-89 | The last record of the run in the store; it raises if and only if a line is undecodable or no object, or that record cannot be rebuilt. |
| `HostBlocks.UpsertIdempotentIff` | agents_inc/install/host_wiring.py:64-70 | Refreshing the block twice is refreshing it once if and only if the text is empty, has no mark, or has its first END after its first BEGIN. |
| `HostBlocks.StrayEndAppends` | agents_inc/install/host_wiring.py:66-70 | With an END and no BEGIN before it every refresh appends one more block. |
| `HostBlocks.StrayBeginCuts` | agents_inc/install/host_wiring.py:66-68 | With a BEGIN and no END the second refresh cuts text of the user. |
| `HostBlocks.RemoveUndoesUpsert` | agents_inc/install/host_wiring.py:72-76 | Removing an inserted block gives an unmarked text back up to its trailing newlines. |
| `HostBlocks.RemoveUndoesUpsertIff` | agents_inc/install/host_wiring.py:64-76 | For a text that had no block: taking an inserted block out again gives the text back, up to trailing newlines, if and only if it had no mark at all. |
| `HostBlocks.StrayEndStays` | agents_inc/install/host_wiring.py:64-76 | After an END with no BEGIN before it the block is never taken out. |
| `HostBlocks.StrayBeginLoses` | agents_inc/install/host_wiring.py:64-76 | After a BEGIN with no END all that followed the BEGIN goes with the block. |
| `HostBlocks.RemoveIgnoresRefresh` | agents_inc/install/host_wiring.py:64-76 | Refreshing an existing block does not change what removing it leaves. |
| `HostBlocks.RefreshForm` | agents_inc/install/host_wiring.py:66-68 | A refresh keeps what stands before and after the block. |
| `HostBlocks.BlockTextIsBlock` | agents_inc/install/host_wiring.py:44-60 | The block the installer writes is a managed block, if its instructions do not contain the END mark. |
| `HostBlocks.UpsertPlaced` | agents_inc/install/host_wiring.py:64-70 | A block in place is found again and left as it is. |
| `HostHooks.AddIdempotent` | agents_inc/install/host_wiring.py:129-145 | Wiring a host twice is wiring it once, hooks and sandbox list included. |
| `HostHooks.AddKeepsForeign` | agents_inc/install/host_wiring.py:129-145 | Every handler that is not ours nor legacy stays under its event, with its matcher and in order. |
| `HostHooks.StripUndoesAdd` | agents_inc/install/host_wiring.py:93-109 | Stripping after adding gives back exactly the stripped hooks, with or without the legacy rule. |
| `HostHooks.SandboxSettles` | agents_inc/install/host_wiring.py:112-127 | Adding, stripping and adding the sandbox exclusion is adding it once. |
| `HostHooks.StripKeepsForeign` | agents_inc/install/host_wiring.py:98-109 | Stripping drops no handler of anyone else. |
| `HostHooks.HookConfig.StripHooks` | agents_inc/install/host_wiring.py:93-109 | The loops over events and groups, in place, reach the specified configuration. |
| `HostHooks.HookConfig.AddHooks` | agents_inc/install/host_wiring.py:129-145 | The in-place additions reach the specified configuration. |
| `HostHooks.CommandsStand` | agents_inc/install/host_wiring.py:129-145 | After wiring a host, our commands stand exactly under these events and matchers, with these timeouts: the nudge before and the note after a tool, the session start, and the prompt hook, for a host that has them. |
| `HostHooks.NothingElseStands` | agents_inc/install/host_wiring.py:129-145 | Under every other event nothing of ours is left. |
| `HostHooks.BashNudges` | agents_inc/install/host_wiring.py:136-138 | A Bash call is nudged by one handler for each of the six patterns. |
| `HostHooks.DropsIff` | agents_inc/install/host_wiring.py:84-98 | Exactly the handlers that call our launcher's hooks or our prompt script, and, where the legacy ones go too, the script of former versions, are taken out. |
| `HostHooks.SandboxStripped` | agents_inc/install/host_wiring.py:120-127 | Stripping keeps the other entries in their order and the other keys; the sandbox itself goes exactly when nothing of either is left. |
| `HostHooks.SandboxListed` | agents_inc/install/host_wiring.py:112-127 | For Claude the sandbox lists our exclusion once, behind the other entries in their order; for every other host it is taken out. |
| `HostHooks.HookConfig.StripSandboxExclusion` | agents_inc/install/host_wiring.py:120-127 | Only our entry goes, and empty keys with it. |
| `Versions.OrdersAgreeIff` | agents_inc/install/catalog.py:35-36 | The stripped and the padded order agree on two versions if and only if they differ beyond trailing zeros or pad to the same length. |
| `Versions.ShortOrdersAgree` | agents_inc/model_sync.py:40-45 | So they agree on all versions of at most eight parts. |
| `Versions.LongZerosDisagree` | agents_inc/install/catalog.py:35-36 | And not beyond: 6 and 6 followed by eight zeros. |
| `Versions.ZerosDecideTies` | agents_inc/install/catalog.py:35-36 | Zeros at the end decide only between equals. |
| `Versions.ParseVersion` | agents_inc/model_sync.py:40-45 | The popping loop gives the stripped version. |
| `Versions.Newest` | agents_inc/install/catalog.py:51-62 | The newest offered model of the family, or none when none is offered. |
| `Versions.Drift` | agents_inc/install/catalog.py:65-72 | A newer slug is reported exactly when something newer than the pin is offered, and it is the newest. |
| `ModelSync.NeverLowers` | agents_inc/model_sync.py:129-148 | No tier's version falls, and a slug that changes becomes strictly newer and comes from the cache. |
| `ModelSync.EachTierItsPersona` | agents_inc/model_sync.py:27-148 | Each tier follows its own persona: it changes, to a cached slug of that persona, if and only if the persona is not pinned, the tier has an editable slug, and the cache a newer one. |
| `ModelSync.ModelFiles.SyncCodex` | agents_inc/model_sync.py:113-191 | A dry run writes nothing; an applied one promotes as specified, only adds clones for routed slugs, heals every tier, and changes nothing when nothing was to do. |
| `ModelSync.ModelFiles.SyncTwice` | agents_inc/model_sync.py:113-191 | A second applied run over the same cache promotes nothing and adds no entry. |
| `ModelSync.PromotedIsSettled` | agents_inc/model_sync.py:133-148 | After a promotion nothing is left to promote. |
| `ModelSync.BestIsNewest` | agents_inc/model_sync.py:97-110 | The best of a persona is a cached slug of its own that no cached one beats. |
| `ModelSync.SettledMeansNoDrift` | agents_inc/install/catalog.py:65-72 | Where the sync left nothing to promote, the padded order finds no newer cached slug either, up to eight parts. |
| `ModelSync.ModelFiles.BestByPersona` | agents_inc/model_sync.py:97-110 | The loop computes the specified best slugs. |
| `ModelSync.ModelFiles.FindDonor` | agents_inc/model_sync.py:172-179 | The donor is one of the newest codex entries of the tier, if any. |
| `ModelSync.ModelFiles.Heal` | agents_inc/model_sync.py:166-183 | Every routed slug gets an entry or has no donor, and other entries stay. |

## Left out

- Uninstall.UninstallAll: needs distinct owned paths, and that no chain of links from `current` or the receipt's release passes through a path the uninstall moves; `RepeatedPathIff` shows what a repeated path does. Its durable states are followed when the receipt is a regular file, and host files are backed up under names that do not collide.
- Uninstall.RemoveHostWiring: a host file that is itself a link is passed over.
- UninstallRecovery.PlanBesideJournalIff: the journal names nothing under the releases, and `current` links straight to a release; `PlanAgreesIff` needs neither.
- Installs.Lifecycle: the journalled operations are a list of honest acts, each of whose copies has a name of its own that no act targets; staging, the roster, the removal of a stale receipt copy and the unjournalled cache files are not modelled.
- Rollbacks.CutRollbackLeaves: `current` is a link or absent and the receipt a regular file or absent.
- Gateways.Gateway.Authorize: the later record that overrules the policy's verdict when route or deadline refuses is not modelled (`agents_inc/gateway.py:171`).
- LiveRows.Follow: the file only grows; a log that is truncated or replaced while followed is not modelled.
- ControlBudget.CallBudget: bounds calls only, because observed seconds are written after the reservation (`agents_inc/control.py:140`).
- Brokers.BrokerProcess.ServeLocked: the moment between a turn's result and the end of its thread is one step, and the turn's steps fall between polls.
- Brokers.BrokerProcess.ToolResume: refusals only count in run.json, so they are steps without effect; saving run.json and starting the turn are one step.
- HostHooks.HookConfig.AddHooks: the order of keys in the JSON object is not modelled, and `hooks` is an object.
- Directory creation for parents, file modes and times, relative link texts, and the granularity of a copy beyond truncate and write.
- `mkdir` records, which no caller journals.
- What the host-wiring pass writes into a host file, which is any function of its bytes; `RewireBlock` is that function for instruction files.
- Two questions asked at once in one Worker turn, and partly written answer files.
- Two MCP brokers on one run directory: that transport takes no lock.
- Credential and control-character screens, request validation, token and parent checks: an accept-or-refuse choice.
- Request counters, log lines, status and wait tools, and polling for a result.
- The shadow and off modes of the gateway, approvals, and every policy rule but the budget rule.
- The normalized mirror database.
- JSON, SQL and regular expressions as engines; SHA-256 is injective; case folding and word characters are ASCII.
- Numbers in the ledger that are not finite; JSON nested too deep to parse; the SQLite ledger and its lint.
- Ledger, artifact and receipt writes of the pipeline, and prompts.
- What an event looks like when rendered: rows are an arbitrary function of the event and the header.
- Reading and writing routing.json as text: a tier's slug is a map entry that may or may not be editable.
- Model settings, pins from files, approvals of pending updates, and the report lines of a sync.
- Liveness: a Lead or Worker that never replies, and whether the failure path of a route runs out of models.
