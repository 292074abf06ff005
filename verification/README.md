# Lithos-loom: protocols and text transformations, verified

Lithos-loom is an orchestration daemon: it claims stories on a Lithos server, runs them, delivers the
result as a pull request and keeps gates, branches and documents consistent with it. This project models
the parts of it that must stay right under failure, lost responses and concurrent actors, and proves what
they promise. `dafny verify dfyconfig.toml` checks everything.

| file | what it models |
|---|---|
| `KeeperProtocol.dfy` | the session keeper: callers, FIFO queue, reconnects, shutdown, as a transition system |
| `ClaimProtocol.dfy` | `task_claim` over an at-least-once transport, any number of processes, as a transition system |
| `GateRetirement.dfy` | which human gates a hand delivery retires, and what re-running it does |
| `GateSwap.dfy` | the gate swap itself, call by call, with a log of every step on the server |
| `DeliverRepo.dfy` | the append-only push over a commit DAG |
| `PullRequests.dfy` | opening or adopting the pull request behind the push |
| `CasLoop.dfy` | the compare-and-swap loop over document metadata |
| `MetadataCommands.dfy` | the four commands that go through it, and any run of them |
| `TaskLineParser.dfy`, `TaskGraph.dfy`, `ProjectImport.dfy` | Markdown import: lines to tasks, indentation to a forest, forest to created tasks |
| `DelimitedSpans.dfy`, `MaskingScanners.dfy` | masking of fenced blocks and inline spans against a declarative cut into pieces |
| `ListBlocks.dfy`, `DataLists.dfy` | masking of list blocks that read as data |
| `RenderDoc.dfy` | rendering a project-context note and splitting it back |
| `Supervising.dfy` | the process supervisor's spawn, wait, drain and reap |
| `ReviewDispositions.dfy` | which review rows are acted on, reported or suppressed, and whose replies may suppress |
| `EventBus.dfy` | structural filters and fan-out into bounded queues |
| `CursorStore.dfy` | the crash-safe cursor file |
| `Options.dfy`, `Sequences.dfy`, `Text.dfy` | the optional value; subsequences; white space and runs |

How failure is modelled: every client, `git` and `gh` call is an atomic step that may fail, and a write may
have taken effect when it fails; in `ClaimProtocol`, `DeliverRepo`, `PullRequests` and `ProjectImport` it may also take
effect later. Where the client sends a call up to three times, the model does too. Other
actors take any number of steps between two steps of ours, and a ghost count of faults lets a contract say what
happens when no call fails; what is relied on of them is one named predicate
per module (`GateSwap.Evolves`, `DeliverRepo.Grows`, `PullRequests.Moves`; in `CasLoop` they go through the
same server; in `KeeperProtocol` and `ClaimProtocol` they are events of the run).

Several promises of the code or its documentation are not met on all inputs. Each is stated with its exact
condition:

* A reconnect request queued after the keeper drained its queue is never answered, and neither is any
  request when the first connection failed, because that path leaves before the drain
  (`StrandedExactlyWhenTooLate`; runs: `TheWindowIsReal`, `AFailedStartStrands`).
* The keeper leaves its session set when its final teardown is cancelled, and the event stream open when its
  first connection is (`SessionSurvivesExactly`; runs: `ACutTeardownLeavesTheSession`,
  `ACancelledStartLeavesTheStream`).
* Two processes sharing an agent id exclude each other if and only if the server refuses the holder's own agent and
  the later one had no failed call: requiring a retry before a refused claim is looked up narrows the danger but does
  not remove it (`TwinsExcludeExactly`; runs: `TwinsCanBothReturn`, `TwinsAreBothGranted`).
* Retiring gates is not idempotent: a lone unattributed candidate kept on one pass is retired on the next
  (`SecondPassRetiresExactly`; input: `TheSecondPassRetiresOne`); a third pass never retires anything
  (`ThirdPassRetiresNothing`).
* A push whose subprocess raises (a timeout) is reported with exit 1, "nothing was written", even when origin
  applied it; and so is a failed push that origin applies only after it answered the reconciling read
  (`ExitRefusedIsHonestExactly`, `ExitRefusedIsHonestAtAllExactly`; inputs: `UnseenPushesAreReportedAsRefused`).
* A metadata patch lands as sent only if it clears the document, or mentions every key and sets none to None
  (`MergeReplacesExactly`, `CompositionFailsExactly`; inputs: `WhatLands`).
* A metadata writer that gives up after three conflicts may have written three times: it wrote nothing, in all runs
  with given numbers of sends, if and only if it sent each write once (`WroteNothingExactly`, and
  `AddWroteNothingExactly` for the command; run: `GivenUpAndWrittenThrice`). What every command writes settles, so
  another writer committed at least twice in the meantime (`OthersBeatASettlingWriter`, `CommandsSettle`).
* After a failed create, finding nothing in the listing means that no pull request was opened if and only if listings
  are complete, and that none was opened stays so if and only if no create is in flight
  (`NoneFoundMeansNoneExactly`, `StaysUnopenedExactly`; input: `AStrippedRowIsOverlooked`).
* Stripping tasks twice differs from stripping once for exactly one shape of document
  (`StrippingIsIdempotentUnless`; inputs: `StrippingTwiceDiffers`).
* A cursor store that could not read its file loses the other streams' cursors on its first save
  (`FirstSave`; input: `AnUnreadableFileLosesAStream`).
* Rendering drops text when the title's heading is followed directly by a line and then by more
  (`KeepsTheBodyExactly`; input: `RenderingDropsALine`), and is a fixpoint exactly for titles that read back
  (`RenderIsAFixpointExactly`; input: `ATrailingSpaceIsNoFixpoint`).
* Children are not reaped when the reaping itself is cancelled (`ReapsAllExactly`; input:
  `ACancelledReapingLosesAChild`).

The docstring of `task_claim` (`src/lithos_loom/lithos_client.py:843-852`) and the one of the dispatch hold
disagree about what the server answers to a second claim by the holder's own agent. `ClaimProtocol` allows
both answers; `strict` marks the runs against a server that refuses.

## Model

| member | source | states |
|---|---|---|
| KeeperProtocol.RunKeepsInv | src/lithos_loom/lithos_client.py:387-450 | every interleaving of callers, failed connects and shutdown keeps the queue in order, loses no request, answers honestly and opens one session per generation |
| KeeperProtocol.AnswersAreExact | src/lithos_loom/lithos_client.py:410-431 | a request is answered once, and the answer is an error if and only if the keeper leaves its loop in that step or the generation is still the one the caller saw fail |
| KeeperProtocol.AnErrorMeansAFailure | src/lithos_loom/lithos_client.py:410-450 | over every run, an answer is an error if and only if the keeper's own teardown or connection for that request came to nothing, or it was drained; any other answer follows a newer generation |
| KeeperProtocol.GenerationsAreSessions | src/lithos_loom/lithos_client.py:421-475 | the generation advances exactly when a session was opened for a request, which leaves it set; only a teardown takes one away, and leaves what its cut says |
| KeeperProtocol.StaleRequestsAreWavedThrough | src/lithos_loom/lithos_client.py:415-420 | a caller whose session was replaced meanwhile has no session opened for it, and is told to go on unless it is drained |
| KeeperProtocol.OneReconnectPerGeneration | src/lithos_loom/lithos_client.py:410-428 | however many requests carry one generation, at most one successful reconnect is made for them |
| KeeperProtocol.GenerationsAdvance | src/lithos_loom/lithos_client.py:421-424 | the generation never goes back and counts the successful reconnects |
| KeeperProtocol.StrandedExactlyWhenTooLate | src/lithos_loom/lithos_client.py:403-450 | at keeper exit a request is unanswered if and only if it was queued after the drain or the first connection failed; every other one has an error or a newer generation |
| KeeperProtocol.TheWindowIsReal | src/lithos_loom/lithos_client.py:429-431 | a run in which a request queued during the final teardown is stranded |
| KeeperProtocol.AFailedStartStrands | src/lithos_loom/lithos_client.py:403-408 | a run in which a request made while the first connection fails is stranded |
| KeeperProtocol.SessionSurvivesExactly | src/lithos_loom/lithos_client.py:429-475 | at keeper exit the session is still set if and only if the final teardown was cut short while it was; anything is open if and only if that teardown, or the first connection, was cut short |
| KeeperProtocol.ACutTeardownLeavesTheSession | src/lithos_loom/lithos_client.py:463-469 | a run in which a cancelled final teardown leaves the session set |
| KeeperProtocol.ACancelledStartLeavesTheStream | src/lithos_loom/lithos_client.py:492-510 | a run in which a cancelled first connection leaves the event stream open |
| KeeperProtocol.ShutdownMakesProgress | src/lithos_loom/lithos_client.py:700-706 | once the sentinel is queued each keeper step brings its exit nearer and no caller pushes it away |
| KeeperProtocol.KeeperIsNeverStuck | src/lithos_loom/lithos_client.py:410-431 | a keeper asked to shut down always has a step to take until it has exited |
| KeeperProtocol.ShutdownIsBounded | src/lithos_loom/lithos_client.py:700-706 | no run from the sentinel on holds more keeper steps than were left, so shutdown ends |
| KeeperProtocol.ReconnectQueue.DrainPendingReconnects | src/lithos_loom/lithos_client.py:433-450 | the drain loop answers every queued request with the shutdown error, drops sentinels and leaves the queue empty |
| ClaimProtocol.RunKeepsInv | src/lithos_loom/lithos_client.py:616-677 | every interleaving of any number of processes, a lossy transport and releases keeps the log, the calls in flight and the processes consistent |
| ClaimProtocol.ReturnMeansHeld | src/lithos_loom/lithos_client.py:855-918 | when `task_claim` returns, the server's holder was the caller's agent at the deciding response or status read, within the call |
| ClaimProtocol.ReturnsExactly | src/lithos_loom/lithos_client.py:843-918 | over every run, `task_claim` has returned, or raised, if and only if the first of its steps to end it did |
| ClaimProtocol.ResponsesDecide | src/lithos_loom/lithos_client.py:868-918 | a response returns if and only if it is a grant with an expiry or a status read naming the caller; `claim_failed` is looked up if and only if a call of the same `_invoke` failed before and a reconnect followed, in whichever attempt; anything else raises |
| ClaimProtocol.TriesDecide | src/lithos_loom/lithos_client.py:616-677 | a call is made if and only if fewer than three tries of the `_invoke` came to nothing, and it is given up if and only if three did |
| ClaimProtocol.LostTriesGoOn | src/lithos_loom/lithos_client.py:636-670 | a failed call is followed by a reconnect unless it was the third try, a reconnect by the next try |
| ClaimProtocol.OthersDoNotMoveIt | src/lithos_loom/lithos_client.py:616-677 | only its own steps move a process; its agent and its beginning stay, and its failed claims are counted |
| ClaimProtocol.RecoveryFollowsAFailure | src/lithos_loom/lithos_client.py:868-891 | a `claim_failed` turned into success always followed a failed call in the same `_invoke` |
| ClaimProtocol.AgentsExcludeEachOther | src/lithos_loom/lithos_client.py:855-918 | two processes with different agents both return only if the claim was freed in between |
| ClaimProtocol.TwinsExcludeExactly | src/lithos_loom/lithos_client.py:843-890 | two processes sharing an agent never both return without a release between, with or without failed calls of the later one, if and only if the server refuses the holder's own agent and there were none |
| ClaimProtocol.SharedAgentNeedsAFailure | src/lithos_loom/lithos_client.py:843-879 | the safe half: against a server that refuses the holder's own agent the later one recovered after a failed call |
| ClaimProtocol.TwinsCanBothReturn | src/lithos_loom/lithos_client.py:843-890 | a run, against either kind of server, in which a process whose first call never arrived takes its twin's claim for its own |
| ClaimProtocol.TwinsAreBothGranted | src/lithos_loom/lithos_client.py:843-852 | a run without a failed call in which a server that re-grants to the holder's own agent lets both return |
| ClaimProtocol.HoldersChangeThroughFree | src/lithos_loom/lithos_client.py:855-918 | the holder of an aspect changes from one agent to another only through a release or expiry |
| ClaimProtocol.HolderExactly | src/lithos_loom/lithos_client.py:855-918 | the holder is the agent of a grant with no release, expiry or other grant since |
| ClaimProtocol.AttemptsAreBounded | src/lithos_loom/lithos_client.py:626-677 | no process sends more than three claims and three status reads |
| GateRetirement.Retire | src/lithos_loom/cli/_deliver_lithos.py:262-362 | the loops over gates and candidates compute the retirement the lemmas below are about |
| GateRetirement.SupersededExactly | src/lithos_loom/cli/_deliver_lithos.py:305-328 | a gate is retired if and only if it is open, on a configured route, not a brief review, and either names the lineage or names no run and is the only candidate |
| GateRetirement.RetirementPartitionsTheGates | src/lithos_loom/cli/_deliver_lithos.py:303-339 | the retired and the retained gates are the open ones, each exactly once |
| GateRetirement.RetainedForItsReason | src/lithos_loom/cli/_deliver_lithos.py:306-339 | every retained gate is retained for the reason reported with it |
| GateRetirement.PointerNamesAKeptGate | src/lithos_loom/cli/_deliver_lithos.py:330-362 | the needs-human pointer survives if and only if it names a gate this delivery keeps open |
| GateRetirement.RoutesClearedExactly | src/lithos_loom/cli/_deliver_lithos.py:341-355 | a route's failed-attempt marker is cleared if and only if it has one, and a gate retired here is on it or no open gate but brief reviews is on a configured route |
| GateRetirement.TheOtherRoutesMarkerStays | src/lithos_loom/cli/_deliver_lithos.py:341-355 | of two stopped runs on two routes, delivering one clears only its own marker |
| GateRetirement.SecondPassRetiresExactly | src/lithos_loom/cli/_deliver_lithos.py:319-328 | a second full pass retires something if and only if the candidates were some of the lineage and exactly one other, which names no run |
| GateRetirement.ThirdPassRetiresNothing | src/lithos_loom/cli/_deliver_lithos.py:319-328 | two full passes settle the gates |
| GateRetirement.TheSecondPassRetiresOne | src/lithos_loom/cli/_deliver_lithos.py:319-328 | two gates of one route: the one that names no run is kept first and retired next |
| GateRetirement.ProtectedGatesStayOpen | src/lithos_loom/cli/_deliver_lithos.py:303-328 | over any sequence of re-runs, with any failures and any gates raised in between, no gate of another run, another subsystem or a brief review is completed |
| GateSwap.GateDelivery | src/lithos_loom/cli/_deliver_lithos.py:676-849 | every step on the server is a safe one; a story that is terminal or behind another PR's gate is not written to; an existing gate for the PR is adopted; nothing is completed under a route's claim; only the gates it retires are completed and only their routes' markers cleared; a gate it made and could not link is cancelled unless that fails too; a finished swap leaves no possible escalation of this run open; each problem is reported if and only if it is there; it escapes exactly on an error that is not caught, with the story held if anything was completed; when no call fails and nothing read stands in the way, the swap is carried out |
| GateSwap.SwapGates | src/lithos_loom/cli/_deliver_lithos.py:720-849 | the outcome says only what the log and the server bear out: the gate held, the gates completed, the write made, the marker matched |
| GateSwap.SwapUnderHold | src/lithos_loom/cli/_deliver_lithos.py:785-849 | once the `pr` gate holds the story, the rest keeps it held and reports what it did |
| GateSwap.ReadStory | src/lithos_loom/cli/_deliver_lithos.py:541-601 | the story was as it is read at some moment; what a non-atomic read returns still stands when it ends, and every gate that was listed and is still open was noticed |
| GateSwap.CreatePrGate | src/lithos_loom/gates.py:423-462 | a gate is returned only when it exists, is open and holds the story; a failed one changes nothing any other gate relies on, whether its orphan is cancelled or an uncaught error leaves it |
| GateSwap.AdoptOrCreate | src/lithos_loom/cli/_deliver_lithos.py:751-779 | either way the gate returned holds the story, and nothing is created when one is there |
| GateSwap.NoteDelivery | src/lithos_loom/cli/_deliver_lithos.py:781-799 | the story is written exactly when it does not already say what a delivered story says |
| GateSwap.WritesChangeOnly | src/lithos_loom/cli/_deliver_lithos.py:781-799 | a story write names a gate that holds the story, forgets the human gate exactly if told to, clears just the markers it names and leaves the delivery marker |
| GateSwap.RecordedExactly | src/lithos_loom/cli/_deliver_lithos.py:525-539 | the story already says a delivery if and only if writing it would change nothing |
| GateSwap.CouldBeOursExactly | src/lithos_loom/cli/_deliver_lithos.py:445-467 | a gate could be this run's if and only if this run would retire it, alone, on a host that configures its route |
| GateSwap.MarkersAreFloors | src/lithos_loom/cli/_deliver_lithos.py:496-523 | a marker covers a delivery if and only if it says at least as much of the same pull request and run |
| GateSwap.CompleteGates | src/lithos_loom/cli/_deliver_lithos.py:815-827 | each gate reported completed is closed, by this delivery, under the hold of its `pr` gate; every other is reported after three sends that failed, and only an uncaught error stops it |
| GateSwap.HeldThroughout | src/lithos_loom/cli/_deliver_lithos.py:697-702 | until a gate is completed all the story's gates stay; from then on a `pr` gate for the url holds the story |
| GateSwap.NeverReleased | src/lithos_loom/cli/_deliver_lithos.py:697-702 | a story withheld when the delivery starts is withheld at every later moment of it |
| GateSwap.ClosesOnlyItsOwn | src/lithos_loom/cli/_deliver_lithos.py:815-827 | a delivery closes only gates it minted itself and escalations it may answer |
| GateSwap.MintedIsNew | src/lithos_loom/gates.py:431-462 | the orphan gate that a failed link cancels is never one that was there before |
| DeliverRepo.ClassifyRemote | src/lithos_loom/cli/_deliver_repo.py:102-132 | the push is classified against a tip origin had, and as a fast-forward only if it is one; if no call fails it is classified, and as diverged only if origin holds something the branch does not |
| DeliverRepo.PushBranch | src/lithos_loom/cli/_deliver_repo.py:172-313 | step by step, with the push still in flight when its report is lost: a normal return means origin holds the commit; a refusal means this call did not put it there, if no push landed after the read; when no call fails only a diverged branch is refused; uncertainty takes two that failed, or a moved remote without the commit; origin only grows |
| DeliverRepo.SettlePush | src/lithos_loom/cli/_deliver_repo.py:210-274 | a failed push is taken for landed, refused or uncertain as the reread and the probe decide |
| DeliverRepo.LandedIsHeld | src/lithos_loom/cli/_deliver_repo.py:203-228 | a normal return means the delivered commit is in origin's history at the end of the call |
| DeliverRepo.OutcomesExactly | src/lithos_loom/cli/_deliver_repo.py:192-274 | an up-to-date branch is let through; a refusal takes a diverged branch, or a failed push after which the remote is as it was; any other normal return takes a push reported as done or origin seen to hold the commit; a raised subprocess propagates |
| DeliverRepo.ActionsExactly | src/lithos_loom/cli/_deliver_repo.py:102-116 | the action follows from the tip that was read and the ancestry answer |
| DeliverRepo.RefusedWroteNothing | src/lithos_loom/cli/_deliver_repo.py:255-257 | a ref found where it was before the push proves the push was not applied, although others append, under the named premise `Settled` |
| DeliverRepo.UncertainOnlyWhenUnsettled | src/lithos_loom/cli/_deliver_repo.py:210-274 | uncertainty is reported only when the remote could not be read, or moved and containment is unknown or refuted |
| DeliverRepo.NoStepDropsACommit | src/lithos_loom/cli/_deliver_repo.py:172-228 | whatever the push and the others do, origin keeps every commit |
| DeliverRepo.GrowsKeepsEveryCommit | src/lithos_loom/cli/_deliver_repo.py:172-182 | append-only means exactly that no commit leaves the branch |
| DeliverRepo.ExitRefusedIsHonestExactly | src/lithos_loom/cli/deliver.py:267-285 | where no push lands after the read, exit 1 is honest for every scenario of a branch and a report if and only if it is not a raised subprocess on a branch that is pushed |
| DeliverRepo.ExitRefusedIsHonestAtAllExactly | src/lithos_loom/cli/_deliver_repo.py:203-257 | where one may, if and only if nothing is sent or the push is reported as done |
| DeliverRepo.UnseenPushesAreReportedAsRefused | src/lithos_loom/cli/deliver.py:278-285 | a first push that origin applied, and that timed out or failed unseen, exits 1 |
| PullRequests.Adoptable | src/lithos_loom/cli/_deliver_repo.py:396-404 | the first same-repository candidate with our head and base, and none only if there is none |
| PullRequests.OpenOrAdopt | src/lithos_loom/cli/_deliver_repo.py:489-556 | at most one pull request is opened, only when none was reported for the branch; an adopted one was ours or appeared since; ours is always adopted when listed; a refusal is honest when it is made unless the listing was incomplete or someone disturbed ours, and only a create that failed can still be applied after it; uncertainty takes two failed calls |
| PullRequests.CreatedDespiteTheError | src/lithos_loom/cli/_deliver_repo.py:588-629 | after a failed create, which may be applied at any later moment, a listed pull request at our head is found, else one onto our base; "none" from a complete listing means none was opened so far |
| PullRequests.NoneFoundMeansNoneExactly | src/lithos_loom/cli/_deliver_repo.py:615-629 | finding none means none is open here, for all listings of a quality, if and only if the listings are complete |
| PullRequests.OverlookedRowsAreIncomplete | src/lithos_loom/plugins/story_develop/github_access.py:189-211 | an open pull request that both rules miss has no row that reports its origin, base and head |
| PullRequests.AStrippedRowIsOverlooked | src/lithos_loom/plugins/story_develop/github_access.py:201-203 | a row without `isCrossRepository` reads as a fork's, and ours is missed |
| PullRequests.StaysUnopenedExactly | src/lithos_loom/cli/_deliver_repo.py:520-556 | that none was opened outlasts the refusal if and only if no create is in flight |
| CasLoop.DocumentIsTheComposition | src/lithos_loom/cli/_github_metadata.py:236-283 | for any number of writers the metadata is the composition of the committed mutators in commit order, if each clears, or keeps every key and sets none to None |
| CasLoop.CompositionFailsExactly | src/lithos_loom/cli/_github_metadata.py:249-252 | that premise is exact: the first other mutator makes the document differ |
| CasLoop.WhatLands | src/lithos_loom/lithos_client.py:1428-1433 | at a one-key document: setting the key to None and dropping it do not land, clearing all does |
| CasLoop.MergeReplacesExactly | src/lithos_loom/lithos_client.py:1428-1433 | under the server's merge, where None deletes and an empty patch clears, the patch is what the document holds if and only if it clears, or has every old key and no None |
| CasLoop.OneCommitPerWrite | src/lithos_loom/cli/_github_metadata.py:253-276 | of all the sends of one write at most one commits; a success report means it did, a conflict report that the version moved |
| CasLoop.EachAttemptWasBeaten | src/lithos_loom/cli/_github_metadata.py:236-283 | a writer told of a conflict in each attempt met at least one commit in each, and made one at most in each that sent its write more than once |
| CasLoop.OthersBeatASettlingWriter | src/lithos_loom/cli/_github_metadata.py:236-283 | if what the writer wrote leaves it nothing to do, others committed in all but one of its attempts, so at least twice before it gives up |
| CasLoop.WroteNothingExactly | src/lithos_loom/cli/_github_metadata.py:253-283 | a writer that gives up wrote nothing, in all runs with given numbers of sends, if and only if each number is one |
| CasLoop.BeatenByARival | src/lithos_loom/cli/_github_metadata.py:236-283 | against a writer that takes its change back, every sequence of numbers of sends can happen, with one commit of its own for each write sent again and with the other's commits at the bound |
| CasLoop.Document.MutateWithCas | src/lithos_loom/cli/_github_metadata.py:228-283 | each commit replaces the version it was computed from; a no-op is a fixed point of the document read, and a mutator that raises writes nothing; a success report is one commit more; a writer that gives up was beaten in all three attempts, wrote at most once for each write it sent again, and if what it writes settles, others committed at least twice; it fails only if a call failed |
| CasLoop.Document.NoteWrite | src/lithos_loom/cli/_github_metadata.py:253-276 | at most one of the sends of one write commits, what the writer is told is what `OneCommitPerWrite` assumes, and it is given up only after three sends went unanswered |
| MetadataCommands.StrList | src/lithos_loom/cli/_github_metadata.py:119-138 | the loop with its `seen` set yields the list of `Strings` |
| MetadataCommands.StringsAreListedOnce | src/lithos_loom/cli/_github_metadata.py:119-138 | that list holds every non-empty string among the items once, and nothing else |
| MetadataCommands.NamesReadBack | src/lithos_loom/cli/_github_metadata.py:119-138 | a stored list of distinct names reads back as it is |
| MetadataCommands.LaterOnesChangeNothing | src/lithos_loom/cli/_github_metadata.py:119-138 | the first of equal names keeps its place; empty strings and what is no string are passed over |
| MetadataCommands.StoredValuesRead | src/lithos_loom/cli/_github_metadata.py:119-154 | a bare string reads as a list of one, anything but a list as none, and only a real `True` as watching |
| MetadataCommands.WhatACommandWants | src/lithos_loom/cli/project.py:1446-1599 | each command changes the repositories and the switch as it says, keeps every key, and only enabling without a repository raises |
| MetadataCommands.CommandsSayAll | src/lithos_loom/cli/_github_metadata.py:249-252 | on a document without None, what a command sends lands as sent |
| MetadataCommands.CommandsSettle | src/lithos_loom/cli/_github_metadata.py:240-248 | on the document a command left it has nothing more to do, whatever the document was |
| MetadataCommands.CommandsCompose | src/lithos_loom/cli/_github_metadata.py:236-283 | over any run of commands the document is the composition of the committed ones, if it starts without None |
| MetadataCommands.LastCommandDecides | src/lithos_loom/cli/project.py:1446-1599 | over any run, the last committed command about a repository decides whether it is mapped, and the last about the watcher whether it is on |
| MetadataCommands.RunCommand | src/lithos_loom/cli/project.py:1675-1705 | a command's run leaves such a composition; one that gives up was beaten by at least two commits of others and wrote at most once for each write it sent again |
| MetadataCommands.AddWroteNothingExactly | src/lithos_loom/cli/project.py:1446-1453 | `add-github-repo` against `remove-github-repo`: given up with nothing written, in all runs with given numbers of sends, if and only if each write was sent once |
| MetadataCommands.GivenUpAndWrittenThrice | src/lithos_loom/cli/project.py:1446-1500 | such a run in which the repository is written three times, removed twice, and the command gives up |
| TaskLineParser.ParseLines | src/lithos_loom/task_line_parser.py:124-169 | the line machine yields the tasks and body lines of the specification |
| TaskLineParser.ParseDoc | src/lithos_loom/task_line_parser.py:105-176 | the same on text, with the final newline kept when the body is not empty |
| TaskLineParser.ExtractedExactly | src/lithos_loom/task_line_parser.py:131-167 | a line is extracted if and only if it is outside fences, no fence line, no quote, and has the shape of a task |
| TaskLineParser.TaskMatchExactly | src/lithos_loom/task_line_parser.py:48 | a task line is white space, a dash, more white space, an empty box, white space and a text, with the indent and the text where they are cut |
| TaskLineParser.TasksSayWhatTheirLinesSay | src/lithos_loom/task_line_parser.py:154-167 | an extracted task has the indent of its dash and what the text behind its box says |
| TaskLineParser.ForeignTagsExactly | src/lithos_loom/task_line_parser.py:159-167 | a line is reported if and only if it is extracted and names another project |
| TaskLineParser.InsideAFenceExactly | src/lithos_loom/task_line_parser.py:131-147 | a line is inside a fence if and only if an earlier one opened it, outside any other, and none since closed it with the same character at least as often |
| TaskLineParser.FenceMarkerExactly | src/lithos_loom/task_line_parser.py:53 | a fence marker is three or more backticks or tildes at the very start |
| TaskLineParser.IsQuoteExactly | src/lithos_loom/task_line_parser.py:58 | a quote line begins, behind white space, with `>` |
| TaskLineParser.LinesEndAtBreaks | src/lithos_loom/task_line_parser.py:131 | a line ends at its first line break, CR LF being one |
| TaskLineParser.BreaksAre | src/lithos_loom/task_line_parser.py:131 | which characters break lines |
| TaskLineParser.NumbersIncrease | src/lithos_loom/task_line_parser.py:131-169 | task line numbers are strictly increasing and within the document |
| TaskLineParser.TaskIsReadOffItsLine | src/lithos_loom/task_line_parser.py:154-167 | every task is the parse of the source line it names |
| TaskLineParser.EveryLineGoesOnce | src/lithos_loom/task_line_parser.py:131-169 | every line becomes one task or one body line, in order |
| TaskLineParser.NeverExtracted | src/lithos_loom/task_line_parser.py:132-152 | nothing inside a fence, on a fence line or on a quote line is extracted |
| TaskLineParser.ReparseIsStable | src/lithos_loom/task_line_parser.py:124-176 | removing tasks changes no fence state a kept line saw; re-parsing the body extracts nothing and returns it |
| TaskLineParser.SplitJoin | src/lithos_loom/task_line_parser.py:131-175 | splitting joined lines gives them back, when the last is not empty |
| TaskLineParser.SplitJoinNewline | src/lithos_loom/task_line_parser.py:173-175 | and always when a final newline was added |
| TaskLineParser.StrippingIsIdempotentUnless | src/lithos_loom/task_line_parser.py:171-175 | stripping twice is stripping once unless the document has no final newline and is task lines and exactly two empty lines |
| TaskLineParser.StrippingTwiceDiffers | src/lithos_loom/task_line_parser.py:171-175 | two empty lines and a task become a newline, and then nothing |
| TaskGraph.BuildPlan | src/lithos_loom/task_graph.py:87-160 | the stack algorithm yields the plans and errors of the declarative forest |
| TaskGraph.Reopen | src/lithos_loom/task_graph.py:97-108 | popping leaves exactly the ancestor chain of the current line |
| TaskGraph.LinkLines | src/lithos_loom/task_graph.py:90-108 | the parent and children maps are those of the forest |
| TaskGraph.ParentIsParent | src/lithos_loom/task_graph.py:97-106 | the parent is the nearest earlier line with smaller indent, and only that |
| TaskGraph.ChainIsTheAncestors | src/lithos_loom/task_graph.py:94-108 | the stack holds exactly the ancestors of the current line |
| TaskGraph.DescendantsAreTheDeeperBlock | src/lithos_loom/task_graph.py:97-108 | the descendants of a line are exactly the contiguous block of deeper lines after it |
| TaskGraph.SequentialPredecessor | src/lithos_loom/task_graph.py:142-149 | a line's place among its siblings is found, and with it the one it waits for |
| TaskGraph.DependsOnPreviousSibling | src/lithos_loom/task_graph.py:142-149 | a line waits for another if and only if that is the preceding child of their sequential parent |
| TaskGraph.SequentialChildrenFormAPath | src/lithos_loom/task_graph.py:142-149 | a sequential parent with k children gets the k-1 edge path over them, any other parent none |
| TaskGraph.EpicsAreTheParents | src/lithos_loom/task_graph.py:139-140 | a plan is an epic if and only if some line has it as parent |
| TaskGraph.PlansHaveTheirParents | src/lithos_loom/task_graph.py:90-160 | a plan is of its line, and its parent is the nearest earlier line indented less, or none if there is none |
| TaskGraph.FindEmptyParents | src/lithos_loom/task_graph.py:115-133 | the error loop reports the empty parents |
| TaskGraph.EmptyParentsAreReported | src/lithos_loom/task_graph.py:115-133 | a line is reported if and only if it is empty and has a child |
| TaskGraph.ReferencesPointBackwards | src/lithos_loom/task_graph.py:135-160 | document order is a creation order: every reference names an earlier plan |
| ProjectImport.PlansAreInCreationOrder | src/lithos_loom/cli/_project_import_bulk.py:505-511 | the plans of a parsed document only refer to plans before them |
| ProjectImport.CreateTasks | src/lithos_loom/cli/_project_import_bulk.py:512-591 | no id is missing when looked up; after a failure at any plan, what was recorded is a document-order prefix with its references resolved, and what the server holds beside it, or may still receive, are copies of sent payloads; it fails only after three sends of a plan failed, and then posts the recovery for the first created task, if any; if no call failed there is one task for each plan |
| ProjectImport.CreateAll | src/lithos_loom/cli/_project_import_bulk.py:521-559 | the loop itself, over an at-least-once create |
| ProjectImport.Server.TaskCreate | src/lithos_loom/cli/_project_import_bulk.py:544-555 | what lands during a create are copies of its payload, or of payloads whose sends were lost before, the last of them the one whose id came back |
| ProjectImport.AnsweredRound | src/lithos_loom/cli/_project_import_bulk.py:540-559 | a created plan extends the recorded prefix, its task behind all recorded before |
| ProjectImport.FailedRound | src/lithos_loom/cli/_project_import_bulk.py:553-555 | a failed plan, committed or not, or late, leaves the recorded prefix as it was and every reference pointing back |
| ProjectImport.LandingKeepsImported | src/lithos_loom/cli/_project_import_bulk.py:544-555 | sends that were given up for lost may land at any later moment, in any number, and all of it still holds |
| ProjectImport.CreatedInDocumentOrder | src/lithos_loom/cli/_project_import_bulk.py:505-559 | where nothing was sent twice the server holds the plans one by one in document order |
| ProjectImport.ImportMirrorsTheForest | src/lithos_loom/cli/_project_import_bulk.py:521-559 | what is recorded mirrors the document: titles, epics, and the task of a line as parent if and only if that line is the parent |
| ProjectImport.ImportMirrorsTheChains | src/lithos_loom/cli/_project_import_bulk.py:541-552 | and a task waits for another if and only if that is the previous child of their sequential parent |
| ProjectImport.ImportsAreAcyclic | src/lithos_loom/cli/_project_import_bulk.py:505-511 | no run, however it failed, leaves a cycle of parent and dependency edges |
| ProjectImport.ImportDocument | src/lithos_loom/cli/project.py:835-845 | text in, tasks out: refused exactly on a tag of another project or an empty parent, and then nothing is created |
| DelimitedSpans.MaskRendersPieces | src/lithos_loom/github_approval.py:410-462 | however a sequence is cut into plain items, closed spans and an unclosed rest, the scan renders those pieces |
| DelimitedSpans.EverySequenceHasPieces | src/lithos_loom/github_approval.py:410-462 | every sequence has such a cut |
| DelimitedSpans.NothingOpensAfterwards | src/lithos_loom/github_approval.py:410-462 | no opener survives the scan, for any notion of opener and closer |
| MaskingScanners.MaskFencedBlocks | src/lithos_loom/github_approval.py:410-436 | the index loop computes the scan over fences |
| MaskingScanners.CloseOfFence | src/lithos_loom/github_approval.py:432-434 | the inner loop stops at the first line that closes, or past the end |
| MaskingScanners.OpensFenceExactly | src/lithos_loom/github_approval.py:235 | a line opens a fence if and only if it is at most three spaces, three or more of one fence character, and no backtick behind backticks |
| MaskingScanners.ClosesFenceExactly | src/lithos_loom/github_approval.py:424-434 | it closes one if and only if it is at most three spaces, the same character at least as often, and blanks |
| MaskingScanners.MaskedFencesAreGone | src/lithos_loom/github_approval.py:410-436 | no output line opens a fence, so masking again changes nothing |
| MaskingScanners.FencesAreMaskedByBlock | src/lithos_loom/github_approval.py:410-436 | one mask line per block, closed by a bare run of the same character at least as long, all else kept |
| MaskingScanners.MaskInlineRuns | src/lithos_loom/github_approval.py:439-462 | the two nested searches compute the scan over runs |
| MaskingScanners.SkipToCloser | src/lithos_loom/github_approval.py:454-460 | the inner search finds the first run of exactly the opening length, or none |
| MaskingScanners.MaskedRunsAreGone | src/lithos_loom/github_approval.py:439-462 | no delimiter character is left, so masking again changes nothing |
| MaskingScanners.RunsAreMaskedBySpan | src/lithos_loom/github_approval.py:439-462 | one mask per span closed by a run of exactly the opening length, the text around it kept |
| MaskingScanners.TokensSpellTheText | src/lithos_loom/github_approval.py:225-226 | the runs and plain characters the scan works on spell the text |
| MaskingScanners.RunsAreWhole | src/lithos_loom/github_approval.py:225-226 | a run of backticks is taken whole, one of tildes up to two at a time, and no mark is left as text; so the text determines the tokens |
| ListBlocks.MaskLists | src/lithos_loom/github_approval.py:553-614 | one pass with `run`, `members`, `texts`, `after_blank` masks what the declarative blocks say |
| ListBlocks.Step | src/lithos_loom/github_approval.py:587-613 | one line moves the open list on as the specification does |
| ListBlocks.Flush | src/lithos_loom/github_approval.py:574-585 | settling a list masks all its members or none |
| ListBlocks.LeadIn | src/lithos_loom/github_approval.py:515-532 | the nearest non-blank line above the list decides whether it is introduced as data |
| ListBlocks.BlocksAreAllOrNothing | src/lithos_loom/github_approval.py:535-614 | the members of a block are kept if and only if nothing introduces it as data and each item reads as a verdict together with all that continues it, else all are masked |
| ListBlocks.TextsOfTheItems | src/lithos_loom/github_approval.py:587-611 | the texts of a block are one for each top item, in order: its text, then a space and the stripped text of every continuation before the next |
| ListBlocks.TopItemsAreAll | src/lithos_loom/github_approval.py:589-598 | all top items are among them, in order |
| ListBlocks.AContinuationIsRead | src/lithos_loom/github_approval.py:604-610 | a verdict continued by another line is read with it, and both are masked |
| ListBlocks.IntroducedByTheNearestLine | src/lithos_loom/github_approval.py:515-532 | a list is introduced as data if and only if the nearest line above that is not blank reads as no verdict |
| ListBlocks.OnlyListLinesAreTouched | src/lithos_loom/github_approval.py:587-613 | nested items are always masked; blanks and lines outside lists never |
| ListBlocks.BlocksAreContiguous | src/lithos_loom/github_approval.py:587-613 | a block is an unbroken stretch of lines from its first item |
| ListBlocks.NestingIsByIndent | src/lithos_loom/github_approval.py:589-594 | an item is nested if and only if it is indented more than the block's first item |
| ListBlocks.RoleFollowsTheLineAbove | src/lithos_loom/github_approval.py:587-613 | the role of a line follows from the role of the line above and the first item of its block |
| ListBlocks.ListsEndForAReason | src/lithos_loom/github_approval.py:599-613 | a line right after a list ends it if and only if it is no item, not blank, and starts a block or is unindented after a blank |
| DataLists.MaskDataLists | src/lithos_loom/github_approval.py:535-614 | the same from text lines, with items and block starts recognised on the original text |
| DataLists.ItemsAreNotBlank | src/lithos_loom/github_approval.py:243-306 | what is recognised as an item is never a blank line |
| DataLists.ParsesExactly | src/lithos_loom/github_approval.py:239-243 | a line parses as an item if and only if it is blanks, a bullet or one to nine digits with a delimiter, blanks and a text, which the item is |
| DataLists.ListItemExactly | src/lithos_loom/github_approval.py:281-306 | it is one if and only if it is a bullet or numbered one, no paragraph is open above, or it continues an ordered list |
| DataLists.ContinuesOrderedExactly | src/lithos_loom/github_approval.py:299-306 | it continues one if and only if the nearest item above has its delimiter and no line from there on is blank or a mask |
| DataLists.IsOneExactly | src/lithos_loom/github_approval.py:295 | a number is one if and only if it is a `1` behind zeros |
| DataLists.RecognisedExactly | src/lithos_loom/github_approval.py:568-613 | the indent is the white space a line begins with, and stripping takes it off both ends |
| DataLists.BlockStartsExactly | src/lithos_loom/github_approval.py:309-318 | a line starts a block if and only if it is an item, a heading, a quote, a thematic break or has the shape of a fence |
| RenderDoc.SplitsWhereItEnds | src/lithos_loom/render_project_context.py:63-66 | a rendered block is split off where it ends if and only if no line of it but the first is a bare `---` |
| RenderDoc.ExtractUndoesRender | src/lithos_loom/render_project_context.py:69-100 | splitting a rendered note gives back its frontmatter and its titled body |
| RenderDoc.ExtractsExactly | src/lithos_loom/render_project_context.py:156-200 | a file splits into a frontmatter and a rest if and only if it is the delimiters around a block without a bare `---` line, which loads as it, and the rest; else it is all body |
| RenderDoc.FrontmatterLosesNothing | src/lithos_loom/render_project_context.py:129-153 | the frontmatter tells notes apart by all but title and body, and leaves out exactly what is absent |
| RenderDoc.RenderingIsTidy | src/lithos_loom/render_project_context.py:93-126 | a titled body is rendered under one heading with a final newline |
| RenderDoc.RenderIsAFixpointExactly | src/lithos_loom/render_project_context.py:99-126 | rendering the rendered body again gives the same body half if and only if the title is not empty, has no newline and ends in no white space |
| RenderDoc.PushBackIsStableExactly | src/lithos_loom/render_project_context.py:156-209 | pushing the extracted body back keeps it, and so its hash, through any version, time, status or tag rewrite, under the same condition |
| RenderDoc.ATrailingSpaceIsNoFixpoint | src/lithos_loom/render_project_context.py:99-126 | a title that ends in a space never gives a fixpoint |
| RenderDoc.KeepsTheBodyExactly | src/lithos_loom/render_project_context.py:103-126 | the text after the heading is kept if and only if the heading is not followed directly by a line and then by more text |
| RenderDoc.RenderingDropsALine | src/lithos_loom/render_project_context.py:121-125 | a heading and two lines: the second is dropped |
| Supervising.Run | src/lithos_loom/supervisor.py:121-146 | wherever a spawn fails or a cancellation falls, the children spawned so far are reaped, unless the reaping itself is cancelled; it ends with a status if neither happens; 0 only if nothing was enabled, a shutdown was requested, or every child's exit 0 was taken as the end of its drain; 0 exactly when no crash is on record and every exit is 0 or SIGTERM |
| Supervising.ReapsAllExactly | src/lithos_loom/supervisor.py:233-263 | reaping sees every child exit if and only if it is not cancelled, or none was running |
| Supervising.ACancelledReapingLosesAChild | src/lithos_loom/supervisor.py:242-263 | a cancellation in the grace period leaves a child neither killed nor waited for |
| Supervising.Supervisor.WaitForShutdownOrCrash | src/lithos_loom/supervisor.py:164-220 | the wait ends with a cancellation, a shutdown, one crash on record, or every child drained |
| Supervising.Supervisor.TakeRound | src/lithos_loom/supervisor.py:184-214 | each round ends the wait, takes a live wait away, or starts the drain; an exit in the round of the drain event is a crash |
| Supervising.Supervisor.Judge | src/lithos_loom/supervisor.py:196-211 | in whatever order a round's exits are judged, one that is not 0 under a drain is the crash |
| Supervising.Supervisor.TerminateRemaining | src/lithos_loom/supervisor.py:233-263 | what it leaves is what `AfterReaping` says of the exits seen and the cancellation; uncancelled, every child has exited |
| ReviewDispositions.Dispositions | src/lithos_loom/github_review_streams.py:513-540 | the loop yields the rows to act on and the approvals, in input order, under the scopes of the whole context |
| ReviewDispositions.WhatBecomesOfARow | src/lithos_loom/github_review_streams.py:160-287 | stream by stream: what is acted on, reported and dropped |
| ReviewDispositions.HandledReviewIds | src/lithos_loom/github_review_streams.py:493-510 | the collected roots yield exactly the reviews that own a root and whose roots are all handled |
| ReviewDispositions.MoreHandledOnlyDrops | src/lithos_loom/github_review_streams.py:160-287 | proving more handled never moves a row to another list; it keeps its own or is dropped, a `CHANGES_REQUESTED` review never |
| ReviewDispositions.ListsOnlyShrink | src/lithos_loom/github_review_streams.py:513-540 | as lists: what remains is a subsequence of what was there |
| ReviewDispositions.SweepIsIntakeWithoutApprovals | src/lithos_loom/github_review_streams.py:513-574 | the sweep's actionable list is the intake's filtered by not-approval, in order |
| ReviewDispositions.AuthorTrust.Permission | src/lithos_loom/github_review_streams.py:409-420 | a failed probe is the permission `none`; no author is probed twice |
| ReviewDispositions.AuthorTrust.ProvenHandled | src/lithos_loom/github_review_streams.py:437-474 | the handled roots are those a landed-fix reply of a trusted author names |
| ReviewDispositions.ProvenExactly | src/lithos_loom/github_review_streams.py:437-474 | a root is proven handled if and only if a reply to it claims a landed fix and is by a listed bot or an author whose probe answered write or admin |
| ReviewDispositions.TrustedExactly | src/lithos_loom/github_review_streams.py:409-425 | trusted are the listed bots and those whose probe answered write or admin; a failed probe trusts no one |
| ReviewDispositions.UntrustedRowsProveNothing | src/lithos_loom/github_review_streams.py:437-474 | however many rows of untrusted authors are added or removed, the same roots are proven |
| ReviewDispositions.UntrustedRepliesChangeNothing | src/lithos_loom/github_review_streams.py:437-510 | two histories that differ only in replies of untrusted authors give every row the same disposition |
| EventBus.MatchesIsTransitive | src/lithos_loom/bus.py:85-102 | matching is transitive on JSON trees |
| EventBus.MatchesByPath | src/lithos_loom/bus.py:85-102 | a filter matches if and only if at every path it has, the payload has the same scalar, a list with every item, or an object |
| EventBus.WantsExactly | src/lithos_loom/bus.py:121-136 | an event is wanted if and only if its kind is listed, the filter matches and the predicate says yes; raising is no match |
| EventBus.ValueMatchesItself | src/lithos_loom/bus.py:85-102 | matching is reflexive on JSON trees |
| EventBus.AcceptsMoreExactly | src/lithos_loom/bus.py:64-102 | one filter accepts every payload another does if and only if it matches the other as a payload |
| EventBus.Subscription.Offer | src/lithos_loom/bus.py:191-203 | matching publishes are always dequeued, queued or counted as dropped, and what was kept is in order and within the bound |
| EventBus.Subscription.Take | src/lithos_loom/bus.py:105-114 | a consumer takes the oldest event, and the count and the order still hold |
| EventBus.Bus.Subscribe | src/lithos_loom/bus.py:148-183 | an unbounded queue is refused; a new subscription leaves the others as they were |
| EventBus.Bus.NothingIsUnaccounted | src/lithos_loom/bus.py:105-203 | over any run, what a subscription's rule wants of the events since it subscribed is dequeued, queued or counted as dropped, the kept part in order |
| EventBus.Bus.Publish | src/lithos_loom/bus.py:185-203 | every matching subscription gets the event or counts a drop, whatever its siblings do; the others are untouched |
| CursorStore.Directory.Write | src/lithos_loom/cursor_store.py:104-142 | with short writes, failures and crashes at any call, the file's content is the old one or the whole new one |
| CursorStore.Directory.WriteAll | src/lithos_loom/cursor_store.py:122-127 | short writes end in the whole payload or in a failure |
| CursorStore.Store.Save | src/lithos_loom/cursor_store.py:52-65 | a failed save changes neither file nor cache; after any save that did not crash the cache is what the file holds, if it was before |
| CursorStore.SaveAll | src/lithos_loom/cursor_store.py:42-65 | over any run of saves every content the file ever had is absent or a complete object |
| CursorStore.FirstSave | src/lithos_loom/cursor_store.py:42-79 | the first save of a store, when it succeeds, keeps the other streams' cursors if and only if the file could be read or held no others |
| CursorStore.FirstSaveKeepsOthersExactly | src/lithos_loom/cursor_store.py:52-79 | the same of the contents |
| CursorStore.AnUnreadableFileLosesAStream | src/lithos_loom/cursor_store.py:72-79 | an unreadable file of two streams: saving one loses the other |
| Text.BlankIsAllSpace | src/lithos_loom/github_approval.py:599 | a line is blank if and only if it holds nothing but white space |
| Text.StrippedExactly | src/lithos_loom/github_approval.py:609 | stripping takes the white space off both ends and nothing else |

## Left out

- KeeperProtocol.RunKeepsInv: a caller is a queued request; cancellation of callers and the inline reconnect of a client that never started its keeper are not modelled; a cancellation of the keeper falls where the events put it.
- ClaimProtocol.RunKeepsInv: the keeper is one event that restores the session, since its own protocol is `KeeperProtocol`; TTLs and renewals are a release that may come at any moment.
- GateSwap.GateDelivery: gates carry what the rule reads (kind, url, route, reason, run); titles, the approval record, the operator's wording of problems and the marker write after the finding are not modelled. Other actors are relied on not to close an open `pr` gate of this PR, not to reopen a gate and not to remove an edge. Which errors the code catches is a choice at each failed call; when one escapes, which one is not modelled. A failed call has taken effect when it fails or never does.
- GateSwap.ReadStory: whether the story is claimed by a route is one fact of the server; agents, aspects and expiry of claims are not modelled.
- GateRetirement.Retire: sets of routes stand for sorted tuples.
- DeliverRepo.RefusedWroteNothing: has the premise `Settled`, without which it is false (`ExitRefusedIsHonestAtAllExactly`).
- DeliverRepo.PushBranch: `_set_upstream` and the wording of errors are not modelled.
- PullRequests.OpenOrAdopt: the base is resolved already; which Python exception a failed `gh` call raises is not modelled, nor is the projection of a preview (`moves_to_ours` is one more head in `Adoptable`).
- CasLoop.Document.MutateWithCas: metadata values are strings, booleans, lists and None, so Python's `1 == True` in the no-op test is not modelled; writers outside the loop are writers with a mutator of their own.
- MetadataCommands.RunCommand: the pattern of a repository name is not modelled (a name is any non-empty string), nor are messages, exit codes and the one-shot migration of tags.
- TaskLineParser.ParseLines: descriptions, tags, priorities and foreign project tags of a task line are one opaque function of the line (`TaskText`); the fence and task patterns are written out.
- ProjectImport.ImportDocument: other clients create no tasks meanwhile; dry runs and `--force-tasks` are not modelled.
- MaskingScanners.MaskFencedBlocks: works on the lines of the text; splitting at newlines and joining are not modelled.
- DataLists.MaskDataLists: whether a text reads as a verdict, and the canonical form of a lead-in, are opaque functions (`Vocabulary`); digits are ASCII, where Python's `\d` takes any Unicode digit.
- RenderDoc.ExtractUndoesRender: YAML is a pair of opaque functions whose round trip is a premise; the hash is a function of the body half.
- Supervising.Run: real time and signals to children; a spawn that is cancelled leaves no child of its own; an exit seen by the wait a round later than it happened is judged in that later round, as in the code, so an exit 0 just before the drain relay can count as drained.
- The quote, table, indented-code and soft-wrap passes of `github_approval.py`, and the approval phrases.
- ReviewDispositions.Dispositions: how a body reads (approval, loom's own reply, landed fix) is opaque; fetching, rendering and reply modes are not modelled.
- ReviewDispositions.AuthorTrust.ProvenHandled: what a probe answers is a function of the author, so permissions do not change within a batch.
- EventBus.Bus.Publish: events are values, where the code shares references; scalars compare as one value each, so Python's `1 == True` is not modelled, and objects inside list items compare with their key order.
- CursorStore.Store.Save: a file is absent, unreadable once at the start, or read; entries that are not strings, which loading ignores, are not modelled, and a rename is atomic.
- Configuration, doctor, notifications, plugin runners, report rendering and the thin per-tool client wrappers.
