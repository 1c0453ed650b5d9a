# chess-crawl: verified models of its protocols and ledgers

chess-crawl is a durable, concurrent crawler over PostgreSQL. Its workers are database sessions that
may stop between any two statements; its tables are job queues, coverage ranges, budgets and outboxes.
This project models the protocols that keep those tables truthful and proves what they promise for all
inputs, all interleavings and all reachable states.

A table is a map, a set or a sequence (a row's id is its position where ids are handed out in order).
Code that updates rows or fields is a class whose methods are proved against specification functions;
the theorems are about those functions, over runs in which any worker may take the next step, die, be
recovered or be overtaken. Clocks, network answers, stop requests and other workers' activity are
parameters. SHA-256 and lock keys are taken to be injective; regular-expression matches are a given
list of ordered, disjoint spans.

| files | what they model |
|---|---|
| `Discovery.dfy`, `DiscoveryMeaning.dfy`, `DiscoveryRuns.dfy`, `DiscoveryTheorems.dfy` | the opponent crawl: chaotic relaxation of depths through dedup keys, promotions and caps |
| `Ranges.dfy`, `Pagination.dfy`, `PaginationRuns.dfy`, `PaginationProgress.dfy`, `PaginationExact.dfy` | gap-driven Lichess paging: multirange arithmetic, soundness of coverage, termination |
| `Ownership.dfy` | session locks, the fencing token, orphan recovery |
| `Claiming.dfy`, `ClaimingRuns.dfy` | the claim query and its provider-exclusion loop, fairness, the active cap |
| `Ledger.dfy`, `LedgerRuns.dfy`, `BoundedRead.dfy`, `Backlog.dfy` | work budgets, bounded network reads, the backlog ceiling |
| `MoveTree.dfy`, `MoveTreeTheorems.dfy`, `RavMeaning.dfy`, `TokenCover.dfy` | PGN evidence: the variation tree and the lossless token record |
| `Artifact.dfy`, `Certification.dfy`, `RunGames.dfy`, `ExportCapacity.dfy`, `Outbox.dfy`, `OutboxTheorems.dfy`, `OutboxOrder.dfy`, `OutboxPublisher.dfy` | artifact downloads, normalization certificates, the run-game cap, export capacity, the event outbox |
| `Common.dfy` | options, bytes, small arithmetic |

`dafny verify dfyconfig.toml` checks the whole project.

## Model

| member | source | states |
|---|---|---|
| `Discovery.KnownMeaning` | src/chess_crawl/jobs/state.py:870-893 | The known depth is the exact minimum over a user's acquisition and expansion rows, and is absent exactly when no row speaks for the user. |
| `Discovery.JobTable.KnownCrawlDepth` | src/chess_crawl/jobs/state.py:870-893 | The nested minimum of the query computes that depth. |
| `Discovery.JobTable.EnqueueOpponentExpansion` | src/chess_crawl/jobs/state.py:162-176 | One expansion per acquisition row and effective depth, whatever state an earlier one is in; reports whether a row was added. |
| `Discovery.JobTable.PromoteCrawlDepth` | src/chess_crawl/jobs/state.py:179-201 | Idle rows of the user fall to the depth, in-progress ones keep theirs, and each live or done acquisition gets an expansion. |
| `Discovery.JobTable.EnqueueOpponentChildren` | src/chess_crawl/jobs/discovery.py:98-145 | Skips, promotes, refuses at a cap or inserts each opponent in order; `inserted` is the number of new acquisition rows. |
| `Discovery.JobTable.ExpandOpponentFrontier` | src/chess_crawl/jobs/discovery.py:148-198 | The frontier, in edge order, is judged on the table before any child is queued; nothing happens beyond the depth bound. |
| `Discovery.JobTable.FinishAttempt` | src/chess_crawl/jobs/state.py:602-652 | Blocks a transient failure, counting the retry, until the retry limit makes it an error; any other blocking pauses the row; an acquisition row falls to its user's known depth. |
| `DiscoveryMeaning.EarlierOpponentsFirst` | src/chess_crawl/jobs/discovery.py:148-198 | Opponents are let in in the order of the edges: if an opponent gets an acquisition row, then each one mentioned before it, and absent before, has one too, with a smaller job id. So a binding cap shuts out the last ones. |
| `DiscoveryMeaning.LowerFolds` | src/chess_crawl/jobs/state.py:184-197 | Two names stand for one user exactly when they agree letter by letter up to ASCII case. |
| `DiscoveryMeaning.EnqueueMeans` | src/chess_crawl/jobs/state.py:162-176 | Afterwards the row has an expansion at the least depth that is asked for or known; at most one row is added and none changes. |
| `DiscoveryMeaning.PromoteMeans` | src/chess_crawl/jobs/state.py:179-201 | Field by field: idle acquisitions of the user fall to the depth, no other field changes, each live or done one has an expansion at the least depth, and nothing else is added. |
| `DiscoveryMeaning.SettleMeans` | src/chess_crawl/jobs/state.py:602-652 | Field by field: the finished row gets its state, its retry count and, as an acquisition, the least depth of its user; other rows stay. |
| `DiscoveryRuns.PromoteKeeps` | src/chess_crawl/jobs/state.py:179-201 | A promotion keeps every crawl invariant: depths are real walks, a finished user always has an expansion queued or done at its least depth, caps hold. |
| `DiscoveryRuns.ChildrenKeep` | src/chess_crawl/jobs/discovery.py:98-145 | A batch of children keeps the invariant, and each named opponent ends up known at the child depth or shut out by a cap that stays reached. |
| `DiscoveryRuns.ExpandKeeps` | src/chess_crawl/jobs/discovery.py:148-198 | An expansion covers every opponent one deeper, including those the frontier filter skipped. |
| `DiscoveryRuns.StepKeeps` | src/chess_crawl/jobs/runner.py:455-475 | Claim, depth read, publication, finish, setback and recovery by any worker keep the invariant; no depth rises. |
| `DiscoveryTheorems.RunKeepsInv` | src/chess_crawl/jobs/discovery.py:98-198 | The invariant holds in every table of every run from the seed row. |
| `DiscoveryTheorems.KnownDepthNeverRises` | src/chess_crawl/jobs/state.py:179-201 | Along every run a known user stays known, at a depth that never rises. |
| `DiscoveryTheorems.CapsHoldInEveryRun` | src/chess_crawl/jobs/state.py:857-893 | In every reachable table: one acquisition per lower-cased user, users and jobs within both caps, depths within the bound and never below the shortest-path distance. |
| `DiscoveryTheorems.SettledDepthsAreDistances` | src/chess_crawl/jobs/discovery.py:98-198 | When all work is finished every depth is the shortest-path distance, in the graph whose failed users lead nowhere, if and only if the users within reach fit both caps and every user whose least-depth expansion ended in error has its opponents known one deeper all the same. |
| `DiscoveryTheorems.RunsSettleAtDistances` | src/chess_crawl/jobs/runner.py:455-475 | The same for every interleaving of workers that reaches a table with no work left, setbacks, failures and errors included. |
| `DiscoveryTheorems.DistancesAwayFromErrors` | src/chess_crawl/jobs/discovery.py:148-198 | A user one of whose shortest walks avoids users cut off by an errored expansion still holds its distance. |
| `DiscoveryTheorems.FailedExpansionLosesOpponents` | src/chess_crawl/jobs/runner.py:469-475 | A run in which the seed's only expansion ends in error: nothing is left to do and an opponent at distance 1 is not in the table. |
| `DiscoveryTheorems.RunsAreBounded` | src/chess_crawl/jobs/state.py:602-652 | No run is longer than a bound fixed by the opponent relation, the depth bound and the retry limit, transient failures included, plus five steps per other setback. |
| `DiscoveryTheorems.WorkNeverStuck` | src/chess_crawl/storage/job_admission.py:31-32 | While a row is unfinished a worker can go on with it or, if it is blocked without a retry time, it can be unblocked. |
| `Ranges.MissingMeaning` | src/chess_crawl/storage/collection.py:87-104 | The missing windows are the canonical, newest-first, non-touching form of exactly the uncovered part of the request. |
| `Ranges.CanonicalUnique` | src/chess_crawl/storage/collection.py:87-104 | Canonical lists with the same milliseconds are the same list, so the order of recorded rows never matters. |
| `Ranges.HistoryHighWater` | src/chess_crawl/storage/collection.py:107-121 | Climbing through ranges finds the first unproven millisecond above an unbounded start, and nothing exactly when no range starts unbounded. |
| `Pagination.PageProves` | src/chess_crawl/jobs/collection.py:289-296 | An honest page, once stored, captures the range recorded for it, though ties may be cut anywhere. |
| `Pagination.RaiseHistoryIsCurrent` | src/chess_crawl/jobs/collection.py:326-329 | After the history row is written it holds the high-water mark of the proven ranges whenever there is one; no other row changes and no millisecond becomes proven by it. |
| `PaginationRuns.StepKeeps` | src/chess_crawl/jobs/collection.py:249-338 | Every step of every job, and a stop between any two commits, keeps each coverage claim true. |
| `PaginationRuns.CoverageIsTrue` | src/chess_crawl/storage/collection.py:77-153 | In every run of any set of jobs each range, the history row and each completed window cover only milliseconds whose games are all stored; `done` means the whole requested window is, in backfill mode too. |
| `PaginationProgress.PlanIsNewestGap` | src/chess_crawl/jobs/collection.py:249-257 | The next request is the newest maximal unproven stretch of the window, empty exactly when nothing is unproven; a raised limit is kept exactly while that stretch is the checkpoint's. |
| `PaginationProgress.TurnOutcome` | src/chess_crawl/jobs/collection.py:277-313 | A page is refused exactly when it is too long, out of the window or out of order; the budget error comes exactly when the next limit exceeds the budget; the job is complete exactly when nothing requested is unproven, or in backfill mode when the page is short. |
| `PaginationProgress.TurnWrites` | src/chess_crawl/jobs/collection.py:257-338 | Which ranges, windows, history and checkpoint a turn writes, for every outcome: the range down to the page's oldest millisecond or the whole window, the completed windows, a current history row, the next window and limit. |
| `PaginationProgress.TurnIsItsSteps` | src/chess_crawl/jobs/collection.py:249-338 | Choosing, fetching, recording, judging and committing, one step after the other, end exactly where the turn does. |
| `PaginationProgress.CoveredTurnIsItsSteps` | src/chess_crawl/jobs/collection.py:257-268 | So do choosing and committing when the request is already covered. |
| `PaginationProgress.FollowUpIsNew` | src/chess_crawl/jobs/collection.py:289-312 | A full page after a full page of the same fragment brings at least `page_size` games the first one lacked. |
| `PaginationProgress.MissingAfterPage` | src/chess_crawl/storage/collection.py:77-104 | A page removes the first missing fragment, or exactly its part above the page's oldest millisecond. |
| `PaginationProgress.TurnProgress` | src/chess_crawl/jobs/collection.py:249-312 | A page that does not end the job strictly lowers fragments, then timestamps below the window's top, then room in the limit. |
| `PaginationProgress.TurnKeeps` | src/chess_crawl/jobs/collection.py:249-338 | A turn leaves a working job, a truly complete one, or a millisecond too crowded for the page budget. |
| `PaginationProgress.OverBudgetIsCrowded` | src/chess_crawl/jobs/collection.py:301-311 | The page-budget error is raised only if some single millisecond is too crowded for the budget. |
| `PaginationProgress.TurnLeavesUnproven` | src/chess_crawl/jobs/collection.py:289-311 | No page within the budget proves a millisecond that holds as many games as the budget, so no turn completes the job while one is requested and unproven. |
| `PaginationProgress.Collector.Check` | src/chess_crawl/jobs/collection.py:277-288 | Accepts a page exactly when it is in the window, in order, and within the limit. |
| `PaginationProgress.Collector.CollectPage` | src/chess_crawl/jobs/collection.py:249-338 | One call plans, checks, records, judges and checkpoints as the turn function says; when it goes on or completes, the history row holds the high-water mark, and otherwise that row is unchanged. |
| `PaginationProgress.Collector.CollectAll` | src/chess_crawl/jobs/collection.py:170-338 | A lone job ends for every finite set of games and honest provider: complete with its window stored, or over budget on a crowded millisecond; over budget for certain if an unproven millisecond holds as many games as the budget. |
| `PaginationExact.OverBudgetExact` | src/chess_crawl/jobs/collection.py:301-311 | Whatever the honest answer, a page cannot be followed by another if and only if the millisecond in which the newest `limit` games end needs a limit beyond the budget. |
| `PaginationExact.TurnOverBudgetExact` | src/chess_crawl/jobs/collection.py:249-311 | A turn of a working job raises the page-budget error exactly under that condition on its planned window. |
| `PaginationExact.TiesDoNotMatter` | src/chess_crawl/jobs/collection.py:289-312 | Two honest answers to one request, however they cut ties, prove the same range and lead to the same next window and limit. |
| `Ownership.UnlockUndoesLock` | src/chess_crawl/storage/db.py:331-347 | Releasing what was taken restores the lock table, however often the keys were already held. |
| `Ownership.LockTable.ReleaseJobOwnership` | src/chess_crawl/jobs/state.py:320-327 | Releases one hold per key from the last key to the first. |
| `Ownership.StepKeeps` | src/chess_crawl/storage/db.py:256-292 | Connecting, claiming (also with a failed commit, or while still holding a job), writing, releasing, dying, recovering and requeuing keep the ownership invariant. |
| `Ownership.FenceIsExclusive` | src/chess_crawl/storage/db.py:281-292 | In every run at most one live session passes the write fence for a job. |
| `Ownership.AcquisitionIsExclusive` | src/chess_crawl/jobs/state.py:271-287 | In every run at most one live session carries an acquisition fence of a provider, whichever jobs are involved, current or not. |
| `Ownership.RecoverySparesLiveOwners` | src/chess_crawl/jobs/state.py:397-427 | Recovery is never possible for a job whose owner is alive and current, not even by the owner itself. |
| `Ownership.CommitsAreCurrent` | src/chess_crawl/storage/db.py:281-292 | A fenced transaction that commits still owns its job: the share lock keeps the fence true to the end. |
| `Ownership.FenceExact` | src/chess_crawl/storage/db.py:277-292 | The fence passes exactly when the session's claim is the row's current one; reused backend pids change nothing. |
| `Ownership.WritesFollowClaims` | src/chess_crawl/jobs/state.py:292-315 | Every accepted write belongs to the session of its claim, and a job's writes follow the order of its claims. |
| `Ownership.ReplacedTokenIsDead` | src/chess_crawl/storage/db.py:281-292 | Once a row no longer carries a token, no write of that claim is ever accepted again. |
| `Ownership.OwnerCanWrite` | src/chess_crawl/storage/db.py:281-292 | The current owner can open and commit a transaction; its row changes state and its write is accepted under its token. |
| `Ownership.OrphanComesBack` | src/chess_crawl/jobs/state.py:397-427 | When a job's owner dies, any session that may write recovers the job, pending and without an owner, and its claim then passes the fence under a new token. |
| `Claiming.Query` | src/chess_crawl/jobs/state.py:254-268 | The page is the first hundred admissible rows: field by field no row of it is later than a following or an omitted one, in turn, priority, depth, age (null first) and id. |
| `Claiming.ClaimableExactly` | src/chess_crawl/storage/job_admission.py:14-64 | Which jobs a session could own, on the rows alone: run not cancelled, waiting or due, dependencies finished, provider not cooling down nor acquired elsewhere, workspace below its cap, of the stage and run asked for, executor lock free. |
| `Claiming.BeforeExactly` | src/chess_crawl/jobs/state.py:262-264 | The order by turn, priority, depth, age and id is total: of two different jobs one comes first, by the first field in which they differ. |
| `Claiming.AfterClaimMeans` | src/chess_crawl/jobs/state.py:295-307 | A claim makes its row running without a retry time, gives its workspace the newest turn of the stage, and changes no other row or turn. |
| `Claiming.AfterClaimLocks` | src/chess_crawl/jobs/state.py:272-287 | After a claim only this session can lock the job and the provider it calls; no other key changes hands. |
| `Claiming.HitIsFirst` | src/chess_crawl/jobs/state.py:271-315 | The first lockable row of a page is the first lockable row of all. |
| `Claiming.MissIsFinal` | src/chess_crawl/jobs/state.py:269-317 | A page with nothing to claim and nothing newly excluded means that nothing is due. |
| `Claiming.Scheduler.TryCandidate` | src/chess_crawl/jobs/state.py:272-287 | A candidate is taken exactly when its provider and executor locks are free; otherwise every lock taken is given back. |
| `Claiming.Scheduler.ClaimNextJob` | src/chess_crawl/jobs/state.py:231-317 | The retry loop ends and claims exactly the first job in turn order this session could own, unless a hint names another or a hundred held jobs hide it: of all such jobs it has the least turn, then priority, depth, age (null first) and id. Otherwise nothing changes. |
| `Claiming.HeldJobsHideAClaim` | src/chess_crawl/jobs/state.py:253-268 | A queue in which a hundred jobs held elsewhere hide a job this session could own. |
| `ClaimingRuns.NoSecondTurn` | src/chess_crawl/jobs/state.py:261-306 | If a workspace is served twice in a stage, a workspace not served in between had nothing claimable at the second claim. |
| `ClaimingRuns.WaitIsBounded` | src/chess_crawl/jobs/state.py:261-306 | A workspace that keeps offering a job waits for at most one claim per other workspace. |
| `ClaimingRuns.ActiveCapHolds` | src/chess_crawl/storage/job_admission.py:42-70 | Under a fixed policy a workspace's running jobs never exceed its cap. |
| `Ledger.ReadLimitIsLargest` | src/chess_crawl/storage/work_budgets.py:269-272 | The read limit is at least 1 and is the largest allowed read whose reservation, with one read of headroom, fits the allowance. |
| `Ledger.RefusalMeans` | src/chess_crawl/storage/work_budgets.py:239-246 | A request is refused exactly when some dimension lacks the room asked for. |
| `Ledger.RefusalNames` | src/chess_crawl/storage/work_budgets.py:239-246 | The error names the first dimension asked for that lacks room, blames the budget if its own ceiling is short and the quota otherwise, and tells what is left. |
| `Ledger.WorkBudgets.ReserveRequest` | src/chess_crawl/storage/work_budgets.py:260-285 | Errors in order of dimension, or posts the reservation to the budget and the month and records it. |
| `Ledger.WorkBudgets.SettleRequest` | src/chess_crawl/storage/work_budgets.py:288-304 | Refunds once, to the budget and the original month; rejects only a count outside the reservation. |
| `Ledger.WorkBudgets.ReserveProcessingWork` | src/chess_crawl/storage/work_budgets.py:335-360 | Charges units and at most one new game together; reports whether the game is new. |
| `LedgerRuns.ReserveMeans` | src/chess_crawl/storage/work_budgets.py:260-272 | A grant means room in every dimension, a limit between 1 and the response maximum, and a reservation that fits the remaining bytes. |
| `LedgerRuns.GrantExactly` | src/chess_crawl/storage/work_budgets.py:260-271 | A reservation is granted exactly with room for a request, a game, a unit and two bytes; the refusing dimension is the first of these without room. |
| `LedgerRuns.WorkGrantedExactly` | src/chess_crawl/storage/work_budgets.py:335-350 | Processing work is granted exactly with room for its units, if any, and for its game, if that is new to the budget. |
| `LedgerRuns.StepBalances` | src/chess_crawl/storage/work_budgets.py:260-360 | Every operation keeps month totals equal to budget totals in every dimension. |
| `LedgerRuns.MonthsEqualBudgets` | src/chess_crawl/storage/work_budgets.py:260-360 | In every run, per workspace and dimension, usage over months equals usage over budgets. |
| `LedgerRuns.BalancesAreBacked` | src/chess_crawl/storage/work_budgets.py:288-360 | In every run bytes are what settled reservations consumed plus what open ones hold, requests their number, games the number of distinct keys. |
| `LedgerRuns.UnitsAreBacked` | src/chess_crawl/storage/work_budgets.py:260-360 | In every run the units of a budget or month are one per request plus the units of the work it was granted. |
| `LedgerRuns.CeilingsHold` | src/chess_crawl/storage/work_budgets.py:239-285 | No budget ever exceeds a ceiling of its policy. |
| `LedgerRuns.CeilingsOnlyRise` | src/chess_crawl/storage/work_budgets.py:385-394 | A budget keeps its owner, and its own ceilings never fall. |
| `LedgerRuns.ResumeLifts` | src/chess_crawl/storage/work_budgets.py:385-403 | Resuming lifts the budget's and the workspace's ceilings to the larger of old and offered; usage and other budgets stay. |
| `LedgerRuns.ResumeLiftsShared` | src/chess_crawl/storage/work_budgets.py:394-399 | The shared queue and activity ceilings rise likewise; the stored job ceilings and whether the policy is managed stay. |
| `LedgerRuns.ResumeUnblocks` | src/chess_crawl/storage/work_budgets.py:385-403 | Work for which the offered ceilings leave room is granted after the resume. |
| `LedgerRuns.AdmitMeans` | src/chess_crawl/storage/work_budgets.py:37-58 | Admission opens an unused budget: under the stored policy if it is managed, which then stays, otherwise under the submitted one, which can only lower the shared ceilings. |
| `LedgerRuns.SettleIsIdempotent` | src/chess_crawl/storage/work_budgets.py:293-304 | Settling again, with any count, changes nothing. |
| `LedgerRuns.SharedCeilingsHoldInRuns` | src/chess_crawl/storage/work_budgets.py:239-246 | While nobody tightens a shared policy, no month exceeds it. |
| `BoundedRead.SliceReader.Next` | src/chess_crawl/providers/http.py:296-309 | Slices are nonempty, bounded, and together are exactly the raw bytes in order. |
| `BoundedRead.ReadResponse` | src/chess_crawl/providers/http.py:144-172 | For every chunking the count stays within the reservation at every exit; too large exactly when the body exceeds the limit; a returned 200 body is the raw bytes. The deadline is checked before and after every slice, and ends the read at the first check it fails. |
| `BoundedRead.ReserveThenSettle` | src/chess_crawl/storage/work_budgets.py:260-304 | Reserving and settling with the bytes read charges one request, one unit and exactly those bytes, and is never rejected. |
| `BoundedRead.SettlementExact` | src/chess_crawl/jobs/runner.py:331-348 | An attempt's reservation is closed if and only if the job fence is held at settlement; its charge is the bytes read if and only if the fence is held or the whole reservation was read. |
| `BoundedRead.LeaseLossKeepsTheCharge` | src/chess_crawl/jobs/runner.py:314-348 | A fence lost before anything was read leaves the reservation open and charged in full. |
| `BoundedRead.Client.RunAttempt` | src/chess_crawl/providers/http.py:124-221 | Granted exactly with no reservation open, the fence held, backlog room and budget room. Settles on every path while the fence is held, and then the result is fixed: stopped, encoded, too large exactly beyond the limit, timed out or status 0 for a broken transport, and otherwise the status with the whole body for 200 and none for others; only a deadline check can put a timeout in its place. Without the fence it raises and leaves the reservation open and fully charged. |
| `BoundedRead.AnswersAreHonest` | src/chess_crawl/providers/http.py:144-193 | A 200 among a request's attempts is that attempt's own whole response, within the limit granted to it. |
| `BoundedRead.Client.Request` | src/chess_crawl/providers/http.py:113-241 | Asks again only after 0, 429 or 5xx with the fence held and no stop, and stops asking only for a reason; returns the last attempt's result, or the one before it when that attempt was stopped. Each attempt starts from the books the last one left. Over all retries at most the last reservation stays open, exactly when its attempt lost the fence before settling; the budget is charged the bytes read plus what that reservation holds. |
| `Backlog.CommitKeeps` | src/chess_crawl/application/services.py:114-135 | A transaction that commits new rows holds the workspace lock, and all it sees is within the ceiling; the invariant is kept. |
| `Backlog.CeilingHolds` | src/chess_crawl/storage/work_budgets.py:113-146 | From an empty workspace, live jobs stay within the queued-plus-active ceiling at every commit of every run, though submissions insert before they count and children count before they insert. |
| `Backlog.ChildKeeps` | src/chess_crawl/jobs/state.py:102-111 | A child counted and inserted under the lock leaves what its transaction sees within the ceiling. |
| `Backlog.RoomExactly` | src/chess_crawl/storage/work_budgets.py:249-257 | A submission passes exactly if all it inserted fits, a child exactly if one more job fits; committing makes exactly those rows live. |
| `Backlog.CeilingIsReached` | src/chess_crawl/jobs/state.py:102-111 | From any quiet state within the ceiling, counted children can fill the workspace up to exactly the ceiling. |
| `MoveTree.TreeBuilder.Read` | src/chess_crawl/normalize/game_evidence.py:187-229 | One token updates the current node, the stack, the nodes and the comments as the step function says. |
| `MoveTree.Parse` | src/chess_crawl/normalize/game_evidence.py:156-250 | The token loop builds that tree and leaves waiting comments at the root. |
| `MoveTree.MainlineIsAChain` | src/chess_crawl/normalize/game_evidence.py:156-239 | For every token sequence parents precede children one ply up, and played moves form one chain with plies 1..n, so their count is the last ply. |
| `MoveTree.ClockLandsOnItsPly` | src/chess_crawl/normalize/game_evidence.py:340-362 | Provider clock i is attached to the played move of ply i + 1, and to nothing when there is none. |
| `MoveTree.VariationsAreNumbered` | src/chess_crawl/normalize/game_evidence.py:200-219 | A node's variation number is the number of siblings read before it. |
| `MoveTreeTheorems.MainlineIsFirstVariation` | src/chess_crawl/normalize/game_evidence.py:187-219 | Every played move is variation 0 if and only if no variation move precedes the first played move; in particular whenever no variation_without_move issue was recorded. |
| `MoveTreeTheorems.DisplacedMainline` | src/chess_crawl/normalize/game_evidence.py:187-219 | A bracket before the first move makes the first played move variation 1. |
| `MoveTreeTheorems.BracketIssuesExact` | src/chess_crawl/normalize/game_evidence.py:187-199 | Bracket issues are absent exactly when the brackets balance. |
| `MoveTreeTheorems.StrayClosesChangeNothing` | src/chess_crawl/normalize/game_evidence.py:187-229 | Any text, balanced or not, gets exactly the tree of the text without stray closing brackets, each counted as one issue; a comment waits for the next move exactly right after an opening bracket. |
| `MoveTreeTheorems.CommentsAreKept` | src/chess_crawl/normalize/game_evidence.py:220-250 | Every comment sits on exactly one node, as often as it was written. |
| `RavMeaning.BuilderMeansRav` | src/chess_crawl/normalize/game_evidence.py:187-250 | Well-formed move text with comments gets the structural meaning of section 8.2.5 of the PGN Specification and Implementation Guide, node by node: variations are alternatives to the move they follow, a comment belongs to that move or, after an opening bracket, to the next one. |
| `RavMeaning.ReadComments` | src/chess_crawl/normalize/game_evidence.py:220-228 | Comments are appended to the current move, or wait for the next move right after an opening bracket. |
| `TokenCover.StripKeepsInk` | src/chess_crawl/normalize/game_evidence.py:169-174 | Stripping keeps every visible character and empties exactly the blank texts. |
| `TokenCover.Tokenize` | src/chess_crawl/normalize/game_evidence.py:116-244 | Tokens are ordered, disjoint slices with only blanks between them; those of the grammar are exactly its matches; a byte-order mark comes first exactly when the text has one, kept gaps stand right before a match, the tail last, and neither is blank. |
| `TokenCover.CoveredExactlyOnce` | src/chess_crawl/normalize/game_evidence.py:160-244 | Every visible character lies in exactly one token. |
| `TokenCover.ExportPgn` | src/chess_crawl/storage/game_evidence.py:193-237 | Refuses a missing version, one not completely interpreted without permission, and one without tokens, in this order. Else the export is a layout, trimmed of outer blanks, in which every token stands whole and in order: a line break closes each header, escape and comment to end of line, another opens an escape, an empty line opens the moves, and one blank closes any other token. |
| `TokenCover.ShownInPlace` | src/chess_crawl/storage/game_evidence.py:219-237 | In the stripped text a token with visible ends stands whole at its position, and a header, escape or comment to end of line is followed by a line break. |
| `TokenCover.RoundTrip` | src/chess_crawl/storage/game_evidence.py:193-237 | Tokenizing and exporting any text gives back its visible characters in order, whatever the parse status; permission is needed exactly short of complete, and only a blank text has nothing to export. |
| `Artifact.Publish` | src/chess_crawl/jobs/internal.py:75-137 | For every body, the empty one included, and whatever parts an earlier attempt left, the writer publishes one intact artifact with a signed manifest its reader accepts. |
| `Artifact.ReadKeepsBounds` | src/chess_crawl/api/artifact_downloads.py:89-129 | Whatever the two pages of a read show, the bytes that complete the body are handed out only once length and digest are verified. |
| `Artifact.ArtifactDownload.Next` | src/chess_crawl/api/artifact_downloads.py:67-83 | An iteration not closed or failed before ends only after the manifest's bytes were sent, however the table changes between and within calls. |
| `Artifact.ClosedDownloadStopsShort` | src/chess_crawl/api/artifact_downloads.py:67-83 | Closing is the way to end short without an error: a download of two or more chunks, closed after the first, says StopIteration with only part of the body sent. |
| `Artifact.ArtifactDownload.Prime` | src/chess_crawl/api/artifact_downloads.py:57-65 | The first chunk is verified before anything is sent; a failure closes the download. |
| `Artifact.Download` | src/chess_crawl/api/artifact_downloads.py:57-129 | A download from a stable table succeeds exactly when some body is intact there, and yields that body. |
| `Certification.PayloadStore.BeginNormalization` | src/chess_crawl/storage/normalization.py:14-34 | Resets checkpoints exactly for a new observation, a new parser, or a certificate given by another parser. |
| `Certification.PayloadStore.MarkItem` | src/chess_crawl/storage/normalization.py:44-53 | The checkpoint holds the saved game and observation unless a newer observation is there; no other checkpoint changes. |
| `Certification.PayloadStore.FinishNormalization` | src/chess_crawl/storage/normalization.py:55-67 | Certifies exactly when every pointer is checkpointed under the latest observation. |
| `Certification.CertifiedIsWhole` | src/chess_crawl/storage/normalization.py:14-67 | In every run, while nothing newer was observed, each pointer of a certified payload has a checkpoint of the latest observation. |
| `Certification.CertifiesOnlyWhole` | src/chess_crawl/normalize/games.py:162-167 | Over all steps of all runs: whatever certifies a payload or changes its certifying parser is a finish by a worker of that parser, while every pointer is checkpointed under the latest observation, and it completes that parser's run. |
| `Certification.WholeCertifies` | src/chess_crawl/storage/normalization.py:55-67 | A finish by a current worker with every pointer checkpointed does certify and completes the run. |
| `Certification.CertificateWasEarned` | src/chess_crawl/storage/normalization.py:14-67 | Every certificate in every run goes back to a moment when a worker of its parser finished with every pointer checkpointed under the latest observation. |
| `Certification.StaleIsHarmless` | src/chess_crawl/storage/normalization.py:44-67 | A worker that is behind certifies nothing and lowers no checkpoint. |
| `Certification.CheckpointsNeverFall` | src/chess_crawl/storage/normalization.py:14-53 | Between two resets of its parser a checkpoint stays and its observation never falls, whoever steps. |
| `Certification.OnlyResetsForget` | src/chess_crawl/storage/normalization.py:22-33 | A step takes a checkpoint away if and only if it resets its parser. |
| `Certification.CheckpointIsNewestSave` | src/chess_crawl/storage/normalization.py:44-53 | In every run a checkpoint holds the game of a save under its observation, and every later save of the pointer was made under an older one. |
| `RunGames.PreflightIsSafe` | src/chess_crawl/normalize/games.py:86-102 | The unlocked preflight, which reads the run's size and then its members, never skips a game the locked check could still newly admit or refuse. |
| `RunGames.OffersKeepCap` | src/chess_crawl/storage/acquisition.py:106-132 | Under any interleaving a bounded run stays within its cap, games only join, and each that joins lies in the window both as offered and as stored. |
| `RunGames.OffersJoin` | src/chess_crawl/storage/acquisition.py:106-132 | A game offered in the window, as offered and as stored, with anything still requested, is in the run in the end unless the run is full. |
| `RunGames.WindowExactly` | src/chess_crawl/storage/acquisition.py:52-104 | The window: end times in seconds for a bounded run, creation times in milliseconds, or seconds times 1000, for a Lichess collection, from its start up to but not including its end; none for other collections. |
| `RunGames.JudgeExactly` | src/chess_crawl/normalize/games.py:113-155 | The locked verdict, case by case: added, known, refused for a stored row outside the window, or skipped. |
| `RunGames.RunTable.Associate` | src/chess_crawl/storage/acquisition.py:106-132 | A game new to the run joins if its stored row is in the window and capacity is left, and raises otherwise. |
| `RunGames.PlainMeans` | src/chess_crawl/storage/acquisition.py:66-132 | A call's games are distinct, new to the run, and together with what is left make up the request, also when an error ends the call. |
| `RunGames.RunTable.NormalizeGames` | src/chess_crawl/normalize/games.py:83-157 | The loop with its preflight attributes exactly what the plain locked loop would, whatever others do before, between and after its reads, and returns at most the requested number. |
| `ExportCapacity.Capacity.Reserve` | src/chess_crawl/api/exports.py:36-53 | Grants exactly when the outstanding reservations leave room for the workspace and overall; totals stay equal to their sums. |
| `ExportCapacity.Capacity.Release` | src/chess_crawl/api/exports.py:54-68 | Gives back once, however often it is called. |
| `ExportCapacity.FitsExactly` | src/chess_crawl/api/exports.py:36-53 | A reservation is granted exactly when, with it, the workspace and the process are within all four limits. |
| `ExportCapacity.DownloadLimits` | src/chess_crawl/api/artifact_downloads.py:27-32 | A download's fixed size is a valid limit under the same caps, or is refused outright. |
| `ExportCapacity.SharesHold` | src/chess_crawl/api/exports.py:36-68 | After any history of mixed sizes and repeated releases every workspace is within its share and the process within its totals. |
| `ExportCapacity.SecondWorkspaceIsAdmitted` | src/chess_crawl/application/export_limits.py:29-39 | For valid limits, after any history, a workspace with nothing outstanding is admitted when at most one other holds reservations. |
| `OutboxOrder.HubSeesEveryEventInOrder` | src/chess_crawl/storage/events.py:37-91 | When ids are committed in ascending order, the hub's log with repeats removed is the outbox in id order with none skipped: the acknowledged rows, a prefix, and at most one more. |
| `OutboxOrder.IdOrderExact` | src/chess_crawl/storage/events.py:37-91 | For every run: the hub took every event after all smaller ids if and only if no event was committed behind one that the hub had taken, or took in the offer then under way. |
| `OutboxOrder.OnlyCommitsAreLate` | src/chess_crawl/storage/events.py:37-45 | Since each offer starts with the least pending id, only a commit can put the log out of order. |
| `OutboxOrder.OnTimeIsInOrder` | src/chess_crawl/events/publisher.py:32-56 | Under that condition the log never steps back to a smaller id, skips none, and at most one event awaits acknowledgment. |
| `OutboxOrder.DisorderInTime` | src/chess_crawl/storage/events.py:37-45 | A run in which id 6 is committed before 5 and the hub still takes 5 first. |
| `OutboxTheorems.ResourceRevisionsInOrder` | src/chess_crawl/storage/events.py:37-91 | In every run, whatever order ids are committed in: each resource's events reach the hub in ascending revision order with none skipped, and at most one of them is accepted but unacknowledged. |
| `OutboxTheorems.LateCommitIsOvertaken` | src/chess_crawl/storage/events.py:37-45 | A run in which id 6 is accepted before id 5 is committed: the hub sees 6, 5 and both await acknowledgment. |
| `OutboxPublisher.Publisher.PublishPending` | src/chess_crawl/events/publisher.py:32-56 | A batch is a run of offers, each of the least pending id at that moment; it ends when nothing is pending, the next event is not due, or a success was not seen, even if the hub took the event. Pending events shrink by exactly the number delivered. |

## Left out

- PaginationProgress.OverBudgetIsCrowded: is the readable one-way form of PaginationExact.OverBudgetExact.
- Outbox.StepKeeps: that a resource's row lock orders its own events is how rows are appended; pruning of delivered rows is not modelled.
- Artifact.Publish: the compressed size of a chunk is a parameter within the bounds the reader checks; the manifest's descriptive fields are not modelled.
- BoundedRead.Client.Request: when the fence is lost is an input; that a lost one stays lost is Ownership.ReplacedTokenIsDead.
- Certification.CertifiesOnlyWhole: takes each table operation as one step; a fetch logged between the read and the commit of a finish counts as after it.
- Ownership.StepKeeps: a claim, a recovery of one job and a requeue are single steps, since each holds its row lock from read to commit.
- Claiming.Scheduler.ClaimNextJob: models claims by an identified worker; a claim without a worker id takes no lock and sets no fence. Priorities and rows are read as one snapshot under the scheduler lock.
- ClaimingRuns.ActiveCapHolds: assumes that only claims start jobs and that policies stay fixed.
- LedgerRuns.AdmitMeans: a run's admission that finds a shared ceiling used up, or the backlog over its ceiling, changes nothing and is not modelled as a step.
- LedgerRuns.CeilingsHold: usage counters are unbounded integers; the bigint column width is not modelled.
- Backlog.CeilingHolds: is about budgeted work of one workspace under a fixed policy.
- The provider's set of games and the opponent relation are fixed during a run, and games have nonnegative creation times.
- The stored-payload and follow-up phases of Lichess collection, and Chess.com monthly collection.
- The injected game fetcher of the runner, remaining game budgets of discovery, and cancelled runs there.
- Executor leases of the archive-wide kind, worker heartbeats, provider cooldown arithmetic and retry delays.
- Chess rules: move legality, FEN, UCI and clock parsing, the `pgn_read` grammar; NAGs and check marks of nodes.
- HTTP routes, authentication, command line, settings, metrics, reporting queries, migrations and triggers.
- S3, SQS, Mercure and gzip beyond accepted or failed, and bytes equal or not.
- Profile, statistics and resource normalization, and account merging: wide upserts that would only add easy members.
