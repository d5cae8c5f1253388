# Engram: a verified model

Engram is a long-lived database-remediation agent and a set of scheduled workers that share one
memory database. The agent observes a slow query, recalls similar incidents, asks a language model
for a change, waits for a person's verdict, applies the change to a target cluster and measures it.
Anything may crash between two transactions, and an unacknowledged message is delivered again.

This project models that machinery in Dafny and proves what it guarantees over every input, every
interleaving and every run. Where the code is weaker than its comments, the exact condition under
which it keeps its promise is proved, together with an input or a run on which it does not.

## How the model is built

- **Databases are classes, transactions are functions.** Each DAO method is an imperative method whose
  new state is a function of the old one (`GateTxn`, `AcquireRows`, `Sighted`, ...); the lemmas are
  about those functions. A transaction is one step; serializable isolation is assumed.
- **Runs are lists of steps.** Whatever is not decided by the code (which attempt moves next, a crash, a
  redelivery, a human click, a failing statement, a clock reading) is an argument of a step, so a
  statement about all lists of steps is a statement about all interleavings. A disabled step does nothing.
- **The remediation nodes and the consumer are also written as methods, in the source's order.**
  `Remediator.Gate`, `Remediator.ActMeasure` and `Consumer.ProcessMessage` interleave their own effects with an arbitrary
  environment, and are proved to be runs of their machine. An "undisturbed" delivery or redelivery is one
  whose steps are not interleaved, started from any state that any interleaving can reach.
- **Definitions are tied to laws that do not name them.** The machines call small functions (a character class,
  an outcome, a score). Laws write out the characters, constants and comparisons they stand for; for the splitter and
  the normalization the laws are proved to admit no other function.
- **Opaque parts.** SHA-256 is injective (keys and fingerprints are their preimages); `sqrt` and `exp` are
  any functions with their defining laws; times, scores and vectors are real numbers; text is ASCII.
  The language model, the embedder, `datetime.fromisoformat` and the probe are arbitrary functions or inputs.

| module | models |
|---|---|
| `Prelude` | shared datatypes, `str.strip`, letter case |
| `RecipeRenderer`, `SqlOperator` | the allowlisted SQL printer, a parser for its templates, the operator and the target's catalog |
| `Alphabets` | the character classes of the text functions, spelled out |
| `RendererLaws` | what the printer accepts and prints, on literal alphabets and words |
| `SqlSplitter`, `SplitterLaws` | the statement splitter, and the three laws that determine it |
| `QueryNormalizer`, `QueryLaws`, `QueryRewriting` | the fingerprint normalization, its laws, and the rewriting system it computes normal forms of |
| `Tasks` | the tasks table, its statuses and its partial unique index |
| `Ledger`, `Protocol`, `ProtocolTheorems`, `Remediator`, `BackupGate` | the remediation ledger, all its runs, and the nodes `gate` and `act_measure` |
| `Leases` | the lease table, the renewing handle, and all runs of many holders |
| `FrontDoor` | incident deduplication by two writers |
| `Delivery`, `DeliveryTheorems`, `Consumer` | message processing, resumption and acknowledgement: all runs, what they guarantee, and the consumer's functions |
| `Overlaps`, `LeasedDelivery` | two deliveries of one task at once: their statuses, and the deliveries joined with the lease table |
| `Reason`, `ReasonLaws`, `Graph` | the repair loop, what it accepts, and the five-node graph |
| `Scoring`, `Recall`, `RecallLaws`, `Decayer`, `Consolidator` | confidence, re-ranking, retirement and induction of procedures |
| `EmbeddingCache`, `Backfill` | the content-keyed cache and the two programs that write it |
| `StreamReducer` | the dashboard's bounded event window |

## Model

| member | source | states |
|---|---|---|
| `ProtocolTheorems.OneOfEachPerKey` | agent/memory/db.py:864-922 | over every run of attempts, crashes, redeliveries and human decisions, a key that passed the gate has exactly one action, one approval and one gate decision, any other key none; from the SELECT-first transaction, with no UNIQUE constraint assumed |
| `ProtocolTheorems.MissingApprovalNeverFound` | agent/memory/db.py:880-890 | the branch that adds a missing approval to an existing action is never taken |
| `ProtocolTheorems.VerdictGivenOnce` | agent/memory/db.py:802-818 | counting every change of its verdict along a run, an approval leaves 'pending' at most once, and exactly once if it is decided at the end |
| `ProtocolTheorems.VerdictsBindActions` | agent/nodes/gate.py:115-124 | at any two moments of a run: refused at one means not applied and not executed at the other; approved at one means not skipped at the other |
| `ProtocolTheorems.GateActsOnFinalVerdict` | agent/nodes/gate.py:112-124 | the verdict an attempt acts on is its approval's verdict in every later state |
| `ProtocolTheorems.LostExpiryHonoursTheHuman` | agent/nodes/gate.py:182-186 | when a human decision beats the gate's expiry, the expiry changes nothing and the gate acts on the human's verdict |
| `ProtocolTheorems.VerdictHasItsStep` | agent/memory/db.py:802-818 | every approval of every run is pending and unsigned, or carries the verdict, name and comment of some person's decision on it in the run, or is expired by the gate's own name after some attempt timed out |
| `ProtocolTheorems.NothingRunsUnapproved` | agent/nodes/gate.py:115-121 | an action whose SQL ever reached the target was approved by some person's step of the run |
| `ProtocolTheorems.EffectIsExactlyOnce` | agent/nodes/act_measure.py:147-179 | whatever was re-applied, the target is the starting catalog with each executed action's SQL run once, in order of first execution, and no other; every such action is approved and recorded as applied |
| `ProtocolTheorems.RepeatsAreNoOps` | agent/nodes/act_measure.py:160-160 | any log of executions has the effect of the log without its repetitions |
| `ProtocolTheorems.ReapplyChangesNothing` | agent/nodes/act_measure.py:160-160 | once a key's SQL has run, running it again at any later point of the run leaves the catalog as it is |
| `ProtocolTheorems.VerdictIsReused` | agent/nodes/gate.py:62-66 | the key has no task in it: an attempt of any incident that proposes a decided change adds no row and gets the old verdict at its first poll |
| `ProtocolTheorems.RedeliveryFinishes` | agent/nodes/act_measure.py:96-222 | from any reachable state, one undisturbed redelivery that proposes an approved change again, and whose probe still shows its columns, leaves its row applied, a success exactly when the latency went down, its SQL settled on the target and every other action, approval and gate decision untouched |
| `ProtocolTheorems.Reachable` | agent/memory/db.py:826-1003 | the ledger and attempt invariant holds in every reachable state |
| `Protocol.StepOk` | agent/memory/db.py:802-1003 | every single step keeps that invariant and only moves forward: rows, verdicts given, final statuses, indexes and logs are never lost |
| `Protocol.GateTxnOk` | agent/memory/db.py:864-922 | the gate transaction changes nothing for a key that has a row, and for a new one adds one proposed action without an outcome, one pending approval and one decision; either way it returns the row of the key with the SQL just rendered |
| `Protocol.RunOk` | agent/memory/db.py:802-1003 | the same over whole runs |
| `Ledger.FindAction` | agent/memory/db.py:866-870 | the SELECT finds a row of the key, or there is none |
| `Ledger.Database.InsertGateDecision` | agent/memory/db.py:826-922 | the statements in their order make the transaction `GateTxn` |
| `Ledger.Database.DecideApproval` | agent/memory/db.py:802-818 | compare-and-set from 'pending'; wins exactly when the row was pending |
| `Ledger.Database.MarkSkipped` | agent/memory/db.py:750-776 | the status and outcome written on refusal, and nothing else |
| `Ledger.Database.InsertActDecision` | agent/memory/db.py:924-961 | decision and 'applied' in one transaction |
| `Ledger.Database.InsertOutcomeDecision` | agent/memory/db.py:963-1003 | outcome and episode in one transaction |
| `Remediator.Gate` | agent/nodes/gate.py:69-163 | under any interference the node is a run of the protocol; it grants only an approved row with the SQL it rendered, skips only a refused one, re-plans only a rejection with fewer than two re-plans behind it, otherwise records the episode, raises only when nothing renders |
| `Remediator.PollUntilDecided` | agent/nodes/gate.py:166-186 | sleeps only while the deadline has not passed, gives up only at it, and never returns 'pending' |
| `Remediator.ExpireAndRead` | agent/nodes/gate.py:182-186 | after the expiry the row read back is decided, by whomever |
| `Remediator.Refuse` | agent/nodes/gate.py:123-163 | the row is skipped, with that outcome, and stays so; re-plan exactly on a rejection with budget left, otherwise the episode is recorded |
| `Remediator.ActMeasure` | agent/nodes/act_measure.py:96-222 | writes nothing unless a backup is fresh and a query exists; then ledger first, change second; the operator never refuses; the outcome returned and stored on the approved row is a success exactly when the latency after is below the one before, and anything else is re-planned exactly below two re-plans; the decision and the episode are recorded |
| `BackupGate.DecideBackupGate` | agent/tools/cloud_api.py:46-80 | proceeds if and only if some backup's completion time, read from the first of the four named fields that is filled in, is inside the window; each refusal reason exactly |
| `BackupGate.CompletedIff` | agent/tools/cloud_api.py:59-72 | the chain of four fields reads the first that is present and not empty, and no later one when that does not parse |
| `RecipeRenderer.SearchFindsExactlyKeywords` | agent/tools/recipe_renderer.py:119-124 | on printed statements the whole-string search fires exactly when a table, schema, column or index name is itself a forbidden word |
| `RecipeRenderer.RenderSucceedsIff` | agent/tools/recipe_renderer.py:70-127 | rendering succeeds if and only if the statement asked for has valid identifiers, agrees with the known columns and holds no keyword, and then prints it |
| `RendererLaws.SpelledIff` | agent/tools/recipe_renderer.py:64-67 | an identifier passes exactly when it is nonempty, starts in a literal alphabet of 27 characters and goes on in one of 37, one trailing newline aside |
| `RendererLaws.RendersIff` | agent/tools/recipe_renderer.py:70-127 | success in both directions from the request alone: kind, table and columns given, every name so spelled, known and none of the eight reserved words; and the printed text of each kind, with the default index name written out |
| `RendererLaws.RejectionsNameAFault` | agent/tools/recipe_renderer.py:83-124 | every rejection names a fault that the request has |
| `RendererLaws.SearchIff` | agent/tools/sql_operator.py:34-36 | on any text the search finds a semicolon or one of the eight words, in any letters, with no word character on either side |
| `RendererLaws.OrdersExample` | agent/tools/recipe_renderer.py:98-117 | an index on a table with a digit in its name, and the text printed for it |
| `RecipeRenderer.HasWordSplit` | agent/tools/recipe_renderer.py:48-49 | a whole-word match in a concatenation with no word across the joint is a match in one of the parts |
| `RecipeRenderer.RenderRoundTrip` | agent/tools/recipe_renderer.py:98-117 | a parser for the two templates recovers kind, schema, table, index name and column list from any printed statement |
| `RecipeRenderer.PrintIsInjective` | agent/tools/recipe_renderer.py:98-117 | different validated requests never print the same statement |
| `RecipeRenderer.DefaultNamesCollide` | agent/tools/recipe_renderer.py:111-111 | default index names are not injective: columns a, b and column a_b |
| `RecipeRenderer.KeywordCheckIsReachable` | agent/tools/recipe_renderer.py:119-124 | against its own comment, the forbidden-word check is reachable: a request for an index on a column named `set` is rejected by it |
| `SqlOperator.Operator.Apply` | agent/tools/sql_operator.py:79-93 | rejects before executing exactly when its own search finds something; otherwise executes exactly the string |
| `SqlOperator.OperatorAcceptsRendered` | agent/tools/sql_operator.py:87-93 | the operator's re-check accepts everything the renderer returns, and the cluster runs that request |
| `SqlOperator.SettledStays` | agent/tools/sql_operator.py:79-93 | a statement with nothing left to do still has nothing to do whatever runs in between |
| `SqlOperator.IndexCreatedIff` | agent/tools/recipe_renderer.py:46-49 | after applying, the index means the requested columns exactly when its name was free or already meant them; no other index comes or goes, and analyzing touches none |
| `SqlOperator.CollidingRequestIsLost` | agent/tools/recipe_renderer.py:111-111 | of two requests with colliding default names both are rendered and pass the operator, and the second changes nothing |
| `SqlSplitter.SplitStatements` | scripts/run_sql.py:55-112 | the index loop over buffer and modes computes the function `Split`, which the laws below determine, and terminates |
| `SplitterLaws.SeparatorEndsStatement` | scripts/run_sql.py:98-104 | behind a prefix that ends outside literals and comments, read with no buffer, a semicolon ends the statement: the script splits as its two sides do, whatever follows |
| `SplitterLaws.CommentIsDropped` | scripts/run_sql.py:66-71 | a comment in code counts for nothing up to the end of its line or of the script |
| `SplitterLaws.BareTextIsOneStatement` | scripts/run_sql.py:106-112 | a script with neither outside its literals is one statement, without the whitespace at its ends, or none |
| `SplitterLaws.LawsDetermineSplit` | scripts/run_sql.py:55-112 | any function that obeys these three laws splits every script as the program does |
| `SqlSplitter.SplitRoundTrip` | scripts/run_sql.py:55-112 | splitting the statements joined by ';' gives the same statements, for every input |
| `SqlSplitter.SplitIsWellFormed` | scripts/run_sql.py:55-112 | every statement is nonempty, trimmed and read back by the lexer as one statement |
| `SqlSplitter.NoSeparatorOutsideLiterals` | scripts/run_sql.py:88-104 | no ';' and no '--' outside a string literal of any statement |
| `SqlSplitter.LiteralsSurvive` | scripts/run_sql.py:73-86 | the string literals, doubled quotes included, survive verbatim and in order |
| `SqlSplitter.NothingElseIsLost` | scripts/run_sql.py:55-112 | outside comments, separators and spaces no character is lost or reordered |
| `QueryNormalizer.NormalizeIsIdempotent` | agent/nodes/observe.py:87-93 | normalizing twice is normalizing once, for every text |
| `QueryNormalizer.NormalIffFixed` | agent/nodes/observe.py:87-93 | the normalized texts are exactly the fixed points |
| `QueryNormalizer.CaseIsIgnored` | agent/nodes/observe.py:87-93 | texts equal up to letter case normalize alike |
| `QueryNormalizer.NumberValuesAreIgnored` | agent/nodes/observe.py:87-93 | so do texts that differ in a standalone number |
| `QueryNormalizer.LiteralValuesAreIgnored` | agent/nodes/observe.py:87-93 | so do texts that differ in the content of any quoted literal, first or later |
| `QueryNormalizer.NumbersIsSubstitution` | agent/nodes/observe.py:50-53 | the number pass agrees with leftmost regular-expression substitution at every position |
| `QueryRewriting.NormalFormIsTheTidyReduct` | agent/nodes/observe.py:87-93 | five rewriting rules with the characters written out (a whitespace run to a blank, outer whitespace dropped, a capital to its small letter, a lone number and the first closed literal to a question mark), used in any order: the normal form is the one text they lead to with nothing left to rewrite |
| `QueryRewriting.OneFormIff` | agent/nodes/observe.py:87-93 | two texts have one normal form exactly when they can be rewritten to one text |
| `QueryLaws.KeptIff` | agent/nodes/observe.py:87-93 | normalization leaves alone exactly the texts without capitals, paired quotes, lone numbers and untidy blanks |
| `QueryLaws.ResultIsTidy` | agent/nodes/observe.py:87-93 | so is every result: its only whitespace are single blanks between other characters |
| `QueryLaws.WhitespaceRunsAreIgnored` | agent/nodes/observe.py:92-92 | any nonempty run of the ten whitespace characters stands for any other, anywhere |
| `QueryLaws.LetterCaseIsIgnored` | agent/nodes/observe.py:89-89 | each of the 26 capitals stands for its small letter, anywhere |
| `QueryLaws.NumberBecomesMark` | agent/nodes/observe.py:91-91 | a run of digits with no word character beside it stands for a question mark |
| `QueryLaws.LiteralBecomesMark` | agent/nodes/observe.py:90-90 | so does a closed literal, behind any text whose own literals are closed |
| `FrontDoor.OneActiveIncident` | agent/memory/db.py:192-239 | over all runs of both writers and of status updates, at most one incident is active per cluster and fingerprint, and every observation belongs to a task of its fingerprint |
| `FrontDoor.ReportsShareOneTask` | workers/common/incident.py:53-131 | any number of reports of one incident by the agent and the webhook share one task, add one observation each, and count in the entity's version |
| `Tasks.TerminalFreesSlot` | agent/memory/db.py:241-246 | completed, failed and parked each remove the one indexed row of the key, so that the next report opens a new task |
| `Tasks.FindsTheOne` | agent/memory/db.py:226-237 | the SELECT behind the dedupe finds the one active incident of a key |
| `Tasks.JoinsIff` | agent/memory/db.py:192-239 | a new incident joins a row of its cluster and query that is pending, running, awaiting approval or blocked if there is one, and is inserted otherwise |
| `Tasks.StatusWrittenIff` | agent/memory/db.py:241-246 | a status write changes its row and no other, unless it would make a second such row of one query |
| `FrontDoor.OneIncidentIff` | workers/common/incident.py:31-43 | whatever the tables hold, a report by the agent and one by the webhook belong to one task exactly when their texts normalize alike |
| `FrontDoor.VariantsAreOneIncident` | agent/nodes/observe.py:87-97 | whatever the tables hold, a report by the agent and one by the webhook share a task exactly when their texts can be rewritten to one text by the five rules |
| `FrontDoor.Database.AgentSighting` | agent/memory/db.py:321-409 | the agent's transaction, rows and result |
| `FrontDoor.Database.WebhookSighting` | workers/common/incident.py:53-131 | the webhook's transaction; it reports a new incident exactly when none was active |
| `FrontDoor.Database.UpdateTaskStatus` | agent/memory/db.py:241-246 | the new status, unless the partial index refuses the row's return to an active one |
| `Consumer.ProcessMessage` | agent/main.py:400-486 | under any interference the function is a run of the delivery machine; the outcome is parked for a known error, failed for any other and for a failing status write, else completed, or parked on a lost lease; it has been written if either status write that counts went through; nothing is reported when the status mark, the lease or its release raised |
| `Consumer.ConsumeOne` | agent/main.py:515-545 | one turn of the loop: deleted exactly when the outcome is completed or parked and the queue lets it, and then recorded except for a known error met by a failing suppressed write |
| `Delivery.StepOk` | agent/main.py:400-545 | every step of every delivery keeps one active incident per key, rows that keep their key, and checkpoints and graphs that belong to a task or sweep of their query |
| `DeliveryTheorems.ThreadHoldsLastWriter` | agent/main.py:231-233 | over every interleaving a query's thread holds the input that was committed to it last, by whichever cluster's task or sweep |
| `DeliveryTheorems.DeliveryOfIncident` | agent/main.py:425-545 | from every reachable state, what an undisturbed delivery does: it works on the live row of its key or a new one; on the thread's input exactly when that row was running and the thread has a checkpoint; it leaves the row with the outcome if a status write lands and running otherwise; and the message goes exactly on completed and parked |
| `DeliveryTheorems.ResumesOwnProgressIff` | agent/main.py:249-283 | over every interleaving, an invoked delivery works on its own task's input exactly when it does not resume, or some commit of that input to the thread is followed by no other commit |
| `DeliveryTheorems.CompletedMeansWorkedIff` | agent/main.py:456-476 | from every reachable state, a completing delivery has had the graph run to its end for its task exactly when it had before, or the delivery started afresh, or the thread's last commit was the task's own |
| `DeliveryTheorems.GraphOverMeansEnded` | agent/main.py:456-472 | in every interleaving, a delivery whose graph is over has had the input it worked on run to its end |
| `DeliveryTheorems.TaintedTaskCompletesUnworked` | agent/main.py:249-283 | a running task on a thread whose graph, another's, is over is completed by its next delivery, and the message deleted, with the graph never run for it |
| `DeliveryTheorems.FinishedIncidentTaintsTheNext` | agent/main.py:439-449 | first way there: an incident worked to its end, then a new occurrence refused the lease |
| `DeliveryTheorems.OtherClusterTaints` | agent/main.py:425-441 | second way: threads are kept per query and tasks per cluster too, so the same query of another cluster finishes the thread of a task that died in its graph |
| `DeliveryTheorems.SweepTaints` | agent/main.py:429-437 | third way: so does any sweep of the query |
| `DeliveryTheorems.DeletedLeavesUnsettledIff` | agent/main.py:429-486 | from every reachable state, a message deleted after an undisturbed delivery leaves an active incident of its key exactly when it was probed as a sweep while one was active, or its known error met a failing status write |
| `DeliveryTheorems.RedeliveryOpensNewTaskIff` | agent/main.py:541-545 | the next delivery of the message opens a second task exactly when a status write landed, or, for a sweep, when nothing was active |
| `DeliveryTheorems.AbandonedTaskStaysAsItIs` | agent/main.py:429-437 | a task that no delivery holds stays as it is under everything else, sweeps included, until its key is probed as an incident again |
| `DeliveryTheorems.SweptRedeliveryLeavesTaskStuck` | agent/main.py:429-437 | the run: a delivery dies in its graph, its redelivery probes as a sweep and is deleted, and the task is 'running' from then on |
| `Overlaps.LostLeaseParksUnderNewHolder` | agent/main.py:463-468 | the run: from every reachable state whose thread holds no finished graph to resume, two deliveries get to work on one task, the first loses its lease and parks it without a fence under the second's running graph, and the next report opens a second task |
| `Overlaps.LostLeaseFreesKeyIff` | agent/main.py:463-468 | over every interleaving, that 'parked' leaves the key without an active incident exactly when there was none or the active one is its own task |
| `Overlaps.TaskUnderWorkIff` | agent/main.py:445-482 | over every interleaving, the task of a delivery at work is not 'running' exactly when another delivery of it has landed its final status with no mark 'running' since |
| `Overlaps.StatusIsLastWrite` | agent/memory/db.py:241-246 | over every interleaving, a row has the status written to it last, by whichever delivery |
| `LeasedDelivery.OverlapMeansLostLease` | agent/main.py:447-486 | over every run of deliveries on the lease table, two hold leases of one task at once only if the one granted first lost its row to more than 60 seconds of silence and a takeover, or to another's release under the same holder id |
| `LeasedDelivery.EveryRunKeepsHandles` | agent/memory/leases.py:106-125 | a delivery with a lease has a handle of its own for its task, which it has not given back |
| `Leases.LeaseTable.AcquireOrTakeover` | agent/memory/db.py:560-604 | wins exactly when there is no row or it has expired; then the row is the winner's for 60 seconds under the next fence, or under 1; otherwise nothing changes |
| `Leases.LeaseTable.Renew` | agent/memory/db.py:617-632 | succeeds exactly on matching holder and fence, and then extends by 60 seconds |
| `Leases.LeaseTable.Release` | agent/memory/db.py:634-643 | deletes on matching holder, fence unread |
| `Leases.LeaseHandle.RenewLoop` | agent/memory/leases.py:71-83 | the handle ends invalid exactly when some renewal was stale and all before it succeeded; any other error ends the loop with the handle still valid; each renewal starts one interval after the one before returned |
| `Leases.LeaseHandle.Release` | agent/memory/leases.py:85-97 | a handle that knows it is lost deletes nothing |
| `Leases.AcquireWithRetry` | agent/memory/leases.py:106-125 | returns the first attempt that finds the lease takeable; times out exactly when none does |
| `Leases.TakeoverRaisesFenceByOne` | agent/memory/db.py:575-602 | a takeover raises the fence by exactly one within the lifetime, an insertion starts at one, and every earlier handle of the lifetime is shut out |
| `Leases.AtMostOneRenewsPerLifetime` | agent/memory/db.py:617-632 | of all handles ever issued for a task, two can renew together only with equal holder and fence, and then from different lifetimes of the row |
| `Leases.FreshHoldersAreFenced` | agent/memory/db.py:617-632 | if holder ids are not reused across lifetimes, at most one handle ever issued for a task can renew |
| `Leases.DisplacedStaysDisplaced` | agent/memory/leases.py:71-81 | a displaced handle's renewal fails in every later state until the row's lifetime ends, and its next attempt marks it lost |
| `Leases.TakeoverMeansSilence` | agent/memory/db.py:575-587 | a takeover happens only more than 60 seconds after the last grant or renewal of every handle of the lifetime |
| `Leases.PunctualHolderKeepsLease` | agent/memory/db.py:575-602 | whatever all others do, a holder whose renewals are at most a TTL apart is never displaced unless its own holder id releases the row |
| `Leases.DetectedWithinOneInterval` | agent/memory/leases.py:71-81 | if renewals succeed or find the row gone, a displaced handle is lost by its first renewal after the displacement, which starts within one interval of it or of the return of the renewal under way |
| `Leases.UntakenLeaseComesBack` | agent/memory/db.py:624-632 | renewal ignores expiry: over any run in which nobody takes the row over or releases it, however long, the handle keeps it and its next renewal makes it valid again |
| `Leases.IssuedHeldOrLost` | agent/memory/db.py:575-643 | every handle ever issued still holds its row, or lost it at some step to more than the TTL of silence or to a release under its holder id |
| `Leases.EarlierHandleWasLost` | agent/memory/db.py:575-602 | of two handles issued for one task, the earlier one lost the row, for one of those reasons |
| `Leases.ReleaseEndsAnotherLeaseIff` | agent/memory/db.py:634-643 | a release ends another handle's lease exactly when it has the same task and holder and does not know it is lost |
| `Leases.FenceRestartsAcrossLifetimes` | agent/memory/db.py:589-600 | a run in which a displaced handle and the current one can both renew |
| `Leases.StaleReleaseGivesTaskAway` | agent/memory/db.py:634-643 | its continuation in which the old handle's release lets a third holder in while the current one believes it holds the lease |
| `Reason.RunReason` | agent/nodes/reason.py:161-258 | from the context and the note of a re-plan, returns the first acceptable reply and the rounds used up to it; raises only when every round was rejected, with the last reason |
| `Reason.ConversationIs` | agent/nodes/reason.py:184-197 | while replies are rejected the model sees the opening and then every rejection's own reason, in order |
| `ReasonLaws.RejectedIff` | agent/nodes/reason.py:203-240 | which replies are prose, malformed, contradicted or accepted, on the fields of the reply and the characters of the recommendation: contradicted when no proposed column, trimmed, is one of its trimmed parts between commas |
| `ReasonLaws.PartIff` | agent/nodes/reason.py:116-116 | the parts of a recommendation are the texts without commas that stand between commas or the ends |
| `Reason.ContradictedIff` | agent/nodes/reason.py:105-124 | contradicted exactly when there is a recommendation and no proposed column, stripped, is in it |
| `Reason.AnalyzeNeedsRecommendedColumn` | agent/nodes/reason.py:105-124 | the check ignores the kind: `analyze_table` without a recommended column is never accepted |
| `Reason.AcceptableIff` | agent/nodes/reason.py:105-124 | some reply can be accepted exactly when there is no recommendation or it names a column |
| `Reason.CommaRecommendsNothing` | agent/nodes/reason.py:116-116 | the recommendation "," names none |
| `Reason.NothingAcceptedUnderEmptyRecommendation` | agent/nodes/reason.py:197-247 | under such a recommendation every round of every conversation is rejected |
| `Graph.EveryRunTerminates` | agent/graph.py:192-205 | however the nodes answer: at most 11 node executions, 3 proposals, 9 completions; whatever is gated is schema-valid and not contradicted |
| `Graph.EveryMoveIsExplained` | agent/graph.py:93-122 | how a run in progress comes to each node: recalls on an anomaly, proposes after recall or a setback with fewer than two re-plans, gates on an acceptable reply among three, acts on an approval only; and exactly when it ends without raising |
| `Graph.NoAnomalyEndsTheRun` | agent/graph.py:93-98 | a probe without an anomaly ends the run after one node, with nothing proposed |
| `Graph.ResumedRunTerminates` | agent/graph.py:192-205 | a run picked up from any checkpoint ends within what its state has left |
| `Graph.BoundsAreReached` | agent/nodes/act_measure.py:204-222 | one run attains all three bounds |
| `Graph.ReplansCountSetbacks` | agent/nodes/gate.py:134-147 | over every run, each rejection and each measured regression is re-planned while the budget lasts, and nothing else is |
| `Graph.ExpiryEndsTheRun` | agent/graph.py:101-113 | an expiry at the gate ends the run whatever could have followed: nothing is proposed or asked again |
| `Scoring.WilsonIsSmallerRoot` | agent/memory/scoring.py:32-44 | the bound is the smaller root w of (s/n - w)^2 n = z^2 w (1 - w) and lies in [0, s/n]; `max(0, ..)` never acts |
| `Scoring.WilsonIncreasesInSuccesses` | agent/memory/scoring.py:32-44 | strictly increasing in successes |
| `Scoring.WilsonMonotoneInAttempts` | agent/memory/scoring.py:32-44 | nondecreasing in attempts at a fixed rate |
| `Scoring.WilsonAtTheEnds` | agent/memory/scoring.py:32-44 | n/(n+z^2) for a perfect record, 0 for a record without success |
| `Scoring.LongRecordOutranksLuck` | agent/memory/scoring.py:32-44 | 47 of 50 outranks 1 of 1 |
| `Scoring.DecayIsMonotone` | workers/common/scoring.py:30-32 | ageing never raises the decayed confidence |
| `Recall.RecallItems` | agent/memory/recall.py:50-101 | the filter, score, sort and cut compute `Recalled`, of which the laws below say what is in it |
| `Recall.SortIsStablePermutation` | agent/memory/recall.py:100-100 | the sort is descending, a permutation and stable |
| `Recall.RecallReturnsTheBest` | agent/memory/recall.py:60-101 | the result is descending, as long as it can be, and nothing left out beats anything in it |
| `RecallLaws.FilteredIff` | agent/memory/scoring.py:83-84 | an item is filtered exactly when it is not active or its stored confidence is below 0.15 |
| `RecallLaws.ScoreParts` | agent/memory/scoring.py:83-89 | a score is 0.45, 0.30, 0.15 and 0.10 times similarity, the bound decayed over 90 days, the recency over 14 and the share of its one entity; without a row it is the first part and 0.15 |
| `RecallLaws.NearerScoresHigher` | agent/memory/scoring.py:83-89 | with equal rows the difference of two scores is 0.45 times that of the similarities |
| `RecallLaws.BetterProvenScoresHigher` | agent/memory/scoring.py:83-89 | other things equal it is 0.30 times that of the decayed bounds, positive for more successes |
| `RecallLaws.YoungerScoresHigher` | agent/memory/scoring.py:83-89 | in age alone it is 0.15 times that of the recencies and 0.30 times that of the decays, positive for the younger |
| `RecallLaws.SharedEntityScoresHigher` | agent/memory/scoring.py:52-60 | in the entity alone it is 0.10 over the number of the incident's entities for the one that shares one |
| `RecallLaws.NearerIsNeverLeftOut` | agent/memory/recall.py:60-101 | whatever the candidates and the cut, a nearer item with an equal row is never left out in favour of the other |
| `RecallLaws.BetterIsNeverLeftOut` | agent/memory/recall.py:60-101 | nor a younger one, one with more successes, or one that alone shares an entity |
| `RecallLaws.AffinityIsJaccard` | agent/memory/scoring.py:52-60 | affinity times the size of the union is that of the intersection; 1 exactly for equal nonempty sets |
| `Recall.RetirementIsTransparent` | agent/memory/db.py:486-497 | retiring items below the floor changes nothing while the limit does not bind; otherwise never fewer results, and rank by rank never a lower score |
| `Recall.RetiringKeepsScored` | workers/common/db.py:309-320 | the scored list before is a prefix of the scored list after |
| `Decayer.Store.DecayRow` | workers/decayer/handler.py:52-64 | the autocommitted statements for one procedure and where a fault leaves them |
| `Decayer.Store.RunBatch` | workers/decayer/handler.py:44-80 | in any row order the batch has the pointwise effect, and the four counters are the sizes of the sets they count |
| `Decayer.OneNight` | workers/common/scoring.py:30-32 | a run recomputes from the days since the last update, never negative, with the bound at 1.96 decayed over 90 days, and retires exactly below 0.15; a retired procedure and a failing row stay as they are |
| `Decayer.OneNightOfItems` | workers/decayer/handler.py:59-64 | an item is retired exactly if it was, or its procedure retired in a run that did not fail before the items |
| `Decayer.DecayIsConfluent` | workers/common/scoring.py:30-32 | after any earlier nights, however they failed, a run leaves the status that running only then leaves; a survivor is equal in every column |
| `Decayer.RetiredIsPermanent` | workers/common/db.py:274-284 | a retired procedure is never changed again |
| `Decayer.NightsActPointwise` | workers/decayer/handler.py:44-80 | over any nights each procedure fares as if it were alone |
| `Decayer.OrphanIffSomeNightFailed` | workers/decayer/handler.py:57-61 | over any nights an item ends as an active orphan exactly when on one of them its procedure fell and the run failed before the items |
| `Decayer.OrphanStays` | workers/common/db.py:274-284 | no later run repairs it |
| `Decayer.OrphanIsNeverRecalled` | workers/common/db.py:287-306 | the retirement stored the confidence below the floor in the same statement, so recall never returns the orphan |
| `Decayer.OrphansOnlyTakePlaces` | agent/memory/recall.py:67-98 | all orphans cost is their places among the neighbours: retiring them changes nothing while the limit does not bind, and otherwise never gives fewer or lower results |
| `Recall.OnlyPassingAreRecalled` | agent/memory/recall.py:84-98 | everything returned passed the hard filter with the score it shows |
| `Consolidator.GroupByBucket` | workers/consolidator/handler.py:86-90 | the dictionary holds, per key in order of appearance, exactly the rows of that key in order |
| `Consolidator.Store.RunScope` | workers/consolidator/handler.py:93-181 | the loop on one scope computes `AfterRun`, with its four counters, a failing listing included |
| `Consolidator.EveryRunKeepsProcedures` | workers/consolidator/handler.py:104-181 | over all runs and failures: unique names, disjoint sources of at least three, exact statistics and confidence, active exactly with one memory item, the first stays draft; no procedure is ever changed |
| `Consolidator.RunInducesClusters` | workers/consolidator/handler.py:81-173 | every procedure a run adds is named for an action and a table and stands for exactly the neighbours that show that action, outcome and table, "unknown" without one, at least three, and is active unless it is the scope's first or its promotion failed; every such group whose insert goes through leaves a procedure of its name |
| `Consolidator.ConfidenceHasAFloor` | workers/consolidator/handler.py:118-142 | induced confidence is 0 or at least 3/(3 + 1.96^2) |
| `Consolidator.OtherOutcomeIsDropped` | workers/consolidator/handler.py:120-120 | the name omits the outcome: once an action on a table has a procedure, no bucket of that action and table induces anything |
| `Consolidator.DraftsStayDrafts` | workers/consolidator/handler.py:152-173 | a draft left by a failed promotion, or as the first, is never promoted by any later run |
| `EmbeddingCache.EmbedAndCache` | agent/memory/embeddings.py:53-97 | the result is the provider's pointwise answer in order, 1024 wide; exactly the misses are sent, once, in batches; the cache stays coherent and only grows; it fails only on a wrong width, a provider error or a batch above 96 |
| `EmbeddingCache.CacheKeyIsInjective` | agent/memory/embeddings.py:47-50 | the key preimage separates texts and the two input types |
| `EmbeddingCache.CacheKeyIs` | agent/memory/embeddings.py:47-50 | the key is the input type, a colon and the text |
| `EmbeddingCache.MissesPartition` | agent/memory/embeddings.py:77-84 | the misses are, in order, exactly the positions whose key has no row of this model |
| `EmbeddingCache.ChunksSendEverythingOnce` | agent/memory/embeddings.py:86-89 | batching sends everything once, in order, in nonempty batches within the limit |
| `EmbeddingCache.LaterCallSendsNothingIff` | agent/memory/db.py:543-556 | a later call over the same texts sends nothing exactly when no row of another model holds one of the keys |
| `Backfill.RunBackfill` | workers/embedding_backfill/handler.py:54-109 | filled + failed equals the candidates, hits the cached ones; exactly the others are sent, once each, in order, in batches of at most 96; only candidates change, each to its own embedding; rows without one decrease by exactly `filled`; the shared cache stays coherent; if nothing fails 500 rows are filled, or all |
| `Backfill.UncachedIff` | workers/embedding_backfill/handler.py:66-81 | those sent are the candidates whose text, under the key of its input type, has no row of this model |
| `Backfill.RunScheduled` | workers/embedding_backfill/handler.py:54-109 | invoked any number of times on a table with any cursor, rows only go from no embedding to their own; if nothing fails none is left without one exactly from ceil(N/500) runs on |
| `Backfill.ConvergesInCeilingRuns` | workers/common/db.py:220-232 | the count behind it |
| `StreamReducer.Stream.OnMessage` | dashboard/src/lib/useSse.ts:32-45 | the map stays equal to the window over the whole history |
| `StreamReducer.ReplayIsWindow` | dashboard/src/lib/useSse.ts:32-45 | after any message sequence the evicted map is the last `maxEvents` distinct keys by last occurrence, each with its latest value |
| `StreamReducer.WindowIsTheLatest` | dashboard/src/lib/useSse.ts:32-45 | by positions in the history: the window is the last message of each of its keys, in order of arrival, at most `maxEvents`, and a key is left out only when that many keys were last sent after it |
| `StreamReducer.EvictionCommutes` | dashboard/src/lib/useSse.ts:36-42 | evicting before or after a key moves to the end leaves the same last entries |

## Where code and comments disagree

- The renderer calls its final keyword check unreachable (agent/tools/recipe_renderer.py:119-124); a column
  named `set` reaches it. Its identifier pattern ends in `$`, which in Python also accepts one trailing newline.
- The probe's column lookup asks callers to treat an unknown table as a failure
  (agent/tools/sql_probe.py:158-176); the gate passes its None on (agent/nodes/gate.py:92-97), and the
  renderer then skips the schema check.
- `insert_gate_decision` credits the lease with keeping racers apart (agent/memory/db.py:857-860). The key has
  no task in it, so two leases can meet on one key; what keeps the rows unique is that each transaction is
  serializable and looks first.
- A rejected rendering is not one of the errors that park (agent/tools/recipe_renderer.py:52-56,
  agent/main.py:286-292): such a message is left for redelivery.
- `_should_resume` argues that a new occurrence never resumes a finished checkpoint (agent/main.py:256-275). It
  does after a refused lease, after the same query of another cluster and after a sweep of the query
  (`DeliveryTheorems.FinishedIncidentTaintsTheNext`, `OtherClusterTaints`, `SweepTaints`).
- The acknowledgement rule is meant to leave every unfinished incident for redelivery (agent/main.py:541-545);
  a redelivery that probes healthy is deleted all the same, and its task stays 'running'.
- The cache insert's comment says a conflicting row holds the same vector (agent/memory/db.py:546-550); a row of
  another model does not, and is never replaced.

## Left out

- SQL semantics beyond the statements modelled: a statement the printer cannot print is taken to change no index, and nobody else drops an index on the target.
- Python values outside the documented shapes: non-string tables, columns or timestamps without a zone, which raise where the model has no value for them.
- Protocol.StepOk: a checkpoint is "which node completed last, with its state"; resumption from any checkpoint ever written is allowed, which is more than the library does.
- Protocol.RunOk: re-running `act_measure` overwrites the measurement before the change and may add further 'act' decisions and episodes; exactly-once covers the action, the approval, the gate decision and the target.
- Remediator.ActMeasure: the override of the backup gate, off in the deployed runtime, and the driver errors of the probe and the target, which the protocol covers as crashes.
- Delivery.StepOk: the lease is any answer here, which is more than the table allows (`LeasedDelivery` joins the two); that a fresh graph run commits its own input before its first node, and that a thread is read as its last commit, is assumed of the library.
- Consumer.ProcessMessage: whether a message probes as an incident is an input, as are the outcomes of the calls it makes; the write of the thread's name into the row has no effect here.
- Leases.DetectedWithinOneInterval: the sleep is taken to last exactly its interval.
- Leases.TakeoverMeansSilence: time is the database's, nondecreasing and exact.
- Consolidator.EveryRunKeepsProcedures: runs on one scope do not overlap, and manual promotion and the decayer's retirements do not run in between; neighbour search is any answer within the bucket.
- Recall.RecallItems: the list sort is a function with its laws proved, not an update in place.
- Recall.RetirementIsTransparent: the neighbour search is exact, in one fixed order of distance; beam size and approximation are not modelled.
- EmbeddingCache.EmbedAndCache: the label stored with a row is the provider's own model.
- Backfill.RunBackfill: an exception of a cache lookup, which aborts the run, is not modelled; completed runs are.
- Reason.RunReason: the wording of the messages and the citations copied from recall.
- FrontDoor.OneActiveIncident: payloads, attributes and row-level TTL of old rows.
- Scoring.WilsonIsSmallerRoot: floating-point rounding.
- The graph's `is_anomaly` threshold, telemetry, health endpoint, provider retries, message transport, dashboards, migrations and deployment scripts: plumbing with no property of its own.
- Audit replay and the dashboard feeds' pagination, which can skip rows with equal timestamps at a page edge.
