# AviaSurveil360 verification model

A Dafny model of the parts of AviaSurveil360 where a mistake would be hardest to
see, with proofs of what they promise on every input and every run.

- **PDF writers** (`PdfText`, `PdfLayout`, `PdfSyntax`, `PdfDocument`, `PdfContent`,
  `PdfReader`, `PdfRoundTrip`, `PdfPlaces`, `PdfSize`): both hand-written writers, from text cleaning
  to the cross-reference table, and a reader after ISO 32000-1 that undoes them. The
  reader follows startxref, the table, references and /Length, splits content streams
  into tokens and executes the text operators on their operands. It knows none of the
  writers' texts, object numbers or positions; between the parts of an object it reads
  the single line feeds these files have.
- **Risk register export** (`RiskCsv`): the CSV printer and an RFC 4180 reader.
- **Migration runner** (`MigrationFiles`, `MigrationRunner`, `MigrationTraces`): loading
  the embedded files, one `Apply` call as a method, and any number of concurrent calls
  as a state machine over lock, ledger and schema, with crashes and lost sessions. Each
  call carries the latest version of its own build; with one build in play, as with the
  single constant 41, every success is exact.
- **Governed candidates** (`CandidateLineage`, `MappingOrder`, `MappingPlaces`,
  `GovernedForest`, `Provenance`): the insert and update guards, the forward repair of mapping
  ordinals, and the usage-class guard with its advisory lock under READ COMMITTED.
- **Approvals** (`Approval`, `ApprovalRuns`, `ApprovalRules`, `PlanningApproval`,
  `Planning`, `PlanningRuns`, `PlanningRules`, `Reports`, `ReportHistory`): the generic chain, the planning chain with Finance,
  preparation and Audit creation, and the report machine.
- **Findings** (`Findings`, `FindingRuns`, `FindingHistory`): CAP, Evidence, verification, closure,
  and the status recomputed from a finding's parts.
- **Checklists** (`FreshIds`, `Checklists`, `ChecklistRuns`, `ChecklistFreeze`,
  `ChecklistEffects`): copy-on-write versioning over a question bank shared by all packages.

Code that updates objects in place is modelled by classes whose methods are proved
against functions on values; runs are then folds of those functions, and the run
theorems are lemmas about them. Clocks, randomness, digests and the database's free
choices are parameters.

Where the code differs from what a reader may expect, the code is kept and the exact
condition is proved: an approved record stays open to decisions
(`ApprovalRuns.ApprovedStaysIff`), a draft version's number is never the number it is
published under (`ChecklistRuns.PublishRaisesTheNumber`), duplicating a
package breaks the freeze of published questions exactly when it is an open draft with
questions of its own in its sections (`ChecklistFreeze.FreezeIff`), the update guard lets a
plain candidate row acquire a run (`CandidateLineage.MoveIff`), a migration call's
success is exact for every start unless a newer build is in play
(`MigrationTraces.SuccessIsExactIff`), a second mapping repair changes nothing unless a
root's artifact repeats one of its mappings (`MappingOrder.IdempotentIff`), a CAP step
taken while Evidence waits splits the stored status from the recomputed one
(`FindingRuns.RecomputedIff`), and a PDF with an offset of 10^10 bytes or more loses its
table shape (`PdfRoundTrip.ReadableIffTableFits`).
The ECMAScript limit on strings, 2^53 - 1, allows such a file; engines that stop at
shorter strings never build one.

Run `dafny verify dfyconfig.toml` to check everything.

## Model

| member | source | states |
|---|---|---|
| `PdfText.CleanIffFixed` | js/manager-workspaces.js:1524-1532 | A text is printable ASCII with single inner blanks and none at its ends exactly when cleaning leaves it alone, so the second cleaning inside escaping is harmless. |
| `PdfText.SafeTextKeepsInk` | js/manager-workspaces.js:1524-1532 | Cleaning keeps every visible character of the original, dashes and quotes in their ASCII form, in order, and adds none. |
| `PdfText.SafeTextKeepsWords` | js/manager-workspaces.js:1524-1532 | The words of the cleaned text are the maximal runs of visible characters of the original: cleaning neither joins nor splits any. |
| `PdfText.ChainIsOnePass` | js/manager-workspaces.js:1534-1536 | The three chained replaces equal a one-pass escape of backslash and parentheses: no inserted backslash is escaped again. |
| `PdfText.ReadEscaped` | js/manager-workspaces.js:1534-1536 | A literal-string decoder (ISO 32000-1 section 7.3.4.2) returns the cleaned text and exactly what follows the closing parenthesis, for every text. |
| `PdfLayout.WrapByLoop` | js/app.js:5695-5712 | The loop form of the wrap gives the same lines as the fold form on every text and limit. |
| `PdfLayout.WrapKeepsText` | js/manager-workspaces.js:1538-1548 | Joining the wrapped lines with blanks gives the cleaned text back. |
| `PdfLayout.WrapGivesCleanLines` | js/manager-workspaces.js:1538-1548 | Every line of a non-blank text is clean and non-empty; only a blank text wraps to one blank line. |
| `PdfLayout.WrapIsValid` | js/manager-workspaces.js:1538-1548 | The lines split the word sequence in order, and a line exceeds the limit only when it is a single word. |
| `PdfLayout.WrapIsOptimal` | js/manager-workspaces.js:1538-1548 | No split of the words that respects the limit uses fewer lines. |
| `PdfLayout.PagesArePaging` | js/manager-workspaces.js:1555-1556 | The pages concatenate to the printable lines, with 43 lines on every page but the last, which has 1 to 43. |
| `PdfLayout.PagingIsUnique` | js/app.js:5722-5730 | Any page list of that shape is the same list, so the two ways of paginating agree. |
| `PdfLayout.PaginateBySplice` | js/manager-workspaces.js:1555-1556 | Repeated splice(0, 43) computes that page list. |
| `PdfLayout.PaginateByCounting` | js/app.js:5722-5730 | Closing a page when it holds 43 lines computes the same page list. |
| `PdfDocument.LayOutPage` | js/manager-workspaces.js:1560-1568 | The pen loop emits the page's commands, one per non-blank line, at the heights the layout assigns. |
| `PdfDocument.DrawnOnTheSheet` | js/manager-workspaces.js:1560-1568 | In the shared writer the drawn heights strictly fall down a page and stay between 194 and 792. |
| `PdfDocument.PushObjects` | js/manager-workspaces.js:1557-1573 | Pushing content and page objects in turn and filling in object 2 last gives the numbered object list. |
| `PdfDocument.Serialize` | js/manager-workspaces.js:1574-1583 | The serialising loops produce the file whose table lists each object's accumulated offset. |
| `PdfDocument.BuildAviaPdf` | js/manager-workspaces.js:1550-1584 | The shared writer produces the document of its lines, or of the default line for an empty list. |
| `PdfDocument.BuildFinalReportPdf` | js/app.js:5714-5778 | The Final Report writer produces the document of its lines through its own wrap and pagination loops. |
| `PdfSyntax.ReadPrint` | js/manager-workspaces.js:1557-1573 | A recursive reader of names, numbers, references, arrays and dictionaries undoes their printing, whatever follows. |
| `PdfRoundTrip.ReadCommands` | js/manager-workspaces.js:1560-1568 | Splitting a content stream into tokens and executing its operators gives back exactly the drawn commands: font, size, place and decoded text. |
| `PdfRoundTrip.TableFitsIff` | js/manager-workspaces.js:1582 | Every table entry has exactly twenty bytes if and only if the last object's offset is below 10^10. |
| `PdfRoundTrip.SmallFileFits` | js/manager-workspaces.js:1574-1583 | Every file of fewer than 10^10 bytes meets that condition. |
| `PdfRoundTrip.FileIsIndexed` | js/manager-workspaces.js:1574-1583 | Following startxref and reading the table (ISO 32000-1 section 7.5.4), every offset leads to `i 0 obj` and object i's own body, for any list of object bodies. |
| `PdfRoundTrip.ReadableIffTableFits` | js/manager-workspaces.js:1580-1583 | The cross-reference table of a file can be read if and only if its offsets have at most ten digits. |
| `PdfSize.LongDocumentIsUnreadable` | js/manager-workspaces.js:1574-1583 | Source lines of 10^10 cleaned characters or more together, on however few lines, give a file whose table cannot be read. |
| `PdfSize.ShortLinesFit` | js/manager-workspaces.js:1550-1584 | Up to thirty million source lines and characters together always keep every offset within ten digits, in both writers. |
| `PdfSize.ShortDocumentReadsBack` | js/manager-workspaces.js:1550-1584 | So documents of up to thirty million lines and characters read back completely, a bound a caller can check before writing. |
| `PdfRoundTrip.ReadStreamAt` | js/manager-workspaces.js:1569 | A stream object is cut by its /Length alone and comes back whole, even when it contains `endstream` or `endobj`. |
| `PdfRoundTrip.ReadContentsOfFile` | js/manager-workspaces.js:1557-1573 | Walking trailer, catalog, page tree (kinds, /Parent, /Count, fonts) and streams returns any list of content streams unchanged and in order, each with its page's fonts. |
| `PdfRoundTrip.ReadBack` | js/manager-workspaces.js:1550-1584 | For both writers and all lines within the offset limit, the reader recovers everything every page draws, in fonts its resources name. |
| `PdfRoundTrip.ReadBackText` | js/manager-workspaces.js:1550-1584 | The recovered texts are exactly the non-blank wrapped lines, in order. |
| `PdfPlaces.ReadBackPlaces` | js/app.js:5744-5765 | What a reader of either writer's file sees, told from the page alone: each non-blank line in Helvetica at x 54, at 792 less 8 for each earlier blank line, 24 for the title, 20 for a Final Report heading and 14 for any other, in size 18, 13, or 10 and 9.5. |
| `PdfPlaces.LinesAreApart` | js/manager-workspaces.js:1560-1568 | In both writers each drawn line stands at least 14 below the one drawn before it on its page. |
| `PdfRoundTrip.DocumentIsAscii` | js/manager-workspaces.js:1574-1583 | Both writers emit seven-bit text only, so string lengths and offsets are byte lengths and offsets. |
| `RiskCsv.ReadBack` | js/manager-workspaces.js:618-628 | After the byte-order mark, a reader after section 2 of RFC 4180 recovers the header and every cell of every row, whatever quotes, commas or line breaks they hold. |
| `Decimal.ReadPrinted` | js/manager-workspaces.js:1576-1583 | A printed number is read back with exactly the text that follows it. |
| `Decimal.PadInjective` | js/manager-workspaces.js:1002-1010 | Zero-padded numbers stay distinct. |
| `Decimal.SignIff` | js/manager-workspaces.js:1564 | Only a negative number is printed with a sign. |
| `MigrationFiles.Load` | apps/api/migrations/migrations.go:1084-1119 | Loading succeeds exactly when every plain file ending in ".up.sql" has a 64-bit integer before the first underscore of its name and the files can be arranged as 1..latest, and returns that arrangement with names and contents; six-digit padded names 1..latest load in any listing order. |
| `MigrationFiles.SortedIsNumbered` | apps/api/migrations/migrations.go:1108-1117 | A list numbered 1..n is the only version-sorted arrangement of its migrations, so the check after sorting misses nothing. |
| `MigrationFiles.ListingOrderIsIrrelevant` | apps/api/migrations/migrations.go:1084-1119 | Two listings with the same migrations load to the same list. |
| `MigrationRunner.MigrationDatabase.Apply` | apps/api/migrations/migrations.go:28-85 | One call under the lock: the version it reaches, success exactly when the database is not newer and every step goes through, and an untouched newer database. |
| `MigrationRunner.MigrationDatabase.ApplyEmbedded` | apps/api/migrations/migrations.go:28-85 | The call with its own load: success exactly when the embedded files form a set that ends at latest, the database is not newer and every step goes through. |
| `MigrationRunner.StepKeepsInv` | apps/api/migrations/migrations.go:28-85 | Every step of any of the concurrent calls, failures, crashes and lost sessions included, keeps ledger, schema, lock and what each call knows consistent. |
| `MigrationRunner.RunsAreContiguous` | apps/api/migrations/migrations.go:28-85 | In every interleaving the ledger is 1..k and the schema is migrations 1..k, once each, in order. |
| `MigrationRunner.SchemaOnlyGrows` | apps/api/migrations/migrations.go:54-76 | No run ever loses or reorders an applied migration, whatever a commit reported. |
| `MigrationRunner.CallsExcludeEachOther` | apps/api/migrations/migrations.go:34-37 | Two calls whose sessions are alive are never past the advisory lock together. |
| `MigrationRunner.SuccessMeansLatest` | apps/api/migrations/migrations.go:77-85 | The step on which a call returns success leaves the database at least at its latest version, and exactly there when it kept its session. |
| `MigrationRunner.SuccessIsExact` | apps/api/migrations/migrations.go:28-85 | With no newer build in play every success is exact, whether or not the call kept its session; so it is for calls of one build. |
| `MigrationTraces.SuccessIsExactIff` | apps/api/migrations/migrations.go:28-85 | For given builds and a given start, every success of a build's calls on every run leaves ledger and schema exactly at its latest version if and only if no build in play is newer or the database was newer to begin with. |
| `MigrationRunner.NewerDatabaseIsRefused` | apps/api/migrations/migrations.go:77-79 | A call that meets a newer database with its session alive changes nothing from then on and never returns success. |
| `MigrationTraces.UndisturbedCall` | apps/api/migrations/migrations.go:28-85 | The one-call method is among the runs: a call that holds the lock and is left alone takes machine steps to exactly the version and outcome the method states. |
| `MigrationRunner.EveryStepMayFail` | apps/api/migrations/migrations.go:28-85 | Every step of a call has its failure among the machine's steps, changing nothing. |
| `MigrationRunner.AnythingMayBreak` | apps/api/migrations/migrations.go:28-85 | Calls may start at any time, crash anywhere and lose their session anywhere past the lock, and a commit may take effect without being reported, in a crash too. |
| `MigrationRunner.LockChangesHands` | apps/api/migrations/migrations.go:34-37 | A free lock can be taken, and it is given back at the end of the call or of its session. |
| `MigrationTraces.LostSessionIsOvertaken` | apps/api/migrations/migrations.go:80-84 | For any two builds and any start the older one accepts, a run on which a call of the older one loses its session during the repair and reports success on the newer one's version. |
| `MappingOrder.ParentComesFirst` | apps/api/migrations/migrations.go:683-703 | The work list's sort order puts every candidate's predecessor before it. |
| `MappingOrder.BeforeIsTotal` | apps/api/migrations/migrations.go:702 | The work list's order is total: by root, then depth, then revision, then id. |
| `MappingOrder.StepFollowsSpec` | apps/api/migrations/migrations.go:704-769 | Each iteration, reading the table as it then stands, writes the ordinals defined by recursion up to the root. |
| `MappingOrder.MappingTable.Repair` | apps/api/migrations/migrations.go:677-842 | The loop succeeds exactly when every candidate ends complete, every root's stored digest is its run's and every successor's is that of its final ordinals; it then leaves every candidate at its final ordinals, and otherwise changes nothing. |
| `MappingOrder.OrdinalsAreDistinct` | apps/api/migrations/migrations.go:704-769 | From empty ordinals, no two mappings of a candidate get the same ordinal, over any forest. |
| `MappingOrder.NewOrderFollowsReferences` | apps/api/migrations/migrations.go:729-763 | Appended mappings stand in the order of their first references. |
| `MappingPlaces.ExtensionStandsByReference` | apps/api/migrations/migrations.go:722-769 | A successor's new mappings come after every inherited one, and of two new ones the one first referenced by an earlier question, or earlier in the same, comes first. |
| `MappingPlaces.RepairedTableIsOrdered` | apps/api/migrations/migrations.go:677-842 | After a successful repair of empty ordinals every candidate is complete with distinct ordinals; a root follows its artifact exactly, and a successor keeps each shared ordinal and gives its new mappings the ordinals right after the predecessor's highest, ordered by question and place of their first reference. |
| `MappingOrder.FinalIsStable` | apps/api/migrations/migrations.go:677-842 | Where no root's artifact repeats one of its mappings, recomputing from a repaired table gives every candidate the same ordinals, whichever occurrences the joins take. |
| `MappingOrder.RepairIsIdempotent` | apps/api/migrations/migrations.go:677-842 | Under that condition a second repair, whose joins may take other occurrences, succeeds and changes nothing. |
| `MappingOrder.IdempotentIff` | apps/api/migrations/migrations.go:710-720 | After a successful repair, every possible second one succeeds and changes nothing if and only if no root's artifact lists one of the root's mappings twice. |
| `MappingOrder.SecondRepairMayDiffer` | apps/api/migrations/migrations.go:710-720 | A root whose artifact names its mapping twice: two repairs that take different occurrences both succeed and leave different tables. |
| `GovernedForest.LineageGivesForest` | apps/api/migrations/migrations.go:683-703 | The lineage guards yield the forest the repair presupposes: roots agree along chains and every generated candidate is on the work list. |
| `Provenance.BackfillEstablishes` | apps/api/migrations/migrations.go:367-391 | A backfill that passes both checks, classes against catalogs and one class per question version, leaves memberships bound to provenance and catalogs that agree. |
| `Provenance.BackfillIff` | apps/api/migrations/migrations.go:367-391 | The backfill refuses exactly a membership of another class than its catalog, or two classes of one question version, and otherwise adds what is missing. |
| `Provenance.StepKeepsInv` | apps/api/migrations/migrations.go:489-512 | Every step of every transaction keeps the binding, the locks, the single class and what each running trigger has tested; lock, both tests and insert are steps of their own. |
| `Provenance.OneClassAlways` | apps/api/migrations/migrations.go:489-512 | Under every interleaving of transactions, between the statements of a running trigger too, all committed memberships of a question version share one usage class. |
| `Provenance.TransactionGoesThrough` | apps/api/migrations/migrations.go:489-512 | A whole transaction of its own records provenance and membership and stores exactly both rows. |
| `Provenance.AbortIsPossible` | apps/api/migrations/migrations.go:489-512 | Any open transaction may abort, at any point of its trigger, and leaves nothing. |
| `Provenance.OnlyCommitsPublish` | apps/api/migrations/migrations.go:472-473 | Only a commit changes the tables, by exactly the transaction's rows. |
| `Provenance.AdmissionGoesThrough` | apps/api/migrations/migrations.go:489-512 | A bound row of its question's one class whose lock is free is let through: lock, both tests, insert and commit run and the row is stored. |
| `Provenance.AdmittedOnlyAfterTests` | apps/api/migrations/migrations.go:489-512 | On every run a membership appears only after a moment when its question's lock was free, a later one when no visible provenance had another class, and a later one when it was itself visible provenance. |
| `Provenance.OpenMembershipsAreApart` | apps/api/migrations/migrations.go:492 | Two open transactions never hold memberships of one question version. |
| `Provenance.WithoutTheLockClassesMix` | apps/api/migrations/migrations.go:492 | The same guard without its advisory lock admits a run that commits both classes. |
| `CandidateLineage.InsertIff` | apps/api/migrations/migrations.go:992-1008 | An insert keeps every lineage exactly when the row is plain or passes the guard's chain test. |
| `CandidateLineage.MoveIff` | apps/api/migrations/migrations.go:1021-1044 | A move the guards and the table's constraints allow keeps every lineage exactly when a plain row that acquires a run also passes the chain test. |
| `CandidateLineage.GuardsLeaveAGap` | apps/api/migrations/migrations.go:1023 | Beside a proper root, a plain row may acquire a run and name that root with no chain between them, in a table that meets every constraint. |
| `CandidateLineage.LineageAlways` | apps/api/migrations/migrations.go:992-1044 | On every run from a table in order that respects that condition each generated candidate has a lineage. |
| `CandidateLineage.LineageEndsAtNamedRoot` | apps/api/migrations/migrations.go:1000-1003 | A lineage is finite, falls strictly in version and revision towards the root, keeps template and run, and ends at the row named by candidate_root_id. |
| `CandidateLineage.LineageIsUnique` | apps/api/migrations/migrations.go:1000-1003 | A candidate has one lineage only. |
| `CandidateLineage.CandidatesOfARootAreComparable` | apps/api/migrations/000021_regulatory_checklist_governance.up.sql:549-551 | As a candidate has one successor at most, of two candidates with one root the lineage of one is the end of the other's. |
| `CandidateLineage.ContentIsFixed` | apps/api/migrations/migrations.go:1021-1044 | Without any condition, a generated candidate is never removed or rewritten; only its status moves, and only forward. |
| `CandidateLineage.StatusTakesSteps` | apps/api/migrations/migrations.go:1024-1030 | On every run a generated candidate's status stays or takes one of the five steps. |
| `CandidateLineage.StatusStepIsAllowed` | apps/api/migrations/migrations.go:1024-1040 | Each of the five steps is let through for any generated candidate of a table in order. |
| `CandidateLineage.PublishedWasReviewed` | apps/api/migrations/migrations.go:1024-1030 | A generated draft that is published later was in department review and, after that, technically approved. |
| `CandidateLineage.InsertedIsComplete` | apps/api/migrations/migrations.go:992-1008 | Every generated candidate a run inserts names known question versions and a run with complete lineage, at a root with that run's digest. |
| `CandidateLineage.CompleteIsInserted` | apps/api/migrations/migrations.go:992-1008 | A row that meets those demands and extends a chain, or starts one with its run's digest, is let in. |
| `CandidateLineage.PlainIsFree` | apps/api/migrations/migrations.go:994 | Any insert, update or deletion of a plain row that the constraints bear is carried out. |
| `CandidateLineage.ConstraintsHold` | apps/api/migrations/000021_regulatory_checklist_governance.up.sql:344-350 | What no statement leaves behind: each check, foreign key and unique key of the table that bears on lineage. |
| `CandidateLineage.DigestIff` | apps/api/migrations/000021_regulatory_checklist_governance.up.sql:197-199 | A digest is the prefix and sixty-four hexadecimal digits in small letters. |
| `Approval.ApprovalRecord.ApplyDecision` | js/approval.js:333-389 | The in-place decision either leaves the decided record or reports the error and leaves the record untouched. |
| `Approval.ApprovalRecord.AdvanceApproval` | js/approval.js:283-297 | Advancing moves to the next stage, or approves at the last one, logging and restating the status. |
| `ApprovalRuns.DecisionIsReplayed` | js/approval.js:205-389 | An accepted decision adds one entry by the owning role, and that entry alone leads from the old index, outcome and status to the new ones. |
| `ApprovalRuns.HistoryDeterminesRecord` | js/approval.js:205-389 | For every chain and run the index stays in range and replaying the added history gives exactly the current index, outcome and status. |
| `ApprovalRuns.EntriesAreByOwners` | js/approval.js:193-214 | Every entry a run adds was made by one of its decisions, on the record whose history ended just before it, by the role that owned that record. |
| `ApprovalRuns.StandingIff` | js/approval.js:216-229 | An accepted decision keeps the approvals behind the index standing exactly when a return or refusal does not move the record forward. |
| `ApprovalRuns.ApprovalsStand` | js/approval.js:283-331 | On every run over a chain of distinct roles that turns back only, each stage below the index has an advance as its most recent decision. |
| `ApprovalRuns.ApprovedStaysIff` | js/approval.js:333-342 | A decision on an approved record keeps it approved exactly when it is another approval: the outcome is never tested. |
| `ApprovalRules.DecisionIsRecorded` | js/approval.js:205-389 | What an accepted decision logs, by whom and as what, and the review that Finance's own decisions leave. |
| `ApprovalRules.RefusedIff` | js/approval.js:193-203 | A decision is refused exactly for its first fault: no stage, not the owner, no reason, not at Finance, unsupported. |
| `ApprovalRules.ReturnGoesTo` | js/approval.js:216-229 | A return goes to the first stage of the configured role; without one, to the origin or one stage back, as the policy says. |
| `ApprovalRules.RefusalGoesTo` | js/approval.js:316-331 | A Finance refusal goes to the first stage of the configured role, the Department Manager by default. |
| `ApprovalRules.ChecklistShows` | js/approval.js:231-244 | A checklist's status after any accepted decision: the outcome, or whose turn it is. |
| `ApprovalRules.ReportShows` | js/approval.js:245-267 | A report's status in the generic chain after any accepted decision, by outcome, owner, stage label and return. |
| `PlanningApproval.PlanningChainIsOrderly` | js/planning.js:116-121 | The planning chain meets those conditions. |
| `PlanningApproval.ApprovedPlanStands` | js/planning.js:116-132 | On every run from creation an approved plan has standing Finance, GM and Executive Director approvals. |
| `PlanningApproval.StatusIsShown` | js/approval.js:231-281 | On every run from creation the stored status of a plan is the one its outcome or its current stage shows, and no two stages show the same. |
| `PlanningApproval.ApprovedPlanCanBeReopened` | js/approval.js:299-306 | Every approved plan can still be sent back by its last approver. |
| `PlanningApproval.ReviewedIff` | js/approval.js:360-387 | Past Finance the recorded review is an approval, and a decision breaks that exactly when Finance forwards without one. |
| `PlanningApproval.FinanceReviewStands` | js/planning.js:160-187 | When Finance acts only through its own entry point, a plan past Finance always carries its approval. |
| `PlanningRules.FinanceActsIff` | js/planning.js:160-187 | The Finance entry point acts on a budget that adds up, with a reason for a return, for whoever owns the current stage: only a return tests that it is Finance. |
| `PlanningRules.FinanceActsSo` | js/planning.js:160-187 | At Finance's turn it sends the plan on to the General Manager or back to the Department Manager, with the review recorded. |
| `PlanningRules.TotalOfConcat` | js/planning.js:139-142 | The budget total is a sum: the totals of two parts add up. |
| `PlanningRules.TotalOfOne` | js/planning.js:139-142 | The total of a single line is its amount. |
| `Planning.PlanningState.Prepare` | js/planning.js:333-408 | A preparation or approval step updates its item as specified, or refuses and changes nothing. |
| `Planning.PlanningState.MaterializeReady` | js/planning.js:410-517 | Audit creation adds one Audit with its records, finds the existing one and adds nothing, or refuses; a ready item without a package leaves the half-made Audit the code leaves. |
| `PlanningRules.StepIsTakenIff` | js/planning.js:333-408 | Who may take which preparation step, from which status, with what filled in. |
| `PlanningRules.StepRecords` | js/planning.js:333-408 | What each preparation step records and what it leaves; confirming a ready item changes nothing. |
| `PlanningRules.CreatedIff` | js/planning.js:410-456 | Creation goes through for a ready item with a package and a category, or with an Audit already. |
| `PlanningRules.CreationFindsExisting` | js/planning.js:410-424 | With an Audit already there, creation changes nothing. |
| `PlanningRules.CreationFollowsProposal` | js/planning.js:426-517 | The created Audit takes Lead, dates and team from the proposal, the Lead first only if missing; its number comes from the counter and an unannounced inspection's notice is withheld. |
| `PlanningRules.ReadyIsComplete` | js/planning.js:352-408 | On every run a ready item has a Lead, a team and dates, and its package names that Lead and team. |
| `PlanningRuns.ReadyIsPrepared` | js/planning.js:333-408 | A ready item's last five entries are release, acceptance, lead assignment, proposal and confirmation, each by the right role. |
| `PlanningRuns.StepKeepsInv` | js/planning.js:333-517 | Every step on any item, repeated releases included, keeps ids fresh and unique and items and Audits consistent. |
| `PlanningRuns.OneAuditPerItem` | js/planning.js:410-456 | No planning item ever has two Audits, and Audit ids stay unique. |
| `PlanningRuns.AuditRecords` | js/planning.js:456-517 | Each created Audit has exactly one team, one workspace and one coordination record, has its Lead on its team, and is the one its item names. |
| `PlanningRuns.AuditMeansPrepared` | js/planning.js:333-517 | An item with an Audit went through the five steps in order, after Finance, GM and Executive Director had all stood approved. |
| `Reports.ReportRecord.ApplyManager` | js/manager-workspaces.js:180-231 | The Department Manager's decision updates the report as specified, or refuses and changes nothing. |
| `Reports.ReportRecord.ApplyGeneralManager` | js/manager-workspaces.js:694-732 | The same for the General Manager. |
| `Reports.ReportRecord.ApplyExecutive` | js/manager-workspaces.js:782-846 | The same for the Executive Director, for both kinds of report. |
| `Reports.DecisionKeepsWell` | js/manager-workspaces.js:911-987 | Every accepted decision keeps what a status says of the decisions behind it and of lock and approval mark. |
| `Reports.OutMeansApproved` | js/manager-workspaces.js:782-987 | A released or issued report is locked and marked, and the latest Manager, GM and Executive decisions are approvals in that order, the last ending its history. |
| `Reports.OutStaysPut` | js/manager-workspaces.js:796-798 | No later decision changes a released or issued report. |
| `ReportHistory.DecidesIff` | js/manager-workspaces.js:694-712 | A decision is accepted exactly at its own desk, by its own role, with a verdict of the desk and a reason unless it approves. |
| `ReportHistory.DecisionIsLogged` | js/manager-workspaces.js:180-231 | An accepted decision writes one signed entry, which alone says where the report goes. |
| `ReportHistory.MarksOfDecision` | js/manager-workspaces.js:694-846 | Lock, approval mark and dates change only as a report goes out or is sent on by the General Manager. |
| `ReportHistory.LastDecisionTellsStatus` | js/manager-workspaces.js:782-987 | On every run from the Manager's desk the last decision alone tells a report's status and owner. |
| `ReportHistory.HistoryIsLegal` | js/manager-workspaces.js:180-231 | On every run each decision was made by the desk to which the decision before it had sent the report, with a verdict of that desk. |
| `Reports.ShownExactlyWhenOut` | js/reports.js:392-404 | On every run from the Manager's desk the list of an organization and kind shows a report exactly when it is out and both are the report's own from the start. |
| `Reports.ShownToItsOrganizationOnly` | js/reports.js:396-397 | On every run from any state a listed report had that organization and kind from the start: no decision moves a report to another reader. |
| `Findings.FindingState.UploadEvidence` | js/app.js:5933-5954 | An upload appends the next Evidence version and marks the finding submitted. |
| `Findings.FindingState.RecordVerification` | js/reports.js:191-294 | A verification updates the highest Evidence version, the record and the status together, or refuses. |
| `Findings.FindingState.Handle` | js/app.js:4778-4859 | CAP submission, CAP decision and authorized closure update the finding as specified, or refuse. |
| `FindingRuns.RunsAreSound` | js/reports.js:199-294 | On every run of actions in any order, a closed finding was closed the way its closure type says: its highest Evidence version is Accepted and named by the closing verification, or the log holds a reasoned closure by the manager; Evidence versions are 1..n. |
| `FindingRuns.ActIsSound` | js/inspection.js:370-397 | Every single action keeps that. |
| `FindingRuns.NumberedLatest` | js/reports.js:191-197 | With versions 1..n the latest Evidence is the last one and the next number is n + 1. |
| `FindingHistory.AcceptedIff` | js/app.js:4778-4859 | Which actions are accepted: by whom, on what, with what filled in. |
| `FindingHistory.ConvertedStarts` | js/inspection.js:362-437 | A converted finding starts where its requirements say, which an observation has only by choice. |
| `FindingHistory.ActionsLeave` | js/app.js:4778-4859 | What each accepted action leaves in the part of the finding it is about. |
| `FindingHistory.ActionsStayApart` | js/app.js:4778-4859 | What each accepted action leaves alone. |
| `FindingHistory.ActionTouchesOne` | js/reports.js:191-294 | An action changes the first finding of its id and no other, and logs verifications and closures only. |
| `FindingHistory.ConversionAdds` | js/inspection.js:399-463 | A conversion adds its finding at the end, open and without Evidence, and changes no other finding and no log line. |
| `FindingHistory.LatestIsLastHighest` | js/reports.js:191-197 | The Evidence a verification takes is the last one of the highest version, whatever the versions. |
| `FindingHistory.EvidenceShowsVerdicts` | js/reports.js:160-182 | On every run each Evidence version has the status that the last verification naming it gave, or none yet. |
| `FindingRuns.DrivenIsShaped` | js/app.js:3838-3852 | For a converted finding driven by offered actions, each stored status fixes what CAP and Evidence look like. |
| `FindingRuns.StoredStatusIsRecomputed` | js/work-items.js:10-40 | For such a finding the status recomputed from CAP and Evidence always equals the stored one. |
| `FindingRuns.RecomputedIff` | js/work-items.js:10-40 | For any finding and any action, offered or not, stored and recomputed status agree afterwards exactly when it was no CAP step while Evidence waits and no CAP decision on a finding that needs neither CAP nor Evidence. |
| `FindingRuns.NotSubmittedCapIsShownAsSubmitted` | js/work-items.js:20 | A CAP marked Not Submitted is recomputed as submitted, so seeded findings may differ. |
| `Findings.StatusTexts` | js/work-items.js:16-53 | What the regular expressions find in the status texts that occur. |
| `Text.MentionsIff` | js/work-items.js:16-53 | A case-insensitive expression for a word finds it wherever it stands, in capitals or not, and nowhere else. |
| `Text.LowerIs` | js/work-items.js:16-53 | Ignoring case maps each capital letter to its own small one and nothing else. |
| `Text.TrimIs` | js/approval.js:108-110 | trim() leaves the stretch between the first and the last character that is no white space. |
| `FindingRuns.LateCapDecisionSplitsTheStatus` | js/app.js:4824-4836 | For instance, accepting the CAP again while Evidence waits makes them differ. |
| `FindingRuns.OneCurrentIffPending` | js/work-items.js:64-75 | At most one lifecycle step is current, and one is exactly when a required step is left. |
| `FindingRuns.OpenFindingHasOneCurrentStep` | js/work-items.js:42-80 | An open finding has exactly one current lifecycle step. |
| `FindingRuns.VerifiedClosureCompletesTheLifecycle` | js/work-items.js:42-80 | After an evidence-verified closure of a driven finding every required step is complete. |
| `FindingRuns.DrivenStepsAreInSequence` | js/work-items.js:42-80 | While a driven finding is open, no required step is complete before an earlier one. |
| `FindingHistory.DrivenFindingWaitsFor` | js/work-items.js:42-80 | Which lifecycle step a driven open finding waits for, by its stored status; all before it are done and none after it. |
| `FindingHistory.MilestonesTell` | js/work-items.js:42-62 | For any finding, when its CAP counts as submitted and accepted and its Evidence as submitted and verified. |
| `FindingHistory.StepStatesTell` | js/work-items.js:63-75 | Each lifecycle step is not required, complete, or open, and the first open one is current. |
| `FindingHistory.WayOnIsOffered` | js/helpers.js:217-231 | From every open status of a driven finding the screens offer an accepted action onward: CAP submission and decision, upload, verification, authorized closure. |
| `FreshIds.FindUniqueId` | js/manager-workspaces.js:1002-1010 | The search for a numbered id terminates with an id that is not in use. |
| `FreshIds.FirstFree` | js/manager-workspaces.js:1002-1010 | It is the first free number from the starting point on. |
| `Checklists.ChecklistState.SaveQuestion` | js/manager-workspaces.js:1240-1289 | A save edits the draft's own question or a fresh copy, in bank and package together, writing every field the code writes. |
| `Checklists.ChecklistState.PublishPackage` | js/manager-workspaces.js:1147-1181 | A publish appends the new version and retires the others. |
| `ChecklistRuns.SavedIsRead` | js/manager-workspaces.js:1240-1289 | After a save everything it was given is read back, with its risk rated, from one question, and no other old question changed: the draft's own question, or else a new one that stands where the one asked for stood, or at the end. |
| `ChecklistEffects.AppliesIff` | js/manager-workspaces.js:1147-1317 | Which operations on a package are accepted. |
| `ChecklistEffects.DraftOpens` | js/manager-workspaces.js:1064-1076 | An edit of a published package opens a draft one tenth above its highest number without own questions; a draft goes on and an archived package is refused. |
| `ChecklistEffects.PublishAppends` | js/manager-workspaces.js:1147-1181 | A publish takes the number one tenth above the highest, appends one active version of all sections and retires the others. |
| `ChecklistEffects.SectionQuestionsInOrder` | js/manager-workspaces.js:1169 | A version names the questions of the first section, then those of the next, and so on. |
| `ChecklistEffects.AddSectionLeaves` | js/manager-workspaces.js:1183-1198 | A new section stands last, empty, under an id no section has, and nothing else changes. |
| `ChecklistEffects.SaveGoesToSection` | js/manager-workspaces.js:1240-1252 | A save goes to the first section of its id in the open draft. |
| `ChecklistEffects.DuplicateQuestionSaves` | js/manager-workspaces.js:1291-1304 | A duplicated question is saved anew with its own fields and a mark on its text. |
| `ChecklistEffects.PackageSteps` | js/manager-workspaces.js:1078-1137 | A copy is a draft of the same sections and number without versions; a new package is a draft 0.1 with one empty section. |
| `ChecklistEffects.OperationTouchesOne` | js/manager-workspaces.js:1064-1317 | An operation leaves every other package alone, and everything if it is refused. |
| `ChecklistEffects.ArchivingIsFinal` | js/manager-workspaces.js:1139-1145 | Archiving changes nothing but the status, and no later run changes an archived package. |
| `ChecklistEffects.ScalesAre` | js/manager-workspaces.js:1233-1238 | The two scales of a question's risk; any other text counts as the lowest. |
| `ChecklistEffects.RemoveQuestionLeaves` | js/manager-workspaces.js:1306-1317 | Removing a question keeps the bank, every other section and every other question of its section in order. |
| `ChecklistEffects.RemoveSectionLeaves` | js/manager-workspaces.js:1200-1213 | Removing a section keeps every other one in order. |
| `ChecklistEffects.MoveSectionLeaves` | js/manager-workspaces.js:1215-1231 | A move exchanges the section with its neighbour and leaves the rest. |
| `ChecklistRuns.ApplyIsConfined` | js/manager-workspaces.js:1064-1317 | Every operation changes content only for an open draft's own questions and names nothing but old questions and fresh drafts. |
| `ChecklistRuns.OperationFreezes` | js/manager-workspaces.js:1240-1289 | An operation on any package leaves every published question of every package as it was. |
| `ChecklistRuns.PublishedIsFrozen` | js/manager-workspaces.js:1064-1317 | Along every run that duplicates no open draft with questions of its own in its sections, a question named by a published version keeps its content for good. |
| `ChecklistRuns.DuplicateIff` | js/manager-workspaces.js:1110-1137 | Duplicating a package keeps open drafts private exactly when it is no open draft with questions of its own in its sections. |
| `ChecklistFreeze.SharedDraftBreaksTheFreeze` | js/manager-workspaces.js:1110-1137 | Otherwise publishing the copy and saving in the source changes a published question. |
| `ChecklistFreeze.FreezeIff` | js/manager-workspaces.js:1110-1137 | After a duplication published questions are frozen if and only if the source was no open draft with questions of its own in its sections. |
| `ChecklistFreeze.FrozenIff` | js/manager-workspaces.js:1064-1317 | In a workspace whose packages have sections and know their questions, published questions stay frozen on every later run if and only if every open draft keeps its own questions out of other packages and versions. |
| `ChecklistFreeze.RunFreezeIff` | js/manager-workspaces.js:1064-1317 | Along any run published questions are frozen after every step if and only if no step duplicates an open draft with questions of its own in its sections (duplicating an archived package never harms it). |
| `ChecklistRuns.PublishRaisesTheNumber` | js/manager-workspaces.js:1147-1181 | A publish takes a number above every version and above the draft's own, and leaves exactly one version active. |
| `ChecklistRuns.ApplyKeepsNumbers` | js/manager-workspaces.js:1064-1317 | Every operation keeps version numbers strictly rising and at most the last version active. |
| `ChecklistRuns.RunKeepsNumbers` | js/manager-workspaces.js:1064-1317 | So does every run over all packages, new ones and copies included. |

## Left out

- Page rendering, navigation, toasts, modals, local storage and the download links around the PDF and CSV text: user interface and browser calls.
- UTF-16 surrogate pairs: a string is a sequence of characters; every non-ASCII unit becomes a blank before anything depends on its width.
- Octal escapes in PDF literal strings: the writers never emit them, and the decoder does not read them.
- The pen heights of the Final Report writer, which many heading lines can push below the sheet; only the shared writer's bound is claimed.
- The lines a Final Report is made of (`leadFinalReportPdfLines`): a parameter, empty lists included.
- The rest of the forward repair (indexes, constraints, the other triggers): one step that may fail and leaves ledger and migration effects alone. What the migrations' SQL does is an opaque effect recorded in order.
- A database session reused by a later call while it still holds a lock whose release failed: the lock stays with the earlier call until its session ends.
- SHA-256 and the JSON joins of the mapping repair: the digest is an arbitrary function of a candidate's ordered mappings, each candidate carries the mapping ids its ordered questions name, and text ids are numbers with the same kind of order.
- Open transactions during the provenance backfill, savepoints, and updates or deletes of membership rows: the backfill is the starting point of a run and memberships are only inserted.
- References of a candidate row to other tables (template, creator, run), and its columns that no guard or key compares.
- The `forward_ed` decision, a caller-supplied return role, decision dates and display labels of the approval chain.
- Field validation and id choice of a new planning inspection, the Executive Director's extra plan fields, and the notice texts of a coordination record.
- `handleFinalReportPrepareConfirmSubmit`, which puts a report back to the Department Manager without a lock test: report runs use the decision functions only.
- Notifications, audit-log lines and the Audit status set beside a report decision, and read models whose artifact lacks a field its projection has.
- Finding texts, dates, notes and notifications, the look-up of a Potential Finding before its conversion, uniqueness of finding ids, and repeated conversion.
- Package names, the refusal of an empty or repeated one, and the choice of a new package's id: ids of created and duplicated packages are parameters.
- Package history, dates, attachments and field defaulting of older stored packages; a duplicated package's section ids are kept instead of renumbered.
- JavaScript's floating-point version numbers: one-decimal versions are integers in tenths.
- MappingOrder.MappingTable.Repair: takes the sorted work list of the recursive query as given, stated as a condition on its contents and order.
