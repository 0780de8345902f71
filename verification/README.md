# The crawl and classification core of mooncen, verified

This project models the state machines and the arithmetic behind the course crawlers and proves what they promise.

- **The parallel crawl cycle** (`Host`, `CycleBooks`, `Scheduler`, `Windows`): a bounded pool of crawler processes with
  a deadline per child, a deadline for the active window, a shutdown flag and a `finally` clean-up. The machine it runs
  on is a class whose methods are nondeterministic: children exit or not, processes fail to start, signals arrive, file
  writes raise, the clock advances by any amount. It remembers every reading of the wall clock, every attempt to start
  a child, the evidence of a child's work, the closing calls and every call that raised, and the cycle's contract is
  stated on that. The invariant is stated on values in
  `CycleBooks`.
- **The outcome of a cycle** (`Ownership`, `CycleOutcome`, `CrawlCycle`): who owns which concrete provider, how an
  aggregate's manifest is bound to that snapshot, which exit code follows, and what that code says of the children.
- **The course row** (`CourseRow`, `RowRuns`, `RowLaws`): one row of the courses table under crawler upsert, AI title
  update, "unchanged" mark, AI summary and reset. Every right-hand side reads the old row, as in SQL.
- **AI work on the table** (`CourseQueue`, `AiWorkers`): the fetch filter, the worker cycle on a table that is updated
  in place, and the lock, re-fetch and re-check protocol of any number of workers beside crawlers that take no lock.
- **The service-group classifier** (`KeywordText`, `ServiceGroup`, `ServiceGroupLaws`, `ServiceGroupRules`,
  `ServiceGroupEdges`, `SqlText`):
  the Python function, the SQL infer and resolve functions, the trigger, the rule tables, and the rendering of those
  tables to SQL text (string literals as in section 5.3 of ISO/IEC 9075-2).
- **Targets and registry** (`Ordering`, `Targets`, `TargetRegistry`, `TargetLaws`), **registry arguments and overrides**
  (`RegistryArguments`, `ArgumentOverrides`) and **the bounded usage-page crawl** (`UsageCrawl`).

`Prelude` holds optional values and facts about sequences and sets. `dafny verify dfyconfig.toml` checks everything.

## What turned out to hold only under a condition

- The end of the active window is enforced unless the window closes between the two readings of the wall clock at
  `mooncen/run_crawlers.py:1775-1779`. Then no window deadline is set although the window is closed: the cycle waits for
  the next opening, starts its providers there, and stops none of them when that window ends. What it returns is as
  complete as ever. It ends if its passes follow each other within the time the window is open; otherwise it may miss
  one opening after the other (`RunCycleParallel`, `DeadlineIsSet`, `TimelyPassesMissNothing`).
- A cycle that raises an error leaves neither a child nor an open record behind, unless its clean-up raises one, too:
  the clean-up stops there (`Finish`, `CleanUp`).
- Python and SQL classify differently in one kind of course (`PythonAgreesWithSql`). The agreement also needs values
  that both languages trim alike, because SQL trims blanks only; this is needed of each of the six values
  (`NoTrimCanBeDropped`).
- A title step that is split by a crawl can leave a processed title of the previous raw title (`StaleTitleRun`), and
  later crawls do not repair it (`StaleTitleStays`).
- A title update is idempotent but for three kinds of rows and results; among them, it keeps an age group whose bounds
  it clears with the target text (`TitleTwice`).
- The upsert is not idempotent when only the raw category of an AI-titled row changed (`UpsertTwice`).
- The fullest reset leaves the removed prefix of the title behind (`ResetUndoesTitle`), and leaves FALSE and an empty
  array where a later crawl would only fill in NULL (`CrawlAfterReset`).
- A crawl refreshes everything it knows about a course except its application dates, which stay those of the first
  crawl (`ApplyDatesStay`).
- Selected targets overlap when an earlier one has a blank provider name, and only then (`BlankOwnerHidesNothing`).
- The enabled registry rows are the selected targets exactly when no row that does not work, but is no duplicate either,
  holds a key of a selected target (`EnabledAreSelected`).

## Model

| member | source | states |
|---|---|---|
| `Host.Machine.InterruptibleSleep` | mooncen/run_crawlers.py:1269-1275 | The sleep ends although time only passes and a signal may come; if no signal came, the whole duration has passed |
| `Host.Machine.Terminate` | mooncen/run_crawlers.py:1656-1691 | When it returns normally the child no longer runs; otherwise at most that one child was signalled and nothing else changed |
| `Scheduler.RunProviderProcess` | mooncen/run_crawlers.py:1628-1653 | Either no child starts, the attempt is remembered as failed, and a record that was opened gets its one closing call, as failed; or one new child runs with one new open record |
| `Scheduler.Finalize` | mooncen/run_crawlers.py:1694-1760 | Makes exactly one closing call, for the child's own record; the report is a success exactly if the child exited with 0, nobody forced its end, the evidence of its work is good and the closing call reported that it was written; each other report says which of these failed; a written record holds the status that belongs to it; all this also when the progress write at the end raises an error |
| `Scheduler.ParallelCycle.Settle` | mooncen/run_crawlers.py:1841-1871 | A child that no longer runs leaves the pool with a report; when finalising it raises an error, its record is closed, its provider is not reported, and the pool is in the state that the clean-up expects |
| `Scheduler.ParallelCycle.constructor` | mooncen/run_crawlers.py:1784-1787 | All providers wait, none runs, none is reported, and the machine is remembered as it was |
| `Scheduler.ParallelCycle.FillPool` | mooncen/run_crawlers.py:1794-1838 | Providers leave the queue in order only while the window is open, the worker runs and there is room; the first of them is tried; the invariant holds whatever mix of starts and failures occurs |
| `Scheduler.ParallelCycle.SpawnNext` | mooncen/run_crawlers.py:1795-1838 | The first waiting provider is either reported as not started or joins the pool with its full time from its start on; nobody else is touched |
| `Scheduler.ParallelCycle.PollChild` | mooncen/run_crawlers.py:1841-1871 | A child that stays in the pool had time left; a child reported as timed out was past its deadline; no other child is touched |
| `Scheduler.ParallelCycle.PollAll` | mooncen/run_crawlers.py:1840-1871 | After a pass every child left in the pool had time left when it was looked at; nobody enters the pool |
| `Scheduler.ParallelCycle.StopAll` | mooncen/run_crawlers.py:1880-1902 | Empties the pool with reports that carry the reason of the stop |
| `Scheduler.ParallelCycle.ReportPending` | mooncen/run_crawlers.py:1904-1922 | Every provider that never started is reported with the reason of the stop, without a child and without a record |
| `Scheduler.ParallelCycle.Turn` | mooncen/run_crawlers.py:1790-1878 | A pass reads the wall clock once, first, and tries to start nobody outside the window; a pass that is not the last lets time pass, and starts a provider, sees a child leave, or found some child or the closed window with time left; with a window deadline it began before that deadline |
| `Scheduler.ParallelCycle.Note` | mooncen/run_crawlers.py:1791-1794 | Of two passes in a row that read the clock outside the window with nobody running, either both wait for the same opening or an opening lies between them; in the second case, and only then, the position of the later reading is noted |
| `Scheduler.ParallelCycle.Pass` | mooncen/run_crawlers.py:1790-1878 | What the machine remembers of the passes so far stays true with one more: every attempt to start a provider was made in a pass whose reading is inside the window, the first such pass tried the first provider of an empty pool unless an error or a signal came, and all passes but the last came before the window deadline |
| `Scheduler.ParallelCycle.Step` | mooncen/run_crawlers.py:1790-1878 | Each pass makes the lexicographic measure smaller: openings that may still be missed, queue, pool, and the time to the opening that is waited for or to the latest child deadline |
| `Scheduler.ParallelCycle.MainLoop` | mooncen/run_crawlers.py:1790-1878 | Ends even when no child ever exits; without a window deadline it may wait for the window to open, and is followed until more than any given number of its own readings each came after an opening that the pass before waited for |
| `Scheduler.ParallelCycle.CleanUp` | mooncen/run_crawlers.py:1923-1941 | If it runs to its end no child runs, every record opened had exactly one closing call and every provider whose child was not finalised before has a report; even if it raises, no record had two |
| `Scheduler.ParallelCycle.Run` | mooncen/run_crawlers.py:1789-1943 | RunCycleParallel without the readings before the cycle |
| `Scheduler.ParallelCycle.Finish` | mooncen/run_crawlers.py:1880-1943 | From the end of the main loop on: complete and truthful, the reason of each stop included; it raises an error exactly if a call raised one, and cuts its clean-up short exactly if the clean-up raised a second one |
| `Scheduler.ParallelCycle.RunCycleParallel` | mooncen/run_crawlers.py:1763-1943 | For every order of exits, spawn failures, time-outs, window end, signal and raised errors: on return no child runs, every record opened had exactly one closing call and no other had one, and the result is one report per provider in the requested order, each true of the attempts, children, signals and times that the machine remembers; if it raises, a call raised, and if its clean-up ran no child and no open record is left. The first two readings of the wall clock are those that decide the window deadline, and all later ones are the passes: every child belongs to a pass inside the window; the end of the window is enforced unless it lies between the first two readings: nobody is stopped for it more than a second early, and no pass but the last begins after it, but for the time it took to set the deadline; otherwise nobody is started before the next opening and nobody is stopped for the end of the window. It ends, in that one case unless more than any given number of passes each missed an opening, which passes no further apart than the window is open never do |
| `Scheduler.ParallelCycle.TimelyPassesMissNothing` | mooncen/run_crawlers.py:1790-1878 | Passes that follow each other within the time the window is open miss no opening |
| `CycleBooks.StateOfTheCycle` | mooncen/run_crawlers.py:1784-1941 | In every state of the cycle each provider is in exactly one of queue, pool and reports, pool and metadata have the same keys, at most max_workers children run and all are the pool's, and no record had two closing calls |
| `CycleBooks.RefuseKeepsInv` | mooncen/run_crawlers.py:1803-1824 | A provider that could not be started keeps the invariant |
| `CycleBooks.AdmitKeepsInv` | mooncen/run_crawlers.py:1825-1838 | A provider whose child starts keeps the invariant |
| `CycleBooks.SettleKeepsInv` | mooncen/run_crawlers.py:1694-1760 | A child that is finalised keeps the invariant, whether it exited or was killed |
| `CycleBooks.SettleInterrupted` | mooncen/run_crawlers.py:1694-1760 | A child that is finalised by a call that raises leaves books that the clean-up can settle |
| `CycleBooks.CleanKeepsBooks` | mooncen/run_crawlers.py:1923-1941 | Finalising during clean-up keeps the books of the children that are still open, whether the report is stored or lost |
| `CycleBooks.SuccessIsDeserved` | mooncen/run_crawlers.py:1694-1760 | A true report is a success exactly if the child exited with 0 and left good evidence, its record was written, and it was neither late nor stopped |
| `CycleBooks.RefusalToDieKeepsBooks` | mooncen/run_crawlers.py:1656-1691 | A child that cannot be killed leaves the books as they are |
| `CycleBooks.EmptyBooks` | mooncen/run_crawlers.py:1923-1943 | When no child is open any more, everything is settled |
| `Windows.SecondsUntilActiveWindow` | mooncen/run_ai_pipeline.py:64-70 | Zero exactly inside the window; otherwise the whole seconds to the next start, rounded down, at least one |
| `Windows.SecondsUntilWindowEnd` | mooncen/run_crawlers.py:492-501 | None exactly outside the window; otherwise the whole seconds to the window's end, rounded down, at least one |
| `Windows.NextStartIsFirstActive` | mooncen/run_crawlers.py:483-489 | Outside a window, wrapping or not, no instant before the target is inside and the target is |
| `Windows.WindowEndIsFirstInactive` | mooncen/run_crawlers.py:492-501 | Inside a window every instant before the target is inside; the target is outside exactly when start and end differ |
| `Windows.SecondsUntilAiActiveSchedule` | mooncen/run_ai_pipeline.py:73-95 | Outside the schedule, 24-hour weekends included, the target is the first active instant and the result its distance in whole seconds; the candidate list is never empty |
| `Windows.EarliestIsFirst` | mooncen/run_ai_pipeline.py:73-95 | The earliest of the next start and the next Saturday is the first active instant |
| `Windows.SameOpening` | mooncen/run_crawlers.py:483-489 | Until the window opens every instant waits for the same opening |
| `Windows.MissIsLong` | mooncen/run_crawlers.py:475-489 | Two instants outside the window with an opening between them lie further apart than the window is open |
| `Windows.DeadlineIsSet` | mooncen/run_crawlers.py:1775-1783 | An enforced window is left without a deadline exactly when it was open at the first clock reading and closed at the second |
| `Windows.DeadlineIsEnd` | mooncen/run_crawlers.py:1775-1783 | A window that is closed at the first reading makes the deadline due at once; one that is open at both readings puts it as far ahead as its end lay at the second one, less than a second short, but at least one second ahead |
| `RowRuns.NormalizedAgeIsGood` | Crawler-legacy/Crawler_YamlSources.py:238-256 | Whatever the three texts hold, a crawler's age range is ordered, and marked explicit exactly when it has a bound |
| `RowRuns.AgeComesFrom` | Crawler-legacy/Crawler_YamlSources.py:238-256 | The bounds are those of the row's own text, else of the schedule, else of the course's text, at most exchanged; the exception for adults makes no difference |
| `RowRuns.SafeTitleExactly` | mooncen/run_ai_pipeline.py:486-600 | The title results that keep every ordered row ordered are exactly those with an ordered range that cannot be mixed with one of the row's bounds |
| `RowRuns.TitleRepairs` | mooncen/run_ai_pipeline.py:528-559 | A reversed stored range takes both bounds from the title result, so it is repaired exactly when that result is ordered |
| `RowRuns.AgeOverRuns` | mooncen/run_ai_pipeline.py:391-600 | Over every run of the five statements an ordered range stays ordered, and a reversed one is ordered after any title update |
| `RowRuns.ExplicitRangeSurvives` | mooncen/run_ai_pipeline.py:493-559 | A valid explicit crawler range keeps target, group and bounds through any number of title updates, marks, summaries and partial resets |
| `RowRuns.BackedOverRuns` | mooncen/run_ai_pipeline.py:431-648 | With title steps that are atomic, at all times the displayed title is derived from the current raw title, a processed title has a stored result about the current source, and a processed summary has all its parts |
| `RowRuns.InsertIsBacked` | Crawler-legacy/Crawler_YamlSources.py:335-362 | A first crawl starts a run that satisfies all of this |
| `RowRuns.SplitTitleStep` | mooncen/run_ai_pipeline.py:733-760 | When crawls come between reading a row and writing its title, the written title is backed exactly when the last of them carried the source that was read |
| `RowRuns.StaleTitleStays` | Crawler-legacy/Crawler_YamlSources.py:365-377 | A stale title is not repaired by crawling the same course again, however often |
| `RowRuns.UpsertTwice` | Crawler-legacy/Crawler_YamlSources.py:362-464 | The same upsert twice equals once, change timestamp included, except exactly when the row was AI-titled, the raw title is the same, the raw category is new and the crawler's title, prefix or target differs; then the AI title outlives the first upsert and falls to the second |
| `RowRuns.UpsertThrice` | Crawler-legacy/Crawler_YamlSources.py:362-464 | A third application never changes anything |
| `RowLaws.TitleAndSummaryCommute` | mooncen/run_ai_pipeline.py:486-648 | Title and summary updates commute, and so do the unchanged mark and the summary |
| `RowLaws.SummariesLast` | mooncen/run_ai_pipeline.py:486-648 | Over every run of title and summary steps, the row is the one in which all summaries were written after all titles |
| `RowLaws.TargetAfterTitle` | mooncen/run_ai_pipeline.py:493-502 | The target text is NULL exactly if it is cleared or blank on both sides; otherwise it is the result's, or the row's own, trimmed |
| `RowLaws.AgeAfterTitle` | mooncen/run_ai_pipeline.py:503-559 | The group is the result's or the row's, and the row's survives exactly if nothing better came; the bounds are the result's as a whole when the result has a target with bounds or the row's range is reversed, else they are cleared or taken one by one |
| `RowLaws.TagsAfterTitle` | mooncen/run_ai_pipeline.py:560-578 | Tags and parent flag are never NULL; the row's tags survive exactly if the result brings none that fit; the parent flag is lost only with the target text |
| `RowLaws.TitleTwice` | mooncen/run_ai_pipeline.py:486-600 | A title update is idempotent exactly unless it leaves a reversed range of its own, repairs a reversed range with bounds it was to clear, or keeps a group whose bounds it clears |
| `RowLaws.OnlyCrawlsChangeThem` | mooncen/run_ai_pipeline.py:391-648 | However long a run without crawls is, it leaves the columns that come from the crawler alone as they were |
| `RowLaws.ApplyDatesStay` | Crawler-legacy/Crawler_YamlSources.py:362-464 | Over every run, crawls included, the application dates stay those of the first crawl |
| `RowLaws.CrawlThenSummary` | Crawler-legacy/Crawler_YamlSources.py:413-442 | Crawl and summary commute exactly when the crawl does not call for a new summary |
| `RowLaws.ResetUndoesSummary` | mooncen/run_ai_pipeline.py:432-440 | A summary reset undoes any summary |
| `RowLaws.ResetUndoesTitle` | mooncen/run_ai_pipeline.py:441-463 | The fullest reset undoes a title update exactly when no other prefix was removed and there is a raw title to go back to or the title was the same |
| `RowLaws.ResetTwice` | mooncen/run_ai_pipeline.py:431-463 | Resetting twice is resetting once |
| `RowLaws.CrawlAfterReset` | Crawler-legacy/Crawler_YamlSources.py:407-412 | A crawl after a target reset restores what a first crawl stores, except exactly when it has no explicit age and carries "with parent" or tags |
| `RowLaws.UpsertTwiceDiffers` | Crawler-legacy/Crawler_YamlSources.py:362-464 | A run that reaches the exception of UpsertTwice: crawl, AI title, then the same crawl of another category twice |
| `RowLaws.PrefixOutlivesReset` | mooncen/run_ai_pipeline.py:441-463 | A run that reaches the exception of ResetUndoesTitle |
| `RowLaws.ParentIsLost` | Crawler-legacy/Crawler_YamlSources.py:407-412 | A run that reaches the exception of CrawlAfterReset |
| `CourseQueue.FilterIsNeed` | mooncen/run_ai_pipeline.py:229-239 | The WHERE clause of the fetch selects exactly the active rows for which course_needs_ai_work holds |
| `CourseQueue.PendingIsSelected` | mooncen/run_ai_pipeline.py:348-388 | A row is fetched exactly when it has a pending task |
| `CourseQueue.ProcessingShrinks` | mooncen/run_ai_pipeline.py:718-785 | Processing a row adds no pending task and takes away exactly the tasks whose analysis returned |
| `CourseQueue.AnsweredIsDone` | mooncen/run_ai_pipeline.py:718-785 | A row whose analyses returned is not fetched again |
| `CourseQueue.AnsweredTitle` | mooncen/run_ai_pipeline.py:733-760 | A needed title that was answered is stored with its flag and its result if it changes anything; if not, all title columns stay and the row remembers that; without an answer they stay as they were |
| `CourseQueue.AnsweredSummary` | mooncen/run_ai_pipeline.py:762-785 | A needed summary that was answered is stored with its flag; without one the row keeps what it had |
| `CourseQueue.WorkedIsSeen` | mooncen/run_ai_pipeline.py:731-785 | A course counts as worked exactly if the flag that was asked for last is now set |
| `CourseQueue.OnlyFailuresWait` | mooncen/run_ai_pipeline.py:762-785 | Exactly a course whose needed summary failed has to wait, until the time given; no other course is concerned |
| `CourseQueue.DrainStep` | mooncen/run_ai_pipeline.py:904-1015 | One processed course shrinks the set of selected courses by exactly that course |
| `CourseQueue.CourseTable.SaveCourse` | Crawler-legacy/Crawler_YamlSources.py:330-469 | Inserts a new course, updates a stored one by the conflict clause, leaves every other row alone, and saves nothing for an expired course |
| `CourseQueue.CourseTable.ResetAiProcessing` | mooncen/run_ai_pipeline.py:391-483 | Resets exactly the picked rows, or none on a dry run, and reports how many there are |
| `CourseQueue.CourseTable.FetchUnprocessed` | mooncen/run_ai_pipeline.py:348-388 | Distinct selected courses, at most limit of them, and all of them when there are fewer |
| `CourseQueue.CourseTable.ProcessCourse` | mooncen/run_ai_pipeline.py:673-785 | The row becomes what its analyses make of it unless the lock is taken or the row is in its retry window, missing, inactive or finished; the return value says whether the last analysis counted as work; only a failed summary starts a retry window |
| `CourseQueue.CourseTable.Drain` | mooncen/run_ai_pipeline.py:904-1015 | Worker cycles over an otherwise quiet table end with an empty queue; every course selected at the start was processed exactly once, from the row it had then, and no other row changed |
| `AiWorkers.MutualExclusion` | mooncen/run_ai_pipeline.py:242-254 | Two workers that are inside courses of the same lock hash, so in particular inside one course, are the same worker |
| `AiWorkers.StepKeepsLocks` | mooncen/run_ai_pipeline.py:242-254 | Every event, exceptions included, keeps the lock table equal to the workers' phases, so no lock is leaked |
| `AiWorkers.StepKeepsReadsOpen` | mooncen/run_ai_pipeline.py:673-785 | Every event keeps what a worker read as unprocessed unprocessed, until that worker writes |
| `AiWorkers.InitIsInv` | mooncen/run_ai_pipeline.py:673-715 | A table on which no worker is active is a state to start from |
| `AiWorkers.RunKeepsInv` | mooncen/run_ai_pipeline.py:673-785 | Both hold in every state of every run of any number of workers, crawlers, resets and deletions |
| `AiWorkers.WorkIsOpen` | mooncen/run_ai_pipeline.py:718-785 | A summary or title statement always meets a row whose flag is still false |
| `AiWorkers.CollisionOnlySkips` | mooncen/run_ai_pipeline.py:242-254 | A lock attempt is refused exactly when some worker is inside a course of the same hash, and then nothing changes |
| `AiWorkers.UndisturbedProcesses` | mooncen/run_ai_pipeline.py:673-785 | A worker that nobody disturbs leaves exactly the rows that processing the one course leaves, and its lock |
| `AiWorkers.RetiredIsLeftAlone` | mooncen/run_ai_pipeline.py:673-716 | A course that is retired between the lock and the fetch is left alone |
| `AiWorkers.DoneUntilReopened` | Crawler-legacy/Crawler_YamlSources.py:413-458 | Done work is undone exactly by a new source or description, a reset or a deletion |
| `AiWorkers.NoSummaryTwice` | mooncen/run_ai_pipeline.py:767-785 | Between two summaries of one course, by whichever workers, something asked for the second |
| `AiWorkers.NoTitleTwice` | mooncen/run_ai_pipeline.py:733-760 | Between two title updates of one course something asked for the second |
| `AiWorkers.WrittenTitleIsBacked` | mooncen/run_ai_pipeline.py:733-760 | A written title is backed exactly when the row still has the source that was read |
| `AiWorkers.StaleTitleRun` | mooncen/run_ai_pipeline.py:673-785 | One worker and two crawls suffice for a run that ends with a processed title of the previous raw title |
| `KeywordText.ContainsAroundWhite` | mooncen/service_group.py:248-249 | White space ends every occurrence of a keyword |
| `KeywordText.ContainsStripped` | mooncen/service_group.py:244-249 | Stripping a text cannot remove a keyword |
| `KeywordText.KeywordIsInOneField` | mooncen/service_group.py:248-249 | A keyword without white space is in the joined text, Python's or SQL's, exactly when it is in one of the fields |
| `KeywordText.TextsAgree` | mooncen/service_group.py:449-470 | Python's and SQL's joined texts contain the same keywords |
| `ServiceGroup.PythonAgreesWithSql` | mooncen/service_group.py:320-403 | When values have at most blanks at their ends, Python and SQL agree exactly when it is not an excluded programme explicitly called a public course without culture, exclusion or public-source evidence; then Python says public course and SQL says other |
| `ServiceGroup.PythonIgnoresEdges` | mooncen/service_group.py:244-245 | White space at the ends of any input makes no difference to the Python classifier |
| `ServiceGroup.PythonAgreesWithSqlOnStripped` | mooncen/service_group.py:563-638 | On all inputs Python's answer is SQL's answer to the stripped input, except for exactly that one kind |
| `ServiceGroupEdges.NoTrimCanBeDropped` | mooncen/service_group.py:244-245 | With the repository's tables, white space other than a blank before the value of any one of provider, collection, domain, source, programme and group, all others being trimmed alike, makes Python and SQL answer differently |
| `ServiceGroup.ResolveWithoutGroup` | mooncen/service_group.py:563-638 | Without a given group, resolving is inferring |
| `ServiceGroup.UntouchedGroupIsInferred` | mooncen/service_group.py:669-703 | An update of an unlocked row that leaves the group alone stores exactly the inferred group |
| `ServiceGroup.GivenGroupSurvives` | mooncen/service_group.py:669-703 | A group given on INSERT outlives a later update of any other columns exactly when the updated row is locked or the group is the one inferred for it |
| `ServiceGroup.InsertStoresPythonsGroup` | mooncen/service_group.py:669-703 | An unlocked INSERT stores what Python would answer, except for exactly that one kind |
| `ServiceGroupLaws.ClassifiesBySigns` | mooncen/service_group.py:320-408 | Each answer exactly, by what speaks for it field by field: culture wins; then an exclusion; then signs of an experience, except for lodging and room hire; then signs of a public course |
| `ServiceGroupLaws.LockKeepsGroup` | mooncen/service_group.py:669-700 | The trigger always stores one of the four groups and changes nothing else; a row whose policy is locked keeps the group it is given, if that is one; any other is resolved |
| `ServiceGroupLaws.StripCutsWhite` | mooncen/service_group.py:244-245 | Cleaning a value cuts off the white space at its ends, all of it and nothing else |
| `ServiceGroupLaws.WhiteIsListed` | mooncen/service_group.py:244-245 | White space is what Python strips, by code point |
| `ServiceGroupLaws.BtrimCutsBlanks` | mooncen/service_group.py:476-481 | The SQL function cuts off the blanks at the ends, all of them and nothing else |
| `ServiceGroupLaws.BlanksDoNotCount` | mooncen/service_group.py:275-276 | The compact form of a label is put together from the compact forms of its pieces |
| `ServiceGroupLaws.OneCharacter` | mooncen/service_group.py:275-276 | A blank is dropped and every other character kept |
| `ServiceGroupRules.TablesAreWellFormed` | mooncen/service_group.py:6-241 | The repository's keyword and alias tables meet what the agreement needs, for every case mapping that keeps white space and is idempotent |
| `ServiceGroupRules.LodgingCalledPublic` | mooncen/service_group.py:160-163 | With the repository's tables there is such a course: lodging that its crawler calls a public course |
| `SqlText.LexLiteral` | mooncen/service_group.py:406-408 | A rendered literal is read back as its value, whatever quotes, commas and brackets it holds |
| `SqlText.ArrayReadsBack` | mooncen/service_group.py:411-412 | Lexing the rendered array gives the opening, exactly the sorted values separated by commas, and the closing |
| `SqlText.ArrayIsInjective` | mooncen/service_group.py:411-412 | Two rendered arrays are the same text exactly when they hold the same values |
| `SqlText.SortIsCanonical` | mooncen/service_group.py:411-412 | The order in which a set is iterated makes no difference to the rendered text |
| `Targets.DedupeTargets` | Crawler-legacy/Crawler_GeneratedYamlTargets.py:349-362 | The loop selects what the greedy pass over the stably sorted targets selects |
| `Targets.PreferenceOrder` | Crawler-legacy/Crawler_GeneratedYamlTargets.py:338-346 | The preference key is a total preorder |
| `Targets.KeptExactly` | Crawler-legacy/Crawler_GeneratedYamlTargets.py:349-362 | A target is selected exactly when it shares no scope key with those selected before it |
| `Targets.KeptIsDisjoint` | Crawler-legacy/Crawler_GeneratedYamlTargets.py:349-362 | The selected targets have pairwise disjoint scope keys and come from the list |
| `Targets.KeptIsSorted` | Crawler-legacy/Crawler_GeneratedYamlTargets.py:349-362 | The selected targets keep the preference order |
| `Targets.DedupeIsMaximal` | Crawler-legacy/Crawler_GeneratedYamlTargets.py:349-362 | Every target is selected or shares a key with a selected one that precedes it in the stable preference order |
| `Targets.DedupeTwice` | Crawler-legacy/Crawler_GeneratedYamlTargets.py:349-362 | De-duplicating twice equals once |
| `Targets.BlankOwnerHidesNothing` | Crawler-legacy/Crawler_GeneratedYamlTargets.py:349-362 | For every list, whatever the names: the selected targets are pairwise disjoint exactly when none of them overlaps an earlier selected one with a blank provider |
| `Targets.BlankPair` | Crawler-legacy/Crawler_GeneratedYamlTargets.py:349-362 | Any overlapping pair that begins with a blank provider is such a list |
| `TargetRegistry.BuildRegistry` | Crawler-legacy/Crawler_GeneratedYamlTargets.py:442-517 | The loop yields one row per target, in order, as the registry function defines them |
| `TargetRegistry.RowIffNoReason` | Crawler-legacy/Crawler_GeneratedYamlTargets.py:458-467 | For a registry status a row is enabled exactly when it has no reason for being disabled |
| `TargetRegistry.EnabledRowsAreDisjoint` | Crawler-legacy/Crawler_GeneratedYamlTargets.py:442-517 | Enabled registry rows never share a scope key |
| `TargetRegistry.EnabledIffNoReason` | Crawler-legacy/Crawler_GeneratedYamlTargets.py:442-517 | A registry row is enabled exactly when no reason for disabling it is given |
| `TargetRegistry.RegistryIsGreedy` | Crawler-legacy/Crawler_GeneratedYamlTargets.py:442-517 | The targets of the enabled rows are, in order, the working ones among those that a greedy pass over all registry targets without a duplicate reason keeps |
| `TargetRegistry.EnabledAreSelected` | Crawler-legacy/Crawler_GeneratedYamlTargets.py:442-517 | When the working targets are named, whatever keys they have, the enabled rows name exactly the selected targets in the same order if and only if no row that does not work holds a key of a selected target after it |
| `TargetRegistry.NoOverlapNothingHidden` | Crawler-legacy/Crawler_GeneratedYamlTargets.py:442-517 | So they do whenever no registry target that neither works nor has a duplicate reason overlaps a working one |
| `TargetRegistry.Diagnosis` | Crawler-legacy/Crawler_GeneratedYamlTargets.py:442-517 | An enabled row that is not selected overlaps a preferred selected target whose own row is disabled because an earlier row, not selected either, holds one of its keys |
| `TargetRegistry.RootCause` | Crawler-legacy/Crawler_GeneratedYamlTargets.py:442-517 | At the root of this there is a row that does not work and holds a key of a selected target |
| `TargetRegistry.ChainOfFive` | Crawler-legacy/Crawler_GeneratedYamlTargets.py:442-517 | In a chain of five targets of which only the first does not work, the enabled rows are the third and the fifth and the selected targets the second and the fourth; so the row that stands in the way may itself be enabled |
| `TargetRegistry.ChainExists` | Crawler-legacy/Crawler_GeneratedYamlTargets.py:442-517 | Five such targets exist |
| `TargetRegistry.EnabledIsSelected` | Crawler-legacy/Crawler_GeneratedYamlTargets.py:442-517 | When every target has at most one scope key, each enabled row names a selected target, with blank names, too |
| `TargetRegistry.BlockedRowHidesAClaim` | Crawler-legacy/Crawler_GeneratedYamlTargets.py:442-517 | A blocked row hides a claim: for every three targets of the given shape only the last is enabled and only the middle one selected |
| `TargetRegistry.EnabledButNotSelected` | Crawler-legacy/Crawler_GeneratedYamlTargets.py:442-517 | Three such targets exist |
| `TargetLaws.OverlapIsCollision` | Crawler-legacy/Crawler_GeneratedYamlTargets.py:225-239 | Two targets overlap exactly if they name the same scope but for case, or name none and share a URL in normal form, or a URL of one poses as the scope of the other |
| `TargetLaws.ScopesAndUrlsAreApart` | Crawler-legacy/Crawler_GeneratedYamlTargets.py:225-239 | A target with a scope and one without never hide one another, unless a normalised URL begins like a scope |
| `TargetLaws.PreferredIsKey` | Crawler-legacy/Crawler_GeneratedYamlTargets.py:338-346 | The preference key orders by priority number, then by the position of the status in the list from ready to blocked, unknown ones last, then by source and provider in the order of code points |
| `TargetLaws.ReasonIsFirstMark` | Crawler-legacy/Crawler_GeneratedYamlTargets.py:241-253 | A target is marked as a duplicate exactly if one of its four marks is set, and the first of them is the reason |
| `TargetLaws.WhichTargetsCount` | Crawler-legacy/Crawler_GeneratedYamlTargets.py:297-327 | The registry lists named targets of the seven statuses; those of the first four that carry no mark and have no excluded URL are the working ones |
| `TargetLaws.SelectedAreApart` | Crawler-legacy/Crawler_GeneratedYamlTargets.py:349-362 | No two selected targets share a scope or, without one, a URL; and they stand in the order of preference |
| `TargetLaws.DroppedForBetter` | Crawler-legacy/Crawler_GeneratedYamlTargets.py:349-362 | A target that is not selected shares a scope or a URL with a selected one that is preferred to it |
| `TargetLaws.EnabledAreApart` | Crawler-legacy/Crawler_GeneratedYamlTargets.py:442-467 | No two enabled rows share a scope or, without one, a URL; and all rows stand in the order of preference |
| `TargetLaws.ReasonIsGiven` | Crawler-legacy/Crawler_GeneratedYamlTargets.py:442-475 | Every row says why it is disabled: its own duplicate mark, else the name of an earlier row it collides with that is no duplicate, else its status, else its URL; and if none of these applies it is enabled |
| `UsageCrawl.AddUnique` | Crawler-legacy/library_usage_info.py:315-325 | Adds at most one URL, never one whose compact form is taken, and never beyond the limit |
| `UsageCrawl.StartUrlCandidates` | Crawler-legacy/library_usage_info.py:605-615 | At most twenty seeds, no two alike, each a given URL or its site's root, and all of those unless the list is full; in the order of the given URLs |
| `UsageCrawl.DiscoverUsageLinks` | Crawler-legacy/library_usage_info.py:588-602 | The links followed from a page are the best twelve of its usable links, ranked by score, length and text |
| `UsageCrawl.UsableLinksAre` | Crawler-legacy/library_usage_info.py:588-602 | The usable links are distinct, on the page's site, with positive score, each with the score of its first usable occurrence, and all such links are among them |
| `UsageCrawl.DiscoveredAreBest` | Crawler-legacy/library_usage_info.py:588-602 | The links followed are distinct and on the page's site, at most twelve; no usable link left out has a higher score than one of them, or is shorter at the same score, or comes first by code point at the same length; and they stand in that order |
| `UsageCrawl.Enqueue` | Crawler-legacy/library_usage_info.py:657-660 | New links join the end of the queue in their order, each once, while there is room for forty URLs in all |
| `UsageCrawl.NeverTwice` | Crawler-legacy/library_usage_info.py:640-642 | No URL joins the queue twice, so the test for a visited one never skips any |
| `UsageCrawl.BestOfIsEarliest` | Crawler-legacy/library_usage_info.py:652-655 | What is kept is the earliest info of maximal positive score, or the empty one |
| `UsageCrawl.FetchLibraryUsageInfo` | Crawler-legacy/library_usage_info.py:624-663 | Terminates; the seeds are those of the given URLs; pages are visited in the order in which they joined the queue, each once, at most max_pages, with at most forty ever queued, all on a seed's site; the result is the earliest of maximal positive score among the pages examined or the empty one; it stops at the first complete result; unless it stopped there or at its limit, it visited everything queued and queued everything discovered |
| `RegistryArguments.ParseIsExact` | mooncen/run_crawlers.py:179-227 | An argument list reads as options and values in at most one way |
| `RegistryArguments.WhichOptionsCount` | mooncen/run_crawlers.py:179-213 | Three options stand alone; the value of another is at most 100 characters without control characters, does not begin like an option, and is a number within the bounds of one of the five numeric options |
| `RegistryArguments.ValidatedRegistryArguments` | mooncen/run_crawlers.py:179-227 | Accepts exactly the lists of 1 to 32 arguments that are distinct options within bounds, with saving enabled and a limit that agrees with partial saves and stale clean-up; and returns them unchanged |
| `RegistryArguments.ValueAfterOption` | mooncen/run_crawlers.py:220 | The argument behind the first occurrence of an option's name is that option's value |
| `ArgumentOverrides.ApplyOverrides` | mooncen/run_crawlers.py:984-1017 | The result is the command without controlled options, followed by the row's settings, or an error exactly when a controlled option has no value |
| `ArgumentOverrides.Replacements` | mooncen/run_crawlers.py:992-1001 | The replacements are the row's numeric options other than the limit, in order |
| `ArgumentOverrides.StrippedReads` | mooncen/run_crawlers.py:1004-1014 | A command that falls into kept arguments and controlled options with values keeps exactly the kept ones, in order |
| `ArgumentOverrides.OverriddenOnce` | mooncen/run_crawlers.py:984-1017 | Each controlled option occurs exactly once in the result, with the row's value behind it, after the command's own other arguments |
| `ArgumentOverrides.OverriddenTwice` | mooncen/run_crawlers.py:984-1017 | Overriding twice equals once |
| `ArgumentOverrides.RowSettings` | mooncen/run_crawlers.py:984-1001 | Every accepted row has settings for which this holds |
| `ArgumentOverrides.ProviderIsDropped` | mooncen/run_crawlers.py:984-1001 | A leading --provider is dropped from a row's arguments with its value, and nothing else is |
| `Ownership.ScheduledNames` | mooncen/run_crawlers.py:1070-1072 | Fails exactly when a name is blank or two are the same |
| `Ownership.NamesMatchPattern` | mooncen/run_crawlers.py:1078-1088 | A provider name is a capital letter followed by at most 49 capital letters, digits and underscores |
| `Ownership.AssignAll` | mooncen/run_crawlers.py:1078-1088 | Fails exactly when a name is invalid or already has another owner |
| `Ownership.BuildCourseProviderOwners` | mooncen/run_crawlers.py:1061-1118 | Succeeds exactly when names are valid, no provider has two owners and every scheduled crawler owns one; the map is then the ownership relation |
| `CycleOutcome.ReadManifest` | mooncen/run_crawlers.py:2555-2591 | All entries of a manifest, or nothing when one of them is invalid |
| `CycleOutcome.EvidenceBySight` | mooncen/run_crawlers.py:2592-2605 | The four tests of the code tell a manifest of exactly the owned providers, each once, from every other manifest |
| `CycleOutcome.BuildConcreteProviderResults` | mooncen/run_crawlers.py:2537-2611 | Updates each report in place as binding demands and returns all evidence ordered by owner and provider |
| `CycleOutcome.SuccessExactly` | mooncen/run_crawlers.py:3029-3145 | The exit code is 0 exactly when there were providers, every report is a success after binding, no concrete result failed, the batch finished and no maintenance failed |
| `CycleOutcome.OtherCodesExactly` | mooncen/run_crawlers.py:2614-2653 | The other exit codes exactly: 1 for batch or maintenance, 4 when nothing was persisted, 3 when something was and a report or concrete result failed or a report is missing |
| `CycleOutcome.SuccessIsComplete` | mooncen/run_crawlers.py:2537-2653 | After exit code 0 each aggregate's concrete results name exactly the providers it owns, each once, with all targets succeeded |
| `CycleOutcome.NoProviderTwice` | mooncen/run_crawlers.py:2537-2611 | No two aggregates vouch for the same provider |
| `CycleOutcome.EvidenceIsManifest` | mooncen/run_crawlers.py:2555-2605 | Evidence is the manifest entry by entry: who, of which owner, how it went, and the four counts |
| `CycleOutcome.WhichEntriesCount` | mooncen/run_crawlers.py:2556-2581 | An entry counts exactly if it has a valid name and four counts, at least one target, no more successes than targets, and as many if it claims success |
| `CycleOutcome.WithoutEvidence` | mooncen/run_crawlers.py:2537-2605 | A manifest that is no evidence contributes nothing, is forgotten, and takes the success away |
| `CrawlCycle.SuccessRanClean` | mooncen/run_crawlers.py:2614-2653 | When all went well, every provider's child exited with 0 without being signalled and the table holds its record as a success |
| `CrawlCycle.SuccessIsAllWell` | mooncen/run_crawlers.py:2537-2653 | The exit code is 0 exactly if there are providers, each one's child exited with 0 with good evidence and a written record and was neither late nor stopped, each aggregate's manifest names the providers it owns with a success for each, the batch was finished and no maintenance failed |
| `CrawlCycle.Conclude` | mooncen/run_crawlers.py:3029-3145 | The exit code of a cycle is that of its reports after binding, counting and classifying |
| `CrawlCycle.RunToExit` | mooncen/run_crawlers.py:3015-3145 | A cycle from its first process to its exit code: there is a code exactly if the cycle returns, it is that of the reports the cycle returned, and it is 0 exactly if all went well with every child, record, manifest, the batch and the maintenance; whatever the outcome, all that RunCycleParallel promises of it holds |
| `Ordering.SortCommutesWithFilter` | Crawler-legacy/Crawler_GeneratedYamlTargets.py:349-362 | Sorting is stable: it commutes with filtering |
| `Ordering.StringLeIsByCodePoint` | Crawler-legacy/Crawler_GeneratedYamlTargets.py:338-346 | Strings are in order exactly if one begins the other or has the smaller code point where they first differ |

## Left out

- The sequential mode of `run_cycle`: it runs one provider after the other and would add easier variants of the same facts.
- Real processes, signals, process groups, files and the database driver; they are the nondeterministic methods of `Host.Machine`.
- Errors raised while a report is built: they are assumed not to occur. A progress write, also that at the end of finalising a child, or the killing of a child may raise.
- Order among children: the dictionary of running children is visited in any order.
- Text and timestamps of reports: a report is its success flag and its kind of error.
- The adjustment of the wall clock: it runs with the monotonic clock, at a constant distance.
- Host.Machine.CloseRun: counts closing calls; a call that reports a failure may or may not have been written, as with the real table. What the table holds is `closedAs`.
- The loss of a database session while a worker goes on: the advisory lock is held until the worker lets go of it.
- CourseQueue.CourseTable.FetchUnprocessed: does not model the ORDER BY or the provider filter, because any order and any subset of rows is covered by the properties that use it.
- CourseQueue.CourseTable.ResetAiProcessing: does not model which rows the WHERE clause, the order and the LIMIT pick; the picked rows are a parameter.
- CourseQueue.CourseTable.Drain: is one worker on a quiet table; several workers at once are `AiWorkers`.
- The clearing of `removed_at`, `first_seen_at`, `last_seen_at` and `updated_at`: timestamps that no other statement reads; the ordering by `updated_at` is left open.
- The columns a crawl always overwrites (fees, course dates, schedule, status, URL, branch) are one value, `Details`, and the two application dates another.
- CourseQueue.CourseTable.SaveCourse: does not model the merge of rows by raw URL before an upsert (`coalesce_provider_course_id_by_raw_url`), because that module is not part of this model.
- The near-copies of the upsert in the Emart, Homeplus and Lotte crawlers.
- Retry windows among several workers: they are in `CourseTable.ProcessCourse`; in `AiWorkers` a skipped course is a worker that does nothing.
- Argument lists that are not lists of strings.
- Language models, prompts, title and target cleaning, and the regular expressions that find ages in texts: their results are parameters.
- KeywordText.KeywordIsInOneField: does not model case mapping beyond one character to one character, nor a difference between the mappings of the two languages.
- KeywordText.TextsAgree: likewise.
- Values that are not strings, in the classifier.
- The function bodies around the rendered arrays, in particular their dollar quoting.
- The metadata-only overloads of the SQL functions: they pass NULL for the missing arguments.
- Normalising names with strip and upper: provider names of reports and owners are taken as normalised, those of manifests go through a parameter.
- The messages of configuration errors: each is the same `Err`.
- `extra_statuses`, `select_targets` and the columns that `build_registry` copies from the target.
- URL parsing, fetching and extraction of the usage crawl: site, root, compact form, score and page are parameters; the bookkeeping lists of visited and candidate URLs in the result are the method's other results.
- Crawlers, scrapers, bots, packaging, configuration, PID files and the persistence of cycle evidence.
