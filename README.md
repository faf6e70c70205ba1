# Operator admin dashboard — a Dafny model

This project models the logic of the operator admin dashboard. The dashboard is a React
front end, plus an older vanilla-JavaScript page, used to track the regulatory submissions
that operators owe for each lease. The model covers:

- **Data** (`src/lib/data.ts`): the `Submission` record, the list filter (free-text search,
  status filter, report-type slug filter) and the status counts.
- **Table** (`src/components/SubmissionTable.tsx`): the table component's state (column
  filters, sort configuration, expanded operator groups, the submissions) and the pipeline
  that renders it: page filter, then column filter, then stable sort, then group by operator.
  It also covers the unique-values lists and the status and comment updates.
- **Legacy** (`script.js`): the older page's global state, its stat cards, its filter and its
  in-place sort. It also covers the status and comment handlers that mutate the selected
  record.
- **MockBackend** (`src/lib/mockBackend.ts`): the BPC refresh, which rewrites relationship and
  reviewer columns in place, and the shared future-task list.
- **NewEntry** (`src/components/NewEntryDialog.tsx`): the new-workflow form, with its
  report-type configurations, property selection, synchronised workflow tasks, and a submit
  that emits one entry per task.
- **EditStatus, AddComment, EditSubmission, FutureTasks**: the four smaller dialogs. Each has
  required-field guards, the callback call it makes, and its reset and cancel behaviour.

Helper modules:

- `Strings`: JavaScript's `trim`, `toLowerCase`, `includes`, `join`, `replace(/\s+/g, '-')`
  and string `<`.
- `Seqs`: order-keeping filters, subsequences, de-duplication, and the stable insertion sort.
  `Array.prototype.sort` is modelled by that sort; the two agree whenever the comparator is
  consistent (see "## Left out" for rows whose sort date is missing or does not parse).
- `ArraySort`: the same sort done in place on an array.
- `Optional`: `null`/`undefined` and JavaScript truthiness.
- `Statuses`: the six-value `Status` union.

Stateful components are classes whose fields are the component's state. Each handler is a
method whose postcondition gives the complete new state. Pure computations are functions,
and lemmas state the properties the code promises.

Effects outside the program are passed in as parameters:

- **Dates:** parsing with `new Date(...)` is a parameter `timestamp: string -> Option<int>`,
  where `None` stands for an invalid date (NaN). Date-fns formatting is a pair of parameters
  `formatDay` and `formatYear`.
- **Fresh ids and clock values:** `Date.now()` and `new Date().toISOString()` become method
  parameters (`freshId`, `now`).
- **Callbacks:** a dialog's callback (`onStatusUpdate`, `onCommentAdd`,
  `onSubmissionUpdate`, `onEntryCreate`) is modelled as the value its submit method returns.
  That value is the call made, or `None` when no call is made.

## Model

| member | source | states |
|---|---|---|
| Strings.TrimEmptyIffBlank | src/lib/data.ts:464 | `s.trim()` is empty exactly when every character of `s` is JavaScript white space |
| Strings.ContainsIff | src/lib/data.ts:481 | `includes` holds exactly when the needle occurs at some offset of the text |
| Strings.ToLowerIdempotent | src/lib/data.ts:465 | lower-casing twice is lower-casing once |
| Strings.HyphenateNoWhitespace | src/lib/data.ts:491 | after `replace(/\s+/g, '-')` no white space is left |
| Strings.SlugKeeps | src/lib/data.ts:491 | every non-white-space character of the report type survives the slug, lower-cased |
| Strings.SlugIdempotent | src/lib/data.ts:491 | the slug of a slug is the slug itself |
| Strings.LexLessTransitive | src/components/SubmissionTable.tsx:171-172 | string `<` is transitive |
| Strings.LexLessTotal | src/components/SubmissionTable.tsx:171-172 | of two different strings one is `<` the other |
| Strings.StringCompareAntisymmetric | src/components/SubmissionTable.tsx:70 | swapping the arguments of the default string order negates it; it is 0 only for equal strings |
| Strings.StringCompareTransitive | src/components/SubmissionTable.tsx:70 | the default string order is transitive on "not after" |
| Seqs.InsertionSortSorted | src/components/SubmissionTable.tsx:145-174 | the stable sort yields a list sorted by any comparator that is a total preorder on its elements |
| Seqs.InsertionSortOfSorted | src/components/SubmissionTable.tsx:145-174 | an already sorted list is left exactly as it was, which is stability for equal keys |
| Seqs.Insert | src/components/SubmissionTable.tsx:145-174 | inserting keeps the multiset and adds exactly the element |
| Seqs.DedupSpec | src/components/SubmissionTable.tsx:68 | `[...new Set(values)]` has no repeats and holds exactly the values |
| Seqs.DedupPrefix | src/components/SubmissionTable.tsx:68 | a `Set` keeps first-seen order: de-duplicating a prefix gives a prefix |
| Seqs.Without | src/components/NewEntryDialog.tsx:154-155 | `filter(p => p !== x)` keeps every element other than `x`, and only those |
| Seqs.WithoutIsSubsequence | src/components/NewEntryDialog.tsx:154-155 | that filter keeps the remaining elements in order |
| ArraySort.SortInPlace | script.js:206-220 | sorting the array in place leaves exactly the stable sort of its old contents |
| ArraySort.InsertInto | script.js:206-220 | one insertion step shifts the passed elements left by one and places the element after them; it touches nothing before index `i` |
| ArraySort.InsertAt | script.js:206-220 | the inserted element lands after exactly the elements it compares above |
| Statuses.AllStatusesComplete | src/components/StatusBadge.tsx:4 | the six listed statuses are all the statuses |
| Statuses.NameInjective | src/components/StatusBadge.tsx:4 | different statuses have different string values |
| Data.FilterSubmissions | src/lib/data.ts:452-497 | a record is kept exactly when it matches the search, status and report-type criteria |
| Data.FilterIsSubsequence | src/lib/data.ts:463 | the filter only drops records and keeps order |
| Data.FilterNoCriteria | src/lib/data.ts:461 | with every option absent (search "", filters "all") nothing is dropped |
| Data.BlankQueryExcludesNothing | src/lib/data.ts:464 | a search query of only white space is the same as no search |
| Data.SearchDependsOnLowerCasedQuery | src/lib/data.ts:465-481 | two queries with the same lower-cased form select the same records |
| Data.SearchCaseInsensitiveExample | src/lib/data.ts:465-481 | searching "metro" and "METRO" selects the same records |
| Data.SearchMatchIff | src/lib/data.ts:465-481 | a non-blank query keeps a record exactly when the lower-cased query occurs in the lower-cased, space-joined text of the eleven searched fields |
| Data.MissingCommentSearchedAsEmpty | src/lib/data.ts:477 | a missing comment is searched as "" |
| Data.StatusFilterExact | src/lib/data.ts:485-487 | a status filter other than "all" and "operators" keeps only records with that status |
| Data.ReportTypeFilterExact | src/lib/data.ts:490-493 | a report-type filter other than "all" keeps only records whose slug equals it |
| Data.SlugFilterNeedsCharacter | src/lib/data.ts:490-493 | a record whose report type has a non-space, non-capital character missing from the filter value is dropped |
| Data.DateRangeIgnored | src/lib/data.ts:461 | the date-range option never changes the result |
| Data.CountStatus | src/lib/data.ts:507-512 | a status count never exceeds the list length |
| Data.StatusCountsSum | src/lib/data.ts:507-512 | the six status counts add up to the list length |
| Data.CalculateStats | src/lib/data.ts:499-523 | `total` is the filtered length, the six buckets add up to it, and none exceeds it |
| Data.MatchesWithStatus | src/lib/data.ts:485-487 | filtering by a status's name keeps exactly the rows with that status |
| Data.CountFiltered | src/lib/data.ts:504-512 | counting a status in the filtered list equals the length of the list filtered with that status as the status filter |
| Data.BucketMatchesStatusFilter | src/lib/data.ts:499-523 | each stat bucket equals the number of rows the list shows when that status is the filter |
| Table.ColumnFilters.With | src/components/SubmissionTable.tsx:72-77 | updating one column filter sets it and leaves the other eight untouched |
| Table.AllFiltersAreAll | src/components/SubmissionTable.tsx:48-58 | the initial column filters are "all" for every column |
| Table.PassesColumnFiltersIff | src/components/SubmissionTable.tsx:131-144 | a row passes the nine checks exactly when every column is "all" or equal to the row's value |
| Table.ColumnStage | src/components/SubmissionTable.tsx:131-144 | the column stage keeps exactly the rows that pass every column filter |
| Table.ColumnStageIsSubsequence | src/components/SubmissionTable.tsx:131-144 | the column stage keeps order |
| Table.ColumnStageForcesEquality | src/components/SubmissionTable.tsx:131-144 | a kept row has exactly the value of every column filter that is not "all" |
| Table.ColumnStageCleared | src/components/SubmissionTable.tsx:79-91 | after clearing all filters the column stage drops nothing |
| Table.NextSort | src/components/SubmissionTable.tsx:93-98 | sorting by a key selects it, descending exactly when it was already selected ascending |
| Table.NextSortToggles | src/components/SubmissionTable.tsx:93-98 | a second click on the same key flips the direction; a click on another key resets to ascending |
| Table.CompareDescNegatesAsc | src/components/SubmissionTable.tsx:145-174 | every descending comparison is the negated ascending one |
| Table.SortWithoutKey | src/components/SubmissionTable.tsx:146 | with no sort key the order is unchanged |
| Table.CompareDates | src/components/SubmissionTable.tsx:152-158 | date keys compare by timestamp difference, and an invalid date compares as equal |
| Table.CompareDaysNumeric | src/components/SubmissionTable.tsx:161-165 | `daysUnderStatus` compares by numeric difference |
| Table.CompareTextLowerCased | src/components/SubmissionTable.tsx:168-173 | text keys compare by lower-cased string order, a missing comment as "undefined" |
| Table.CompareTotal | src/components/SubmissionTable.tsx:145-174 | of any two rows, one is not after the other |
| Table.CompareTransitive | src/components/SubmissionTable.tsx:145-174 | the comparator is transitive on rows whose sort dates parse |
| Table.ComparatorTotalPreorder | src/components/SubmissionTable.tsx:145-174 | the comparator is a total preorder on such rows |
| Table.SortRowsSpec | src/components/SubmissionTable.tsx:145-174 | the sorted rows are a permutation of the input, sorted by the comparator |
| Table.PipelineMembers | src/components/SubmissionTable.tsx:126-174 | a row is rendered exactly when it is a submission matching the page filters and every column filter |
| Table.ColumnStageOfFilterIsSubsequence | src/components/SubmissionTable.tsx:126-144 | both filter stages keep the submissions' order |
| Table.PipelineInitial | src/components/SubmissionTable.tsx:48-64 | in the initial state (no column filter, no sort key) the table shows exactly the filtered list |
| Table.ColumnValues | src/components/SubmissionTable.tsx:68 | one value per submission, the column's value |
| Table.NonBlank | src/components/SubmissionTable.tsx:69 | keeps exactly the values that are not blank after trimming |
| Table.NonBlankDistinct | src/components/SubmissionTable.tsx:68-69 | dropping blanks keeps the values distinct |
| Table.StringCompareTotalPreorder | src/components/SubmissionTable.tsx:69 | the default `sort()` order is a total preorder on strings |
| Table.UniqueValuesSorted | src/components/SubmissionTable.tsx:67-70 | the unique values are strictly increasing in string order, so they have no repeats |
| Table.UniqueValuesMembers | src/components/SubmissionTable.tsx:67-70 | a value is listed exactly when it is non-blank and some submission has it in that column |
| Table.OperatorsOf | src/components/SubmissionTable.tsx:178 | one operator per row |
| Table.RowsOfMembers | src/components/SubmissionTable.tsx:177-184 | an operator's group holds exactly that operator's rows |
| Table.RowsOfSnoc | src/components/SubmissionTable.tsx:181-182 | pushing a row extends only its own operator's group, at the end |
| Table.GroupKeysSnoc | src/components/SubmissionTable.tsx:179-181 | a row adds its operator to the keys exactly when the operator is new |
| Table.GroupedSnoc | src/components/SubmissionTable.tsx:178-183 | one step of the reduce (create the list on a new operator, then push) keeps the keys and lists equal to the grouping of the rows seen so far |
| Table.GroupByOperator | src/components/SubmissionTable.tsx:177-184 | the reduce yields the operators in first-seen order and, for each, its rows in rendered order |
| Table.GroupKeysSpec | src/components/SubmissionTable.tsx:177-184 | the group keys are distinct and are exactly the operators of the rows |
| Table.GroupKeysFirstSeen | src/components/SubmissionTable.tsx:179-181 | the keys of a prefix of the rows are a prefix of the keys |
| Table.RowsOfIsSubsequence | src/components/SubmissionTable.tsx:182 | each group keeps rendered order |
| Table.RowsOfAbsent | src/components/SubmissionTable.tsx:179 | an operator with no rows has an empty group |
| Table.GroupSizesSnoc | src/components/SubmissionTable.tsx:182 | a pushed row adds one to the total size of the groups it belongs to |
| Table.GroupSizesSum | src/components/SubmissionTable.tsx:177-184 | the groups together hold every rendered row exactly once |
| Table.AppendComment | src/components/SubmissionTable.tsx:233 | a truthy old comment is kept, followed by a blank line, and the new line ends the text; a missing or empty one is replaced by the new line |
| Table.AppendCommentCases | src/components/SubmissionTable.tsx:233 | the appended comment is the old text, "\n\n" and the new line, or just the line |
| Table.WithStatusChange | src/components/SubmissionTable.tsx:233 | the status becomes the new one, the note is appended, and no other field changes |
| Table.WithComment | src/components/SubmissionTable.tsx:243 | the `[type] comment` line is appended and no other field changes |
| Table.ApplyStatusUpdate | src/components/SubmissionTable.tsx:229-237 | exactly the records with the id are updated, the list keeps its length and order |
| Table.ApplyCommentAdd | src/components/SubmissionTable.tsx:239-247 | exactly the records with the id get the comment, the list keeps its length and order |
| Table.UpdateUnknownId | src/components/SubmissionTable.tsx:229-247 | an id that no record has changes nothing |
| Table.SubmissionTable.constructor | src/components/SubmissionTable.tsx:45-64 | the initial state: all column filters "all", no sort key, and every operator of the filtered rows expanded |
| Table.SubmissionTable.Groups | src/components/SubmissionTable.tsx:177-184 | the groups of the currently rendered rows |
| Table.SubmissionTable.UpdateColumnFilter | src/components/SubmissionTable.tsx:72-77 | one column filter takes the value, nothing else changes |
| Table.SubmissionTable.ClearAllFilters | src/components/SubmissionTable.tsx:79-91 | all column filters return to "all", nothing else changes |
| Table.SubmissionTable.HandleSort | src/components/SubmissionTable.tsx:93-98 | the sort configuration is `NextSort` of the old one, nothing else changes |
| Table.SubmissionTable.ToggleOperator | src/components/SubmissionTable.tsx:192-202 | the operator's expanded flag flips, and every other operator's flag is kept |
| Table.SubmissionTable.ExpandAllOperators | src/components/SubmissionTable.tsx:205-207 | every operator of the rendered rows is expanded, and only those |
| Table.SubmissionTable.CollapseAllOperators | src/components/SubmissionTable.tsx:209-211 | no operator stays expanded |
| Table.SubmissionTable.HandleStatusUpdate | src/components/SubmissionTable.tsx:229-237 | the submissions become `ApplyStatusUpdate` of the old ones |
| Table.SubmissionTable.HandleCommentAdd | src/components/SubmissionTable.tsx:239-247 | the submissions become `ApplyCommentAdd` of the old ones |
| Legacy.LegacyRecord.constructor | script.js:2-73 | a shared record object holding the given submission |
| Legacy.CountIn | script.js:160-171 | a count never exceeds the list length |
| Legacy.CountInUnion | script.js:160-171 | counting two disjoint status lists together adds their counts |
| Legacy.CalculateStats | script.js:160-171 | no stat-card count exceeds the number of submissions; an unknown card reads 0 |
| Legacy.StatsBuckets | script.js:160-171 | "all" counts every record, "open" is pending plus submitted plus in review, "compliant" equals "approved" and "rejected" equals "non-compliant" |
| Legacy.GetFilteredSubmissions | script.js:256-287 | a record is kept exactly when it passes the status switch and the report-type slug check |
| Legacy.FilteredIsSubsequence | script.js:256-287 | the filter keeps order |
| Legacy.FilteredCount | script.js:259-280 | for a status filter characterised by a status list, the row count is the count of those statuses |
| Legacy.UnhandledFilterKeepsAll | script.js:259-280 | a filter value the switch does not list keeps every record |
| Legacy.StatsMatchTable | script.js:160-171 | for every stat-card filter the number of rows shown equals that card's count |
| Legacy.NextLegacySort | script.js:181-187 | clicking a column selects it; the same column flips the direction, a new one resets it to ascending |
| Legacy.LegacyCompareDesc | script.js:216-218 | the descending comparison is the negated ascending one |
| Legacy.LessAsymmetric | script.js:216-218 | `<` never holds both ways |
| Legacy.NotLessTransitive | script.js:211-218 | "not before" is transitive for comparable values |
| Legacy.LegacyComparatorTotalPreorder | script.js:206-220 | the comparator is a total preorder on records whose sort values are comparable |
| Legacy.RenderedRowsSpec | script.js:201-220 | with a sort column, the rendered rows are a permutation of the filtered rows, sorted by the comparator |
| Legacy.FindById | script.js:361 | `find` returns a record with the id, or `null` exactly when none has it |
| Legacy.LegacyDashboard.constructor | script.js:75-79 | the initial globals: filter "all", no sort column, report type "all", range "month", nothing selected |
| Legacy.LegacyDashboard.HandleFilterChange | script.js:174-178 | the filter takes the value, the rest of the state is kept |
| Legacy.LegacyDashboard.SetReportTypeFilter | script.js:113-116 | the report-type filter takes the value, the rest of the state is kept |
| Legacy.LegacyDashboard.SetDateRangeFilter | script.js:117-121 | the date-range filter takes the value, the rest of the state is kept |
| Legacy.LegacyDashboard.HandleSort | script.js:181-187 | the sort becomes `NextLegacySort` of the old one |
| Legacy.LegacyDashboard.Select | script.js:360-362 | the selection is the record `find` returns |
| Legacy.LegacyDashboard.RenderRows | script.js:201-220 | the rows rendered are the filtered records, sorted in place when a sort column is set |
| Legacy.LegacyDashboard.HandleStatusUpdate | script.js:395-421 | see below: missing fields or no selection change nothing; otherwise the status is set and one "general" comment is pushed; an unlabelled status throws after the assignment; other records are untouched |
| Legacy.LegacyDashboard.HandleAddComment | script.js:424-441 | missing fields or no selection change nothing; otherwise exactly one comment with the given type and text is pushed, the status is kept, and other records are untouched |
| Legacy.LabelDefinedForStatuses | script.js:94-101 | a status has a label exactly when it is one of the six status values |
| MockBackend.ReviewerApproverMapping | src/lib/mockBackend.ts:21-26 | every mapped reviewer is a non-empty, so truthy, name |
| MockBackend.RefreshAll | src/lib/mockBackend.ts:55-56 | the refresh keeps the list length |
| MockBackend.RefreshKeeps | src/lib/mockBackend.ts:55-75 | only the four relationship columns and the reviewer can change; id, operator, report type and status are kept |
| MockBackend.RefreshRelationship | src/lib/mockBackend.ts:57-66 | the relationship columns become the operator's mapping, or stay as they were when it has none |
| MockBackend.RefreshReviewer | src/lib/mockBackend.ts:58-71 | the reviewer changes only for a mapped report type on a workflow that is neither approved nor non-compliant, and then becomes the mapped name |
| MockBackend.RefreshIdempotent | src/lib/mockBackend.ts:55-75 | refreshing a record twice is refreshing it once |
| MockBackend.RefreshAllIdempotent | src/lib/mockBackend.ts:55-75 | refreshing a list twice is refreshing it once |
| MockBackend.SimulateBPCRefresh | src/lib/mockBackend.ts:55-75 | every record of the array is replaced in place by its refresh, and the array's records are returned |
| MockBackend.WithId | src/lib/mockBackend.ts:148-151 | the new task has the given fields and the given id |
| MockBackend.TasksFor | src/lib/mockBackend.ts:156-158 | exactly the tasks of that submission |
| MockBackend.TasksForIsSubsequence | src/lib/mockBackend.ts:156-158 | in insertion order |
| MockBackend.TasksForAppend | src/lib/mockBackend.ts:152-157 | an appended task extends only its own submission's query, at the end |
| MockBackend.FutureTaskStore.constructor | src/lib/mockBackend.ts:145 | the task list starts empty |
| MockBackend.FutureTaskStore.AddFutureTask | src/lib/mockBackend.ts:147-154 | exactly one task, with the given fields and the fresh id, is appended and returned |
| MockBackend.FutureTaskStore.ForSubmission | src/lib/mockBackend.ts:156-158 | exactly the stored tasks of that submission, in insertion order |
| NewEntry.Lookup | src/components/NewEntryDialog.tsx:30-103 | a found configuration is in the table under the asked name; nothing is found exactly when no entry has that name |
| NewEntry.ConfigsWellFormed | src/components/NewEntryDialog.tsx:30-103 | every configuration offers the four report parties and its default frequency is one of its frequencies |
| NewEntry.ConfigFor | src/components/NewEntryDialog.tsx:30-103 | a configuration found for a report type is keyed by that name and is well formed |
| NewEntry.ConfigNamesComplete | src/components/NewEntryDialog.tsx:30-103 | the configured report types are exactly the twelve listed |
| NewEntry.DefaultTask | src/components/NewEntryDialog.tsx:170-177 | the default task has the first report party, the default frequency, "60" days, no due date and no notes |
| NewEntry.PropertyChange | src/components/NewEntryDialog.tsx:144-158 | checking "All" gives ["All"] and unchecking it gives []; checking another property drops "All" and appends it; unchecking removes it; "All" never joins another property |
| NewEntry.PropertyChangeKeepsOthers | src/components/NewEntryDialog.tsx:150-156 | the other choices are kept in order |
| NewEntry.TasksWithout | src/components/NewEntryDialog.tsx:186 | keeps exactly the tasks of other report types |
| NewEntry.ReportTypeChange | src/components/NewEntryDialog.tsx:160-188 | checking appends the type, and its default task when configured; unchecking removes the type and all its tasks; every task keeps a selected type |
| NewEntry.ReportTypeCheckAddsTask | src/components/NewEntryDialog.tsx:168-178 | checking a configured type appends exactly its default task |
| NewEntry.ReportTypeCheckUncheck | src/components/NewEntryDialog.tsx:160-188 | unchecking right after checking a new type restores form and tasks |
| NewEntry.WithoutSnoc | src/components/NewEntryDialog.tsx:182 | removing a type that was just appended removes the appended copy |
| NewEntry.UpdateWorkflowTask | src/components/NewEntryDialog.tsx:190-194 | only the task at the index is edited and the list keeps its length; an index outside the list changes nothing |
| NewEntry.UpdateKeepsReportTypes | src/components/NewEntryDialog.tsx:190-194 | editing never changes a task's report type, so tasks stay in step with the selection |
| NewEntry.ApplyEditTouchesOneField | src/components/NewEntryDialog.tsx:192 | an edit sets its own field and leaves the other fields, including the report type, unchanged |
| NewEntry.EntryForFields | src/components/NewEntryDialog.tsx:208-226 | an entry has the form's operator and lease, the task's type, party and frequency, status "submitted", 0 days, reviewer "Pending Assignment", joined properties, and the task notes or else the general notes |
| NewEntry.NewEntryDialog.constructor | src/components/NewEntryDialog.tsx:125-140 | empty form and no tasks |
| NewEntry.NewEntryDialog.SetText | src/components/NewEntryDialog.tsx:125-131 | the operator, lease and notes inputs set only those fields |
| NewEntry.NewEntryDialog.HandlePropertyChange | src/components/NewEntryDialog.tsx:144-158 | the selection becomes `PropertyChange` of the old one, and "All" stays exclusive |
| NewEntry.NewEntryDialog.HandleReportTypeChange | src/components/NewEntryDialog.tsx:160-188 | form and tasks become `ReportTypeChange` of the old ones, and stay in step |
| NewEntry.NewEntryDialog.UpdateTask | src/components/NewEntryDialog.tsx:190-194 | the tasks become `UpdateWorkflowTask` of the old ones |
| NewEntry.NewEntryDialog.HandleSubmit | src/components/NewEntryDialog.tsx:196-246 | a missing operator, lease or report type emits nothing and changes nothing; otherwise one entry per task, in task order, each for a selected type, then form and tasks are reset |
| EditStatus.StatusOptionsExact | src/components/EditStatusDialog.tsx:29-36 | the options list every status exactly once |
| EditStatus.CanSubmit | src/components/EditStatusDialog.tsx:39 | submit proceeds exactly when the id is truthy, a status is chosen and the reason is not blank |
| EditStatus.EditStatusDialog.constructor | src/components/EditStatusDialog.tsx:25-26 | no status chosen, empty reason |
| EditStatus.EditStatusDialog.PropsChanged | src/components/EditStatusDialog.tsx:18-26 | a new `submissionId` prop replaces the id and keeps the status and reason state |
| EditStatus.EditStatusDialog.SelectStatus | src/components/EditStatusDialog.tsx:25 | sets only the chosen status |
| EditStatus.EditStatusDialog.SetReason | src/components/EditStatusDialog.tsx:26 | sets only the reason |
| EditStatus.EditStatusDialog.HandleSubmit | src/components/EditStatusDialog.tsx:38-59 | calls `onStatusUpdate` once with the id, status and untrimmed reason exactly when the guard allows, then resets status and reason; otherwise changes nothing |
| EditStatus.EditStatusDialog.HandleCancel | src/components/EditStatusDialog.tsx:61-65 | status and reason return to "" |
| AddComment.DefaultIsOffered | src/components/AddCommentDialog.tsx:26-35 | the default type "general" is the first of the five options |
| AddComment.CanSubmit | src/components/AddCommentDialog.tsx:38 | submit proceeds exactly when the id is truthy and the comment is not blank |
| AddComment.AddCommentDialog.constructor | src/components/AddCommentDialog.tsx:25-26 | empty comment, type "general" |
| AddComment.AddCommentDialog.PropsChanged | src/components/AddCommentDialog.tsx:18-26 | a new `submissionId` prop replaces the id and keeps the comment and type state |
| AddComment.AddCommentDialog.SetComment | src/components/AddCommentDialog.tsx:25 | sets only the comment |
| AddComment.AddCommentDialog.SelectCommentType | src/components/AddCommentDialog.tsx:26 | sets only the type |
| AddComment.AddCommentDialog.HandleSubmit | src/components/AddCommentDialog.tsx:37-58 | calls `onCommentAdd` once with the id, the untrimmed comment and the current type exactly when the guard allows, then resets to "" and "general"; otherwise changes nothing |
| AddComment.AddCommentDialog.HandleCancel | src/components/AddCommentDialog.tsx:60-64 | comment "" and type "general" |
| EditSubmission.SetField | src/components/EditSubmissionDialog.tsx:78-80 | only the named field takes the value |
| EditSubmission.ApplyEditsKeepsOthers | src/components/EditSubmissionDialog.tsx:78-80 | after any run of input changes, the id and every non-editable field are those of the copied record |
| EditSubmission.CanSubmit | src/components/EditSubmissionDialog.tsx:86 | submit proceeds exactly when operator and lease name are not blank |
| EditSubmission.EditSubmissionDialog.constructor | src/components/EditSubmissionDialog.tsx:43-52 | the form starts as a copy of the submission (or null) |
| EditSubmission.EditSubmissionDialog.SubmissionChanged | src/components/EditSubmissionDialog.tsx:48-52 | a non-null submission is copied into the form; a null one leaves the form as it was |
| EditSubmission.EditSubmissionDialog.HandleInputChange | src/components/EditSubmissionDialog.tsx:78-80 | the form becomes `SetField` of the old form |
| EditSubmission.EditSubmissionDialog.SetApplyToFutureTasks | src/components/EditSubmissionDialog.tsx:44 | sets only the checkbox flag |
| EditSubmission.EditSubmissionDialog.HandleSubmit | src/components/EditSubmissionDialog.tsx:82-103 | passes the whole form exactly when it exists and passes validation, and its id is the shown submission's id |
| EditSubmission.EditSubmissionDialog.HandleCancel | src/components/EditSubmissionDialog.tsx:105-108 | the form returns to a copy of the submission |
| FutureTasks.CanAdd | src/components/FutureTasksDialog.tsx:41 | adding proceeds exactly when the id is truthy, task and assignee are not blank and a due date is given |
| FutureTasks.NewTaskFields | src/components/FutureTasksDialog.tsx:50-57 | the new task has status "pending" and the form's fields |
| FutureTasks.RemoveTask | src/components/FutureTasksDialog.tsx:74 | keeps exactly the tasks with another id |
| FutureTasks.RemoveTaskIsSubsequence | src/components/FutureTasksDialog.tsx:74 | in their order |
| FutureTasks.RemoveTaskAbsent | src/components/FutureTasksDialog.tsx:74 | an unknown id removes nothing |
| FutureTasks.FutureTasksDialog.constructor | src/components/FutureTasksDialog.tsx:23-38 | empty form; the list is the submission's stored tasks when open with an id, else empty |
| FutureTasks.FutureTasksDialog.PropsChanged | src/components/FutureTasksDialog.tsx:33-38 | opening with an id reloads the list from the store; otherwise the list is kept |
| FutureTasks.FutureTasksDialog.SetTaskForm | src/components/FutureTasksDialog.tsx:24-29 | sets only the form |
| FutureTasks.FutureTasksDialog.HandleAddTask | src/components/FutureTasksDialog.tsx:40-71 | rejects exactly when the guard fails, changing nothing; otherwise one task goes to the end of both the store and the list, and the form resets to priority "medium"; a list in step with the store stays in step |
| FutureTasks.FutureTasksDialog.HandleRemoveTask | src/components/FutureTasksDialog.tsx:73-79 | the list becomes `RemoveTask` of the old one, in order; the store is not touched |

`Legacy.LegacyDashboard.HandleStatusUpdate` in full:

- A missing status or reason gives `MissingFields`.
- With both present but nothing selected, the result is `NoSelection`.
- In both of those cases the record is unchanged.
- Otherwise the status is assigned. For a status with a label, exactly one comment
  `{freshId, "general", "Status changed to <label>. Reason: <reason>", now}` is pushed at the
  end.
- For an unlabelled status the comment text cannot be built: the result is `Threw`, with the
  status already assigned and no comment pushed.

## Left out

- Lower-casing: `toLowerCase` is modelled on ASCII letters only; other Unicode case mappings
  are not. Strings are sequences of characters, with no UTF-16 surrogate pairs.
- Dates: parsing and formatting are parameters. `formatDate`, `getDaysOverdue`,
  `formatDateTime`, `checkReminders` and the reminder timer depend on the wall clock and are
  not modelled.
- Fresh ids: `Date.now()` ids are parameters. Nothing makes them unique, and neither does the
  source.
- JSX rendering, Bootstrap modals, `innerHTML`, toasts and `showAlert` are presentation.
  Opening and closing dialogs (`onOpenChange`) is not modelled.
- React hooks: `useState` batching and `useEffect` scheduling are not modelled. An effect is
  a method the caller invokes after a prop changes.
- Prototype-name lookups (`groups["constructor"]`, `statusConfig["toString"]`,
  `relationshipMappings["__proto__"]`) are not modelled; the lookups are modelled as plain
  dictionaries.
- `Object.keys` order: integer-like keys come first in `Object.keys`, which is not
  modelled. `Table.GroupByOperator` and `ExpandAllOperators` use first-seen order.
- Legacy.Less: `<` between a number and `null`, and sorting by the `comments` array column,
  are not modelled. Such columns compare as equal.
- Seqs.InsertionSortOfSorted: stability is stated as "a sorted input is returned unchanged".
  The general statement that equal keys keep their input order is not proved.
- Table.SubmissionTable.UpdateColumnFilter takes a `Column` value, so a column name outside
  the nine filters (which the source would add as a new key) cannot be passed. Such a key
  never affects filtering.
- MockBackend.SimulateBPCRefresh works on an array of record values. References to the same
  objects held elsewhere (the source mutates shared objects) are not modelled.
- Table.SortRows, Legacy.RenderedRows and ArraySort.SortInPlace: when a date column is the
  sort key and a row's date is absent or does not parse (a new entry's empty due date, a
  missing received date), the comparator returns 0 against every row and is not a
  consistent comparator. `Array.prototype.sort` then leaves the order to the engine; the
  model fixes the stable insertion-sort order, so `Table.SubmissionTable.Rows`, `Groups` and
  `Legacy.LegacyDashboard.RenderRows` state one order among those an engine may produce.
- `daysUnderStatus` is a JavaScript number modelled as an unbounded integer. Every
  producer in the source writes an integer (the seed data, and the 0 a new entry starts
  with), so NaN, infinities and fractions are not modelled.
- `mockData`, `mockArchivedWorkflows`, `mockReminders` and the static seed data of
  `script.js` are not modelled. The lemmas hold for every list.
- `DashboardStats.tsx`, `FilterPanel.tsx`, `StatusBadge.tsx` apart from the `Status` type,
  and the other display components are not part of this model.
- `Legacy.LegacyDashboard.RenderRows` does not model the table HTML it emits; it models only
  the rows, in order.
