# Case lifecycle of the Judiciary docket bot, in Dafny

This project models the case-lifecycle core of a Discord bot that keeps a court docket in a
Google Sheet, and proves properties of that model.

- **Submission and review.** A filing posted in the submission channel is classified (case type
  and name) and shown to reviewers, who accept, deny or edit it.
- **Judge assignment.** An accepted filing is appended to the "Pending Cases" region, the case
  counter advances, and a judge is proposed. The judge accepts, which writes the judge and the
  status to the row, or denies, which proposes again.
- **The update dialog.** Docketed cases are managed from this dialog: edit, reassign, toggle the
  trial stage, finish into a criminal or civil case log, delete, close.

The sheet is an in-memory value. The `CaseStore.Spreadsheet` class holds:

- the rows of the pending region;
- the two counter cells;
- the two case logs;
- the judge rows;
- an optional store fault, under which every API call raises with that text.

The modules are:

| file | module | models |
|---|---|---|
| `text.dfy` | `Text` | Python string operations the code relies on: `strip` with Python's whitespace set, ASCII `lower`/`upper`, `split(c, 1)`, `rfind`, `lstrip(c)`, `replace(c, "")`, decimal digits |
| `cells.dfy` | `Cells` | the pure parts of `services/google_requests.py`: HYPERLINK formulas, `_extract_url`, the label pattern, `_normalize`, `_normalize_range_ref`, the counter patterns and the criminal pattern, written as explicit string predicates |
| `case_store.dfy` | `CaseStore` | the store functions of `services/google_requests.py` as methods of `Spreadsheet`, their scan loops as methods proved against specification functions, and the lemmas on what an edit, a deletion, an append or a finish leaves behind |
| `docket_entry.dfy` | `DocketEntry` | `commands/docket_entry.py`: the listener's decisions, the manual add, the `Review` class (Accept/Deny/Edit), and the `Assignment` class (the judge's Accept/Deny) with `assign_case` |
| `update.dfy` | `Disposition` | `commands/update.py`: the gates, the toggle rules, the edit diff, the refresh merge, the pickers and endings, and the `ActionView` class holding the dialog's case and action log |
| `ai_requests.dfy` | `Classifier` | `services/ai_requests.py`: `clean_triple_backticks`, the checks and prompt of `get_case_type`, and its `key: value` fallback parser as a loop |

How the sheet API is modelled:

- **Reads.** Like the Sheets API, a read drops the trailing empty cells of each row and the
  trailing empty rows. `CaseStore.View` models this.
- **Render options.** A formula read (`valueRenderOption="FORMULA"`) returns cells verbatim. A
  default read shows a HYPERLINK formula as its caption; other formulas are not evaluated.
- **Writes.** `values.append` places the row after the last non-blank row of the region.

Points where the code behaves otherwise than its names or comments suggest; the model follows
the code:

- **Empty reviewer list.** The reviewer gate of the update dialog admits nobody when the list is
  empty, while the review of new filings admits everyone (`Disposition.EmptyReviewersDisagree`).
- **Write-back of `edit_docket`.** It writes back the row as displayed, not the stored cells. So a
  link formula the changes do not name becomes the plain caption "Link"
  (`CaseStore.EditDropsLink`).
- **Counter format.** `increment_available_case_number` writes the bare zero-padded number, with
  no prefix.
- **`finish_case` and its deletion.** `finish_case` reports success after the log write whatever
  `delete_case_row` replies.
- **Position of the log row.** The row goes at the start row plus the number of rows read from
  the log's first column, which is not the first empty row when that column has gaps.

## Model

| member | source | states |
|---|---|---|
| Cells.ExtractUrl | services/google_requests.py:496-522 | the cell's URL is only ever an http(s) URL, and a blank cell has none |
| Cells.ExtractLinkFormula | services/google_requests.py:505-509 | the filing-link formula the bot writes reads back as its URL, both through `_extract_url` and through get_all_cases's link pattern |
| Cells.VisibleLabel | services/google_requests.py:562-567 | the lookup compares the caption of a HYPERLINK formula, not the formula text |
| Cells.VisibleTextPlain | services/google_requests.py:562-563 | a number cell without a formula is compared as it stands |
| Cells.Collapse | services/google_requests.py:529 | every whitespace run becomes one space; the result is empty exactly when the input is, and keeps whether it starts or ends with whitespace |
| Cells.NormalizeIsNormal | services/google_requests.py:524-531 | the lookup key has no zero-width space, single inner spaces, nothing at either end and no ASCII capital |
| Cells.NormalizeIdempotent | services/google_requests.py:524-531 | normalising a normalised key changes nothing |
| Cells.DoubledSpaceKeys | services/google_requests.py:218-226 | a doubled inner space is ignored by the lookup key but not by the strip-and-lower key of edit_docket and delete_case_row |
| Cells.NormalizeRangeRef | services/google_requests.py:57-63 | no reference for a missing or empty one; `Tab:Cell` becomes `Tab!Cell` at the first colon; a reference with `!` or without `:` is kept |
| Cells.NormalizeRangeRefIdempotent | services/google_requests.py:57-63 | normalising a reference twice is normalising it once |
| Cells.ParseCounter | services/google_requests.py:351-357 | a parsed counter is the value of the trailing digits of the text |
| Cells.FirstDigitRun | services/google_requests.py:313-314 | the run found is non-empty and all digits, and there is none exactly when the cell has no digit |
| Cells.Pad3 | services/google_requests.py:374-377 | the written counter has at least three digits and denotes the new number |
| Cells.ParseAvailableNumber | services/google_requests.py:344-357 | the number get_available_case_number reports is parsed back by the increment as the value of the cell's first digit run |
| Cells.CounterRoundTrip | services/google_requests.py:361-377 | a counter written by the increment is reported as `prefix + " " + digits` and parsed back as the same number |
| Cells.CrimNumbersAreCriminal | services/google_requests.py:799 | numbers minted with the "Crim" prefix go to the criminal case log |
| Cells.CivNumbersAreCivil | services/google_requests.py:799 | numbers minted with the "Civ" prefix go to the civil case log |
| Cells.CriminalExamples | services/google_requests.py:799 | the criminal test ignores case and needs a word boundary ("CRIMINAL 7" is criminal, "Crime 7" is not) |
| CaseStore.View | services/google_requests.py:209-214 | a read returns one row per position up to the last non-blank row, each clipped to the columns read |
| CaseStore.ViewAfterAppend | services/google_requests.py:172-177 | after an append, the next read returns the earlier rows followed by the new one |
| CaseStore.PutRow | services/google_requests.py:874-881 | a write at row `k` changes row `k` and no other |
| CaseStore.RemoveRow | services/google_requests.py:721-737 | a row deletion removes exactly the one row and moves the rows below it up by one |
| CaseStore.FirstHit | services/google_requests.py:218-226 | the row a scan stops at matches, and no earlier row matches; no row is found exactly when none matches |
| CaseStore.FindRow | services/google_requests.py:218-226 | the enumerate loop that breaks at the first match returns that first match |
| CaseStore.LookupAmong | services/google_requests.py:547-588 | the lookup finds a row exactly when some row matches, reports that row's fields, and reports an empty read as "Sheet is empty or no values returned." |
| CaseStore.LookupRows | services/google_requests.py:556-588 | the scan loop of get_case_info_from_number computes that lookup |
| CaseStore.AppendThenLookup | services/google_requests.py:570-586 | a case appended by add_to_docket is found by its own number, on the row after the last, with the fields it was written with and its link read back out of the formula |
| CaseStore.ColumnOf | services/google_requests.py:199-206 | only the six known keys name a column, each one of A to F |
| CaseStore.Overlay | services/google_requests.py:241-250 | the write-back exists exactly when every named column is in the row read, and has the row's width |
| CaseStore.OverlayCells | services/google_requests.py:244-250 | each named cell holds the encoded last value given for its key, and every other cell is the one read |
| CaseStore.ApplyChanges | services/google_requests.py:241-250 | the loop that copies the row and overwrites it cell by cell computes that overlay |
| CaseStore.LastValueSnoc | services/google_requests.py:244 | one more change decides the column its lower-cased key names, and no other |
| CaseStore.UnknownKeysIgnored | services/google_requests.py:245-246 | a change under an unknown key leaves the write-back unchanged |
| CaseStore.EditRows | services/google_requests.py:218-258 | edit_docket's scan, overlay and write, given what its read returned |
| CaseStore.EditSucceedsWhenFits | services/google_requests.py:228-258 | an edit succeeds exactly when a row matches and every named column is in the row read; a failed edit changes nothing |
| CaseStore.EditChangesOneRow | services/google_requests.py:241-258 | an edit changes only the matched row: its named cells get their encoded values, the other cells read are kept as read, and the cells further right are untouched |
| CaseStore.EditDropsLink | services/google_requests.py:241-250 | an edit that does not name the link replaces the row's link formula by the caption "Link", so the row has no link afterwards |
| CaseStore.EditKeepsGivenLink | services/google_requests.py:247-248 | an edit that names the link writes the formula again, and the row keeps its link |
| CaseStore.DeleteRows | services/google_requests.py:687-737 | delete_case_row's scan and deletion, given what its read returned |
| CaseStore.DeleteOutcome | services/google_requests.py:701-737 | a deletion succeeds exactly when a row matches and the pending tab exists; it then removes exactly that row, and otherwise nothing changes |
| CaseStore.DeleteRemovesMatch | services/google_requests.py:687-737 | when at most one row matches by name and number, after a successful deletion no row matches, and the region has one row fewer |
| CaseStore.ViewAfterRemove | services/google_requests.py:721-737 | after a deletion the read returns the other rows, in their order |
| CaseStore.ListCases | services/google_requests.py:621-645 | get_all_cases's loop builds one case per row read, numbered from the data start row |
| CaseStore.ValidJudges | services/google_requests.py:926-939 | every judge kept is valid and is the judge of some row read, and every valid row's judge is kept |
| CaseStore.ValidJudgesAppend | services/google_requests.py:926-939 | the valid judges of two row ranges are those of the first followed by those of the second, so the rows' order is kept |
| CaseStore.ValidJudgesOne | services/google_requests.py:933-939 | a single row gives its judge exactly when the judge's status is valid |
| CaseStore.FilterJudges | services/google_requests.py:926-939 | the judge loop computes that filter |
| CaseStore.JudgeIds | services/google_requests.py:954 | the saved ids are exactly the non-empty Discord ids of the judges kept |
| CaseStore.CounterKind | services/google_requests.py:278-283 | a known case type maps to ("Crim", criminal) or ("Civ", civil) |
| CaseStore.PendingLayout | services/google_requests.py:32-48 | the pending range gives a tab and a start row exactly when it holds a `!` |
| CaseStore.CounterRef | services/google_requests.py:293 | a configured counter reference is used when set, else the fixed fallback cell |
| CaseStore.MakeConfig | services/google_requests.py:29-54 | the module constants come from the configured pending range and references |
| CaseStore.ReadCell | services/google_requests.py:294-297 | reading a counter cell succeeds exactly when the cell exists and is not empty |
| CaseStore.Available | services/google_requests.py:269-315 | an unknown case type raises "Invalid case type..." inside the common error prefix, and a result needs a reachable store and a known type |
| CaseStore.NextCounter | services/google_requests.py:320-377 | the increment writes the counter cell of its case type, and writes at least three digits |
| CaseStore.IncrementReadsDigits | services/google_requests.py:344-361 | the increment writes one more than the counter cell's first digit run, zero-padded |
| CaseStore.IncrementAdvances | services/google_requests.py:361-396 | a counter in the bot's own format advances by exactly one, and the next request reports the new number |
| CaseStore.IncrementNeedsDigits | services/google_requests.py:351-353 | a counter without digits raises before anything is written |
| CaseStore.Or | services/google_requests.py:786-792 | `a or b` picks the first value unless it is missing or empty |
| CaseStore.LogRangeError | services/google_requests.py:802-856 | a finish goes ahead only with a configured log range holding a `!`; a missing range gives the "not configured" error |
| CaseStore.PlanRow | services/google_requests.py:784-838 | the log row has six cells, with the number second and the verdict date fifth, and its name comes from the lookup first |
| CaseStore.FinishPlan | services/google_requests.py:776-856 | a blank case number fails; otherwise the plan carries the stripped number, goes to the criminal log exactly when the criminal pattern matches, and needs a valid log range |
| CaseStore.FinishEnding | services/google_requests.py:780-821 | the log row shows the ending given, or "Other", as text or as the caption of the ending link |
| CaseStore.EndingShown | services/google_requests.py:818-821 | an ending cell shows its ending whether or not a link wraps it |
| CaseStore.Spreadsheet.constructor | services/google_requests.py:29-54 | the store starts with the given configuration, regions, counters and fault |
| CaseStore.Spreadsheet.AddToDocket | services/google_requests.py:132-182 | the six-cell row judge, status, name, number, date, link formula goes after the last pending row; a fault changes nothing and reports "Error adding to docket: ..." |
| CaseStore.Spreadsheet.EditDocket | services/google_requests.py:187-263 | the pending rows and the reply are those of the edit; a fault changes nothing |
| CaseStore.Spreadsheet.GetCaseInfoFromNumber | services/google_requests.py:479-591 | the reply is the lookup over the current rows, read with formulas |
| CaseStore.Spreadsheet.GetAllCases | services/google_requests.py:597-650 | one case per row read, with its sheet row number; an empty sheet is a success; a fault gives "Error retrieving cases: ..." |
| CaseStore.Spreadsheet.DeleteCaseRow | services/google_requests.py:656-742 | the pending rows and reply are those of the deletion; a fault changes nothing |
| CaseStore.Spreadsheet.AvailableCaseNumber | services/google_requests.py:269-315 | the reply is `Available` of the current counters |
| CaseStore.Spreadsheet.IncrementAvailableCaseNumber | services/google_requests.py:320-399 | on success only the case type's counter cell changes, to the next number; on an error nothing is written |
| CaseStore.Spreadsheet.FinishCase | services/google_requests.py:749-892 | the plan is made from the lookup in the state before the call, and the logs and pending rows change as the plan says |
| CaseStore.Spreadsheet.FinishWith | services/google_requests.py:774-892 | a failed plan or a fault writes nothing; a good plan is logged and its pending row deleted |
| CaseStore.Spreadsheet.LogAndRemove | services/google_requests.py:859-889 | the row is written to its own log only, the pending row is deleted, and success is reported whatever the deletion replied |
| CaseStore.Spreadsheet.WriteLog | services/google_requests.py:859-881 | the row goes at the start of the log plus the rows read from its first column, and the other log is untouched |
| CaseStore.Spreadsheet.GetJudges | services/google_requests.py:895-963 | the valid judges of the rows read from `Data!A3:K` and their non-empty ids; a fault gives "Error retrieving judges: ..." |
| DocketEntry.ReviewerAllowed | commands/docket_entry.py:270-272 | with no reviewer ids configured everyone passes, otherwise exactly the configured ids |
| DocketEntry.CaseInfoFor | commands/docket_entry.py:197-215 | testing mode never yields a failed draft, and a raised fetch yields the failure dict |
| DocketEntry.OnMessageAsWritten | commands/docket_entry.py:182-234 | the listener raises exactly when a linked submission's case type is None |
| DocketEntry.OnMessage | commands/docket_entry.py:182-234 | messages from the bot or another channel are ignored, link-less ones dropped, SC petitions only acknowledged, and every other submission is reviewed under its first link |
| DocketEntry.OnMessageAgrees | commands/docket_entry.py:218 | where the case type is not None, the listener as written and the corrected one agree |
| DocketEntry.FetchFailureCrashes | commands/docket_entry.py:218 | a document that cannot be fetched makes the listener as written raise |
| DocketEntry.FetchFailureReviewed | commands/docket_entry.py:218-234 | the corrected listener reviews that submission as one whose details are unknown |
| DocketEntry.ManualAdd | commands/docket_entry.py:413-449 | a review is posted exactly in the review channel, for an allowed user, for a Google Docs link whose details were extracted |
| DocketEntry.BannerShowsState | commands/docket_entry.py:66-72 | the title of the review tells open, accepted and denied apart, and an open review whether it was edited |
| DocketEntry.HandOff | commands/docket_entry.py:335-341 | the case handed to assignment shows the stage "Pre-Trial", and its link is the filing link when there is one |
| DocketEntry.Stage | commands/docket_entry.py:537-540 | "PT Not assigned" is shown as "Pre-Trial", another status as itself, a missing one as "N/A" |
| DocketEntry.KnownLink | commands/docket_entry.py:593-595 | the link restated is the filing link, else the lookup's link, when one of them is truthy |
| DocketEntry.Advanced | commands/docket_entry.py:329-332 | the counter advance keeps every counter cell, and a None case type changes nothing |
| DocketEntry.AdvanceCounter | commands/docket_entry.py:329-332 | the counters after the advance are `Advanced` of the counters before it |
| DocketEntry.JudgeChangesColumns | commands/docket_entry.py:588-595 | the judge's Accept writes column A to the judge's name, column B to "In Pre-Trial", column F to the known link, and nothing else |
| DocketEntry.JudgeEditRewrites | commands/docket_entry.py:583-599 | the judge's edit of a case just added turns the appended row into the assigned record's row, and succeeds |
| DocketEntry.AcceptedCaseListed | commands/docket_entry.py:282-301 | an accepted case is found by its number with status "PT Not assigned", judge "NA", the review's date and its link |
| DocketEntry.AssignedCaseListed | commands/docket_entry.py:588-604 | once the judge accepted, the case is found with the judge's name, "In Pre-Trial" and its link still in place |
| DocketEntry.Review.constructor | commands/docket_entry.py:237-265 | a posted review is open and unedited, over the given draft and links |
| DocketEntry.Review.Accept | commands/docket_entry.py:268-362 | refusals and a failed add write nothing; a successful add appends the accepted record, advances the counter, closes the review as accepted and hands a fresh proposal to assignment |
| DocketEntry.Review.Deny | commands/docket_entry.py:364-385 | an allowed user closes the review as denied; anyone else changes nothing |
| DocketEntry.Review.Edit | commands/docket_entry.py:128-151 | an allowed user replaces only the draft's name and number with the trimmed inputs and marks the review edited |
| DocketEntry.Reread | commands/docket_entry.py:637-641 | the case is read again only when a dialog asked to be refreshed |
| DocketEntry.Assignment.constructor | commands/docket_entry.py:488-552 | a proposal names the judge get_free_judge picks, with the given denied list |
| DocketEntry.Assignment.Accept | commands/docket_entry.py:555-667 | only the proposed judge may accept; the row gets the judge's name, "In Pre-Trial" and the known link, and a failed update leaves the proposal open |
| DocketEntry.Assignment.Deny | commands/docket_entry.py:670-711 | only the proposed judge may deny; the judge joins the denied list, the same judge is proposed again, and the dialog refresh is dropped |
| DocketEntry.AssignCase | commands/docket_entry.py:488-552 | the proposal uses the case handed in, or else the one read by number |
| Disposition.ActionGate | commands/update.py:266-272 | the initiator is checked first, then membership of the reviewer ids; an empty list admits nobody |
| Disposition.EmptyReviewersDisagree | commands/update.py:270 | with no reviewer ids the review admits everyone while the update dialog refuses its own initiator |
| Disposition.ToggleShownIff | commands/update.py:178-179 | the toggle is shown exactly when the lower-cased status contains "pt" or "trial" |
| Disposition.ToggleLabelNamesTarget | commands/update.py:180-187 | the toggle's label names the stage it moves to |
| Disposition.ToggleAlternates | commands/update.py:342-349 | the toggle alternates between the two stages, and its result offers the toggle again |
| Disposition.ToggleColumns | commands/update.py:342-351 | the toggle as written names only the status column; with the link restated it also names the link column |
| Disposition.ToggleAsWrittenDropsLink | commands/update.py:340-355 | the toggle as written leaves the caption "Link" in place of the row's link formula |
| Disposition.ToggleKeepsLink | commands/update.py:340-355 | the toggle with the link restated keeps the row's link and writes the new status |
| Disposition.EditDiffColumns | commands/update.py:136-148 | nothing is sent exactly when neither field changed, and otherwise exactly the changed fields with their new values |
| Disposition.EditAsWrittenDropsLink | commands/update.py:140-148 | the edit as written drops the row's link formula too |
| Disposition.EditKeepsLink | commands/update.py:140-148 | the edit with the link restated keeps the row's link |
| Disposition.MergedProperties | commands/update.py:218-227 | a refresh keeps the number the row is looked up by, merging twice is merging once, and a fully filled read decides every other field |
| Disposition.RefreshLogs | commands/update.py:212-229 | the action is logged after the earlier ones, and exactly a failed read adds the warning line |
| Disposition.ActionLogSnoc | commands/update.py:88-90 | each action adds one "- " line at the end of the log text |
| Disposition.ColourOfStatus | commands/update.py:68-77 | the dialog is orange exactly for statuses containing "trial", each such status offers the toggle, and both toggle targets are orange |
| Disposition.ButtonsLayout | commands/update.py:175-199 | five buttons, six with the toggle third; the toggle appears only for stage statuses; Edit comes first and Close last |
| Disposition.Offered | commands/update.py:656 | the cases offered are a sub-list of those listed |
| Disposition.OfferedMembers | commands/update.py:656 | a case is offered exactly when it is listed with a case number |
| Disposition.OfferedAll | commands/update.py:656 | when every case has a number, all are offered in the order listed |
| Disposition.PickerLayout | commands/update.py:651-657 | at most 25 options, one per offered case in order, each with a case number |
| Disposition.FirstCase | commands/update.py:683 | the case found is the first that matches |
| Disposition.PickedIsFound | commands/update.py:683 | on an unchanged listing every option finds a case with its number |
| Disposition.Listing | services/google_requests.py:621-645 | the listing has one case per row read |
| Disposition.ListingAt | services/google_requests.py:621-645 | case `i` of the listing is built from row `i` of the read |
| Disposition.FetchCases | commands/update.py:676-681 | get_all_cases fails exactly under a store fault, and otherwise lists the current rows |
| Disposition.ReassignBeforeAcceptance | commands/update.py:282-338 | while the row names the judge the dialog shows, the log says the reassignment was initiated, and the number and filing date stay |
| Disposition.PickEnding | commands/update.py:477-492 | an ending is picked exactly by the initiator with a value chosen, and it is the first value |
| Disposition.FinishRecordsEnding | commands/update.py:423-432 | a finish from the dialog is logged under the dialog's number, with the ending picked and the verdict date |
| Disposition.MistrialShowsToggle | commands/update.py:439 | a case finished as a mistrial still offers the toggle |
| Disposition.DeleteCase | commands/update.py:567 | the confirmation deletes by the captured case's name and number |
| Disposition.ActionView.constructor | commands/update.py:167-205 | the dialog opens on the picked case with an empty log and shows it |
| Disposition.ActionView.Refresh | commands/update.py:206-256 | the case and the log become the refresh result, and the message shows them |
| Disposition.ActionView.ToggleAsWritten | commands/update.py:340-355 | gated; sends only the other stage to edit_docket, logs the outcome and refreshes; a refused user changes nothing |
| Disposition.ActionView.Toggle | commands/update.py:340-355 | the corrected toggle: the same, with the known filing link restated in the changes sent |
| Disposition.ActionView.Reassign | commands/update.py:282-338 | gated; proposes the judge without writing to the sheet, updates the case from the read, logs a judge change only when one was reported, and refreshes |
| Disposition.ActionView.Reread | commands/update.py:298-332 | the reassign button's reads give the merged case and the judge reported |
| Disposition.ActionView.PressEditAsWritten | commands/update.py:274-277 | when the gates pass, the edit button raises the attribute error |
| Disposition.ActionView.PressEdit | commands/update.py:274-277 | when the gates pass, the edit modal opens with the case's name and number |
| Disposition.ActionView.SubmitEditAsWritten | commands/update.py:119-162 | only the initiator; no change sends nothing; otherwise only the differing fields go to edit_docket by the old number, and only a success adopts them and refreshes |
| Disposition.ActionView.SubmitEdit | commands/update.py:119-162 | the corrected submission: the same, with the known filing link restated in the changes sent |
| Disposition.ActionView.PressFinish | commands/update.py:357-368 | the ending picker opens, for an allowed user, on the case as it is now |
| Disposition.ActionView.SubmitFinish | commands/update.py:409-454 | only the initiator; finish_case runs on the captured case; success marks the case finished with the new link and refreshes without reading; failure changes nothing locally |
| Disposition.ActionView.RequestDelete | commands/update.py:383-389 | the confirmation captures the case as it is now, and the request is logged |
| Disposition.ActionView.ConfirmDelete | commands/update.py:550-619 | another user is told "Only the user who started the update can confirm deletion.", a non-reviewer "You are not authorized to perform this action."; otherwise the captured case's row is deleted, a success turns the dialog into the deleted notice and a failure leaves it as it was |
| Disposition.ActionView.Close | commands/update.py:370-381 | gated; the dialog turns grey with the same case and log |
| Disposition.SelectCase | commands/update.py:667-698 | only the initiator; the dialog opens on the first listed case with the chosen number, with an empty log |
| Disposition.UpdateCommand | commands/update.py:707-727 | reviewers only; a listing error is reported, an empty listing says so, otherwise the picker is offered to the author |
| Classifier.Unclose | services/ai_requests.py:80-81 | a closing fence is cut off the end, and text without one is kept |
| Classifier.CleanTripleBackticks | services/ai_requests.py:75-82 | the result is stripped |
| Classifier.CleanPlain | services/ai_requests.py:75-82 | text without fences is only stripped |
| Classifier.CleanFencedBlock | services/ai_requests.py:75-82 | a fenced block with an info line cleans to its stripped body |
| Classifier.CleanInlineFence | services/ai_requests.py:75-82 | a one-line fenced text cleans to its stripped content |
| Classifier.Consistent | services/ai_requests.py:85-166 | a result succeeds exactly when it has no error, and a failure reports both fields "Unknown" |
| Classifier.Truncated | services/ai_requests.py:101 | the case text is cut to its first 600 characters, and shorter text is kept |
| Classifier.PromptShape | services/ai_requests.py:101-103 | the prompt has no backtick, is bounded by the base, 600 characters and the end marker, and is the plain concatenation when there were no backticks |
| Classifier.PromptIgnoresTail | services/ai_requests.py:101 | text past the first 600 characters does not reach the prompt |
| Classifier.SplitLines | services/ai_requests.py:156 | every piece of `splitlines()` is free of line breaks |
| Classifier.SplitLinesCons | services/ai_requests.py:156 | a line followed by "\n" splits off as the first piece |
| Classifier.SplitLinesOne | services/ai_requests.py:156 | text without line breaks is one piece |
| Classifier.KeptLines | services/ai_requests.py:156 | the lines kept are stripped and non-empty |
| Classifier.KeptLinesMembers | services/ai_requests.py:156 | a line is kept exactly when it is the non-empty strip of some line |
| Classifier.FieldOf | services/ai_requests.py:159-161 | a line gives a field exactly when it holds ':', split at the first ':' |
| Classifier.FieldNormalised | services/ai_requests.py:161 | the key is lower-case and the value is stripped |
| Classifier.ParsedDomain | services/ai_requests.py:157-161 | the parsed keys are exactly those of the lines holding ':' |
| Classifier.ParsedLatest | services/ai_requests.py:157-161 | the value of a key is the one from its last line |
| Classifier.ParseFields | services/ai_requests.py:157-161 | the line loop fills the parsed dict as the fold over the lines |
| Classifier.FallbackOf | services/ai_requests.py:156-166 | the fallback is consistent, fails exactly when both fields are "Unknown", and then reports the raw text |
| Classifier.ChooseLatest | services/ai_requests.py:162-163 | a field comes from its own key's last line when that key is present |
| Classifier.FallbackCaseType | services/ai_requests.py:162 | the case type comes from the last "case_type" line |
| Classifier.ParseReply | services/ai_requests.py:156-166 | the parser loop gives the fallback result |
| Classifier.GetCaseType | services/ai_requests.py:85-166 | blank or non-string input, testing mode, a missing key or model, a failed call, JSON and the fallback give their results in the source's order, always consistent |

## Left out

- **Discord transport.** Embeds, views, modals, interaction responses and followups, message
  fetch and edit, `asyncio.sleep`, `run_in_executor`, `create_task`, and the uuid custom ids are
  not modelled. Each handler keeps only its decision, its store call and the text it reports.
- **The classifier's API.** The Google API services and the generative model call are the
  parameters `generate` and `decode` of `Classifier.GetCaseType`: credentials, `build`/`execute`,
  the model call and `json.loads` are foreign code. The extraction of the text from the response
  (services/ai_requests.py:112-142) is not modelled; `generate` returns that text. JSON values
  that are not strings are not modelled.
- **`get_gdoc_text`, `extract_google_docs_links` and `get_gdoccase_info`.** The first walks a
  foreign document structure. The links and the draft enter the listener as parameters, with the
  draft's two failure shapes (`DocketEntry.FetchFailed`, `DocketEntry.FetchRaised`).
- **`toggle_judge_activity_status`.** services/google_requests.py:968-1024 is not part of this
  model; no part of the lifecycle calls it.
- **`ai_function`.** services/ai_requests.py:49-72 is never called.
- **Configuration, clocks and files.** Configuration values are constructor parameters. Filing and
  verdict dates are string parameters. The `judge_data.json` and `config.yaml` writes of
  `get_judges` are not modelled, nor are `log()` and `print`.
- **Concurrency.** The read-then-write race on the counter and concurrent Accepts are not
  modelled; calls are sequential.
- **Case mapping.** `str.lower()` and `str.upper()` are modelled as ASCII-only (`Text.Lower`,
  `Text.Upper`). This affects the edit and delete keys, the judge status test, the case-type
  test of the counters, the classifier's field keys, the stage and colour tests of the dialog and
  the SC-petition test. Python maps other letters too: for example, "ſc".upper() is "SC".
- **Regular expressions.** Only the specific patterns the code uses are written out, as string
  predicates. Case folding in them is ASCII-only, `\d` is ASCII digits, and `\w` and `\b` in the criminal
  pattern use ASCII word characters. Python's patterns on `str` are Unicode-aware, so text such as
  "éCrim 7" has no word boundary before "Crim" in the program but has one in the model.
- **Parsing of written values.** The writes use `valueInputOption="USER_ENTERED"`
  (services/google_requests.py:175, 256, 392 and 879), so the Sheets API parses what is
  written. That parsing is not modelled: a cell keeps the text written, as a cell formatted as
  text would. In a cell with number or date formatting, the counter "050" would read back as "50",
  and a filing date such as "10/14/2026" would come back from the formula read as a date serial
  number. `Cells.CounterRoundTrip`, `CaseStore.IncrementAdvances`, `CaseStore.AppendThenLookup`
  and `DocketEntry.AcceptedCaseListed` therefore hold for cells that keep their text.
- **Sheets API details.** A None value sent to the sheet is an empty cell. Formulas other than
  HYPERLINK are not evaluated. Table detection for `values.append` is approximated by "after the
  last non-blank row".
- **The re-read of the found row in edit_docket.** Its own range is assumed to return the row the
  scan saw.
- **Messages to other dialogs.** The `update_notify` message edit after a judge accepts is
  reduced to the case read it reports (`DocketEntry.Assignment.Accept`). The re-posted proposal
  after a denial is the same `Assignment` object with the grown list.
- **Dict aliasing.** The captured dicts of the ending and delete views are values taken when the
  button was pressed, so a later change to the dialog's dict is not seen by them. The edit modal
  is the other way round: the program compares its inputs with the dict captured when Edit was
  pressed (commands/update.py:133-134), while `Disposition.ActionView.SubmitEdit` and
  `SubmitEditAsWritten` compare them with the dialog's case at submission. The two differ only
  if the dialog refreshed while the modal was open (commands/update.py:227).
- **Fallback keys of `finish_case`.** `finish_case` also reads an ending under `case_ending_type`
  and a link under `ending_url` (services/google_requests.py:780-781). The update dialog never sends
  those keys, so `CaseStore.FinishRequest` does not carry them.
- **Delete cancel.** The cancel button of the delete confirmation only sends messages and is not
  modelled.
- **Modal and embed limits.** The length limits of modal inputs and of embed fields are not
  modelled.
- `DocketEntry.FreeJudge` returns the constant int judge id. For that reason assign_case's "No
  Judges Available" branch is left out: an int never equals that string.
- `CaseStore.Available`'s contract states the error text only for an unknown case type. Its other
  errors (a fault, an empty cell) are stated by its body and by `CaseStore.ReadCell`.

## Findings

| source | as written | input that shows it | evidently intended | confidence | as-written member | corrected member |
|---|---|---|---|---|---|---|
| commands/docket_entry.py:218 | `case_info.get("case_type", "").upper()` raises when get_gdoccase_info reports a document it could not fetch, because the dict then holds None under "case_type" | a submission whose document cannot be fetched (services/google_requests.py:446-454) | the submission goes to review, where it is shown as one whose details could not be extracted and Accept refuses it | not executed | DocketEntry.FetchFailureCrashes | DocketEntry.FetchFailureReviewed |
| commands/update.py:340-355 | the toggle sends only the new status, and edit_docket writes back the displayed row, so the row's link formula becomes the plain caption "Link" | a case whose link cell is `=HYPERLINK("https://x", "Link")`, toggled to "In Trial" | the known filing link is restated, as the judge's Accept does for the same reason (commands/docket_entry.py:592-595) | not executed | Disposition.ActionView.ToggleAsWritten, Disposition.ToggleAsWrittenDropsLink | Disposition.ActionView.Toggle, Disposition.ToggleKeepsLink |
| commands/update.py:140-148 | the edit dialog sends only the changed name or number, with the same effect on the link formula | the same case, renamed in the edit dialog | the known filing link is restated | not executed | Disposition.ActionView.SubmitEditAsWritten, Disposition.EditAsWrittenDropsLink | Disposition.ActionView.SubmitEdit, Disposition.EditKeepsLink |
| commands/update.py:276 | the edit button calls `interaction.responses.send_modal`, an attribute the interaction does not have, so the press raises and the modal never opens | any press of Edit by the initiator, who is a reviewer | `interaction.response.send_modal(modal)` opens the modal | not executed | Disposition.ActionView.PressEditAsWritten | Disposition.ActionView.PressEdit |
