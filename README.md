# Time-card store and submission, modelled in Dafny

The program keeps a technician's daily time cards in a local SQLite table
and submits a day's card to the university's work-management web
application by driving a browser. This project models three parts of it:

- **The store** (`timecard/database.py`). A `TimeCardEntry` is one line
  item of a day. A `TimeCard` is the entries of one date. The
  `TimeCardDatabase` object holds the `records` table, the current view and
  the active record. Module `Table` gives the table as a sequence of rows
  in storage order and each SQL statement as a function on that sequence.
  Class `Database.TimeCardDatabase` updates a `rows` field by those
  functions. The main property is the store's numbering rule: the line
  items of every date are 0..n-1, in storage order. Deleting repairs that
  numbering. Adding with the next free number and updating keep it.
- **The submission session** (`timecard/aim.py`). `AimSession.new_timecard`
  runs a fixed script of browser commands. Module `Protocol` gives that
  script as pure functions: the commands for a batch, the error list read
  back from the page, and the messages yielded. Class `Aim.AimSession`
  issues the commands one by one to a `Driver` object that records them.
  Each command that looks up an element may raise when the lookup fails;
  `Protocol.Exec` is the run of a script that stops at the first such
  raise. `NewTimecard` is proved to send exactly that run of the script
  and to yield exactly the messages the generator yields up to there: a
  progress line per entry begun, and the outcome only when nothing raised.
- **The screen handlers** (`timecard/tui_main.py`). These are:
  - the `ACTIONS`/`TIME_CODES` dropdown tables and their reverse tables;
  - the submission order (highest workorder first, stable);
  - the default overhead entries;
  - copy and paste through the shared paste buffer;
  - the entry form's `reset`/`on_done`;
  - the search screen's result list and copy.

  The handlers that change the store are methods of `Views.TimeCardView`,
  `Views.TimeEntryEdit` and `Views.SearchView`. Lemmas beside them show
  that each way of adding a line appends it to its day and keeps every
  date numbered.

Python exceptions are modelled as results:
- an `Option` where a lookup raises `KeyError` or `float` raises `ValueError`;
- a `bool` where an index raises `IndexError`;
- a `bool` (`ok`, `completed`) where a driver command's element lookup raises, which ends `new_timecard`.

Dates are integers; only equality and order are used. Hours are `real`.
`str` on hours, `float` on text, `str`/`strftime` on dates and the remote
page's answers are parameters of the model.

## Model

| member | source | states |
|---|---|---|
| `Entries.HoursAppend` | timecard/database.py:56-58 | The hours of a card are the sum over its entries: the hours of a concatenation add up. |
| `Entries.HoursIgnoreLineItems` | timecard/database.py:56-58 | The hours of a card depend only on the entries' hours, so renumbering keeps the total. |
| `Table.LoadedDayTruthy` | timecard/database.py:47-48 | A card loaded for a date is truthy exactly when the store holds a row of that date; the initial empty view is falsy. |
| `Table.Select` | timecard/database.py:155-158 | A SELECT returns exactly the rows that satisfy its WHERE clause, and no more rows than the table has. |
| `Table.SelectCommute` | timecard/database.py:142-143 | Filtering by one clause and then another gives the same rows, in the same order, as the reverse. |
| `Table.HoursSplit` | timecard/database.py:56-58 | Every row is selected by a clause or by its negation, so the hours split between the two. |
| `Table.Find` | timecard/database.py:95-103 | `get_record` finds a row exactly when some row has the key, and the row it returns is a row of the table with that key. |
| `Table.FindAppend` | timecard/database.py:99 | `fetchone` returns the first match in storage order: in a concatenation, the left part's match wins. |
| `Table.Updated` | timecard/database.py:105-116 | An update keeps the row count, gives every row with the key the entry's values, and leaves every other row as it was. |
| `Table.UpdateAbsent` | timecard/database.py:108-111 | An update of a key no row has changes nothing. |
| `Table.UpdateThenFind` | timecard/database.py:105-116 | After an update of a stored key, `get_record` of that key returns the updated entry. |
| `Table.DayOfUpdated` | timecard/database.py:108-111 | An update keeps every row's date, so updating and then taking a date's rows equals taking them and then updating. |
| `Table.UpdatePreservesNumbering` | timecard/database.py:105-116 | An update keeps every date numbered 0..n-1. |
| `Table.AddAgain` | timecard/database.py:128-130 | A second add with the same key, whatever its other fields, leaves the table as the first add left it. |
| `Table.AddThenFind` | timecard/database.py:118-130 | Adding at a free key appends the entry, and reading the key back returns it; adding at a taken key changes nothing. |
| `Table.AppendPreservesNumbering` | timecard/database.py:118-130 | An entry numbered with its date's current size is appended and keeps every date numbered. |
| `Table.NumberedIsDense` | timecard/database.py:146-148 | A numbered day's line items are exactly {0, ..., n-1}, with no two rows sharing one. |
| `Table.FindAtPosition` | timecard/database.py:95-103 | On a numbered day, `get_record(d, i)` returns the day's i-th row in storage order. |
| `Table.DropKeyStep` | timecard/database.py:144-145 | Each pass of the first loop of `delete_record` removes one more key from the table. |
| `Table.DropDayKeys` | timecard/database.py:143-145 | After that loop no row of the date remains, and every other row does. |
| `Table.DeleteRenumbers` | timecard/database.py:137-148 | After `delete_record(d, k)` the rows of `d` are the ones whose line item was not `k`, in their old order, renumbered 0..m-1. This holds even when the old numbering had gaps or duplicates. |
| `Table.DeleteKeepsOtherRows` | timecard/database.py:142-148 | A delete keeps the rows of other dates, with their contents and their storage order. |
| `Table.DeleteKeepsOtherDays` | timecard/database.py:142-148 | A delete leaves every other date's card unchanged. |
| `Table.DeletePreservesNumbering` | timecard/database.py:137-148 | A delete keeps every date numbered 0..n-1. |
| `Table.DeleteHours` | timecard/database.py:137-148 | A delete lowers the date's total by exactly the hours of the rows with the deleted key. |
| `Table.DeleteExample` | timecard/database.py:137-148 | Deleting line item 1 from items [0, 1, 2] leaves two rows, numbered [0, 1], in their old order. |
| `Database.TimeCardDatabase.constructor` | timecard/database.py:76-93 | Opening the store keeps the rows the file already holds; the current view is empty and no record is active. |
| `Database.TimeCardDatabase.GetRecord` | timecard/database.py:95-103 | The result is `Some` exactly when a row has the key, and its value is then such a row. |
| `Database.TimeCardDatabase.UpdateRecord` | timecard/database.py:105-116 | The rows become the updated table; the view and the active record stay. |
| `Database.TimeCardDatabase.AddRecord` | timecard/database.py:118-130 | The entry is inserted exactly when `get_record` finds no row with its key; the view and the active record stay. |
| `Database.TimeCardDatabase.DeleteRow` | timecard/database.py:132-135 | Every row with the key is removed and nothing else changes. |
| `Database.TimeCardDatabase.GetTimecard` | timecard/database.py:150-161 | The result is the date's rows in storage order, and it becomes the current view; the table stays. |
| `Database.TimeCardDatabase.DeleteRecord` | timecard/database.py:137-148 | The table becomes the deleted-and-renumbered table. The current view becomes the date's surviving rows, renumbered, because the second loop edits the view's entries in place. |
| `Database.TimeCardDatabase.DeleteEach` | timecard/database.py:144-145 | The first loop removes exactly the keys of the given entries. |
| `Database.TimeCardDatabase.AddRenumbered` | timecard/database.py:146-148 | The second loop appends the date's entries renumbered by position, and renumbers the view the same way. |
| `Database.TimeCardDatabase.FindRecords` | timecard/database.py:163-177 | The results are exactly the rows whose description contains the text and whose date lies between the two dates, each as many times as the table holds it. |
| `Table.SelectCounts` | timecard/database.py:155-158 | A SELECT keeps every copy of a row that satisfies its WHERE clause and no copy of any other row. |
| `Database.FindAfterAdd` | timecard/database.py:163-177 | Results come in storage order: after a row is added, the results are the old ones followed by that row exactly when it matches. |
| `Database.NotYetNumbered` | timecard/database.py:146-148 | During the second loop of `delete_record` the key (d, i) is still free, so each add appends. |
| `Aim.AimSession.constructor` | timecard/aim.py:112-128 | The session keeps the netid and the given driver, and its shop is "17 ELECTRICAL". |
| `Aim.AimSession.Enter` | timecard/aim.py:130-132 | Entering returns the session itself and sends no command; login is not part of entering. |
| `Aim.AimSession.Exit` | timecard/aim.py:134-136 | Leaving quits the driver and suppresses any exception, so a submission cut short by a raise still ends with the quit. |
| `Aim.AimSession.Click` | timecard/aim.py:159-160 | The control is looked up and clicked. A failing lookup raises and sends nothing, and the rest of the script is then not run. |
| `Aim.AimSession.Clear` | timecard/aim.py:162-163 | The control is looked up and cleared; a failing lookup raises and sends nothing. |
| `Aim.AimSession.SendKeysTo` | timecard/aim.py:165-166 | The control is looked up and the text typed into it; a failing lookup raises and sends nothing. |
| `Aim.AimSession.OpenCard` | timecard/aim.py:170-174 | The commands sent are the run of the header up to the first raise: navigate to the time-card page, NEW, the employee, the date, then the first detail line. |
| `Aim.AimSession.ClearFields` | timecard/aim.py:179-185 | The commands sent are the run of the seven clears, in order, up to the first raise. |
| `Aim.AimSession.TypeCode` | timecard/aim.py:187-193 | The commands sent are the run of the code's keys: a leave code alone, any other code with the workorder, phase and action. |
| `Aim.AimSession.FillLine` | timecard/aim.py:179-195 | The commands sent are the run of the entry's fill commands up to the first raise. |
| `Aim.AimSession.CommitLine` | timecard/aim.py:196-199 | The line is committed and the error field looked up and read, up to the first raise; the text returned is the page's answer after the commit. |
| `Aim.AimSession.EnterBlock` | timecard/aim.py:179-201 | The commands sent are the run of entry i's block; when it went through, the error list grows by entry i's result. |
| `Aim.AimSession.EnterLine` | timecard/aim.py:176-201 | One loop pass: the run of the script either goes through entry i too, with the error list extended by entry i's result, or ends inside entry i after i + 1 progress messages. |
| `Aim.AimSession.EnterLines` | timecard/aim.py:175-201 | The loop either goes through every entry, with every progress message and the full error list, or ends the run of the script inside some entry. |
| `Aim.AimSession.NewTimecard` | timecard/aim.py:168-208 | The driver receives exactly the script for the batch up to the first lookup that raises. The messages are a progress line per entry begun, then, only when nothing raised, the outcome built from the workorders whose error field was not empty. |
| `Protocol.ExecSendsPrefix` | timecard/aim.py:159-166 | A run sends a prefix of its commands: all of them when nothing raised, otherwise exactly those before the first command whose lookup fails. |
| `Protocol.ExecAppend` | timecard/aim.py:168-203 | Running two command lists in turn is running their concatenation; once one raised, nothing more is sent. |
| `Protocol.ExecNeverFailing` | timecard/aim.py:159-166 | When no lookup fails, every command is sent and the run goes through. |
| `Protocol.RaisedInHeader` | timecard/aim.py:170-174 | A raise while the card is being opened ends the script there, before the first entry. |
| `Protocol.RaisedInEntry` | timecard/aim.py:176-201 | A raise inside entry i ends the script there, after exactly i + 1 progress messages. |
| `Protocol.EntryStep` | timecard/aim.py:176-201 | After the header and i entries, the run goes through entry i too, or ends inside it. |
| `Protocol.FooterRun` | timecard/aim.py:202-203 | Once every entry went through, the run of the script is the run of DONE then SAVE, after every progress message. |
| `Protocol.EntryStartMonotone` | timecard/aim.py:176-201 | Later entries start strictly later in the script. |
| `Protocol.ReachedNone` | timecard/aim.py:170-178 | A run that raised before the first entry has yielded no progress message. |
| `Protocol.ReachedInEntry` | timecard/aim.py:176-201 | A run that raised within entry i's commands has yielded exactly i + 1 progress messages. |
| `Protocol.ReachedAll` | timecard/aim.py:176-203 | A run that got past every entry has yielded every progress message. |
| `Protocol.YieldedCompleted` | timecard/aim.py:176-208 | A run that went through yields exactly the progress messages and the outcome. |
| `Protocol.YieldedIsError` | timecard/aim.py:176-208 | Some yielded message contains "error" in some case exactly when the run went through and an entry was rejected. |
| `Protocol.ScriptPrefix` | timecard/aim.py:170-201 | The script up to the start of entry i is the header and the first i entries' commands. |
| `Protocol.FillOnlyClearsAndTypes` | timecard/aim.py:179-195 | Filling a line only clears fields and types into them. |
| `Protocol.BodyNeverFinishes` | timecard/aim.py:176-201 | DONE and SAVE are never clicked while entries are being entered. |
| `Protocol.ScriptFrame` | timecard/aim.py:170-203 | The script opens the card and ends with DONE then SAVE. Neither is clicked anywhere else, so each is clicked exactly once for any batch, the empty one included. |
| `Protocol.BodyPrefix` | timecard/aim.py:176-201 | The commands for the first i entries are a prefix of those for the first j. |
| `Protocol.EntryCommandsAt` | timecard/aim.py:176-201 | After the header the script holds each entry's block in the given order: filled, then committed and checked unless it is the last entry. |
| `Protocol.FillSplit` | timecard/aim.py:179-195 | Filling a line is the seven clears, then the code's keys, then the hours and the description. |
| `Protocol.FillClearsFirst` | timecard/aim.py:179-195 | A fill clears the seven detail fields in their fixed order and then only types, ending with hours and description. |
| `Protocol.FillLeave` | timecard/aim.py:187-188 | A leave code (S, A, PH, CT, HOLIDAY) is typed into the leave-code field. No workorder, phase, action or labor code is typed. |
| `Protocol.FillLabor` | timecard/aim.py:189-193 | Any other code is typed into the labor-code field, along with the workorder, phase and action, and nothing goes into the leave-code field. |
| `Protocol.PartialFailure` | timecard/aim.py:176-203 | With three entries and only the second rejected, exactly its workorder is reported. The first two lines are committed and checked; the third is only filled before the card is finished. |
| `Protocol.ErrorsFromCheckedEntries` | timecard/aim.py:196-201 | At most n-1 workorders are reported. Each reported one belongs to a checked entry whose error field was not empty. |
| `Protocol.ErrorsReportEveryFailure` | timecard/aim.py:196-201 | Every checked entry whose error field was not empty has its workorder reported. |
| `Protocol.ErrorsInOrder` | timecard/aim.py:196-201 | Errors are reported in entry order: the list for the first i entries is a prefix of the list for the first k. |
| `Protocol.NoErrorsIffAllClear` | timecard/aim.py:196-201 | No error is reported exactly when every checked entry's error field was empty. |
| `Protocol.LastEntryUnchecked` | timecard/aim.py:196 | The last entry's error field is never consulted: pages that agree on the checked reads give the same error list. |
| `Protocol.ProgressMessagesAt` | timecard/aim.py:178 | The k-th progress message is "Processing... k/n". |
| `Protocol.MessagesShape` | timecard/aim.py:176-208 | For n entries the generator yields n progress messages in order, then exactly one terminal message. |
| `Protocol.ProgressIsNotError` | timecard/aim.py:178 | A progress message never contains "error" in any case. |
| `Protocol.OutcomeIsError` | timecard/aim.py:205-208 | The terminal message contains "error" in some case exactly when the error list is not empty. |
| `Protocol.SomeMessageIsError` | timecard/tui_main.py:350-353 | Some message of a batch turns the status line to the error colour exactly when an entry was rejected. |
| `Codes.AsMapHolds` | timecard/tui_main.py:76-81 | A dictionary literal has exactly its items' keys; when no key repeats, each key maps to its item's value. |
| `Codes.ReversedInverts` | timecard/tui_main.py:433-434 | When keys and values do not repeat, the reverse dictionary inverts the table in both directions and its keys are the table's values. |
| `Codes.NumberedFromOne` | timecard/tui_main.py:76-81 | For items valued 1, 2, ... in order, the reverse table's keys are exactly 1..n. |
| `Codes.ActionsInvertible` | timecard/tui_main.py:76-79 | `ACTIONS` is one-to-one onto 1..4. Its reverse table takes every value back to its name and every name's value back to the name. |
| `Codes.TimeCodesInvertible` | timecard/tui_main.py:80-81 | `TIME_CODES` is one-to-one onto 1..10, and its reverse table inverts it in both directions. |
| `Ordering.Project` | timecard/tui_main.py:341 | The submitted tuple is `values()[2:]`: workorder, phase, hours as text, description, action and time code. |
| `Ordering.Projected` | timecard/tui_main.py:341 | Each entry of the day is projected, in order. |
| `Ordering.InsertSorted` | timecard/tui_main.py:343 | Inserting into a descending sequence keeps it descending. |
| `Ordering.InsertPermutes` | timecard/tui_main.py:343 | Insertion neither drops nor duplicates an entry. |
| `Ordering.InsertStable` | timecard/tui_main.py:343 | The inserted entry lands before every entry with its own workorder. |
| `Ordering.SortDescCorrect` | timecard/tui_main.py:343 | The sort orders by workorder, highest first, and is a permutation. It is stable: the entries of each workorder keep their original order, as Python's sort does with `reverse=True`. |
| `Ordering.SortedDescPairwise` | timecard/tui_main.py:343 | In the sorted sequence every later workorder is at most every earlier one. |
| `Ordering.SubmissionCorrect` | timecard/tui_main.py:339-343 | The submission holds every entry of the day, projected, as often as given, ordered highest workorder first, stably. |
| `Ordering.SubmissionExample` | timecard/tui_main.py:342-343 | Entries with workorders 000020, 000032 and 000010, in that order, are submitted in the order 000032, 000020, 000010. |
| `Forms.ZFill` | timecard/tui_main.py:438-439 | Python's `zfill`: a string at least `width` long is returned as is. A shorter one gets zeros up to `width`, placed after a leading sign if there is one; the rest is kept. |
| `Forms.ZFillEmpty` | timecard/tui_main.py:438-439 | An empty workorder or phase becomes all zeros. |
| `Forms.ZFillDigits` | timecard/tui_main.py:438-439 | A string of digits stays all digits after padding. |
| `Forms.BlankForm` | timecard/tui_main.py:463-471 | A new line's form has the view's date, the view's size as line item and empty text. Its dropdowns start at the values of "WORK COMPLETE" and "R". |
| `Forms.FormOf` | timecard/tui_main.py:452-462 | Opening a record succeeds exactly when its action and time code are in their tables; the dropdowns then hold their values. |
| `Forms.Normalize` | timecard/tui_main.py:433-439 | Saving succeeds exactly when both dropdown values are in the reverse tables and the hours parse. The record keeps the form's key and description. Its workorder and phase are the form's, zero-filled to 6 and 3, its hours are the parsed hours, and its names map back to the dropdown values. |
| `Forms.ActionNamed` | timecard/tui_main.py:433 | Dropdown value v in 1..4 maps back to the v-th action name. |
| `Forms.TimeCodeNamed` | timecard/tui_main.py:434 | Dropdown value v in 1..10 maps back to the v-th time code. |
| `Forms.EditRoundTrip` | timecard/tui_main.py:431-471 | Opening a stored record and pressing Done unchanged gives back the same record. This needs known names, full-width fields and hours that read back as shown. |
| `Forms.NormalizeIdempotent` | timecard/tui_main.py:431-471 | Re-opening and saving a just-saved record stores the same record again. |
| `Views.Listing` | timecard/tui_main.py:271-273 | The day list has one line per entry, showing its submitted fields and selecting its position, then the "+ Add" line selecting 100. |
| `Views.SelectionFindsShownEntry` | timecard/tui_main.py:319-322 | On a numbered day, selecting line i looks up exactly the entry shown there. Selecting "+ Add" finds no entry while the day has at most 100 entries. |
| `Views.Overheads` | timecard/tui_main.py:306-311 | The default entries for a date are the two templates, in order, numbered on from the day's size. |
| `Views.AddAllAppends` | timecard/tui_main.py:307-312 | Adding entries of a date numbered on from the day's size appends them all, in order, to the table and to the day, and keeps every date numbered. |
| `Views.OverheadAppends` | timecard/tui_main.py:304-314 | On a synced view, adding the overhead appends both default entries with the next two line items and keeps every date numbered. |
| `Views.PasteAppends` | timecard/tui_main.py:294-302 | On a synced view, a paste appends the re-dated entry to the day and keeps every date numbered. |
| `Views.Saved` | timecard/tui_main.py:432 | Saving the widgets into the form keeps its date and line item. |
| `Views.NewLineAppends` | timecard/tui_main.py:441-442 | A new line entered through the form gets the key (date, day size), is appended to the day and keeps every date numbered. |
| `Views.EditOverwrites` | timecard/tui_main.py:443-444 | Editing a stored line keeps its key and the row count. It keeps every date numbered, and the line then reads back as entered. |
| `Views.PyIndex` | timecard/tui_main.py:602 | Python indexing: defined exactly for -n <= k < n; negative indices count from the end. |
| `Views.ResultSelectionRoundTrip` | timecard/tui_main.py:591-602 | Result line i selects the value i + 1, and copying that value gives the i-th result back. |
| `Views.Clipboard.constructor` | timecard/tui_main.py:56 | The paste buffer starts empty, which the paste handler treats as nothing to paste. |
| `Views.TimeCardView.constructor` | timecard/tui_main.py:267-270 | The day view starts on the given date with an empty card and a clear status line. |
| `Views.TimeCardView.ReloadList` | timecard/tui_main.py:267-281 | The view loads the day as the current view and lists it, "+ Add" last. The total is the card's hours, marked invalid exactly when they are not 8.0, and the status line is cleared. |
| `Views.TimeCardView.Copy` | timecard/tui_main.py:288-292 | The paste buffer becomes the selected line's record, or nothing when no row has that key. |
| `Views.TimeCardView.Paste` | timecard/tui_main.py:294-302 | An empty buffer changes nothing at all. Otherwise the buffered record, edited in place to the shown date and the next line item, is added, and the view is reloaded as `ReloadList` states: listing, total, its colour and a cleared status line. |
| `Views.TimeCardView.AddOverhead` | timecard/tui_main.py:304-314 | The table becomes the old table with each default entry added in turn, numbered after the view's entries; the view is reloaded as `ReloadList` states. |
| `Views.TimeCardView.Add` | timecard/tui_main.py:283-286 | No record is active afterwards, so the form opens a new line; nothing else changes. |
| `Views.TimeCardView.Edit` | timecard/tui_main.py:319-323 | The active record becomes the selected line's record, or none. |
| `Views.TimeCardView.Remove` | timecard/tui_main.py:325-330 | The selected line is deleted with renumbering, and the view is reloaded as `ReloadList` states. |
| `Views.TimeCardView.ShowMessages` | timecard/tui_main.py:350-353 | The status line ends on the last message. It is in the error colour exactly when it already was or some message contains "error" in any case. |
| `Views.TimeCardView.ShowYielded` | timecard/tui_main.py:350-353 | Showing a submission's messages leaves the last one on the status line, in the error colour exactly when it already was or the submission went through with an entry rejected. |
| `Views.TimeCardView.Submit` | timecard/tui_main.py:339-353 | The driver receives the script for the day's entries in submission order up to the first raise, then a quit. The status line ends on the last message yielded ("logging in..." if none was), in the error colour exactly when it already was or the submission went through with an entry rejected. When nothing raised, the whole script is sent and the status line ends on the outcome. |
| `Views.TimeEntryEdit.constructor` | timecard/tui_main.py:381-404 | The form takes the store's current view as its card and holds no values yet. |
| `Views.TimeEntryEdit.Reset` | timecard/tui_main.py:450-471 | With no active record the form is blank for the next line. Otherwise the form opens the record, and this fails exactly when a name is not in its table. |
| `Views.TimeEntryEdit.Done` | timecard/tui_main.py:431-448 | The store changes exactly when saving succeeds. It adds the record when none is active and otherwise updates the active one, which then holds the stored values; the form is emptied. |
| `Views.SearchView.constructor` | timecard/tui_main.py:535-564 | The search screen starts with an empty filter and the date range from the given first date to today. |
| `Views.SearchView.ReloadList` | timecard/tui_main.py:586-597 | The results are the store's matches, listed numbered from 1 in result order, and the total is their count. |
| `Views.SearchView.Copy` | timecard/tui_main.py:599-602 | Copying result number `selected` succeeds exactly when Python's index `selected - 1` is in range; the buffer then holds that result and otherwise is unchanged. |

## Left out

- The terminal user interface is not modelled: the asciimatics frames, layouts, themes, colours and key handling. The `Item:`/`Date:` labels and the status text before the session (`Creating webdriver...`) are not stated in contracts.
- The widgets' `save()` is modelled as the `FormInput` value and the selected line number passed to each handler.
- The SQLite connection and file, and the `CREATE TABLE` statement, are not modelled. The table is a sequence of rows in storage order, and the constructor takes the rows an existing file holds.
- `FindRecords`: SQL `LIKE` is case-insensitive for ASCII and treats `%` and `_` in the filter as wildcards. The model uses a plain substring test, so it is exact only for filters without wildcards and with matching case.
- Delete re-inserts the renumbered rows at the end of the table. Storage order is modelled as SQLite's insertion order; the model relies on no other order.
- Logging in (`login`: keyring, `getpass`, the NetID wait loop) is not modelled; `_on_submit` calls it between entering the session and submitting. Also not modelled: creating the Firefox driver and its profile (`_locate_firefox_profile`), `implicitly_wait`, `__getattr__` forwarding and the `time.sleep` delays.
- The remote page is not modelled: what the error field shows is a parameter (`page`) applied to every command sent so far.
- Which element lookups fail (an element missing after the implicit wait, raising `NoSuchElementException`) is a parameter (`fails`) applied to every command sent so far. `get` and `quit` look nothing up and are taken never to raise; a failure of the browser itself is not modelled.
- `new_timecard` is a generator whose yields interleave with its commands. The model returns the yielded messages as a list, and `Submit` shows them after the session has run.
- `Submit` runs in a thread in the source; concurrency is not modelled. `CONFIG` supplies the netid and employee id, which are parameters here.
- `vacation` is not modelled. It is defined inside `new_timecard`, after its last yield, and is never called.
- Hours are `real`, not floating point. The model does not capture float rounding in `sum` or in the exact `!= 8.0` test. `str`/`float` on hours and `str`/`strftime` on dates are parameters.
- `Views.TimeEntryEdit.Reset`: the branch for a record whose action and time code are already integers is not modelled; it only matters after a screen resize. The model's record always holds names.
- `Views.TimeEntryEdit.Done` and `Views.TimeEntryEdit.Reset` do not model aliasing. In the source the form's dictionary and the active record are one object, so a `KeyError` or `ValueError` part-way through `on_done` leaves the fields before it converted. The model leaves the store and record as they were, and the form is a value.
- `Views.SearchView.Copy` does not model that the paste buffer and the search result are one object, so a later paste re-dates the search result in place too. It also assumes some result is selected; the source raises `TypeError` when none is.
- `Views.SelectionFindsShownEntry`: the "+ Add" line's value 100 is also a valid line item, so on a day with more than 100 entries the Edit, Copy and Remove actions on "+ Add" act on entry 100. The lemma states the lookup only for days of at most 100 entries.
- `Views.TimeCardView.constructor`: the view starts with the empty card `TimeCard(None, [])`. In the source `_cache` is first set when the frame loads; the model does not capture the handlers' behaviour before that.
- `Forms.BlankForm` requires the view to have a date. In the source a form opened before any day is loaded shows `None` and fails on `strftime`.
- `Strings.Lower` lower-cases ASCII letters only; the messages it is used on are ASCII apart from the emoji.
- The TimeCardEntry defaults (`date.today()` at import time) and dictionary-to-record conversion are not modelled. Records are always complete values.
