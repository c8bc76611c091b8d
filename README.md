# Clinic queue: a Dafny model

This project models the core of a clinic's walk-in queue. The system is a web app backed by a
document database. It has four parts:

- **Admin console.** It registers patients by their six-digit employee ID and issues ticket numbers
  `S5-01`, `S5-02`, … that restart every day. "Call Next Patient" moves the queue along. When the
  console opens and the stored reset date is not today, it wipes the previous day's queue.
- **Scheduled reset.** Once a day a server function deletes every ticket and rewrites the queue
  meta document to `S5-01` and the current time.
- **TV display.** It shows the patient being served and those waiting. It announces each newly
  served number in a spelled-out form ("S 5- zero 1").
- **Two data-entry screens.** One edits the sick-condition and medicine lists. The other adds
  employees to the roster.

The database is kept in memory as the class `Store.ClinicDb`:

- The "queue" collection is a sequence of tickets. It is kept in timestamp order, with unique keys.
  The key is the employee ID. Together this stands for both the keyed collection and the
  `orderBy("timestamp")` view the app reads.
- "queueMeta" is an optional `Meta` record.
- The roster and the two option lists are sequences.

Every database write the app makes is a method on that class; its reads (`getDocs`, `onSnapshot`,
the roster lookup) are reads of the fields. The handlers are methods of classes:

- `Admin.AdminConsole`
- `ManageOptions.OptionsEditor`
- `EmployeeInput.EmployeeForm`

Each handler's contract ties the new state to pure functions, such as `IssueTicket`, `CallNext`,
`Toggle` or `WithoutIds`. Lemmas prove the promised properties about those functions.

Times are integers in milliseconds. The admin console has a fixed `utcOffset`. "Same day"
compares `(t + utcOffset) / 86400000`, which is what `setHours(0, 0, 0, 0)` compares for a clock
with that offset. The current time is always a parameter. A failure of the reset batch or of the
roster write is a boolean parameter.

JavaScript's string and number primitives are modelled in `JsStrings`: `trim`, `startsWith`,
`padStart`, `String(n)`, and `parseInt(s, 10)` with its whitespace skipping, optional sign and
longest digit prefix. `NaN` is `None`.

Notes on how the code behaves, as modelled:

- **A malformed suffix gives `"S5-NaN"`.** Suppose the stored number starts with "S5-" but has no
  digits after it. Then `parseInt` yields NaN and the code issues "S5-NaN" for the rest of the day
  (`QueueNumber.NextAfterMalformed`, `QueueNumber.NextAfterNaN`). One might expect a malformed
  suffix to count as 0. The code counts only a missing, empty or unprefixed number as 0.
- **The first ticket after a reset is `S5-02`.** Both resets store "S5-01" as the last number
  issued. So the first registration after a reset is given "S5-02" when it falls on the reset's
  local day (`Admin.AfterResetNumbers`). This holds for the lazy wipe and the scheduled function
  alike. Registration issues "S5-01" in two cases:
  - It finds no meta document, or one dated another day (`Admin.DayNumbers`).
  - It finds a same-day meta whose number is missing, empty, lacks "S5-", or has a suffix worth 0
    such as "S5-00" (`QueueNumber.NextWithoutPrefix`, `QueueNumber.NextAfterPrefixed`).
- **The TV announce test treats an empty number as none shown.** It compares with
  `currentServing?.queueNumber || null`, so an empty shown number counts as nothing shown
  (`TvDisplay.ShouldAnnounce`).
- **The lazy wipe most likely never writes.** It builds its batch with `db.batch()` on the client
  database handle. The rest of the client uses that handle with `collection(db, …)` and
  `doc(db, …)`, so it is a modular-SDK handle, which has no `batch` method. Then the call throws
  inside the `try`, the `catch` only logs, and nothing is written. That is
  `Admin.AdminConsole.Open` with `commitOk` false, which leaves queue and meta unchanged. With
  `commitOk` true, the model covers a working batch too. `src/firebase.js` is not part of this
  model.

## Model

| member | source | states |
|---|---|---|
| JsStrings.TrimStart | src/ManageOptions.jsx:31 | the result is a suffix of the input; everything removed is white space; the result does not start with white space |
| JsStrings.TrimEnd | src/ManageOptions.jsx:31 | the result is a prefix of the input; everything removed is white space; the result does not end with white space |
| JsStrings.Trim | src/ManageOptions.jsx:31 | `trim()` is empty exactly when the input is all white space; a non-empty result has no white space at either end |
| JsStrings.LeadingDigits | src/Admin.jsx:151 | the longest all-digit prefix: the next character is not a digit |
| JsStrings.NatToString | src/Admin.jsx:154 | `String(n)` is a non-empty run of digits whose value is `n`; it has no leading zero unless `n` is 0 |
| JsStrings.PadStart | src/Admin.jsx:154 | `padStart` never truncates: the length is the larger of the width and the input length; the input is the suffix; the rest is pad characters |
| JsStrings.ParseIntOfNumeral | src/Admin.jsx:151 | `parseInt` of a numeral followed by a non-digit is the numeral's value |
| JsStrings.ParseIntOfIntToString | src/Admin.jsx:151-154 | `parseInt(String(k), 10) == k` for every integer |
| JsStrings.LeadingZerosValue | src/Admin.jsx:151-154 | leading zeros (as in "05") do not change a numeral's value |
| JsStrings.PadStartValue | src/Admin.jsx:154 | `padStart` with '0' keeps a numeral a numeral of the same value |
| QueueNumber.Next | src/Admin.jsx:149-154 | the number issued after a stored one always starts with "S5-" and has at least two more characters |
| QueueNumber.NextAfterPrefixed | src/Admin.jsx:151-154 | after "S5-" and any numeral, padded or not ("S5-5", "S5-007", "S5-100"), comes S5-(value + 1), padded to two digits |
| QueueNumber.FirstIsNumberedOne | src/Admin.jsx:143 | "S5-01" is the first number of the day's sequence |
| QueueNumber.NumberedReadsBack | src/Admin.jsx:149-152 | the suffix of S5-NN parses back to NN, padding included |
| QueueNumber.PrefixedReadsBack | src/Admin.jsx:149-152 | a stored "S5-" followed by a numeral passes the prefix test, and its suffix parses to the numeral's value |
| QueueNumber.NextAfterNumbered | src/Admin.jsx:149-154 | after S5-NN comes S5-(NN+1) |
| QueueNumber.NumberedNeverTruncates | src/Admin.jsx:154 | the count appears in full at the end of its number; the length is 3 plus the larger of 2 and the digit count |
| QueueNumber.NextAfterNinetyNine | src/Admin.jsx:154 | after "S5-99" comes "S5-100" |
| QueueNumber.NumberedDistinct | src/Admin.jsx:154 | different counts give different numbers |
| QueueNumber.NextWithoutPrefix | src/Admin.jsx:149-154 | a stored number that is missing or lacks the "S5-" prefix counts as 0, so the next number is "S5-01" |
| QueueNumber.NextAfterMalformed | src/Admin.jsx:150-154 | "S5-" with no digits after it is followed by "S5-NaN" |
| QueueNumber.NextAfterNaN | src/Admin.jsx:150-154 | "S5-NaN" is followed by "S5-NaN" |
| Tickets.FirstIndexOf | src/Admin.jsx:88-89 | the index of the first ticket with a status; no earlier ticket has it; none exactly when no ticket has it |
| Tickets.Find | src/Admin.jsx:88-89 | `find` by status: none exactly when no ticket has the status, else the earliest ticket that has it |
| Tickets.FindCons | src/displays/TVQueueDisplay.jsx:73 | `find` checks the first ticket, then the rest |
| Tickets.WithStatusMembers | src/displays/TVQueueDisplay.jsx:84 | `filter` by status keeps exactly the tickets with that status |
| Tickets.WithStatusAppend | src/displays/TVQueueDisplay.jsx:84 | the filter distributes over concatenation |
| Tickets.UpsertKeeps | src/Admin.jsx:168-174 | after `setDoc` of a ticket, its key holds that ticket and only it; tickets under other keys are kept; keys stay unique and in timestamp order; a ticket not being attended never adds to those attended |
| Tickets.RemoveIdKeeps | functions/index.js:20-22 | deleting a ticket keeps keys unique and the order |
| Tickets.SetStatus | src/Admin.jsx:92 | `updateDoc` of a status keeps the length and every key, number and timestamp; every ticket with that key gets the new status; every other ticket is unchanged |
| Tickets.SetStatusAt | src/Admin.jsx:92-97 | with unique keys, updating the key of position i changes exactly position i |
| Tickets.SetStatusAbsent | src/Admin.jsx:92-97 | updating a key that is not stored changes nothing |
| Tickets.CountUpdate | src/Admin.jsx:92-97 | replacing one ticket changes a status count by that ticket only |
| Store.ApplyWritesKeeps | functions/index.js:18-30 | a batch keeps keys unique and in timestamp order |
| Store.ClinicDb.SetTicket | src/Admin.jsx:168-174 | the queue becomes the overwrite of the ticket's key, and nothing else changes |
| Store.ClinicDb.UpdateStatus | src/Admin.jsx:92 | reports whether the key exists, as `updateDoc` fails when it does not; applies the status update |
| Store.ClinicDb.WriteMeta | src/Admin.jsx:144-165 | `setDoc` replaces the whole meta document |
| Store.ClinicDb.Commit | functions/index.js:30 | a commit applies every write in order, or none when it fails |
| Store.ClinicDb.AddEmployee | src/InputEmployeeDataForm.jsx:36 | `addDoc` appends the record to the roster |
| Store.ClinicDb.AddOption | src/ManageOptions.jsx:32 | `addDoc` appends the entry to its list only |
| Store.ClinicDb.DeleteOption | src/ManageOptions.jsx:47 | `deleteDoc` removes the entry with that key from its list only |
| DailyReset.BuildResetBatch | functions/index.js:17-28 | the loop builds one delete per queue document, in order, then the meta overwrite |
| DailyReset.ApplyDeletes | functions/index.js:20-22 | the deletes applied in order drop exactly the snapshot's keys |
| DailyReset.ResetClearsQueue | functions/index.js:17-30 | after the batch the queue is empty, also when it was already empty; the meta document is exactly {S5-01, now}, with every other field dropped |
| DailyReset.ResetIdempotent | functions/index.js:17-30 | a second reset leaves the same empty queue and the same stored number; at the same time it leaves the same state |
| DailyReset.ResetDailyQueue | functions/index.js:10-35 | with the commit succeeding, the queue is empty and meta is {S5-01, now}; with it failing, nothing changes; the other collections are untouched |
| Admin.IssueTicket | src/Admin.jsx:128-166 | the issued number is the number written to meta; afterwards the meta is dated today; the number starts with "S5-" |
| Admin.FirstOfDay | src/Admin.jsx:134-166 | with no meta document, or one dated another day, the number is "S5-01" and meta becomes {S5-01, now}, whatever was stored |
| Admin.IssueKeepsFields | src/Admin.jsx:149-158 | on the same day the number is the one after the stored one, and the other meta fields are kept |
| Admin.IssueSameDay | src/Admin.jsx:149-158 | on the same day, after S5-NN comes S5-(NN+1), and the reset time is kept |
| Admin.IssueRunCounts | src/Admin.jsx:149-158 | registrations on the meta document's day after S5-NN get S5-(NN+1), S5-(NN+2), … in order |
| Admin.FirstOfDayRun | src/Admin.jsx:134-166 | the first registration finding no meta, or a stale one, gets S5-01; the rest continue from the fresh meta document |
| Admin.RestOfDayRun | src/Admin.jsx:149-158 | after a fresh meta document, that day's registrations get S5-02, S5-03, … in order |
| Admin.DayNumbers | src/Admin.jsx:134-166 | a day whose first registration finds no meta or a stale one hands out S5-01, S5-02, … in order, with no two the same |
| Admin.NumbersFromDistinct | src/Admin.jsx:154 | the numbers of a run are pairwise different |
| Admin.NumbersFromSkipsFirst | src/Admin.jsx:154 | a run of numbers starting at S5-02 or later never contains S5-01 |
| Admin.AfterResetNumbers | src/Admin.jsx:141-158 | after a reset, that day's registrations get S5-02, S5-03, …, and S5-01 is never issued that day |
| Admin.ActivePatientsMembers | src/Admin.jsx:69-80 | the subscription view holds exactly the tickets that are waiting or being attended, in queue order |
| Admin.FindActive | src/Admin.jsx:88-89 | `find` on the view finds the same ticket as on the whole queue |
| Admin.CompleteByKey | src/Admin.jsx:91-93 | completing the attended ticket's key completes the first attended position; keys and waiting tickets are kept |
| Admin.AdmitByKey | src/Admin.jsx:96-97 | admitting the waiting ticket's key admits that position |
| Admin.CallNextFresh | src/Admin.jsx:86-107 | with an up-to-date view, call-next never fails: the first attended ticket becomes completed, the first waiting one becomes attended, and it reports that ticket's number, or "no more patients waiting" when none waits |
| Admin.PromoteEffect | src/Admin.jsx:88-99 | a call changes at most the two tickets it finds, and only their statuses; no status moves backwards; the earliest waiting ticket is attended; the earliest attended one is completed |
| Admin.CompleteFirstCounts | src/Admin.jsx:88-93 | completing the first attended ticket moves one ticket from attended to completed when one is attended, and leaves the waiting count alone |
| Admin.PromoteCounts | src/Admin.jsx:88-102 | waiting tickets drop by one when any waits; completed ones rise by one when one was attended; attended ones change accordingly |
| Admin.PromoteServing | src/Admin.jsx:91-99 | if at most one patient was attended before a call, at most one is after, and one is exactly when someone was waiting |
| Admin.AdminConsole.constructor | src/Admin.jsx:20-24 | an empty input and an empty view |
| Admin.AdminConsole.SetEmpID | src/Admin.jsx:218 | the input's `onChange` sets the employee ID |
| Admin.AdminConsole.Open | src/Admin.jsx:30-66 | with meta dated another day and the commit succeeding, the queue is empty and meta is {S5-01, now}; with meta absent, current or the commit failing, nothing changes |
| Admin.AdminConsole.Refresh | src/Admin.jsx:75-81 | the view becomes the active patients of the queue |
| Admin.AdminConsole.RegisterPatient | src/Admin.jsx:109-184 | an ID that is not six digits is rejected with nothing changed; an ID not on the roster likewise; otherwise the issued number is reported, meta is written, the queue holds a waiting ticket under the ID with that number (overwriting any earlier one), the input is cleared; at most one attended patient stays at most one |
| Admin.AdminConsole.InviteNextPatient | src/Admin.jsx:86-107 | the queue and outcome are `CallNext` of the view; with the view up to date, that is `Promote` and at most one patient stays attended |
| TvDisplay.ReplaceZerosChars | src/displays/TVQueueDisplay.jsx:18 | the result of replacing every '0' has no '0'; every character comes from the input or from " zero " |
| TvDisplay.ReplaceZerosExample | src/displays/TVQueueDisplay.jsx:18 | the zeros of "S5-01" are spelled out: "S5- zero 1" |
| TvDisplay.FirstUpper | src/displays/TVQueueDisplay.jsx:19 | the position of the first letter A-Z; none before it; none exactly when there is no capital |
| TvDisplay.SpaceAfterFirstCapitalAt | src/displays/TVQueueDisplay.jsx:19 | the one space goes right after the first capital; later capitals are left alone; no capital means no change |
| TvDisplay.ZerosRoundTrip | src/displays/TVQueueDisplay.jsx:18 | for a string without spaces, restoring zeros undoes the replacement |
| TvDisplay.SpaceRoundTrip | src/displays/TVQueueDisplay.jsx:19 | removing the space after the first capital undoes its insertion |
| TvDisplay.FormatRoundTrip | src/displays/TVQueueDisplay.jsx:16-20 | a number without spaces is recovered from its spoken form |
| TvDisplay.NumberedRoundTrip | src/displays/TVQueueDisplay.jsx:16-20 | every issued S5-NN is recovered from its spoken form |
| TvDisplay.FormatHasNoZero | src/displays/TVQueueDisplay.jsx:18 | the spoken form contains no '0' |
| TvDisplay.ReplaceZerosNoZero | src/displays/TVQueueDisplay.jsx:18 | a string without '0' is not changed by the zero replacement |
| TvDisplay.FormatUnchanged | src/displays/TVQueueDisplay.jsx:17-19 | a number with no '0' and no capital is spoken as written |
| TvDisplay.NonZerosInReplaced | src/displays/TVQueueDisplay.jsx:18 | the characters other than '0' survive the replacement in order |
| TvDisplay.SubseqOfSpaced | src/displays/TVQueueDisplay.jsx:19 | inserting the space keeps every subsequence |
| TvDisplay.FormatKeepsOrder | src/displays/TVQueueDisplay.jsx:16-20 | the input's characters other than '0' appear in the spoken form in their original order |
| TvDisplay.WithStatusOrder | src/displays/TVQueueDisplay.jsx:84 | the filtered list is a subsequence of the queue and keeps the timestamp order |
| TvDisplay.WithStatusSubseq | src/displays/TVQueueDisplay.jsx:84 | `filter` takes its tickets from the queue in their order |
| TvDisplay.WithStatusOrdered | src/displays/TVQueueDisplay.jsx:84 | `filter` of a queue in timestamp order is in timestamp order |
| TvDisplay.ScreenContents | src/displays/TVQueueDisplay.jsx:64-85 | the screen shows the earliest attended patient or none; the upcoming list holds exactly the waiting patients, in timestamp order |
| TvDisplay.AnnounceWhenChanged | src/displays/TVQueueDisplay.jsx:76-79 | an announcement is made exactly when someone is attended whose number differs from the shown one (or nothing or an empty number is shown); the spoken text is "Now serving " and the spoken number |
| TvDisplay.NoRepeatAnnouncement | src/displays/TVQueueDisplay.jsx:76-89 | the same snapshot delivered again after re-subscribing keeps the screen and announces nothing, unless the number is empty |
| TvDisplay.FormatExample | src/displays/TVQueueDisplay.jsx:16-20 | "S5-01" is spoken as "S 5- zero 1" |
| ManageOptions.ExcludeCount | src/ManageOptions.jsx:62 | the filter removes every occurrence of the id and keeps every other id as often as before |
| ManageOptions.ExcludeOrder | src/ManageOptions.jsx:62 | the ids kept stay in order |
| ManageOptions.ExcludeAppend | src/ManageOptions.jsx:62 | the filter distributes over concatenation |
| ManageOptions.ExcludeAbsent | src/ManageOptions.jsx:62 | filtering out an absent id changes nothing |
| ManageOptions.ToggleSpec | src/ManageOptions.jsx:60-70 | toggling a ticked id removes every occurrence and keeps the rest in order; toggling an unticked one appends it at the end; no other id's count changes |
| ManageOptions.ToggleTwice | src/ManageOptions.jsx:61-63 | toggling an unticked id twice restores the selection |
| ManageOptions.AddItemSpec | src/ManageOptions.jsx:30-42 | a blank name leaves the list as it is; otherwise exactly one `{id, name}` entry is appended, with the name as typed, and earlier entries are kept |
| ManageOptions.WithoutIdsSpec | src/ManageOptions.jsx:49 | the list keeps exactly the entries whose id is not ticked, in their order, and never grows |
| ManageOptions.WithoutNoIds | src/ManageOptions.jsx:49 | nothing ticked leaves the list as it is |
| ManageOptions.RemoveAfterFilter | src/ManageOptions.jsx:46-49 | one more `deleteDoc` after filtering equals filtering by one more id |
| ManageOptions.OptionsEditor.constructor | src/ManageOptions.jsx:14-28 | both lists are read from the database; nothing is ticked or typed |
| ManageOptions.OptionsEditor.SetInput | src/ManageOptions.jsx:94 | an add input's `onChange` sets that input only |
| ManageOptions.OptionsEditor.ToggleSelection | src/ManageOptions.jsx:60-70 | that list's selection becomes its toggle; everything else is kept |
| ManageOptions.OptionsEditor.Add | src/ManageOptions.jsx:30-42 | the list on screen and the stored collection both become `AddItem` of the input; the input is cleared only when the name was not blank; the editor stays in step with the database |
| ManageOptions.OptionsEditor.Append | src/ManageOptions.jsx:33-34 | the new entry is appended to the list on screen and that list's input is cleared; the other list and both selections are kept |
| ManageOptions.OptionsEditor.DeleteAll | src/ManageOptions.jsx:46-48 | the delete loop leaves the stored collection filtered by the ticked ids |
| ManageOptions.OptionsEditor.DeleteSelected | src/ManageOptions.jsx:44-58 | both lists, on screen and stored, keep exactly the entries not ticked; both selections are cleared; the editor stays in step with the database |
| EmployeeInput.BuildEmployee | src/InputEmployeeDataForm.jsx:19-32 | no record exactly when empID, name, gender or department is empty; otherwise those fields are copied; the mobile is copied, or "Not provided" when it is empty |
| EmployeeInput.BuiltRecordComplete | src/InputEmployeeDataForm.jsx:25-32 | no field of a built record is empty |
| EmployeeInput.EmployeeForm.constructor | src/InputEmployeeDataForm.jsx:8-13 | all five inputs start empty |
| EmployeeInput.EmployeeForm.Fill | src/InputEmployeeDataForm.jsx:72-153 | the inputs' `onChange` handlers set the five fields |
| EmployeeInput.EmployeeForm.Submit | src/InputEmployeeDataForm.jsx:15-51 | a missing mandatory field is rejected, with nothing written and the inputs kept; a failed write keeps everything; a successful one appends the built record to the roster and clears all five inputs |

## Left out

- Database I/O is modelled as in-memory updates on `Store.ClinicDb`. Network calls, latency, the
  subscription machinery and unsubscribe cleanup are not modelled.
- Concurrency between several admin consoles, the TV and the scheduled function is left out. Each
  handler is one sequential step, and the read-then-write races the code allows are not modelled.
- Timezones, daylight saving, `toLocaleDateString`/`toLocaleTimeString` and the display's
  once-a-second clock are reduced to integer milliseconds and a fixed UTC offset.
- The cron schedule (midnight UTC) is not modelled. The scheduled reset runs when it is called.
- The Web Speech API is left out. Only the decision to announce and the sentence spoken are
  modelled; the browser's missing-support branch is not.
- `parseInt` on numerals too large for an exact double, and `Infinity`, are floating point and not
  modelled. Numbers are unbounded integers.
- Firestore breaks timestamp ties by document key. In the model, a re-registered ticket with an
  equal timestamp goes after the tickets already stored.
- Backend or network failures of the writes during registration and call-next are left out (the
  `updateDoc` of a missing key is modelled: `Store.ClinicDb.UpdateStatus` reports it). The reset batches and the roster
  write have an explicit success flag: a failure between awaited writes in a handler would leave
  part of its writes done, and the model does not follow that.
- Admin.AdminConsole.InviteNextPatient: a view older than the queue is allowed, but the
  at-most-one-attended guarantee is stated only for an up-to-date view.
- Only the first document of a "queueMeta" collection with several documents is read by the code.
  The model has at most one meta document.
- A failed `deleteDoc` in the middle of the option delete loop, and a failed `addDoc` of an option,
  are not modelled.
- The TV display renders `patient.name`, which the queue documents do not hold. That field, and
  all JSX rendering and styling, are left out.
- `src/Auth.jsx`, `src/App.jsx` and `src/CalendarWithTransactions.jsx` are not part of this model.
  They hold authentication calls, routing and a date-filtered table.
