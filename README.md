# Lesson reminder scheduler

A Dafny model of the Telegram reminder scheduler of LessonTimeCheck, a small
tutoring web application in which teachers record lessons and receive a
reminder one hour and five minutes before each lesson starts.

The scheduler is a background worker that polls the lesson table. Each
polling cycle takes the current instant `now` and then runs two passes:

- The one-hour pass selects every lesson whose `notified_one_hour` flag is
  false and whose start lies in the closed window
  `[(now - 60 s) + 1 h, (now + 60 s) + 1 h]`.
- The five-minute pass does the same with `notified_five_minutes` and a
  five-minute lead.

For each selected lesson a pass builds a reminder and hands it to the
Telegram sender. Only when the sender reports success does it set that
threshold's flag and save the flag together with `updated_at`. Each lesson
is handled in its own exception guard, so one failure never stops the
others. A start-up guard makes sure one process starts at most one worker,
even when the development server's autoreloader runs the start-up code
again.

Modules:

- `Options` (`options.dfy`): the `Option` type for a store call that raised.
- `Handles` (`handles.dfy`): `FormatUsername`, the handle normaliser.
- `Lessons` (`lessons.dfy`): the lesson record and the two thresholds. It
  also holds the tolerance window and the query filter (`Due`,
  `Selected`), and a value-level description of a pass: a report of
  `Attempt`s, `ApplyAll` for the records afterwards, `Deliveries` for the
  messages the sender accepted.
- `Notifier` (`notifier.dfy`): the imperative pass and cycle. They run over
  a `LessonStore` object (the table), whose query or save may raise, and a
  `Gateway` object (the sender), whose answer is not known in advance. Each
  method is proved against the `Lessons` functions.
- `Runs` (`runs.dfy`): any sequence of passes. Over any run, each reminder
  of a lesson is recorded at most once, and its flag ends up set exactly when
  it was set before the run or its reminder was recorded during it.
- `Startup` (`startup.dfy`): the start-once guard as a small state machine.

Timestamps are whole seconds, so `timedelta` arithmetic is exact. The
record's fields follow the table as created in
`lessons/migrations/0001_initial.py`. These are the fields the scheduler
reads: name, Telegram username, start time, the two flags and the two
timestamps.

Facts about the code that shape the model:

- There is no recipient check. Every reminder goes to the one configured
  chat, and an empty username only gives an empty handle.
- No record is ever deleted. A successful reminder only sets its flag.
- The tolerance is fixed at 60 seconds on either side of the reminder moment.
- A reminder counts as recorded only when both the send and the save
  succeed. If the send succeeds and the save then raises, the flag stays
  false. The lesson is then selected and sent again in the next cycle that
  still finds it in the window (`SaveFailed` in the model). So the model
  proves "recorded at most once", not "delivered at most once".
- Every selected lesson is handed to the sender once per pass, whatever
  happened to the lessons before it. The gateway's `offered` log and the
  store's `calls` log make this visible: they record every message handed
  to the sender, and every query and save issued together with whether it
  raised.

## Model

| member | source | states |
|---|---|---|
| `Handles.FormatUsername` | lessons/notifier.py:30-35 | The result is empty exactly when the username is empty, and otherwise starts with `@`. A username that already starts with `@` is returned as is. Any other result is the username with one `@` in front. |
| `Handles.FormatUsernameIdempotent` | lessons/notifier.py:33-35 | Formatting an already formatted handle changes nothing. |
| `Handles.FormatUsernameIgnoresPrefix` | lessons/notifier.py:33-35 | A username stored with or without its `@` is displayed the same way. |
| `Handles.FormatUsernameAddsAtMostOnePrefix` | lessons/notifier.py:33-35 | At most one character is added. The result starts with `@@` only if the stored username already did. |
| `Lessons.Lesson.MarkNotified` | lessons/notifier.py:61-63 | The saved record has that threshold's flag set and `updated_at` stamped. Every other column, including the other flag, is unchanged. |
| `Lessons.NewLesson` | lessons/views.py:17-19 | A lesson saved by the lesson form starts with both reminders pending. |
| `Lessons.WindowEdges` | lessons/notifier.py:44-53 | Both ends of the window, lead ± 60 s, are accepted. One second beyond either end is rejected. |
| `Lessons.DueFrom` | lessons/notifier.py:49-53 | Every selected position is in range and passes the filter. The positions are in strictly increasing store order. |
| `Lessons.DueFromComplete` | lessons/notifier.py:49-53 | Every record from the start position on that passes the filter is selected. |
| `Lessons.SelectedIff` | lessons/notifier.py:49-53 | The query selects a record if and only if its flag is false and its start lies in the closed window. |
| `Lessons.OneHourSelection` | lessons/notifier.py:44-53 | The one-hour query selects a record if and only if `notified_one_hour` is false and `now + 3600 - 60 <= start_time <= now + 3600 + 60`. |
| `Lessons.FiveMinuteSelection` | lessons/notifier.py:70-75 | The five-minute query selects a record if and only if `notified_five_minutes` is false and `now + 300 - 60 <= start_time <= now + 300 + 60`. |
| `Lessons.ApplyAllAt` | lessons/notifier.py:54-68 | After a pass, a record no attempt saved is exactly as it was. A record some attempt saved has its flag set and every other column except `updated_at` unchanged. |
| `Lessons.ExtendReport` | lessons/notifier.py:54-68 | Handling one more record applies its save last and appends its message, if delivered, last. |
| `Lessons.NextRecordUntouched` | lessons/notifier.py:54-55 | The record a pass is about to handle has not been changed by the attempts before it in the same pass. |
| `Lessons.ApplyAllKeepsFlags` | lessons/notifier.py:62-63 | A pass never clears a flag. |
| `Lessons.RemindersAt` | lessons/notifier.py:57-60 | The k-th reminder of a sequence of positions is the reminder of the lesson at the k-th position. |
| `Lessons.FlagSetOnlyAfterDelivery` | lessons/notifier.py:61-63 | A flag goes from false to true only for a record whose send returned true in that pass. |
| `Lessons.ApplyAllKeepsOtherSelection` | lessons/notifier.py:70-75 | A pass of one threshold leaves the other threshold's selection unchanged. So the five-minute query selects the same records after the one-hour pass as before it. |
| `Lessons.RepeatedPassRetriesOnlyUnrecorded` | lessons/notifier.py:49-63 | A repeated pass at the same `now` selects exactly the records of the first pass that were not recorded. A recorded reminder is never attempted again. A failed one is attempted again. |
| `Lessons.UnselectedUntouched` | lessons/notifier.py:49-53 | A record outside the window, or already flagged, gets no attempt and is not changed. |
| `Notifier.LessonStore.Select` | lessons/notifier.py:49-53 | A query that does not raise returns exactly the selected positions. Every query is appended to the call log with whether it raised. |
| `Notifier.LessonStore.SaveNotified` | lessons/notifier.py:63 | A save that succeeds writes the flag and an `updated_at` no earlier than `now`. A save that raises changes nothing. Every save is appended to the call log with whether it raised. |
| `Notifier.Gateway.Send` | lessons/notifier.py:16-27 | The sender returns a boolean and never raises. Every message handed to it is appended to `offered`. Its delivered log grows by the message exactly when it returns true. |
| `Notifier.HandleLesson` | lessons/notifier.py:55-68 | The lesson's reminder is handed to the sender exactly once. When the send fails, no save is issued and the record is unchanged. When it succeeds, exactly one save of that lesson's flag is issued. `SaveFailed` means that save raised and the record is unchanged. `Recorded` means it went through and the record is `MarkNotified`. |
| `Notifier.HandleAll` | lessons/notifier.py:54-68 | The loop over the query result handles every selected position in order. It offers one reminder per position, records one attempt per position and issues one save per delivered attempt, so a failure on one lesson never skips another. |
| `Notifier.RunPass` | lessons/notifier.py:49-68 | A pass issues the query. `None` means the query raised: nothing else is issued, offered, sent or changed. Otherwise the reminders of exactly the selected records are offered to the sender, in store order, one each. The saves issued are those of the delivered attempts. The new table is `ApplyAll` of the old one, and the delivered log grows by `Deliveries`. |
| `Notifier.RunCycle` | lessons/notifier.py:40-92 | A cycle always issues the one-hour query. When that query does not raise, the one-hour pass runs and then the five-minute query is issued. The store's call log is stated in full: the two queries, the saves of the delivered one-hour attempts and, when the second query does not raise, those of the delivered five-minute attempts, and nothing else. Both passes select from the table as it stood before the cycle. A raised query abandons the rest of the cycle. The completed passes, one or two, form a valid run of the `Runs` model, and the table afterwards is that run's result. |
| `Runs.CoversIncreasing` | lessons/notifier.py:54 | A pass visits the selected records in increasing store order, never one twice. |
| `Runs.CountRecordedExact` | lessons/notifier.py:54-63 | Within one pass, a record is recorded once or not at all. |
| `Runs.RunsCompose` | lessons/notifier.py:39-98 | A valid run followed by a valid run from where it ended is one valid run with the composed result. So the successive cycles of the polling loop form one run, and `RecordedAtMostOnce` applies across cycles. |
| `Runs.RecordedAtMostOnce` | lessons/notifier.py:49-87 | Over any run of passes, each threshold's reminder for a record is recorded at most once, and never if its flag was already set. The flag ends up set exactly when it was set before or the reminder was recorded. |
| `Runs.NewLessonNotifiedAtMostOnce` | lessons/notifier.py:49-87 | A record equal to `NewLesson(...)`, as the lesson form saves it, gets each of its two reminders recorded at most once over any run. |
| `Startup.NotifierProcess.constructor` | lessons/notifier.py:12 | A process starts with the flag false and no worker, and `Valid()` (one worker exactly when the flag is set) holds. |
| `Startup.NotifierProcess.StartOnce` | lessons/notifier.py:101-110 | A call returns early if the worker was started, or if `DEBUG` is on and `RUN_MAIN` is not `"true"`. Otherwise it starts one worker and sets the flag. `Valid()` is preserved. |
| `Startup.StartedGuardIgnoresCalls` | lessons/notifier.py:106-107 | Once the flag is set, every later call returns without starting anything. |
| `Startup.DebugReloaderParentNeverStarts` | lessons/notifier.py:105-107 | Calls with `DEBUG` on and `RUN_MAIN` not `"true"` never start a worker, and the flag stays false. |
| `Startup.AtMostOneWorker` | lessons/notifier.py:101-110 | However many calls are made, with whatever settings, at most one worker is started. One has been started exactly when the flag is set. |
| `Startup.FirstEligibleCallStarts` | lessons/notifier.py:106-110 | On an unstarted process, a call with `DEBUG` off or `RUN_MAIN` equal to `"true"` starts exactly one worker. |

## Left out

- The Django ORM (`Lesson.objects.filter`, `lesson.save`, `close_old_connections`, lessons/notifier.py:42, 96) is replaced by an in-memory table. A failing query or save is a nondeterministic failure of `LessonStore`.
- The Telegram client inside `_send_message` (lessons/notifier.py:16-27) is a foreign network call. It is a nondeterministic boolean answer of `Gateway.Send`. The fixed destination chat is not modelled.
- The worker thread, the `_lock`, the infinite `while True` loop and the 10-second sleep (lessons/notifier.py:13, 39, 98, 108-109) are concurrency and timing. The model covers one cycle (`RunCycle`) and arbitrary sequences of passes (`Runs`). `StartOnce` is modelled as one atomic step, which is what the lock provides.
- `timezone.localtime` and the `strftime('%H:%M')` message text (lessons/notifier.py:56-60, 78-82) are library calls. A reminder is an abstract `Message` holding the threshold, the start time, the student name and the formatted handle. Exceptions raised while building the text are not modelled. With the migration's fields nothing there is expected to raise.
- The `Lesson` class in lessons/models.py:46-52 has no `student_name` or `tg_username`. With that class, the attribute reads at lessons/notifier.py:58-59 would raise for every lesson and be swallowed, so no reminder would ever be sent. The model uses the fields of lessons/migrations/0001_initial.py:13-20 instead.
- The query's ordering by `start_time` (lessons/migrations/0001_initial.py:22) is not modelled. Passes visit records in store order. This only affects the order of entries in the gateway's and the store's logs.
- `created_at` and `updated_at` are stamped by the application with `timezone.now()` at save time, the same clock that gives `now` at lessons/notifier.py:43. `SaveNotified` stamps `updated_at` with any reading no earlier than `now`. This assumes that the wall clock does not run backward during a cycle.
- Other writers are not modelled. The lesson form inserts records (lessons/views.py:17-19), and the admin site can edit `start_time` and both flags. `Runs` describes runs in which only the scheduler changes the table between passes. If an admin clears a flag, the reminder can be recorded again, so `RecordedAtMostOnce` does not cover such edits.
- Teacher password hashing (lessons/models.py:18-28), the views, forms, admin, URL routing, settings, the WSGI entry point and the app configuration are request handling, configuration and bootstrap. They are not part of this model, apart from the fact that new lessons start with both flags false (`NewLesson`).
