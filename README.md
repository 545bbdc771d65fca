# paginoid reading tracker: book status, goal reminder and add-book form

A Dafny model of the three pieces of plain logic inside the reading tracker's views:

- **Book progress** (`book_progress.dfy`, module `BookProgress`). When a user edits a book's
  current page, the book list's progress editor works out the book's new status. The status
  is one of `"Por Leer"` (to read), `"Leyendo"` (reading) or `"Leído"` (read). The editor then
  builds the update record for the book's document: always `currentPage` and `status`, plus a
  server-time `finishedAt` stamp only when the book enters `"Leído"`. The numeric page input
  clamps what is typed into `[0, totalPages || 1]`. The editor's state is the class
  `ProgressEditor`.
- **Goal reminder** (`goal_reminder.dfy`, module `GoalReminder`). One run of the notification
  check works as follows:
  - it keeps the goals whose stored `current` counter is below `total`;
  - it stable-sorts them by deadline, with 2100-01-01 standing in for a missing deadline, and
    takes the first;
  - it counts the days left on midnight-stripped dates;
  - it composes the title and body by the number of active goals;
  - it applies the once-per-day throttle kept in local storage under
    `last_notification_check_<userId>`.

  `RunCheck` is the run as a function of its inputs. `RunCheckWith` runs it against a
  `LocalStorage` object that it changes in place.
- **Add-book form** (`add_book.dfy`, module `AddBook`). The submit handler trims and checks the
  required fields and parses the page count with `parseInt(…, 10)`. It builds the new book
  record with `currentPage` 0, hands it to the database write, and then either resets the form
  or shows the permission error. The form's state is the class `AddBookForm`.
- **JavaScript text built-ins** (`js_text.dfy`, module `JsText`): `String.prototype.trim`,
  `parseInt` with radix 10, and `${n}` for integers. These are modelled once and shared.
  The rendering is plain decimal, and the round trip `parseInt(`${n}`) == n` is proved for
  that rendering.
  `wrappers.dfy` holds `Option`, which stands for `null`, `undefined` and missing fields.

Times are integers: milliseconds of local wall-clock time since 1970-01-01. A day number is a
time divided by 86 400 000, rounded down. The clock (`now`, `todayKey`, `createdAt`), the
database reads and writes, and the notification permission are all parameters.

The status rules can also be read as a priority list, where the first matching rule wins.
Where that reading and the code disagree, and in the other places below where the code does
something a reader might not expect, the model follows the code:

- The code applies its three rules in sequence, each overriding the one before: A (To-Read
  becomes Reading), B (reaching the total becomes Read), then C (page 0 while Reading becomes
  To-Read again). The priority list puts "reaching the total" first.
- The two orders agree whenever `totalPages >= 0` (`NextStatusMatchesPriority`). The add form
  only creates books with a positive count.
- With a negative `totalPages`, rule C wins and `finishedAt` is stamped although the book ends
  `"Por Leer"` (`NegativeTotalDiverges`).
- With exactly one active goal, the body shows the raw number of days (`Faltan 0 días…`), not
  the "due today" phrase (`SingleGoalDueTodayExample`).
- When the chosen goal has no deadline, it sorts as due on 2100-01-01. Its days left, however,
  are counted against the current time, so the count is 0.
- The filter reads the stored `current` field of each goal. Only goals counted by hand
  (chapters) ever have that field updated. Goals counted in books, pages or hours are created
  with `current: 0`, and their shown progress is computed from other records. So such a goal
  stays active, and keeps being reminded about, after its shown progress reaches the target.
  The model follows the code (`ActiveGoals`).
- In the shipped code the demo mode is a constant `true`, which turns the throttle off. Here
  `demo` is an input, so both configurations are modelled.

## Model

| member | source | states |
|---|---|---|
| BookProgress.EffectiveTotal | app/components/BookList.tsx:77 | `totalPages \|\| 1` is 1 for a zero count, equals `totalPages` when that is non-zero, is never 0, and is at least 1 for a non-negative count |
| BookProgress.NextStatus | app/components/BookList.tsx:76-105 | reaching the total gives `"Leído"` unless rule C applies; To-Read with 0 < page < total gives `"Leyendo"`; page 0 while `"Leyendo"` gives `"Por Leer"`; the status changes only under one of those three conditions and only to one of the three statuses |
| BookProgress.ProgressUpdate | app/components/BookList.tsx:79-105 | the update has exactly the keys `currentPage`, `status` and, only when page ≥ total and the previous status was not `"Leído"`, `finishedAt`; `currentPage` is the edited page, `status` is the derived status, `finishedAt` is the server timestamp |
| BookProgress.ClampPage | app/components/BookList.tsx:202 | for a non-negative page count the result lies in `[0, totalPages \|\| 1]`; a value already in range is kept; below 0 gives 0; above the total gives the total |
| BookProgress.NextStatusMatchesPriority | app/components/BookList.tsx:87-103 | for `totalPages >= 0` the code's sequential overrides give the same status as the priority list (Read, then Reading, then To-Read, then unchanged) |
| BookProgress.NegativeTotalDiverges | app/components/BookList.tsx:92-103 | with `totalPages = -5`, page 0 and `"Leyendo"`, rule C wins over rule B, and the completion date is still stamped |
| BookProgress.ReadCharacterisation | app/components/BookList.tsx:92-93 | for `totalPages >= 0` the new status is `"Leído"` exactly when the page reaches the total or the book was already `"Leído"` |
| BookProgress.UnchangedOtherwise | app/components/BookList.tsx:76-105 | when none of rules A, B, C applies, the status is the previous one (e.g. `"Leído"` below the total, `"Por Leer"` at page 0) |
| BookProgress.NextStatusIdempotent | app/components/BookList.tsx:87-105 | for `totalPages >= 0`, deriving again from the resulting status with the same page gives the same status |
| BookProgress.FinishedStampedOnce | app/components/BookList.tsx:94-97 | a stamp happens only on entry into `"Leído"`; a save from `"Leído"` never stamps; after a stamping save, no later save stamps again |
| BookProgress.ProgressUpdateResave | app/components/BookList.tsx:80-105 | saving the same page again from the resulting status writes the same record without `finishedAt` |
| BookProgress.ProgressEditor.constructor | app/components/BookList.tsx:30-31 | the modal starts closed with page 0 |
| BookProgress.ProgressEditor.OpenProgressModal | app/components/BookList.tsx:67-70 | opening the modal keeps a copy of the book and shows its current page |
| BookProgress.ProgressEditor.Close | app/components/BookList.tsx:177-182 | the backdrop and the close button discard the edit |
| BookProgress.ProgressEditor.EnterPage | app/components/BookList.tsx:202 | the typed value is stored clamped into `[0, totalPages \|\| 1]` |
| BookProgress.ProgressEditor.SaveProgress | app/components/BookList.tsx:73-114 | nothing is written without a truthy user id or an open modal; otherwise the written record is `ProgressUpdate` of the book's previous status, total and the edited page; a successful write closes the modal and a failed one leaves it open |
| GoalReminder.CurrentOf | app/components/NotificationManager.tsx:48 | `Number(g.current) \|\| 0` is the stored number, or 0 when it is missing or NaN |
| GoalReminder.TotalOf | app/components/NotificationManager.tsx:49 | `Number(g.total) \|\| 1` is the stored number when it is present and non-zero, and 1 when it is missing, NaN or 0; it is never 0 |
| GoalReminder.ActiveGoals | app/components/NotificationManager.tsx:45-51 | a goal is kept exactly when it is in the input and `current < total` (`IsActive`); each active goal occurs as often as in the input and an inactive one not at all; the result is no longer than the input and is the input itself when every goal is active |
| GoalReminder.ActiveGoalsAppend | app/components/NotificationManager.tsx:45-51 | filtering a concatenation is the concatenation of the filtered parts, so the filter keeps the input's order |
| GoalReminder.ActiveGoalsOfOne | app/components/NotificationManager.tsx:47-50 | a one-goal list keeps its goal exactly when `current < total` |
| GoalReminder.Insert | app/components/NotificationManager.tsx:58-62 | inserting keeps the elements (as a multiset), puts the goal first exactly when it is not later than the old head, and keeps a sorted sequence sorted |
| GoalReminder.SortByDeadline | app/components/NotificationManager.tsx:58-62 | the sort is a permutation of its input and is ordered by deadline, with 2100-01-01 for a missing one |
| GoalReminder.SortedHeadIsEarliest | app/components/NotificationManager.tsx:58-64 | the first goal of a sorted sequence has a deadline no later than any other |
| GoalReminder.EarliestIndex | app/components/NotificationManager.tsx:58-64 | the reference choice: the first position whose deadline is no later than every other, with every earlier position strictly later |
| GoalReminder.SortHeadIsFirstEarliest | app/components/NotificationManager.tsx:58-64 | the goal the stable sort puts first is the first of the goals with the earliest deadline |
| GoalReminder.Midnight | app/components/NotificationManager.tsx:70-72 | the midnight of a time is at most that time, less than a day before it, and a whole number of days |
| GoalReminder.CeilDiv | app/components/NotificationManager.tsx:75 | `Math.ceil(a / b)` is the least q with `a <= b * q` |
| GoalReminder.DaysLeft | app/components/NotificationManager.tsx:67-75 | days left is the deadline's day number minus today's; for a goal with no deadline it is 0 |
| GoalReminder.CeilDivDays | app/components/NotificationManager.tsx:74-75 | a whole number of days divided by the day length and rounded up is that number |
| GoalReminder.TimePhrase | app/components/NotificationManager.tsx:81-84 | "vence HOY" exactly for 0 days, "vence mañana" exactly for 1, a phrase in "venció…" exactly for a negative count, and a phrase ending in " días" for every count other than 0 and 1 |
| GoalReminder.TimePhraseShowsDays | app/components/NotificationManager.tsx:81-84 | an overdue phrase is "venció hace " followed by a number that `parseInt` reads as `\|d\|`; a phrase for more than one day is "vence en " followed by a number read as `d` |
| GoalReminder.Title | app/components/NotificationManager.tsx:86-92 | the title is "🎯 Tu Meta Actual" exactly when there is one active goal, and "⚠️ Prioridad" otherwise |
| GoalReminder.Body | app/components/NotificationManager.tsx:86-92 | the body quotes the goal's name: at the end, before the final period, for one goal; at the start for several |
| GoalReminder.BodyShowsDays | app/components/NotificationManager.tsx:86-92 | the single-goal body is "Faltan " followed by a number that `parseInt` reads as the raw `daysLeft`; the priority body carries the time phrase between `"<name>" es la más próxima (` and `).` |
| GoalReminder.TimePhraseExamples | app/components/NotificationManager.tsx:81-84 | −3 → "venció hace 3 días", 0 → "vence HOY", 1 → "vence mañana", 2 → "vence en 2 días" |
| GoalReminder.TimePhraseInjective | app/components/NotificationManager.tsx:81-84 | different day counts never give the same phrase |
| GoalReminder.SingleBodyExample | app/components/NotificationManager.tsx:86-88 | the single-goal body shows the raw day count: `Faltan 0 días para terminar "X".` |
| GoalReminder.ComposeMessage | app/components/NotificationManager.tsx:77-92 | the step-by-step assignments produce `Title(count)` ("🎯 Tu Meta Actual" for one goal, "⚠️ Prioridad" otherwise) and `Body(count, name, daysLeft)` |
| GoalReminder.RunCheck | app/components/NotificationManager.tsx:27-99 | nothing is checked exactly when there is no truthy user or permission is not `granted`; it is throttled exactly when the throttle applies and the stored value under `ThrottleKey` equals today's key; once past those checks (`ReachesFetch`), the run fails exactly when the query fails, finds no active goals exactly when the filter is empty, and sends exactly when it is not; the key is written exactly after a throttled-mode send, and storage is otherwise untouched |
| GoalReminder.SentMessage | app/components/NotificationManager.tsx:58-95 | a sent notification carries the title and body for the number of active goals, built from the first active goal with the earliest deadline |
| GoalReminder.SecondRunSameDaySendsNothing | app/components/NotificationManager.tsx:34-98 | in throttled mode, after a run that sent, a second run with the same day key sends nothing and leaves storage as it is |
| GoalReminder.UnthrottledIgnoresStorage | app/components/NotificationManager.tsx:35-99 | in demo mode or for a manual test, the outcome does not depend on the stored key and storage is never written |
| GoalReminder.PriorityExample | app/components/NotificationManager.tsx:58-98 | two active goals due in 10 and 2 days: a priority notification naming the goal due in 2 days, and today's key is stored |
| GoalReminder.SingleGoalDueTodayExample | app/components/NotificationManager.tsx:64-88 | one active goal due today: the single-goal title with a body giving 0 days |
| GoalReminder.LocalStorage.GetItem | app/components/NotificationManager.tsx:34 | reading a key gives its value, or null when it is absent |
| GoalReminder.LocalStorage.SetItem | app/components/NotificationManager.tsx:98 | writing a key changes that key only |
| GoalReminder.RunCheckWith | app/components/NotificationManager.tsx:27-99 | the imperative run returns `RunCheck`'s outcome and leaves the storage object holding `RunCheck`'s storage |
| JsText.IntToString | app/components/NotificationManager.tsx:81-88 | `${i}` starts with a minus sign exactly for a negative number, and the rest is decimal digits |
| JsText.TrimStart | app/components/AddBookForm.tsx:59 | the result is a suffix of the input, everything dropped is white space, and it does not start with white space |
| JsText.TrimEnd | app/components/AddBookForm.tsx:59 | the result is a prefix of the input, everything dropped is white space, and it does not end with white space |
| JsText.Trim | app/components/AddBookForm.tsx:59 | `trim()` is a contiguous slice of the input, and only white space is cut off either side of it (`TrimsTo`); it is empty exactly when the input is all ECMAScript white space; otherwise it starts and ends with a non-blank |
| JsText.TrimIdempotent | app/components/AddBookForm.tsx:74-75 | trimming a trimmed string changes nothing |
| JsText.DigitRun | app/components/AddBookForm.tsx:66 | the leading run of decimal digits is all digits and is followed by a non-digit or the end |
| JsText.ParseIntPrefix | app/components/AddBookForm.tsx:66 | `parseInt(ws + sign + digits + rest, 10)`, with `rest` not starting with a digit, is the signed value of the digits: only the leading integer counts |
| JsText.NatToString | app/components/NotificationManager.tsx:88 | the decimal rendering is a non-empty digit string without leading zeros that denotes the number |
| JsText.ParseIntNaN | app/components/AddBookForm.tsx:66-67 | `parseInt` is NaN exactly when no decimal digit follows the leading white space and the optional sign |
| JsText.ParseIntNoDigits | app/components/AddBookForm.tsx:66-67 | white space and an optional sign followed by the end or by a character that is not a digit (nor another blank or sign) give NaN |
| JsText.ParseIntRoundTrip | app/components/AddBookForm.tsx:66 | `parseInt` reads back every integer that `${i}` renders |
| JsText.IntToStringInjective | app/components/NotificationManager.tsx:81-88 | distinct integers render as distinct strings |
| AddBook.Validate | app/components/AddBookForm.tsx:59-71 | "required fields" error exactly when title or author is blank after trimming or the page text is empty; "invalid pages" error exactly when the fields are present but `parseInt` is NaN or ≤ 0; accepted exactly otherwise, with the parsed page count, which is positive |
| AddBook.NewBookRecord | app/components/AddBookForm.tsx:73-82 | the record has the trimmed title and author, the selected status, `totalPages` equal to the parsed count, `currentPage` 0, rating 0, an empty review and the creation time |
| AddBook.AfterSaveOf | app/components/AddBookForm.tsx:85-104 | an acknowledged or timed-out write resets the form; a `permission-denied` failure shows "No tienes permiso para guardar."; any other failure still runs the success callback |
| AddBook.LeadingIntegerAccepted | app/components/AddBookForm.tsx:66-71 | a positive number followed by text that does not start with a digit is accepted as that number |
| AddBook.TwelveAbcAccepted | app/components/AddBookForm.tsx:66 | "12abc" is accepted as 12 |
| AddBook.NonPositiveCountRejected | app/components/AddBookForm.tsx:66-71 | a page count of 0 or below is refused with "El número de páginas debe ser válido." |
| AddBook.BlankCountRejected | app/components/AddBookForm.tsx:59-71 | a page text of only white space passes the emptiness check, then is refused as invalid |
| AddBook.PositiveCountAccepted | app/components/AddBookForm.tsx:66-71 | every positive count typed as a plain number is accepted as that number |
| AddBook.AddBookForm.constructor | app/components/AddBookForm.tsx:40-50 | the form starts empty, with status "Por Leer", not loading and no error |
| AddBook.AddBookForm.HandleSubmit | app/components/AddBookForm.tsx:52-108 | with no user it returns at once, leaving `loading` true and writing nothing; otherwise `loading` ends false; a rejected form shows its error, writes nothing and keeps the fields; an accepted form writes exactly `NewBookRecord` of the trimmed fields and parsed count, and then follows `AfterSaveOf` |
| AddBook.AddBookForm.FinishSave | app/components/AddBookForm.tsx:85-107 | after the write: the success callback and a reset to empty fields and "Por Leer", or the callback without the reset, or the permission error without the callback; `loading` ends false |

## Left out

- Database reads, writes, deletes and live subscriptions are left out. A write's outcome is an
  input (`writeSucceeds`, `SaveOutcome`), and the goals query result is an input (`fetched`).
  All of these are calls into the database client.
- `timeoutPromise` is a race between a timer and a promise. It is modelled only by its three
  outcomes: acknowledged, timed out (treated as saved) and failed with an error code.
- Notification dispatch through the service worker or `Notification`, vibration, permission
  requests and the `setInterval`/`setTimeout` scheduling are left out. These are browser APIs
  and timers; a sent notification is the `Sent(title, body)` outcome.
  The model takes the dispatch as returning. When no service worker is registered, waiting for
  one never finishes, so the throttle key is not written and nothing is sent.
- The alerts and console messages of manual tests, and all rendering, are left out.
- The goal-progress aggregation, the stopwatch and the book deletion are left out. They are
  outside the modelled components.
- `getStrokeOffset` and the `Math.round` percentages are left out because they are floating
  point.
- The range slider is left out: the browser itself keeps its value in `[0, totalPages || 1]`.
- Number fields are integers. A missing or NaN number is 0 for books and `None` for goals.
  Fractional page counts and pages are not modelled.
- DaysLeft: counts whole local days and ignores time zones and daylight-saving changes. Such
  a change could make `Math.ceil` over milliseconds differ by one.
- SortByDeadline: the sort works on a sequence value and returns a new one; the in-place
  reordering of the array is not modelled. Only the first element of the sorted goals is
  used. Deadlines are compared to the millisecond, as `getTime()` compares them.
- IntToString: renders every integer in plain decimal. JavaScript renders a Number in plain
  decimal only below 10^21, and holds integers exactly only up to 2^53. Every day count the
  core renders is far below both bounds.
- ParseInt: returns the exact integer. JavaScript rounds digit strings longer than 2^53 to the
  nearest double, and that rounding is not modelled.
- A goal name that is missing (rendered as `undefined`) is not modelled; `name` is a string.
- `toDateString` is not modelled; today's key is an input string.
