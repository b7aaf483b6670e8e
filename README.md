# Mailing campaigns: scheduling and dispatch of a `Sending`

This project models the behaviour of the mailing service's `mails/models.py`:

- how `Sending.save` resolves the owning company and computes `scheduled_at`;
- how `Sending.send` gates on the status, walks the recipients in order, hands one message per recipient to the mail transport, appends one `Event` row per attempt, and re-raises the first failure;
- the display text of a recipient (`Recipient.__str__`).

Modules:

- `Common` (`common.dfy`) holds the shared values:
  - `Option`;
  - Python truthiness of a nullable text column (`Truthy`) and how an f-string prints it (`Formatted`: `None` prints as `"None"`);
  - the `Company` and `User` accounts.
- `Recipients` (`recipients.dfy`) holds the `Recipient` row. `LayoutOf` says which `return` of `__str__` is reached, and `Display` gives the text that return prints.
- `Scheduling` (`scheduling.dfy`) holds the pure part of `save`:
  - the frequency offsets (`Offset`: 1 day, 7 days, 30 days, in seconds);
  - `MakeAware`;
  - `Schedule`, the `scheduled_at` that save leaves;
  - the `user` keyword (`UserArgument`: not passed, or passed with a value that may be `None`) and `AdoptCompany`;
  - `SaveOutcome`, which resolves the company, then the schedule, then hands the leftover keywords to the framework's `Model.save`.
- `Dispatching` (`dispatch.dfy`) holds the dispatch loop as a recursive function, `Dispatch`. It maps the recipients, the letter and the transport's answers to a `Run`. A `Run` is the rows appended, the messages sent and the exception raised. The lemmas cover each outcome of a run.
- `Sendings` (`sending.dfy`) holds the `Sending` class. Its fields are the columns plus:
  - `stored`, the row written by the last successful save;
  - `events`, the `Event` rows of this sending.

  `Save` changes the fields in place in the same order as the source. `Send` is a `while` loop over the recipients that extends `events`. Its contract ties the new log, the messages sent and the outcome to `Dispatch`.

Modelling choices:

- Time is a `DateTime(wall, aware)`: a wall-clock reading in seconds and a timezone flag.
  - `timezone.now()` is the parameter `now`, taken to be aware (the project's `USE_TZ` setting is not part of this model).
  - `make_aware` keeps the wall-clock reading and sets the flag.
- Primary keys are positive, as the database's auto-increment columns issue them (`Key`), so a set company is never the falsy id 0 that `not self.company_id` would also reject.
- The frequency and status are plain text. The columns' choice lists are not enforced on save, so any other text can occur.
- `save` looks for the key `"user"` in its keywords, not at its value, so every case has its own outcome:
  - `user=None` on a sending without a company raises `AttributeError` (`NullUser`);
  - a `user` passed to a sending that already has a company is never popped. It reaches Django 4.2's `Model.save`, the version the project's migrations were generated with, which takes no such keyword. Save then raises `TypeError` (`UnexpectedUser`) after `scheduled_at` has been updated in memory, and no row is written.
- The in-memory fields of a saved sending may be edited before it is saved again; `Valid()` only asks that recipient addresses are unique and that a written row's schedule is aware.
- The transport is a supplied sequence of answers, `replies[i]` for the i-th recipient. `Accepted` means `email.send` returned; `Refused(text)` means it raised an exception whose `str()` is `text`.
- A missing letter makes `self.letter.title` raise inside the `try`. It is logged like a transport failure, with the text of Python's `AttributeError` (`NoLetterText`), and the transport is never called.
- Two steps of `send` come before the loop and outside the `try`, and each can raise with no row written and no message sent:
  - `self.company.email` raises when there is no company (`NoCompanyText`);
  - `self.recipient.all()` raises on a sending that was never saved (`UnsavedText`), since a many-to-many relation needs a primary key.
- `self.recipient.all()` is the field `recipients`, in the order the database returns it. That order comes from the `ordering` on `Recipient` under the database's collation; the model only relies on the addresses being unique (`UniqueEmails`), which follows from `email` being a unique column.

## Model

| member | source | states |
|---|---|---|
| `Recipients.LayoutOf` | mails/models.py:29-41 | which return of `__str__` is reached, in each direction: e-mail only iff no first name; "first last" iff a first name and no middle name; "first" iff all three names; "first middle last" iff first and middle but no last; the "first middle" return is never reached |
| `Recipients.Display` | mails/models.py:29-41 | the display text as a flat table over the truthiness of the three name parts, with a missing last name printed through the f-string |
| `Recipients.DisplayEndsWithEmail` | mails/models.py:29-41 | every display text ends with the address, and is longer than it exactly when there is a first name |
| `Recipients.MissingLastNamePrintsNone` | mails/models.py:33-39 | with a first name and a null last name, the word "None" appears before the colon, with or without a middle name |
| `Scheduling.Schedule` | mails/models.py:112-125 | with no time set, the schedule step succeeds iff the frequency is known, giving `now` plus its offset, aware; a preset time always succeeds and keeps its wall clock, becoming aware; an aware preset time is unchanged |
| `Scheduling.ScheduleAfterNow` | mails/models.py:112-121 | with no time set, a computed first delivery is at least one day after the current time |
| `Scheduling.ScheduleFromFrequency` | mails/models.py:112-121 | with no time set: "daily" gives `now + 86400` s, "weekly" `now + 7 * 86400` s, "monthly" `now + 30 * 86400` s, all aware; any other text fails |
| `Scheduling.ScheduledIsAware` | mails/models.py:112-125 | every `scheduled_at` a successful save leaves is timezone-aware |
| `Scheduling.ScheduleIdempotent` | mails/models.py:112-125 | a second save leaves `scheduled_at` as the first left it, whatever the frequency and the clock |
| `Scheduling.PresetIgnoresFrequency` | mails/models.py:122-125 | with a preset time the frequency and the clock do not affect the result, so an unknown frequency is accepted |
| `Scheduling.SaveOutcome` | mails/models.py:105-127 | each outcome of save, in each direction. It fails on the company iff there is none and no `user` keyword. It fails on a `user=None` iff there is no company. It fails on the frequency iff a company resolves and an unset time meets an unknown frequency. The leftover keyword is rejected iff the company was already set, a `user` was passed and the schedule resolves. It succeeds otherwise |
| `Scheduling.CompanyCheckedFirst` | mails/models.py:107-121 | a missing company is reported whatever the time and the frequency are, including an invalid frequency |
| `Dispatching.DispatchTargets` | mails/models.py:136-170 | row i of a run is about recipient i, this sending and its company; a run has at most one row per recipient, and exactly one each when nothing is raised |
| `Dispatching.DispatchStep` | mails/models.py:136-170 | one loop turn: a failed attempt ends the run with its row and the error, and a successful one continues with the next recipient |
| `Dispatching.AllAccepted` | mails/models.py:136-157 | `send` raises nothing iff every attempt succeeds; then each recipient in order gets exactly one "Success" row and one message with the letter's title and body, the recipient as sole destination and the company's address as Reply-To |
| `Dispatching.FirstRefusal` | mails/models.py:158-170 | when attempt k is the first to fail: exactly k + 1 rows, the first k "Success", row k "failed" with the error text; the same text is raised; messages go to recipients 0 to k and no further (none without a letter) |
| `Dispatching.MissingLetter` | mails/models.py:137-139 | without a letter: a single failed row for the first recipient, no message sent, and the `AttributeError` propagates |
| `Dispatching.FailureIsLast` | mails/models.py:136-170 | only the last row of a run can be "failed"; it is so exactly when an error is raised, and the raised text is that row's response |
| `Dispatching.SuccessfulPrefix` | mails/models.py:136-157 | when the first k attempts succeed, the first k rows are "Success" rows for the first k recipients |
| `Dispatching.OneRowPerRecipient` | mails/models.py:136-170 | over recipients with unique addresses, one dispatch logs at most one row per address |
| `Dispatching.RetryRepeatsDeliveredPrefix` | mails/models.py:129-170 | a second dispatch after a partial failure starts from the first recipient again, so recipients reached by both runs get two "Success" rows |
| `Sendings.Sending.constructor` | mails/models.py:87-103 | an unsaved sending with the given columns, no stored row and no events |
| `Sendings.Sending.Save` | mails/models.py:105-127 | the outcome is `SaveOutcome`. An existing company is kept; otherwise the company of a passed user is adopted, even when the save then fails; otherwise none. `scheduled_at` is `Schedule(...)` when the schedule step was reached and succeeded, unchanged otherwise. Only a successful save writes the row |
| `Sendings.Sending.Send` | mails/models.py:129-170 | when not "launched": no rows, no messages and `Skipped`. When launched without a company, or never saved: the matching error, no rows and no messages. Otherwise `events` grows by exactly the rows of `Dispatch`, the messages sent are its calls, and an error is raised iff the run raises. Only `events` is modified, so the status is never written |

## Left out

- Django's ORM is replaced by in-memory fields and sequences. This covers persistence, `Meta` options, and the mechanics of `ForeignKey`/`ManyToManyField` beyond the two errors above.
- The model does not copy Django's type check on the assignment at mails/models.py:108. That assignment puts the user's company, a text column in users/models.py:8, into a foreign key to a user. The model simply adopts the user's company.
- Sendings.Sending.Send: the sender address `settings.EMAIL_HOST_USER` is the same operator setting on every message, so it is not part of the modelled `Message`.
- The transport call `EmailMessage(...).send()` is replaced by the supplied answer for each recipient, because it is a foreign network call.
- The `logger.info` and `logger.error` lines only produce log output, so they are left out.
- Real time-zone rules are not modelled; time is an integer clock with an awareness flag. The auto-filled timestamps `created_at` and `event_datetime` are left out too.
- Dispatch is modelled as sequential. Concurrent dispatch of the same sending is not guarded in the source, and a sequential model cannot express it.
- `Sending.__str__` and `Maill.__str__` only format text for the admin interface, so they are left out.
- users/views.py, users/forms.py, users/models.py and the schema migration contain no behaviour of this core. They hold HTTP views, e-mail sending, random passwords and declarative field definitions.
