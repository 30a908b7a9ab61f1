# Homework reminder — a verified model

The homework reminder is a small interactive console program. It keeps an
in-memory list of homework items. Each item is a name and a deadline. A menu
loop offers four choices:

- `1` adds an item, when its deadline text parses;
- `2` lists every item with a 1-based number, in insertion order;
- `3` checks the list for urgent and overdue items;
- `0` exits.

This project models that program in Dafny and proves the rules it follows:

- how the whole-hour distance to a deadline is computed and classified, including the zero-hour boundary;
- the list only grows by appending;
- listing and checking keep store order;
- a menu round changes the list only on choice `1`, and only choice `0` ends the loop.

Files:

- `wrappers.dfy` — module `Wrappers`: the `Option` type. `Option` is the outcome of parsing a deadline.
- `tasks.dfy` — module `Tasks`: the pure part of the program, with the properties proved about it. It holds the `Homework` record, `HoursBetween`, the per-record notice, the report of a check, the store after an add, and the numbered listing.
- `menu.dfy` — module `Menu`: the menu as a state machine. `Step` is one round. `Run` is a session over a finite sequence of inputs.
- `reminder.dfy` — module `Reminder`: class `HomeworkReminder`. Its field `homework` is the list the program updates in place. Its methods are the program's operations, each proved against the specification functions of `Tasks` and `Menu`.

Time is an integer count of nanoseconds on the local timeline, with no time
zone. That is the resolution of a local date-time. `HoursBetween(now, deadline)`
gives the complete hours between the two instants, truncated toward zero. So a
deadline 30 minutes ahead is 0 hours away, and the check reports it as overdue.
The model keeps that behaviour.

## Model

| member | source | states |
|---|---|---|
| `Tasks.HoursBetween` | HomeworkReminder.java:34 | the result is the number of complete hours between now and the deadline, truncated toward zero in both directions: for a deadline ahead, `h*1h <= d < (h+1)*1h`; for one behind, `(h-1)*1h < d <= h*1h` with `h <= 0` |
| `Tasks.HoursToDeadline` | HomeworkReminder.java:33-35 | a record's whole hours are positive exactly when its deadline is at least one hour ahead, and at most 24 exactly when it is less than 25 hours ahead |
| `Tasks.IsDue` | HomeworkReminder.java:118-123 | a record is urgent or overdue, the two branches taken together, exactly when its deadline is less than 25 hours after now |
| `Tasks.AnyDue` | HomeworkReminder.java:114-123 | the final value of `hasUrgent`: some record's deadline is less than 25 hours after now |
| `Tasks.ClassifyByDistance` | HomeworkReminder.java:117-124 | in terms of time alone: no notice exactly for a deadline 25 hours or more ahead; overdue exactly for one less than an hour ahead or already past; urgent with its whole hours exactly in between |
| `Tasks.NoticeFor` | HomeworkReminder.java:117-124 | one record produces at most one notice, and produces one exactly when it is due, that is when its whole hours are at most 24 |
| `Tasks.NoticeClassification` | HomeworkReminder.java:117-124 | `0 < hours <= 24` gives exactly `[Urgent(name, hours)]`; `hours <= 0` gives exactly `[Overdue(name)]`; `hours > 24` gives no notice; each of the three holds in both directions |
| `Tasks.SubHourAheadIsOverdue` | HomeworkReminder.java:33-34 | a deadline less than one hour ahead counts 0 whole hours and is reported overdue, not urgent |
| `Tasks.WholeHoursAheadIsUrgent` | HomeworkReminder.java:117-120 | a deadline exactly `k` hours ahead, with `0 < k <= 24`, is reported urgent carrying exactly `k` hours |
| `Tasks.Notices` | HomeworkReminder.java:116-125 | the per-record notices of a check number at most one per record and never include the "nothing urgent" message |
| `Tasks.Report` | HomeworkReminder.java:112-130 | the report contains the "nothing urgent" message exactly when no record is urgent or overdue |
| `Tasks.NoticesAppend` | HomeworkReminder.java:116-125 | the notices of two stores placed one after the other are the first store's notices followed by the second's |
| `Tasks.NoticesSplit` | HomeworkReminder.java:116-125 | record `i` contributes exactly its own notice, after the notices of the records before it and before those of the records after it |
| `Tasks.NoticeOrder` | HomeworkReminder.java:116-125 | a due record's notice sits at the position counted by the notices of the earlier records, and strictly before the notice of any later due record |
| `Tasks.NoticesEmptyIff` | HomeworkReminder.java:114-124 | no per-record notice is produced if and only if no record is urgent or overdue; this is the `hasUrgent` flag |
| `Tasks.NothingUrgentIff` | HomeworkReminder.java:127-129 | "nothing urgent" is reported if and only if every record is more than 24 whole hours away, which includes the empty store; when reported, it is the whole report |
| `Tasks.Added` | HomeworkReminder.java:87-93 | a failed parse leaves the store as it was; a successful one makes it exactly one longer, with every earlier record unchanged and the new record last |
| `Tasks.Numbered` | HomeworkReminder.java:104-108 | entry `i` carries ordinal `first + i` and the name and deadline of record `i` |
| `Tasks.ListingOf` | HomeworkReminder.java:97-108 | the listing is the empty message if and only if the store is empty; otherwise it has one entry per record, and entry `i` shows ordinal `i + 1` with record `i`'s name and deadline |
| `Tasks.Records` | HomeworkReminder.java:105-107 | recovers from listing entries the name and deadline each one shows, entry by entry |
| `Tasks.ListingRoundTrip` | HomeworkReminder.java:104-108 | a non-empty listing shows every record of the store and nothing else, in store order |
| `Tasks.AddThenList` | HomeworkReminder.java:88-108 | after a successful add, the listing shows the new record last, numbered one past the old size, and every earlier entry is as it was |
| `Menu.Step` | HomeworkReminder.java:49-65 | only choice `1` changes the store, and it does so as `Added`; `2` lists and `3` checks the unchanged store; only `0` says farewell; any other integer is reported as invalid and leaves the store unchanged |
| `Menu.Run` | HomeworkReminder.java:44-66 | a session reports at most one outcome per input round, and an ended session's last report is the farewell |
| `Menu.RoundsBeforeExit` | HomeworkReminder.java:59-62 | counts the rounds before the first that chooses 0: none of those rounds chooses 0, and the round after them does when there is one |
| `Menu.AddedRecords` | HomeworkReminder.java:88-89 | the records appended by the successful adds among some inputs are at most one per input |
| `Menu.StepAppends` | HomeworkReminder.java:49-65 | one round's new store is the old store followed by the record of a successful add on choice 1, and nothing else |
| `Menu.RunExitsOnlyOnZero` | HomeworkReminder.java:44-66 | a session ends if and only if some round chooses 0. It stops right after the first such round, which is the only farewell. Otherwise it runs every round |
| `Menu.RunAppendOnly` | HomeworkReminder.java:44-66 | after a session the store is the starting store followed by the records of the successful adds in the rounds run, in order |
| `Menu.RunKeepsEarlierRecords` | HomeworkReminder.java:38 | no session removes or changes a record stored before it: the old store is a prefix of the new one |
| `Reminder.HomeworkReminder.constructor` | HomeworkReminder.java:38 | the program starts with an empty list |
| `Reminder.HomeworkReminder.AddHomework` | HomeworkReminder.java:80-94 | reports success exactly when the deadline parsed; the new list is `Added(old list, name, parsed)` |
| `Reminder.HomeworkReminder.ShowAllHomework` | HomeworkReminder.java:97-109 | the index loop returns exactly `ListingOf(list)`: the empty message exactly for an empty list, otherwise entry `i` with ordinal `i + 1` and record `i`; it changes nothing |
| `Reminder.HomeworkReminder.CheckReminders` | HomeworkReminder.java:112-130 | the loop with the `hasUrgent` flag returns exactly `Report(list, now)` and changes nothing |
| `Reminder.HomeworkReminder.Dispatch` | HomeworkReminder.java:49-65 | one menu round changes the list and reports exactly as `Step` says, and asks to stop exactly on choice 0 |
| `Reminder.HomeworkReminder.MenuLoop` | HomeworkReminder.java:42-67 | the loop's final list, its reports and whether it exited are exactly those of `Run` on the starting list |

## Left out

- Console input and output are not modelled: the `Scanner` reads, the menu and banner text, and the exact wording of every message. Each message is an abstract value: `Notice`, `Listing`, `Entry` and `Outcome`. The header lines are not modelled at all: the one the listing prints before its entries, and the one a reminder check prints before its notices.
- The wall clock is a parameter. Each menu input carries the clock reading, `Input.now`.
- `Reminder.HomeworkReminder.CheckReminders` reads the clock once for the whole pass. The program reads it once per record. The two differ only if, during the pass, the clock crosses an instant a whole number of hours before some record's deadline.
- Time resolution: instants are exact integer nanoseconds. The model does not check that instants stay within the finite range of a local date-time, so the 64-bit `long` hour count cannot overflow in the model. That range keeps the real hour count far inside 64 bits.
- Deadline parsing with the pattern `yyyy-MM-dd HH:mm` is a library call. The caller supplies its outcome as an `Option<Instant>`, with `None` for text that does not parse.
- Formatting a deadline for the listing is a library call. An `Entry` carries the deadline instant instead of its text.
- `System.exit(0)` and `scanner.close()` are not modelled. Exit is the terminal state of a session: `Session.exited` is true, and no further round is run.
- The program loops forever until choice 0. The model runs it over a finite sequence of inputs, and a session that runs out of inputs simply stops unexited.
- A non-integer or out-of-`int`-range menu choice makes `nextInt` throw and ends the program. That is library exception behaviour. Menu choices are unbounded integers in the model, so a choice beyond the 32-bit range is reported as invalid instead.
