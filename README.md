# Parking bookings: a verified model of the client logic and the reminder job

This project models the logic of a small office-parking booking system in Dafny and proves properties of that model. The system has three parts:

- a Vue client that books parking spots per day over a hosted document store and keeps a list of the user's cars;
- a set of calendar-date helpers on `YYYY-MM-DD` strings;
- a scheduled cloud function that sends each day's reminder text messages.

The store, the clock and the SMS service are replaced by inputs:

- a snapshot is a sequence of documents;
- a one-off read is a `ReadReply`;
- a write or delete is a `WriteReply`;
- "today" is a string parameter;
- each message's fate is a `Delivery`.

Modules, one per source file plus shared pieces:

- `Wrappers`: `Option`, `Result`, and `Outcome` (a call either returns or throws an `Error` with a message).
- `Text`: decimal digits, `String(n)`, `Number(t)` on digit strings, code-point string order (`localeCompare` as it acts on digits, '-' and capital letters), `split`, and `str.replace(c, "")`.
- `Store`: how a write settles (`permission-denied` versus any other error code), plus the `Registry` class. `Registry` stands for the store's listener registrations. It records which handles are live, which one comes next, and every release call that was made.
- `CalendarArith` and `Calendar`: proleptic-Gregorian dates as (year, month, day) triples. They cover day numbers, weekdays (`getDay`, where 0 is Sunday), `addDays` and `subDays`, and chronological order.
- `DateUtils` (`src/utils/dateUtils.ts`):
  - `formatDateString`, `parseDateString` (including `new Date(y, m - 1, d)`'s mapping of years 0..99 and its month and day carry), and `parseISO` on the extended calendar-date form;
  - `getWeekStart` and `getWeekStartString`;
  - the `getWeekDates` loop;
  - `addDaysToString`, `subDaysToString` and `compareDateStrings`.

  An Invalid Date is `None`, and it formats as `NaN-NaN-NaN`.
- `Identity` (`src/composables/useUser.ts`): the two fail-fast guards, the `userName` fallback chain and `userId`.
- `Bookings` (`src/composables/useBookings.ts`):
  - The class `BookingSync` holds `bookingMap`, `loading`, `error` and the `unSub` handle. It has the three subscribe operations, their push and error callbacks, `bookings`, `userHasBookingOnDate`, `canCancel`, `createBooking`, `cancelBooking`, `cancelBookingBySpot` and `unsubscribe`.
  - The push callbacks' loops are `BuildDayMap` and `BuildRangeMap`. They are proved equal to the specification functions `DayMapOf` and `RangeMapOf`.
- `Cars` (`src/composables/useCars.ts`):
  - the plate normaliser and its two guards, and the duplicate check;
  - the class `CarList`, with `bindRealtime`, its push callback (copy loop and sort with the two-mode comparator) and its error callback, `addCar`, `removeCar`, and the unmount teardown.
- `Reminders` (`functions/main.py`):
  - `format_phone_number`;
  - the send loop of `_execute_sms_logic` as `SendReminders`, proved equal to the specification function `TallyOf`;
  - the whole run as `ReminderJob.Execute`. The job's lazily created messaging client is the field `clientReady`.

Everything the model does follows the code. The points where one would expect otherwise:

- **The listener is not cleared.** `subscribeToDate("")` and `subscribeToDateRange` with a missing bound call the old unsubscribe function but keep it in `unSub`. A later `unsubscribe()` therefore calls the same function again (`StaleHandleReleasedTwice`).
- **The single-date push always keeps its date.** The map keeps the key even for an empty snapshot, where the range callbacks would produce `{}` (`DateQueryAgreesWithRange` states the agreement when the snapshot is not empty).
- **The car comparator is not a total order** when some cars have a creation time and others do not (`MixedCarsIntransitive`). The model therefore promises a sorted list only when the comparator is transitive on the snapshot, and a permutation always.
- **The pattern check is dead code.** `addCar`'s regular-expression check can never fail after the normaliser: `PatternCheckNeverFails`.
- **A failed `reminderSent` update counts as a failed send.** If the update fails after a message went out, the exception is caught by the same handler, so it is reported as "Failed to send SMS" and not counted (`Delivery.MarkFailed`).

## Model

| member | source | states |
|---|---|---|
| Text.NatToString | src/utils/dateUtils.ts:31-32 | `String(n)` is a non-empty digit string, with no leading zero from 10 upwards and one digit below 10 |
| Text.NatToStringValue | src/utils/dateUtils.ts:31-32 | reading `String(n)` back as a number gives `n` |
| Text.IntToString | src/utils/dateUtils.ts:33 | `${year}` is a non-empty string: `String` of the number from zero upwards, a '-' followed by `String` of its magnitude below zero |
| Text.DigitsRoundTrip | src/utils/dateUtils.ts:21 | a digit string without a leading zero is `String` of its own value |
| Text.Compare | src/utils/dateUtils.ts:81-83 | a three-way comparison: -1, 0 or 1 |
| Text.CompareZeroIffEqual | src/utils/dateUtils.ts:81-83 | the string comparison is 0 exactly for equal strings |
| Text.CompareAntisymmetric | src/utils/dateUtils.ts:81-83 | swapping the arguments negates the comparison |
| Text.CompareTransitive | src/utils/dateUtils.ts:81-83 | the string order is transitive |
| Text.CompareDigits | src/utils/dateUtils.ts:81-83 | on digit strings of equal length, string order is numeric order |
| Text.CompareFirstDifference | src/composables/useCars.ts:52 | two strings are ordered by their first differing character (code point) |
| Text.ComparePrefix | src/composables/useCars.ts:52 | a proper prefix comes before the longer string |
| Text.Split | src/utils/dateUtils.ts:21 | `split` yields at least one part, none containing the separator; `SplitJoin` and `JoinSplit` make it the inverse of joining with the separator |
| Text.SplitJoin | src/utils/dateUtils.ts:21 | joining the parts of `split` with the separator gives the string back |
| Text.JoinSplit | src/utils/dateUtils.ts:21 | parts without the separator, joined with it, split back into exactly those parts |
| Text.SplitAt | src/utils/dateUtils.ts:21 | `split` cuts at the first separator and splits the rest |
| Text.RemoveChar | functions/main.py:29 | `replace(c, "")` leaves no `c` and adds no character |
| Text.RemoveCharLength | functions/main.py:29 | exactly the occurrences of `c` are dropped: the length falls by their number |
| Text.RemoveCharKeepsOthers | functions/main.py:29 | every other character is kept as often as it occurs |
| Text.RemoveCharAppend | functions/main.py:29 | removal works piece by piece, so the kept characters stay in their order |
| Text.RemoveCharSingle | functions/main.py:29 | a single character other than `c` is kept, `c` itself is dropped |
| Store.SettleWrite | src/composables/useBookings.ts:247-262 | a write settles normally exactly when it succeeds; a `permission-denied` failure throws the denial message, any other failure the generic one |
| Store.Registry.constructor | src/composables/useBookings.ts:47 | no listener is live, none has been released |
| Store.Registry.Listen | src/composables/useBookings.ts:62-86 | registers the query under a fresh handle and leaves every other listener and the release log as they were |
| Store.Registry.Release | src/composables/useBookings.ts:53 | the listener is no longer live and the call is appended to the release log, even when it was already gone |
| Store.Registry.Drop | src/composables/useBookings.ts:81-85 | an errored listener stops without any release call |
| Calendar.Weekday | src/utils/dateUtils.ts:42 | `getDay()` is 0 to 6; `WeekdayAfter` makes each later day the next weekday |
| Calendar.AddDays | src/utils/dateUtils.ts:158 | `addDays` of a valid date is a valid date; `AddDaysNumber` pins it as exactly `n` days later |
| Calendar.SubDays | src/utils/dateUtils.ts:46 | `subDays` of a valid date is a valid date; `AddSubRoundTrip` makes it the inverse of `addDays` |
| Calendar.AddDaysNumber | src/utils/dateUtils.ts:184-188 | adding `n` days moves the day number by exactly `n` |
| Calendar.AddSubRoundTrip | src/utils/dateUtils.ts:184-197 | subtracting `n` days undoes adding `n` days, and the other way round |
| Calendar.WeekdayAfter | src/utils/dateUtils.ts:157-159 | the weekday advances by `n` mod 7 when `n` days are added |
| Calendar.DayNumberOrder | src/utils/dateUtils.ts:77-83 | field-wise chronological order is day-number order, and equal dates have equal day numbers |
| Calendar.AddDaysWithinMonth | src/utils/dateUtils.ts:22 | counting `k` days from the first stays in the month while the month has room |
| DateUtils.FormatDateString | src/utils/dateUtils.ts:29-34 | an Invalid Date formats as "NaN-NaN-NaN" |
| DateUtils.FormatDateShape | src/utils/dateUtils.ts:29-34 | for any year the text is the year as written, a hyphen, the month as two digits, a hyphen and the day as two digits |
| DateUtils.JsNumber | src/utils/dateUtils.ts:21 | `Number` gives a number exactly for a digit string, 0 for the empty string, and reads a digit string without leading zero as the value whose `String` it is |
| DateUtils.ParseDateString | src/utils/dateUtils.ts:20-23 | Invalid Date exactly when there are fewer than three '-'-separated fields or one of the first three is not a digit string |
| DateUtils.MakeLocalDate | src/utils/dateUtils.ts:22 | `new Date(y, m - 1, d)` yields a valid calendar date for every year, month index and day, however far out of range |
| DateUtils.ParseIso | src/utils/dateUtils.ts:41 | `parseISO` gives a date exactly for a well-formed `YYYY-MM-DD` string, and that date has the string's fields |
| DateUtils.SplitIso | src/utils/dateUtils.ts:21 | a well-formed string splits on '-' into its year, month and day fields |
| DateUtils.Pad2 | src/utils/dateUtils.ts:31-32 | `padStart(2, '0')` gives at least two digits; `Pad2Shape` gives exactly two, with the value, below 100 |
| DateUtils.Pad2Shape | src/utils/dateUtils.ts:31-32 | `padStart(2, '0')` of a number below 100 is two digits with that value |
| DateUtils.Pad2RoundTrip | src/utils/dateUtils.ts:31-32 | two digits are the padded rendering of their own value |
| DateUtils.FormatIsWellFormed | src/utils/dateUtils.ts:29-34 | `formatDateString` of a date with a four-digit year is a well-formed `YYYY-MM-DD` string naming that date |
| DateUtils.ParseWellFormed | src/utils/dateUtils.ts:20-23 | `parseDateString` of a well-formed string with a four-digit year is the date it names |
| DateUtils.FormatOfFields | src/utils/dateUtils.ts:29-34 | formatting a well-formed string's own fields gives the string back |
| DateUtils.ParseFormatRoundTrip | src/utils/dateUtils.ts:20-34 | `formatDateString(parseDateString(s)) == s` for well-formed strings with four-digit years |
| DateUtils.FormatParseRoundTrip | src/utils/dateUtils.ts:20-34 | both parsers read a formatted four-digit-year date back as that date |
| DateUtils.StartOfWeek | src/utils/dateUtils.ts:49 | `startOfWeek` of a valid date is a valid date |
| DateUtils.WeekStartOf | src/utils/dateUtils.ts:42-50 | the week start of a valid date is a valid date; `WeekStartIsMonday` makes it the Monday on or before it |
| DateUtils.WeekStartIsMonday | src/utils/dateUtils.ts:40-51 | the week start is a Monday, on or before the date and at most six days back; a Sunday goes back exactly six days |
| DateUtils.GetWeekStart | src/utils/dateUtils.ts:40-51 | a well-formed string gets the Monday of its week; any other string gets Invalid Date |
| DateUtils.GetWeekStartString | src/utils/dateUtils.ts:56-59 | a string that is not a well-formed date gives "NaN-NaN-NaN"; a well-formed one gives the well-formed string of the Monday of its week while that Monday has a four-digit year |
| DateUtils.AddDaysToString | src/utils/dateUtils.ts:184-188 | a string that is not a well-formed date gives "NaN-NaN-NaN"; a well-formed one gives the well-formed string of the date exactly `days` days later while it has a four-digit year |
| DateUtils.SubDaysToString | src/utils/dateUtils.ts:193-197 | a string that is not a well-formed date gives "NaN-NaN-NaN"; a well-formed one gives the well-formed string of the date exactly `days` days earlier while it has a four-digit year |
| DateUtils.AddDaysJs | src/utils/dateUtils.ts:186 | shifting keeps a valid date valid and an Invalid Date invalid |
| DateUtils.SubDaysJs | src/utils/dateUtils.ts:195 | shifting keeps a valid date valid and an Invalid Date invalid |
| DateUtils.AddSubStringRoundTrip | src/utils/dateUtils.ts:184-197 | `subDaysToString(addDaysToString(s, n), n) == s` while the dates keep four-digit years |
| DateUtils.CompareDateStrings | src/utils/dateUtils.ts:81-83 | 0 exactly for equal strings, and antisymmetric |
| DateUtils.CompareByFields | src/utils/dateUtils.ts:81-83 | on `YYYY-MM-DD` shaped strings the string order is the order of the first differing field |
| DateUtils.CompareIsChronological | src/utils/dateUtils.ts:77-83 | for well-formed strings the sign of the comparison is chronological order, in all three cases |
| DateUtils.WeekdayInWeek | src/utils/dateUtils.ts:157-159 | day `i` of the week loop falls on weekday `i + 1`, the seventh on Sunday |
| DateUtils.WeekRowsConsecutive | src/utils/dateUtils.ts:150-178 | the rows are consecutive days with weekdays 1..5, each named after its weekday, and `isToday` holds exactly when that day's formatted date equals today's string |
| DateUtils.WeekContainsWeekday | src/utils/dateUtils.ts:150-178 | a Monday-to-Friday date is the row at its weekday's position in its own week |
| DateUtils.WeekDay | src/utils/dateUtils.ts:157-177 | one loop iteration skips Saturday and Sunday and pushes the row of any other day; on an Invalid Date it pushes the "NaN" row |
| DateUtils.GetWeekDates | src/utils/dateUtils.ts:150-179 | a well-formed date gives exactly five rows, Monday to Friday of its week; any other string gives seven "NaN-NaN-NaN" rows with no day name |
| Identity.UseUser | src/composables/useUser.ts:5-9 | throws the context message exactly when no user context was injected |
| Identity.UserValue | src/composables/useUser.ts:11-16 | the user when there is one, otherwise the "User is required" error |
| Identity.UserName | src/composables/useUser.ts:18-20 | fails exactly without a user; otherwise never empty: the display name if non-empty, else the e-mail if non-empty, else "Användare" |
| Identity.UserId | src/composables/useUser.ts:26 | fails exactly without a user; otherwise the user's uid |
| Identity.NameAndIdAgree | src/composables/useUser.ts:11-26 | name and id are available together; the placeholder name means neither field was set, or the chosen field literally holds it |
| Bookings.BookingSync.constructor | src/composables/useBookings.ts:42-47 | empty map, not loading, no error, no listener |
| Bookings.BookingSync.Teardown | src/composables/useBookings.ts:53 | calls the recorded unsubscribe function, if any, leaving no listener live |
| Bookings.BookingSync.SubscribeToDate | src/composables/useBookings.ts:52-62 | tears the old listener down; an empty date stops there with the stale handle kept; otherwise one listener for the date, recorded in `unSub`, and loading set |
| Bookings.BookingSync.SubscribeToDateRange | src/composables/useBookings.ts:92-106 | tears the old listener down; a missing bound clears the map and registers nothing; otherwise one range listener and loading set |
| Bookings.BookingSync.SubscribeToUserBookings | src/composables/useBookings.ts:137-148 | tears the old listener down and listens to this user's bookings from today on |
| Bookings.BookingSync.OnSnapshot | src/composables/useBookings.ts:64-80 | a push replaces the whole map: one date key for a date listener, the documents' own dates otherwise; loading and error are cleared |
| Bookings.BookingSync.OnSnapshotError | src/composables/useBookings.ts:81-85 | a failed push sets the fixed message and clears loading, with the map left untouched |
| Bookings.OccupantOf | src/composables/useBookings.ts:69-74 | the entry copies the document's id, plate and user id; a missing name becomes "" |
| Bookings.DayMapOf | src/composables/useBookings.ts:65-76 | at most one spot per document |
| Bookings.RangeMapOf | src/composables/useBookings.ts:109-121 | at most one date per document |
| Bookings.RangeMapNoEmptyDay | src/composables/useBookings.ts:112-121 | no date of a range push's map is without an occupied spot |
| Bookings.BuildDayMap | src/composables/useBookings.ts:65-76 | the single-date callback's loop builds exactly `DayMapOf(snap)` |
| Bookings.BuildRangeMap | src/composables/useBookings.ts:109-121 | the range and user callbacks' loop builds exactly `RangeMapOf(snap)` |
| Bookings.LastFor | src/composables/useBookings.ts:67-75 | the position of the last document for a spot, and no later one; none when no document names the spot |
| Bookings.DayMapLatest | src/composables/useBookings.ts:67-75 | a spot is in the day map exactly when some document names it, with the last such document's occupant (a missing name as "") |
| Bookings.LatestWins | src/composables/useBookings.ts:69-74 | the last document delivered for a spot is the occupant shown |
| Bookings.RangeMapByDate | src/composables/useBookings.ts:110-121 | a date is in the range map exactly when some document carries it, and its spots are those that date's documents alone build |
| Bookings.DateQueryAgreesWithRange | src/composables/useBookings.ts:65-77 | for a non-empty snapshot of one date both callbacks build the map holding just that date |
| Bookings.RangeMapDates | src/composables/useBookings.ts:109-122 | every date in a range push's map comes from a document the query selected |
| Bookings.RangeIsChronological | src/composables/useBookings.ts:100-104 | for well-formed dates the store's string range is the calendar range, both ends included |
| Bookings.BookingSync.Bookings | src/composables/useBookings.ts:179-195 | the flat list holds every occupied (date, spot) of the map exactly once, with its fields copied |
| Bookings.BookingSync.ListDay | src/composables/useBookings.ts:182-192 | one date's entries list each of its spots once |
| Bookings.FlatListAgrees | src/composables/useBookings.ts:179-203 | the flat list and the map agree on who holds a booking on a date |
| Bookings.BookingSync.UserHasBookingOnDate | src/composables/useBookings.ts:200-203 | true exactly when some spot of the date is held by this user; false for a date not in the map |
| Bookings.BookingSync.CanCancel | src/composables/useBookings.ts:208-212 | true exactly when the spot is occupied on the date by this user |
| Bookings.CanCancelImpliesBooked | src/composables/useBookings.ts:208-212 | whoever may cancel holds a booking that day; an empty spot cannot be cancelled and cancelling it by spot deletes nothing and reports "not found" |
| Bookings.BookingSync.CreateBooking | src/composables/useBookings.ts:217-263 | user check first, spot check second, write last: a user hit refuses with the one-per-day message even when the spot is also taken; writes exactly when both reads are empty, with the user's name and id; the write's error code picks the message |
| Bookings.OnePerDayGuard | src/composables/useBookings.ts:223-232 | a stored booking of the user on the date stops creation after the first read, whatever else holds |
| Bookings.SpotTakenGuard | src/composables/useBookings.ts:234-244 | a stored booking of the spot on the date stops creation with the spot-taken message and writes nothing |
| Bookings.CreateKeepsUnique | src/composables/useBookings.ts:222-255 | with no write between the reads and the insert, a written booking keeps "one booking per user per day, one per spot per day" |
| Bookings.BookingSync.CancelBooking | src/composables/useBookings.ts:268-278 | deletes exactly that id; a permission-denied failure and any other failure get their two messages |
| Bookings.BookingSync.CancelBookingBySpot | src/composables/useBookings.ts:283-289 | deletes the occupant's id exactly when the map shows one, otherwise throws "Bokning hittades inte" and deletes nothing |
| Bookings.CreatedBookingCancellable | src/composables/useBookings.ts:208-212 | once a push carrying the user's booking is applied, the user can cancel it and cancelling by spot deletes that document |
| Bookings.BookingSync.Unsubscribe | src/composables/useBookings.ts:294-299 | releases the recorded handle, if any, and forgets it; the map and flags are kept |
| Bookings.ReplaceSubscription | src/composables/useBookings.ts:52-80 | after resubscribing, only the new date's listener runs, so the map holds that date alone |
| Bookings.StaleHandleReleasedTwice | src/composables/useBookings.ts:294-298 | subscribing to a date, then to "", then unsubscribing releases the first handle twice |
| Cars.NormalizePlate | src/composables/useCars.ts:67 | the normalised plate has at most six characters, all in A-Z or 0-9 |
| Cars.ToUpper | src/composables/useCars.ts:67 | the length is kept, no lower-case letter is left, each becomes its capital, and every other character stays in place |
| Cars.Keep | src/composables/useCars.ts:67 | the character filter keeps only A-Z and 0-9 and never lengthens |
| Cars.KeepKeepsPlateChars | src/composables/useCars.ts:67 | every A-Z or 0-9 character of the input is kept, as often as it occurs |
| Cars.KeepAppend | src/composables/useCars.ts:67 | the filter works piece by piece, so the kept characters stay in their order |
| Cars.NormalizeIgnoresTrim | src/composables/useCars.ts:67 | trimming changes nothing once non-plate characters are removed, so the plate is too short exactly when the filtered upper-case input is |
| Cars.PatternCheckNeverFails | src/composables/useCars.ts:67-75 | a normalised plate of length six always matches `^[A-Z0-9]{6}$` |
| Cars.NormalizeIdempotent | src/composables/useCars.ts:67 | normalising a normalised plate changes nothing |
| Cars.CompareCars | src/composables/useCars.ts:48-53 | with both creation times, negative exactly when the first car is newer and 0 exactly for equal times; otherwise the plates' string comparison, so ascending by plate and 0 exactly for equal plates |
| Cars.CompareCarsAntisymmetric | src/composables/useCars.ts:48-53 | swapping the cars negates the comparator, so any two cars are ordered one way or the other |
| Cars.UniformCarsTransitive | src/composables/useCars.ts:48-53 | when all cars have creation times, or none has, the comparator is transitive (newest first, or by plate) |
| Cars.MixedCarsIntransitive | src/composables/useCars.ts:48-53 | with mixed creation times the comparator is not transitive |
| Cars.Insert | src/composables/useCars.ts:48-53 | inserting adds exactly that car |
| Cars.SortCars | src/composables/useCars.ts:48-53 | the sort returns a permutation of the list |
| Cars.InsertSorted | src/composables/useCars.ts:48-53 | inserting into a sorted list keeps it sorted when the comparator is transitive on the cars |
| Cars.SortCarsSorted | src/composables/useCars.ts:48-53 | when the comparator is transitive on the list, the result is sorted and a permutation |
| Cars.CarList.constructor | src/composables/useCars.ts:21-25 | no cars, not loading, no error, no listener |
| Cars.CarList.Detach | src/composables/useCars.ts:114-116 | the unmount teardown calls the recorded unsubscribe function, if any |
| Cars.CarList.BindRealtime | src/composables/useCars.ts:27-34 | tears the old listener down; an empty user id stops there; otherwise one listener for the user's cars and loading set |
| Cars.CarList.OnSnapshot | src/composables/useCars.ts:36-57 | a push replaces the list wholesale by the sorted snapshot (a permutation of it, ordered when the comparator is consistent) and clears loading and error |
| Cars.CarList.OnSnapshotError | src/composables/useCars.ts:58-62 | a failed push sets "Kunde inte ladda bilar", clears loading and keeps the list |
| Cars.CarList.AddCar | src/composables/useCars.ts:66-96 | a plate shorter than six is refused with the length message, a listed plate as a duplicate, and the car is written exactly when neither applies, with the normalised plate and the user id |
| Cars.AddListedPlateRefused | src/composables/useCars.ts:77-81 | a plate already in the list is never written |
| Cars.CarList.RemoveCar | src/composables/useCars.ts:98-108 | deletes exactly that car; a permission-denied failure and any other failure get their two messages |
| Reminders.CleanNumber | functions/main.py:29 | the cleaned number has no space and no hyphen |
| Reminders.FormatPhoneNumber | functions/main.py:24-33 | the result has no space or hyphen and never starts with '0', and a non-string input gives "" |
| Reminders.CleanNumberAppend | functions/main.py:29 | cleaning works piece by piece |
| Reminders.CleanIsDigits | functions/main.py:29 | a number written with digits, spaces and hyphens cleans to exactly its digits, in order |
| Reminders.FormatSwedishNumber | functions/main.py:24-33 | a number written with digits, spaces and hyphens whose first digit is 0 becomes "+46" followed by exactly its remaining digits in order; any other such number becomes just its digits |
| Reminders.FormatIdempotent | functions/main.py:24-33 | formatting a formatted number changes nothing |
| Reminders.PlateText | functions/main.py:80 | a missing plate shows as "N/A", a null one as "None", a string as itself |
| Reminders.ReminderBody | functions/main.py:86 | the fixed sentence, then the plate, then ")." |
| Reminders.ReminderBodyInjective | functions/main.py:86 | different plates give different reminders |
| Reminders.FailureMessage | functions/main.py:99 | the fixed opening, then the number, then ": " and the reason |
| Reminders.StepAdds | functions/main.py:82-101 | one document adds a request exactly when its number formats non-empty; a send that goes through adds a count and a mark, one that fails adds one error line |
| Reminders.Step | functions/main.py:84-101 | one document adds at most one request, which is counted as sent or becomes one error line, never both; a count always comes with a mark |
| Reminders.TallyOf | functions/main.py:77-101 | one request per document with a number; each request is either counted or becomes one error line, never both; the count equals the marks |
| Reminders.MarkedInOrder | functions/main.py:77-96 | the marks are document positions, in document order, each at most once |
| Reminders.MarkedExactly | functions/main.py:84-101 | a document is marked reminded exactly when it has a number and its message went out and the marking update succeeded |
| Reminders.RequestsFromDocs | functions/main.py:79-92 | every message goes to a document's formatted number, from the sender number, with that document's car in the text |
| Reminders.AllDelivered | functions/main.py:84-101 | when every message is delivered there are no errors and every document with a number is counted |
| Reminders.ResultMessage | functions/main.py:108-111 | the result starts "Completed with" exactly when there were errors and then carries their number; otherwise it reports the sent count |
| Reminders.SendReminders | functions/main.py:77-101 | the send loop's counters, errors, requests and marks are exactly `TallyOf` of the documents |
| Reminders.Remind | functions/main.py:84-101 | one iteration of the send loop changes the counters exactly as `Step` does |
| Reminders.ReminderJob.constructor | functions/main.py:21 | the job starts without a messaging client |
| Reminders.ReminderJob.Execute | functions/main.py:35-115 | with each secret read as its value: the client is created once credentials are present and kept; without it the credentials error and, with no sender, the sender error come back before any query or send; otherwise the loop runs and the result reports errors, the count, or the query failure |

## Left out

- Store I/O: `onSnapshot`, `getDocs`, `addDoc`, `deleteDoc` and `serverTimestamp` are not modelled as calls. Snapshots, read replies and write replies are inputs, and `Registry` stands for listener registration.
- Asynchrony: pushes and errors are method calls made while their listener is live. The interleaving of callbacks with other calls is not modelled.
- Bookings.CreateKeepsUnique: assumes nothing is written between the two reads and the insert. The read-then-write race of `createBooking` is left out because nothing in the source serialises it.
- Vue reactivity and lifecycle: `ref`, `computed` caching, `inject`, `onMounted` and `onBeforeUnmount` are framework plumbing. Mounting and unmounting are the explicit calls `BindRealtime`, `Detach` and `Unsubscribe`.
- Bookings.BookingSync.constructor: the user's id and name are fixed when the synchroniser is made. The source re-reads them from the injected user on every call, so a change of signed-in user while mounted is not modelled.
- Console and `logging` output is left out, including the debug lines of main.py:50-52 that print parts of the secrets.
- The messaging client: in `Reminders.ReminderJob.Execute` it is the flag `clientReady`. The scheduler and HTTP entry points only call `_execute_sms_logic` and are left out.
- Reminders.ReminderJob.Execute: main.py:45-47 and :61 bind the `params.SecretParam` objects themselves, and the file never reads their `.value`. The model follows the evident intent and takes each secret's value, a string that is "" when unset. What the text as written does with the objects is not modelled: slicing them for the debug lines (:50-51), testing their truthiness (:54, :62) and sending `str(from_phone)` (:90). Those depend on the parameter class, which is not part of this model.
- Reminders.ReminderJob.Execute: the query's own filter (today's date, reminder not sent) is represented by the documents it yields. A stream that raises is taken to raise after yielding those documents, not at an arbitrary point.
- Clock readers (`getToday`, `isToday`, `isTomorrowDate`, `new Date().toISOString()` in `subscribeToUserBookings`, `datetime.date.today()`): "today" is a parameter. The UTC-versus-local difference of `toISOString` is not modelled.
- Locale formatting (`dateLabel`, `formatDateMobile`, `formatDateShort`, `formatDateHeader`, the `sv` locale of date-fns) depends on locale data and is left out.
- DateUtils.ParseIso: only the extended calendar-date form `YYYY-MM-DD` is modelled. Other forms that date-fns accepts (times, week dates, ordinal dates) give Invalid Date in the model.
- DateUtils.AddDaysToString, DateUtils.SubDaysToString: the day count is taken to be an integer. The source's `days: number` could be fractional, which date-fns truncates toward zero, or NaN, which gives Invalid Date; no caller in the modelled files passes one.
- DateUtils.JsNumber: `Number` is modelled on strings of decimal digits only. Signs, whitespace, decimals and hexadecimal give NaN in the model.
- The JavaScript `Date` time-value range of ±8.64e15 ms is not modelled. Dates are unbounded proleptic-Gregorian triples.
- Text.Compare: `localeCompare` is modelled as code-point order (characters are Unicode scalar values). JavaScript's own string order is UTF-16 code-unit order, which differs from code-point order only when a character above U+FFFF meets one in U+E000-U+FFFF. Code-point order agrees with the default collation only on strings made of digits, '-' and the capitals A-Z, which covers the date strings and the plates `addCar` writes. Collation differs elsewhere even within ASCII: it puts "a" before "B", where code-point order puts "B" first. The plate order of stored cars written some other way (lower case, other letters or signs) is therefore not modelled. The store's own string order for range queries is UTF-8 byte order, which is exactly code-point order.
- Cars.ToUpper: `toUpperCase` is modelled on ASCII letters only. The handful of non-ASCII characters whose upper case is ASCII (dotless 'ı' becomes 'I', long 'ſ' becomes 'S', the ligature 'ﬀ' becomes "FF") are kept unchanged by the model and then removed by the `[^A-Z0-9]` filter, where the source keeps their upper case.
- Cars.SortCars: `Array.prototype.sort` is modelled as a stable insertion sort. With the inconsistent comparator of a mixed list, the engine's order is implementation-defined, so the model promises only a permutation then (`Cars.CarList.OnSnapshot`).
- Bookings.DayMapOf, Bookings.RangeMapOf: their own contracts only bound the size. What each map holds is stated by the lemmas `DayMapLatest`, `LatestWins` and `RangeMapByDate`, kept apart because, as postconditions of the recursive functions, they would be unfolded at every use.
- Reminders.Step: its own contract states only how the counters balance. Which counter one document moves is stated by the lemma `StepAdds`, kept apart for the same reason.
- Text.RemoveChar: its own contract says no `c` is left and nothing is added. The exact length and the kept characters are the lemmas `RemoveCharLength`, `RemoveCharKeepsOthers` and `RemoveCharAppend`, kept apart for the same reason.
- Car creation times: `createdAt` is an integer count of microseconds, the resolution of the store's server timestamps. The comparator's sign is the sign of the difference of `toMillis()`, which can carry a fraction of a millisecond, so two cars created within one millisecond are still ordered newest first. The floating-point rounding of `toMillis()` itself (below about a quarter of a microsecond at present-day times) is not modelled. A pending server timestamp is `None`.
- Bookings.BookingSync.Bookings: the iteration order of `Object.keys` is not modelled. The contract states the contents of the flat list, not its order.
- Bookings.OccupantOf: `data.name || ''` is modelled for a missing name (and an empty one, which stays ""). A stored name of another type is not modelled. Spots are integers, so `Number(spot)` of an object key is the spot itself.
- Build, deploy and configuration files (`scripts/deploy.js`, `vite.config.ts`, `src/firebase.ts`, `src/router.ts`, `tailwind.config.cjs`, `src/vite-env.d.ts`) hold no logic and are not part of this model.
