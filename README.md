# Clinica Manila backend — a verified model of its booking and administration core

This project models the Express/Mongoose backend of the Clinica Manila clinic. Patients register,
log in and book appointment slots with doctors. Doctors cancel, complete and summarise
appointments. Administrators approve registrations, edit, archive and restore doctors and users,
and read statistics. A daily pass marks doctors unavailable on their day off.

The three MongoDB collections are the seq fields `doctors`, `appointments` and `users` of the
class `ClinicStore.Store`. Each record is a datatype carrying its own `id`, and seq order stands
for the collection's natural order. Every request handler that writes is a method with
`modifies db`. Each such method keeps `Store.Valid()`, the store invariant:

- ids are unique in each collection;
- doctor emails are unique (the `unique` index);
- no date's list of booked times in a doctor's `slots_booked` holds a time twice.

Each method states the whole new state as a function of the old one. Read-only handlers are
functions or loop methods over the collections. In every case the reply is the
`{ success, message }` JSON the handler sends.

Modules follow the source files:

| module | models |
|---|---|
| `Collections` | `findOne`/`find` filters, counting, `[...new Set()]`, `reverse()` |
| `JsText` | the JavaScript string and number built-ins the core relies on: `trim`, `split`, `parseInt`, `Number`, `replace(/_/g, ' ')`, string comparison |
| `Calendar` | `new Date(year, month - 1, day)` on the parsed parts of a `d_m_yyyy` slot key, as a day number |
| `SlotLedger` | a doctor's `slots_booked` map: reserving and releasing a time |
| `Models` | the doctor, appointment and user records, their defaults and the status-flag updates |
| `ClinicStore` | the store and its invariant, lookups by id and by email, the reply shape |
| `DayOff` | `updateDoctorAvailabilityBasedOnDayOff` |
| `EmailService` | the fields and choices of the notification mails |
| `UserBooking` | `bookAppointment`, `cancelAppointment`, the payment handlers, `markAppointmentRead`, `getUserBookedSlots`, `getUserDoctorBookedDates` |
| `UserAccounts` | `registerUser`, `loginUser`, `forgotPassword`, `verifyResetToken`, `resetPassword` |
| `AdminController` | the admin cancel, approval, doctor edit, availability, archive/restore, statistics, day-off check and dashboard handlers |
| `DoctorController` | the doctor cancel, complete, summary, availability, profile, dashboard, history and password handlers |

Where the code differs from what its comments and documentation describe, the model follows the code:

- Cancelled and completed are not mutually exclusive. An admin, doctor or user cancel of an
  already cancelled appointment succeeds again. Completing a cancelled appointment succeeds.
- A doctor's cancel never releases the booked slot. Only the user and admin paths release it.
- The user cancel writes the cancellation first. It then fails with a TypeError when the doctor
  or the date's entry in `slots_booked` is missing, and the write stays.
- The day-off pass sets a doctor available again only on the day after the day off.
  Doctors whose day off is some other day keep their flag.
- The second query of the pass has a duplicated `$ne` key, which leaves only
  `dayOff != ''`. Its loop still acts only on yesterday's doctors, so the pass behaves as if the
  query were the intended one (`DayOff.SecondLoopSameUnderEitherQuery`).
- `updateDoctor` never stores `dayOff`, because the field is not in the update. A request whose
  `dayOff` differs from the stored one still runs the day-off pass.
- `verifyStripe` and `verifyRazorpay` set `payment` without looking at `cancelled`. Only order
  creation refuses a cancelled appointment.
- An archived user whose registration is approved can still log in.
- The status mail for `summary_added` reads "Appointment Canceled", like a cancellation.
- `getUserBookedSlots` compares slot keys as strings, although its comment intends a range of dates (see Findings).

External services are parameters, as the source provides them:
- bcrypt's compare is `matches`, and a hash is a given string;
- the reCAPTCHA verdict is `recaptchaOk` and `validator.isEmail` is `emailValid`;
- the Cloudinary upload is `upload`;
- `crypto.randomBytes` is `token`;
- whether nodemailer delivered is `mailSent`;
- `Date.now()` is `now`;
- the Razorpay order status is `orderStatus`;
- the request origin is `origin`;
- today's weekday is `today`.

The booking window takes today and today-plus-one-month as day numbers.

## Model

| member | source | states |
|---|---|---|
| JsText.ParseIntRoundTrip | controllers/userController.js:273 | parseInt of a rendered integer gives that integer back |
| JsText.NumberOfRoundTrip | controllers/adminController.js:341 | Number() of a rendered integer gives that integer back |
| JsText.TrimEmptyIffBlank | controllers/doctorController.js:293 | trim() is empty exactly when every character is JavaScript whitespace |
| JsText.ReplaceChar | utils/emailService.js:187 | every occurrence of one character is replaced, the length is kept, and no occurrence remains |
| JsText.StrLeTotal | controllers/userController.js:817 | the order MongoDB's $gte/$lte apply to strings (binary UTF-8 order, which is code-point order) relates any two strings |
| Collections.FindFirst | controllers/userController.js:306-311 | findOne returns the first matching record, and none exactly when no record matches |
| Collections.Dedup | controllers/userController.js:869 | the result is duplicate-free and holds exactly the input's elements |
| Collections.DedupFirstOccurrenceOrder | controllers/userController.js:869 | the elements come in the order of their first occurrences in the input |
| Collections.Reverse | controllers/adminController.js:164 | reverse() puts element k at position length-1-k |
| Calendar.MakeDay | controllers/userController.js:274 | the Date is valid exactly when year, month and day are all numbers and the day lies within 100000000 days of the epoch (8.64e15 ms), and then it is the civil day they name |
| Calendar.FarYearNamesNoDay | controllers/userController.js:274 | 1 January of year 300000 is beyond the Date range and so an Invalid Date |
| Calendar.RangeEndsAreDays | controllers/userController.js:274 | the days 100000000 either side of the epoch are valid, the day after the last one is not |
| Calendar.MakeDayNext | controllers/userController.js:274 | for valid dates, day d+1 of a month is the day after day d, past the month's end too |
| Calendar.MakeDaySameMonth | controllers/userController.js:274 | for valid dates within one month, day numbers are ordered as the days of the month |
| Calendar.MakeDayMonthCarry | controllers/userController.js:274 | month index 12 is January of the next year |
| Calendar.MakeDayTwoDigitYear | controllers/userController.js:274 | a year 0..99 is read as 1900..1999 |
| Calendar.EpochIsDayZero | controllers/userController.js:274 | 1 January 1970 is day 0 |
| Calendar.NextMonthStart | controllers/userController.js:274 | months March to November are 30 or 31 days long |
| Calendar.EmptyKeyNamesNoDay | controllers/userController.js:273-274 | an empty slot key gives an Invalid Date |
| Calendar.KeyWithoutYearNamesNoDay | controllers/userController.js:273-274 | a key with no year part gives an Invalid Date |
| Calendar.SlotDayOfKey | controllers/userController.js:273-274 | the key the booking page writes for d, m, y names new Date(y, m-1, d) |
| SlotLedger.Reserve | controllers/userController.js:326-339 | the time is booked on the date, appended to the date's list or starting a new one; every other date is unchanged |
| SlotLedger.Without | controllers/userController.js:405 | the filter keeps exactly the times different from the released one |
| SlotLedger.WithoutAppended | controllers/userController.js:405 | filtering out a time that was just appended gives the same list as filtering the list before the append |
| SlotLedger.Release | controllers/userController.js:405 | the date's times are exactly the old ones other than the released time; the other dates stay |
| SlotLedger.ReleaseIfPresent | controllers/adminController.js:69-73 | when the date has no entry nothing changes, otherwise it is a Release |
| SlotLedger.ReserveKeepsWellFormed | controllers/userController.js:329-339 | reserving a free time keeps every date's list duplicate-free |
| SlotLedger.ReleaseKeepsWellFormed | controllers/userController.js:405 | releasing keeps every list duplicate-free |
| SlotLedger.ReserveThenRelease | controllers/userController.js:334-338 | reserve then release restores the ledger, except that a new date stays as an empty list |
| SlotLedger.ReleaseUntakenIsNoop | controllers/userController.js:405 | releasing a time that is not booked changes nothing |
| SlotLedger.ReleaseIdempotent | controllers/adminController.js:71 | a second release of the same time changes nothing more |
| Models.NewDoctor | models/doctorModel.js:4-22 | a new doctor is available, has no day off, is not archived and has an empty slots_booked |
| Models.Toggled | controllers/adminController.js:459 | only the available flag changes, to its negation |
| Models.ToggleTwice | controllers/adminController.js:459 | toggling twice restores the doctor |
| Models.SnapshotOfDoctor | controllers/userController.js:349-350 | the docData snapshot carries the doctor's fees, email and name |
| Models.SnapshotOfUser | controllers/userController.js:341 | the userData snapshot carries the user's names and email |
| Models.NewAppointment | models/appointmentModel.js:4-19 | a new appointment has every flag false and every defaulted string empty, with the given fields |
| Models.Cancelled | controllers/userController.js:392-396 | sets cancelled, cancelledBy and the given or default reason, and nothing else |
| Models.ActorNamesDistinct | models/appointmentModel.js:15 | user, doctor and admin cancels leave different cancelledBy values and default reasons |
| Models.Completed | controllers/doctorController.js:104 | sets isCompleted and nothing else |
| Models.CancelAndCompleteCommute | models/appointmentModel.js:13-17 | cancel and complete are independent: in either order both flags end up set |
| Models.ReplaceDoctorNewEmailKeepsValid | models/doctorModel.js:6 | replacing a doctor by one whose email no other doctor has keeps the unique-email index |
| ClinicStore.UserByEmail | controllers/userController.js:169 | findOne by email finds the first user with that email, or none exactly when no user has it |
| DayOff.DayNamesDistinct | utils/dayOffChecker.js:10 | the seven day names are distinct and none is empty |
| DayOff.YesterdayIndex | utils/dayOffChecker.js:29 | yesterday is the weekday before today, Saturday for Sunday, and never today |
| DayOff.AfterPass | utils/dayOffChecker.js:14-37 | today's day-off doctor ends unavailable, yesterday's ends available, any other doctor is unchanged, and only available can change |
| DayOff.Pass | utils/dayOffChecker.js:14-37 | the pass maps every doctor by AfterPass and keeps their order |
| DayOff.PassIdempotent | utils/dayOffChecker.js:19-34 | a second pass on the same day changes nothing |
| DayOff.PassKeepsValid | utils/dayOffChecker.js:19-34 | the pass keeps the store invariant |
| DayOff.DayOffThenNextDay | utils/dayOffChecker.js:12-34 | a doctor is unavailable on the day off and available again on the following day |
| DayOff.NoRestoreTwoDaysLater | utils/dayOffChecker.js:32-37 | a doctor made unavailable is not restored by a pass two days later |
| DayOff.SecondQueryIncludesToday | utils/dayOffChecker.js:24-26 | the query as written also returns today's day-off doctors, which the intended query would exclude |
| DayOff.SecondLoopSameUnderEitherQuery | utils/dayOffChecker.js:24-37 | the second loop has the same effect under the written and the intended query |
| DayOff.UpdateDoctorAvailabilityBasedOnDayOff | utils/dayOffChecker.js:7-39 | applies the pass to every doctor, changes nothing else and reports success |
| EmailService.DatePart | utils/emailService.js:103 | a missing part of the split key is undefined |
| EmailService.MonthText | utils/emailService.js:106-111 | months 1..12 give their names, any other value gives "undefined" |
| EmailService.FormatSlotKey | utils/emailService.js:103-111 | the key for d, m, y renders as "Month d, y" |
| EmailService.FormatBadMonth | utils/emailService.js:111 | an out-of-range month renders as "undefined" |
| EmailService.FormatEmptyKey | utils/emailService.js:103-111 | an empty key renders as "undefined NaN, undefined" |
| EmailService.PatientNameParts | utils/emailService.js:123 | the name splits back into first, middle and last, or first and last when there is no middle name |
| EmailService.DoctorLine | utils/emailService.js:186 | the doctor line is the name, a space and the extension |
| EmailService.MiddleNameText | utils/emailService.js:75 | a missing middle name shows as 'N/A', a given one as itself |
| EmailService.PhoneText | utils/emailService.js:228 | a missing phone number shows as 'Not provided', a given one as itself |
| EmailService.SpecialityText | utils/emailService.js:187 | each underscore becomes a space and every other character stays |
| EmailService.StatusPresentation | utils/emailService.js:163-174 | 'completed' and only 'completed' selects the approved subject, text and colour; every other status selects the cancelled ones |
| EmailService.SummaryAddedReadsCanceled | utils/emailService.js:163-174 | the summary_added mail is presented exactly like a cancellation |
| EmailService.PatientStatusNotification | utils/emailService.js:148-203 | the mail goes to the patient with the formatted date, the time and the status's subject and text |
| EmailService.DoctorAppointmentNotification | utils/emailService.js:98-137 | the mail goes to the doctor with the patient's name, the formatted date and the time |
| EmailService.RegistrationEmail | utils/emailService.js:26-50 | 'approved' selects the approval subject and message, any other status the update subject and the declined message |
| EmailService.AdminRegistrationAlert | utils/emailService.js:61-87 | the alert carries the first and last names and the middle name or its placeholder |
| UserBooking.WindowCheck | controllers/userController.js:284-303 | a day fewer than five days ahead is too soon, one after today plus one month is too far, and an Invalid Date passes |
| UserBooking.MalformedKeyPassesWindow | controllers/userController.js:273-303 | an empty key, a key without a year, and a key in year 300000 (beyond the Date range) pass the window check |
| UserBooking.ActiveBooking | controllers/userController.js:306-311 | finds a non-cancelled appointment of the same user at the same date and time, or none exactly when there is none |
| UserBooking.BookingCheck | controllers/userController.js:284-358 | refuses exactly when the booking is not allowed; each refusal is returned exactly when the checks before it pass and its own fails, in the order window, duplicate booking, doctor lookup, availability, taken slot, save |
| UserBooking.TakenSlotRefused | controllers/userController.js:329-331 | a taken time is always refused, with 'Slot Not Available' once the earlier checks pass |
| UserBooking.BookedDoctors | controllers/userController.js:326-339 | only the booked doctor's slots_booked changes, by Reserve |
| UserBooking.BookingRecord | controllers/userController.js:345-355 | the new appointment charges the doctor's fees, keeps the request's fields and starts with every flag false |
| UserBooking.SlotBookedOnce | controllers/userController.js:329-331 | after a booking, the same doctor, date and time is refused to anyone |
| UserBooking.NoDoubleBooking | controllers/userController.js:305-318 | after a booking, the same user cannot book the same date and time again, with any doctor |
| UserBooking.CheckBooking | controllers/userController.js:284-331 | passes exactly when the window, duplicate-booking, doctor and free-slot checks all pass; any refusal it returns is the one BookingCheck gives |
| UserBooking.PushSlot | controllers/userController.js:326-339 | the ledger after the push is the reservation of the time on that date: the list is created when missing and the time appended |
| UserBooking.BookAppointment | controllers/userController.js:268-378 | a refused booking writes nothing; an accepted one reserves the slot, appends the appointment and notifies the doctor |
| UserBooking.CancelAppointment | controllers/userController.js:381-415 | an unknown or foreign appointment is left alone; otherwise it is cancelled by the user and the slot is released, or the missing doctor or date entry fails after the write |
| UserBooking.RazorpayOrder | controllers/userController.js:433-459 | an order exists exactly for an existing, non-cancelled appointment, for its amount times 100 |
| UserBooking.StripeCheckout | controllers/userController.js:481-519 | a session exists exactly for an existing, non-cancelled appointment, for its amount times 100, with success and cancel return URLs |
| UserBooking.CancelledIsNotCharged | controllers/userController.js:439-441 | a cancelled appointment gets neither a Razorpay order nor a Stripe session |
| UserBooking.VerifyUrlsDiffer | controllers/userController.js:507-508 | the success and cancel return URLs are different |
| UserBooking.MarkPaid | controllers/userController.js:527 | only the named appointment's payment flag is set; an unknown id changes nothing |
| UserBooking.VerifyStripe | controllers/userController.js:521-538 | payment is recorded exactly when success is "true" |
| UserBooking.VerifyRazorpay | controllers/userController.js:462-478 | payment is recorded on the receipt's appointment exactly when the order is paid |
| UserBooking.MarkAppointmentRead | controllers/userController.js:541-558 | only the owner can mark the appointment read, and only isRead changes |
| UserBooking.StringRangeMissesDate | controllers/userController.js:814-817 | the string range excludes 9 January 2026 from 1..31 January 2026, which the day range includes |
| UserBooking.DayRangeOfKeys | controllers/userController.js:814-817 | on real slot keys, the day range is the chronological range |
| UserBooking.TimesOnMembers | controllers/userController.js:820-832 | a time is listed on a date exactly when a queried appointment has that date and time |
| UserBooking.GroupBookedSlots | controllers/userController.js:820-832 | under either range test, the loop's keys are exactly the dates of the queried appointments, each listing their times in collection order |
| UserBooking.GetUserBookedSlots | controllers/userController.js:802-846 | with the string range $gte/$lte as written, the keys are exactly the dates of the queried appointments, each listing their times in collection order |
| UserBooking.GetUserBookedSlotsIntended | controllers/userController.js:814-817 | the same grouping with the range of days the comment intends |
| UserBooking.BookedSlotQueriesDiffer | controllers/userController.js:814-817 | for the range 1..31 January 2026, a 9 January 2026 slot is listed by the intended query and left out by the query as written |
| UserBooking.DatesWith | controllers/userController.js:862-869 | lists exactly the dates of the user's non-cancelled appointments with the doctor |
| UserBooking.GetUserDoctorBookedDates | controllers/userController.js:849-883 | a missing doctor id is refused; otherwise the dates are distinct and exactly those booked with the doctor |
| UserAccounts.RegistrationCheck | controllers/userController.js:55-101 | a registration passes exactly when the form is acceptable and the email is new; a failure is a 400, 'Email already registered' exactly for a taken email |
| UserAccounts.NewUser | controllers/userController.js:114-123 | a new user is pending, not archived and has no reset token |
| UserAccounts.RegisterUser | controllers/userController.js:49-161 | a refused form or a failed upload writes nothing; otherwise the user is appended and the admin alerted |
| UserAccounts.EmailRegisteredOnce | controllers/userController.js:94-101 | once an email is registered, registering it again is refused |
| UserAccounts.Login | controllers/userController.js:164-219 | login succeeds exactly for an approved user whose password matches, with a distinct refusal per approval status |
| UserAccounts.NewAccountCannotLogIn | controllers/userController.js:122 | a freshly registered account is refused as pending approval |
| UserAccounts.ArchivedAccountCanLogIn | controllers/userController.js:164-210 | the login gate ignores isArchived |
| UserAccounts.IssueToken | controllers/userController.js:621-627 | the issued token is valid for exactly one hour; nothing else changes |
| UserAccounts.ClearToken | controllers/userController.js:645-648 | after clearing, no token is valid at any time |
| UserAccounts.TokenHolder | controllers/userController.js:671-674 | finds the first user holding the token before its expiry, or none exactly when none does |
| UserAccounts.ForgotPassword | controllers/userController.js:600-663 | a missing email or an unknown account writes nothing; otherwise the reset link is mailed and the token kept, or cleared if the mail failed |
| UserAccounts.VerifyResetToken | controllers/userController.js:666-696 | a token verifies exactly when some user holds it unexpired, and gives the email of the first such user |
| UserAccounts.TokenValidForAnHour | controllers/userController.js:622 | an issued token verifies exactly during the following hour, for its holder |
| UserAccounts.ResetInputCheck | controllers/userController.js:704-724 | the new password passes exactly when it is given, confirmed and at least 8 characters long |
| UserAccounts.ResetPassword | controllers/userController.js:699-761 | bad input or an invalid token writes nothing; otherwise the holder's password is replaced and the token cleared |
| UserAccounts.TokenSingleUse | controllers/userController.js:744-747 | after a reset the same token no longer verifies |
| AdminController.AppointmentCancel | controllers/adminController.js:48-80 | a missing appointment is refused; otherwise it is cancelled by the admin and the slot released when the doctor and date entry exist |
| AdminController.ParseStatus | controllers/adminController.js:201 | only 'approved', 'declined' and 'blocked' are accepted, never 'pending' |
| AdminController.UpdateApprovalStatus | controllers/adminController.js:196-238 | an invalid status or an unknown user writes nothing; otherwise the status is stored and a mail sent unless it is 'blocked' |
| AdminController.ApprovalDecidesLogin | controllers/adminController.js:208-212 | after a status update the user can log in exactly when the new status is approved |
| AdminController.OrStored | controllers/adminController.js:334 | a given value replaces the stored one, an empty one keeps it |
| AdminController.MergeUpdate | controllers/adminController.js:333-351 | each of name, email, speciality, degree, experience, about, address and doc_lic_ID takes the request value when given, name_extension when defined, fees through Number; dayOff, slots, availability and archive state are kept; an unparsable fee fails |
| AdminController.EmptyEditIsIdentity | controllers/adminController.js:333-344 | an edit that gives no field leaves the doctor as it was |
| AdminController.MergeIdempotent | controllers/adminController.js:333-344 | applying the same edit twice is the same as once |
| AdminController.FeeStoredAsNumber | controllers/adminController.js:341 | a fee given as a decimal integer is stored as that number |
| AdminController.UpdateDoctor | controllers/adminController.js:309-372 | an unknown doctor, a bad fee or a taken email writes nothing; otherwise the merge is stored and the day-off pass runs when dayOff differs |
| AdminController.UpdateKeepsDayOff | controllers/adminController.js:333-365 | no doctor's dayOff changes through updateDoctor, with or without the pass |
| AdminController.ChangeAvailability | controllers/adminController.js:447-470 | an unknown doctor is refused; otherwise only its available flag flips and the message names the new state |
| AdminController.ArchivedDoctor | controllers/adminController.js:387-390 | sets isArchived and the timestamp, nothing else |
| AdminController.RestoredDoctor | controllers/adminController.js:412-415 | clears isArchived and archivedAt, nothing else |
| AdminController.RestoreUndoesArchive | controllers/adminController.js:387-415 | restoring an archived doctor gives back the doctor as it was |
| AdminController.ListedDoctors | controllers/adminController.js:143 | lists exactly the doctors that are not archived |
| AdminController.ArchiveHidesDoctor | controllers/adminController.js:143 | an archived doctor disappears from the list and a restored one is back |
| AdminController.ArchiveDoctor | controllers/adminController.js:375-397 | an unknown doctor is refused; otherwise only that doctor is archived |
| AdminController.RestoreDoctor | controllers/adminController.js:400-422 | an unknown doctor is refused; otherwise only that doctor is restored |
| AdminController.ArchivedUser | controllers/adminController.js:488-491 | sets isArchived and the timestamp, nothing else |
| AdminController.RestoredUser | controllers/adminController.js:522-525 | clears isArchived and archivedAt, nothing else |
| AdminController.ListedUsers | controllers/adminController.js:276 | lists exactly the users that are not archived |
| AdminController.ArchiveUser | controllers/adminController.js:473-504 | an unknown user is a 404; otherwise only that user is archived |
| AdminController.RestoreUser | controllers/adminController.js:507-538 | an unknown user is a 404; otherwise only that user is restored |
| AdminController.StatsFor | controllers/adminController.js:596-606 | a user's total is the sum of cancelled, approved and pending |
| AdminController.StatsForCounts | controllers/adminController.js:582-607 | total counts the user's appointments, cancelled the cancelled ones, approved the completed ones that are not cancelled |
| AdminController.UsersAppointmentStats | controllers/adminController.js:573-620 | a user has an entry exactly when the id is non-empty and has appointments, and the entry is that user's tally |
| AdminController.CancelledTakesPrecedence | controllers/adminController.js:600-606 | a cancelled and completed appointment counts as cancelled, not approved |
| AdminController.DayOffStats | controllers/adminController.js:638-646 | available plus unavailable, and with plus without day off, give the total; those on day off today are among those with a day off |
| AdminController.OnDayOffAreUnavailable | controllers/adminController.js:626-642 | after the pass every doctor on day off today is counted unavailable |
| AdminController.DayOffView | controllers/adminController.js:653-663 | the day-off status is 'No day off set', 'Currently on day off' or 'Day off is on X' as the doctor's dayOff is empty, today or another day |
| AdminController.ManualDayOffCheck | controllers/adminController.js:623-669 | runs the pass, then reports the statistics and one view per doctor of the new state |
| AdminController.AdminDashboard | controllers/adminController.js:153-173 | the counts are the collection sizes and the latest appointments are all appointments in reverse order |
| DoctorController.PatientMail | controllers/doctorController.js:67-78 | a mail is sent exactly when the patient exists and has an email |
| DoctorController.AppointmentCancel | controllers/doctorController.js:53-94 | only the owning doctor cancels; slots_booked is never touched; the mail outcome does not change the reply |
| DoctorController.AppointmentComplete | controllers/doctorController.js:97-134 | only the owning doctor completes, setting only isCompleted whatever cancelled and payment are |
| DoctorController.BlankSummaryRefused | controllers/doctorController.js:293 | a whitespace-only summary is refused |
| DoctorController.AddConsultationSummary | controllers/doctorController.js:289-328 | a blank summary, a foreign or an incomplete appointment writes nothing; otherwise only the summary changes |
| DoctorController.ChangeAvailablity | controllers/doctorController.js:151-164 | a missing doctor fails with the TypeError; otherwise only the available flag flips |
| DoctorController.CastAvailable | controllers/doctorController.js:187 | the Boolean cast accepts exactly true, 'true', 1, '1', 'yes' as true and false, 'false', 0, '0', 'no' as false |
| DoctorController.CastProfile | controllers/doctorController.js:187 | the update casts exactly when the fee is a number and the availability a boolean spelling; otherwise the first failing path, fees before available, names the CastError |
| DoctorController.ProfileUpdated | controllers/doctorController.js:185-187 | each of fees, address, available, dayOff and about changes only when given |
| DoctorController.UpdateDoctorProfile | controllers/doctorController.js:182-195 | a value that does not cast is a CastError reply that writes nothing, whether or not the doctor exists; otherwise the given fields are updated and the reply is success, even for an unknown doctor |
| DoctorController.EmptyProfileEditIsIdentity | controllers/doctorController.js:187 | an update that gives no field casts and changes nothing |
| DoctorController.OfDoctor | controllers/doctorController.js:203 | selects exactly the doctor's appointments |
| DoctorController.EarningsAppend | controllers/doctorController.js:205-211 | earnings add up over concatenated lists |
| DoctorController.EarningsIgnoreUnpaid | controllers/doctorController.js:208 | appointments neither completed nor paid earn nothing |
| DoctorController.UserIds | controllers/doctorController.js:215-219 | lists the user id of each appointment, in order |
| DoctorController.SumEarnings | controllers/doctorController.js:205-211 | the loop's total is the earnings of the whole list |
| DoctorController.CollectPatients | controllers/doctorController.js:213-219 | the loop keeps each user id once, in the order first seen |
| DoctorController.DistinctPatients | controllers/doctorController.js:213-226 | as many ids are collected as there are distinct user ids |
| DoctorController.DoctorDashboard | controllers/doctorController.js:198-236 | earnings sum the completed or paid amounts, patients counts the distinct user ids, appointments is the list length and the latest are reversed |
| DoctorController.AppointmentHistory | controllers/doctorController.js:331-346 | lists exactly the doctor's completed appointments that are not cancelled |
| DoctorController.CompletedJoinsHistory | controllers/doctorController.js:334-338 | completing a doctor's non-cancelled appointment puts it into the history |
| DoctorController.ChangePassword | controllers/doctorController.js:239-273 | missing input, an unknown doctor or a wrong current password writes nothing; otherwise only the password hash changes |

## Left out

- Concurrency: each request is one sequential step on the store. The read-modify-write races on `slots_booked` are not modelled.
- The daily timer and the server bootstrap are not modelled. Neither are route wiring, authentication middleware or the feedback controller. Only the pass the timer runs is modelled.
- `cancelPastAppointments` is not part of this model; its source is not available.
- The send functions always report success or failure as a boolean and never throw. The model treats the mail as data returned by the handler. Only `forgotPassword` reads the result, as the `mailSent` parameter. An undelivered mail never changes any other reply or state.
- Time zones, daylight saving and `setMonth` overflow are not modelled. The booking window uses day numbers, with today-plus-one-month given as `maxDay`.
- UserBooking.BookAppointment: does not model an ill-formed ObjectId. Every id is well formed, so the CastError path is absent.
- UserBooking.BookAppointment: the exact texts of the driver's validation, CastError and E11000 messages are stand-ins.
- Storage failures and the catch-all 500 replies are not modelled. This includes the `success: false` result of the day-off pass.
- AdminController.MergeUpdate: Number() is modelled for integer spellings only. A fee such as "12.5", "1e3" or "0x10" is read as NaN and refused, where JavaScript would store a number.
- AdminController.MergeUpdate: the address is kept as a string; `JSON.parse` is not modelled.
- Floating-point amounts are not modelled; amounts and fees are integers.
- UserAccounts.ResetInputCheck: the length test counts code points, not UTF-16 units.
- UserAccounts.RegistrationCheck: the password length counts code points, where `password.length` counts UTF-16 units, so a password of astral characters such as emoji counts shorter than JavaScript counts it.
- Calendar.MakeDay: the parsed numbers are exact integers, where JavaScript holds them as doubles that round beyond 2^53. At the two ends of the Date range the local time zone offset decides validity; the model ignores it.
- DoctorController.UpdateDoctorProfile: request values are given by their spellings, so a JSON number and its string cast alike. A fee given as the empty string, which Mongoose stores as null, is read as Number(""), that is 0. Fees such as "12.5" are CastErrors here, as for MergeUpdate. The CastError's text leaves out the model name.
- The HTML bodies of the mails are left out. Only the fields and the choices between variants are modelled.
- Console logging is left out.
- Keys such as `__proto__` in `slots_booked` or in the grouping objects are treated as ordinary keys.

## Findings

| source | as written | input that shows it | evidently intended | confidence | as-written member | corrected member |
|---|---|---|---|---|---|---|
| controllers/userController.js:814-817 | the date range of getUserBookedSlots compares "d_m_yyyy" keys as strings with $gte/$lte, and the comment says no conversion is needed | startDate "1_1_2026", endDate "31_1_2026": the appointment on "9_1_2026" is left out, because "9_1_2026" sorts after "31_1_2026" (UserBooking.StringRangeMissesDate) | keep the slots whose day lies between the two days (UserBooking.DayRangeOfKeys); UserBooking.GetUserBookedSlotsIntended uses this test, while UserBooking.GetUserBookedSlots keeps the string test as written (UserBooking.BookedSlotQueriesDiffer) | not executed | UserBooking.InStringRange | UserBooking.InDayRange |
