# Booking system core, modelled in Dafny

This project models the business rules of a Django medical-booking application:

- patients register, verify their e-mail with one-time codes, and keep a wallet;
- administrators manage doctors and specialties;
- doctors publish time slots that patients book, pay for from the wallet or by card, and review.

The database is one `Database` class (database.dfy). It holds one table per model: users, OTP codes, specialties, doctors, time slots, appointments, payments, wallet transactions and reviews. A table is a sequence of rows, and each row pairs a primary key with a record. The class invariant `Valid()` collects the constraints the schema enforces:

- unique primary keys, usernames and license numbers;
- one doctor profile per user;
- PROTECT from doctors to their specialty;
- one appointment per slot and one review per appointment;
- the stored slots of a doctor on a date are well-ordered and never overlap.

Views and services that write are methods that change only the tables they name. Each is proved against a pure decision function that states which response the request gets. Validators, gates, listings and permission checks are functions whose contracts characterise each response they give. Where an answer depends on a `.get()` lookup, the direction from the table's contents to the answer is stated for tables with unique primary keys, which the database invariant guarantees.

Units:

- Money is an integer number of cents. Sums and differences of cents are exact.
- Dates are day numbers.
- Times of day are minutes since midnight.
- "Today" and "now" are parameters.
- A signed-in or anonymous caller is a `Requester`.
- An exception a view does not catch is a `Raised` result.
- A form validation error is an `Invalid(message)` result, carrying the message the source uses.

## Model

| member | source | states |
|---|---|---|
| AccountsModels.DefaultUser | accounts/models.py:14-25 | A new user is a patient with an empty phone number and a zero wallet balance, is not verified and is not a superuser. |
| AccountsModels.UserTypeCode | accounts/models.py:8-12 | The stored code of each user type ("admin", "doctor", "patient") parses back to that type; only these three codes are choices. |
| AppointmentsModels.StatusCode | appointments/models.py:64-69 | Each appointment status has a stored code that parses back to it; only the four codes are statuses. |
| AppointmentsModels.NewAppointment | appointments/models.py:85-95 | A new appointment is PENDING, has `confirmation_sent` false, and keeps the given patient, doctor, slot and fee. |
| AppointmentsModels.CleanSlot | appointments/models.py:40-56 | A slot is refused with end-not-after-start iff start >= end; otherwise with past-date iff dated before today; otherwise with overlap iff some other row of the same doctor and date has start < this end and end > this start. It is accepted iff none of these hold. |
| AppointmentsModels.StoreSlot | appointments/models.py:58-60 | Saving a slot updates the row with that key or appends a new one, and keeps keys unique. |
| AppointmentsModels.StoreSlotKeepsConsistent | appointments/models.py:58-60 | Because `save` validates first, storing a slot that passed `clean` keeps every doctor's slots on a date well-ordered and pairwise non-overlapping. |
| AppointmentsModels.CleanSlotImpliesUnique | appointments/models.py:34 | An accepted slot never repeats the (doctor, date, start, end) of another row. |
| AppointmentsModels.ConsistentSlotsAreUnique | appointments/models.py:34 | Consistent stored slots satisfy the (doctor, date, start_time, end_time) uniqueness constraint. |
| AppointmentsModels.ResaveDoesNotConflictWithItself | appointments/models.py:51 | Re-saving a stored, non-past slot unchanged is accepted, because its own row is excluded from the overlap query. |
| AppointmentsModels.TouchingSlotsAccepted | appointments/models.py:52-53 | A slot that only touches its neighbours (end == other start or start == other end) is accepted. |
| AppointmentsModels.CleanAppointment | appointments/models.py:108-111 | An appointment is accepted iff its slot exists and is available; the unavailable error is raised exactly for an existing slot that is not available. |
| Database.Database.constructor | accounts/models.py:5-28 | An empty database satisfies every table constraint. |
| Database.Database.SaveTimeSlot | appointments/models.py:58-60 | `save` runs `clean` first: on an error nothing is stored; otherwise the slot is stored and the invariant holds. |
| Database.Database.CreateAppointment | appointments/models.py:80-84 | Creating an appointment fails with an integrity error iff its slot already has one; otherwise exactly one PENDING row is appended. |
| Database.WithRating | reviews/models.py:52-58 | Only the reviewed doctor's row changes: its `total_reviews` becomes the number of its reviews and its `average_rating` their mean, or 0 when there are none. |
| Database.UpdateKeepsUsernames | accounts/models.py:5-28 | Rewriting a user row with its own username keeps usernames unique. |
| Database.Database.SaveReview | reviews/models.py:39-45 | Saving a review overwrites its patient and doctor with the appointment's. A second review of the same appointment fails with an integrity error. Otherwise the row is stored and the doctor's rating summary is recomputed. |
| Database.Database.UpdateDoctorRating | reviews/models.py:52-58 | The doctor's rating summary is recomputed from the current reviews and the doctor constraints still hold. |
| Database.Database.DeleteReview | reviews/models.py:47-50 | Deleting a review removes exactly that row, then recomputes its doctor's summary. |
| Database.Database.DeleteSpecialty | doctors/models.py:29 | Deleting a specialty fails with a protected error iff a doctor references it; otherwise exactly that row is removed. |
| DoctorsModels.NewDoctor | doctors/models.py:34-36 | A new doctor is active and has zero reviews. |
| ReviewsModels.NewReview | reviews/models.py:30 | A new review is not anonymous. |
| ReviewsModels.AverageRatingInRange | reviews/models.py:26-28 | With every rating in 1..5, the average written to the doctor is 0 when it has no reviews and otherwise lies in 1..5. |
| ReviewsModels.SumBounds | reviews/models.py:55-57 | The sum of ratings in [lo, hi] lies between lo and hi times their number. |
| ReviewsModels.SumAppend | reviews/models.py:55-57 | One more rating adds exactly that rating to the sum. |
| PaymentsModels.PaymentStatusCode | payments/models.py:8-13 | Payment status codes are exactly "failed" and "success", and each parses back to its status. |
| PaymentsModels.TransactionTypeCode | payments/models.py:23-28 | Wallet transaction types are exactly "deposit" and "withdraw", and each parses back to its type. |
| PaymentsViews.SetBalance | payments/views.py:46-47 | Writing a balance changes only that user's `wallet_balance`. |
| PaymentsViews.PostingKeepsLedger | payments/views.py:44-56 | Posting a deposit or withdrawal moves the balance by the signed amount. The new entry's `balance_after` equals the new balance and is the user's latest entry. The balance still agrees with the ledger. Other users' balances and entries are unchanged. |
| PaymentsViews.DepositDecision | payments/views.py:32-67 | A POST deposits iff the amount is positive; otherwise the amount is refused; a GET shows the form. |
| PaymentsViews.WithdrawDecision | payments/views.py:70-109 | A POST withdraws iff 0 < amount <= balance. A non-positive amount is refused first, then an amount above the balance. A GET shows the form. A withdrawal never leaves a negative balance. |
| PaymentsViews.Post | payments/views.py:86-98 | The balance is updated and one ledger entry is appended whose `balance_after` is the new balance. |
| PaymentsViews.DepositFunds | payments/views.py:32-67 | A successful deposit raises the balance by exactly the amount and appends one DEPOSIT entry. In every other case nothing changes. |
| PaymentsViews.WithdrawFunds | payments/views.py:70-109 | A successful withdrawal lowers the balance by exactly the amount and appends one WITHDRAW entry. In every other case nothing changes. |
| PaymentsViews.WalletStepsKeepBalancesNonNegative | payments/views.py:39-98 | Deposits and withdrawals keep every wallet balance non-negative. |
| PaymentsViews.PaymentDecision | payments/views.py:140-218 | Unknown or foreign appointment gives 404. A wallet POST pays iff balance >= fee and is refused otherwise. A card POST pays. A GET or any other method shows the page. |
| PaymentsViews.PaymentRepeatable | payments/views.py:150-205 | Confirming the appointment does not stop a later payment of it: a Payment is a foreign key, not one-to-one. |
| PaymentsViews.ConfirmKeepsSlots | payments/views.py:177-178 | Setting status CONFIRMED keeps one appointment per slot. |
| PaymentsViews.PayAndConfirm | payments/views.py:160-178 | One `success` Payment of the fee is created and the appointment becomes CONFIRMED. |
| PaymentsViews.ProcessPayment | payments/views.py:140-218 | A wallet payment lowers the balance by the fee, creates one success Payment and one WITHDRAW entry linked to the appointment, and confirms it. A card payment creates the Payment and confirms without touching the wallet. Every other outcome changes nothing. |
| PaymentsViews.NewestFirst | payments/views.py:20-22 | The listing is the last `limit` rows in reverse, newest first. |
| PaymentsViews.WalletDetail | payments/views.py:14-29 | The listing is the user's own entries, newest first: entry k is the user's k-th newest, and there are ten of them, or all when there are fewer. The first is the latest entry and its `balance_after` equals the shown balance. |
| AppointmentsForms.Clock | appointments/forms.py:22-54 | A time renders as "HH:MM": two digits that read back as the hour, a colon, and two digits that read back as the minutes. |
| AppointmentsForms.SlotLabel | appointments/forms.py:22-54 | A label is the start time, " - ", and the time 15 minutes later, 13 characters in all. |
| AppointmentsForms.Window | appointments/forms.py:22-54 | A window lists the 15-minute starts from its first time up to its end. |
| AppointmentsForms.Grid | appointments/forms.py:23-53 | The grid has 28 starts, all within 09:00-12:00, 14:00-16:00 or 17:00-19:00, strictly increasing at least 15 minutes apart. |
| AppointmentsForms.TimeChoices | appointments/forms.py:22-54 | The choices pair each grid start with its label. |
| AppointmentsForms.TimeChoicesWellFormed | appointments/forms.py:22-54 | 28 entries in opening hours; each label starts with its own time; the 15-minute intervals do not overlap. |
| AppointmentsForms.MorningLiterals | appointments/forms.py:24-35 | The first and last morning entries equal the literal table. |
| AppointmentsForms.AfternoonLiterals | appointments/forms.py:37-44 | The first and last afternoon entries equal the literal table. |
| AppointmentsForms.EveningLiterals | appointments/forms.py:46-53 | The first and last evening entries equal the literal table. |
| AppointmentsForms.LabelOf540 | appointments/forms.py:24 | The label of 09:00 is "09:00 - 09:15". |
| AppointmentsForms.LabelOf705 | appointments/forms.py:35 | The label of 11:45 is "11:45 - 12:00". |
| AppointmentsForms.LabelOf840 | appointments/forms.py:37 | The label of 14:00 is "14:00 - 14:15". |
| AppointmentsForms.LabelOf945 | appointments/forms.py:44 | The label of 15:45 is "15:45 - 16:00". |
| AppointmentsForms.LabelOf1020 | appointments/forms.py:46 | The label of 17:00 is "17:00 - 17:15". |
| AppointmentsForms.LabelOf1125 | appointments/forms.py:53 | The label of 18:45 is "18:45 - 19:00". |
| AppointmentsForms.WeekdayCodes | appointments/forms.py:56-64 | Weekday codes are exactly 0..6, from Monday to Sunday. |
| AppointmentsForms.CleanBulkDates | appointments/forms.py:118-126 | The bulk form is refused iff both dates are given and start > end. |
| AppointmentsForms.SameDayRangeAccepted | appointments/forms.py:123 | A range that starts and ends on the same day is accepted. |
| AppointmentsViews.InsertByTime | appointments/views.py:27 | Insertion into a (date, start) ordered list keeps it ordered and adds exactly one element. |
| AppointmentsViews.SortByTime | appointments/views.py:27 | `order_by("date", "start_time")` yields an ordered permutation. |
| AppointmentsViews.FilterKeepsSorted | appointments/views.py:32-35 | Narrowing an ordered listing keeps it ordered. |
| AppointmentsViews.BookView | appointments/views.py:20-41 | An unknown doctor gives 404. Otherwise a slot is listed iff it is the doctor's, available, dated today or later, and within the inclusive start and end bounds. The list is sorted by (date, start) and holds each such slot as often as the table does, so once per row. |
| AppointmentsViews.BoundsOnlyRemove | appointments/views.py:32-35 | Every slot listed with bounds is also listed without them. |
| AccountsServices.VerifyDecision | accounts/services.py:93-110 | "Invalid OTP code" iff no unused code matches user, code and purpose. With unique keys: a single match that has expired gives "OTP has expired" and a single unexpired match succeeds, and conversely; two or more matches let `.get` raise, and conversely. Success gives the e-mail or generic message by purpose. |
| AccountsServices.VerifiesAtMostOnce | accounts/services.py:95-100 | After a success marks the code used, the same code never verifies again. |
| AccountsServices.PurposeIsolation | accounts/services.py:95 | A code issued only for other purposes is rejected as invalid. |
| AccountsServices.VerifyOtp | accounts/services.py:93-110 | Success marks exactly that code used, and for e-mail verification sets `is_verified`. Failures, including an expired code, change nothing. |
| AccountsServices.VerifyPasswordResetOtp | accounts/services.py:112-114 | It is `verify_otp` with purpose `password_reset`: success marks exactly the matched code used, failure leaves the codes as they were, and no user ever changes. |
| AccountsServices.ResendDispatch | accounts/services.py:116-123 | Resending sends a verification or reset code for those two purposes and raises for any other. |
| AccountsMixins.Dispatch | accounts/mixins.py:8-19 | Anonymous callers go to login, unverified ones to OTP verification, verified ones proceed; the login check comes first. |
| AccountsMixins.AnonymousAlwaysToLogin | accounts/mixins.py:9-11 | An anonymous caller is sent to login whatever else holds. |
| AccountsForms.CleanLoginUsername | accounts/forms.py:39-48 | An input with "@" that is exactly one user's e-mail is replaced by that user's username, and a replacement only ever comes from such a user. An input without "@" or matching no e-mail is returned unchanged. Two users with that e-mail raise, and only then. |
| AccountsForms.CleanRegistrationEmail | accounts/forms.py:118-123 | A non-empty e-mail is refused iff some user has it. |
| AccountsForms.CleanPhoneNumber | accounts/forms.py:125-131 | A non-empty phone number is refused iff it has fewer than 10 digit characters. |
| AccountsForms.PhoneIgnoresNonDigits | accounts/forms.py:128 | Adding a non-digit character never changes acceptance. |
| AccountsForms.CleanPassword1 | accounts/forms.py:133-158 | The checks run in order: too short, then no letter, then no digit, then too common (case-insensitively). Each message is given exactly when the earlier checks pass and this one fails. An accepted non-empty password meets all four. |
| AccountsForms.LowerKeepsClasses | accounts/forms.py:139-153 | Lower-casing keeps whether a string has letters and digits. |
| AccountsForms.TooCommonOnlyPassword123 | accounts/forms.py:145-156 | Of the common list, only a case variant of "password123" passes the earlier checks and so reaches the common check. |
| AccountsForms.PasswordExamples | accounts/forms.py:133-158 | "12345678" fails on the letter check; "password123" fails on the common check. |
| AccountsForms.CleanRegistration | accounts/forms.py:160-168 | Registration is refused iff both passwords are given and differ. |
| AccountsForms.NormalizeEmail | accounts/forms.py:171-173 | `create_user` normalizes the e-mail: when the stripped address has an "@", it keeps everything up to the last "@" and lowercases the rest; an address without "@" is kept as given. |
| AccountsForms.RegisteredUser | accounts/forms.py:170-180 | A registered user has the e-mail as entered as username, the normalized e-mail as e-mail, type patient, zero balance, and is unverified. |
| AccountsForms.RegisterUser | accounts/forms.py:170-180 | Registration fails on a taken username (the e-mail); otherwise exactly one user row is appended. |
| AccountsForms.CleanOtpCode | accounts/forms.py:200-206 | A code is accepted iff it is all digits and 6 long; the non-digit message comes first. |
| AccountsForms.CleanResetRequestEmail | accounts/forms.py:223-234 | An unknown e-mail is refused with "no account", and only then. With unique keys: the e-mail of exactly one user is refused with "not verified" when that user is unverified and accepted when verified, and conversely; several matches raise, and conversely. |
| AccountsForms.MixedCaseDomainReachesTheSave | accounts/forms.py:118-123 | After "ann@Example.COM" registers, the stored e-mail is "ann@example.com", so registering the same address again passes the exact-match `clean_email` and reaches the save, where its username is taken. |
| AccountsForms.NormalizeExample | accounts/forms.py:171-173 | "ann@Example.COM" normalizes to "ann@example.com". |
| AccountsForms.NotVerifiedMeansTheOneUser | accounts/forms.py:228-232 | The "not verified" refusal names the one user with that e-mail. |
| AccountsForms.CleanPasswordReset | accounts/forms.py:284-298 | The mismatch check precedes the length check; the pair is accepted iff either is empty or they agree and are at least 8 long. |
| DoctorsServices.ValidateAdminPermissions | doctors/services.py:16-38 | Anonymous callers get "must be authenticated". Authenticated callers pass iff superuser or of admin type, and get the admin-only message otherwise. |
| DoctorsServices.CanUserManageDoctors | doctors/services.py:93-108 | True exactly for signed-in superusers and admin-type users. |
| DoctorsServices.CreateDoctorGuard | doctors/services.py:40-60 | Creation is delegated iff the caller may manage doctors; otherwise it stops with the validation message and creates nothing. |
| DoctorsServices.UpdatedUser | doctors/services.py:76-83 | The six user fields are copied from the data; the type becomes doctor; nothing else changes. |
| DoctorsServices.AssignSetsOneAttribute | doctors/services.py:87-88 | One `setattr` sets the attribute it names and leaves the others. |
| DoctorsServices.AssignAllLastValueWins | doctors/services.py:87-88 | After assigning the entries in order, each named attribute holds the value of the last entry naming it, each attribute no entry names keeps its value, and the user, rating summary and creator are untouched. |
| DoctorsServices.FormDataAssignsAll | doctors/forms.py:192-199 | The form's six doctor fields all end up with the posted values. |
| DoctorsServices.AssignFields | doctors/services.py:87-88 | The `setattr` loop produces the doctor the assignments specify. |
| DoctorsServices.UpdateDoctor | doctors/services.py:62-91 | The user row is saved first: it fails iff another user has the username. The doctor row is saved second: it fails iff the license is taken or the specialty is missing, and the user row then stays written. On success both rows hold the new values. |
| DoctorsServices.UpdateUserKeepsUsernames | doctors/services.py:84 | A username no other user has keeps usernames unique. |
| DoctorsServices.UpdateDoctorKeepsConstraints | doctors/services.py:89 | A free license and an existing specialty keep the doctor constraints. |
| DoctorsMixins.IsAdminUser | doctors/mixins.py:4-8 | False for anonymous callers; true for signed-in superusers and admin-type users; true only for them. |
| DoctorsMixins.IsAdminUserAgreesWithService | doctors/mixins.py:4-8 | `is_admin_user` agrees with `can_user_manage_doctors` for every caller. |
| DoctorsForms.CleanDoctorEmail | doctors/forms.py:69-79 | A non-empty e-mail is refused iff a user other than the edited doctor's has it. |
| DoctorsForms.CleanDoctorUsername | doctors/forms.py:81-91 | A non-empty username is refused iff a user other than the edited doctor's has it. |
| DoctorsForms.CleanLicenseNumber | doctors/forms.py:93-105 | A non-empty license is refused iff a doctor other than the edited one has it. |
| DoctorsForms.EditingKeepsOwnValues | doctors/forms.py:74-75 | Re-saving a doctor with its own username and license is never refused. |
| DoctorsForms.CleanExperienceYears | doctors/forms.py:107-111 | Refused iff given and negative; a missing value passes. |
| DoctorsForms.CleanConsultationFee | doctors/forms.py:113-117 | Refused iff given and negative. |
| DoctorsForms.CleanWalletBalance | doctors/forms.py:131-137 | A missing balance becomes 0; the result is refused iff negative. |
| DoctorsForms.DoctorSavePath | doctors/forms.py:153-200 | The create path is taken iff the instance is unsaved and a creator is given; every other case updates. |
| DoctorsForms.CleanSpecialtyName | doctors/forms.py:232-243 | A non-empty name is stripped, then refused iff another specialty has it ignoring case. |
| DoctorsForms.SpecialtyNameUpToCaseAndSpace | doctors/forms.py:236-238 | Names differing only in case or surrounding whitespace are refused alike. |
| DoctorsForms.CleanDescription | doctors/forms.py:245-250 | The result is `Strip` of the description: the contiguous middle part left after removing leading and trailing whitespace, which starts and ends with non-whitespace. |
| DoctorsForms.CleanDescriptionIdempotent | doctors/forms.py:245-250 | Cleaning a description twice gives the same as once. |
| Text.StripOfStripped | doctors/forms.py:249 | A string without surrounding whitespace is its own strip. |
| DoctorsAdmin.DoctorAdminPermission | doctors/admin.py:84-94 | Add, change and delete are allowed exactly for signed-in superusers and admin-type users. |
| DoctorsAdmin.DoctorAdminPermissionUniform | doctors/admin.py:84-94 | The three permissions always agree. |
| DoctorsAdmin.DoctorAdminSave | doctors/admin.py:96-102 | A new doctor is saved through the form with the requester as creator; a change is a plain save. |
| DoctorsAdmin.AdminAddTakesCreatePath | doctors/admin.py:96-100 | A doctor added in the admin reaches the form's create path. |
| DoctorsAdmin.DoctorCount | doctors/admin.py:146-150 | 0 for an unsaved specialty; otherwise the length of the filter of doctors with that specialty, positive iff it has any. |
| DoctorsAdmin.SpecialtyDeletePermission | doctors/admin.py:161-165 | Deletion is allowed iff the base permission allows it and the specialty has no doctors. |
| DoctorsAdmin.DeleteModel | doctors/admin.py:167-177 | A specialty with doctors stays, with a refusal carrying its doctor count; otherwise exactly that row is deleted. |
| DoctorsAdmin.SelectionMembers | doctors/admin.py:183-192 | The deleted specialties are exactly the selected ones without doctors; the warned ones are exactly those with doctors. |
| DoctorsAdmin.DeletableAndKeptSplit | doctors/admin.py:183-192 | Every selected specialty is either deleted or warned about. |
| DoctorsAdmin.PurgeRemovesExactlyDeletable | doctors/admin.py:183-192 | After the bulk delete a specialty remains iff it was there and was not deletable. |
| DoctorsAdmin.DeleteQueryset | doctors/admin.py:179-197 | Specialties without doctors are deleted and counted, the rest are warned about in order, and success is reported iff the count is positive. |
| ReviewsViews.ReviewDecisionAsWritten | reviews/views.py:13-58 | As written, every request from the appointment's own patient raises, because the status check reads an attribute the model lacks. |
| ReviewsViews.AsWrittenNeverSubmits | reviews/views.py:28 | As written, no request ever submits a review. |
| ReviewsViews.AsWrittenRejectsTheOwner | reviews/views.py:28 | A concrete completed, unreviewed appointment and a valid rating from its patient raise. |
| ReviewsViews.ReviewDecision | reviews/views.py:13-58 | Checks run as login, then 404, then patient, then COMPLETED status, then existing review, each answer given iff the earlier checks pass and this one fails: a non-patient is forbidden, a patient of an appointment that is not COMPLETED is redirected, a reviewed one is "already reviewed". A review is submitted iff all pass and a POST carries a rating in 1..5; otherwise the form is shown. |
| ReviewsViews.CorrectionOnlyChangesTheRaise | reviews/views.py:22-35 | The corrected view answers as written wherever the written one does not raise. |
| ReviewsViews.SubmitReview | reviews/views.py:39-58 | A submission appends exactly one review of the appointment, with the requester as patient and the appointment's doctor, and refreshes that doctor's rating. Every other answer changes nothing. |
| ReviewsViews.SubmittedOnlyOnce | reviews/views.py:33-35 | Once a review is stored for the appointment, the next POST is answered "already reviewed". |
| CoreViews.Preview | core/views.py:26 | The preview is the first six rows, or all of them when there are fewer. |
| CoreViews.Home | core/views.py:6-33 | At most six doctors are shown. Each is active, matches a non-empty query in first name, last name, specialty name or bio ignoring case, and has the requested specialty. `total_doctors` counts all active doctors. A non-numeric specialty raises. |
| CoreViews.HomeShowsFirstSelected | core/views.py:11-26 | The preview is exactly the first six doctors meeting all conditions at once, in table order. An empty query and an absent specialty filter nothing. |
| CoreViews.HomeShowsAllWhenFew | core/views.py:26-30 | With fewer than six matches all are shown, and the shown count never exceeds the total. |

## Left out

- Strings are modelled as ASCII-level character sequences: `isdigit`, `\d`, `lower()`, `strip()` and `__icontains` use ASCII classes and case folding, not Unicode.
- Parsing of request strings: Decimal amounts, `parse_date`, integer ids, and the `(ValueError, TypeError)` branch for malformed amounts.
  - Requests arrive already parsed.
  - The home page's specialty parameter arrives as absent, a number, or text the id lookup cannot convert.
- Messages, redirects, templates, rendering and e-mail sending are out of scope. Outcomes are datatypes.
- Transactions and concurrency: each request is one atomic step.
- Decimal amounts with more than two decimal places: the source parses posted amounts at full precision and rounds them to two places only when a row is saved; the model takes amounts that are already whole cents.
- Querysets without an ordering (such as the home page's doctors, since `Doctor` declares no `Meta.ordering`) come back in whatever order the database chooses; the model returns them in table order, so CoreViews.HomeShowsFirstSelected fixes one of the orders the database may use.
- `created_at` ordering equals insertion order: the newest row is the last appended.
- Timestamps, UUIDs and transaction descriptions are not stored.
- PaymentsViews.WalletDetail: the two-decimal rounding of Decimal amounts is not modelled (amounts are exact cents).
- ReviewsModels.AverageRatingInRange: the average is the exact mean, not rounded to two decimals.
- Model-field validators (max_length, max_digits, PositiveSmallIntegerField range) are not modelled. The review rating's 1..5 bounds are enforced in the review form check.
- OTP generation, expiry length, superseding and sending are left out. `is_valid` is abstracted as `now < expires_at`, and codes are given.
- `Doctor.create_doctor` internals are not part of this model. The create path is modelled only up to its permission guard.
- `Specialty.clean`/`save` are not part of this model.
- The `is_verified` field is added to the user record, because the services, forms and mixins read it. Its default (not verified) is assumed, since the user model does not declare it.
- `handle_no_permission` in doctors/mixins.py uses names it never imports, so it is not modelled.
- `payment_history`, `view_transactions` and the placeholder views are listing or stub views outside the modelled core.
- `WalletTransaction.appointment_id` is declared non-nullable, yet deposits and withdrawals omit it. The model makes it optional.
- AppointmentsForms.TimeChoices: the 28 entries are generated from the three opening windows, and spot-check lemmas compare the first and last entry of each window with the literal table. The middle entries are not compared one by one.
- DoctorsServices.UpdateDoctor: the doctor fields are modelled as the six form fields; arbitrary attribute names in `setattr` are not.
- DoctorsForms.EditingKeepsOwnValues: the e-mail check is not covered, because e-mails are not unique in the schema.
- `.get()` lookups that find several rows are modelled as `MultipleObjectsReturned`, which only arises when the schema does not make the looked-up field unique.

## Findings

| source | as written | input that shows it | evidently intended | confidence | as-written member | corrected member |
|---|---|---|---|---|---|---|
| reviews/views.py:28 | compares the status with `Appointment.AppointmentStatus.COMPLETED`, but `Appointment` defines only `STATUS_CHOICES`, so the attribute lookup raises | the patient of a completed, unreviewed appointment posting rating 5 | compare with the stored code "COMPLETED" and continue to the review checks | high, not executed | ReviewsViews.ReviewDecisionAsWritten | ReviewsViews.ReviewDecision |
