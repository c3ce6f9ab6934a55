# Fee ledger of the Fee-Receipt-Generator, in Dafny

The Fee-Receipt-Generator server keeps `StudentFee` records for each
account (the "owner"). Its handlers do the following:

- register a student;
- record a fee payment against a student, found by name, standard and email;
- print and mail a receipt;
- report dashboard counters;
- report month-by-month growth and revenue series.

Accounts verify their email and log in before they can list or register
students or record payments. The three dashboard routes
(`Server/Routes/route.js:432`, `455`, `486`) check no token: they serve
the records of the last owner the server noted to any caller.
The web client lists the owner's students under a search box, and clears
its registration form once the server accepts a student.

The Dafny model has these modules:

- `StudentFeeSchema` (`student_fee.dfy`): the record and its validation.
  It also gives the balance and the receipt's Student ID.
- `Ledger` (`ledger.dfy`): the class `FeeLedger`, whose methods register
  a student and record a payment by updating the stored records in place.
  It also holds the payment lookup, the response and the text of the receipt.
- `Analytics` (`analytics.dfy`): the dashboard counters, the grouping by
  month of admission, and the named month series.
- `ObjectIds` (`object_ids.dfy`): database object ids and their text form,
  shared by accounts and fee records.
- `Auth` (`auth.dfy`): the login decision, and the class `UserStore`.
  Its method `VerifyEmail` sets an account's `verified` flag.
- `StudentView` (`student_view.dfy`): the client's search filter and the
  reset of its registration form.
- `Money` and `Text` (`money.dfy`, `text.dfy`): the JavaScript conversions
  the handlers rely on. These are `Number(text)`, `toFixed(2)`,
  `toLowerCase`, `toUpperCase`, `trim` and `includes`.

Amounts are whole paise (hundredths of a rupee), held as unbounded
integers. So the `===` of the fully-paid counter and every sum are exact,
and `toFixed(2)` is exact.

The owner of a request is an explicit parameter of every operation. The
clock is a parameter too: a `Date` for a registration, and epoch
milliseconds for a receipt number. Whether drawing the receipt fails is
a boolean parameter.

Four behaviours of the code are easy to miss, and the model keeps them:

- A negative total is stored: `POST /students` checks only that each field
  is truthy (`Server/Routes/route.js:402`). Text that `Number` cannot read
  is not refused with a 400 either: the record fails validation on save,
  which answers 500 (`Ledger.FeeLedger.RegisterStudent`).
- An unknown username ends in a 500, not a 401: the login handler reads
  the account's id (`route.js:81`) before it checks that an account was
  found, and the error this throws is caught as a failed login
  (`Auth.Login`).
- A login token opens `GET /verify-email` too: both are signed with the
  same secret (`route.js:9`, `route.js:92`), and a login token carries no
  email. The lookup at `route.js:56` then has an empty filter and finds
  some account, which it marks verified (`Auth.TokenWithoutEmailVerifiesFirst`).
- A mail failure after a payment gets no answer at all: the receipt mail
  is sent in a stream callback outside the handler's `try`. The model
  covers only failures inside the `try`: a receipt that cannot be drawn
  after the save answers 500, and the payment stays recorded.

## Model

| member | source | states |
|---|---|---|
| StudentFeeSchema.NewStudentFee | Server/models/StudentFee.js:4-18 | a new record carries the given fields, and both dates default to the creation time |
| StudentFeeSchema.NewStudentFeeConforms | Server/models/StudentFee.js:5-17 | a record built from non-empty strings at a real date passes the schema's required-field validation |
| StudentFeeSchema.WithPayment | Server/Routes/route.js:138-139 | a payment adds the amount to `feesPaid` and sets `paymentMode`; every other field is unchanged |
| StudentFeeSchema.RemainingAfterPayment | Server/Routes/route.js:227 | a payment lowers the remaining balance by exactly the amount; the balance goes negative exactly on overpayment |
| StudentFeeSchema.WithPaymentConforms | Server/models/StudentFee.js:10 | a paid record still passes validation iff the payment method is non-empty |
| StudentFeeSchema.Conforms | Server/models/StudentFee.js:5-17 | the schema's validation: every required string non-empty, both dates real dates |
| StudentFeeSchema.Remaining | Server/Routes/route.js:227 | the balance plus what was paid is the total; it is negative exactly on overpayment and zero exactly when paid equals total |
| ObjectIds.HexString | Server/Routes/route.js:193 | an object id's text form has the given number of digits, all lower-case hex |
| ObjectIds.HexStringValue | Server/Routes/route.js:193 | the w hex digits written for n read back as n modulo 16^w |
| ObjectIds.HexDigitRoundTrip | Server/Routes/route.js:193 | each digit below 16 is written as a lower-case hex character that reads back as that digit |
| ObjectIds.ModStep | Server/Routes/route.js:193 | dropping the last hex digit and reducing modulo 16^k, then putting the digit back, is reducing modulo 16^(k+1) |
| ObjectIds.ObjectIdString | Server/Routes/route.js:193 | `_id.toString()`: 24 lower-case hex digits whose value is the id modulo 16^24 |
| StudentFeeSchema.StudentIdOf | Server/Routes/route.js:193 | `slice(-8).toUpperCase()` of the id's text is the upper-cased eight-digit hex string of the id |
| StudentFeeSchema.UpperHexValue | Server/Routes/route.js:193 | upper-casing lower-case hex digits keeps them hex and keeps their value |
| ObjectIds.HexSuffix | Server/Routes/route.js:193 | the last k of w hex digits of n are the k-digit hex string of n |
| StudentFeeSchema.StudentIdIsLowBits | Server/Routes/route.js:193 | the Student ID is eight upper-case hex digits whose value is the id modulo 2^32, its low 32 bits |
| Money.DecimalDigits | Server/Routes/route.js:172 | the decimal text of a number is non-empty and all digits |
| Money.DecimalDigitsRoundTrip | Server/Routes/route.js:172 | reading back the decimal digits written for n gives n |
| Money.PaiseDigits | Server/Routes/route.js:223-231 | the two fraction digits of `toFixed(2)` are digits that read back as the amount modulo 100 |
| Money.UnsignedFixed2 | Server/Routes/route.js:223-231 | a non-negative amount prints as digits, a point and exactly two digits |
| Money.UnsignedRoundTrip | Server/Routes/route.js:223-231 | a non-negative amount printed with two decimals reads back as itself |
| Money.FormattedIsTrimmed | Server/Routes/route.js:223-231 | a printed amount has no surrounding white space, so `Number` trims nothing from it |
| Money.ParseAmount | Server/Routes/route.js:413 | `Number(text)`: text that is blank once trimmed reads as 0 |
| Money.ParseSigned | Server/Routes/route.js:413 | a number without a sign reads as its digits; a '+' keeps the value and a '-' negates it; a signed text reads iff its body does |
| Money.ParseUnsignedExact | Server/Routes/route.js:413 | an unsigned text reads iff it is digits with at most one point, at most two digits after it, and at least one digit |
| Money.ParseAmountExact | Server/Routes/route.js:413 | `Number` gives a value iff the trimmed text is empty or an optional sign followed by such an unsigned text |
| Money.SignedShape | Server/Routes/route.js:413 | a text of that grammar has digits and one point at most, the point at most two places from the end, and a sign only in front |
| Money.ParseUnsignedDigits | Server/Routes/route.js:413 | a run of digits reads as that many rupees |
| Money.ParseDigits | Server/Routes/route.js:413 | a run of digits typed into the form reads as that many rupees, in paise |
| Money.ParseDecimalDigits | Server/Routes/route.js:413 | the decimal text of n reads back as n rupees |
| Money.FormatFixed2 | Server/Routes/route.js:223-231 | `toFixed(2)`: at least four characters, a point and exactly two digits at the end, and a '-' in front exactly for negative amounts |
| Money.FormatParseRoundTrip | Server/Routes/route.js:223-231 | every amount printed with two decimals reads back through `Number` as the same amount |
| Money.SignedRoundTrip | Server/Routes/route.js:223-231 | a printed amount reads back as itself once the sign is taken into account |
| Money.NegativeRoundTrip | Server/Routes/route.js:227 | a printed negative balance reads back as that negative amount |
| Money.SignedOfNegated | Server/Routes/route.js:413 | a leading '-' negates the value of the text after it |
| Text.ToLower | MyProject/src/components/Students/Student.jsx:88-90 | lower-casing keeps the length and maps each character to its lower-case form |
| Text.ToUpper | Server/Routes/route.js:193 | upper-casing keeps the length and maps each character to its upper-case form |
| Text.LowerOfUpper | MyProject/src/components/Students/Student.jsx:88-90 | lower-casing after upper-casing is plain lower-casing |
| Text.Trim | Server/Routes/route.js:127 | the trimmed text is the slice of the input between its leading and its trailing white space, and neither starts nor ends with white space |
| Text.TrimSlice | Server/Routes/route.js:127 | trimming both ends keeps a contiguous slice and drops only white space before and after it |
| Text.TrimStart | Server/Routes/route.js:127 | leading trim drops exactly the leading white space and keeps a suffix |
| Text.TrimEnd | Server/Routes/route.js:127 | trailing trim drops exactly the trailing white space and keeps a prefix |
| Text.TrimIdempotent | Server/Routes/route.js:127 | trimming twice is trimming once |
| Text.TrimOfTrimmed | Server/Routes/route.js:127 | text that neither starts nor ends with white space is left as it is by trimming |
| Text.Contains | MyProject/src/components/Students/Student.jsx:88-90 | `includes`: some position of the text starts a copy of the needle |
| Text.ContainsEmpty | MyProject/src/components/Students/Student.jsx:88-90 | every string includes the empty string |
| Analytics.OwnedBy | Server/Routes/route.js:437 | the owner's records are exactly the stored records with that owner, in stored order |
| Analytics.IsFullyPaid | Server/Routes/route.js:441 | `feesPaid === totalFees` holds exactly when the remaining balance is zero |
| Analytics.SumFeesPaid | Server/Routes/route.js:440 | the revenue sum; it is not negative when no record has a negative payment |
| Analytics.CountFullyPaid | Server/Routes/route.js:441 | the fully-paid count is at most the number of records |
| Analytics.Stats | Server/Routes/route.js:437-442 | the owner's record count and `feesPaid` sum; 0 <= fullyPaid <= totalStudents; remaining = totalStudents - fullyPaid >= 0 |
| Analytics.FullyPaidSplit | Server/Routes/route.js:441-442 | every record is either fully paid or still has a balance |
| Analytics.RemainingCountsStudentsWithBalance | Server/Routes/route.js:441-442 | `remaining` counts the students who still have a balance; it is not an amount of money |
| Analytics.OwnedByAppend | Server/Routes/route.js:437 | a stored record joins its owner's list at the end and no other owner's list |
| Analytics.AggregatesAppend | Server/Routes/route.js:440-441 | the revenue sum and the fully-paid count add up over concatenation |
| Analytics.OwnedByConcat | Server/Routes/route.js:437 | an owner's records in two stretches of the store are that owner's records of each, in order |
| Analytics.OwnedBySplit | Server/Routes/route.js:437-441 | around one stored record, the owner's list, revenue and fully-paid count split into front, that record if it is the owner's, and back |
| Analytics.StatsAfterAppend | Server/Routes/route.js:437-442 | a new record of the owner adds one student and its `feesPaid`, and one fully-paid student iff paid equals total; other owners' counters are unchanged |
| Analytics.StatsAfterReplace | Server/Routes/route.js:437-442 | replacing a record keeps the student count, and moves revenue and fully-paid by the difference of the two records |
| Analytics.CountInMonth | Server/Routes/route.js:463-465 | a month's `$sum: 1` counts at most every record |
| Analytics.TotalInMonth | Server/Routes/route.js:493-495 | a month's `$sum` of a field that is never negative is not negative |
| Analytics.FullyPaidOfOne | Server/Routes/route.js:440-441 | a single record adds its `feesPaid`, and one fully-paid student, to its own owner only |
| Analytics.CountInMonthPositive | Server/Routes/route.js:463-465 | a month's count is positive iff some record was admitted in that month |
| Analytics.GroupByMonth | Server/Routes/route.js:458-470 | `$group` then `$sort`: one bucket per month present, strictly ascending by month, each bucket holding that month's sum |
| Analytics.MonthBucket | Server/Routes/route.js:458-470 | a month has one bucket iff it has a record, and the bucket carries the month's sum |
| Analytics.GroupByMonthStep | Server/Routes/route.js:458-470 | the sorted buckets from a month on are that month's bucket, if any, then the later ones |
| Analytics.GroupByMonthFirst | Server/Routes/route.js:458-470 | a month with records opens the buckets from that month on |
| Analytics.GroupByMonthShift | Server/Routes/route.js:458-470 | a bucket among the later months keeps its place after this month's bucket, if any |
| Analytics.GroupByMonthComplete | Server/Routes/route.js:458-470 | every month with an admission has its bucket |
| Analytics.BucketsCoverMonths | Server/Routes/route.js:458-470 | the buckets from a month onward sum to the month sums from that month onward |
| Analytics.EmptyMonthTotal | Server/Routes/route.js:463-465 | a month with no admission contributes nothing to a sum |
| Analytics.MonthTotalsCons | Server/Routes/route.js:463-465 | the month sums from a month onward are those of the other records plus the first record's amount when its month is in range |
| Analytics.MonthTotalsAll | Server/Routes/route.js:463-465 | with real admission months, the month sums cover every record exactly once |
| Analytics.GroupingPreservesTotal | Server/Routes/route.js:488-499 | grouping by month loses no record: the buckets sum to the total |
| Analytics.TotalOfOne | Server/Routes/route.js:465 | summing 1 over the records counts them |
| Analytics.TotalOfFeesPaid | Server/Routes/route.js:495 | summing `feesPaid` over the records is the dashboard revenue |
| Analytics.CountIsTotalOfOne | Server/Routes/route.js:465 | a month's `$sum: 1` is the number of records admitted in it |
| Analytics.MonthName | Server/Routes/route.js:476 | `monthNames[m - 1]` is a three-letter name |
| Analytics.MonthNumber | Server/Routes/route.js:474 | the number a three-letter name stands for, and that month's name is that name |
| Analytics.MonthNameRoundTrip | Server/Routes/route.js:474-476 | month names are distinct: a month's name gives back its number |
| Analytics.MonthlyGrowth | Server/Routes/route.js:458-478 | one row per growth bucket, named `monthNames[m - 1]`, carrying the count |
| Analytics.MonthlyRevenue | Server/Routes/route.js:488-505 | one row per revenue bucket, named `monthNames[m - 1]`, carrying the revenue |
| Analytics.GrowthTotalIsBucketsTotal | Server/Routes/route.js:475-478 | the growth rows sum to their buckets' sum |
| Analytics.RevenueTotalIsBucketsTotal | Server/Routes/route.js:502-505 | the revenue rows sum to their buckets' sum |
| Analytics.GrowthSeries | Server/Routes/route.js:458-478 | growth rows are in calendar order; each counts the admissions of its month (> 0); the counts sum to the dashboard's totalStudents |
| Analytics.RevenueSeries | Server/Routes/route.js:488-505 | revenue rows are in calendar order, one per month with an admission; each sums its month's `feesPaid`; they sum to the dashboard's totalRevenue |
| Analytics.GrowthHasEveryMonth | Server/Routes/route.js:458-478 | every month in which the owner admitted someone has a growth row |
| Analytics.RevenueHasEveryMonth | Server/Routes/route.js:488-505 | every month in which the owner admitted someone has a revenue row |
| Ledger.MissingRequiredField | Server/Routes/route.js:402 | the 400 test: some text field is empty or the fee field is falsy ("" or 0, not the text "0") |
| Ledger.FeeValue | Server/Routes/route.js:413 | `Number(totalFees)`: a JSON number is itself; text gives a value iff its trimmed form is empty or an optional sign and an unsigned decimal |
| Ledger.RegisteredStudent | Server/Routes/route.js:409-417 | the new record carries the request's fields, the parsed fee and the owner, owes its whole fee, is fully paid iff the fee is 0, and passes validation iff its text fields are non-empty |
| Ledger.RegistrationStats | Server/Routes/route.js:409-417 | a registration adds one student and no revenue, and counts as fully paid iff its total is 0 |
| Ledger.NameMatches | Server/Routes/route.js:127 | the anchored case-insensitive regex: the stored name equals the trimmed requested name up to letter case |
| Ledger.MatchesPayment | Server/Routes/route.js:126-131 | the lookup's filter: name as above, same owner, standard and email |
| Ledger.FindFirst | Server/Routes/route.js:126-131 | the first index the filter selects; none iff it selects no element |
| Ledger.FindStudent | Server/Routes/route.js:126-135 | `findOne`: the first matching record, and none iff no record matches |
| Ledger.ReceiptNumber | Server/Routes/route.js:172 | `RCP-` followed by the decimal digits of the instant |
| Ledger.ReceiptNumberInjective | Server/Routes/route.js:172 | receipt numbers differ iff the instants they were taken at differ |
| Ledger.Summary | Server/Routes/route.js:371-379 | `updatedStudent`: the saved record's fields, the method used, and remaining + paid = total |
| Ledger.BuildReceipt | Server/Routes/route.js:172-231 | the receipt's number, student details and method, and a Student ID that is the record's `StudentIdOf`, eight characters long |
| Ledger.ReceiptAmountsReadBack | Server/Routes/route.js:223-231 | each amount printed on the receipt stands for the payment, the total, the paid-so-far and the unclamped balance |
| Ledger.PaymentStats | Server/Routes/route.js:138-141 | a payment keeps the student count, adds the amount to its owner's revenue, and moves the owner's fully-paid count by +1 if it brings the balance to zero and by -1 if the record was fully paid before; other owners' counters are unchanged |
| Ledger.SaveKeepsStored | Server/Routes/route.js:138-141 | saving a record that passes validation in place of one with the same id keeps every stored record valid |
| Ledger.FeeLedger.ListStudents | Server/Routes/route.js:388-392 | `GET /students` returns exactly the caller's records |
| Ledger.FeeLedger.RegisterStudent | Server/Routes/route.js:400-429 | 400 iff a field is falsy; 500 iff `FeeValue` reads no amount from `totalFees`; otherwise a fresh record is appended (paid 0, "Pending", owner, both dates now); nothing changes on failure |
| Ledger.FeeLedger.RecordPayment | Server/Routes/route.js:122-141 | 404 and no change on a lookup miss; 500 and no change for an empty method; else only the found record gets the payment; 200 with the receipt, or 500 if drawing fails |
| Auth.FindUser | Server/Routes/route.js:56-57 | `findOne` by email here and by username at line 80: the first account whose field is exactly the value, and none iff no account has it |
| Auth.Login | Server/Routes/route.js:80-100 | 500 iff the username is unknown; 401 iff its password differs; 403 iff it matches on an unverified account |
| Auth.LoginGrantsOnlyVerifiedMatch | Server/Routes/route.js:82-100 | a token iff the account the username finds is verified and its password matches; the token names it and carries its role |
| Auth.WrongPasswordRefused | Server/Routes/route.js:82-84 | a wrong password gets 401, verified or not |
| Auth.LinkedAccount | Server/Routes/route.js:54-56 | `findOne({ email })`: with an email, the first account that has it; for a token without one, the empty filter finds the first stored account, and none only when there is no account |
| Auth.VerifyOutcome | Server/Routes/route.js:52-70 | 400 iff the token does not check out; 404 iff the lookup finds no account; "now verified" iff the account it finds was unverified |
| Auth.TokenWithoutEmailVerifiesFirst | Server/Routes/route.js:54-66 | a token that checks out but carries no email, such as a login token, marks the first stored account verified |
| Auth.AfterVerify | Server/Routes/route.js:59-64 | only a newly verified account changes, and only its flag |
| Auth.VerifyOnlySetsFlag | Server/Routes/route.js:59-64 | no account loses its verified mark, and no other field changes |
| Auth.VerifyOnlyOnce | Server/Routes/route.js:59-66 | following a link again answers "already verified" and changes nothing |
| Auth.FindUserSameKeys | Server/Routes/route.js:56-57 | the lookup depends only on the looked-up field of each account |
| Auth.LoginAfterVerify | Server/Routes/route.js:56-100 | after its link is followed, an account logs in with its password and gets its claims and role |
| Auth.UserStore.VerifyEmail | Server/Routes/route.js:52-71 | `GET /verify-email` answers as VerifyOutcome and leaves the accounts as AfterVerify |
| StudentView.MatchesSearch | MyProject/src/components/Students/Student.jsx:88-90 | the lower-cased term occurs in the lower-cased name, email or standard |
| StudentView.FilterStudents | MyProject/src/components/Students/Student.jsx:87-91 | kept iff the term occurs in the lower-cased name, email or standard; a subsequence of the list; no longer than it |
| StudentView.EmptyTermShowsAll | MyProject/src/components/Students/Student.jsx:87-91 | an empty term shows every student, in order |
| StudentView.SearchIgnoresCase | MyProject/src/components/Students/Student.jsx:88-90 | terms that differ only in letter case show the same students |
| StudentView.UpperCaseTermShowsSame | MyProject/src/components/Students/Student.jsx:88-90 | typing the term in capitals shows the same students |
| StudentView.FilterIdempotent | MyProject/src/components/Students/Student.jsx:87-91 | filtering the shown list again by the same term shows the same list |
| StudentView.FormRequest | MyProject/src/components/Students/Student.jsx:64-70 | the form posts its four fields, the fee as text |
| StudentView.FormAfterSubmit | MyProject/src/components/Students/Student.jsx:73-79 | a 2xx answer clears the form to its initial four empty strings; any other answer keeps it |
| StudentView.ClearedFormIsRefused | MyProject/src/components/Students/Student.jsx:73-75 | the cleared form, submitted again, is refused by the server for missing fields |

## Left out

- Persistence: Mongoose `find`, `findOne`, `save` and `aggregate` are modelled
  as operations on in-memory sequences. Database failures other than schema
  validation are not modelled.
- The module-level `uid`: the owner is a parameter. The dashboards read
  `uid`, which `POST /students` and `POST /login` overwrite. The dashboard
  routes (`route.js:432`, `455`, `486`) check no token, so any caller sees
  the records of whichever owner `uid` holds. `POST /login`
  sets it at `route.js:81`, before the password check, so even a refused
  login changes whose records the dashboards show. The model does not
  capture this.
- Concurrent payments: `POST /fees` loads a record, adds with `+=` and saves
  it without isolation (`route.js:126-141`), so two payments at once can
  lose one update. The model runs each request on its own.
- Number representation: JavaScript numbers are doubles and amounts here are
  exact paise. Float rounding in sums and in `toFixed(2)` is not modelled.
- `parseFloat(amountPaid)` is taken as an amount already in paise. Its NaN
  result for non-numeric text is not modelled.
- Money.ParseAmount: does not read exponents, hexadecimal, `Infinity`, or
  more than two fraction digits, where `Number` gives a value. The client's
  number field can send such text: "1e3" is a valid whole number there.
- Ledger.FeeValue: reads no amount from text such as "1e3" or "0x10", for
  which `Number` gives 1000 or 16.
- Ledger.FeeLedger.RegisterStudent: for such a total the code saves the
  student and answers 201, where the model answers 500 and stores nothing.
- Text.ToLower: maps ASCII letters only. The regular expression's `i` flag and
  JavaScript's case mapping also fold other scripts.
- Payment lookup: the name is treated as literal text. The code builds a
  regular expression from it without escaping, so names with regex
  metacharacters can match differently. A name with an unbalanced `(` or
  `[` makes `new RegExp` throw at `route.js:127`, and the code answers 500
  where the model answers 404 or finds a record.
- A request without a `name` field makes `name.trim()` throw, which gives a
  500. Request fields are always strings here.
- Receipt rendering (pdfkit drawing, coordinates, images): only its text
  content is modelled, plus whether drawing fails.
- Mail (nodemailer transport and HTML bodies), including the registration
  and receipt mails. A mail failure after a payment leaves the request
  without an answer, which is not modelled.
- Tokens: `jwt.sign` and `jwt.verify`, their expiry, and `GET
  /validate-token`. A verification link is what checking its token
  yields: no payload (invalid or expired), a payload without an email, or
  an email.
- Auth.LinkedAccount: `findOne` with an empty filter returns whichever
  account the database returns first; the model takes the first stored one.
- `POST /register` (creating accounts) and the User schema
  (`Server/models/User.js`) are not part of this model. `UserStore` starts
  from a given list of accounts.
- Dates: a date carries its calendar month. Converting an epoch time to a
  UTC month, `Date.now()` and locale date formatting are left out.
- Client state: `fetch`, `localStorage`, alerts and the rendering of the
  list and the charts.
