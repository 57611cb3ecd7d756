# Cupom Fácil — a Dafny model of the coupon pages

Cupom Fácil is a React client over a hosted backend. Residents (*associados*)
reserve discount coupons that local merchants (*comércios*) publish. This project
models the decision logic of four pages and proves what that logic guarantees:

- the merchant dashboard (`src/pages/comerciante/Cupons.tsx`): the date checks and the
  generated code of a new coupon, the coupon insert and form reset, and loading the
  merchant's coupons, the reservations against them and the residents' names;
- the resident dashboard (`src/pages/associado/Cupons.tsx`): the coupons on offer, the
  resident's own reservations, reserving, removing, and when the remove button is shown;
- the sign-up page (`src/pages/Cadastro.tsx`): the initial tab, the password and category
  checks, CPF/CNPJ digit stripping, and the category → sign-up → profile-insert sequence;
- the login page (`src/pages/Login.tsx`): sending a user to the resident or the merchant
  dashboard, on mount and after signing in.

Layout, one module per file:

| file | module | contents |
|---|---|---|
| `wrappers.dfy` | `Wrappers` | `Option` |
| `seqs.dfy` | `Seqs` | the order-keeping `Filter` behind every query filter, and `Single`, the exactly-one reading of `.single()` |
| `text.dfy` | `Text` | string order (`<`, `<=`), digit stripping, `parseInt` of digit strings, ASCII upper case and `substring`, on strings of code points |
| `dates.dfy` | `Dates` | `YYYY-MM-DD` strings; string order agrees with calendar order |
| `backend.dfy` | `Backend` | table rows, the inner join of reservations with coupons, delete by id, and the `Store` class holding the tables |
| `routes.dfy` | `Routes` | the routes the pages navigate to |
| `merchant_coupons.dfy` | `MerchantCoupons` | the merchant dashboard, with the `MerchantDashboard` class |
| `resident_coupons.dfy` | `ResidentCoupons` | the resident dashboard, with the `ResidentDashboard` class |
| `registration.dfy` | `Registration` | the sign-up page, with the `RegistrationPage` class |
| `login.dfy` | `Login` | the login page, with the `LoginPage` class |

How the world outside the pages is represented:

- **Tables.** The hosted tables are the sequence fields of a `Backend.Store` object. The
  handlers insert into it and delete from it in place.
- **Remote failures.** A parameter `down: set<Step>` names the remote calls that fail in a
  run, whether from the network or a constraint the backend enforces.
- **Call trace.** Every handler returns `calls`, the backend requests it issued (queries,
  inserts, deletes, `signUp`, `signInWithPassword`), in order. This is how "rejected before
  any request" and "a failure skips every later step" are stated. The auth reads
  `getSession` and `getUser` are not requests in `calls`: their answers are parameters.
- **Auth provider.** The session, the signed-in user and the outcomes of `signUp` and
  `signInWithPassword` are parameters.
- **Clock and randomness.** Today's date, `Date.now().toString(36)` and
  `Math.random().toString(36)` are parameters too.
- **Navigation.** A handler returns its destination as a `Route` value.
- **Un-awaited reloads.** Where a handler starts a reload without awaiting it, it returns
  `reload`, which tells the caller to run the load method next.

Behaviour of the code worth knowing:

- A coupon's end date must be strictly after its start date (`dataTermino <= dataInicio`
  rejects it), not merely on or after it.
- The generated code is *at most* twelve characters. It is exactly twelve only when the
  upper-cased timestamp and the random suffix together have at least twelve characters
  (`CouponCodeShape`). `Math.random().toString(36)` can be short, so the suffix can have
  fewer than six characters.
- The remove button is gated on the truthiness of the redemption date. An empty string
  therefore counts as "not used", the same as null (`ActionFor`).
- Login sends every user without exactly one `associado` row to the merchant dashboard.
  That includes a failed lookup and a user with no profile at all (`DispatchIsResidentIff`).

## Model

| member | source | states |
|---|---|---|
| `Seqs.Filter` | src/pages/associado/Cupons.tsx:61 | the result holds exactly the elements of the input that pass the test, and each of them passes |
| `Seqs.FilterConcat` | src/pages/associado/Cupons.tsx:61 | filtering a concatenation filters each piece, so the filter keeps the original order |
| `Seqs.FilterIdempotent` | src/pages/Cadastro.tsx:54 | filtering twice with one test is filtering once |
| `Seqs.Single` | src/pages/comerciante/Cupons.tsx:45-51 | `.single()` answers with a matching row, and only when no other matching row differs from it; it answers nothing when no row matches |
| `Seqs.SingleOfOne` | src/pages/comerciante/Cupons.tsx:45-51 | when exactly one position matches, `.single()` answers with that row |
| `Seqs.SingleOfTwo` | src/pages/comerciante/Cupons.tsx:45-51 | when two positions match, `.single()` answers nothing, even if the two rows are equal |
| `Seqs.SingleIsExactlyOne` | src/pages/comerciante/Cupons.tsx:45-51 | `.single()` answers exactly when one position matches; no match and several matches both give nothing |
| `Text.LexLess` | src/pages/comerciante/Cupons.tsx:102 | string `<`: a proper prefix sorts before the longer string, and nothing sorts before the empty string |
| `Text.LexLessFirstDifference` | src/pages/comerciante/Cupons.tsx:102 | `a < b` exactly when `a` is a proper prefix of `b`, or `a` has the smaller character at the first position where they differ |
| `Text.LexLessIrreflexive` | src/pages/comerciante/Cupons.tsx:102 | no string is below itself |
| `Text.LexLessTransitive` | src/pages/comerciante/Cupons.tsx:102-106 | string `<` is transitive |
| `Text.LexLessTotal` | src/pages/comerciante/Cupons.tsx:102-106 | any two strings are equal or ordered one way or the other |
| `Text.LexLessAsymmetric` | src/pages/comerciante/Cupons.tsx:102-106 | string `<` never holds both ways |
| `Text.LexLessEq` | src/pages/comerciante/Cupons.tsx:106 | `a <= b`, evaluated as `!(b < a)`, holds exactly when `a < b` or the strings are equal |
| `Text.StripNonDigits` | src/pages/Cadastro.tsx:54 | `replace(/\D/g, "")` leaves only digits and never lengthens the string |
| `Text.StripNonDigitsSpec` | src/pages/Cadastro.tsx:127 | a digit string is kept whole, a non-digit character vanishes, and the pieces of a concatenation strip separately, so the digits keep their order |
| `Text.StripNonDigitsIdempotent` | src/pages/Cadastro.tsx:54 | stripping twice gives the same result as stripping once |
| `Text.DigitsValue` | src/pages/Cadastro.tsx:54 | the number a digit string spells is below 10 to the power of its length |
| `Text.DigitsOrder` | src/pages/comerciante/Cupons.tsx:102 | on digit strings of one length, string `<` is numeric `<` |
| `Text.LexLessConcat` | src/pages/comerciante/Cupons.tsx:102 | string `<` on two concatenations whose first parts have one length compares the first parts, then the rest |
| `Text.Upper` | src/pages/comerciante/Cupons.tsx:113-114 | `toUpperCase` keeps the length and upper-cases each character |
| `Text.Substring` | src/pages/comerciante/Cupons.tsx:114-115 | `substring` clamps both ends to the string and swaps them when the start is past the end; ends at or past the string give the empty string |
| `Dates.DateLexFields` | src/pages/comerciante/Cupons.tsx:102-106 | on `YYYY-MM-DD` strings, `<` compares the year digits, then the month digits, then the day digits |
| `Dates.LexOrderIsCalendarOrder` | src/pages/comerciante/Cupons.tsx:102-106 | on well-formed dates, string `<` holds exactly when the first day is earlier on the calendar, and equality means neither day is earlier |
| `Dates.LexAtMostIsCalendarAtMost` | src/pages/comerciante/Cupons.tsx:106 | on well-formed dates, string `<=` holds exactly when the first day is not later on the calendar |
| `Backend.ResidentOfUser` | src/pages/Login.tsx:54-58 | the `associado` row of a user exists exactly when one row carries the user's id, and then it is that row |
| `Backend.LookupResident` | src/pages/associado/Cupons.tsx:39-44 | the resident lookup answers exactly when the query does not fail and one row carries the user's id; the answer is a row with that id |
| `Backend.MerchantOfUser` | src/pages/comerciante/Cupons.tsx:45-51 | the `comercio` row of a user exists exactly when one row carries the user's id, and then it is that row |
| `Backend.LookupMerchant` | src/pages/comerciante/Cupons.tsx:45-51 | the merchant lookup answers exactly when the query does not fail and one row carries the user's id; the answer is a row with that id |
| `Backend.CouponByCode` | src/pages/associado/Cupons.tsx:57 | the embedded coupon is absent exactly when no coupon has the reservation's code; when present it is a coupon with that code |
| `Backend.EmbedCoupons` | src/pages/associado/Cupons.tsx:57 | the left join keeps every reservation at its position; its coupon is missing exactly when no coupon has its code |
| `Backend.WithCoupons` | src/pages/comerciante/Cupons.tsx:64-67 | the inner join lists only reservations of the input, each with an existing coupon of its own code |
| `Backend.WithCouponsKeeps` | src/pages/associado/Cupons.tsx:61 | a reservation whose coupon exists is listed by the join |
| `Backend.WithCouponsIsFilter` | src/pages/associado/Cupons.tsx:61 | the join lists exactly the reservations whose coupon exists, in their original order |
| `Backend.DeleteById` | src/pages/associado/Cupons.tsx:101 | the delete leaves exactly the rows whose id differs from the given one |
| `Backend.ReserveThenRemove` | src/pages/associado/Cupons.tsx:83-101 | deleting by the id a reservation insert just handed out restores the table |
| `Backend.DeleteAbsentId` | src/pages/associado/Cupons.tsx:101 | deleting an id that no row carries changes nothing |
| `Backend.Store.constructor` | src/integrations/supabase/types.ts:171-190 | a backend starts with empty tables apart from the given categories, and the reservation id, which an insert may leave out, is handed out from 1 |
| `Backend.Store.AddIdentity` | src/pages/Cadastro.tsx:37-46 | an accepted sign-up adds the new auth user |
| `Backend.Store.InsertResident` | src/pages/Cadastro.tsx:49-66 | the `associado` insert appends the row exactly when it does not fail |
| `Backend.Store.InsertMerchant` | src/pages/Cadastro.tsx:121-139 | the `comercio` insert appends the row exactly when it does not fail |
| `Backend.Store.InsertCoupon` | src/pages/comerciante/Cupons.tsx:117-129 | the `cupom` insert appends the row exactly when it does not fail |
| `Backend.Store.InsertReservation` | src/pages/associado/Cupons.tsx:83-90 | a successful insert appends one row with a fresh id, the given code, CPF and date, and no redemption date |
| `Backend.Store.DeleteReservation` | src/pages/associado/Cupons.tsx:101 | a successful delete removes exactly the rows with the given id; a failed one changes nothing |
| `Routes.SessionGate` | src/pages/associado/Cupons.tsx:19-28 | a dashboard sends the visitor to `/login` exactly when there is no session |
| `MerchantCoupons.CheckDates` | src/pages/comerciante/Cupons.tsx:101-109 | a start before today is reported first, whatever the end date; otherwise an end not after the start is reported; the window is accepted exactly when today <= start < end |
| `MerchantCoupons.AcceptedWindow` | src/pages/comerciante/Cupons.tsx:106-109 | an accepted window starts today or later and ends after both its start and today |
| `MerchantCoupons.CheckDatesCalendar` | src/pages/comerciante/Cupons.tsx:101-109 | on well-formed dates, the checks reject a start earlier than today on the calendar and accept exactly when the start is not before today and before the end |
| `MerchantCoupons.RandomSuffix` | src/pages/comerciante/Cupons.tsx:114 | the random suffix has at most six characters, and exactly six when the base-36 string has at least eight |
| `MerchantCoupons.CouponCode` | src/pages/comerciante/Cupons.tsx:115 | the code has at most twelve characters |
| `MerchantCoupons.CouponCodePrefix` | src/pages/comerciante/Cupons.tsx:115 | the code is the first min(12, length) characters of the upper-cased timestamp followed by the suffix |
| `MerchantCoupons.CouponCodeShape` | src/pages/comerciante/Cupons.tsx:113-115 | the code is the first min(12, timestamp + suffix length) characters of upper-cased timestamp ++ suffix, so it starts with the whole timestamp when that has at most twelve characters |
| `MerchantCoupons.CouponCodeAlphabet` | src/pages/comerciante/Cupons.tsx:113-115 | base-36 inputs give a code made only of digits and upper-case letters |
| `MerchantCoupons.CouponsOf` | src/pages/comerciante/Cupons.tsx:55-58 | the merchant's coupons are exactly the coupons carrying its CNPJ |
| `MerchantCoupons.BookingsFor` | src/pages/comerciante/Cupons.tsx:64-67 | every listed reservation has one of the given codes and an existing coupon with that code |
| `MerchantCoupons.BookingsKeepEveryReservation` | src/pages/comerciante/Cupons.tsx:64-67 | every reservation of one of the merchant's coupons is listed |
| `MerchantCoupons.CpfsOf` | src/pages/comerciante/Cupons.tsx:73 | one CPF per listed reservation, in order: the CPF of its resident |
| `MerchantCoupons.NamesFor` | src/pages/comerciante/Cupons.tsx:74-77 | the name rows are exactly the (CPF, name) pairs of residents whose CPF was asked for |
| `MerchantCoupons.FindResident` | src/pages/comerciante/Cupons.tsx:82 | `find` returns the first name row with the CPF, and nothing exactly when no row has it |
| `MerchantCoupons.JoinNames` | src/pages/comerciante/Cupons.tsx:80-84 | the join keeps the reservations' length and order; an entry has no resident exactly when the names query gave no data or no row has its CPF; otherwise the resident is the first name row with its CPF, as `find` returns |
| `MerchantCoupons.ClientLabel` | src/pages/comerciante/Cupons.tsx:271 | a card shows the resident's name, or "N/A" when there is no resident or the name is empty |
| `MerchantCoupons.ReservedList` | src/pages/comerciante/Cupons.tsx:72-87 | the stored list has one entry per reservation, and none when there are no reservations |
| `MerchantCoupons.ReservedListShowsName` | src/pages/comerciante/Cupons.tsx:72-87 | with CPF as the key, each card shows the name of the resident who reserved; if the names query fails, every card shows "N/A" |
| `MerchantCoupons.MerchantDashboard.constructor` | src/pages/comerciante/Cupons.tsx:15-25 | the page mounts loading, with empty lists, a closed dialog and an empty form |
| `MerchantCoupons.MerchantDashboard.LoadData` | src/pages/comerciante/Cupons.tsx:39-93 | merchant lookup, coupons, reservations, names: each step runs only after the previous one succeeded, and each sets its state; the names query runs only when there are reservations; `loading` ends false |
| `MerchantCoupons.MerchantDashboard.CreateCoupon` | src/pages/comerciante/Cupons.tsx:95-141 | no merchant or a rejected window: no call and no change; otherwise one insert of the generated code with today's issue date, the merchant's CNPJ and the form's fields, then on success the dialog closes and the form clears; any inserted coupon satisfies today <= start < end |
| `ResidentCoupons.AvailableCoupons` | src/pages/associado/Cupons.tsx:47-50 | a coupon is on offer exactly when its end-date string compares at or after today's (calendar order by `AvailableMeansNotExpired`); its start date plays no part, so a coupon that has not started yet is listed |
| `ResidentCoupons.AvailableMeansNotExpired` | src/pages/associado/Cupons.tsx:50 | on well-formed dates, a coupon is on offer exactly when its last day has not passed on the calendar |
| `ResidentCoupons.AvailableShrinks` | src/pages/associado/Cupons.tsx:50 | a coupon on offer on a later day was on offer on every earlier day |
| `ResidentCoupons.MyReservations` | src/pages/associado/Cupons.tsx:54-61 | every listed reservation is the resident's own and has an existing coupon with its code |
| `ResidentCoupons.MyReservationsComplete` | src/pages/associado/Cupons.tsx:57-61 | every reservation of the resident whose coupon exists is listed |
| `ResidentCoupons.ActionFor` | src/pages/associado/Cupons.tsx:179-184 | the remove button is offered exactly when the redemption date is null or empty; otherwise a "used on" badge shows that date |
| `ResidentCoupons.FreshReservationIsRemovable` | src/pages/associado/Cupons.tsx:83-101 | a reservation just made is listed on the resident's page with its remove button, and removing it by its id restores the table |
| `ResidentCoupons.ResidentDashboard.constructor` | src/pages/associado/Cupons.tsx:11-14 | the page mounts loading, with empty lists and no name |
| `ResidentCoupons.ResidentDashboard.LoadCoupons` | src/pages/associado/Cupons.tsx:29-67 | a failed resident lookup, coupon query or reservation query skips every later step; the name is set after the lookup; both lists are replaced only after both queries succeed; `loading` ends false |
| `ResidentCoupons.ResidentDashboard.Reserve` | src/pages/associado/Cupons.tsx:68-96 | without a user or a resident row nothing is inserted; otherwise exactly one row is inserted: the code, the resident's CPF, today and no redemption date; no window or duplicate check runs first |
| `ResidentCoupons.ResidentDashboard.Remove` | src/pages/associado/Cupons.tsx:97-108 | one delete call removes exactly the rows with the id; nothing else changes |
| `Registration.InitialTab` | src/pages/Cadastro.tsx:16 | the merchant tab opens first exactly when `tipo` is "comerciante" |
| `Registration.ParseTaxId` | src/pages/Cadastro.tsx:54 | `parseInt` of the stripped CPF/CNPJ is NaN (`None`) exactly when the input has no digit |
| `Registration.ParseTaxIdIgnoresMask` | src/pages/Cadastro.tsx:127 | a mask character between digit groups does not change the parsed number |
| `Registration.ParseTaxIdOfDigits` | src/pages/Cadastro.tsx:54 | any input, masked with any separators anywhere, parses to what its digits alone parse to |
| `Registration.StripMask` | src/pages/Cadastro.tsx:127 | stripping a masked digit string leaves the digit groups joined |
| `Registration.ResidentRow` | src/pages/Cadastro.tsx:51-64 | the inserted `associado` row is keyed by the parsed CPF, linked to the new auth user, and carries the form's name, e-mail and password |
| `Registration.MerchantRow` | src/pages/Cadastro.tsx:123-137 | the inserted `comercio` row is keyed by the parsed CNPJ, in the looked-up category, linked to the new auth user, and carries the form's trade name, e-mail and password |
| `Registration.CategoryIdFor` | src/pages/Cadastro.tsx:100-106 | an id is found exactly when the query does not fail and exactly one category carries the chosen name, so no row and duplicate names both give none; the id is that category's |
| `Registration.CategoryIdOfSeeded` | src/pages/Cadastro.tsx:100-106 | with one row per category name, the lookup answers that row's id |
| `Registration.RegistrationPage.constructor` | src/pages/Cadastro.tsx:17-18 | the page mounts not loading and with no category |
| `Registration.RegistrationPage.SelectCategory` | src/pages/Cadastro.tsx:259 | the select sets the chosen category |
| `Registration.RegistrationPage.InsertResidentRow` | src/pages/Cadastro.tsx:49-66 | the profile is inserted exactly when the CPF has a digit and the insert does not fail |
| `Registration.RegistrationPage.InsertMerchantRow` | src/pages/Cadastro.tsx:121-139 | the profile is inserted exactly when the CNPJ has a digit and the insert does not fail |
| `Registration.RegistrationPage.SubmitResident` | src/pages/Cadastro.tsx:20-75 | a password mismatch stops before any remote call; sign-up then insert, each only after the previous step succeeded; the row carries the new user's id and the sign-up e-mail; a failed insert leaves the auth user in place; `loading` goes true, then false on every path |
| `Registration.RegistrationPage.SubmitMerchant` | src/pages/Cadastro.tsx:77-148 | a password mismatch or a missing category stops before any remote call; then category lookup, sign-up, insert, each only after the previous step succeeded; nothing done is undone; `loading` goes true, then false |
| `Login.Dispatch` | src/pages/Login.tsx:30-34 | the resident dashboard exactly when a resident row was found, the merchant dashboard otherwise |
| `Login.DispatchIsResidentIff` | src/pages/Login.tsx:54-66 | a user reaches the resident dashboard exactly when the lookup succeeds and exactly one `associado` row carries its id |
| `Login.SignUpThenDispatch` | src/pages/Login.tsx:62-66 | after a resident sign-up, the new user logs in to the resident dashboard; a user with no resident row goes to the merchant dashboard |
| `Login.LoginPage.constructor` | src/pages/Login.tsx:14 | the page mounts not loading |
| `Login.LoginPage.CheckSession` | src/pages/Login.tsx:20-36 | with no session, no call and no navigation; otherwise one lookup and the same dispatch as after login |
| `Login.LoginPage.HandleLogin` | src/pages/Login.tsx:40-73 | a sign-in error or a missing user stops before the lookup and navigates nowhere; otherwise one lookup and the dispatch; `loading` goes true, then false |

## Left out

- Toasts, JSX rendering and styling, and the displayed date formats (`toLocaleDateString`).
- The side effect of `navigate`: a handler returns the route instead.
- The time zone of `new Date().toISOString()`: today is given as a `YYYY-MM-DD` string.
- `Date.now` and `Math.random`: their base-36 renderings are inputs.
- The discount percentage is kept as the form's text. `parseFloat` and floating point are not modelled.
- `parseInt` of very long digit strings: the model's numbers are exact, while JavaScript loses precision beyond 2^53.
- `ParseTaxId`: a CPF or CNPJ without digits parses to NaN. The model takes it that the insert of that row is refused, because the key column cannot hold it; the auth user already exists at that point.
- The HTML constraints the browser enforces before a handler runs: `required`, `minLength`
  and `maxLength`; `min="1"` and `max="100"` on the percentage
  (src/pages/comerciante/Cupons.tsx:197-198); and `min` on both date inputs (210, 221), which
  is today, or the start date for the end date, as of the last render. The model runs
  `criarCupom` on any form values, so it reaches `StartBeforeToday` and `EndNotAfterStart`
  also where the browser would have refused the form first. In the page that happens mostly
  when the date changes while the page stays open.
- The text inputs' `onChange` setters on the merchant dialog, and the login page's e-mail and
  password state: the credentials only reach `signInWithPassword`, whose answer is a parameter.
- `getSession` and `getUser`: their answers are parameters, and they are not counted in `calls`.
  A handler whose `calls` is empty may still have read the session or the user.
- Strings are sequences of Unicode code points, while JavaScript's `<`, `substring` and
  `length` work on UTF-16 code units. The two agree on text within the Basic Multilingual
  Plane, which covers the dates, codes and CPF/CNPJ digits these functions see.
- Row order of query answers: the source asks for no `.order()`, so the order is left
  to the backend. The model answers in the order the rows sit in the table, so "in their
  original order" in `Backend.WithCouponsIsFilter` speaks of that order.
- `handleLogout` and `checkAuth`'s navigation side effect on both dashboards. `Routes.SessionGate` states the decision.
- Asynchronous interleavings, such as a double click on reserve or `checkAuth` racing the load. Handlers run one at a time, and an un-awaited reload runs after the handler that started it.
- The merchant row embedded in coupon queries (`comercio(*)`) is not modelled: it only feeds the displayed trade name.
- The backend's own constraints: unique coupon codes, one reservation per coupon row, and foreign keys. A failure they cause appears as a failed step in `down`.
- Row-level read rules. The schema declares the database functions `cupom_pertence_ao_comercio`,
  `is_associado`, `is_comerciante` and `pode_ver_cupom` (src/integrations/supabase/types.ts:214-224),
  and no page calls them. They most likely back row-level read policies. Such a policy drops rows
  silently. The model gives every page read access to every row, and models no row-level rule.
  These members hold only under that assumption:
  - `Backend.EmbedCoupons`: the coupon could be missing because it is hidden, not absent.
  - `ResidentCoupons.MyReservationsComplete`: a hidden reservation or coupon would not be listed.
  - `MerchantCoupons.BookingsKeepEveryReservation`: likewise.
  - `MerchantCoupons.ReservedListShowsName`: a merchant barred from `associado` rows would read "N/A" on every card.
- `Text.Upper` covers ASCII letters only. Base-36 text needs no more.
- `Backend.CouponByCode`: when several coupons share a code, the first one is embedded. The backend's unique code makes this moot.
