# Nexoffer offer and subscription core, in Dafny

This project models the core of Nexoffer, a multi-tenant offer (quotation)
management service. Companies keep customers and a product catalogue, write
priced offers, send them, and follow their status. Every company is on a
subscription plan (Free, Pro or Enterprise):

- A Free company may create three offers and have two users.
- A lapsed subscription switches the company off.
- A payment renews the subscription for one month.

The model has two halves.

**The C# API's domain services**, as imperative Dafny over one `Db` object
(module `Database`). The object holds one map per table, keyed by row id, and
one counter per identity column. Each service call that saves changes is a
method that reassigns those maps. The services modelled are:

- OfferService: create, update, delete and send offers, under the
  subscription rules.
- OfferNumbering: `TKF-yyyyMM-NNN` offer numbers.
- OfferQueries: company- and user-scoped listings, newest first, paged.
- CompanyService: profile edits, plan upgrades, payments and payment
  history.
- UserService: accounts, duplicate e-mail checks and the seat limit.
- ProductService: a catalogue whose names are non-blank and unique within
  each company.
- CustomerService: a company-scoped customer book.
- AdminDashboard: counts and revenue windows across all tenants.

**The TypeScript client's state and list logic.** The zustand stores become
classes whose methods reassign their fields: `OfferStore`, `UserStore`,
`ProductStore` and `CustomerStore`. A request's outcome is a parameter of
each action, as a `Reply`. What the action hands back or throws is an
`Outcome`. The error text follows the stores' own `||` chains (module
`ClientModel`). The other client parts modelled are:

- the new-offer line editor (`OfferEditor.ItemEditor`);
- the offer list's search, status filter, badge colours and WhatsApp link
  (`OfferListPage`);
- the sidebar's links and active-entry rule (`Sidebar`);
- the autocomplete input (`Autocomplete`).

The model makes these representation choices:

- Money (C# `decimal`, JS `number`) is an exact integer amount.
- Dates are proleptic Gregorian `DateTime` values with whole seconds (module
  `Calendar`). The dashboard compares them as day numbers.
- Clocks, generated GUIDs, the e-mail service's answer and the identity
  store's verdicts are parameters.

Where the system's documented behaviour and its code disagree, the model
follows the code:

- `UpdateOfferAsync` looks the offer up by id alone. It updates an offer
  whoever owns it; it does not refuse other tenants' offers.
- The listing queries run no expiry sweep. Offers past their due date keep
  their status.
- The server has no accept, reject, cancel or "viewed" transition. Only the
  client store's status updates are modelled.

## Model

| member | source | states |
|---|---|---|
| OfferModel.StatusCode | api/Models/Offer.cs:84-93 | each of the seven statuses is stored as a code in 0..6 |
| OfferModel.StatusFromCode | api/Models/Offer.cs:84-93 | a stored code names a status exactly when it is in 0..6 |
| OfferModel.StatusCodesRoundTrip | api/Models/Offer.cs:84-93 | statuses and codes 0..6 correspond one to one, both ways round |
| OfferModel.NewOfferItem | api/Models/Offer.cs:60-68 | a new line has quantity 1, discount 0 and VAT 0 |
| OfferModel.NewOffer | api/Models/Offer.cs:24-40 | a new offer is a Draft in TRY with no items, no due date, the generated token and no token expiry; its dates are the creation moment |
| OfferModel.ItemTotal | api/Services/OfferService.cs:76 | what a line adds to the offer total: quantity × unit price on a priced line |
| OfferModel.TotalOf | api/Services/OfferService.cs:76 | `Items.Sum(i => i.TotalPrice)` is 0 for no lines and never negative when no line total is |
| OfferModel.TotalOfAppend | api/Services/OfferService.cs:76 | adding a line adds its total to the offer total |
| CompanyModel.NewCompany | api/Models/Company.cs:29-40 | a new company is on Free with 0 offers used, is active, starts its subscription now and has no end date |
| CompanyModel.SubscriptionExpired | api/Services/OfferService.cs:35 | no end date never lapses, and the strict `<` means a subscription ending at this very moment still runs |
| CompanyModel.ExpiryNeedsPastEndDate | api/Services/OfferService.cs:35 | a company with no end date, or one not yet past, never counts as expired |
| Calendar.AddMonths | api/Services/CompanyService.cs:120 | `AddMonths` lands n months on, keeps the time of day and clamps the day to the target month |
| Calendar.OneMonthLater | api/Services/CompanyService.cs:119-120 | one month on is strictly later, whatever the clamping does |
| Calendar.DayNumber | api/Services/AdminService.cs:39 | `.Date` as a day count from 0001-01-01, which is day 0; no date has a negative day number |
| Calendar.YearStart | api/Services/AdminService.cs:39 | a year starts on a non-negative day number |
| Calendar.YearStep | api/Services/AdminService.cs:39 | the next year starts 366 days on after a leap year and 365 after any other |
| Calendar.YearsAscend | api/Services/AdminService.cs:39 | every day of a year comes before the start of any later year |
| Calendar.MonthsAscend | api/Services/AdminService.cs:39 | every day of a month comes before the start of any later month of that year |
| Calendar.MonthsFitYear | api/Services/AdminService.cs:39 | the months of a year fit within its length |
| Calendar.EarlierDateSmallerNumber | api/Services/AdminService.cs:39-46 | an earlier calendar date has a strictly smaller day number |
| Calendar.DayNumberOrdersDates | api/Services/AdminService.cs:39-46 | day numbers follow the calendar: earlier date ⇔ smaller number, same date ⇔ equal number, and a later moment never has a smaller number |
| Calendar.DayOfWeek | api/Services/AdminService.cs:40 | a weekday 0..6 with 0 = Sunday: stepping back that many days lands on a Sunday |
| Calendar.StartOfWeek | api/Services/AdminService.cs:40 | the week window opens on the Sunday on or before today, at most six days back |
| Calendar.StartOfMonth | api/Services/AdminService.cs:41 | the month window opens on the first of today's month: today's day number less (day − 1), at most 30 days back |
| OfferNumbering.PadDigits | api/Services/OfferService.cs:211 | `D3` formatting yields digits only, at least three of them |
| OfferNumbering.ParseDigits | api/Services/OfferService.cs:208 | the value of a digit string; a string of zeros reads as 0, so leading zeros do not matter |
| OfferNumbering.TryParseNumber | api/Services/OfferService.cs:208 | the suffix parses exactly when it is a non-empty digit string |
| OfferNumbering.Split | api/Services/OfferService.cs:207 | `Split('-')` always yields at least one part |
| OfferNumbering.SplitCount | api/Services/OfferService.cs:207 | k dashes give k + 1 parts, none of which contains a dash |
| OfferNumbering.YearMonth | api/Services/OfferService.cs:211 | `yyyyMM` is a digit string of at least six digits |
| OfferNumbering.Format | api/Services/OfferService.cs:204-211 | `TKF-<month>-<D3>` splits back into prefix, month and a numeral that parses to the sequence value |
| OfferNumbering.NextSequence | api/Services/OfferService.cs:200-215 | the next sequence value is always at least 1 |
| OfferNumbering.GenerateOfferNumber | api/Services/OfferService.cs:200-215 | every generated number starts with `TKF-` and the current local `yyyyMM` |
| OfferNumbering.GenerateFormatsNextSequence | api/Services/OfferService.cs:200-215 | the number is the current month with the previous suffix plus one, or with 1 |
| OfferNumbering.FirstNumberOfMonth | api/Services/OfferService.cs:202-205 | a null or empty previous number gives `TKF-<yyyyMM>-001` |
| OfferNumbering.NextNumberIgnoresPrefixAndMonth | api/Services/OfferService.cs:207-212 | with three parts and a numeric third, the result is that number plus one in the current month; the old prefix and month are ignored |
| OfferNumbering.UnreadablePreviousRestarts | api/Services/OfferService.cs:214 | a wrong part count or a non-numeric suffix restarts at 001 |
| OfferNumbering.PadRoundTrip | api/Services/OfferService.cs:208-211 | a zero-padded number parses back to itself |
| OfferNumbering.DecimalRoundTrip | api/Services/OfferService.cs:208-211 | decimal text parses back to its value |
| OfferNumbering.GeneratedNumberParses | api/Services/OfferService.cs:207-211 | a generated number splits into prefix, month and a suffix that parses to its sequence value |
| OfferNumbering.NumberingContinues | api/Services/OfferService.cs:200-215 | feeding a generated number back in, in any month, yields the next sequence value |
| OfferNumbering.SplitThree | api/Services/OfferService.cs:207 | three dash-free parts joined with dashes split back into themselves |
| OfferQueries.GetOfferById | api/Services/OfferService.cs:94-104 | an offer is found exactly when the id exists and belongs to the company, and then it is the stored row |
| OfferQueries.LatestOfferOf | api/Services/OfferService.cs:47-50 | the company's offer with the highest id, or none exactly when the company has no offer |
| OfferQueries.Wrap32 | api/Services/OfferService.cs:113 | C# `int` arithmetic: a 32-bit value that differs from the exact one by a multiple of 2^32 |
| OfferQueries.PageOffset | api/Services/OfferService.cs:113 | `(page - 1) * pageSize` in C# `int`: a 32-bit value, equal to the exact product when that fits |
| OfferQueries.Skip | api/Services/OfferService.cs:113 | LINQ `Skip(n)`: the entries after the first n, none when n reaches the length |
| OfferQueries.Take | api/Services/OfferService.cs:114 | LINQ `Take(n)`: the first min(n, length) entries |
| OfferQueries.Page | api/Services/OfferService.cs:113-114 | the query fails exactly when the page size is below one or the wrapped offset is negative; a served page holds at most `pageSize` offers |
| OfferQueries.PageIsSlice | api/Services/OfferService.cs:113-114 | the query fails exactly when the page size is below one or the offset `(page - 1) * pageSize`, as C# computes it, is negative; a served page is a consecutive run of at most `pageSize` rows |
| OfferQueries.PageCases | api/Services/OfferService.cs:113-114 | without overflow: page 1 and later pages start `(page - 1) * pageSize` rows in, any earlier page fails, and a size below one fails |
| OfferQueries.WrappedOffsetRepeatsFirstPage | api/Services/OfferService.cs:113 | page 2^30 + 1 of four rows wraps its offset to 0 and is served as the first page |
| OfferQueries.PageOfListing | api/Services/OfferService.cs:112-114 | a served page of a newest-first listing is newest first, at most `pageSize` long and holds only listed offers; page 1 with room for every offer is the whole listing |
| OfferQueries.RunOfListing | api/Services/OfferService.cs:112-114 | a run of a newest-first listing is newest first and holds only listed offers |
| OfferQueries.ListNewestFirst | api/Services/OfferService.cs:106-132 | one page of a newest-first listing of exactly the selected offers, or a failed query exactly when the size is below one or the offset is negative; a served page is newest first, at most `pageSize` long, holds only selected offers, and page 1 with room for all holds all of them |
| OfferQueries.SortedListing | api/Services/OfferService.cs:112 | sorting the selected rows gives a newest-first listing of them, with no row twice when the selection had none |
| Database.PermutationKeepsDistinct | api/Services/OfferService.cs:112 | reordering a listing keeps it free of repeated rows |
| OfferQueries.GetOffersByCompany | api/Services/OfferService.cs:120-132 | one page of the company's offers, newest first, or a failed query exactly when the size is below one or the offset is negative; a served page holds only the company's offers |
| OfferQueries.GetOffersByUser | api/Services/OfferService.cs:106-118 | one page of the user's offers, newest first, or a failed query exactly when the size is below one or the offset is negative; a served page holds only the user's offers |
| Ordering.InsertLatestFirst | api/Services/OfferService.cs:112 | insertion adds exactly the one row |
| Ordering.SortLatestFirst | api/Services/CompanyService.cs:161 | the sort is a permutation of its input |
| Ordering.SortIsLatestFirst | api/Services/CompanyService.cs:161 | the sort puts later dates first |
| Ordering.InsertKeepsOrder | api/Services/OfferService.cs:112 | inserting into a newest-first list keeps it newest first |
| Ordering.SortKeepsRows | api/Services/OfferService.cs:112 | the sort keeps every row, adds none and keeps the length |
| Database.SelectWhere | api/Services/ProductService.cs:19-21 | `Where(...).ToList` returns each passing row and nothing else, as many rows as passing keys, and no row twice when no two keys hold the same row |
| Database.FindHighestWhere | api/Services/OfferService.cs:47-50 | `OrderByDescending(...).FirstOrDefault` finds a passing row ranked highest, or none exactly when none passes |
| Database.HighestWhere | api/Services/OfferService.cs:47-50 | the specification of that search: a highest-ranked passing key, or none exactly when none passes |
| Database.SaveCompany | api/Services/OfferService.cs:37-38 | writing a company back replaces only its own row |
| OfferService.PriceItem | api/Services/OfferService.cs:67-73 | a priced line keeps the requested fields, totals quantity × unit price and has no discount or VAT |
| OfferService.PriceItems | api/Services/OfferService.cs:67-73 | one priced line per requested line, in order |
| OfferService.PricedTotal | api/Services/OfferService.cs:76 | the offer total is the sum of quantity × unit price over the requested lines |
| OfferService.ApplyRequest | api/Services/OfferService.cs:143-163 | the customer fields, dates, currency and notes come from the request; all lines are replaced and priced; the total is recomputed; id, number, status, token, owner and company stay |
| OfferService.CompanyOf | api/Services/OfferService.cs:23-27 | the caller's company, present exactly when the user exists and has one |
| OfferService.RefusalMessage | api/Services/OfferService.cs:23-45 | each refusal carries its non-empty message |
| OfferService.RefusalMessagesDistinct | api/Services/OfferService.cs:23-45 | the four refusal messages are pairwise different |
| OfferService.AtFreeLimit | api/Services/OfferService.cs:42 | a Free company not at the cap has room for one more offer; a paid plan is never capped |
| OfferService.Admit | api/Services/OfferService.cs:23-45 | the refusals in order: invalid user, missing company, lapsed subscription, then the Free cap; admitted exactly when none applies |
| OfferService.BuildOffer | api/Services/OfferService.cs:47-76 | the new offer is a priced Draft with the next id, owned by the caller, numbered after the company's latest offer |
| OfferService.CreateOffer | api/Services/OfferService.cs:21-92 | a refusal adds no offer and leaves the counter; a lapsed one only deactivates the company; success stores the built offer and adds exactly 1 to `OffersUsed`; all offers stay priced and Free companies stay within the cap |
| OfferService.Deactivate | api/Services/OfferService.cs:35-40 | a lapsed company's only change is `IsActive = false` |
| OfferService.AddOffer | api/Services/OfferService.cs:47-82 | the admitted path: the new row under a fresh id, and the company's counter plus one |
| OfferService.InsertOffer | api/Services/OfferService.cs:78 | the row takes the next identity value, unused before |
| OfferService.UpdateOffer | api/Services/OfferService.cs:134-167 | an unknown id returns null and changes nothing; otherwise only that offer changes, to the request applied |
| OfferService.DeleteOffer | api/Services/OfferService.cs:169-179 | an offer is removed exactly when it exists and belongs to the user; nothing else changes |
| OfferService.SendOffer | api/Services/OfferService.cs:181-198 | the result is true exactly when the offer is the user's and the e-mail went out; only then does its status become Sent |
| OfferService.FreePlanCapIsFinal | api/Services/OfferService.cs:35-45 | a Free company at 3 offers used is always refused; if not lapsed, with the cap message |
| OfferService.AdmissionStaysWithinLimit | api/Services/OfferService.cs:42-45 | an admitted Free company has used at most two offers, so it stays within three |
| CompanyService.ApplyProfile | api/Services/CompanyService.cs:43-49 | exactly the seven profile fields are overwritten; plan, counter, dates, activity and logo stay |
| CompanyService.Renew | api/Services/CompanyService.cs:119-121 | start = paid moment, end = one month later, active again; nothing else changes |
| CompanyService.RenewalRunsOneMonth | api/Services/CompanyService.cs:119-120 | a renewed subscription ends after it starts and is not expired at any moment up to its end |
| CompanyService.UpdateCompany | api/Services/CompanyService.cs:38-53 | an unknown id returns null and changes nothing; otherwise only that company's profile changes |
| CompanyService.AddPayment | api/Services/CompanyService.cs:109-116 | exactly one new payment, under a fresh id, dated now |
| CompanyService.UpgradePlan | api/Services/CompanyService.cs:104-126 | an unknown company gets null and no payment; otherwise one payment, the requested plan and a renewed, active subscription |
| CompanyService.RecordPayment | api/Services/CompanyService.cs:128-155 | the same payment and renewal as an upgrade, with the plan unchanged |
| CompanyService.GetPaymentHistory | api/Services/CompanyService.cs:157-171 | exactly the company's payments, latest first |
| UserService.NewUser | api/Services/UserService.cs:60-72 | a new account has user name = e-mail, the company and the "User" role |
| UserService.ApplyUserUpdate | api/Services/UserService.cs:91-94 | names and e-mail are set and the user name follows the e-mail; nothing else changes |
| UserService.EmailTaken | api/Services/UserService.cs:41-42 | an account with exactly that e-mail makes it taken, and a taken e-mail matches some account case aside |
| UserService.SeatsUsed | api/Services/UserService.cs:54 | no seat is used exactly when no user belongs to the company |
| UserService.MayAddUser | api/Services/UserService.cs:41-57 | the guards passed: the company exists and has not lapsed, no account has the e-mail, and a Free company stays within two seats after the addition |
| UserService.GetUsersByCompany | api/Services/UserService.cs:20-37 | exactly the users whose company matches |
| UserService.CountSeats | api/Services/UserService.cs:54 | the number of the company's users |
| UserService.FindByEmail | api/Services/UserService.cs:41 | true exactly when some account has the e-mail, case aside |
| UserService.AddingUserTakesSeat | api/Services/UserService.cs:54-70 | adding a user to a company takes exactly one more seat |
| UserService.CreateUser | api/Services/UserService.cs:39-84 | created exactly when the e-mail is free, the company exists and is not lapsed, a Free company has fewer than 2 users, and the store accepts; a lapsed company is deactivated; a Free company stays within 2 seats |
| UserService.UpdateUser | api/Services/UserService.cs:86-109 | an unknown id or a store refusal changes nothing; otherwise only that user's names and e-mail change |
| UserService.DeleteUser | api/Services/UserService.cs:111-118 | true exactly when the user exists and the store deletes it |
| UserService.ToggleUserStatus | api/Services/UserService.cs:120-128 | only the user's `IsActive` is negated, and only when the store accepts |
| ProductService.ApplyProductRequest | api/Services/ProductService.cs:82-85 | exactly name, description, category and price are overwritten |
| ProductService.NameInUse | api/Services/ProductService.cs:41-42 | a name not in use belongs to no product of the company other than the excepted one |
| ProductService.GetProductsByCompany | api/Services/ProductService.cs:17-24 | exactly the company's products |
| ProductService.GetProductById | api/Services/ProductService.cs:26-32 | the product only when both the id and the company match |
| ProductService.CreateProduct | api/Services/ProductService.cs:34-60 | created exactly when the name is non-blank and unused in the company; the invariant "names non-blank and unique per company" is kept; other companies' rows are untouched |
| ProductService.UpdateProduct | api/Services/ProductService.cs:63-90 | updated exactly when the name is non-blank, the product is the company's, and no other product of the company has the name; the invariant is kept |
| ProductService.DeleteProduct | api/Services/ProductService.cs:93-103 | removed exactly when the product is the company's; the invariant is kept |
| Database.FindOwned | api/Services/CustomerService.cs:28-29 | the lookup by id and company that the customer, product and offer services share: found exactly when the id exists and its row belongs to the company |
| CustomerService.ApplyCustomerRequest | api/Services/CustomerService.cs:58-61 | all four contact fields are overwritten, so a missing phone or address clears it |
| CustomerService.GetCustomersByCompany | api/Services/CustomerService.cs:17-24 | exactly the company's customers |
| CustomerService.GetCustomerById | api/Services/CustomerService.cs:26-32 | the customer only when both the id and the company match |
| CustomerService.CreateCustomer | api/Services/CustomerService.cs:34-49 | always succeeds and stores the request under the company with a fresh id |
| CustomerService.UpdateCustomer | api/Services/CustomerService.cs:51-66 | a non-matching id or company returns null and changes nothing; other companies' rows are untouched |
| CustomerService.DeleteCustomer | api/Services/CustomerService.cs:68-78 | removes exactly the matching customer, else returns false |
| AdminDashboard.Summarize | api/Services/AdminService.cs:26-33 | a summary carries the company's id, name, plan and its offer and user counts |
| AdminDashboard.PaidSince | api/Services/AdminService.cs:45-46 | the week and month windows have no upper bound: a payment dated no earlier than a counted one is counted |
| AdminDashboard.PaidToday | api/Services/AdminService.cs:44 | today's payments are those since today and not since tomorrow |
| AdminDashboard.BuildDashboard | api/Services/AdminService.cs:19-60 | one summary per company; plan counts; revenue for today, since the week's Sunday, since the 1st of the month, and in total |
| AdminDashboard.PlanCountsPartition | api/Services/AdminService.cs:35-37 | Pro + Free + Enterprise = total, so Pro + Free ≤ total |
| AdminDashboard.OfferCountsCoverAllOffers | api/Services/AdminService.cs:26-33 | with distinct ids, the summaries count every offer exactly once |
| AdminDashboard.OfferCountsCover | api/Services/AdminService.cs:30 | per-company offer counts add up to the offers of the listed companies |
| AdminDashboard.FilterCountDisjoint | api/Services/AdminService.cs:36-37 | counts under two exclusive conditions add up |
| AdminDashboard.RevenueWindowsNest | api/Services/AdminService.cs:39-47 | with non-negative amounts, today ≤ week ≤ total and today ≤ month ≤ total |
| AdminDashboard.WindowsOpeningToday | api/Services/AdminService.cs:40-41 | on a Sunday the week opens today; on the 1st the month does |
| AdminDashboard.WindowsByDate | api/Services/AdminService.cs:44-46 | a payment counts for today exactly when it is dated today, and for the month exactly when its date is not before the 1st of this month |
| AdminDashboard.GetDashboard | api/Services/AdminService.cs:19-60 | the dashboard of all rows, each loaded once; every stored company is summarised with its stored name and plan and the numbers of its offers and users in the tables; the plan counts are the numbers of companies on each plan; the database is not modified |
| AdminDashboard.DashboardMatchesTables | api/Services/AdminService.cs:26-33 | summaries built from once-each listings carry the stored name and plan and the table counts of offers and users, and cover every company |
| AdminDashboard.TablesInjective | api/Services/AdminService.cs:21-24 | in a valid database no two keys of a table hold the same row |
| Database.FilterCountIsKeyCount | api/Services/AdminService.cs:30-31 | counting a once-each listing's rows that pass a test counts the table's keys whose rows pass it |
| AdminDashboard.UpgradeCompany | api/Services/AdminService.cs:62-65 | the company service's upgrade, unchanged: null and nothing recorded for an unknown company, otherwise one payment under the next id, the requested plan and a renewal |
| KeyedLists.ReplaceWhere | ui/store/userStore.ts:82 | `map(x => x.id === id ? f(x) : x)` rewrites exactly the matching entries, in place |
| KeyedLists.ReplaceTwiceRestores | ui/store/userStore.ts:102-106 | an involutive rewrite applied twice restores the list |
| KeyedLists.RemoveWhereSpec | ui/store/userStore.ts:93 | `filter(x => x.id !== id)` keeps the other entries in order and drops exactly the matching ones |
| ClientModel.ResponseMessage | ui/store/offerStore.ts:84 | `error.response?.data?.message` exists only for a JSON error body |
| ClientModel.MessageOr | ui/store/offerStore.ts:133 | the server's message when truthy, else the fallback |
| ClientModel.MessageOrOwn | ui/store/userStore.ts:73 | the server's message, else the error's own message, else the fallback |
| ClientModel.MessageOrBody | ui/store/offerStore.ts:115 | the server's message, else the body's text ("[object Object]" for JSON), else the fallback |
| ClientModel.LocalErrorMessages | ui/store/offerStore.ts:153-171 | a locally thrown error loses its message in the `response`-only chains and keeps it in `createUser`'s |
| OfferStore.ReplaceCurrent | ui/store/offerStore.ts:128 | the viewed offer is replaced only when its id matches |
| OfferStore.WithStatus | ui/store/offerStore.ts:177-184 | only the matching entries' status changes; every other field and entry is kept |
| OfferStore.OfferStore.constructor | ui/store/offerStore.ts:71-75 | the store starts empty, not loading, with no error |
| OfferStore.OfferStore.FetchOffers | ui/store/offerStore.ts:77-88 | success replaces the list; failure keeps it and records the message; loading ends |
| OfferStore.OfferStore.FetchOffer | ui/store/offerStore.ts:90-101 | success sets the viewed offer; failure keeps it and records the message |
| OfferStore.OfferStore.CreateOffer | ui/store/offerStore.ts:103-117 | the new offer is prepended and the rest keep their order; failure changes nothing |
| OfferStore.OfferStore.UpdateOffer | ui/store/offerStore.ts:119-135 | the matching entries and a matching viewed offer become the returned offer |
| OfferStore.OfferStore.DeleteOffer | ui/store/offerStore.ts:137-148 | the matching entries go; the viewed offer is cleared only when its id matches |
| OfferStore.OfferStore.MarkStatus | ui/store/offerStore.ts:161-168 | the matching entry and viewed offer take the status |
| OfferStore.OfferStore.SendOffer | ui/store/offerStore.ts:150-172 | a Free company at 3 offers is stopped before the request, with nothing changed and the generic message; otherwise success marks the offer Sent |
| OfferStore.OfferStore.ChangeStatus | ui/store/offerStore.ts:174-220 | accept, reject and cancel set their status on the matching id only; failure changes nothing |
| OfferStore.OfferStore.SetCurrentOffer | ui/store/offerStore.ts:232-234 | the viewed offer becomes the argument |
| OfferStore.DeleteRemovesExactly | ui/store/offerStore.ts:142 | after a delete no entry has the id and every other offer is listed in order |
| UserStore.UserStore.constructor | ui/store/userStore.ts:40-43 | the store starts empty |
| UserStore.UserStore.SetUsers | ui/store/userStore.ts:45 | the list becomes the argument |
| UserStore.UserStore.FetchUsers | ui/store/userStore.ts:47-58 | failure keeps the list, records the message and ends loading |
| UserStore.UserStore.CreateUser | ui/store/userStore.ts:60-75 | a Free company with 2 listed users is stopped with the guard's own message and nothing changed; success appends the user |
| UserStore.UserStore.UpdateUser | ui/store/userStore.ts:77-88 | only the matching entries are replaced |
| UserStore.UserStore.DeleteUser | ui/store/userStore.ts:90-97 | the matching entries go, the rest keep their order |
| UserStore.UserStore.ToggleUserStatus | ui/store/userStore.ts:99-110 | only the matching entries' `isActive` flips |
| UserStore.ToggleTwiceRestores | ui/store/userStore.ts:102-106 | two toggles of one user restore the list |
| UserStore.ToggleChangesOnlyTheFlag | ui/store/userStore.ts:102-106 | a toggle changes nothing but the matching user's flag |
| ProductStore.ProductStore.constructor | ui/store/productStore.ts:36-39 | the store starts empty |
| ProductStore.ProductStore.FetchProducts | ui/store/productStore.ts:41-52 | failure keeps the list, records the message and ends loading |
| ProductStore.ProductStore.CreateProduct | ui/store/productStore.ts:54-63 | success appends the product; failure changes nothing and throws the fallback text |
| ProductStore.ProductStore.UpdateProduct | ui/store/productStore.ts:65-76 | only the matching entries are replaced |
| ProductStore.ProductStore.DeleteProduct | ui/store/productStore.ts:78-85 | the matching entries go, the rest keep their order |
| CustomerStore.CustomerStore.constructor | ui/store/customerStore.ts:36-39 | the store starts empty |
| CustomerStore.CustomerStore.FetchCustomers | ui/store/customerStore.ts:41-52 | failure keeps the list, records the message and ends loading |
| CustomerStore.CustomerStore.CreateCustomer | ui/store/customerStore.ts:54-63 | success appends the customer; failure changes nothing |
| CustomerStore.CustomerStore.UpdateCustomer | ui/store/customerStore.ts:65-76 | only the matching entries are replaced |
| CustomerStore.CustomerStore.DeleteCustomer | ui/store/customerStore.ts:78-85 | the matching entries go, the rest keep their order |
| OfferEditor.BlankItem | ui/app/dashboard/offers/new/page.tsx:40-42 | a blank row has no product, quantity 1, unit price 0 and total 0 |
| OfferEditor.TotalAmount | ui/app/dashboard/offers/new/page.tsx:124-126 | the reduce over row totals is 0 for no rows and never negative when no row is |
| OfferEditor.ApplyEdit | ui/app/dashboard/offers/new/page.tsx:82-95 | the edited field takes the value; the total is recomputed for quantity and unit price only; consistent rows stay consistent |
| OfferEditor.FindByName | ui/app/dashboard/offers/new/page.tsx:98 | the first product with exactly that name, or none exactly when no product has it |
| OfferEditor.SelectProduct | ui/app/dashboard/offers/new/page.tsx:97-112 | a match sets product, description, price and total; no match only clears the product link |
| OfferEditor.WithoutRow | ui/app/dashboard/offers/new/page.tsx:120 | exactly the row at the index is dropped, the others keep their order |
| OfferEditor.Payload | ui/app/dashboard/offers/new/page.tsx:155-162 | the submitted rows carry description, quantity and unit price only, in order |
| OfferEditor.Linked | ui/app/dashboard/offers/new/page.tsx:144-150 | a row without a product takes the created product's id; any other row is kept |
| OfferEditor.NeedsProduct | ui/app/dashboard/offers/new/page.tsx:145 | `!item.productId`: a row with no product or the falsy id 0 needs one; any other row has a non-zero id |
| OfferEditor.CreatedProducts | ui/app/dashboard/offers/new/page.tsx:143-153 | the loop adds at most one product per row |
| OfferEditor.CreatedProductsFromReplies | ui/app/dashboard/offers/new/page.tsx:143-153 | every added product came back from a successful request; with every row linked nothing is added |
| OfferEditor.CreatedProductsSnoc | ui/app/dashboard/offers/new/page.tsx:143-153 | each visited row adds at most its own created product |
| OfferEditor.ItemEditor.constructor | ui/app/dashboard/offers/new/page.tsx:40-42 | the editor opens with one blank row |
| OfferEditor.ItemEditor.HandleItemChange | ui/app/dashboard/offers/new/page.tsx:82-95 | only the row at the index changes; every row stays consistent |
| OfferEditor.ItemEditor.HandleProductSelect | ui/app/dashboard/offers/new/page.tsx:97-112 | only the row at the index changes; every row stays consistent |
| OfferEditor.ItemEditor.AddItem | ui/app/dashboard/offers/new/page.tsx:114-116 | one blank row is appended |
| OfferEditor.ItemEditor.RemoveItem | ui/app/dashboard/offers/new/page.tsx:118-122 | a no-op with one row; otherwise exactly the row at the index goes; never empty |
| OfferEditor.ItemEditor.GetTotalAmount | ui/app/dashboard/offers/new/page.tsx:124-126 | the shown total is the sum of the rows' totals, which equals the server's total for the payload |
| OfferEditor.ItemEditor.CreateMissingProducts | ui/app/dashboard/offers/new/page.tsx:142-153 | every row without a product asks for one; created ids are linked; the store gains exactly the created products, in row order |
| OfferEditor.ShownTotalIsServerTotal | ui/app/dashboard/offers/new/page.tsx:124-162 | for consistent rows, the page's total equals the total the server stores for the submitted lines |
| OfferEditor.RemovingKeepsARow | ui/app/dashboard/offers/new/page.tsx:118-122 | removal never empties the editor |
| OfferListPage.Matches | ui/app/dashboard/offers/page.tsx:39-44 | an empty search with "all" matches every offer; with a status filter other than "all" a match has that status |
| OfferListPage.FilteredOffers | ui/app/dashboard/offers/page.tsx:39-44 | the filtered list keeps order and holds exactly the offers matching both the search, case aside, and the status filter |
| OfferListPage.NoFilterKeepsAll | ui/app/dashboard/offers/page.tsx:39-44 | an empty search with "all" lists every offer |
| OfferListPage.StatusColor | ui/app/dashboard/offers/page.tsx:104-123 | `getStatusColor` gives the Draft class exactly to "Draft" and to names that are no status |
| OfferListPage.StatusColorsDistinct | ui/app/dashboard/offers/page.tsx:104-123 | distinct statuses get distinct classes; an unknown name gets the Draft class |
| OfferListPage.ShowAccept | ui/app/dashboard/offers/page.tsx:286 | Accept is offered exactly when the status text is not "Accepted" |
| OfferListPage.ShowReject | ui/app/dashboard/offers/page.tsx:287 | Reject is offered exactly when the status text is not "Rejected" |
| OfferListPage.ActionsNeverBothHidden | ui/app/dashboard/offers/page.tsx:286-287 | Accept is hidden exactly for Accepted, Reject exactly for Rejected, never both |
| OfferListPage.TextBefore | ui/app/dashboard/offers/page.tsx:98-100 | the text before the first occurrence of a character is a prefix without it |
| OfferListPage.WhatsAppLink | ui/app/dashboard/offers/page.tsx:98-100 | the link starts with `https://wa.me/` and ends with `?text=` and the encoded message, with or without a phone |
| OfferListPage.WhatsAppLinkAddressee | ui/app/dashboard/offers/page.tsx:98-100 | the link is addressed to the phone when it is non-empty, and to no one otherwise |
| Sidebar.Navigation | ui/components/Sidebar.tsx:21-30 | eight entries with distinct addresses, the first `/dashboard` and the others below it, none of them Admin |
| Sidebar.BuildLinks | ui/components/Sidebar.tsx:21-40 | the eight entries in order, plus Admin last exactly for SuperAdmin |
| Sidebar.IsActive | ui/components/Sidebar.tsx:66 | an entry is active on its own address, and only on paths that start with it |
| Sidebar.ActiveNeedsSlash | ui/components/Sidebar.tsx:66 | active exactly when the path is the address, or the address followed by '/' |
| Sidebar.EnclosingEntryActive | ui/components/Sidebar.tsx:66 | an enclosing entry is active wherever a nested one is |
| Sidebar.TwoEntriesActive | ui/components/Sidebar.tsx:22-23 | on an offer's page, Dashboard and Teklifler are both active |
| Autocomplete.Filtered | ui/components/AutocompleteInput.tsx:21-23 | the options kept are exactly those containing the value, case aside, in order |
| Autocomplete.EmptyValueKeepsAll | ui/components/AutocompleteInput.tsx:21-23 | an empty value keeps every option |
| Autocomplete.AutocompleteInput.constructor | ui/components/AutocompleteInput.tsx:18 | the dropdown starts closed |
| Autocomplete.AutocompleteInput.Type | ui/components/AutocompleteInput.tsx:48-51 | typing reports the text and opens the dropdown |
| Autocomplete.AutocompleteInput.Focus | ui/components/AutocompleteInput.tsx:52 | focus opens the dropdown |
| Autocomplete.AutocompleteInput.DropdownVisible | ui/components/AutocompleteInput.tsx:54 | the list shows exactly when the dropdown is open and some option contains the value, case aside |
| Autocomplete.AutocompleteInput.ClickOutside | ui/components/AutocompleteInput.tsx:25-30 | a press outside closes it |
| Autocomplete.AutocompleteInput.HandleSelect | ui/components/AutocompleteInput.tsx:35-39 | `onChange` then `onOptionSelect`, when given, with the same value, and the dropdown closes |

## Left out

- DTO mapping (`MapToDto`, `UserDto`, `PaymentDto`): field-for-field copies. The model returns the rows themselves.
- Controllers, `api/Program.cs`, authentication, claims and routing: the caller's user and company ids are plain parameters.
- UploadLogoAsync: filesystem writes and GUID file names.
- `api/Services/EmailService.cs`, PDF rendering and `downloadOfferPdf`: foreign libraries. The e-mail outcome is the `emailSent` parameter of `OfferService.SendOffer`.
- Accept, reject and cancel on the server, the "viewed" transition and any expiry sweep: the service code has no implementation of them.
- Concurrency: each service call is one atomic step. The check-then-increment race on `OffersUsed` is not represented.
- Clocks: `DateTime.UtcNow` and `DateTime.Now` are parameters (`utcNow`, `localNow`). So is the moment a new `Payment` takes as `PaidAt`.
- Calendar.DateTime: there is no upper bound at year 9999.
- Money: amounts are exact integers. There is no decimal rounding, no `toLocaleString` formatting, and no `parseInt`/`parseFloat` NaN for a blank number field.
- OfferNumbering.TryParseNumber: accepts digit strings only. It does not model `int.TryParse`'s sign, whitespace or overflow handling.
- Common.Lower: ASCII case folding only. There is no Unicode or Turkish case mapping in the search filters or the identity store's e-mail normalisation.
- ProductService.NameInUse: compares names exactly. The database collation is not part of this model.
- Database.SelectWhere: the order in which the database returns rows is not fixed.
- OfferQueries.Page: a failed query is `None`. The SQL Server error, the exception it raises and the controller's response are not modelled.
- Ordering.SortLatestFirst: the order of rows with equal dates is not fixed.
- ASP.NET Identity: password rules, role storage and the store's own failures are left out. The store's verdict is a `storeAccepts` parameter. The id of a new account is `newId`, assumed unused.
- UserService.NewUser: takes `IsActive = true` and `CreatedAt = now` as the account defaults. `ApplicationUser` is not part of this model.
- Client requests: HTTP is a `Reply` parameter of each store action.
- OfferStore.OfferStore.SendOffer: does not model the `fetchCompany` call made after a successful send. That call only refreshes the company store, which is left out; it catches its own errors, so it cannot make `sendOffer` throw.
- The rest of the new-offer page's `handleSubmit` is left out: it creates a customer when none is selected, holds the form fields and calls `createOffer`. Only its product loop and payload are modelled.
- OfferEditor.ItemEditor.HandleItemChange: requires an index of an existing row, which is all the page ever passes. It covers the three fields the page edits: description, quantity and unit price.
- OfferListPage.WhatsAppLink: `encodeURIComponent` is a parameter. The origin comes from `window.location`, and `window.open` is not modelled.
- Autocomplete.AutocompleteInput.ClickOutside: registering and removing the document `mousedown` listener is not modelled, and neither is the DOM containment test.
- UI rendering is out: JSX, toasts, dialogs and routing.
- The stores `authStore`, `companyStore`, `adminStore` and `paymentStore` are left out: they only pass responses through.
