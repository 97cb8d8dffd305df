# Finance tracker: a verified model of its core

This project is a Dafny model of the core logic of a personal finance tracker. The tracker has
an Express/MongoDB back end (`api/server.js`) and a React front end (`client/src`). The model
covers three parts.

- **The server as a state machine.**
  - The state is a `Store` holding the users and the transaction records, each in insertion order.
  - Each route is a pure function from the store and the request to the next store and the reply.
  - Routes modelled: register, login, forgot-password, reset-password, and list, create and delete
    transactions, together with the two validation middlewares and the bearer-token middleware.
  - `Server.Handle` dispatches a request to its route.
  - Lemmas prove that every route keeps the store consistent:
    - reset token and expiry are set together;
    - ids and e-mails are unique, and e-mails are stored in lower case.
  - Lemmas prove end-to-end behaviours:
    - register then login;
    - forgot then reset then login;
    - a reset token is single-use;
    - create then list, and delete then list;
    - a delete never touches other users' records.
- **The client's aggregation engine** (`TransactionContext.tsx`).
  - Folds over the transaction list: income, expense and balance totals, per-category totals,
    and the six-month buckets.
  - The list updates that follow a server reply to fetch, add and delete.
  - Each is related to an independent reference definition, for example the balance as a signed
    sum, and category totals that add up to the type totals.
- **The client's list and form logic.**
  - The transaction table's filter and sort pipeline and the `requestSort` toggle.
  - The pie chart's label formatting and slice data.
  - The ordered validators of the register, login and reset-password pages.
  - The dashboard's greeting and PDF export summary.
  - Lemmas connect pages to the server: what a page lets through passes the server's own checks.

Modules follow the program's structure:

| module | covers |
|---|---|
| `Wrappers` | shared result types |
| `Seqs` | array helpers |
| `Strings` | string helpers |
| `EmailFormat` | the e-mail regex |
| `Domain` | `types/index.ts` |
| `ServerStore` | the server's state |
| `ServerValidation` | the server's validators |
| `AuthRoutes` | the server's auth routes |
| `TransactionRoutes` | the server's transaction routes |
| `Server` | the server's dispatcher and its invariants |
| `TransactionContext` | the client's transaction context |
| `TransactionList` | the client's transaction list |
| `ExpensesPieChart` | the client's pie chart |
| `RegisterPage` | the register page |
| `LoginPage` | the login page |
| `ResetPasswordPage` | the reset-password page |
| `Dashboard` | the dashboard page |

External effects become parameters of the model:

- **bcrypt** is a symbolic digest. `Bcrypt(p)` matches exactly the password `p`.
- **JWT verification** is a function `string -> Option<Claims>`.
- **The mail transport** is `Mailer(configured, delivers)`.
- **Date parsing** is a function `string -> Option<Date>`.
- **The clock** is an integer `now`.
- **Fresh ids and tokens** are passed in.
- **The number-to-string conversion** used by the search box is a function `int -> string`.

Amounts are integers (cents). Password lengths are counted in UTF-16 code units, as JavaScript's
`length` counts them, so a character outside the Basic Multilingual Plane counts twice.

The user schema's `lowercase` option is part of the model. A new user's e-mail is stored in
lower case, and register and login look up the lower-cased address, because Mongoose casts the
query through the same option. Record ids are compared as `ObjectId`s, whose hexadecimal letters
are read without regard to case.

In three places the code does not do what a reader might expect; the model follows the code:

- `validateTransaction` does not check that the category agrees with the type
  (`ServerValidation.NoCategoryTypeAgreementCheck`).
- `getMonthlyData` matches transactions to buckets by month name only, ignoring the year
  (`TransactionContext.MonthlyDataIgnoresYear`).
- The two success replies of forgot-password differ, for a known and an unknown address
  (`Server.ForgotPasswordRevealsAccounts`). The server therefore reveals which addresses have
  accounts.

## Model

| member | source | states |
|---|---|---|
| Domain.ParseType | client/src/types/index.ts:8 | a string parses to a type exactly when it is the label of one, and it parses to that type |
| Domain.ParseCategory | api/server.js:265-274 | a string is accepted as a category exactly when it is one of the sixteen labels, and it parses to that category |
| Domain.CategoryLabelRoundTrip | client/src/types/index.ts:10-26 | every category's label parses back to that category |
| Domain.TypeLabelRoundTrip | client/src/types/index.ts:8 | every type's label parses back to that type |
| EmailFormat.EmailRegexCharacterization | api/server.js:239-242 | `^[^\s@]+@[^\s@]+\.[^\s@]+$` matches exactly when the address has one `@`, no white space, a non-empty local part, and a `.` in the domain that is neither its first nor its last character |
| EmailFormat.LowerCasePreservesMatch | api/server.js:392 | lower-casing an address that matches the regex keeps it matching |
| EmailFormat.EmptyIsNotAnEmail | client/src/pages/Register.tsx:34-37 | the empty string does not match the regex |
| ServerStore.PasswordMatchesExactly | api/server.js:345-348 | a stored digest matches the password it was made from and no other |
| ServerStore.UserByEmail | api/server.js:340 | the first user stored with that e-mail, and none exactly when no user has it |
| ServerStore.UserById | api/server.js:113 | a user with that id, and none exactly when no user has it |
| ServerStore.UserByLiveToken | api/server.js:442-445 | a user who holds the token with an expiry strictly after `now`, and none exactly when nobody does |
| Strings.Utf16Length | api/server.js:244 | `length` counts UTF-16 code units: at least the character count, at most twice it, and 0 only for the empty string |
| Strings.Utf16LengthOfBmp | api/server.js:244 | on the Basic Multilingual Plane the code-unit count is the character count |
| Strings.SurrogatePairsCountTwice | api/server.js:244 | three emoji are three characters but six code units |
| ServerValidation.ValidateInput | api/server.js:232-249 | the checks run in order: missing e-mail or password, then malformed e-mail, then a password shorter than 6 UTF-16 code units; each outcome holds exactly under its condition, and the request gets through only when all three pass |
| ServerValidation.EmojiPasswordPasses | api/server.js:244 | a password of three emoji, six code units, passes the length check |
| ServerValidation.ValidateTransaction | api/server.js:252-285 | accepts exactly the bodies with every field truthy, a positive amount, a known category, a known type and a description that is not blank; each rejection holds exactly when the checks before it pass and it fails; an accepted body keeps the given values |
| ServerValidation.NoCategoryTypeAgreementCheck | api/server.js:265-278 | an income filed under `rent` is accepted |
| AuthRoutes.NewUser | api/server.js:302-306 | the new user has the given id, the e-mail in lower case as the schema's `lowercase` option stores it, a non-blank name when one was given, a digest that matches the password, and no reset token |
| AuthRoutes.Register | api/server.js:287-333 | 201 exactly when the input is valid, the trimmed name is non-empty, no user has the lower-cased e-mail and the new id is fresh; a 201 appends the new user with the hashed password and returns its session; any other reply leaves the store unchanged |
| AuthRoutes.Login | api/server.js:335-370 | 200 exactly when the input is valid and the first user with the lower-cased e-mail has a matching password; the reply then carries that user's session; an unknown e-mail and a wrong password get the same 400 "Invalid credentials" |
| AuthRoutes.WithResetToken | api/server.js:399-404 | issuing a token sets the token and the expiry together |
| AuthRoutes.WithoutResetToken | api/server.js:413-415 | clearing a token clears both fields together |
| AuthRoutes.ForgotPassword | api/server.js:372-428 | 400 for a missing or malformed address and 500 for an unconfigured mailer, all before any lookup and with nothing changed; an unknown address gets 200 and changes nothing; a known address gets a token that expires `now + 3600000`, or, when mail fails, a 500 with both fields cleared |
| AuthRoutes.ResetPassword | api/server.js:430-469 | the password length, in UTF-16 code units, is checked first; 200 exactly when some user holds the token with an expiry strictly after `now`, and then that user gets the new digest and loses the token; every failure is a 400 that changes nothing |
| AuthRoutes.BearerToken | api/server.js:105-110 | a token is found exactly when the header has a non-empty second space-separated piece, and it is that piece |
| AuthRoutes.BearerTokenOfHeader | api/server.js:106 | `scheme + " " + token` yields `token` |
| AuthRoutes.VerifierFor | api/server.js:112 | with `JWT_SECRET` set, the given verifier; without it, one that refuses every token |
| AuthRoutes.UnsetSecretDeniesEveryToken | api/server.js:102-125 | without `JWT_SECRET` no request gets through, and every request carrying a token gets 403 "Invalid or expired token" |
| AuthRoutes.Authenticate | api/server.js:102-125 | 401 "Access token required" without a token, 403 when verification fails, 401 "Invalid token" when no user has the id, and otherwise access for that user |
| TransactionRoutes.InsertByAgeKeepsOrder | api/server.js:477 | inserting a record into a listing ordered newest first keeps it ordered |
| TransactionRoutes.ListingIsPermutation | api/server.js:476-477 | the listing is a permutation of the caller's stored records: each appears exactly as often as it is stored |
| TransactionRoutes.ListingMembers | api/server.js:476 | a record is listed exactly when it is stored and belongs to the caller |
| TransactionRoutes.ListingIsNewestFirst | api/server.js:477 | the listing is ordered by `createdAt`, newest first, whatever order the records are stored in |
| TransactionRoutes.ListingIsReverseInsertion | api/server.js:476-477 | over records stored in `createdAt` order, the listing is the caller's records read from the latest inserted back |
| TransactionRoutes.OwnedNewestFirstAppend | api/server.js:476-477 | a record appended with a stamp no older than any stored one comes first in its owner's listing, the rest of that listing is unchanged, and other users' listings are unchanged |
| TransactionRoutes.TransactionsOf | api/server.js:479-487 | one transaction per record, in the same order, each the record's own transaction |
| TransactionRoutes.RecordById | api/server.js:514 | a record whose id names the same `ObjectId`, and none exactly when no record's does; create refuses an id already in use |
| TransactionRoutes.ListTransactions | api/server.js:473-498 | the authentication failure's reply, or 200 with the caller's transactions newest first; the store is never changed |
| TransactionRoutes.CreateTransaction | api/server.js:500-535 | 201 exactly when the caller is authenticated, the body validates, the date parses and the id is fresh; the created record has the caller's id and the trimmed description, and it is both appended and returned; a failure changes nothing |
| TransactionRoutes.ValidObjectId | api/server.js:542 | an id passes exactly when it is 24 hexadecimal digits, in either letter case |
| TransactionRoutes.LowerKeepsValidObjectId | api/server.js:542 | an id is valid exactly when its lower-cased form is |
| TransactionRoutes.OwnedRecord | api/server.js:546-549 | a record whose id names the same `ObjectId` and whose owner is the caller, and none exactly when no record has both |
| TransactionRoutes.DeleteTransaction | api/server.js:537-561 | 400 for an id that is not 24 hex digits; 200 exactly when a record has an id naming the same `ObjectId`, hex letters compared without regard to case, and the caller's user id, and then exactly that record is removed; otherwise 404 and nothing changes |
| TransactionRoutes.DeleteIgnoresIdCase | api/server.js:542-549 | a delete gives the same reply and the same store whether the id's hexadecimal letters are upper or lower case |
| TransactionRoutes.DeleteSparesOtherUsers | api/server.js:546-549 | after any delete, every other user's listing is unchanged |
| TransactionRoutes.RemoveOtherOwner | api/server.js:546-549 | removing a record owned by someone else leaves a user's listing unchanged |
| Server.Handle | api/server.js:287-561 | login and list never change the store; the auth routes never touch the records; the transaction routes never touch the users |
| Server.ReplaceUserKeepsConsistent | api/server.js:402-415 | replacing one user by a copy with the same id and e-mail and paired reset fields keeps the store consistent |
| Server.RegisterKeepsConsistent | api/server.js:296-308 | registration keeps ids and e-mails unique, e-mails in lower case and the reset fields paired |
| Server.ForgotPasswordKeepsConsistent | api/server.js:399-420 | forgot-password keeps the store consistent, including on the rollback path |
| Server.ResetPasswordKeepsConsistent | api/server.js:453-457 | reset-password keeps the store consistent |
| Server.CreateKeepsConsistent | api/server.js:505-514 | creating a transaction keeps record ids unique as `ObjectId`s |
| Server.DeleteKeepsConsistent | api/server.js:546-549 | deleting a transaction keeps record ids unique as `ObjectId`s |
| Server.HandleKeepsConsistent | api/server.js:287-561 | every request keeps the store consistent |
| Server.HandleKeepsChronological | api/server.js:474-514 | records stay in `createdAt` order when the clock does not run backwards |
| Server.RegistrantFound | api/server.js:296-308 | after a registration the new user is stored last, and a lookup by the lower-cased address finds it |
| Server.RegisterThenLogin | api/server.js:287-370 | after a successful registration, logging in with the same e-mail and password succeeds with the new user's session |
| Server.RegisterThenForgot | api/server.js:287-411 | after a registration, forgot-password with the address in any letter case sends the mail and gives the new account the token |
| Server.SoleHolderFound | api/server.js:442-445 | when exactly one user holds a token, the lookup finds that user exactly when the token is still live |
| Server.ForgotIssuesToken | api/server.js:392-411 | a delivered reset request gives exactly the addressed user the token, and nobody else changes |
| Server.LoginAfterReset | api/server.js:340-348 | the first user stored with the lower-cased e-mail, holding the digest of a password, can log in with the e-mail as typed |
| Server.ForgotThenReset | api/server.js:372-469 | after a delivered forgot-password, the reset succeeds exactly when it comes less than an hour later, and then login with the new password succeeds |
| Server.ResetIsSingleUse | api/server.js:453-457 | a second reset with a token that was used once fails with "Invalid or expired reset token" |
| Server.ForgotPasswordRevealsAccounts | api/server.js:393-411 | with mail delivered, the 200 replies for a known and an unknown address carry different messages |
| Server.ForgotMessagesDiffer | api/server.js:394-411 | the two success messages differ for every address |
| Server.CreateAppendsReturned | api/server.js:505-529 | the created record is appended and returned, and it belongs to the caller |
| Server.CreateThenList | api/server.js:474-529 | after a create stamped no earlier than any stored record, the caller's listing is the new transaction followed by the old listing |
| Server.ListAfterAppend | api/server.js:476-477 | appending a record of the caller's, stamped no earlier than any stored one, puts it at the head of the listing and keeps the rest |
| Server.DeleteThenList | api/server.js:474-555 | after a delete, the caller's listing holds exactly the old entries whose id does not name the deleted `ObjectId` |
| TransactionContext.SumConcat | client/src/contexts/TransactionContext.tsx:264-274 | the amount fold is additive over concatenation |
| TransactionContext.SelectedSumOfNone | client/src/contexts/TransactionContext.tsx:264-274 | a filter that selects nothing sums to 0 |
| TransactionContext.TotalIncome | client/src/contexts/TransactionContext.tsx:264-268 | only income counts: the whole sum when every transaction is income, 0 when every one is an expense, and never negative for non-negative amounts |
| TransactionContext.TotalExpenses | client/src/contexts/TransactionContext.tsx:270-274 | only expenses count: the whole sum when every transaction is an expense, 0 when every one is income, and never negative for non-negative amounts |
| TransactionContext.Balance | client/src/contexts/TransactionContext.tsx:276-278 | the whole sum when everything is income, and its negation when everything is an expense |
| TransactionContext.TotalsOfConcat | client/src/contexts/TransactionContext.tsx:264-278 | income, expenses and balance are additive over concatenation |
| TransactionContext.BalanceIsSignedSum | client/src/contexts/TransactionContext.tsx:264-278 | the balance is the sum of the signed amounts, and 0 for no transactions |
| TransactionContext.Tally | client/src/contexts/TransactionContext.tsx:217-227 | the map's keys are the categories in first-occurrence order, each with the sum of its amounts |
| TransactionContext.CategoryTotals | client/src/contexts/TransactionContext.tsx:215-228 | each category appears at most once, exactly when a transaction of that type has it, in first-occurrence order, and with the sum of those amounts |
| TransactionContext.CategoryTotalsFirstOccurrenceOrder | client/src/contexts/TransactionContext.tsx:219-227 | the entries are ordered by where their category first occurs among the transactions of that type |
| TransactionContext.Credit | client/src/contexts/TransactionContext.tsx:220-221 | a category already present keeps its place and gains the amount; a new one is appended with the amount; no other entry changes |
| TransactionContext.CreditRaisesTotal | client/src/contexts/TransactionContext.tsx:220-221 | crediting an amount to the map raises its total by that amount |
| TransactionContext.TallyTotal | client/src/contexts/TransactionContext.tsx:219-227 | the map's amounts add up to the sum of the transactions |
| TransactionContext.CategoryTotalsAddUp | client/src/contexts/TransactionContext.tsx:215-274 | the income category totals add up to the total income, and the expense ones to the total expenses |
| TransactionContext.WindowMonth | client/src/contexts/TransactionContext.tsx:235-237 | the k-th month of the window lies `5 - k` months before the current one, so the last is the current month |
| TransactionContext.WindowMonthsDistinct | client/src/contexts/TransactionContext.tsx:235-239 | the six months of the window are distinct |
| TransactionContext.EmptyWindow | client/src/contexts/TransactionContext.tsx:233-239 | six buckets, oldest month first, all at zero |
| TransactionContext.MonthSum | client/src/contexts/TransactionContext.tsx:241-256 | 0 when no transaction is dated in that month or none is of that kind, and never negative for non-negative amounts |
| TransactionContext.Post | client/src/contexts/TransactionContext.tsx:243-253 | the bucket named after the transaction's month gains its amount under its kind; every other bucket and every month name is unchanged |
| TransactionContext.Accumulate | client/src/contexts/TransactionContext.tsx:241-256 | after the fold, each bucket has gained the income and expense amounts of the transactions dated in its month |
| TransactionContext.MonthlyData | client/src/contexts/TransactionContext.tsx:230-262 | six buckets for the window months, each holding the income and the expense of its month |
| TransactionContext.MonthlyDataOfNothing | client/src/contexts/TransactionContext.tsx:233-239 | with no transactions every bucket is zero |
| TransactionContext.MonthlyDataIgnoresYear | client/src/contexts/TransactionContext.tsx:242-245 | transactions that differ only in the year of their dates give the same buckets |
| TransactionContext.MonthlyDataIgnoresOutsideWindow | client/src/contexts/TransactionContext.tsx:245 | a transaction dated outside the window changes no bucket |
| TransactionContext.Fetched | client/src/contexts/TransactionContext.tsx:50-92 | empty when logged out or without a token; otherwise the server's list only on an ok reply that carries one, and empty in every other case |
| TransactionContext.AfterAdd | client/src/contexts/TransactionContext.tsx:99-159 | a created transaction is put in front of the unchanged list; every other outcome leaves the list as it was |
| TransactionContext.AddAgreesWithRefetch | client/src/contexts/TransactionContext.tsx:128-137 | after a create stamped no earlier than any stored record, putting the returned transaction in front of the fetched list gives what fetching again returns |
| TransactionContext.BalanceAfterAdd | client/src/contexts/TransactionContext.tsx:134-137 | a successful add moves the balance by the new transaction's signed amount |
| TransactionContext.AfterDelete | client/src/contexts/TransactionContext.tsx:161-208 | the result is an order-preserving subsequence; on success it holds exactly the entries with another id, each as often as in the list, and otherwise the list is unchanged |
| TransactionContext.DeleteOfAbsentIdKeepsList | client/src/contexts/TransactionContext.tsx:186 | deleting an id the list does not hold changes nothing |
| TransactionList.Filtered | client/src/components/transactions/TransactionList.tsx:40-52 | an order-preserving subsequence holding exactly the transactions that match the search, the category filter and the type filter, each as often as in the input |
| TransactionList.FilteredOfConcat | client/src/components/transactions/TransactionList.tsx:40-52 | filtering commutes with concatenation |
| TransactionList.NoFiltersShowEverything | client/src/components/transactions/TransactionList.tsx:28-30 | the initial filters keep every transaction |
| TransactionList.ValueOf | client/src/components/transactions/TransactionList.tsx:58-69 | dates and amounts compare as numbers, and description and category as lower-cased text |
| TransactionList.ValueLessTotalOrder | client/src/components/transactions/TransactionList.tsx:71-77 | `<` on sort values of one kind is a strict total order |
| TransactionList.Compare | client/src/components/transactions/TransactionList.tsx:55-78 | 0 without a sort configuration; otherwise -1, 0 or 1 by the key's values, with the sign flipped for descending |
| TransactionList.CompareAntisymmetric | client/src/components/transactions/TransactionList.tsx:71-77 | swapping the arguments negates the comparison |
| TransactionList.CompareTransitive | client/src/components/transactions/TransactionList.tsx:71-77 | the comparison's "not after" relation is transitive |
| TransactionList.Insert | client/src/components/transactions/TransactionList.tsx:55 | inserting into a sorted list keeps it sorted and adds exactly that element |
| TransactionList.SortTransactions | client/src/components/transactions/TransactionList.tsx:55-78 | the result is sorted by the comparator and is a permutation of the input |
| TransactionList.SortedByColumn | client/src/components/transactions/TransactionList.tsx:60-76 | in a sorted list no later row's key value is below an earlier one when ascending, or above it when descending |
| TransactionList.SortKeepsSortedList | client/src/components/transactions/TransactionList.tsx:55-78 | an already sorted list is left as it is, so equal rows keep their order |
| TransactionList.NoSortConfigKeepsOrder | client/src/components/transactions/TransactionList.tsx:56 | without a sort configuration the order is unchanged |
| TransactionList.Displayed | client/src/components/transactions/TransactionList.tsx:40-78 | the table is sorted and is a permutation of the filtered list, holding exactly the matching transactions |
| TransactionList.RequestSort | client/src/components/transactions/TransactionList.tsx:81-89 | the key becomes the clicked one; the direction is descending exactly when the same key was ascending |
| TransactionList.RequestSortToggles | client/src/components/transactions/TransactionList.tsx:81-89 | repeated clicks on one column alternate its direction: the second click flips it and the third gives the first click's configuration back |
| TransactionList.AllCategories | client/src/components/transactions/TransactionList.tsx:35-37 | every category present among the transactions, each exactly once |
| TransactionList.CategoryTotalFor | client/src/components/transactions/TransactionList.tsx:104-109 | the expense total of the named category, or 0 when nothing matches |
| TransactionList.CategoryIcon | client/src/components/transactions/TransactionList.tsx:112-124 | `+` exactly for the four income categories, and `-` for all others |
| ExpensesPieChart.FormatPointwise | client/src/components/dashboard/ExpensesPieChart.tsx:20-25 | split, capitalise, join keeps the length; it turns `_` into a space and upper-cases the first letter of each word |
| ExpensesPieChart.FormatCategoryName | client/src/components/dashboard/ExpensesPieChart.tsx:20-25 | same length as the label; each `_` becomes a space, each word's first character is upper-cased, and nothing else changes |
| ExpensesPieChart.FormatWithoutUnderscore | client/src/components/dashboard/ExpensesPieChart.tsx:20-25 | a label without `_` only gets its first character capitalised |
| ExpensesPieChart.FormatOtherIncome | client/src/components/dashboard/ExpensesPieChart.tsx:20-25 | `other_income` becomes `Other Income` |
| ExpensesPieChart.ChartData | client/src/components/dashboard/ExpensesPieChart.tsx:13-18 | one slice per total, in order, with its formatted name, its amount, its category and duration `1500 + 200*i` |
| ExpensesPieChart.SliceTotalIsTotalOf | client/src/components/dashboard/ExpensesPieChart.tsx:13-18 | the slices' values add up to the totals' amounts |
| ExpensesPieChart.ExpensesPie | client/src/components/dashboard/ExpensesPieChart.tsx:10-38 | "No expense data available" exactly when there is no expense; otherwise at least one slice, with the slices adding up to the total expenses |
| RegisterPage.HandleRegister | client/src/pages/Register.tsx:75-127 | the first failing check, in the order blank name, empty e-mail, empty password, empty confirmation, malformed e-mail, password under 6 UTF-16 code units, mismatch; `register` is called only when all pass, with the trimmed name and the lower-cased e-mail |
| RegisterPage.SubmittedPassesServerChecks | client/src/pages/Register.tsx:127 | what the page submits passes the server's input validation and name check |
| RegisterPage.NormalisedValuesPassServerChecks | client/src/pages/Register.tsx:101-111 | a well-formed e-mail, lower-cased, and a password of 6 or more UTF-16 code units pass `validateInput` |
| RegisterPage.TrimmedNameIsGiven | client/src/pages/Register.tsx:80 | a name that is not blank, once trimmed, passes the server's name check |
| RegisterPage.EmailLooksValid | client/src/pages/Register.tsx:33-53 | valid exactly when the regex matches, which excludes the empty e-mail |
| RegisterPage.PasswordLooksValid | client/src/pages/Register.tsx:56-73 | valid exactly when the password has at least 6 UTF-16 code units, as `password.length` counts them |
| RegisterPage.SubmitEnabled | client/src/pages/Register.tsx:336 | enabled exactly when not submitting, the e-mail matches the regex and the password has at least 6 UTF-16 code units |
| RegisterPage.SubmittedFormHasButtonEnabled | client/src/pages/Register.tsx:75-127 | a form that would be submitted has its button enabled |
| RegisterPage.EnabledButtonCanStillBeRejected | client/src/pages/Register.tsx:80-83 | an enabled button does not guarantee submission: a blank name is still rejected |
| LoginPage.HandleLogin | client/src/pages/Login.tsx:55-75 | "Please fill in all fields" for an empty field, then the format error; login is called only after both pass, with the fields as typed |
| LoginPage.ShortPasswordIsRejectedByServer | client/src/pages/Login.tsx:59-75 | the page sends short passwords, and the server answers them with the length error |
| LoginPage.ResetEmailLooksValid | client/src/pages/Login.tsx:26-46 | valid exactly when the panel is shown and the regex matches |
| LoginPage.HandleForgotPassword | client/src/pages/Login.tsx:88-108 | clears the message, then rejects an empty address and then a malformed one; it requests exactly when the address is well formed |
| LoginPage.ForgotSettled | client/src/pages/Login.tsx:108-116 | on success shows the server's message and clears the field and its validity; on failure shows the error and keeps the rest |
| LoginPage.ForgotRequestPassesServerChecks | client/src/pages/Login.tsx:93-108 | a request the panel sends is never answered with a 400 |
| LoginPage.BackToLogin | client/src/pages/Login.tsx:125-131 | hides the panel and clears the error, the message, the address and its validity |
| ResetPasswordPage.HandleResetPassword | client/src/pages/ResetPassword.tsx:21-45 | the length error, for fewer than 6 UTF-16 code units, wins over the mismatch error; a request goes to `/api/auth/reset-password/<token>` with the password exactly when both checks pass |
| ResetPasswordPage.ResetSettled | client/src/pages/ResetPassword.tsx:47-59 | success shows the server's message; a refusal shows its message, or "Password reset failed" when it has none; a failed fetch shows its error |
| ResetPasswordPage.SentPasswordPassesServerCheck | client/src/pages/ResetPassword.tsx:26-45 | a sent password is never refused as weak: the server succeeds exactly when the token is live |
| ResetPasswordPage.StaleTokenShowsServerMessage | client/src/pages/ResetPassword.tsx:49-59 | a stale token ends with "Invalid or expired reset token" on the page and no success line |
| Dashboard.GetTimeOfDay | client/src/pages/Dashboard.tsx:120-125 | morning exactly before 12, afternoon exactly from 12 to before 17, evening exactly from 17 |
| Dashboard.TypeColumn | client/src/pages/Dashboard.tsx:66 | the type column reads `Income` or `Expense` |
| Dashboard.RowOf | client/src/pages/Dashboard.tsx:61-68 | date, description and amount unchanged, the category column is `FormatCategoryName` of the label, and the type column reads `Income` for income and `Expense` for an expense |
| Dashboard.HandleExport | client/src/pages/Dashboard.tsx:38-107 | nothing to export exactly when the list is empty; otherwise the row of each transaction in list order, and a summary of the total income, the total expenses and a balance that is their difference and the signed sum of the amounts |

## Left out

- Password hashing, JWT signing and expiry, and `crypto.randomBytes` are not modelled. They are
  replaced by an injective symbolic digest, a verification function and fresh tokens passed in.
- MongoDB's I/O and errors are not modelled. Of the `timestamps` option only the transactions'
  `createdAt` is modelled, as the `now` passed to create; `updatedAt` and the users' timestamps
  are not. Server errors that reach a `catch` block are modelled only where the store decides them:
  - a duplicate id on register gives 400;
  - an unparsable date or a duplicate id on create gives 500.
- TransactionRoutes.ValidObjectId: `ObjectId.isValid` is modelled as "24 hexadecimal digits".
  It also accepts any 12-character string, read as 12 bytes, and the model rejects those. Casting
  such a string to an `ObjectId` is not modelled.
- TransactionRoutes.DeleteTransaction: a 12-character id such as `abcdefghijkl` gets 400
  "Invalid transaction ID" in the model. The server passes it to the query and answers 404
  "Transaction not found", or deletes the record whose id has those 12 bytes.
- Ids are compared as `ObjectId`s, with hexadecimal letters read without regard to case.
- AuthRoutes.Authenticate: the routes take `verify` for a server with `JWT_SECRET` set. Tokens
  are signed with `JWT_SECRET` or the fallback `'your-secret-key'`, but verified with
  `JWT_SECRET` alone. With the variable unset, every genuine token therefore gets 403
  "Invalid or expired token". `AuthRoutes.UnsetSecretDeniesEveryToken` states that case, but the
  dispatcher does not carry a flag for it.
- TransactionRoutes.OwnedNewestFirst: records with equal `createdAt` are listed latest inserted
  first. MongoDB leaves the order of such ties unspecified, so the model fixes one of the orders
  the database may return.
- Nodemailer is not modelled. Mail is two booleans: whether the transport is configured and
  whether delivery succeeds. `/api/health`, `/api/test-email`, CORS, Express routing and
  `api/index.js` are not modelled.
- Floating point is not modelled. Amounts are integer cents, so `parseFloat`, `toFixed` and
  locale number formatting do not appear.
- `amount.toString()` in the search box is an abstract function, because JavaScript's number
  formatting is outside the model.
- Dates and time zones are not modelled. A date is (year, 0-based month, day). `getTime()` is
  stood in for by a key that increases in that order. Month names are month indices.
- The date column of the export table keeps the `Date` value. `toLocaleDateString` is not
  modelled.
- `LexLess` is `<` on `seq<char>`, and JavaScript compares UTF-16 code units. The two agree on
  the Basic Multilingual Plane only.
- `ToLower`, `Capitalize` and related functions map case for ASCII letters only. JavaScript
  applies full Unicode case mapping.
- `Array.prototype.sort` is modelled as a stable insertion sort. It is stable as ECMAScript 2019
  requires. The proved order facts are sortedness, permutation, and that an already sorted list is
  unchanged. The position of equal rows in general is not stated.
- Only the list update that follows a server reply is modelled for the client's network and
  session plumbing:
  - `fetch` and `localStorage`;
  - `AuthContext.tsx` and the toasts;
  - `isLoading`.
- React rendering and effects are not modelled. A live-validation effect is modelled as the value
  it computes. `LoginPage.InSync` states that the stored flag equals that value.
- The live-validation messages ("Email format is valid" and the others) are not modelled, and
  neither are the `isChecking` flags. They only drive icons.
- The PDF document is not modelled: its layout, title, file name and `toFixed` output. The export
  is its rows and its summary.
- Navbar, theme toggle, landing page, stats cards, monthly bar chart and `utils.ts` are
  presentation only, and are not modelled.
