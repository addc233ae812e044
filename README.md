# Referral-credit ledger of the e-book store backend

This project models the referral-credit core of the store's backend as one
sequential state machine over an in-memory store. The store holds:

- the users collection, a map from user id to
  `{email, referralCode, credits, referredBy?, hasMadeFirstPurchase}`;
- the ids of the products that exist;
- the append-only purchase log.

Three controllers act on it:

- **Purchase** (`simulatePurchase`): looks up the buyer and the product, logs
  the purchase, and on the buyer's first purchase only sets the flag and gives
  2 credits to the buyer and 2 to the referrer. A referrer that is not found
  is logged and ignored.
- **Registration** (`registerUser`, without hashing and token): rejects a
  known email, resolves an optional referral code to a referrer, draws
  `nanoid(8).toUpperCase()` codes until one is free, and inserts the account
  with the schema defaults.
- **Dashboard** (`getDashboardData`): a read-only count of the caller's
  referees and converted referees, credits earned (2 per conversion), the
  referral link and the caller's balance.

Layout, one module per file:

- `outcomes.dfy` (`Outcomes`): `Option`, `Result` and the error replies.
- `user_model.dfy` (`UserModel`): the User document, its defaults, the
  lower-casing setter and the schema's uniqueness constraints; the lookups by
  email and by code.
- `database.dfy` (`Database`): the store as a value `State`, and its
  invariant `Valid`.
- `purchase_controller.dfy`, `auth_controller.dfy`,
  `dashboard_controller.dfy`: each controller as a specification function:
  purchase and registration on the whole store `State`, the read-only
  dashboard on the users map. The `ensures` of each function states what
  the controller promises.
- `referrals.dfy` (`Referrals`): the invariant that ties the three
  controllers together. Every balance equals the account's own
  first-purchase bonus plus the credits its dashboard reports as earned. It
  is preserved by every call, so it holds after any sequence of
  registrations and purchases from an empty store. The module also proves
  that the bonus is paid once however many purchases follow.
- `account_store.dfy` (`AccountStore`): the class `Store`, whose fields are
  the collections. Its methods perform the two controllers that change state,
  purchase and registration, step by step as the source does, and are
  proved to match their specification functions.
- `scenarios.dfy` (`Scenarios`): concrete runs. R registers. A registers
  with R's code. A buys twice. R's dashboard then shows one referee and one
  conversion.

Store calls (`findById`, `findOne`, `find`, `create`, `findByIdAndUpdate`,
`save`) are map operations. A new user's ObjectId is the store's `nextId`
counter. The values `nanoid(8)` returns on one registration are a parameter,
`draws`.

The code has no event-id idempotency ledger and no atomic set-once flag.
It reads the user, flips the flag in memory and saves. The model follows
the code.

## Model

| member | source | states |
|---|---|---|
| UserModel.LowerCase | src/models/User.model.ts:14 | the stored email keeps its length, has no upper-case letter, shifts each upper-case letter to lower case and keeps every other character; an already lower-case email is unchanged |
| UserModel.NewAccount | src/models/User.model.ts:13-21 | a created user has 0 credits, has not bought, holds the given code and referrer, and stores its email lower-cased |
| UserModel.FindByCode | src/controllers/auth.controller.ts:44 | a lookup by code returns an account that holds the code, and returns none exactly when no account holds it |
| Database.InsertKeepsValid | src/models/User.model.ts:14-16 | inserting a lower-cased email and a code that no account holds, under a new id, keeps emails and codes unique; a referrer that already exists keeps every referrer resolvable |
| UserModel.EmailTakenUpToCase | src/controllers/auth.controller.ts:35-36 | with every stored email lower-cased, the duplicate check on the lower-cased email finds an account exactly when some stored email equals the given one up to letter case |
| UserModel.FindByCodeUnique | src/controllers/auth.controller.ts:44-45 | with unique codes, the lookup by referral code finds exactly the one account that holds the code |
| UserModel.ValidAccounts | src/models/User.model.ts:14-16 | the schema's constraints on the users collection (unique emails, unique codes, lower-cased emails) make every stored email a fixed point of the lower-casing setter |
| Database.Valid | src/models/User.model.ts:13-21 | besides the schema's constraints, the store keeps every id in use below the counter, so the id the next user gets belongs to nobody, and keeps no account its own referrer, which the schema does not enforce but `registerUser` ensures by resolving the referrer before the account exists (src/controllers/auth.controller.ts:44,68) |
| PurchaseController.CreditReferrer | src/controllers/purchase.controller.ts:51-61 | the `$inc` keeps the set of users and raises only the found referrer's credits, by 2; a missing referrer changes nothing |
| PurchaseController.RewardFirstPurchase | src/controllers/purchase.controller.ts:42-66 | after the first-purchase block the buyer is flagged with 2 more credits (the saved copy wins, even for a self-referral), the referrer has 2 more, and no other account changes |
| PurchaseController.RewardKeepsConstraints | src/controllers/purchase.controller.ts:42-66 | the first-purchase block keeps the set of users, only raises credits and sets flags, and keeps the store's constraints |
| PurchaseController.Purchase | src/controllers/purchase.controller.ts:15-84 | an unknown user gives "User not found" and an unknown product "Product not found", both with no change; a call past both lookups always succeeds and logs exactly one record (user, product); a repeat buyer changes no account; a first buyer gets the flag and exactly 2 credits; the referrer, when found, gets exactly 2 and no other account changes; an unresolved referrer still succeeds; the reply is the buyer's new credits and flag; credits never fall and flags never revert |
| AuthController.UpperCase | src/controllers/auth.controller.ts:60 | upper-casing keeps the length, shifts lower-case letters and keeps other characters; a `nanoid(8)` value becomes an 8-character code over `A-Z0-9_-` |
| AuthController.FirstFreeCode | src/controllers/auth.controller.ts:56-65 | the loop's code is the first upper-cased draw that no account holds, every earlier draw being taken; there is none exactly when every draw is taken |
| AuthController.ResolveReferrer | src/controllers/auth.controller.ts:42-50 | a referrer exists exactly when a non-empty code is supplied and some account holds it, and it is that account |
| AuthController.Register | src/controllers/auth.controller.ts:30-95 | a known (lower-cased) email gives "User already exists" with no change; a new email always succeeds, whether or not the referral code is found, and adds exactly one account under an id no account had, and existing accounts are untouched; the new account has 0 credits, no purchase, the lower-cased email, the first upper-cased draw that no account held as its code and the resolved referrer, which is never itself; the reply carries credits 0 and the new code; the store's constraints are kept |
| DashboardController.Referees | src/controllers/dashboard.controller.ts:16 | the accounts referred by the caller; under the store's constraints the caller is never among them |
| DashboardController.Converted | src/controllers/dashboard.controller.ts:21 | the converted users are among the referees |
| DashboardController.GetDashboardData | src/controllers/dashboard.controller.ts:5-42 | an unknown caller gives "User not found"; otherwise the referee count is the number of accounts referred by the caller, the converted count the number of those who have bought and at most the referee count, credits earned are 2 per conversion, the balance is the caller's credits, and the link is the fixed prefix followed by the caller's code |
| Referrals.ConvertedAfterFirstPurchase | src/controllers/dashboard.controller.ts:16-21 | when one account's flag goes from false to true, only its referrer's converted set changes, and it gains exactly that account |
| Referrals.FirstPurchaseKeepsCredits | src/controllers/purchase.controller.ts:45-57 | a first purchase keeps every balance equal to 2·[own flag] + 2·(converted referees) |
| Referrals.PurchaseKeepsConsistent | src/controllers/purchase.controller.ts:15-84 | every purchase call keeps the store's constraints, resolvable referrers and the balance equation |
| Referrals.NewAccountKeepsCredits | src/controllers/auth.controller.ts:68-73 | inserting a fresh account with 0 credits and an existing referrer keeps the balance equation for old and new accounts |
| Referrals.RegisterKeepsConsistent | src/controllers/auth.controller.ts:30-95 | every registration keeps the store's constraints, resolvable referrers and the balance equation |
| Referrals.Step | src/controllers/purchase.controller.ts:15-84 | one call of either controller keeps the constraints; every account stays, with the same email, code and referrer, credits no lower and a flag that does not revert |
| Referrals.Run | src/controllers/purchase.controller.ts:42-48 | over any sequence of calls, credits never fall, flags never go back to false and referrers never change |
| Referrals.RunKeepsConsistent | src/controllers/dashboard.controller.ts:24 | the balance equation holds after any sequence of registrations and purchases |
| Referrals.BalanceMatchesDashboard | src/controllers/dashboard.controller.ts:24-35 | from an empty store, after any calls, each dashboard's balance is 2·[own flag] plus its reported credits earned |
| Referrals.RepeatPurchasesChangeNoAccount | src/controllers/purchase.controller.ts:38-42 | once a user has bought, any further purchases change no account and only append their records to the log |
| Referrals.BonusPaidOnce | src/controllers/purchase.controller.ts:42-66 | for a known user and one or more purchases of products in the catalogue, the accounts end as the first purchase alone leaves them, so the buyer's and the referrer's bonus is paid once; every purchase is logged |
| AccountStore.Store.SimulatePurchase | src/controllers/purchase.controller.ts:15-84 | the in-place handler leaves exactly the store and reply given by `Purchase`, and keeps the store valid |
| AccountStore.Store.GrantFirstPurchaseBonus | src/controllers/purchase.controller.ts:42-66 | the in-place first-purchase block credits the found referrer, then saves the flagged and credited buyer |
| AccountStore.Store.FindReferrer | src/controllers/auth.controller.ts:42-50 | the step that resolves the code returns the referrer `ResolveReferrer` names |
| AccountStore.Store.DrawFreeCode | src/controllers/auth.controller.ts:56-65 | the do-while loop ends on the first free upper-cased draw |
| AccountStore.Store.RegisterUser | src/controllers/auth.controller.ts:30-95 | the in-place handler leaves exactly the store and reply given by `Register`, and keeps the store valid |
| Scenarios.FirstPurchasePaysBoth | src/controllers/purchase.controller.ts:42-74 | A, referred by R, buys for the first time: both reach 2 credits and the reply is (2, true) |
| Scenarios.SecondPurchasePaysNobody | src/controllers/purchase.controller.ts:26-42 | A's second purchase is logged and changes no account; an unknown product or user is refused with no change |
| Scenarios.DashboardAfterConversion | src/controllers/dashboard.controller.ts:16-36 | R's dashboard then shows the link with R's code, 1 referee, 1 conversion, 2 earned and a balance of 2 |
| Scenarios.RegisterWithoutCode | src/controllers/auth.controller.ts:35-83 | R registers with a mixed-case email and no code: id 0, the lower-cased email, 0 credits, the upper-cased draw |
| Scenarios.RegisterWithCode | src/controllers/auth.controller.ts:42-73 | A registers with R's code: referred by R; the first draw is R's code, so the second one is used |
| Scenarios.RegisterSameEmailAgain | src/controllers/auth.controller.ts:35-38 | the same email in other letter case is refused with no change |

## Left out

- Password hashing and checking (bcrypt), token signing (JWT), `loginUser` and the authentication middleware: these are foreign cryptographic calls, and the caller is taken as authenticated.
- The "User not authenticated" reply of `simulatePurchase`: the caller is always authenticated here.
- Request validation (zod schemas, `ObjectId.isValid`, the email format, the password length) and its 400 replies: inputs are taken as well-formed.
- The 500 "Server Error" replies: the in-memory store never fails.
- The "Invalid user data" branch after `User.create`: `create` always returns the document here.
- `setupProducts`, `getProducts` and the product model: the catalogue is a set of ids fixed when the store is built.
- Logging (`console.warn`, `console.error`) and HTTP status codes: only the error kind is kept.
- `createdAt`, the timestamps and the password field of the User document: nothing reads them.
- Concurrency and partial failure: the model is sequential. It does not capture the race between two concurrent first purchases in the read-flip-save sequence. It does not capture the case where the referrer's increment is stored and the buyer's save then fails.
- An event-id idempotency ledger: the code has none, so it is not modelled.
- `nanoid` randomness: the draws of one registration are a parameter. `RegisterUser` requires the email to be known or some draw to be free, since otherwise the loop never ends. In a run of calls, such a registration never returns and changes nothing.
- ObjectId generation: new users get the next value of a counter.
- UserModel.LowerCase: maps only the ASCII letters, not the full Unicode case mapping of `toLowerCase`.
- AuthController.UpperCase: maps only the ASCII letters, which is all that `nanoid`'s alphabet holds.
- Number semantics: credits are unbounded naturals, not JavaScript floating-point numbers.
- The duplicate-email lookup uses the lower-cased email, since Mongoose applies the `lowercase` setter to query values as well.
