# subman-be core, modelled in Dafny

subman-be is an Express/MySQL backend for tracking recurring subscriptions.
Users record what they pay for and receive web-push reminders when a billing
date is near. Nearly every handler wraps one SQL statement. This project
models the parts that carry decision logic or data transformation, and proves
what they promise:

- **The due-subscription notification job** (`NotifyJob`):
  - selection of rows whose billing day is today or tomorrow;
  - grouping into a per-user dictionary, as an imperative loop over a `map`;
  - one aggregated reminder per user, with a singular or plural body;
  - fan-out to every registered push endpoint, as a loop that swallows send
    failures;
  - the whole pass, where a failing endpoint fetch aborts everything after it.
- **The subscriptions table** (`SubscriptionModel`) and its router
  (`SubscriptionRoutes`):
  - billing-cycle lower-casing and checking;
  - `||` defaults;
  - ownership scoping of reads, updates and deletes, with "nothing else
    changes" lemmas.
- **The push-endpoint registry** (`PushModel`, `PushRoutes`): payload checks,
  REPLACE on (user, endpoint), delete, and select by user.
- **The categories route** (`Categories`): an order-preserving,
  duplicate-free union of the builtin list with the user's truthy categories.
- **The profile update builder** (`UserProfile`): two parallel lists of SET
  fragments and bound values, built push by push. The `?` placeholders and
  the bound values always match in number.
- **The guards** (`AuthGuards`):
  - bearer-token extraction by `split(' ')`;
  - jwt verification as an oracle;
  - the user router's `dev_secret` fallback;
  - `requireRole` and `requireAdmin`.
- **The exchange-rate cache** (`CurrencyRates`):
  - the 12-hour staleness test in milliseconds;
  - the upsert loop over the catalogue, which skips falsy rates and stops at
    the first failing write;
  - `getAllCurrencies`, which runs the refresh check before reading.
- **The admin trigger** (`AdminRoute`): the shared-secret guard and the
  mapping of the job's outcome to a reply, as written and as evidently
  intended (see Findings).

Two helper modules support the rest:

- `Js`: JavaScript values, truthiness, `||`, ASCII `toLowerCase`, and the
  number-to-text conversion of template literals.
- `Seqs`: a generic filter, first-occurrence de-duplication, and join, with
  their lemmas.

Tables are classes with a `rows` field that the insert, update and delete
methods reassign. SELECTs are functions over `rows`. Every foreign call is a
parameter:

- a failing query is a `dbError` flag;
- web-push delivery is `sendOk`;
- the endpoint fetch is `fetchFails`;
- jwt verification is a `Verifier`, handed the secret as configured (unset included);
- bcrypt is a `Hasher`;
- the rate service's answer is `fetched`;
- the clock is `now`, `today` and `updated`;
- uuid generation is `newId`;
- the date text in a reminder is `formatDate`.

The notification job, as src/notifyDueSubscriptions.js:14-63 has it:

- it sends one aggregated message per user, whatever the number of that
  user's due subscriptions;
- it selects rows by billing date alone, with no filter on any other column;
- a failing endpoint fetch aborts the pass, like a failing due query, while a
  refused send is caught and the pass goes on.

## Model

| member | source | states |
|---|---|---|
| Js.OrTruthy | src/models/subscription.js:16 | `v \|\| d` with a truthy default is truthy and keeps a truthy `v` |
| Js.Lower | src/routes/subscriptions.js:45-47 | lower-casing keeps the length and maps each character, leaving no upper-case ASCII letter |
| Js.LowerIdempotent | src/routes/subscriptions.js:45-47 | lower-casing a lower-cased cycle changes nothing |
| Js.NatToStringRoundTrip | src/notifyDueSubscriptions.js:56 | the decimal text of a count reads back as that count |
| Js.NatToStringInjective | src/notifyDueSubscriptions.js:56 | different counts give different texts |
| Seqs.DedupConcat | src/routes/categories.js:32 | de-duplicating `s + t` is de-duplicated `s` followed by the first occurrences of `t`'s elements not in `s` (Set insertion order) |
| SubscriptionModel.SelectByUser | src/models/subscription.js:3-6 | exactly the rows whose `user_id` is the user |
| SubscriptionModel.SelectById | src/models/subscription.js:8-11 | a returned row is in the table and matches both id and user; nothing is returned iff no row matches both |
| SubscriptionModel.UpdateWhere | src/models/subscription.js:20-25 | same rows in the same places; id and user_id never change; unmatched rows unchanged; matched rows carry the eleven new columns, with currency defaulted to 'USD' |
| SubscriptionModel.DeleteWhere | src/models/subscription.js:27-29 | the remaining rows are exactly the rows not matching (id, user) |
| SubscriptionModel.UpdateForeignIsNoop | src/models/subscription.js:20-25 | an update naming an id the caller does not own leaves the table unchanged |
| SubscriptionModel.DeleteForeignIsNoop | src/models/subscription.js:27-29 | a delete naming an id the caller does not own leaves the table unchanged |
| SubscriptionModel.DeleteKeepsOtherUsers | src/models/subscription.js:27-29 | a delete by one user leaves every other user's selection identical |
| SubscriptionModel.UpdatePreservesUniqueIds | src/models/subscription.js:20-25 | an update keeps the primary key unique |
| SubscriptionModel.DeletePreservesUniqueIds | src/models/subscription.js:27-29 | a delete keeps the primary key unique |
| SubscriptionModel.SelectAfterInsert | src/models/subscription.js:8-18 | a created row is found again under its id and owner, with currency defaulted |
| SubscriptionModel.SelectAfterUpdate | src/models/subscription.js:8-25 | after an update the owner reads back the row with the new columns |
| SubscriptionModel.SelectAfterDelete | src/models/subscription.js:8-29 | after a delete the owner finds no row under that id |
| SubscriptionModel.SubscriptionTable.Create | src/models/subscription.js:13-18 | the insert succeeds iff the query works and the id is new; the table is then the old one plus the defaulted row, otherwise unchanged |
| SubscriptionModel.SubscriptionTable.Update | src/models/subscription.js:20-25 | the table becomes `UpdateWhere` of the old table, or stays unchanged on a query failure |
| SubscriptionModel.SubscriptionTable.Delete | src/models/subscription.js:27-29 | the table becomes `DeleteWhere` of the old table, or stays unchanged on a query failure |
| SubscriptionRoutes.CheckCycle | src/routes/subscriptions.js:44-60 | accepted iff a string whose lower-case form is one of the five cycles (stored lower-cased); throws iff truthy and not a string; otherwise one `billing_cycle` field error carrying the normalised value |
| SubscriptionRoutes.CheckCycleExamples | src/routes/subscriptions.js:44-60 | "MONTHLY" becomes "monthly"; "Daily" and a missing cycle are refused; a number throws |
| SubscriptionRoutes.DecideCreate | src/routes/subscriptions.js:44-80 | a write happens iff the cycle is accepted and the other validators found nothing; the cycle check comes first; the row has the fresh id, the token's user id, an allowed lower-case cycle and the ''/null/'USD' defaults |
| SubscriptionRoutes.DecideUpdate | src/routes/subscriptions.js:103-137 | the same decision for PUT; the eleven columns carry the body with its defaults |
| SubscriptionRoutes.CreatedRowStoredAsBuilt | src/routes/subscriptions.js:66-81 | the model's own currency default changes nothing in a handler-built row, and its cycle is already lower case |
| SubscriptionRoutes.ListReply | src/routes/subscriptions.js:10-17 | 500 iff the query fails; otherwise exactly the caller's rows |
| SubscriptionRoutes.GetReply | src/routes/subscriptions.js:20-28 | 404 iff no row matches both the id and the caller; a found row belongs to the caller |
| SubscriptionRoutes.ForeignIdNotFound | src/routes/subscriptions.js:20-28 | another user's subscription id gives 404 |
| SubscriptionRoutes.PostSubscription | src/routes/subscriptions.js:43-86 | refused requests leave the table unchanged; otherwise 201 with the new row appended, or 500 with the table unchanged |
| SubscriptionRoutes.PutSubscription | src/routes/subscriptions.js:102-143 | refused requests change nothing; otherwise only the (route id, token user) row is updated |
| SubscriptionRoutes.DeleteSubscriptionRoute | src/routes/subscriptions.js:147-154 | only the caller's row with that id is removed; 200 even if none matched |
| PushModel.EndpointsOf | src/models/pushSubscription.js:17-23 | exactly the rows of the user |
| PushModel.Replace | src/models/pushSubscription.js:3-8 | the new row is present, and every other row is an old row that does not clash on (user, endpoint) |
| PushModel.RemoveWhere | src/models/pushSubscription.js:10-15 | the remaining rows are exactly those not keyed (user, endpoint) |
| PushModel.ReplaceKeepsKeyUnique | src/models/pushSubscription.js:3-8 | REPLACE keeps one row per (user, endpoint), and that row is the new one |
| PushModel.RemoveKeepsKeyUnique | src/models/pushSubscription.js:10-15 | a delete keeps the key unique |
| PushModel.RemoveThenSelect | src/models/pushSubscription.js:10-23 | after remove(u, e), u's endpoints no longer include e |
| PushModel.RemoveKeepsOtherUsers | src/models/pushSubscription.js:10-15 | remove(u, e) leaves every other user's endpoints identical, even for the same endpoint |
| PushModel.AddThenSelect | src/models/pushSubscription.js:3-23 | after add, the user's endpoints include the new row |
| PushModel.PushTable.Add | src/models/pushSubscription.js:3-8 | the table becomes `Replace` of the old table, or stays unchanged on failure |
| PushModel.PushTable.Remove | src/models/pushSubscription.js:10-15 | the table becomes `RemoveWhere` of the old table, or stays unchanged on failure |
| PushRoutes.RowFor | src/routes/pushNotifications.js:9-19 | a payload is refused iff endpoint, keys, keys.p256dh or keys.auth is falsy; an accepted one becomes (token user, endpoint, p256dh, auth) |
| PushRoutes.Subscribe | src/routes/pushNotifications.js:8-24 | 400 and no change for a bad payload; 500 and no change on failure; otherwise 201 and the row REPLACEd |
| PushRoutes.Unsubscribe | src/routes/pushNotifications.js:27-36 | 400 and no change without an endpoint; otherwise only the caller's row for that endpoint is removed, or 500 and no change |
| NotifyJob.SelectDue | src/notifyDueSubscriptions.js:17-21 | every row in [today, today+1] is selected, and only such rows; no other column takes part |
| NotifyJob.SelectDueGroups | src/notifyDueSubscriptions.js:17-27 | each user's group of due rows is one row per due subscription of that user, in table order, so its size is the number of that user's due subscriptions |
| NotifyJob.GroupOf | src/notifyDueSubscriptions.js:23-27 | a user's group holds exactly that user's due rows |
| NotifyJob.GroupByUser | src/notifyDueSubscriptions.js:23-28 | the dictionary's keys are the users in order of first due row; each key maps to that user's rows in query order |
| NotifyJob.GroupsNonEmpty | src/notifyDueSubscriptions.js:23-27 | no group is empty |
| NotifyJob.GroupSizesSum | src/notifyDueSubscriptions.js:23-27 | the group sizes add up to the number of due rows, so every row is in exactly one group |
| NotifyJob.ReminderBody | src/notifyDueSubscriptions.js:52-57 | a one-row group gets "Your subscription \"…" ending in that row's formatted date; any other group gets "You have N subscriptions due soon!" where N reads back as the group size |
| NotifyJob.PluralBodyStatesCount | src/notifyDueSubscriptions.js:52-57 | a plural body determines its count: equal plural bodies mean equal group sizes |
| NotifyJob.SingleBodyNotPlural | src/notifyDueSubscriptions.js:52-57 | a one-row body ("Your subscription ...") never equals a plural one |
| NotifyJob.Plan | src/notifyDueSubscriptions.js:49-63 | one notice per dictionary key, in key order, each carrying the reminder built from that user's own group, with the fixed title and url |
| NotifyJob.OneNoticePerUser | src/notifyDueSubscriptions.js:51-62 | a user with due rows gets exactly one notice, whatever the number of rows; other users get none |
| NotifyJob.SendPushToUser | src/notifyDueSubscriptions.js:31-47 | a failed fetch gives no attempts; otherwise one attempt per endpoint of the user, in order, each with the message, and a refused send does not end the loop |
| NotifyJob.AttemptCount | src/notifyDueSubscriptions.js:32-46 | the number of attempts is the number of (notice, endpoint) pairs; a user with no endpoint costs none |
| NotifyJob.DispatchCompletes | src/notifyDueSubscriptions.js:49-63 | with no fetch failure the pass completes and makes every send |
| NotifyJob.DispatchAbortsAt | src/notifyDueSubscriptions.js:49-63 | the first failing endpoint fetch ends the pass: earlier users got all their sends, that user and later users none |
| NotifyJob.SendFailuresDoNotStopPass | src/notifyDueSubscriptions.js:33-46 | whatever the push service refuses, the pass ends the same way and makes the same sends |
| NotifyJob.SendsCarryOwnReminder | src/notifyDueSubscriptions.js:51-62 | every send carries its recipient's own reminder |
| NotifyJob.NotifyDueSubscriptions | src/notifyDueSubscriptions.js:49-65 | a failed due query gives no sends; otherwise the pass is exactly the dispatch of the plan for the due rows |
| Categories.BuiltinShape | src/routes/categories.js:5-18 | twelve builtin categories, distinct and truthy |
| Categories.UserCategoryRows | src/routes/categories.js:26-29 | the distinct non-NULL categories of the caller's rows, each once |
| Categories.MergeCategories | src/routes/categories.js:30-32 | the builtins followed by the first occurrences of the truthy user categories not already builtin; no duplicates; at most 12 + n entries; membership iff builtin or a truthy user category |
| Categories.MergeKeepsOnlyTruthy | src/routes/categories.js:5-32 | the first twelve entries are the builtins in declared order, and no entry is falsy |
| Categories.CategoriesReplyFor | src/routes/categories.js:23-37 | 500 iff the query fails; otherwise every truthy category of the caller's rows is listed |
| AuthGuards.Split | src/middleware/auth.js:5 | `split(' ')` gives at least one piece and no piece contains a space |
| AuthGuards.SplitJoin | src/middleware/auth.js:5 | joining the pieces with ' ' gives the header back |
| AuthGuards.JoinSplit | src/middleware/auth.js:5 | splitting a ' '-join of space-free pieces gives the pieces back |
| AuthGuards.TokenOf | src/middleware/auth.js:4-5 | no header gives the falsy token; a token never contains a space, and a non-empty one comes only from a header with a space |
| AuthGuards.SecondPieceIsToken | src/middleware/auth.js:5 | for a header made of two or more space-free pieces joined by ' ', the token is exactly the second piece |
| AuthGuards.BearerToken | src/middleware/auth.js:4-6 | "scheme token" yields the token; "Bearer " yields the empty (falsy) token |
| AuthGuards.NoSpaceNoToken | src/middleware/auth.js:4-6 | a header without a space yields no token |
| AuthGuards.DoubleSpaceNoToken | src/middleware/auth.js:5-6 | a double space leaves the token empty |
| AuthGuards.Authenticate | src/middleware/auth.js:3-12 | 401 iff no token; 403 iff a token that the verifier rejects under the configured (possibly unset) secret; otherwise `next` with the verified claims; exactly one outcome |
| AuthGuards.LocalSecret | src/routes/user.js:13 | the configured secret when set, never empty |
| AuthGuards.AuthenticateLocal | src/routes/user.js:9-18 | 401 iff no token; 403 iff verification under the (fallback) secret fails; otherwise `next` |
| AuthGuards.LocalGuardAgrees | src/routes/user.js:9-18 | with a configured secret both guards agree; without one the local guard is the shared one under 'dev_secret' |
| AuthGuards.RequireRole | src/middleware/auth.js:14-22 | `next` iff a user exists whose role equals the required one; otherwise a bare 403 |
| AuthGuards.RequireAdmin | src/middleware/auth.js:24-29 | `next` iff `requireRole('admin')` would call it; otherwise 403 with 'Admin access required' |
| UserProfile.BuildProfileUpdate | src/routes/user.js:41-55 | fails iff a truthy password cannot be hashed; 400 iff nothing to update; otherwise the statement over the requested assignments plus the timestamp, with the values followed by the user id |
| UserProfile.RequestedColumns | src/routes/user.js:44-51 | name and email only when truthy; avatar_url whenever not undefined; password only when truthy and hashed |
| UserProfile.RequestedValues | src/routes/user.js:44-51 | each bound value is the body's own value, except the password, which is bound only to its hash |
| UserProfile.PlaceholdersMatchValues | src/routes/user.js:53-55 | the number of `?` in the statement equals the number of bound values |
| UserProfile.CurrencyReplyFor | src/routes/user.js:71-75 | 'USD' when the row or its currency is missing or falsy, otherwise the stored currency; a failing query leaves the request unanswered |
| CurrencyRates.MaxUpdated | src/utils/currencyRates.js:9-10 | NULL iff the table is empty; otherwise the largest `last_updated` |
| CurrencyRates.FreshBoundary | src/utils/currencyRates.js:12 | an age of 12 h minus 1 ms skips the refresh; exactly 12 h, or no rows at all, refreshes |
| CurrencyRates.Writes | src/utils/currencyRates.js:22-28 | only catalogue codes with a truthy fetched rate are written, with the catalogue name and the pass's timestamp; each such code is written once |
| CurrencyRates.Upsert | src/utils/currencyRates.js:25-28 | the new row is present and is the only row with its code; rows of other codes are untouched; codes stay unique |
| CurrencyRates.UpsertAllEffect | src/utils/currencyRates.js:22-29 | codes not written keep their rows; a written code's row is one of the writes; with distinct codes every write is in the table |
| CurrencyRates.RefreshEffect | src/utils/currencyRates.js:20-29 | after a full refresh each catalogue code with a truthy rate holds exactly the new row; every other code keeps its rows |
| CurrencyRates.CurrencyTable.UpdateIfNeeded | src/utils/currencyRates.js:7-30 | max-query failure, skip (newest row under 12 h old) and fetch failure are each an iff on the inputs and change nothing; a completed pass applied every write; a failing write leaves exactly the writes before it applied |
| CurrencyRates.RefreshThrows | src/utils/currencyRates.js:7-30 | the refresh throws iff the max query fails, or the refresh is due and the fetch fails or one of its writes throws |
| CurrencyRates.CurrencyTable.UpsertRates | src/utils/currencyRates.js:22-29 | the loop performs the writes in catalogue order and stops at the first write that throws |
| CurrencyRates.CurrencyTable.GetAll | src/utils/currencyRates.js:32-36 | the refresh runs first and leaves the table as its outcome says; the rows are returned iff the refresh did not throw and the read succeeds, i.e. iff neither query fails and the table was fresh or every write succeeded; the rows returned are the table after the refresh |
| AdminRoute.UnsetSecretRejectsAll | src/routes/admin.js:9-16 | an unset or empty secret rejects every request |
| AdminRoute.NotifyRouteAsWritten | src/routes/admin.js:11-23 | 403 iff the header is missing or differs from the secret; never 'Notifications sent' |
| AdminRoute.AuthorisedCallAlwaysFails | src/routes/admin.js:6-22 | an authorised call always gets 500 "notifyDueSubscriptions is not a function" |
| AdminRoute.NotifyRoute | src/routes/admin.js:11-23 | 403 iff unauthorised; 'Notifications sent' iff authorised and the job completes; 500 with the error message otherwise |
| AdminRoute.ReplyIgnoresSendFailures | src/routes/admin.js:17-22 | the reply does not depend on which pushes the push service refuses |
| AdminRoute.AuthorisedCompletePassSucceeds | src/routes/admin.js:17-22 | an authorised call whose endpoint fetches succeed reports success |
| AdminRoute.PostNotifyDueSubscriptions | src/routes/admin.js:11-23 | a rejected request runs no part of the job; an accepted one replies from the job's outcome and makes exactly the job's sends |

## Left out

- Floating point: prices and exchange rates are `JsVal` payloads (`Num` is an integer), and only their truthiness matters. NaN and `isNumeric` are not modelled.
- `toLowerCase` is modelled for ASCII letters only; Unicode case mapping (e.g. 'K' KELVIN SIGN) is not.
- SQL result order: SELECTs return rows in table order, and DISTINCT keeps first occurrences. MySQL promises neither without ORDER BY.
- The text JavaScript writes for a `Date` in the reminder body is the parameter `formatDate`. The DB clock (`CURDATE()`) and its time zone are the parameter `today`, a day number.
- express-validator's checks are given as their collected error list (`validation`). Which of the other field errors they produce is not modelled.
- uuid, jwt, bcrypt, web-push, axios and the MySQL driver are oracles or failure flags. VAPID setup and payload encryption are not modelled.
- Concurrency: overlapping job runs, and interleaving of the awaits in different requests. Every handler and the job are one sequential pass.
- Express plumbing: `src/index.js` (which does not mount the admin router), error-to-status behaviour for throws outside a `try` (`Uncaught`, `CurrencyUnhandled`), and user ids that are JavaScript prototype keys.
- GET `/profile`, the re-read and echo of the user after PUT `/profile`, PUT `/currency` and GET `/currencies` are plain pass-throughs. Only the reads that `getAllCurrencies` performs are modelled.
- `src/schedule.js` (a cron trigger that spawns the job), `src/routes/auth.js`, and the pages, version, popular-services and feedback routes and models are not part of this model.
- The unique key of the push table is not visible in the source; it is taken to be (user_id, endpoint). `id` is taken to be the subscriptions primary key, and `code` the currencies primary key.
- NotifyJob.ReminderBody: the contract states the singular body's prefix and its trailing date, not the quoted name between them (the template over `ToText(name)`).
- String equality in SQL: `WHERE` comparisons, `SELECT DISTINCT` and the unique keys compare strings exactly (binary collation). Under MySQL's default case-insensitive collations "Gaming" and "gaming" are one category and an upper-cased uuid matches its row; the schema is not part of this model, so that is not captured.
- Dates: `next_billing_date` arrives as an ISO-8601 string and MySQL stores it as a DATE; the model takes it as an integer day number. The string-to-DATE conversion is not modelled, including the time-of-day and offset part it drops.
- CurrencyRates.MaxUpdated: `last_updated` is never NULL in the model (`lastUpdated: int`), so MAX is NULL only for an empty table. MySQL's MAX skips NULL values; every write in src/utils/currencyRates.js:25-27 stores a timestamp, but rows written by other means could hold NULL.
- Categories.UserCategoryRows: mysql2's binding of `undefined` as NULL is folded into `IsSqlNull`.

## Findings

| source | as written | input that shows it | evidently intended | confidence | as-written member | corrected member |
|---|---|---|---|---|---|---|
| src/routes/admin.js:6 | the route imports `../notifyDueSubscriptions`, which assigns nothing to `module.exports` (src/notifyDueSubscriptions.js:67-69), and then calls the empty import object | any POST with `x-admin-secret` equal to `ADMIN_NOTIFY_SECRET` | the route runs the notification pass, and replies 'Notifications sent' or 500 with the job's error | not executed | AdminRoute.AuthorisedCallAlwaysFails | AdminRoute.NotifyRoute |
