# jinleeWeb money and voucher engine, modelled in Dafny

jinleeWeb is the web front end of a Discord community that books companions (陪玩) for
games. Members sign in with Discord and hold a balance on the site. They top the balance
up through the ZPay gateway, which confirms each payment with a signed callback. They can
also withdraw their income. A host who finished an order can spend a 9折 coupon or a
discount lottery prize to get part of the order's fee back as a rebate. Lottery draws are
given to other members as gifts or used by their owner. Special vouchers are redeemed
through the community bot's internal API.

Around this money engine sit a number of pure parsers and validators:

- the signed session cookie and the Discord OAuth callback;
- the listing-profile form normaliser and its constants;
- the administrators' profile, referral and allow-list rules;
- the public companion listing with its seeded shuffle;
- the recommended cards folder;
- the ledger shown on the profile and admin pages;
- the heart-tier page.

The model follows the program's structure, one module per source file or concern:

- **Database.** The tables are the `Store.Db` class, with one map per table and
  append-only sequences for the ledger, recharge and withdrawal rows. Every handler that
  writes is a method over a `Db`. It states its whole new state and keeps `Db.Valid()`:
  rows sit under their own keys, each member owns at most one listing profile, and every
  ledger row balances (`balanceBefore + amountChange == balanceAfter`).
- **Loops.** Where the source works step by step (the notify parameter loop, the heart
  tier loop, the hash and `mulberry32` generator, the Fisher–Yates swaps, the upload
  loop, the tag and price loops of the form normaliser), the model is a method with its
  loop invariants. Each such method is proved equal to a specification function.
- **Pure code.** Pure helpers are functions. Lemmas relate them: round trips, idempotence,
  uniqueness of choices, and what a request can and cannot change.
- **Outside effects.** Cryptography, encodings, the bot, the gateway, Discord, the clock
  and `Math.random` are parameters of the operations that use them.

## Model

| member | source | states |
|---|---|---|
| Admin.TrimmedNonEmpty | lib/admin.ts:1-4 | an id is kept exactly when it is the non-empty trim of one of the pieces, and there are never more ids than pieces |
| Admin.AdminIds | lib/admin.ts:1-4 | every id on the allow-list is non-empty, has no white space at either end and holds no comma |
| Admin.IsAdminDiscordId | lib/admin.ts:8-11 | a missing or empty id is never an administrator, even when the list holds an empty entry; any other id is one exactly when it is on the list |
| Admin.NoAdminsWhenUnset | lib/admin.ts:1-11 | without the setting nobody is an administrator, whatever id is asked about |
| Admin.AdminExactly | lib/admin.ts:1-11 | an id is an administrator if and only if it is the non-empty trim of one comma-separated piece of the setting; an id with white space at an end or with a comma never is |
| Admin.AdminSession | app/api/admin/referrals/route.ts:7-13 | the administrator check passes exactly for a session whose non-empty Discord id is on the list, and then yields that same session |
| AdminPeiwan.Status | app/api/admin/peiwan/route.ts:16-63 | the status code tells the outcomes apart: 201 exactly for a created profile, 409 exactly for a conflict, 403 exactly for a caller who is not an administrator |
| AdminPeiwan.Largest | app/api/admin/peiwan/route.ts:47 | the aggregate is the largest id in use, and 0 for an empty table |
| AdminPeiwan.NextAutoId | app/api/admin/peiwan/route.ts:47-48 | the automatic id is one past every id in use, and 1 for an empty table |
| AdminPeiwan.AutoIdUnique | app/api/admin/peiwan/route.ts:47-48 | the rule for the automatic id determines a single id |
| AdminPeiwan.Screen | app/api/admin/peiwan/route.ts:16-36 | the checks before any write, each if and only if its condition: 403 without an administrator session, 400 for a body that is not JSON, 400 with the normaliser's own message for a rejected form, 409 when the member already owns a profile, 409 for an explicit id already taken, and acceptance exactly when every check passes; a form that passes has a non-empty owner with no profile and, when it names an id, a positive one not in use |
| AdminPeiwan.Upserted | app/api/admin/peiwan/route.ts:38-45 | after the upsert the member row exists under its own id with status `PEIWAN` |
| AdminPeiwan.Enrolled | app/api/admin/peiwan/route.ts:38-58 | after the upsert and the registration the member is `PEIWAN` and its opt-out flag has been written as the text "true" or "false" |
| AdminPeiwan.NewProfile | app/api/admin/peiwan/route.ts:49-56 | the new profile row carries the chosen id, the owner and the columns `buildPeiwanDataObject` makes from the form |
| AdminPeiwan.CreatePeiwan | app/api/admin/peiwan/route.ts:16-64 | a refused request writes nothing and answers what the checks decided; an accepted one answers 201 with an id that was free — the explicit one, or one past the largest — adds exactly that profile, marks and registers its member, and leaves every other table as it was, keeping the database invariant |
| AdminPeiwan.Enrol | app/api/admin/peiwan/route.ts:38-58 | the three writes add exactly the new profile and the enrolled member row and touch nothing else |
| AdminPeiwan.SecondCreateConflicts | app/api/admin/peiwan/route.ts:27-30 | sending the same accepted form again, after its profile was written, is answered 409 "already has a profile": a member never gets two profiles this way |
| AdminTransactions.DiscordIdOf | app/admin/transactions/page.tsx:86-92 | the member asked for is the trimmed single value, the trimmed first of repeated values, or empty when the parameter is missing |
| AdminTransactions.DateBound | app/admin/transactions/page.tsx:93-98 | a date bound is present if and only if its first value is non-empty and parses to a valid time, and then it is that time |
| AdminTransactions.Select | app/admin/transactions/page.tsx:104-116 | the query selects exactly the rows of the member whose time lies inside the given bounds, and no more rows than there are |
| AdminTransactions.WhereOf | app/admin/transactions/page.tsx:104-116 | there is no query if and only if the member id is empty; otherwise the query is the member and whichever bounds are valid |
| AdminTransactions.TransactionsPage | app/admin/transactions/page.tsx:78-140 | a caller who is not an administrator is redirected, and only such a caller; otherwise the pager follows the page parameter and the matching count, at most twenty rows are shown, nothing is shown without a member, and, given the ledger newest first as the query orders it, the rows shown are exactly the page's window of that member's rows inside the range, newest first |
| AdminTransactions.SelectNewestFirst | app/admin/transactions/page.tsx:128-133 | selecting a member's rows from a ledger newest first keeps them newest first |
| AdminTransactions.MatchingRowListed | app/admin/transactions/page.tsx:99-140 | every matching row appears on some page the pager reaches: row `i` is shown on page `i / 20 + 1`, and that page is at most the last page |
| DiscordCallback.ParseStateParam | app/api/auth/callback/discord/route.ts:17-31 | the loop over the `\|`-separated segments computes the parsed state of the whole value, each segment applied in order |
| DiscordCallback.NoCsrfSegment | app/api/auth/callback/discord/route.ts:21-29 | a state without a `csrf:` segment has no `csrf` |
| DiscordCallback.LastCsrfWins | app/api/auth/callback/discord/route.ts:21-29 | the last `csrf:` segment decides `csrf`, whatever the segments before or after it say |
| DiscordCallback.NoNextSegment | app/api/auth/callback/discord/route.ts:21-29 | a state without a `next:` or path segment has no `next` |
| DiscordCallback.LastNextWins | app/api/auth/callback/discord/route.ts:21-29 | the last `next:` or path segment decides `next` |
| DiscordCallback.LoginStateRoundTrip | app/api/discord/login/route.ts:33 | the state `csrf:<value>` the login route sends parses back to that value, with no redirect target |
| DiscordCallback.SessionFor | app/api/auth/callback/discord/route.ts:73-78 | the session carries the Discord id and avatar, the global name when there is one and the user name otherwise, and a discriminator only when it is present and not the new-style "0" |
| DiscordCallback.RedirectTarget | app/api/auth/callback/discord/route.ts:68-69 | the target always starts with `/`: the redirect cookie when it is a path, else the state's `next` when there is no cookie and it is a path, else `/profile` |
| DiscordCallback.Decide | app/api/auth/callback/discord/route.ts:46-87 | an `error` parameter ends in its description (or `access_denied`); otherwise a missing code ends in `missing_code`, and a code is missing whenever that is the answer; then a state that fails the cookie check ends in `invalid_state`; then a failed Discord exchange, or a target that `new URL(target, origin)` rejects, ends in `discord_oauth`; no other error is given; the user is signed in if and only if there is no error, there is a code, the state passes, Discord answered and the target resolves, and then with that user's session and the computed target |
| DiscordCallback.LoginCompletes | app/api/auth/callback/discord/route.ts:42-87 | a callback that carries a code and the state the login route issued, with the matching state cookie, signs the user in when the redirect target resolves against the origin |
| DiscordCallback.UnresolvableTargetFails | app/api/auth/callback/discord/route.ts:68-85 | the same callback, when the redirect target passes normalisation but `new URL` rejects it (such as `//[`), ends in `discord_oauth` and signs nobody in |
| DiscordCallback.HandleCallback | app/api/auth/callback/discord/route.ts:42-87 | the response always clears both login cookies; it carries a session cookie holding the signed session exactly when the user is signed in, so a target `new URL` rejects leaves no session; a missing secret turns sign-in into the `discord_oauth` error |
| Discount.PrizeConfig | app/api/personal/discountService.ts:26-35 | exactly the three discount prizes have terms, each a rate strictly between 0 and 1 and a positive cap |
| Discount.ComputeDiscountAmount | app/api/personal/discountService.ts:70-88 | orders within the 5 free minutes or without a positive price earn nothing; otherwise the rebate is nothing, the cap, or the rounded fee share |
| Discount.FeeShareMonotone | app/api/personal/discountService.ts:78-84 | the fee share of a billable order is never negative and grows with the order's length |
| Discount.DiscountWithinCap | app/api/personal/discountService.ts:70-88 | with non-negative terms the rebate lies between 0 and the cap |
| Discount.DiscountMonotone | app/api/personal/discountService.ts:70-88 | a longer order never earns a smaller rebate |
| Discount.DiscountInCents | app/api/personal/discountService.ts:84-85 | the rebate is a whole number of cents when the cap is |
| Discount.SweepCoupons | app/api/personal/discountService.ts:141-146 | after the sweep the host has no ACTIVE coupon past its expiry; exactly the expiring ones became EXPIRED and nothing else changed |
| Discount.SweepDraws | app/api/personal/discountService.ts:147-153 | after the sweep the host has no unused discount draw past its expiry; exactly those became EXPIRED and nothing else changed |
| Discount.SweepIdempotent | app/api/personal/discountService.ts:141-153 | a second sweep at the same time changes nothing |
| Discount.EarliestCouponIn | app/api/personal/discountService.ts:170-177 | among the eligible coupons there is always one issued no later than the others, so `orderBy: issuedAt asc` has an answer |
| Discount.DrawNoLaterOrder | app/api/personal/discountService.ts:196-203 | the draw ordering by expiry then creation time is total and transitive |
| Discount.EarliestDrawIn | app/api/personal/discountService.ts:196-203 | among the eligible draws one comes no later than the others |
| Discount.SelectCoupon | app/api/personal/discountService.ts:158-179 | the coupon found is the named one when it is eligible, else an eligible coupon issued earliest; nothing is found without a named id only when the host holds no eligible coupon |
| Discount.SelectDraw | app/api/personal/discountService.ts:180-205 | the draw found is the named one when it is eligible, else an eligible draw no other eligible draw precedes; nothing is found without a named id only when there is no eligible draw |
| Discount.DrawTermsOfDiscountDraw | app/api/personal/discountService.ts:212-215 | a discount draw is rebated on its own prize's rate and cap |
| Discount.RebateEntry | app/api/personal/discountService.ts:262-270 | the rebate's ledger row is balanced (before plus change is after), starts from the member's total balance and names the companion or the system |
| Discount.UseCoupon | app/api/personal/discountService.ts:232-242 | only the chosen coupon changes: it becomes USED, linked to the order, with the rebate and the time; an empty id changes nothing |
| Discount.UseDraw | app/api/personal/discountService.ts:243-252 | only the chosen draw changes: it becomes USED with the order as its request id; an empty id changes nothing |
| Discount.CouponRebateMarksOrder | app/api/personal/discountService.ts:123-138 | once a coupon is spent on an order, the order counts as already rebated |
| Discount.DrawRebateMarksOrder | app/api/personal/discountService.ts:123-138 | once an eligible draw is spent on an order, the order counts as already rebated |
| Discount.Precheck | app/api/personal/discountService.ts:112-138 | the checks before any write fail, in order, with not-found, not-host, not-ended and already-used, each exactly under its condition |
| Discount.SweepExpired | app/api/personal/discountService.ts:141-153 | the sweeps change the coupons and draws as the sweep functions say and leave every other table alone, keeping the store valid |
| Discount.SpendInstrument | app/api/personal/discountService.ts:232-252 | only the chosen instrument's table changes, as UseCoupon or UseDraw says |
| Discount.RecordRebate | app/api/personal/discountService.ts:254-270 | the member's balance and recharge total grow by the rebate and one balanced ledger row is appended; nothing else changes |
| Discount.QuoteRebate | app/api/personal/discountService.ts:156-222 | in the handler's order: no-coupon or no-lottery (never the other kind's) exactly when no instrument qualifies; then insufficient-data exactly when price or minutes are missing; then no-fee when the rebate on the chosen instrument is nothing and a grant when it is positive, so a grantable order is always granted; a grant equals the rebate computed on the chosen instrument's terms |
| Discount.FeeCheckDetermined | app/api/personal/discountService.ts:158-222 | with a coupon or a named draw only one row can be chosen, so the fee check has a single answer |
| Discount.Redeem | app/api/personal/discountService.ts:141-278 | after the checks, in the handler's order: no instrument, then missing data (exactly), then no fee, then a grant exactly when the rebate pays and the member exists, the missing member being the rolled-back failure; refusals leave only the sweeps behind; a grant credits the member by exactly the rebate, appends its balanced ledger row and marks the chosen coupon or draw spent; orders and other tables are untouched |
| Discount.ApplyDiscountForOrder | app/api/personal/discountService.ts:93-280 | a request failing a check writes nothing and reports that check; past the checks it answers in the handler's order, each outcome under its condition: no coupon or no lottery (never the other kind's) exactly when no instrument qualifies, missing price or minutes exactly when the order lacks them, no fee when the rebate is nothing, and a grant when it pays and the member exists, leaving only the expiry sweeps behind; a grant spends the chosen coupon or draw on this order, rebates the amount computed from the order's price and minutes on that instrument's terms, credits the member and appends the rebate to the ledger; the orders table never changes; after a grant, a second request for the same order is refused as already used |
| Discountable.UsedIds | app/api/orders/discountable/route.ts:34-51 | an order id is used exactly when a USED coupon is linked to it or a USED 8折券 draw names it as its request |
| Discountable.Filter | app/api/orders/discountable/route.ts:53-61 | the kept orders are exactly the listed ones that are unused, longer than five minutes and priced |
| Discountable.FilterConcat | app/api/orders/discountable/route.ts:53-61 | the filter keeps the list's order: filtering a concatenation concatenates the filtered parts |
| Discountable.ChargedAmount | app/api/orders/discountable/route.ts:71-75 | the first five minutes are free: an order no longer than that is charged nothing |
| Discountable.ListOrder | app/api/orders/discountable/route.ts:65-79 | a listed order keeps its id, display number, companion, minutes and end time, and its amount text reads back as the charge rounded to cents |
| Discountable.ListAll | app/api/orders/discountable/route.ts:65-79 | every order is listed, in place |
| Discountable.DiscountableOrders | app/api/orders/discountable/route.ts:9-81 | a caller without a session gets the 401; no orders gives an empty list; otherwise, over the query's answer (at most fifty of the caller's ENDED orders, newest first, none left out that ended later than one taken), the answer is the first twenty qualifying orders, in order |
| Discountable.FilterKeepsOrder | app/api/orders/discountable/route.ts:53-61 | filtering keeps the rows' relative order, so newest-first rows stay newest first |
| Discountable.ListedAreCallersEnded | app/api/orders/discountable/route.ts:15-27 | every listed order is one of the caller's ENDED orders in the table, unused, long enough and priced, listed as it stands, and the list runs newest first |
| Discountable.AllCallersOrdersListed | app/api/orders/discountable/route.ts:15-27 | when the query returned fewer than fifty rows and fewer than twenty orders are listed, every qualifying ENDED order of the caller in the table is listed |
| Discountable.ListedAreEligible | app/api/orders/discountable/route.ts:53-62 | every listed order is one of the rows the query fetched for the caller that is unused, longer than five minutes and priced |
| Discountable.FewListedAreAll | app/api/orders/discountable/route.ts:53-62 | when fewer than twenty orders are listed, every qualifying fetched order is listed |
| Discountable.UsedCouponExcludes | app/api/orders/discountable/route.ts:49-55 | an order linked to a used coupon is never listed |
| Heart.AdjacentMakesAscending | app/profile/heart/page.tsx:21-37 | thresholds that grow from each tier to the next grow across the whole table |
| Heart.TiersAscending | app/profile/heart/page.tsx:21-37 | the table has fifteen tiers from 131 up to 999999, each threshold above the one before |
| Heart.Reached | app/profile/heart/page.tsx:81-89 | the loop passes exactly the tiers before the first threshold above the total, and every tier it passes is at most the total |
| Heart.ReachedExactly | app/profile/heart/page.tsx:81-89 | with ordered thresholds a tier is passed exactly when its threshold is at most the total |
| Heart.Clamp | app/profile/heart/page.tsx:99 | the bar's share is kept between 0 and 1, and a share already in range is unchanged |
| Heart.TierOf | app/profile/heart/page.tsx:76-101 | the current and next tiers come from the table and the progress is between 0 and 1 |
| Heart.ResolveTier | app/profile/heart/page.tsx:76-101 | the loop with its break, the reset below the first tier and the progress computation give the tier view TierOf describes |
| Heart.CurrentAndNext | app/profile/heart/page.tsx:81-97 | the current tier is the highest threshold reached; there is a next tier exactly when the total is below the top threshold, and it is the lowest threshold above the total |
| Heart.BelowFirstTier | app/profile/heart/page.tsx:91-99 | below the first threshold the first tier is both current and next, counted from 0, and the bar shows the share of the first threshold |
| Heart.ProgressBetweenTiers | app/profile/heart/page.tsx:97-99 | between the first and the top threshold the bar shows the share of the way from the tier reached to the next, always below full |
| Heart.TopTier | app/profile/heart/page.tsx:97-99 | at or past the top threshold there is no next tier and the bar is empty exactly at the threshold and full past it |
| Heart.FormatCount | app/profile/heart/page.tsx:9-14 | a missing count shows as "0", and no count ever shows as empty text |
| Heart.FormatCountReadBack | app/profile/heart/page.tsx:9-14 | a formatted count has a leading minus exactly when it is negative, and with its group separators removed reads back as its magnitude |
| Heart.DisplayName | app/profile/heart/page.tsx:16-17 | the name shown is the server nickname when it is present and not empty, else the Discord id |
| Js.Prop | app/api/withdraw/route.ts:44-48 | a property access reads the field of an object that has it and is `undefined` for every other value |
| Js.ToNumber | lib/peiwan/payload.ts:49 | `Number(v)`: text converts as Js.StringToNumber says; undefined, an object and an array of two or more elements are NaN; a one-element array holding text converts as that text |
| Js.StringToNumber | app/api/withdraw/route.ts:20 | blank text converts to 0; otherwise the result is finite exactly when the trimmed text is a numeric literal (a decimal literal or an unsigned `0x`, `0o` or `0b` integer) and then is its value; it is infinite exactly for a signed or unsigned `Infinity` |
| Js.TrimmedToNumber | lib/peiwan/payload.ts:49 | the empty text converts to 0; otherwise the result is finite exactly when the text is a numeric literal and then is its value; it is infinite exactly for `Infinity` with or without a sign |
| Js.StringToNumberHex | app/api/withdraw/route.ts:20 | `Number("0x10")` is 16, and a sign before the prefix makes `"-0x10"` NaN |
| Js.StringToNumberBinary | app/api/withdraw/route.ts:20 | `Number("0B101")` is 5 |
| Js.StringToNumberBadBinary | app/api/withdraw/route.ts:20 | a binary prefix followed by a digit binary lacks, `"0b2"`, is NaN |
| Js.NumberOfLiteral | app/api/withdraw/route.ts:20 | text without surrounding blanks that is a numeric literal converts to that literal's value |
| Js.NumberOfNonLiteral | app/api/withdraw/route.ts:20 | text without surrounding blanks that is not empty, not an infinity and not a numeric literal converts to NaN |
| Js.SignedRadixIsNaN | app/api/withdraw/route.ts:20 | `"-0x10"` is NaN for `Number`, as only decimal literals take a sign |
| Js.ParseInt | app/api/peiwan/route.ts:20 | `parseInt` gives a number exactly when digits follow the leading white space and optional sign |
| Js.ParseIntDigits | app/api/peiwan/route.ts:20 | the decimal text of a natural number parses back to it |
| Js.StringToNumberDigits | lib/peiwan/payload.ts:49 | the decimal text of a natural number converts back to it |
| LedgerDisplay.SignOf | app/profile/personalPage.tsx:86 | the sign is 1, -1 or 0 exactly as the number is positive, negative or zero |
| LedgerDisplay.ResolveAmountChange | app/profile/personalPage.tsx:72-93 | without both balances the stored change is shown; with them the change shown always has the balances' sign and lies within 0.0001 of their difference, being either the stored change or that difference |
| LedgerDisplay.ConsistentChangeKept | app/admin/transactions/page.tsx:41-56 | a stored change that agrees with the balances in sign and within 0.0001 is shown as stored |
| LedgerDisplay.LedgerRowShowsItsChange | app/admin/transactions/page.tsx:41-56 | a balanced ledger row (before plus change is after), as every write of the system makes, is shown with its own change |
| LedgerDisplay.InconsistentChangeReplaced | app/profile/personalPage.tsx:86-88 | a stored change that disagrees with the balances in sign or by more than 0.0001 is replaced by their difference |
| LedgerDisplay.Ungroup | app/profile/personalPage.tsx:62 | removing the group separators leaves no separator |
| LedgerDisplay.UngroupConcat | app/profile/personalPage.tsx:62 | removing separators works piece by piece |
| LedgerDisplay.UngroupPlain | app/profile/personalPage.tsx:62 | text without separators is unchanged |
| LedgerDisplay.UngroupGrouped | app/profile/personalPage.tsx:62 | removing the separators from grouped digits gives the digits back |
| LedgerDisplay.UngroupJoin | app/profile/personalPage.tsx:62 | a separator between two groups disappears |
| LedgerDisplay.FormatMagnitude | app/profile/personalPage.tsx:62 | a non-negative amount is never written as empty text |
| LedgerDisplay.FormatMagnitudeReadBack | app/profile/personalPage.tsx:55-63 | the text `formatNumber` writes for an amount, read without its separators, is the amount rounded to two decimal places |
| LedgerDisplay.UngroupFormatted | app/profile/personalPage.tsx:62 | the grouped whole part followed by the fraction loses only its separators |
| LedgerDisplay.PlainReadBack | app/profile/personalPage.tsx:62 | an amount of whole cents written with at most two fraction digits and no trailing zero reads back as itself |
| LedgerDisplay.WholeReadBack | app/profile/personalPage.tsx:62 | a whole amount is written without a fraction and reads back as itself |
| LedgerDisplay.TenthsReadBack | app/profile/personalPage.tsx:62 | an amount of whole tenths is written with one fraction digit and reads back as itself |
| LedgerDisplay.CentsReadBack | app/profile/personalPage.tsx:62 | an amount with a non-zero hundredth is written with two fraction digits and reads back as itself |
| LedgerDisplay.TwoFractionDigits | app/profile/personalPage.tsx:62 | with a non-zero hundredth the text is the fixed two-decimal text of the amount |
| LedgerDisplay.OneDigitReadBack | app/profile/personalPage.tsx:62 | a whole number, a dot and one digit read back as the number plus that many tenths |
| LedgerDisplay.ChangeMeta | app/profile/personalPage.tsx:95-107 | a missing change is shown as a muted dash and exactly a zero change as a neutral "0"; a credit is "+" and its magnitude, a debit "-" and its magnitude |
| LedgerDisplay.LabelReadBack | app/admin/transactions/page.tsx:58-66 | a non-zero change's label starts with its sign and reads back as its size rounded to hundredths |
| LedgerDisplay.FirstValue | app/profile/personalPage.tsx:158-160 | a single query value is itself; a repeated one is its first value; a missing one is none |
| LedgerDisplay.CurrentPage | app/profile/personalPage.tsx:158-161 | the page is at least 1: the parsed number when it is at least 1, else 1 |
| LedgerDisplay.PageLinkReadBack | app/profile/personalPage.tsx:158-161 | a page number written as the page links write it is read back as that page |
| LedgerDisplay.Skip | app/profile/personalPage.tsx:162 | the rows before a page are the earlier pages' rows |
| LedgerDisplay.TotalPages | app/profile/personalPage.tsx:183 | there is always at least one page |
| LedgerDisplay.TotalPagesCover | app/profile/personalPage.tsx:183 | the pages hold every row, and the last page is not empty when there are rows |
| LedgerDisplay.RowOnPage | app/profile/personalPage.tsx:162-187 | row `i` falls in the window of page `i / size + 1`, which is within the page count |
| LedgerDisplay.RowWithinSkip | app/profile/personalPage.tsx:162 | row `i` is within the skip window of page `i / size + 1` |
| LedgerDisplay.RowPageReached | app/profile/personalPage.tsx:183 | the page of every row is within the page count |
| LedgerDisplay.PagerOf | app/profile/personalPage.tsx:183-187 | previous and next links exist exactly off the first and the last page and always point at a page within range |
| LedgerDisplay.PageRows | app/profile/personalPage.tsx:171-176 | a page shows at most the page size of rows, the rows from the skip on in order, and nothing past the end |
| LedgerDisplay.RowOnItsPage | app/profile/personalPage.tsx:171-187 | every row is shown on page `i / size + 1`, a page the links reach |
| LedgerDisplay.ProfilePage | app/profile/personalPage.tsx:158-187 | given the member's rows newest first, as the query orders them, the pager follows the page parameter and the row count, and the page is exactly the window of at most ten rows the pager's skip selects, newest first |
| LedgerDisplay.PageRowsNewestFirst | app/profile/personalPage.tsx:171-176 | a window cut from rows newest first is newest first |
| LedgerDisplay.ProfileRowShown | app/profile/personalPage.tsx:158-187 | each of the member's rows is shown on the page of its position, within the links' range |
| LotteryUse.PrizeType | app/api/lottery/use/route.ts:123 | a draw without a prize counts as a coupon |
| LotteryUse.StripVoucherSuffix | app/api/lottery/use/route.ts:144 | a name ending in 代金券 loses exactly that suffix; any other name is unchanged |
| LotteryUse.GiftNameForBot | app/api/lottery/use/route.ts:134-144 | the gift named to the bot is the table's entry for the prize, else the prize name without its 代金券 suffix |
| LotteryUse.GiftTableAgreesWithSuffix | app/api/lottery/use/route.ts:135-144 | for the table's 代金券 prizes the table and the suffix rule name the same gift |
| LotteryUse.Status | app/api/lottery/use/route.ts:95-207 | the response is 200 exactly for a gift, a rename or a self-use and 409 exactly for a spent draw; a failed rename passes the bot's status on |
| LotteryUse.GiftCallFor | app/api/lottery/use/route.ts:145-154 | the gift call names the giver, the receiver, the draw and one non-anonymous gift, with the request id `GIFT:<receiver>` |
| LotteryUse.GiftResult | app/api/lottery/use/route.ts:49-93 | a gift succeeds exactly when the internal API is configured and accepts the call; every other case is a 400 gift failure |
| LotteryUse.RenameResult | app/api/lottery/use/route.ts:168-189 | a rename succeeds exactly when the internal API is configured and accepts; without configuration it is the 500, and a refusal passes on the bot's status and message |
| LotteryUse.Decide | app/api/lottery/use/route.ts:95-207 | the checks in order: 401 without a session, 400 without a draw id or a known mode, 404 for someone else's or a missing draw, 409 for a spent one; past the 409, each branch under its condition: a gift is refused exactly when the prize is not a gift, then exactly when the receiver is not found, and otherwise answers what the gift call makes of the bot's reply; a self-use is refused exactly when the prize is neither a self-use prize nor a vanity card, a vanity card answers what the rename call makes of the bot's reply, and the draw is consumed exactly when it is a self-use prize that is not a vanity card |
| LotteryUse.ConsumeIfUnused | app/api/lottery/use/route.ts:192-199 | the conditional update counts 1 and marks the draw used exactly when it exists and is unused; otherwise nothing changes |
| LotteryUse.UseLottery | app/api/lottery/use/route.ts:95-207 | every answer but a self-use leaves the store untouched; a self-use marks only its draw used and changes no other table |
| LotteryUse.Consumed | app/api/lottery/use/route.ts:194-198 | a consumed draw is USED, stamped with the time and the request id SELFUSE, and otherwise the same draw |
| LotteryUse.SelfUseOnce | app/api/lottery/use/route.ts:119-121 | once a draw has been self-used, the same request is refused as already used |
| LotteryUse.SelfUseTwice | app/api/lottery/use/route.ts:161-204 | the same self-use request made twice succeeds at most once: the second time it is a 409 |
| Money.Cents | app/api/personal/discountService.ts:25 | the whole number of cents is within half a cent of the amount, and a tie goes away from zero |
| Money.Round2 | app/api/personal/discountService.ts:25 | rounding to two places moves the amount by at most half a cent |
| Money.CentsExact | app/api/personal/discountService.ts:25 | an amount that already has at most two decimals keeps its cents |
| Money.Round2Idempotent | app/api/personal/discountService.ts:25 | rounding a rounded amount changes nothing |
| Money.CentsMonotone | app/api/personal/discountService.ts:25 | rounding never reverses the order of two amounts |
| Money.CentsSign | app/api/personal/discountService.ts:25 | rounding keeps a non-negative amount non-negative and a non-positive one non-positive |
| Money.SpanDigits | app/api/payment/zpay/notify/route.ts:99 | the span is the longest run of decimal digits at the start of the text |
| Money.SpanDigitsOf | app/api/payment/zpay/notify/route.ts:99 | digits followed by a non-digit span exactly the digits |
| Money.ScanFraction | app/api/payment/zpay/notify/route.ts:99 | the fraction part read is made of digits only |
| Money.ScanExponent | app/api/payment/zpay/notify/route.ts:99 | an exponent read is made of digits only |
| Money.ScanNumeral | app/api/payment/zpay/notify/route.ts:99 | a literal read is well formed and is negative exactly when the text starts with a minus |
| Money.ScanNumeralStart | app/api/payment/zpay/notify/route.ts:99 | a decimal literal starts, after its sign, with a digit or a dot |
| Money.ParseDecimal | app/api/payment/zpay/notify/route.ts:99 | text has a decimal value exactly when it is a decimal literal |
| Money.DecimalFromString | app/api/payment/zpay/notify/route.ts:99 | the constructor gives NaN exactly for a signed or unsigned `NaN` and an infinity exactly for `Infinity`; a decimal literal gives its value and a `0x`, `0o` or `0b` integer gives its value with the sign in front applied; a finite result comes from one of these two forms |
| Money.DecimalIsNoOtherForm | app/api/payment/zpay/notify/route.ts:99 | a decimal literal, once its sign is off, is neither `NaN`, `Infinity` nor a radix integer, so the constructor's forms do not overlap |
| Money.SignedHexExample | app/api/payment/zpay/notify/route.ts:99 | `new Decimal("-0x10")` is -16 and `new Decimal("+0x10")` is 16 |
| Money.PrefixedInteger | app/api/payment/zpay/notify/route.ts:99 | a text is read as a radix integer exactly when it is `0x`, `0o` or `0b` (either case) followed by at least one digit of that base, and such a text is never a decimal literal |
| Money.PrefixedNotDecimal | app/api/payment/zpay/notify/route.ts:99 | no decimal literal, signed or not, begins with a radix prefix |
| Money.OctalExample | app/api/payment/zpay/notify/route.ts:99 | `0o17` reads as 15 |
| Money.BinaryExample | app/api/payment/zpay/notify/route.ts:99 | `0B101` reads as 5 |
| Money.HexExamples | app/api/payment/zpay/notify/route.ts:99 | `0x10` reads as 16 and `0xfF` as 255 |
| Money.PrefixedIntegerRejects | app/api/payment/zpay/notify/route.ts:99 | a prefix without digits, or with a digit its base lacks, is not a radix integer |
| Money.ToDecimalPlaces2 | app/api/recharge/order/route.ts:37 | finite values are rounded to two places; NaN and the infinities are kept |
| Money.Fixed2 | app/api/recharge/order/route.ts:67 | `toFixed(2)` has at least four characters with the decimal point third from the end, and starts with a minus sign exactly when the amount is negative |
| Money.FormatCents | app/api/recharge/order/route.ts:67 | the text of an amount in cents starts with a digit and has exactly two digits after its dot |
| Money.StripSignOf | app/api/recharge/order/route.ts:67 | the sign put in front of a number's text is the sign that is read off |
| Money.ScanFractionOf | app/api/recharge/order/route.ts:67 | a dot and digits read as that fraction with nothing left over |
| Money.ScanPlain | app/api/recharge/order/route.ts:67 | signed digits, a dot and digits read as exactly those parts |
| Money.PlainValue | app/api/recharge/order/route.ts:67 | the whole part and the two fraction digits of a number of cents are worth that many hundredths, with the sign |
| Money.ScanFormatCents | app/api/recharge/order/route.ts:67 | the text of an amount in cents, signed or not, reads back as that many hundredths |
| Money.CentsMagnitude | app/api/recharge/order/route.ts:67 | the magnitude `toFixed(2)` prints is never negative |
| Money.SignedCents | app/api/recharge/order/route.ts:67 | the printed magnitude with its sign put back is the rounded amount |
| Money.Fixed2RoundTrip | app/api/recharge/order/route.ts:67 | reading back what `toFixed(2)` writes gives the amount rounded to two places |
| Money.Fixed2Parts | app/api/recharge/order/route.ts:67 | `toFixed(2)` is the sign followed by the magnitude in cents |
| Money.Fixed2DecimalRoundTrip | app/api/personal/discountService.ts:25 | a decimal built from `toFixed(2)` text never throws, is finite and equals the amount rounded to two places |
| Money.NotSpecialName | app/api/payment/zpay/notify/route.ts:99 | text that starts with a digit is neither `NaN` nor `Infinity` |
| Money.ScanDigits | app/api/payment/zpay/notify/route.ts:99 | a plain run of digits reads as a whole part alone |
| Money.ParseDigits | app/api/payment/zpay/notify/route.ts:99 | a plain run of digits is a decimal worth its digits |
| PaymentNotify.FirstString | app/api/payment/zpay/notify/route.ts:15 | the result is the first string of the array, with no string before it, and none exactly when the array holds no string |
| PaymentNotify.PlainValue | app/api/payment/zpay/notify/route.ts:11-19 | null and undefined are dropped, strings are kept, an array contributes its first string when that is not empty, and every other value is kept as text |
| PaymentNotify.PlainEntriesGet | app/api/payment/zpay/notify/route.ts:8-22 | each field of the record holds exactly what its body entry contributes, the record has no other field and no key twice |
| PaymentNotify.ToPlainObject | app/api/payment/zpay/notify/route.ts:8-22 | the loop over the body's entries builds that record |
| PaymentNotify.StripSignFields | app/api/payment/zpay/notify/route.ts:56-59 | the copy has no `sign` or `sign_type` and every other key keeps its value |
| PaymentNotify.StripKeepsDistinct | app/api/payment/zpay/notify/route.ts:56-59 | deleting the signature fields keeps the keys distinct |
| PaymentNotify.TradeStatus | app/api/payment/zpay/notify/route.ts:82 | the status is the upper-cased `trade_status` when present and not empty, else the upper-cased `status`, else empty |
| PaymentNotify.TradeStatusLongS | app/api/payment/zpay/notify/route.ts:82-83 | a status written `trade_ſuccess` upper-cases to `TRADE_SUCCESS`, as JavaScript maps the long s to S |
| PaymentNotify.GatewayTradeNo | app/api/payment/zpay/notify/route.ts:113 | the gateway's trade number is `trade_no` when present, else `tradeNo` |
| PaymentNotify.Payer | app/api/payment/zpay/notify/route.ts:151 | the payer is `buyer`, else `openid`, else the gateway |
| PaymentNotify.Reply | app/api/payment/zpay/notify/route.ts:40-44 | only a settled or already-paid order is answered `success` with 200; every failure is a 400 |
| PaymentNotify.ReplyNamesFailure | app/api/payment/zpay/notify/route.ts:40-44 | two different failures never give the same reply |
| PaymentNotify.NotifiedAmount | app/api/payment/zpay/notify/route.ts:99 | the amount exists exactly when the constructor accepts `money`; it is finite exactly when the constructed decimal is, and then it is that decimal rounded to whole cents |
| PaymentNotify.NotifiedHexAmount | app/api/payment/zpay/notify/route.ts:99 | a `money` of `0x10` is the amount 16 |
| PaymentNotify.Screen | app/api/payment/zpay/notify/route.ts:48-106 | each stop happens exactly under its condition in the route's order (missing fields, configuration, signature, trade status, unknown order, already paid, bad amount, amount mismatch), and the order is settled exactly when it is payable and the notified amount equals its stored amount |
| PaymentNotify.PaidOrder | app/api/payment/zpay/notify/route.ts:109-117 | the order becomes PAID with the time, the notification and the gateway's trade number, and keeps its own number, member, amount and channel |
| PaymentNotify.Recharged | app/api/payment/zpay/notify/route.ts:119-131 | a new member starts with the amount as recharge and balance; an existing one has both raised by the amount and nothing else changed |
| PaymentNotify.MirrorBalance | app/api/payment/zpay/notify/route.ts:133-142 | only the member's own listing profile takes the new balance |
| PaymentNotify.RechargeEntry | app/api/payment/zpay/notify/route.ts:144-164 | the recharge's ledger row is balanced, ends at the new balance and names the gateway's trade number or the gateway |
| PaymentNotify.MirrorProfileBalance | app/api/payment/zpay/notify/route.ts:133-142 | only the listing profiles change, as MirrorBalance says |
| PaymentNotify.SettleRecharge | app/api/payment/zpay/notify/route.ts:108-165 | the transaction marks the order paid, credits the member, mirrors the balance, and appends one recharge row and one balanced ledger row; no other table changes |
| PaymentNotify.HandleNotify | app/api/payment/zpay/notify/route.ts:48-169 | a stopped notification changes nothing and answers its reason; a payable one is settled exactly as SettleRecharge says and answered `success` |
| PaymentNotify.ReplayIsAlreadyPaid | app/api/payment/zpay/notify/route.ts:94-97 | replaying a settled notification finds the order paid, so the gateway's retries never credit a member twice |
| PeiwanConstants.QuotationField | constants/peiwan.ts:29-37 | a tier's price column is `quotation_` followed by exactly the tier's code |
| PeiwanConstants.QuotationFieldInjective | constants/peiwan.ts:29-37 | two tiers share a price column only when they are the same tier |
| PeiwanConstants.QuotationFieldsMatchCodes | constants/peiwan.ts:26-37 | there are seven tiers and seven price columns, each column the column of the tier at its position, all distinct |
| PeiwanConstants.TagCounts | constants/peiwan.ts:1-23 | there are seventeen distinct game tags, none of them `techTag`, so the filter tags are eighteen distinct names |
| PeiwanConstants.TagsDiffer | constants/peiwan.ts:1-19 | game tags at different positions are different names |
| PeiwanConstants.OptionsDistinct | constants/peiwan.ts:40-50 | the status, sex, type and level option lists have two, two, three and three distinct entries |
| PeiwanListing.ParsedOr | app/api/peiwan/route.ts:20 | a missing or empty value gives the fallback; any other value is what `parseInt` makes of it |
| PeiwanListing.NormalizePage | app/api/peiwan/route.ts:19-22 | the page is the fallback or at least 1, so with a fallback of 1 it is always at least 1 |
| PeiwanListing.NormalizePageSize | app/api/peiwan/route.ts:24-28 | the page size is the fallback or between 1 and 50 |
| PeiwanListing.PageReadBack | app/api/peiwan/route.ts:19-22 | a page number's decimal text is read back as that page |
| PeiwanListing.PageSizeReadBack | app/api/peiwan/route.ts:24-28 | a page size's decimal text is read back capped at 50 |
| PeiwanListing.PageSizeOfParsed | app/api/peiwan/route.ts:24-28 | text that parses to a positive number gives that number capped at 50 |
| PeiwanListing.GarbageGivesFallback | app/api/peiwan/route.ts:19-28 | text that does not start with a digit, a sign or white space gives the fallback page and page size |
| PeiwanListing.NormalizeEnum | app/api/peiwan/route.ts:30-31 | a filter value is kept exactly when it is not empty and is one of the allowed values |
| PeiwanListing.KnownGames | app/api/peiwan/route.ts:35-38 | the games kept are exactly the known game tags that some trimmed piece names, never more than the pieces |
| PeiwanListing.ParseGames | app/api/peiwan/route.ts:33-39 | a missing or empty value gives no games; otherwise exactly the known tags named by a trimmed comma-separated piece |
| PeiwanListing.GameTagsAreWords | constants/peiwan.ts:1-19 | every game tag is made of ASCII letters and digits |
| PeiwanListing.WordIsPlain | app/api/peiwan/route.ts:35-37 | such a name is its own trim and holds no comma |
| PeiwanListing.KnownGamesKeepsTags | app/api/peiwan/route.ts:35-38 | a list of known tags is kept as it is, in order and with repeats |
| PeiwanListing.ParseGamesJoin | app/api/peiwan/route.ts:33-39 | games joined by commas, as the listing page writes them, read back in the same order with repeats |
| PeiwanListing.JoinNonEmpty | app/api/peiwan/route.ts:34 | a joined list whose first tag is not empty is not empty, so it is not taken for a missing value |
| PeiwanListing.SexFilter | app/api/peiwan/route.ts:84-90 | `female` and `male` select the matching sex and every other value applies no filter |
| PeiwanListing.IdFilter | app/api/peiwan/route.ts:78-79 | the id filter applies exactly when the `id` parameter parses, with the parsed value |
| PeiwanListing.WhereOf | app/api/peiwan/route.ts:95-114 | the filter only names known levels, sexes and game tags, and asks for `techTag` exactly when the parameter is `true` or `1` |
| PeiwanListing.Select | app/api/peiwan/route.ts:118-125 | the rows returned are exactly the matching rows, in table order |
| PeiwanListing.Slice | app/api/peiwan/route.ts:127 | the slice has the length `slice` gives and holds the rows from the start on, in order |
| PeiwanListing.GameTagFlags | app/api/peiwan/route.ts:141-144 | every game tag has a flag, true exactly when the profile carries the tag |
| PeiwanListing.CardOf | app/api/peiwan/route.ts:145-159 | the card keeps the profile's id and Discord id and shows the profile's name, else the member's, else the Discord id |
| PeiwanListing.Cards | app/api/peiwan/route.ts:129 | every row of the page becomes its card, in order |
| PeiwanListing.SeedOf | app/api/peiwan/route.ts:76 | the given seed is used when there is one, else a made-up one |
| PeiwanListing.Listing | app/api/peiwan/route.ts:70-163 | the response of `GET` over the table in id order: its total is the number of matching rows and its seed is the query's seed or the made-up one; PeiwanListing.ListingShowsMatches and PeiwanListing.PagesTile state the page contents |
| PeiwanListing.ListPeiwans | app/api/peiwan/route.ts:70-163 | the handler, given the rows in increasing id order as the query returns them, copies them and shuffles the copy in place, and answers what the listing specification says |
| PeiwanListing.ShuffledCopy | app/api/peiwan/route.ts:127 | shuffling a copy of the rows gives the seeded shuffle of the rows |
| PeiwanListing.PageCardsMatch | app/api/peiwan/route.ts:127-160 | every card of a page cut from matching rows is the card of a matching row, never of a blocked member |
| PeiwanListing.PageOfShowsMatches | app/api/peiwan/route.ts:127-162 | a page cut from matching rows holds at most a page of such cards, and reports the total it was given |
| PeiwanListing.PageBounds | app/api/peiwan/route.ts:74-75 | the page is at least 1, the page size between 1 and 50, and the page holds at most a page size of cards |
| PeiwanListing.ListingShowsMatches | app/api/peiwan/route.ts:70-163 | over rows in increasing id order, as the query returns them, the total counts every matching row, and each card shown is the card of a row that matches every filter and whose member is not blocked |
| PeiwanListing.PagesTile | app/api/peiwan/route.ts:116-127 | consecutive pages of the same shuffled rows follow each other with no gap and no overlap |
| PeiwanPayload.EnsureObject | lib/peiwan/payload.ts:28-31 | an object's properties are read as they are and every other value reads as the empty object |
| PeiwanPayload.EnsureEnum | lib/peiwan/payload.ts:33-38 | a value passes exactly when it is a string from the list, and is kept; otherwise the error names the field |
| PeiwanPayload.OptionalEnum | lib/peiwan/payload.ts:40-43 | a value is kept exactly when it is a string from the list |
| PeiwanPayload.EnsureNumber | lib/peiwan/payload.ts:45-54 | a blank value fails as empty, a value that is not a number fails as such, and every other value passes as its number, radix literals such as `0x10` included |
| PeiwanPayload.OptionalNumber | lib/peiwan/payload.ts:56-63 | a blank value is absent, a value that is not a number fails, and every other value is its number |
| PeiwanPayload.EnsureNumberPrefixed | lib/peiwan/payload.ts:45-63 | a field given as `"0x10"` passes as the number 16 in both readers, and one given as `"0b2"` fails as not a number |
| PeiwanPayload.MpUrlOf | lib/peiwan/payload.ts:87 | a mini-program URL is kept only as the trimmed, non-empty text of a string |
| PeiwanPayload.PeiwanIdOf | lib/peiwan/payload.ts:97-107 | the listing number is read only when allowed; a blank one is absent, and one given must be a positive integer or the form fails |
| PeiwanPayload.QuotationValues | lib/peiwan/payload.ts:109-117 | the prices read are exactly the present, non-blank price columns, each as its number |
| PeiwanPayload.GameTags | lib/peiwan/payload.ts:119-125 | the tags read are exactly the known tags the `gameTags` object gives as booleans, with those values |
| PeiwanPayload.KnownTags | lib/peiwan/payload.ts:121-125 | only known tags given as booleans are copied, with their values |
| PeiwanPayload.NormalizeRest | lib/peiwan/payload.ts:82-142 | the checks after the commission rate pass exactly when every one of them holds; the profile then keeps the id, price tier and rate it was given and takes the form's own type, level and sex strings, its listed status or none, its totalEarn and peiwanId as read, its trimmed URL, exactly the present non-blank price columns as numbers and exactly the known boolean tags |
| PeiwanPayload.Normalize | lib/peiwan/payload.ts:65-143 | the form is accepted exactly when every check holds; a required but missing Discord id is the first error; an accepted profile has the trimmed id, the form's own price tier (a known one), its commission rate as a number between 0 and 1, and every later field as NormalizeRest reads it from the form |
| PeiwanPayload.NormalizePeiwanPayload | lib/peiwan/payload.ts:65-143 | the function with its two loops gives exactly the profile or the error Normalize specifies |
| PeiwanPayload.NormalizeRemaining | lib/peiwan/payload.ts:82-142 | the steps after the commission rate, with their loops, give what NormalizeRest specifies |
| PeiwanPayload.ReadQuotations | lib/peiwan/payload.ts:109-117 | the loop fails exactly when some present, non-blank price column is not a number, and otherwise reads the prices QuotationValues describes |
| PeiwanPayload.CopyGameTags | lib/peiwan/payload.ts:119-125 | the loop copies exactly the known tags given as booleans |
| PeiwanPayload.DataObject | lib/peiwan/payload.ts:145-174 | the row holds only fixed columns, price columns and game tags |
| PeiwanPayload.FixedCells | lib/peiwan/payload.ts:160-170 | the fixed columns hold the profile's fields, numbers as their text; `status` is present only when set and `totalEarn` only when defined; a missing URL is null |
| PeiwanPayload.BuildPeiwanDataObject | lib/peiwan/payload.ts:145-174 | the function with its two loops builds the row DataObject describes |
| PeiwanPayload.CopyPrices | lib/peiwan/payload.ts:146-151 | the loop writes each price of the profile as its text |
| PeiwanPayload.CopyTags | lib/peiwan/payload.ts:153-158 | the loop copies each tag the profile sets |
| PeiwanPayload.DataObjectColumns | lib/peiwan/payload.ts:160-173 | neither spread overwrites a fixed column |
| PeiwanPayload.DataObjectSpreads | lib/peiwan/payload.ts:171-172 | a price column is in the row exactly when the profile has that price, as its text, and a tag exactly when the profile sets it, with its value |
| PeiwanPayload.NamesApart | lib/peiwan/payload.ts:160-173 | price columns, game tags and fixed columns are three disjoint sets of names |
| PeiwanPayload.TagNotFixed | lib/peiwan/payload.ts:160-173 | no game tag is the name of a fixed column |
| RecommendListing.NumberedImage | app/api/peiwanRecommend/route.ts:16-19 | a name matches only when it is digits, a dot and a listed extension in any case, and its id is the value of the digits |
| RecommendListing.NumberedImageOf | app/api/peiwanRecommend/route.ts:16-19 | every name made of digits, a dot and a listed extension in any case matches, with the digits' value as its id |
| RecommendListing.EntryOf | app/api/peiwanRecommend/route.ts:15-21 | a file gives an entry exactly when its name matches, with that id and its public path |
| RecommendListing.Entries | app/api/peiwanRecommend/route.ts:14-22 | the entries are exactly those of the matching names, none invented |
| RecommendListing.Insert | app/api/peiwanRecommend/route.ts:23 | inserting into an ordered list keeps it ordered and adds exactly the new entry |
| RecommendListing.InsertPermutes | app/api/peiwanRecommend/route.ts:23 | insertion adds one copy of the entry and loses nothing |
| RecommendListing.SortById | app/api/peiwanRecommend/route.ts:23 | the sorted list is ordered by id and a permutation of its input |
| RecommendListing.WithIdConcat | app/api/peiwanRecommend/route.ts:23 | picking the entries of one id works piece by piece |
| RecommendListing.InsertStable | app/api/peiwanRecommend/route.ts:23 | insertion puts an entry before the entries of its own id already placed |
| RecommendListing.SortStable | app/api/peiwanRecommend/route.ts:23 | the sort is stable: the entries of each id come out in the order they went in |
| RecommendListing.Recommended | app/api/peiwanRecommend/route.ts:10-30 | a folder that cannot be read gives the 500 with no data; otherwise a 200 listing ordered by id that is a permutation of the entries |
| RecommendListing.RecommendedExactly | app/api/peiwanRecommend/route.ts:10-30 | exactly the numbered images are listed, and files with the same id keep the order the folder gave them |
| RecommendUpload.ReplyOf | app/api/admin/peiwan-cards/recommend/route.ts:29-70 | the reply is 200 exactly for saved files and 403 exactly for a caller who is not an administrator; a wrong type names the extension |
| RecommendUpload.Uploads | app/api/admin/peiwan-cards/recommend/route.ts:35 | the uploads are exactly the non-empty files of the form |
| RecommendUpload.LastPart | app/api/admin/peiwan-cards/recommend/route.ts:24 | the last part is the end of the path after its last slash |
| RecommendUpload.Basename | app/api/admin/peiwan-cards/recommend/route.ts:24 | a base name has no slash, and is empty exactly when the path is slashes only |
| RecommendUpload.BasenameOfFile | app/api/admin/peiwan-cards/recommend/route.ts:24 | a name without slashes is its own base name, also at the end of a directory path |
| RecommendUpload.Underscored | app/api/admin/peiwan-cards/recommend/route.ts:26 | the result has no white space, is empty only for empty text, is never longer, and every other character comes from the name |
| RecommendUpload.UnderscoredPlain | app/api/admin/peiwan-cards/recommend/route.ts:26 | a name without white space is left unchanged |
| RecommendUpload.UnderscoredIdempotent | app/api/admin/peiwan-cards/recommend/route.ts:26 | replacing white space twice is replacing it once |
| RecommendUpload.NormalizeFileName | app/api/admin/peiwan-cards/recommend/route.ts:23-27 | a name is refused exactly when it is slashes only; an accepted name is not empty and has no slash and no white space |
| RecommendUpload.Extname | app/api/admin/peiwan-cards/recommend/route.ts:59 | the extension is empty or a dot followed by the name's last dot-free tail, shorter than the name |
| RecommendUpload.CheckedMeans | app/api/admin/peiwan-cards/recommend/route.ts:54-62 | a file passes with its normalised name when that name has an allowed extension; otherwise the failure says whether the name or the extension was wrong |
| RecommendUpload.RunOf | app/api/admin/peiwan-cards/recommend/route.ts:53-67 | the loop saves the names before the first failure, and stops on that failure |
| RecommendUpload.Checks | app/api/admin/peiwan-cards/recommend/route.ts:53-62 | each file is checked in turn |
| RecommendUpload.Stored | app/api/admin/peiwan-cards/recommend/route.ts:64-66 | the folder holds exactly the names written |
| RecommendUpload.StoredStep | app/api/admin/peiwan-cards/recommend/route.ts:64-66 | writing one more file adds or replaces that one name |
| RecommendUpload.Folder.constructor | app/api/admin/peiwan-cards/recommend/route.ts:10 | the folder starts with the given files |
| RecommendUpload.Folder.Clear | app/api/admin/peiwan-cards/recommend/route.ts:46-49 | the folder is left empty |
| RecommendUpload.Folder.Write | app/api/admin/peiwan-cards/recommend/route.ts:64-65 | the file is written under its name, replacing one of the same name |
| RecommendUpload.UploadRecommended | app/api/admin/peiwan-cards/recommend/route.ts:29-70 | a non-administrator, no files or more than eight leave the folder alone; otherwise the folder is emptied, then holds the files written before the first failing one, and the reply is that failure or the saved names |
| RecommendUpload.WriteFiles | app/api/admin/peiwan-cards/recommend/route.ts:51-69 | the loop leaves in the emptied folder exactly the files before the first failure, and answers that failure or the saved names |
| RecommendUpload.RunStops | app/api/admin/peiwan-cards/recommend/route.ts:53-67 | the loop's result is fixed by the first failing file |
| RecommendUpload.StoredNamesAreClean | app/api/admin/peiwan-cards/recommend/route.ts:51-67 | every stored name was saved, is not empty, and has no slash, no white space and an allowed extension |
| RecommendUpload.WebpNeverListed | app/api/admin/peiwan-cards/recommend/route.ts:9 | a `.webp` card the uploader accepts is never listed on the home page |
| RecommendUpload.ListedExtension | app/api/peiwanRecommend/route.ts:16 | a listed name's extension is never `.webp` |
| Referrals.NormalizeParam | app/api/admin/referrals/route.ts:15 | a missing parameter is empty and a present one is trimmed |
| Referrals.NormalizeField | app/api/admin/referrals/route.ts:15 | a string field is trimmed, a nullish one is empty, and any other value makes the call throw |
| Referrals.ParseTypeText | app/api/admin/referrals/route.ts:17-21 | a type is found exactly when the trimmed, upper-cased text is one of the referral types, and it is that text |
| Referrals.ParseTypeDotlessI | app/api/admin/referrals/route.ts:17-21 | `peıwan` names the PEIWAN type, as JavaScript upper-cases the dotless i to I |
| Referrals.ParseTypeField | app/api/admin/referrals/route.ts:17-21 | a type comes only from a string, and a truthy value that is not a string makes the call throw |
| Referrals.FilterOf | app/api/admin/referrals/route.ts:30-38 | each filter applies exactly when its normalised parameter is not empty or the type parses |
| Referrals.Select | app/api/admin/referrals/route.ts:40-46 | the rows selected are exactly the rows that match every filter |
| Referrals.SelectKeepsOrder | app/api/admin/referrals/route.ts:44 | the selection of newest-first rows is newest first |
| Referrals.ListReferrals | app/api/admin/referrals/route.ts:23-50 | given the rows newest first as the query orders them, only administrators are answered; the total counts every match and the list is the first hundred of them, in order |
| Referrals.ListedMatch | app/api/admin/referrals/route.ts:23-50 | every listed referral matches every filter given, and the listing is newest first |
| Referrals.Status | app/api/admin/referrals/route.ts:52-95 | 201 exactly for a created referral, 404 exactly for a missing invitee or inviter, 409 exactly for an invitee already referred |
| Referrals.Decide | app/api/admin/referrals/route.ts:52-95 | in the route's order, each outcome holds exactly when every earlier check passes and its own fails: not an administrator, a field that throws, a missing field or type, the same member twice, an invitee already referred, an unknown invitee, an unknown inviter; a request passing every check is created, as the referral of the invitee by the inviter with the type and time given |
| Referrals.CreateReferral | app/api/admin/referrals/route.ts:52-95 | the referral is inserted exactly when Decide creates it, keyed by its invitee, and nothing else is written |
| Referrals.OneReferralPerInvitee | app/api/admin/referrals/route.ts:70-73 | once a referral is created, the same request is refused with 409 |
| RegisterPeiwan.NormalizedOptOut | lib/peiwan/registerPeiwan.ts:13-26 | after the update and the raw fix the opt-out reads as `true` or `false`; a boolean, or a value that already reads so, is unchanged |
| RegisterPeiwan.Registered | lib/peiwan/registerPeiwan.ts:6-26 | the member exists with the companion status and a boolean opt-out; an existing member keeps its balances and a boolean opt-out; a new one starts with no balance and opt-out false |
| RegisterPeiwan.RegisterPeiwanProfile | lib/peiwan/registerPeiwan.ts:4-39 | the call fails, writing nothing, exactly when no listing profile belongs to the member; otherwise it returns that profile's number and default tier and changes only the member row, as Registered says |
| RegisterPeiwan.RegisterIdempotent | lib/peiwan/registerPeiwan.ts:4-39 | registering a second time changes nothing |
| Session.SecretOf | lib/session.ts:19-25 | the secret is never empty: `SESSION_SECRET` when it is set and not empty; an empty one does not fall back; else `NEXTAUTH_SECRET` when it is not empty; else none |
| Session.EncodeToken | lib/session.ts:34-39 | with a codec whose outputs are base64url text, the token splits back into the encoded payload and its HMAC signature (Session.DecodeEncoded is the full round trip) |
| Session.Segments | lib/session.ts:43 | the first segment is the text before the first dot, and neither segment holds a dot |
| Session.TokenSplits | lib/session.ts:38-43 | two base64url parts joined by a dot split back into those two parts |
| Session.ReadPayload | lib/session.ts:51-59 | reading the payload never throws, and a payload found has not expired |
| Session.DecodeTokenAsWritten | lib/session.ts:41-60 | the decoder as written: no token is no session; it throws only on a two-part token; it finds a payload only when a secret is set, the signature is the HMAC of the first segment, and the payload has not expired |
| Session.DecodeToken | lib/session.ts:41-60 | it throws only when the secret is missing for a two-part token; no token is no session; a payload is found only when the signature is the HMAC of the first segment, that segment decodes to it and it has not expired |
| Session.DecodeTokenAgrees | lib/session.ts:41-60 | wherever the code as written does not throw, the corrected decoder answers the same |
| Session.SegmentsOf | lib/session.ts:38-43 | splitting `a.b` where neither part holds a dot gives the two parts back |
| Session.Base64UrlNoDot | lib/session.ts:27 | base64url text holds no dot |
| Session.AsWrittenThrowsOnWideSignature | lib/session.ts:45-50 | a signature of the right UTF-16 length whose first character is `é` makes the code as written throw, whatever the secret |
| Session.DecodeTokenTotal | lib/session.ts:41-60 | with a secret configured, the corrected decoder never throws |
| Session.DecodeEncoded | lib/session.ts:34-60 | a token this module encodes decodes under the same secret to its payload until the payload expires, and to no session afterwards |
| Session.GetServerSession | lib/session.ts:62-72 | built on the corrected decoder Session.DecodeToken (see Findings): the caller is signed in exactly when the session cookie decodes to a payload, with that payload's session, and a failure then means the secret is missing; the decoder as written also throws on a signature whose UTF-8 length differs from its UTF-16 length |
| Session.CookieValue | lib/session.ts:63 | a cookie's value is read exactly when the cookie is present |
| Session.NormalizeRedirectTarget | lib/session.ts:158-162 | a value starting with `/` is kept and anything else gives the fallback |
| Session.NormalizeRedirectTargetStable | lib/session.ts:158-162 | with a path as fallback the result is always a path, and normalising twice is normalising once |
| Session.SummarizeSession | lib/session.ts:164-168 | a session is summarised exactly when there is one, with its four fields |
| Session.Response.constructor | lib/session.ts:74 | a response starts with no cookies |
| Session.Response.AttachSession | lib/session.ts:74-90 | with a secret the session cookie is set to the token of the session issued now and expiring seven days later, with that expiry; without one nothing is set |
| Session.Response.DestroySession | lib/session.ts:92-102 | the session cookie is cleared |
| Session.Response.SetLoginRedirect | lib/session.ts:104-114 | the redirect cookie holds the target for ten minutes |
| Session.Response.ClearLoginRedirect | lib/session.ts:118-128 | the redirect cookie is cleared |
| Session.Response.SetLoginState | lib/session.ts:130-140 | the state cookie holds the value for ten minutes |
| Session.Response.ClearLoginState | lib/session.ts:144-154 | the state cookie is cleared |
| Session.AttachedSessionSignsIn | lib/session.ts:62-90 | a session cookie set by `attachSessionToResponse` signs the member in on every request within seven days, and on none after |
| Shuffle.HashSeed | app/api/peiwan/route.ts:43-50 | `hashSeed` as an unsigned 32-bit fold over the seed's UTF-16 code units (a definition; Shuffle.ComputeHashSeed is the loop proved equal to it) |
| Shuffle.ComputeHashSeed | app/api/peiwan/route.ts:43-50 | the loop over the seed's code units computes the 32-bit hash the fold describes |
| Shuffle.InitialState | app/api/peiwan/route.ts:62 | the generator never starts at 0: a non-zero hash is used as it is, and 0 becomes 1 |
| Shuffle.Mulberry32.constructor | app/api/peiwan/route.ts:52 | the generator starts at the seed |
| Shuffle.Mulberry32.Next | app/api/peiwan/route.ts:53-58 | each call advances the state by 0x6d2b79f5 and draws the value mixed from the new state |
| Shuffle.SwapIndex | app/api/peiwan/route.ts:64 | the drawn swap index lies between 0 and `i` |
| Shuffle.SwapIndexBound | app/api/peiwan/route.ts:64 | a fraction below 1 times `i + 1`, rounded down, stays within `[0, i]` |
| Shuffle.Swap | app/api/peiwan/route.ts:65 | positions `i` and `j` trade places and nothing else moves |
| Shuffle.ShuffleStep | app/api/peiwan/route.ts:63-66 | one turn of the loop swaps position `i` with the drawn index and continues from `i - 1` with the advanced state |
| Shuffle.SwapPermutes | app/api/peiwan/route.ts:65 | a swap keeps the elements |
| Shuffle.ShuffleFromPermutes | app/api/peiwan/route.ts:63-66 | the rest of the shuffle keeps the length and the elements with their counts |
| Shuffle.Shuffled | app/api/peiwan/route.ts:61-68 | `shuffleWithSeed` keeps the length and the elements with their counts (Shuffle.ShuffleWithSeed is the in-place version proved equal to it) |
| Shuffle.ShuffledPermutes | app/api/peiwan/route.ts:61-68 | the shuffle is a permutation: same length, same elements, same counts |
| Shuffle.ShuffleWithSeed | app/api/peiwan/route.ts:61-68 | the array ends as the seeded shuffle of its contents, a permutation of them |
| Shuffle.FisherYates | app/api/peiwan/route.ts:63-66 | the in-place loop from the last position down leaves the array as the shuffle from the generator's starting state |
| Store.NewMember | lib/peiwan/registerPeiwan.ts:9 | a member created from an id alone carries that id and no balance or income |
| Store.Increment | app/api/payment/zpay/notify/route.ts:127-128 | an increment moves a present column by exactly the amount and leaves a null column null |
| Store.Db.constructor | app/api/personal/discountService.ts:53-62 | an empty database is consistent: every table empty and the ledger trivially balanced |
| Store.Db.AppendLedger | app/api/personal/discountService.ts:53-62 | a ledger row is appended only when its before plus change equals its after, so the ledger stays balanced; no other table changes |
| Store.Db.AppendRecharge | app/api/payment/zpay/notify/route.ts:147-153 | a recharge row is appended and nothing else changes |
| Store.Db.PutMember | app/api/payment/zpay/notify/route.ts:119-131 | an upsert replaces the member row under its own id and keeps every other table |
| Store.Db.PutPeiwan | app/api/payment/zpay/notify/route.ts:137-141 | a profile is stored under its number only when its owner holds no other profile, keeping owners unique |
| Store.Db.FindPeiwanByOwner | app/api/payment/zpay/notify/route.ts:133-136 | the lookup by owner finds that owner's profile, or reports that no profile belongs to the owner |
| Store.Db.PutDraw | app/api/lottery/use/route.ts:192-199 | a draw is stored under its own id and every other table is kept |
| Store.Db.PutPayOrder | app/api/recharge/order/route.ts:84-91 | a recharge order is stored under its trade number and every other table is kept |
| Store.Db.PutReferral | app/api/admin/referrals/route.ts:86-92 | a referral is stored under its invitee and every other table is kept |
| Store.Db.AppendWithdrawal | app/api/withdraw/route.ts:80-86 | a withdrawal row is appended and every other table is kept |
| Targets.PositiveInteger | app/api/lottery/use/route.ts:37-38 | a text is read as a profile number exactly when `Number` of it is a positive integer, and then as that integer |
| Targets.PositiveIntegerDigits | app/api/voucher/use/route.ts:25-26 | the decimal text of every positive number is read back as that number |
| Targets.PositiveIntegerHex | app/api/lottery/use/route.ts:37-38 | `"0x10"` is read as the profile number 16 |
| Targets.ResolveTarget | app/api/lottery/use/route.ts:26-47 | blank input resolves to nobody; a member id resolves to that member first; otherwise a positive integer resolves to its profile's owner when that profile has one |
| Targets.ResolveMemberId | app/api/voucher/use/route.ts:13-22 | a member's own id, with or without surrounding blanks, always resolves to that member, even when it also reads as a profile number |
| Targets.ResolveProfileNumber | app/api/voucher/use/route.ts:24-31 | a profile number that is not a member id resolves to the profile's owner |
| Text.Trim | app/api/voucher/use/route.ts:69-71 | the trim is the middle slice of the input with only white space dropped at each end, and no white space left at either end |
| Text.TrimIdempotent | app/api/lottery/use/route.ts:14 | trimming a trimmed string changes nothing |
| Text.TrimPlain | app/api/admin/referrals/route.ts:15 | a string without white space at its ends is its own trim |
| Text.DigitsTrim | app/api/lottery/use/route.ts:27 | a string of digits is its own trim |
| Text.LastIndexOf | app/api/admin/peiwan-cards/recommend/route.ts:59 | the position found holds the character and no later position does |
| Text.IndexOf | lib/session.ts:43 | the position found holds the character and no earlier position does |
| Text.Split | app/api/peiwan/route.ts:36 | a split yields at least one piece and no piece contains the separator |
| Text.JoinSplit | lib/admin.ts:2 | joining the pieces of a split with the separator gives the string back |
| Text.SplitJoin | app/api/auth/callback/discord/route.ts:19 | splitting a join of separator-free pieces gives the pieces back |
| Text.ToUpper | app/api/payment/zpay/notify/route.ts:82 | the result is ASCII exactly when every character's upper case is, and ASCII text is upper-cased letter by letter |
| Text.UpperText | app/api/admin/referrals/route.ts:19 | one character's upper case is ASCII exactly when the character is ASCII or one of the letters listed, and an ASCII character maps to its capital |
| Text.SpecialUpper | app/api/admin/referrals/route.ts:19 | each listed letter lies outside ASCII and upper-cases to ASCII text |
| Text.ToUpperConcat | app/api/admin/referrals/route.ts:19 | upper-casing a concatenation concatenates the upper-cased parts |
| Text.ToUpperSpliced | app/api/admin/referrals/route.ts:19 | a listed letter inside other text is replaced by its ASCII upper case |
| Text.ToUpperAscii | app/api/admin/referrals/route.ts:19 | ASCII text upper-cases to the text of its capitals, position by position |
| Text.DotlessIUpper | app/api/admin/referrals/route.ts:19 | `peıwan` upper-cases to `PEIWAN` |
| Text.LongSUpper | app/api/payment/zpay/notify/route.ts:82 | `trade_ſuccess` upper-cases to `TRADE_SUCCESS` |
| Text.ToLower | lib/zpay.ts:34-35 | lower-casing keeps the length, and maps ASCII capitals and the Kelvin sign to their small letters |
| Text.NatToDigits | lib/zpay.ts:46 | `toString` of a natural number is digits without a leading zero that read back as the number |
| Text.Pad2 | lib/zpay.ts:46 | padding to two digits gives two digits that read back as the number |
| Text.Utf16 | lib/session.ts:45 | every UTF-16 code unit lies below 0x10000 |
| Text.AsciiLengths | lib/session.ts:45-50 | an ASCII string has as many UTF-16 units and UTF-8 bytes as characters |
| Voucher.NamesOf | lib/voucher.ts:8-14 | every special-voucher kind has at least one prize name |
| Voucher.ResolveSpecialVoucher | lib/voucher.ts:10-16 | a resolved name is one of its kind's names, and names outside the five listed prizes resolve to nothing |
| Voucher.ResolveIsNamesOf | lib/voucher.ts:10-16 | a name resolves to a kind exactly when it is one of that kind's names, so the kinds' names never overlap |
| VoucherUse.Status | app/api/voucher/use/route.ts:185-192 | only a used voucher answers 200, and 401, 404 and 500 each belong to exactly one outcome |
| VoucherUse.TrimmedText | app/api/voucher/use/route.ts:69-71 | a string field is trimmed and any other value reads as empty |
| VoucherUse.FindUsableDraw | app/api/voucher/use/route.ts:85-105 | the draw found is the named one if usable, or else the usable draw expiring and then created first; none is found only when no draw qualifies |
| VoucherUse.Endpoint | app/api/voucher/use/route.ts:110-180 | the custom-gift voucher goes to the custom-gift endpoint, the other simple voucher to the custom-tag endpoint, and each targeted kind to its own endpoint |
| VoucherUse.EndpointsDistinct | app/api/voucher/use/route.ts:110-180 | two different recognised prize names never reach the same endpoint |
| VoucherUse.TargetedPayload | app/api/voucher/use/route.ts:129-137 | the payload names caller, target and voucher, and carries `peiwanId` exactly when the typed target is a positive integer |
| VoucherUse.CallResult | app/api/voucher/use/route.ts:41-60 | a call succeeds exactly when the internal API is configured and the bot accepts; otherwise it fails, with the configuration error when unconfigured |
| VoucherUse.UseVoucher | app/api/voucher/use/route.ts:62-193 | no session gives 401; a missing or unknown prize gives 400; no usable draw gives 400; an unresolved target for a targeted kind gives 404; otherwise exactly one call goes to the kind's endpoint with a usable draw and the right payload, and its result is the outcome |
| Withdraw.ParseAmount | app/api/withdraw/route.ts:17-24 | a finite number is taken as it is; a string is accepted exactly when it is not blank and converts to a finite number, which is the value of the numeric literal its trimmed text spells; anything else is rejected |
| Withdraw.ParseAmountLiteral | app/api/withdraw/route.ts:17-24 | text whose trimmed form is a numeric literal is accepted as that literal's value |
| Withdraw.ParseAmountHex | app/api/withdraw/route.ts:17-24 | an amount written `"0x10"` is 16 |
| Withdraw.ParseAmountIgnoresSpace | app/api/withdraw/route.ts:19-20 | blanks around an amount's text do not change what it parses to |
| Withdraw.EnsureMethod | app/api/withdraw/route.ts:26-29 | the payout method is a string's trimmed text and empty for any other value |
| Withdraw.EnsureMethodIdempotent | app/api/withdraw/route.ts:26-29 | a method that went through the normalisation once comes back unchanged |
| Withdraw.Status | app/api/withdraw/route.ts:33-101 | only a completed withdrawal answers 200; 401 and 404 belong to the missing session and missing member, every other failure is 400 |
| Withdraw.CheckRequest | app/api/withdraw/route.ts:33-51 | the request is refused for a missing session, a body that is not JSON, an amount that is not a positive integer, or an empty method, in that order; an accepted request carries exactly the parsed amount and method |
| Withdraw.Debited | app/api/withdraw/route.ts:71-78 | the debit lowers income and total balance by exactly the amount, keeps null columns null and changes no other column |
| Withdraw.DebitStaysNonNegative | app/api/withdraw/route.ts:63-78 | a positive amount is only taken from columns that cover it, so neither income nor balance goes below zero |
| Withdraw.HandleWithdraw | app/api/withdraw/route.ts:31-102 | a refused request or a missing or uncovered member changes nothing; otherwise the member is debited, one withdrawal row recorded, and every other table left as it was |
| ZPay.Get | lib/zpay.ts:17-18 | a value read is the one stored under the key, and a missing key reads as absent |
| ZPay.SignedKeys | lib/zpay.ts:14-19 | the signed keys are exactly the keys with a value other than `sign` and `sign_type`, each once |
| ZPay.BelowTransitive | lib/zpay.ts:20 | the key order is transitive |
| ZPay.BelowTotal | lib/zpay.ts:20 | any two different keys are ordered one way or the other |
| ZPay.BelowIrreflexive | lib/zpay.ts:20 | no key sorts before itself |
| ZPay.BelowAsymmetric | lib/zpay.ts:20 | no two keys sort before each other |
| ZPay.Insert | lib/zpay.ts:20 | inserting a new key into sorted keys keeps them sorted and adds exactly that key |
| ZPay.SortKeys | lib/zpay.ts:20 | the sort yields the same keys in strictly ascending order |
| ZPay.SortedUnique | lib/zpay.ts:20 | two strictly sorted sequences of the same keys are equal, so the sorted order is unique |
| ZPay.SignaturePayload | lib/zpay.ts:13-23 | the `key=value` pairs of the keys other than `sign` and `sign_type` that carry a value, sorted, joined by `&` (a definition; ZPay.SignedKeys and ZPay.SignaturePayloadCanonical state its properties) |
| ZPay.SortedKeysCanonical | lib/zpay.ts:13-20 | the sorted key list depends only on which keys carry a value, not on their insertion order |
| ZPay.RenderAgrees | lib/zpay.ts:22 | the rendered pairs depend only on the values of the rendered keys |
| ZPay.SignaturePayloadCanonical | lib/zpay.ts:13-23 | two parameter sets with the same non-null values outside `sign` and `sign_type` have the same payload, whatever their order |
| ZPay.Signature | lib/zpay.ts:25-26 | the MD5 hash of the payload followed by the secret (a definition; ZPay.VerifyOwnSignature and ZPay.PayUrlVerifies use it) |
| ZPay.VerifySignature | lib/zpay.ts:28-36 | a missing or empty signature never verifies, and one that verifies has the expected signature's length |
| ZPay.VerifySignatureExactly | lib/zpay.ts:28-36 | a signature verifies exactly when it is present, not empty, and equal to the expected one once both are lower-cased |
| ZPay.VerifyIgnoresSignFields | lib/zpay.ts:28-36 | verification does not depend on the `sign` and `sign_type` fields of the parameters |
| ZPay.VerifyOwnSignature | lib/zpay.ts:33-35 | the expected signature verifies against itself |
| ZPay.VerifyUpperCaseSignature | lib/zpay.ts:33-35 | an ASCII signature, as a hexadecimal digest is, also verifies in upper case |
| ZPay.Lift | lib/zpay.ts:11 | plain string parameters keep their keys, order and values |
| ZPay.AssignGet | lib/zpay.ts:40 | after `{ ...params, key: value }` the key reads as the new value and every other key as before |
| ZPay.AssignDistinct | lib/zpay.ts:40 | the spread keeps keys distinct |
| ZPay.PayUrlParams | lib/zpay.ts:39-40 | the URL's parameters keep keys distinct |
| ZPay.BuildPayUrl | lib/zpay.ts:38-42 | the payment URL is the gateway followed by `?` and the query |
| ZPay.PayUrlVerifies | lib/zpay.ts:38-42 | the URL carries the request's signature and `sign_type=MD5`, and its parameters verify against that signature with the same secret |
| ZPay.LastFour | lib/zpay.ts:51 | `slice(-4)` is the last four characters, or the whole of a shorter id |
| ZPay.Timestamp | lib/zpay.ts:46-49 | the timestamp is fourteen digits reading back as year, month, day, hours, minutes and seconds |
| ZPay.NatToDigitsLength | lib/zpay.ts:50 | a number in the three-digit range is written with three digits |
| ZPay.BuildOutTradeNo | lib/zpay.ts:44-53 | the order number is the timestamp, a three-digit number from 100 to 999, and the id's last four characters |
| ZPay.GatewayUrl | lib/zpay.ts:55 | the configured gateway is used unless unset or empty, then the default |
| ZPay.RequiredConfig | lib/zpay.ts:57-64 | the configuration is available exactly when merchant id and secret are both set and non-empty |
| Bot.ErrorWithStatus | app/api/lottery/use/route.ts:81-92 | a rejected call reports the bot's own error text when it gives one, otherwise the prefix with the status in parentheses |
| RechargeOrder.ParseAmount | app/api/recharge/order/route.ts:29-35 | a string goes through `Number`, a number is taken as it is, and only finite values are kept |
| RechargeOrder.ParseAmountPrefixed | app/api/recharge/order/route.ts:29-35 | an amount written `"0B101"` is 5, and one written `"-0x10"` is not a number |
| RechargeOrder.Channel | app/api/recharge/order/route.ts:62-64 | the channel is always supported: the one asked for when supported, `alipay` otherwise |
| RechargeOrder.Status | app/api/recharge/order/route.ts:40-119 | only a created order answers 200; 401 and 500 each belong to one outcome |
| RechargeOrder.CheckRequest | app/api/recharge/order/route.ts:40-64 | the request is refused for a missing session, missing configuration, a body that is not JSON, a non-positive or non-finite amount, or an amount below the minimum, in that order; an accepted request carries the parsed amount and the chosen channel |
| RechargeOrder.PayParams | app/api/recharge/order/route.ts:93-102 | the signed parameters have distinct keys and carry the merchant, channel, order number and amount text |
| RechargeOrder.GetAt | app/api/recharge/order/route.ts:93-102 | with distinct keys each key reads as the value at its own position |
| RechargeOrder.NewOrder | app/api/recharge/order/route.ts:84-91 | a created order carries its number, member, amount and channel and is pending, unpaid and without a gateway number |
| RechargeOrder.CreateRechargeOrder | app/api/recharge/order/route.ts:39-120 | a refused request or a clashing order number changes nothing; otherwise exactly one pending order is stored and the answer carries its number, channel, amount text, return URL and the signed payment URL |
| RechargeOrder.SignedMoneyMatchesStoredAmount | app/api/recharge/order/route.ts:66-67 | the `money` text the order signs is read back by the notify handler as exactly the stored amount |
| RechargeOrder.CreatedOrderSettles | app/api/recharge/order/route.ts:84-109 | an authentic notification echoing a created pending order's number and amount settles that order for its stored amount |
| RechargeOrder.StoredAmountIsRounded | app/api/recharge/order/route.ts:37 | the stored amount is the request to the cent, within half a cent, and positive whenever the request passes the default minimum |

## Left out

- Discount.ComputeDiscountAmount: works on exact reals, so decimal.js's rounding of intermediate results to 20 significant digits is not modelled. A fee whose exact rebate lands on a half cent can round differently from the program.
- JavaScript numbers are exact reals (or `bv32` for the shuffle), not IEEE doubles. Precision loss in `Number()` of long digit strings, such as very large ids of recommended cards, is not modelled.
- Shuffle.SwapIndex: takes `rng()` as the exact fraction `u / 2^32`. The double division of `mulberry32` is exact for these values, so only the floating-point type itself is left out.
- Text.ToLower: lowers the ASCII capitals and the Kelvin sign (the one character outside ASCII whose small letter is ASCII) and keeps every other character. Comparisons against hex digests and extension lists are therefore exact; an error message that echoes a non-ASCII capital may differ from JavaScript's.
- Text.ToUpper: upper-cases ASCII letters and the letters whose upper case is ASCII (ß, ı, ſ and the Latin ligatures); every other character is kept. Its result equals JavaScript's whenever it is ASCII, so comparisons against ASCII constants such as `TRADE_SUCCESS` and the referral types are exact; a non-ASCII result may differ.
- Money.DecimalFromString: the hexadecimal, octal and binary forms of decimal.js are taken as integers only; a radix literal with a fraction or a `p` exponent is treated as rejected by the constructor.
- PaymentNotify.NotifiedAmount: inherits the radix restriction of Money.DecimalFromString.
- Discount.QuoteRebate: among unnamed lottery draws that tie on expiry and creation time the database may return any one; the model leaves that choice open, so when tied draws would give different rebates the no-fee and grant outcomes are both allowed. Discount.FeeCheckDetermined shows the outcome is pinned for coupons and named draws.
- ZPay.VerifyUpperCaseSignature: promised for ASCII signatures only, because JavaScript's upper-then-lower round trip changes `ß` into `ss`.
- Discountable.DiscountableOrders: orders with equal end times may come from the query in any order; the model accepts every such order.
- ZPay.SortKeys: sorts by character code, not by `localeCompare`. The two orders agree on the keys this program signs. They differ on arbitrary keys, for example keys mixing letter case.
- MD5, HMAC-SHA256, base64url, JSON, URL escaping and URL parsing are function parameters; in the Discord callback, whether `new URL(target, origin)` accepts the target is the `resolves` parameter. Their own properties, such as collision resistance or the validity of configured URLs, are not modelled.
- Concurrency and transaction isolation are not modelled. Each handler is one sequential, atomic method. So the notify handler's PAID check outside its transaction and the discount's unconditional instrument update cannot race in the model.
- The admin writes that the program makes outside a transaction are modelled as one atomic step.
- PeiwanListing: the `price` field of the listing cards is not modelled. It is looked up through a quotation-code table that is not part of this model.
- Withdraw.HandleWithdraw: writes no ledger row, because the program writes none. The ledger invariant therefore says nothing about withdrawals.
- Session.NormalizeRedirectTarget: keeps any target starting with `/`, including `//host`, as the program does. Whether that is an open redirect depends on the browser and is not modelled.
- RecommendUpload: directory creation and write or remove errors of the file system are not modelled. The folder is a map from names to contents.
- AdminTransactions.DateBound: date parsing is a parameter (`new Date(value)` as a function to milliseconds).
- Page styling, such as the colour classes of ledger rows, and all React rendering are not modelled.
- The admin ledger page's lookup of member display names is not modelled.
- The heart page's database aggregates and top-ten lists are not modelled; the model takes the heart total as input.
- Heart.FormatCount: does not model the `NaN` branch for non-finite input (the model's totals are integers), nor the locale's digit grouping beyond thousands separated by commas.
- Console logging is not modelled.
- The Discord OAuth token exchange, the user lookup, the login redirect route and the cookie jar are not modelled. Their results are parameters, and only the values written to cookies are modelled.
- The bot's side of gift, rename-card and voucher calls is not modelled. Each call is answered by a parameter reply (accepted, or rejected with a status and an optional error).

## Findings

| source | as written | input that shows it | evidently intended | confidence | as-written member | corrected member |
|---|---|---|---|---|---|---|
| lib/session.ts:45-50 | the signature lengths are compared in UTF-16 code units, and then `timingSafeEqual` is called on the UTF-8 buffers, which throws when their byte lengths differ | a token whose signature has the expected number of UTF-16 units but whose first character is `é` (two UTF-8 bytes) | such a token is rejected: no session, no exception | not executed | Session.AsWrittenThrowsOnWideSignature | Session.DecodeToken |
