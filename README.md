# Playtime promotion bot: the promotion pass

This project models the promotion logic of a small web service for an
online-game community group. A game server reports a member's total
playtime to `POST /log-playtime`. The handler:

- checks the API key and the request fields;
- looks up the member's current group role;
- walks a fixed promotion table in order;
- for each tier, asks the group service to promote the member when all
  three hold:
  - the playtime meets the tier's threshold;
  - the member's current role id is below the tier's role id;
  - the in-memory promotion log has no entry for that member and role id;
- appends one log entry for every promotion that the group service
  accepted.

Files:

- `promotions.dfy`, module `Promotions`, holds the pure part:
  - the literal table: thresholds 20, 40, 60 and 180 seconds, with role ids
    116368233, 112856307, 112064304 and 113240294 (not ascending);
  - the per-tier test and the membership check against the log;
  - `Attempted`, `Succeeded` and `PassLog`, which specify one pass against
    the log as it was before the pass;
  - the lemmas about that specification.
- `bot.dfy`, module `Bot`, holds the handler:
  - the request guard;
  - JavaScript truthiness for `userId`, `playtime` and the looked-up rank;
  - the class `PromotionBot`, whose field `log` is the promotion log.
    `ProcessReport` is the `for` loop of the handler and appends to `log`
    in place. `LogPlaytime` is the whole handler.

External calls become parameters:

- `getCurrentRank` is a function from a user id to `Option<int>`. `None`
  stands for the `null` returned when the lookup fails or the user is not in
  the group.
- `promoteUser` is a function from a (user id, role id) pair to `bool`.
  Within one pass each role id is tried at most once, so a pure function
  describes every run of a single pass exactly. Each pass takes its own
  function, so separate passes may get different answers.

Notes on the code's literal behaviour, which the model keeps:

- Eligibility compares raw role ids. With this table it is not monotone in
  tier index: `RawRoleIdComparisonSkipsMiddleTiers` shows a member being
  attempted for tiers 0 and 3 but not for tiers 1 and 2.
- A playtime of 0 is rejected as a missing parameter. A negative playtime
  passes the guard and then qualifies for no tier.
- A rank of `null` or 0 means "not in group". The handler answers with
  success, makes no promotion call and leaves the log unchanged.
- The API key is compared with strict inequality, so a server with no key
  configured accepts requests that carry no key header. The model keeps
  this: both keys are `Option<string>`.
- What the code does not have, and the model therefore does not have either:
  - no cached authentication token: every promotion call fetches a fresh
    CSRF token, and there is no token refresh and no retry; a promotion call
    that fails is simply `false`;
  - no per-tier outcome list: the handler answers `{ success: true }`;
  - no ordering assumption on role ids: they do not increase with tier
    index.

## Model

| member | source | states |
|---|---|---|
| `Promotions.TableShape` | bot.js:13-18 | the constant `Table` has four tiers; thresholds strictly increase from 20 to 180 seconds, while the role ids do not (the second and third are below the first) |
| `Promotions.Eligible` | bot.js:72 | the per-tier test: playtime at or above the threshold and the current role id below the tier's role id |
| `Promotions.AlreadyPromoted` | bot.js:73-75 | the `.some` check holds if and only if the entry {userId, roleId} is in the log |
| `Promotions.PassLog` | bot.js:84-88 | the log after a pass extends the old log, by at most one entry per tier, and every new entry belongs to the reporting user |
| `Promotions.RoleIdsDistinct` | bot.js:14-17 | the four tiers of the table have pairwise distinct role ids |
| `Promotions.Attempted` | bot.js:71-77 | the tiers a pass attempts among the first n tiers of the table; every index it returns is below n |
| `Promotions.Succeeded` | bot.js:78-90 | the attempted tiers whose promotion call succeeded among the first n tiers; every index it returns is below n |
| `Promotions.AttemptedMembers` | bot.js:71-77 | a tier is attempted if and only if it passes the tier test and the log check; the attempted tiers are strictly increasing (table order) |
| `Promotions.SucceededMembers` | bot.js:78-90 | a tier succeeds if and only if it is a candidate and the promotion oracle accepts it; the succeeded tiers are strictly increasing |
| `Promotions.AttemptCondition` | bot.js:72-77 | tier i is attempted if and only if playtime >= its threshold, current role id < its role id, and no log entry has this userId and role id |
| `Promotions.BelowLowestThresholdNothingAttempted` | bot.js:13-18 | with playtime below 20 seconds, a pass attempts no tier |
| `Promotions.NoCandidateNoAttempt` | bot.js:71-77 | when no tier below n passes the test, nothing is attempted and nothing is appended |
| `Promotions.AppendedShape` | bot.js:84-88 | the appended entries match the succeeded tiers one to one, in table order; each is {userId, that tier's roleId} and was not already in the log |
| `Promotions.PromotedAfterPass` | bot.js:73-90 | after a pass the log holds an entry (user, tier i) if and only if it held one before, or tier i was attempted and its promotion succeeded; a failed attempt adds nothing |
| `Promotions.PassKeepsNoDuplicates` | bot.js:73-88 | if the log had no duplicate (userId, roleId) pair before a pass, it has none after |
| `Promotions.RepassRetriesOnlyFailures` | bot.js:73-79 | a second pass with the same user, playtime and rank attempts exactly the tiers whose first attempt failed |
| `Promotions.SecondPassIsNoOp` | bot.js:73-77 | once every attempted tier has succeeded, a second identical pass attempts nothing and leaves the log unchanged, whatever the promotion oracle answers |
| `Promotions.RawRoleIdComparisonSkipsMiddleTiers` | bot.js:72 | with the literal table and an empty log, a member at role 112900000 with 200 seconds is attempted for tiers 0 and 3 only |
| `Promotions.PassStep` | bot.js:71-90 | processing tier i adds i to the attempted tiers exactly when the tier test and the check against the current log (old log plus entries appended earlier in the pass) pass, and appends one entry exactly when that attempt succeeds; entries appended earlier in the pass never answer the check for tier i |
| `Bot.Guard` | bot.js:49-58 | a wrong API key gives 403 before any field is examined; otherwise a falsy userId or playtime (missing, "", 0) gives 400; otherwise the request proceeds with the given userId and a nonzero playtime |
| `Bot.TruthyUserId` | bot.js:55 | a userId is truthy if and only if it is present and is neither "" nor 0 |
| `Bot.TruthyPlaytime` | bot.js:55 | a playtime is truthy if and only if it is present and is not 0 |
| `Bot.IsMember` | bot.js:65 | the looked-up rank counts as membership if and only if it is neither null nor 0 |
| `Bot.StatusCode` | bot.js:52-67 | 403 exactly for Unauthorized, 400 exactly for BadRequest, 200 for "not in group" and for the success answer (bot.js:94) |
| `Bot.ZeroPlaytimeIsBadRequest` | bot.js:55 | a request with the correct key and a playtime of 0 is rejected with 400 |
| `Bot.PromotionBot.constructor` | bot.js:25-30 | the log starts as the persisted entries |
| `Bot.PromotionBot.ProcessReport` | bot.js:70-93 | the loop attempts exactly `Attempted` of the old log and leaves the log equal to the old log followed by one entry per succeeded tier; the old log is a prefix of the new one (append-only) |
| `Bot.PromotionBot.LogPlaytime` | bot.js:44-99 | a rejected request gets 403 or 400 and a non-member gets "not in group"; in both cases there is no promotion call and the log is unchanged; otherwise the answer is success and the log is updated by one pass; the status is 403 for a key mismatch, else 400 for a falsy field, else 200 |

## Left out

- HTTP plumbing is not modelled: the Express app, `app.listen`, the `/` and `/health` routes, body parsing and the keep-alive timer with `Date.now()`. It is I/O and timing around the handler.
- The network calls inside `getCurrentRank` and `promoteUser` are replaced by oracle parameters. Fetching a CSRF token and sending the PATCH request happen outside Dafny. Any exception inside them shows up only as `null` or `false`.
- `sendWebhook` is not modelled: the Discord notification and its `toFixed(1)` hours formatting. It is awaited after a successful `promoteUser` and before the `push`, but it catches its own errors, so once it settles it never affects the log or the answer.
- The model assumes that every awaited call (`getCurrentRank`, `promoteUser`, `sendWebhook`) settles. The HTTP client is given no timeout, so a call may never settle. If `sendWebhook` hangs, the promotion has been applied by the group service but is never logged, and the handler never answers.
- File persistence is not modelled. A failed `readFileSync`/`JSON.parse` at start-up leaves the log empty, which is covered by passing `[]` to the constructor. A saved file that parses to something other than an array is not modelled: `promotionLog.some` then throws and every pass that reaches the log check answers 500. Neither is an array with a `null` element such as `[null]`: the callback of `.some` reads `entry.userId` on it and throws, so every pass that reaches the log check answers 500.
- `Bot.PromotionBot.ProcessReport` and `Bot.PromotionBot.LogPlaytime` assume every `writeFileSync` after an append succeeds. In the code that write is synchronous and can throw (disk full, no permission). It runs after the in-memory `push`, so a throw keeps the new entry in memory, skips the remaining tiers and answers 500. The model always runs all four tiers and answers success.
- The ISO timestamp stored in each log entry comes from the clock, so it is left out. The membership check never reads it.
- The 500 response is not modelled. The awaited calls catch their own errors, so it comes only from a throwing `writeFileSync`, from a log that is not an array, or from a log with a `null` element, all described above.
- Console logging and the `Math.floor(playtime/60)` display are not modelled. The same goes for `dotenv`, the environment variables (the configured API key is a parameter) and the process crash handlers.
- JavaScript type coercion is not modelled: a string playtime compared with `>=`, a NaN playtime, and `userId` values that are neither strings nor integers. `playtime` is a real and `userId` is a string or an integer.
- Concurrency is not modelled. Interleaved requests for the same user can both pass the membership check before either appends. The model treats each pass as atomic.
