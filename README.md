# CoinPlay ledger and client rules, modelled in Dafny

CoinPlay is a play-money site. Users get virtual cash from a 12-hour faucet, create coins, hold coin
balances, and bet on coin flips. This project models the bookkeeping core of its backend and the
arithmetic and validation rules of its frontend.

**Backend tables.** The four tables are classes whose fields the statements update in place:

- `users` is `Users.UserTable`: a map from uid to row.
- `coins` is `Coins.CoinTable`.
- `portfolios` is `Portfolio.HoldingTable`: one row per (user, coin).
- `transactions` and `bets` are `Transactions.TransactionLog` and `Bets.BetLog`: append-only logs.

Each SQL statement is one atomic method or function:

- A conditional `UPDATE` that matches no row returns `None` and changes nothing.
- A `SERIAL` sequence advances even when its insert fails.
- `SUM` over no rows is `None`.
- `ORDER BY` is a stable insertion sort, one of the orders SQL allows.

**Read queries.** These are functions over a snapshot of the tables: holdings, holders, price history,
24-hour volume and price, and a user's bet history.

**Controllers.** The faucet (`canClaimCash`, `ClaimCash`) and the coin-creation handler are modelled with
their status codes. The coin-creation handler debits nothing. The backend coin flip only draws a side.
It reads no bet and moves no cash, and the model keeps both facts.

**Frontend rules.** Each is modelled as a function:

- the constant-product sell quote and the guards of the sell dialog;
- the name and symbol validators and the symbol normalisation of the create-coin dialog;
- the one-minute open/high/low/close bucketing of the price chart;
- the claim countdown of the side bar;
- the quick-bet, guard and outcome text of the coin-flip page;
- the betting statistics of the public profile.

**JavaScript semantics.** The model spells these out:

- `NaN` and `undefined` are `None`, and every comparison with them is false.
- `x || 0` maps a falsy value to 0.
- `parseInt` reads a leading run of digits.
- `toUpperCase` maps ASCII only.

Integers are unbounded, and times are milliseconds since the epoch. Clocks (`now`) and the random numbers
(the flip side, the user-name suffix) are parameters.

**Where the design and the code differ, the model follows the code.**

- The design describes a coin-creation fee and fixed initial reserves. The backend `createCoin`
  charges nothing and sets no reserve. Only the dialog asks for a balance of 1000, and nothing
  debits it.
- The coins table definition has no `token_reserve` or `base_reserve` columns, yet
  `getUserCoinHoldings` reads both. The coin record carries them, and a new coin takes them from
  constructor parameters of the table.
- The design describes a buy/sell coordinator: locking, quoting, debiting and updating the pool.
  The code here has only its building blocks, so the model has the conditional statements and the
  client-side sell quote. It invents no coordinator and no lock order.

## Model

| member | source | states |
|---|---|---|
| Text.Trim | frontend/src/components/coin/CreateCoinModal.tsx:25 | `trim()` is empty exactly for blank input; otherwise it neither starts nor ends with white space |
| Text.Upper | backend/src/models/Coin.ts:55 | the ASCII upper-casing of each character, keeping the length: only `a`-`z` change |
| Text.UpperIdempotent | backend/src/models/Coin.ts:55 | upper-casing twice equals upper-casing once |
| Text.ParseIntOfPrintedNumber | frontend/src/components/UserPortfolio.tsx:101 | `parseInt` reads back a printed non-negative integer followed by any non-digit text |
| Text.ParseIntPrefix | frontend/src/components/UserPortfolio.tsx:101 | `parseInt` gives `NaN` for the empty text, a non-negative number for text starting with a digit, and a negative one only behind a leading `-` |
| Users.NewUser | backend/src/models/User.ts:30-32 | a new row has balance 0, claimed cash 0 and a last claim 25 hours before creation |
| Users.LocalPart | backend/src/models/User.ts:60 | `split('@')[0]` is the prefix before the first `@`, or the whole address when there is none |
| Users.StripNonAlnum | backend/src/models/User.ts:61 | the result holds only ASCII letters and digits of the input, each letter and digit as often as in the input |
| Users.StripNonAlnumScan | backend/src/models/User.ts:61 | the empty string yields nothing, and one more character at the end is appended exactly when it is an ASCII letter or digit, so order is kept |
| Users.GeneratedUsernameShape | backend/src/models/User.ts:60-61 | a generated user name is the cleaned local part followed by the decimal suffix, all alphanumeric |
| Users.GeneratedUsername | backend/src/models/User.ts:60-61 | the generated user name is never empty and holds only ASCII letters and digits |
| Users.UserTable.constructor | backend/src/models/User.ts:20-35 | an empty table with the uid sequence at 1 satisfies the key and uniqueness invariant |
| Users.UserTable.FindById | backend/src/models/User.ts:88-108 | returns the row with that uid, or `None` exactly when the uid is unknown |
| Users.UserTable.FindOrCreate | backend/src/models/User.ts:50-86 | a row matching by Google id or e-mail is returned and nothing is inserted; otherwise the defaults row with the generated name is inserted, or the insert fails on a taken name; balances stay non-negative |
| Users.UserTable.UpdateClaim | backend/src/models/User.ts:144-158 | balance and claimed cash rise by the same amount and the claim time is set, on that row only; an unknown uid changes nothing |
| Users.UserTable.UpdateBalance | backend/src/models/User.ts:159-170 | debits only when the balance covers the amount, and never leaves a negative balance; otherwise returns `None` and changes nothing |
| Users.UserTable.AddBalance | backend/src/models/User.ts:172-183 | adds the amount to exactly the target row; every other row is unchanged |
| Coins.LookupSymbol | backend/src/models/Coin.ts:54-59 | finds a stored coin whose symbol is the upper-cased argument, or `None` when there is none |
| Coins.LookupIgnoresCase | backend/src/models/Coin.ts:54-59 | a symbol and its upper-cased form find the same coin |
| Coins.LookupFindsStoredCoin | backend/src/models/Coin.ts:54-66 | with unique symbols, a lookup returns a coin exactly when that coin's symbol is the upper-cased argument |
| Coins.CoinTable.constructor | backend/src/models/Coin.ts:19-37 | an empty table satisfies the invariant: increasing ids, unique upper-case symbols |
| Coins.CoinTable.AllCoins | backend/src/models/Coin.ts:48-52 | returns every stored coin and nothing else |
| Coins.CoinTable.GetCoinBySymbol | backend/src/models/Coin.ts:54-66 | finds a coin exactly when some stored symbol equals the upper-cased argument (also the `FOR UPDATE` variant) |
| Coins.CoinTable.CreateCoin | backend/src/models/Coin.ts:68-83 | appends one coin with the upper-cased symbol, total supply 1000000000 and the given circulating supply; fails and stores nothing when the symbol exists |
| Coins.CoinTable.UpdateCirculatingSupply | backend/src/models/Coin.ts:85-89 | adds the amount to exactly one coin, with no bound against the total supply |
| Transactions.PriceHistory | backend/src/models/Transactions.ts:62-78 | the coin's price points, each as often as logged, in ascending time |
| Transactions.PriceHistoryMembers | backend/src/models/Transactions.ts:65-71 | a point is in the history exactly when a trade of that coin logged it |
| Transactions.Volume24h | backend/src/models/Transactions.ts:44-60 | `None` (SQL NULL) exactly when the coin has no trade in the last 24 hours |
| Transactions.VolumeAfterAppend | backend/src/models/Transactions.ts:47-53 | logging a recent trade of the coin adds its amount to the volume; any other trade leaves it unchanged |
| Transactions.Price24hAgo | backend/src/models/Transactions.ts:80-98 | the price of the earliest trade of the coin in the last 24 hours, or `None` when there is none |
| Transactions.TransactionLog.constructor | backend/src/models/Transactions.ts:19-30 | an empty log with increasing ids |
| Transactions.TransactionLog.CreateTransaction | backend/src/models/Transactions.ts:100-112 | appends exactly one row carrying the given fields; earlier rows are untouched |
| Bets.FindAllBetsByUser | backend/src/models/Bets.ts:52-64 | only the user's bets, newest first, at most 20 of them, never one more often than it was logged, and all of them when there are at most 20 |
| Bets.HistoryIsMostRecent | backend/src/models/Bets.ts:55 | a bet of the user left out of the history is no newer than any bet shown |
| Bets.BetLog.constructor | backend/src/models/Bets.ts:15-23 | an empty log with increasing ids |
| Bets.BetLog.CreateBet | backend/src/models/Bets.ts:38-50 | appends one row with the given user, amount and result |
| Portfolio.GetPortfolioForUpdate | backend/src/models/Portfolio.ts:197-212 | returns a holding of that user and coin, or `None` exactly when there is none |
| Portfolio.GetPortfolioIsTheHolding | backend/src/models/Portfolio.ts:197-212 | with one holding per pair, the lookup returns that holding |
| Portfolio.HoldingTable.constructor | backend/src/models/Portfolio.ts:20-28 | an empty table satisfies `UNIQUE(user_id, coin_id)` |
| Portfolio.HoldingTable.BuyCoin | backend/src/models/Portfolio.ts:156-175 | inserts a holding when the pair has none, else adds to it; keeps one holding per pair and non-negative amounts; a fractional amount fails and changes nothing |
| Portfolio.HoldingTable.SellCoin | backend/src/models/Portfolio.ts:177-195 | subtracts the floored amount only when the holding covers it, never going negative; otherwise returns `None` and changes nothing |
| Portfolio.CurrentPrice | backend/src/models/Portfolio.ts:226-229 | `base_reserve / token_reserve` when the token reserve is positive, else 0 |
| Portfolio.CoinHoldingRowsMembers | backend/src/models/Portfolio.ts:230-233 | the rows before ordering are exactly the user's positive holdings of existing coins |
| Portfolio.GetUserCoinHoldings | backend/src/models/Portfolio.ts:214-245 | a permutation of the user's positive holdings, by amount descending |
| Portfolio.UserCoinHoldingsReport | backend/src/models/Portfolio.ts:218-235 | each reported row is a positive holding of the user, with its coin's fields, price and the user's total spent on buys |
| Portfolio.HolderRowsMembers | backend/src/models/Portfolio.ts:139-142 | the rows before ordering are exactly the coin's positive holdings of existing users |
| Portfolio.GetHoldersByCoinId | backend/src/models/Portfolio.ts:127-154 | a permutation of the coin's positive holders, by amount descending |
| Portfolio.HoldersReport | backend/src/models/Portfolio.ts:133-144 | each reported holder is a positive holding of the coin, with the user's name and the sum of their buy costs |
| Portfolio.TotalSpentAfterAppend | backend/src/models/Portfolio.ts:138 | `total_spent` grows by a buy of that user and coin, and by nothing else |
| Portfolio.TotalSpent | backend/src/models/Portfolio.ts:138 | `COALESCE` makes `total_spent` 0 when the user bought none of the coin |
| Claims.Claimed | backend/src/controllers/AuthController.ts:134-141 | a claim raises balance and claimed cash by 1500 each and records the claim time |
| Claims.CanClaimCash | backend/src/controllers/AuthController.ts:92-115 | 401 without a uid, 404 for an unknown user; otherwise true exactly when the last claim is strictly older than 12 hours |
| Claims.CanClaim | backend/src/controllers/AuthController.ts:106-114 | the test of `canClaimCash` holds exactly when the time is strictly past the last claim plus 12 hours |
| Claims.ClaimDue | backend/src/controllers/AuthController.ts:134-141 | the test of `ClaimCash` fails for an unreadable time, and otherwise holds exactly when the strict test does or the time is exactly 12 hours after the last claim |
| Claims.ClaimCash | backend/src/controllers/AuthController.ts:117-158 | 401, 404, or 400 before 12 hours (measured against the client time) change nothing; otherwise credits 1500 to the caller's row only |
| Claims.CanClaimVersusClaimDue | backend/src/controllers/AuthController.ts:106-141 | a "can claim" answer implies a claim succeeds; they disagree exactly at 12 hours |
| Claims.BoundaryMismatch | backend/src/controllers/AuthController.ts:106-141 | exactly 12 hours after a claim, `canClaimCash` says no while `ClaimCash` credits |
| Claims.NewUserMayClaimAtOnce | backend/src/models/User.ts:32 | a new user may claim immediately under both tests |
| Claims.OneClaimPerCooldown | backend/src/controllers/AuthController.ts:134-141 | after a claim, the next one is due exactly 12 hours later; two claims credit 3000 |
| CoinCreation.CreateCoin | backend/src/controllers/CoinController.ts:15-33 | 401 without a creator, 400 for a falsy field (including supply 0), 500 on a duplicate symbol; 201 inserts exactly one coin; no balance is touched |
| SellModal.NewBaseReserveBounds | frontend/src/components/coin/SellCoinModal.tsx:32-34 | the pool's new base reserve keeps `k` and lies strictly between 0 and the old base reserve |
| SellModal.QuoteBounds | frontend/src/components/coin/SellCoinModal.tsx:29-40 | the quote lies in `[0, base)`; it is 0 for `NaN`, a non-positive amount or an empty reserve |
| SellModal.QuoteKeepsProduct | frontend/src/components/coin/SellCoinModal.tsx:32-36 | after the quoted trade, the reserve product is at least `k` |
| SellModal.QuoteMonotone | frontend/src/components/coin/SellCoinModal.tsx:32-36 | selling more never quotes less |
| SellModal.IntegerQuote | frontend/src/components/coin/SellCoinModal.tsx:31-36 | for whole token amounts the quote is `base * amount / (token + amount)` in integers |
| SellModal.UserHoldings | frontend/src/components/coin/SellCoinModal.tsx:23-27 | the amount of the first holder with the user's name, else 0 |
| SellModal.UserHoldingsFindsOwnHolding | frontend/src/components/coin/SellCoinModal.tsx:23-27 | looked up in the holders report, it is the user's own positive holding of the coin, else 0 |
| SellModal.HandleSell | frontend/src/components/coin/SellCoinModal.tsx:42-59 | sends a sale only for a logged-in user and a positive amount within the holding, in that order of checks |
| SellModal.SubmittedSaleIsCovered | frontend/src/components/coin/SellCoinModal.tsx:42-59 | a submitted sale floors to a whole amount between 0 and the holding |
| CoinForm.ValidateName | frontend/src/components/coin/CreateCoinModal.tsx:24-35 | each message exactly when its check is the first to fail: "required" for a blank name, then "at least 2" below two characters, then "less than 50" above fifty; `""` when all pass |
| CoinForm.ValidateSymbol | frontend/src/components/coin/CreateCoinModal.tsx:37-51 | each message appears exactly when its check is the first to fail; `""` exactly when all pass |
| CoinForm.AlnumSymbolIsNotBlank | frontend/src/components/coin/CreateCoinModal.tsx:37-51 | an alphanumeric symbol passes exactly when its length is 3 to 6 |
| CoinForm.NormaliseSymbol | frontend/src/components/coin/CreateCoinModal.tsx:60 | the normalised symbol holds only `A-Z0-9` and is no longer than the input |
| CoinForm.NormaliseKeepsAlnum | frontend/src/components/coin/CreateCoinModal.tsx:60 | a character survives exactly when it is an upper-cased ASCII letter or digit of the input |
| CoinForm.NormaliseFixesUpperAlnum | frontend/src/components/coin/CreateCoinModal.tsx:60 | an `A-Z0-9` symbol is left unchanged |
| CoinForm.NormaliseIdempotent | frontend/src/components/coin/CreateCoinModal.tsx:60 | normalising twice equals normalising once |
| CoinForm.NormalisedSymbolPasses | frontend/src/components/coin/CreateCoinModal.tsx:59-63 | a normalised symbol of length 3 to 6 passes `validateSymbol` and the symbol half of `isFormValid` |
| CoinForm.FormValidVersusValidators | frontend/src/components/coin/CreateCoinModal.tsx:99 | the form-valid flag and the validators agree on the symbol |
| CoinForm.FormValidSkipsNameLength | frontend/src/components/coin/CreateCoinModal.tsx:99 | a one-letter name enables submission yet fails `validateName` |
| CoinForm.HandleSubmit | frontend/src/components/coin/CreateCoinModal.tsx:65-96 | stops with both messages when a validator fails, stops below a 1000 balance, else requests the trimmed name and the symbol |
| CoinForm.SubmittedRequestIsWellFormed | frontend/src/components/coin/CreateCoinModal.tsx:65-84 | a sent request has a balance of at least 1000, a non-empty trimmed name and a valid symbol |
| PriceChart.BucketBounds | frontend/src/components/coin/CoinPage.tsx:53-54 | a point's bucket is the minute boundary at or before it, less than a minute earlier |
| PriceChart.BucketIsUnique | frontend/src/components/coin/CoinPage.tsx:54 | no other minute boundary contains the point |
| PriceChart.MaxOf | frontend/src/components/coin/CoinPage.tsx:66 | `Math.max` returns an element no smaller than any element |
| PriceChart.MinOf | frontend/src/components/coin/CoinPage.tsx:67 | `Math.min` returns an element no larger than any element |
| PriceChart.BucketPricesNonEmpty | frontend/src/components/coin/CoinPage.tsx:52-57 | a bucket has prices exactly when some point falls in it |
| PriceChart.BucketOpensWithFirstPoint | frontend/src/components/coin/CoinPage.tsx:65 | a bucket's first price is that of its first point in input order |
| PriceChart.BucketClosesWithLastPoint | frontend/src/components/coin/CoinPage.tsx:68 | a bucket's last price is that of its last point in input order |
| PriceChart.OhlcOf | frontend/src/components/coin/CoinPage.tsx:61-69 | a candle opens and closes with the first and last price, and `low <= open, close <= high` bound every price |
| PriceChart.BucketKeysMatchBuckets | frontend/src/components/coin/CoinPage.tsx:55-59 | the object's keys are exactly the listed bucket keys |
| PriceChart.BucketsHoldBucketPrices | frontend/src/components/coin/CoinPage.tsx:52-57 | each key files exactly its minute's prices, never none |
| PriceChart.BucketKeysDistinct | frontend/src/components/coin/CoinPage.tsx:59 | each bucket key is listed once |
| PriceChart.FillBuckets | frontend/src/components/coin/CoinPage.tsx:52-57 | the `forEach` loop builds exactly the bucket object and key list |
| PriceChart.Candles | frontend/src/components/coin/CoinPage.tsx:60-70 | one candle per key, in key order, each from its bucket |
| PriceChart.CandlesOfBuckets | frontend/src/components/coin/CoinPage.tsx:59-70 | candles from strictly ascending keys ascend, each from its minute's prices |
| PriceChart.SortedBucketKeys | frontend/src/components/coin/CoinPage.tsx:59 | the sorted keys strictly ascend and cover every point's minute |
| PriceChart.ProcessPriceHistory | frontend/src/components/coin/CoinPage.tsx:46-73 | empty for an empty history; otherwise one candle per occupied minute, strictly ascending, each the OHLC of that minute's prices |
| ClaimCountdown.RenderMinutesPart | frontend/src/components/sidebar/app-sidebar.tsx:57 | behind the hours and `"h "` come the minutes and `"min"` |
| ClaimCountdown.RenderReadsHours | frontend/src/components/sidebar/app-sidebar.tsx:57 | `parseInt` of the text gives the hours |
| ClaimCountdown.RenderReadsMinutes | frontend/src/components/sidebar/app-sidebar.tsx:57 | `parseInt` behind `"h "` gives the minutes |
| ClaimCountdown.FormatTimeLeft | frontend/src/components/sidebar/app-sidebar.tsx:50-58 | `"0h 0min"` for a non-positive time; otherwise `hours*60 + minutes` is the whole minutes, with `minutes < 60` |
| ClaimCountdown.WholeHours | frontend/src/components/sidebar/app-sidebar.tsx:53-54 | whole minutes divided by 60 give the whole hours |
| ClaimCountdown.FormatTimeLeftShowsHours | frontend/src/components/sidebar/app-sidebar.tsx:53-57 | the text reads back as the whole hours left |
| ClaimCountdown.FormatTimeLeftShowsMinutes | frontend/src/components/sidebar/app-sidebar.tsx:53-57 | the text reads back the leftover whole minutes after the hours |
| ClaimCountdown.NextClaim | frontend/src/components/sidebar/app-sidebar.tsx:77 | the next claim is 12 hours after the last one |
| ClaimCountdown.TimeLeft | frontend/src/components/sidebar/app-sidebar.tsx:79-82 | never negative; 0 exactly when a claim now would succeed; a positive value reaches the next claim; at most 12 hours |
| ClaimCountdown.Button | frontend/src/components/sidebar/app-sidebar.tsx:125-145 | disabled exactly when no claim is open or while loading; the offer is shown exactly when enabled; otherwise the spinner or the countdown |
| ClaimCountdown.ZeroCountdownAtBoundary | frontend/src/components/sidebar/app-sidebar.tsx:128-138 | at exactly 12 hours the button stays disabled showing `0h 0min`, though a claim would succeed |
| ClaimCountdown.OfferImpliesCountdownDone | frontend/src/components/sidebar/app-sidebar.tsx:128-143 | an open claim always comes with a countdown of 0 |
| CoinFlip.PercentageBet | frontend/src/components/CoinFlip.tsx:27-30 | `NaN` exactly without a balance; otherwise the floor of `cash*pct/100`, capped at 10000 |
| CoinFlip.PercentageBetBounds | frontend/src/components/CoinFlip.tsx:27-30 | for `0 <= pct <= 100` and a non-negative balance, the bet is between 0 and both the balance and 10000 |
| CoinFlip.FlipButtonDisabled | frontend/src/components/CoinFlip.tsx:278 | disabled exactly while flipping or when the guard of `handleFlip` refuses |
| CoinFlip.FlipBlocked | frontend/src/components/CoinFlip.tsx:33 | a `NaN` bet is never refused, and without a balance only a non-positive bet or one above 10000 is |
| CoinFlip.IsWin | frontend/src/components/CoinFlip.tsx:53 | a win exactly when the drawn side and the chosen side have the same name |
| CoinFlip.OutcomeText | frontend/src/components/CoinFlip.tsx:189-192 | the line starts with `Won` exactly on a win and with `Lost` exactly on a loss |
| CoinFlip.ShownOutcome | frontend/src/components/CoinFlip.tsx:53-54 | the line the page shows starts with `Won` exactly when the reply's side is the chosen side |
| CoinFlip.QuickBetIsFlippable | frontend/src/components/CoinFlip.tsx:27-33 | a quick bet on a loaded balance passes the guard exactly when it is positive |
| CoinFlip.NaNQuickBetPassesGuard | frontend/src/components/CoinFlip.tsx:27-33 | before the balance loads, a quick bet is `NaN` and passes the guard |
| CoinFlip.ServerReply | backend/src/controllers/GamblingController.ts:4-14 | the reply is a success carrying the drawn side and no amount |
| CoinFlip.NumberText | frontend/src/components/CoinFlip.tsx:190-191 | an integer prints as its decimal digits, with a minus sign when negative |
| CoinFlip.ShownOutcomeLosesAmount | frontend/src/components/CoinFlip.tsx:189-192 | with the server's reply, a win reads `Won $NaN` and a loss `Lost $undefined` |
| CoinFlip.CorrectedWinText | frontend/src/components/CoinFlip.tsx:190 | with the sent bet, the win line is spelled out with twice the bet |
| CoinFlip.CorrectedWinShowsDouble | frontend/src/components/CoinFlip.tsx:190 | the win line reads back as twice the bet |
| CoinFlip.CorrectedLossText | frontend/src/components/CoinFlip.tsx:191 | with the sent bet, the loss line is spelled out with the bet |
| CoinFlip.CorrectedLossShowsBet | frontend/src/components/CoinFlip.tsx:191 | the loss line reads back as the bet |
| BetStats.TotalBets | frontend/src/components/UserPortfolio.tsx:98 | the number of bets, 0 without a list |
| BetStats.TotalWins | frontend/src/components/UserPortfolio.tsx:99 | at most the bets; all of them exactly when every bet is a win; 0 exactly when none is |
| BetStats.Losses | frontend/src/components/UserPortfolio.tsx:203 | non-negative, and adds up with the wins to all bets |
| BetStats.WinRate | frontend/src/components/UserPortfolio.tsx:100 | 0 without bets; otherwise the win share in percent, between 0 and 100 |
| BetStats.ParsedAmounts | frontend/src/components/UserPortfolio.tsx:101 | one `parseInt` result per bet, in order |
| BetStats.NaNAbsorbs | frontend/src/components/UserPortfolio.tsx:101 | one `NaN` term makes the sum `NaN` |
| BetStats.SumParsed | frontend/src/components/UserPortfolio.tsx:101 | the `reduce` is `NaN` exactly when some term is `NaN` |
| BetStats.TotalWagered | frontend/src/components/UserPortfolio.tsx:101 | 0 without a list, and a non-zero total is the sum of the parsed amounts; see UnreadableAmountZeroesTotal and TotalWageredOfStoredAmounts for its value |
| BetStats.UnreadableAmountZeroesTotal | frontend/src/components/UserPortfolio.tsx:101 | one unreadable amount makes the shown total 0 |
| BetStats.StoredAmountReadsBack | frontend/src/components/UserPortfolio.tsx:101 | `parseInt` reads a stored `DECIMAL(20, 7)` whole amount back |
| BetStats.SumOfNumbers | frontend/src/components/UserPortfolio.tsx:101 | without `NaN`, the reduce is the plain sum |
| BetStats.TotalWageredOfStoredAmounts | frontend/src/components/UserPortfolio.tsx:101 | for stored whole amounts, the total wagered is their sum |
| BetStats.Shown | frontend/src/components/UserPortfolio.tsx:226-227 | the first `min(10, n)` bets in reply order |

## Left out

- Row locks (`FOR UPDATE`), transactions and the connection pool. Each statement is one atomic step, and concurrency is not modelled.
- Server start-up, route wiring and middleware.
- OAuth, JWT and cookies, which means `GoogleLogin`, `GetUser` and `Logout`. They are network calls and foreign libraries.
- `Math.random`. The flip side and the user-name suffix are parameters, and the suffix is not bounded below 1000.
- `findByGoogleId`, `findByEmail` and `findByUsername`. These are thin single-row reads that the modelled core does not call.
- `getLeaderboard`. It joins bets on a column the bets table does not have, so its result is not defined.
- `getUserPortfolio` and its controller, which are read wrappers.
- The frontend fetch stores and `BuyCoinModal`. They are HTTP calls and React state.
- Rendering and display formatting: `toFixed`, `toLocaleString`, currency formatting, and the digits of the win rate.
- IEEE double rounding. Quotes and prices are exact rationals, and amounts are integers.
- Unicode case mapping beyond ASCII, UTF-16 code units, and the radix prefixes of `parseInt`.
- `parseFloat` and `Number` text parsing. Parsed numbers reach the model as values, with `None` for `NaN`.
- Foreign keys, `VARCHAR` lengths and `NOT NULL` checks.
- Missing JSON fields are modelled only where the code reads them through `?.` or `||`.
- Chart points whose `created_at` does not parse.
- Coins.CoinTable.CreateCoin: the reserve columns take constructor parameters, because the table definition gives them no default.
- Bets.FindAllBetsByUser: bets with equal timestamps keep their log order. SQL leaves that order open, so the contract states only the non-increasing time order.
- Portfolio.GetUserCoinHoldings: the contract states the ordering and the permutation, not the order among equal amounts, which SQL leaves open.
- Portfolio.GetHoldersByCoinId: the contract likewise leaves the order among equal amounts open.

- ClaimCountdown.ZeroCountdownAtBoundary: treats `canClaim` as computed at the same `now` as the countdown, with one clock for server and browser. The page fetches `canClaim` only on mount, on a change of user and after a claim (frontend/src/store/PortfolioStore.tsx, frontend/src/components/sidebar/app-sidebar.tsx:68-72) while the countdown refreshes every minute (app-sidebar.tsx:89), so past twelve hours the disabled `0h 0min` button can stay until a reload, and the two clocks can differ.
- ClaimCountdown.OfferImpliesCountdownDone: the same single `now` and freshly fetched `canClaim`; a stale `canClaim` of `true` is not modelled.
- Integer widths: balances, amounts and supplies are unbounded integers here. PostgreSQL raises `bigint out of range` when a BIGINT `balance`, `amount` or `circulating_supply` overflows (in `UpdateBalance`, `AddBalance`, `BuyCoin` and the unbounded `UpdateCirculatingSupply`), and JavaScript `Number` loses precision above 2^53; neither is modelled.

## Findings

| source | as written | input that shows it | evidently intended | confidence | as-written member | corrected member |
|---|---|---|---|---|---|---|
| frontend/src/components/CoinFlip.tsx:54 | the outcome amount comes from `data.AmountWagered`, which the reply of backend/src/controllers/GamblingController.ts:9-13 never carries, so the line reads `Won $NaN` or `Lost $undefined`; in addition backend/src/routes/GamblingRoutes.ts:8 registers `/coinflip` for GET while CoinFlip.tsx:40-41 sends a POST, so the request reaches `coinflip` only once route and page agree, and the finding holds from then on | any flip, for example a winning flip on heads | the line shows twice the bet on a win and the bet on a loss | not executed | CoinFlip.ShownOutcomeLosesAmount | CoinFlip.CorrectedWinShowsDouble |
