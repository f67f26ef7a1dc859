# Crypto holdings helpers — a Dafny model

This project models the computational core of a serverless API that reports a
user's cryptocurrency holdings on Binance. It covers four small pieces of the code:

- **Decimal helpers** (`src/util/calculateUtil.ts`): `sum`, `minus` and `multiply`
  over a list of numbers, and `aveBuyPrice`, the quantity-weighted average price
  of a list of trades. The source uses the arbitrary-precision decimal library
  bignumber.js, so values are exact `real`s here. Each helper is a JavaScript
  `reduce` without an initial value. The model keeps that shape: the first element
  seeds the accumulator and the callback sees the later elements with their index.
  The reductions are proved equal to plain recursive totals and products.
  `aveBuyPrice` is proved to be Σ(price·qty)/Σqty. It lies between the lowest and
  highest price when quantities are positive. It is independent of trade order and
  of every field other than `price` and `qty`.
- **Held-coin list** (`src/util/binanceUtil.ts`): `getAllBalances` keeps the balances
  with a positive amount. `getHasCoinList` then walks them in a loop. It skips a
  balance whose `<asset>USDT` price cannot be fetched, and a balance worth less than
  1 USDT. It pushes the rest unchanged. The loop is a method proved against a
  specification function. Lemmas characterise that function: an element-by-element,
  order-preserving filter that keeps exactly the priced balances worth at least 1.
- **Settled-promise filter** (`src/util/assertUtil.ts`): the values of the fulfilled
  outcomes of `Promise.allSettled`, in order; rejected outcomes are dropped.
- **CORS preflight** (`src/handlers/preflight.ts`): three guards in a fixed order.
  They check that the origin whitelist is present, that the origin header is
  present, and that the origin is one of the whitelist's comma-separated entries.
  Each guard has its own 403 message. On success the origin is written into
  `Access-Control-Allow-Origin` and the status is 200. JavaScript's
  `split(',')` is modelled exactly (no trimming, empty pieces kept), and its
  round trip with `join` is proved both ways.

Module layout: `Wrappers` (an `Option` type), `CalculateUtil`, `BinanceUtil`,
`AssertUtil`, `Preflight`, one file each.

Where the intended design and the code differ, the model follows the code:

- A zero quantity total in `aveBuyPrice` is not reported as a distinct error. bignumber.js
  returns NaN or Infinity, so the model makes a non-zero total a precondition.
- Sell trades are not filtered out by `aveBuyPrice`. The model proves that `isBuy`
  has no influence on the result.
- The unit test in `__tests__/unit/util/binanceUtil.test.ts` calls `fetchBalances`,
  which `src/util/binanceUtil.ts` does not define. Its fixture matches the rules of
  `getHasCoinList`, and `BinanceUtil.HasCoinListExample` proves that fixture
  against `getHasCoinList`.

## Model

| member | source | states |
|---|---|---|
| `CalculateUtil.Reduce` | src/util/calculateUtil.ts:13-15 | a seedless `reduce` (also at lines 27-29, 41-43, 69 and 75): a one-element list is its own result; otherwise the callback is applied last to the reduction of all but the last element, the last element and its index. `ReduceFrom` walks the list from index 1, and `AddStep`, `SubtractStep` and `MultiplyStep` are the three callbacks |
| `CalculateUtil.Sum` | src/util/calculateUtil.ts:11-17 | `sum` returns the exact total of all its inputs, as an independent recursive `Total` defines it |
| `CalculateUtil.Minus` | src/util/calculateUtil.ts:25-31 | `minus` returns the first input less the total of all later inputs |
| `CalculateUtil.Multiply` | src/util/calculateUtil.ts:39-45 | `multiply` returns the exact product of all its inputs, as an independent recursive `Product` defines it |
| `CalculateUtil.ReduceIgnoresIndexZero` | src/util/calculateUtil.ts:25-45 | the `i === 0` branches of `minus` and `multiply` are dead: a seedless reduce never calls back with index 0, so dropping them changes nothing |
| `CalculateUtil.SingleTargetUnchanged` | src/util/calculateUtil.ts:11-45 | a one-element input comes back unchanged from `sum`, `minus` and `multiply` |
| `CalculateUtil.HelperExamples` | src/util/calculateUtil.spec.ts:14-27 | the three expectations of the helpers' unit tests (0.001234, 0.0445, 0.0001) |
| `CalculateUtil.ReduceProjectIsSumOf` | src/util/calculateUtil.ts:67-75 | mapping the trades and reducing with `plus` gives the sum over the trades |
| `CalculateUtil.AveBuyPrice` | src/util/calculateUtil.ts:57-78 | the result is Σ(price·qty) / Σqty over the trades, for a non-empty list with non-zero quantity total |
| `CalculateUtil.AveBuyPriceReadsOnlyPriceAndQty` | src/util/calculateUtil.ts:58-63 | two trade lists that agree on price and qty position by position have the same average: symbol, commission, time and `isBuy` play no part |
| `CalculateUtil.AveBuyPriceOrderInsensitive` | src/util/calculateUtil.ts:57-77 | any reordering of the trades has the same quantity total and the same average |
| `CalculateUtil.AveBuyPriceWithinBounds` | src/util/calculateUtil.ts:57-77 | with positive quantities, the average lies within any bounds that hold for every price |
| `CalculateUtil.AveBuyPriceBetweenMinAndMax` | src/util/calculateUtil.ts:57-77 | with positive quantities, the average lies between the lowest and the highest trade price |
| `CalculateUtil.AveBuyPriceAtOnePrice` | src/util/calculateUtil.ts:57-77 | when every trade has price p, the average is p |
| `CalculateUtil.AveBuyPriceExamples` | src/util/calculateUtil.spec.ts:29-77 | [100@1, 200@1] averages 150 and [0.005@0.01, 0.01@0.01] averages 0.0075 |
| `BinanceUtil.GetHasCoinList` | src/util/binanceUtil.ts:24-45 | the loop returns exactly `HasCoinList`: the positive balances, filtered in order by "has a price and is worth at least 1 USDT" |
| `BinanceUtil.GetSymbolPrice` | src/util/binanceUtil.ts:30-34 | the caught price lookup of `getSymbolPrice` (lines 56-58) yields a price iff the pair is priced, and then the pair's price |
| `BinanceUtil.GetAllBalances` | src/util/binanceUtil.ts:66-77 | `balances.filter(orMoreMinQuantity)` (the predicate `OrMoreMinQuantity`) is no longer than the account, and every balance it keeps is in the account with a positive amount (free, plus locked when asked) |
| `BinanceUtil.GetAllBalancesMembership` | src/util/binanceUtil.ts:66-77 | a balance survives `getAllBalances` iff it is in the account and its amount (free, plus locked when asked) is positive |
| `BinanceUtil.GetAllBalancesAppend` | src/util/binanceUtil.ts:76 | `getAllBalances` filters element by element, keeping account order |
| `BinanceUtil.HasCoinListAppend` | src/util/binanceUtil.ts:28-44 | the held-coin list of a concatenation is the concatenation of the lists: order is preserved |
| `BinanceUtil.HasCoinListSingle` | src/util/binanceUtil.ts:29-41 | one balance is kept, unchanged, iff its amount is positive, `<asset>USDT` has a price, and amount × price ≥ 1 (exactly 1 is kept); otherwise it is dropped |
| `BinanceUtil.KeepWorthMembership` | src/util/binanceUtil.ts:28-41 | the loop's filter keeps a balance iff it is among its inputs, `<asset>USDT` has a price, and amount × price ≥ 1 |
| `BinanceUtil.HasCoinListMembership` | src/util/binanceUtil.ts:24-45 | a balance is listed iff it is in the account, its amount is positive, its pair has a price, and it is worth at least 1 USDT; an unpriced balance never appears |
| `BinanceUtil.HasCoinListExample` | __tests__/unit/util/binanceUtil.test.ts:11-29 | for the test account (lines 90-118), BTC and SAND are kept; ADA (worth 0.1), USDT (no USDTUSDT price) and XRP (nothing held) are dropped |
| `AssertUtil.FilterFulfilled` | src/util/assertUtil.ts:5-7 | holds iff the outcome is fulfilled |
| `AssertUtil.FilterRejected` | src/util/assertUtil.ts:12-14 | holds iff the outcome is rejected |
| `AssertUtil.ExactlyOneFilterHolds` | src/util/assertUtil.ts:5-14 | exactly one of the two filters accepts each outcome |
| `AssertUtil.KeepFulfilled` | src/util/assertUtil.ts:29 | the filtered list is no longer than the input and holds only fulfilled outcomes |
| `AssertUtil.KeepRejected` | src/util/assertUtil.ts:26 | the filtered list is no longer than the input and holds only rejected outcomes |
| `AssertUtil.FiltersPartition` | src/util/assertUtil.ts:26-29 | the two filtered lists' lengths add up to the input's, and every outcome of the input lands in exactly one of them |
| `AssertUtil.SettledFilterAppend` | src/util/assertUtil.ts:25-30 | the result for a concatenation is the concatenation of the results: input order is kept |
| `AssertUtil.SettledFilterSingle` | src/util/assertUtil.ts:29 | a fulfilled outcome contributes its value, a rejected one nothing |
| `AssertUtil.SettledFilterMembership` | src/util/assertUtil.ts:25-30 | v is in the result iff some outcome fulfilled with v |
| `AssertUtil.PromiseSettledResultFilter` | src/util/assertUtil.ts:25-30 | the values (`Values`, the `.map(x => x.value)`) of the fulfilled outcomes: one value per fulfilled outcome, so the input length minus the number of rejections |
| `AssertUtil.AllFulfilled` | src/util/assertUtil.ts:29 | an all-fulfilled input maps to all its values, in order |
| `AssertUtil.AllRejected` | src/util/assertUtil.ts:29 | an all-rejected input yields the empty list |
| `Preflight.Falsy` | src/handlers/preflight.ts:22-35 | `!v` on the whitelist (line 22) and the origin (line 35) is false exactly when the value is present and non-empty |
| `Preflight.MessageBody` | src/handlers/preflight.ts:29-31 | the `JSON.stringify({ message })` body (also at lines 42-44, 56-58 and 69-71) is 14 characters longer than the message and holds it at a fixed place, so the message can be read back from the body |
| `Preflight.PreflightHandler` | src/handlers/preflight.ts:7-73 | an absent or empty whitelist answers 403 "Missing white list of origin!" first, whatever the origin. Then an absent or empty origin answers 403 "Missing passed origin!". Then an origin not among the comma-split entries answers 403 "Not allowed origin!". Status is 200 "OK" iff all three checks pass, and only then is Allow-Origin the origin; every 403 carries Allow-Origin "". Credentials and Allow-Headers are the same in every response. An admitted origin is never empty and never holds a comma |
| `Preflight.JoinSplit` | src/handlers/preflight.ts:48 | joining the pieces of `split(',')` with ',' gives back the whitelist |
| `Preflight.SplitJoin` | src/handlers/preflight.ts:48 | splitting the join of comma-free pieces gives back the pieces |
| `Preflight.Split` | src/handlers/preflight.ts:48 | `split(',')` yields at least one piece, and no piece contains a comma |
| `Preflight.SplitDoesNotTrim` | src/handlers/preflight.ts:48 | entries are not trimmed: "a, b" splits into "a" and " b" |

## Left out

- Trade reconstruction and profit ratio (`calAvePriceByBalance`, `calProfitRatio`): the tests call them, but src/util/binanceUtil.ts does not define them, so they are not part of this model.
- Float conversions: `Number(x)` on entry to `sum`, `minus` and `multiply`, and `parseFloat`/`toNumber` on exit. The `Number()` that `BNUtil.BN` (src/util/bigNumberUtil.ts:5-7) applies to the price, `free` and `locked` in `getHasCoinList` (src/util/binanceUtil.ts:35-37), so the 1 USDT threshold is compared on exact values rather than on doubles. Also `parseFloat` in `getAllBalances` and the 20-decimal-place rounding of bignumber.js division. All arithmetic is exact `real`.
- `CalculateUtil.AveBuyPrice`: a zero quantity total (NaN or Infinity from bignumber.js) is excluded by a precondition rather than modelled.
- `sum`, `minus`, `multiply` and `aveBuyPrice` on an empty list throw (a `reduce` without a seed); callers must pass a non-empty list, which is a precondition.
- `BinanceUtil.GetHasCoinList`: a fetched price response that lacks the symbol key (NaN price, which the source keeps) is not modelled; a price is either present or the lookup failed.
- The Binance SDK (`accountInfo`, `prices`): the balances and the prices are parameters; a missing map entry stands for a rejected price request. Async sequencing is not modelled.
- Reading `process.env.ORIGINWHITELIST` and the request headers: both are parameters. The `statusCode`/`headers`/`body` record stands for the API gateway result.
- All `console.*` logging, including the logging of rejection reasons in `promiseSettledResultFilter`.
- Stub handlers and plumbing (src/handlers/example.ts, src/handlers/test.ts, src/handlers/portfolio.ts, src/handlers/v2/profitRatio/*, src/domain/cryptoExchanges/binance.ts, src/util/cryptoExchangeUtil.ts, src/util/util.ts, src/util/bigNumberUtil.ts, src/consts/*): they return constants or wrap libraries, so they are not part of this model.
