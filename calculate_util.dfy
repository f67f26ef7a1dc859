/**
 * Decimal helpers of src/util/calculateUtil.ts: `sum`, `minus`, `multiply` and the
 * quantity-weighted average buy price `aveBuyPrice`.
 *
 * The source computes with an arbitrary-precision decimal library, so every value
 * is an exact `real` here. Each helper is a `reduce` WITHOUT an initial value, which
 * is modelled as it behaves: the first element seeds the accumulator and the
 * callback is called back for the later elements only.
 */
module CalculateUtil {

  /** One historical fill of the exchange (src/domain/domain.d.ts). */
  datatype Trade = Trade(
    symbol: string,          // trading pair
    price: real,             // execution price (a decimal string in the source)
    qty: real,               // executed quantity (a decimal string in the source)
    commission: string,
    commissionAsset: string,
    time: int,
    isBuy: bool)

  // ----------------------------------------------------------------------------
  // Array.prototype.reduce without a seed
  // ----------------------------------------------------------------------------

  /** `xs.reduce(f)`: the accumulator starts as xs[0] and `f(acc, xs[i], i)` is
      called for i = 1, ..., |xs| - 1. An empty array throws, hence the requires. */
  function Reduce(xs: seq<real>, f: (real, real, nat) -> real): (r: real)
    requires |xs| > 0
    // one element: no call back at all
    ensures |xs| == 1 ==> r == xs[0]
    // more: the last call gets what the earlier elements reduced to (seeded by
    // xs[0] likewise), the last element and its index
    ensures |xs| > 1 ==> r == f(ReduceFrom(xs[0], xs[..|xs| - 1], 1, f), xs[|xs| - 1], |xs| - 1)
  {
    if |xs| > 1 then
      ReduceFromLast(xs[0], xs, 1, f);
      ReduceFrom(xs[0], xs, 1, f)
    else
      ReduceFrom(xs[0], xs, 1, f)
  }

  function ReduceFrom(acc: real, xs: seq<real>, i: nat, f: (real, real, nat) -> real): real
    requires 1 <= i <= |xs|
    decreases |xs| - i
  {
    if i == |xs| then acc else ReduceFrom(f(acc, xs[i], i), xs, i + 1, f)
  }

  /** Reducing from index i is reducing all but the last element from i and then
      calling back once more with the last one. */
  lemma {:induction false} ReduceFromLast(acc: real, xs: seq<real>, i: nat, f: (real, real, nat) -> real)
    requires 1 <= i < |xs|
    ensures ReduceFrom(acc, xs, i, f)
         == f(ReduceFrom(acc, xs[..|xs| - 1], i, f), xs[|xs| - 1], |xs| - 1)
    decreases |xs| - i
  {
    var init := xs[..|xs| - 1];
    if i < |xs| - 1 {
      ReduceFromLast(f(acc, xs[i], i), xs, i + 1, f);
      assert init[i] == xs[i];
    }
  }

  /** The callbacks handed to `reduce` by `sum`, `minus` and `multiply`. */
  function AddStep(total: real, current: real, i: nat): real { total + current }

  function SubtractStep(total: real, current: real, i: nat): real
  {
    if i == 0 then current else total - current
  }

  function MultiplyStep(total: real, current: real, i: nat): real
  {
    if i == 0 then current else total * current
  }

  // ----------------------------------------------------------------------------
  // The helpers
  // ----------------------------------------------------------------------------

  /** `CalculateUtil.sum`: the exact total of all targets. */
  function Sum(targets: seq<real>): (r: real)
    requires |targets| > 0
    ensures r == Total(targets)
  {
    ReduceAddFrom(targets[0], targets, 1);
    Reduce(targets, AddStep)
  }

  /** `CalculateUtil.minus`: the first target less the total of all later ones. */
  function Minus(targets: seq<real>): (r: real)
    requires |targets| > 0
    ensures r == targets[0] - Total(targets[1..])
  {
    ReduceSubtractFrom(targets[0], targets, 1);
    Reduce(targets, SubtractStep)
  }

  /** `CalculateUtil.multiply`: the exact product of all targets. */
  function Multiply(targets: seq<real>): (r: real)
    requires |targets| > 0
    ensures r == Product(targets)
  {
    ReduceMultiplyFrom(targets[0], targets, 1);
    Reduce(targets, MultiplyStep)
  }

  // ----------------------------------------------------------------------------
  // Reference definitions (right-nested, independent of the reduce above)
  // ----------------------------------------------------------------------------

  function Total(xs: seq<real>): real
  {
    if xs == [] then 0.0 else xs[0] + Total(xs[1..])
  }

  function Product(xs: seq<real>): real
  {
    if xs == [] then 1.0 else xs[0] * Product(xs[1..])
  }

  // ----------------------------------------------------------------------------
  // Properties of the helpers
  // ----------------------------------------------------------------------------

  /** A seedless reduce never calls its callback with index 0, so two callbacks
      that agree on every index from 1 on give the same result. */
  lemma {:induction false} ReduceFromIgnoresIndexZero(acc: real, xs: seq<real>, i: nat,
                                                      f: (real, real, nat) -> real,
                                                      g: (real, real, nat) -> real)
    requires 1 <= i <= |xs|
    requires forall a, c, j: nat :: j >= 1 ==> f(a, c, j) == g(a, c, j)
    ensures ReduceFrom(acc, xs, i, f) == ReduceFrom(acc, xs, i, g)
    decreases |xs| - i
  {
    if i < |xs| {
      ReduceFromIgnoresIndexZero(f(acc, xs[i], i), xs, i + 1, f, g);
    }
  }

  /** The `i === 0` branches of `minus` and `multiply` are dead code: dropping them
      does not change the result. */
  lemma ReduceIgnoresIndexZero(xs: seq<real>)
    requires |xs| > 0
    ensures Minus(xs) == Reduce(xs, (total, current, i) => total - current)
    ensures Multiply(xs) == Reduce(xs, (total, current, i) => total * current)
  {
    ReduceFromIgnoresIndexZero(xs[0], xs, 1, SubtractStep, (total, current, i) => total - current);
    ReduceFromIgnoresIndexZero(xs[0], xs, 1, MultiplyStep, (total, current, i) => total * current);
  }

  lemma {:induction false} ReduceAddFrom(acc: real, xs: seq<real>, i: nat)
    requires 1 <= i <= |xs|
    ensures ReduceFrom(acc, xs, i, AddStep) == acc + Total(xs[i..])
    decreases |xs| - i
  {
    if i < |xs| {
      ReduceAddFrom(acc + xs[i], xs, i + 1);
      assert xs[i..][1..] == xs[i + 1..];
    }
  }

  lemma {:induction false} ReduceSubtractFrom(acc: real, xs: seq<real>, i: nat)
    requires 1 <= i <= |xs|
    ensures ReduceFrom(acc, xs, i, SubtractStep) == acc - Total(xs[i..])
    decreases |xs| - i
  {
    if i < |xs| {
      ReduceSubtractFrom(acc - xs[i], xs, i + 1);
      assert xs[i..][1..] == xs[i + 1..];
    }
  }

  lemma {:induction false} ReduceMultiplyFrom(acc: real, xs: seq<real>, i: nat)
    requires 1 <= i <= |xs|
    ensures ReduceFrom(acc, xs, i, MultiplyStep) == acc * Product(xs[i..])
    decreases |xs| - i
  {
    if i < |xs| {
      ReduceMultiplyFrom(acc * xs[i], xs, i + 1);
      assert xs[i..][1..] == xs[i + 1..];
      assert (acc * xs[i]) * Product(xs[i + 1..]) == acc * (xs[i] * Product(xs[i + 1..]));
    }
  }

  /** A single input comes back unchanged from all three helpers. */
  lemma SingleTargetUnchanged(x: real)
    ensures Sum([x]) == x && Minus([x]) == x && Multiply([x]) == x
  {
  }

  /** The expectations of src/util/calculateUtil.spec.ts. */
  lemma HelperExamples()
    ensures Sum([0.001, 0.0002, 0.00003, 0.000004]) == 0.001234
    ensures Minus([0.1, 0.05, 0.005, 0.0005]) == 0.0445
    ensures Multiply([0.001, 10.0, 0.05, 0.2]) == 0.0001
  {
  }

  // ----------------------------------------------------------------------------
  // Average buy price
  // ----------------------------------------------------------------------------

  /** What one trade contributes to the numerator and to the denominator. */
  function Amount(t: Trade): real { t.price * t.qty }

  function Qty(t: Trade): real { t.qty }

  /** `trades.map(g)`. */
  function Project(trades: seq<Trade>, g: Trade -> real): seq<real>
  {
    seq(|trades|, i requires 0 <= i < |trades| => g(trades[i]))
  }

  /** Reference sum of `g` over the trades. */
  function SumOf(trades: seq<Trade>, g: Trade -> real): real
  {
    if trades == [] then 0.0 else g(trades[0]) + SumOf(trades[1..], g)
  }

  /** Sum of price * qty: the amount paid in the quote currency. */
  function TotalAmount(trades: seq<Trade>): real { SumOf(trades, Amount) }

  /** Sum of qty: the quantity bought. */
  function TotalQty(trades: seq<Trade>): real { SumOf(trades, Qty) }

  /** Reducing the mapped trades adds up `g` over them. */
  lemma {:induction false} ReduceProjectIsSumOf(trades: seq<Trade>, g: Trade -> real)
    requires |trades| > 0
    ensures Reduce(Project(trades, g), AddStep) == SumOf(trades, g)
  {
    var xs := Project(trades, g);
    ReduceAddFrom(xs[0], xs, 1);
    TotalOfProject(trades[1..], g);
    assert xs[1..] == Project(trades[1..], g);
  }

  lemma {:induction false} TotalOfProject(trades: seq<Trade>, g: Trade -> real)
    ensures Total(Project(trades, g)) == SumOf(trades, g)
  {
    if trades != [] {
      TotalOfProject(trades[1..], g);
      assert Project(trades, g)[1..] == Project(trades[1..], g);
    }
  }

  /**
   * `CalculateUtil.aveBuyPrice`: the quantity-weighted average price
   * (price1 * qty1 + ... + priceN * qtyN) / (qty1 + ... + qtyN).
   * Both reductions are seedless, so an empty list throws; a zero quantity total
   * gives no number, hence the two requires.
   */
  function AveBuyPrice(trades: seq<Trade>): (r: real)
    requires |trades| > 0
    requires TotalQty(trades) != 0.0
    ensures r == TotalAmount(trades) / TotalQty(trades)
  {
    ReduceProjectIsSumOf(trades, Amount);
    ReduceProjectIsSumOf(trades, Qty);
    var sumOfTotalAmounts := Reduce(Project(trades, Amount), AddStep);
    var sumOfQty := Reduce(Project(trades, Qty), AddStep);
    sumOfTotalAmounts / sumOfQty
  }

  lemma {:induction false} SumOfAppend(a: seq<Trade>, b: seq<Trade>, g: Trade -> real)
    ensures SumOf(a + b, g) == SumOf(a, g) + SumOf(b, g)
  {
    if a != [] {
      SumOfAppend(a[1..], b, g);
      assert (a + b)[1..] == a[1..] + b;
    } else {
      assert a + b == b;
    }
  }

  /** Reordering the trades does not change a sum over them. */
  lemma {:induction false} SumOfPermutation(ts: seq<Trade>, us: seq<Trade>, g: Trade -> real)
    requires multiset(ts) == multiset(us)
    ensures SumOf(ts, g) == SumOf(us, g)
    decreases |ts|
  {
    if ts == [] {
      assert |us| == |multiset(us)| == 0;
    } else {
      var t := ts[0];
      assert t in multiset(us);
      var k :| 0 <= k < |us| && us[k] == t;
      var rest := us[..k] + us[k + 1..];
      assert us == us[..k] + [t] + us[k + 1..];
      SumOfAppend(us[..k] + [t], us[k + 1..], g);
      SumOfAppend(us[..k], [t], g);
      SumOfAppend(us[..k], us[k + 1..], g);
      assert ts == [t] + ts[1..];
      assert multiset(us) == multiset(us[..k]) + multiset{t} + multiset(us[k + 1..]);
      assert multiset(ts) == multiset{t} + multiset(ts[1..]);
      assert multiset(rest) == multiset(us[..k]) + multiset(us[k + 1..]);
      assert multiset(ts[1..]) == multiset(ts) - multiset{t};
      assert multiset(rest) == multiset(us) - multiset{t};
      SumOfPermutation(ts[1..], rest, g);
    }
  }

  /** Two trade lists that agree on `g` position by position have the same sum. */
  lemma {:induction false} SumOfPointwise(ts: seq<Trade>, us: seq<Trade>, g: Trade -> real)
    requires |ts| == |us|
    requires forall i :: 0 <= i < |ts| ==> g(ts[i]) == g(us[i])
    ensures SumOf(ts, g) == SumOf(us, g)
  {
    if ts != [] {
      SumOfPointwise(ts[1..], us[1..], g);
    }
  }

  /** Only `price` and `qty` are read: symbol, commission, time and even `isBuy`
      do not affect the average (sell trades are not excluded here). */
  lemma AveBuyPriceReadsOnlyPriceAndQty(ts: seq<Trade>, us: seq<Trade>)
    requires |ts| == |us| > 0
    requires forall i :: 0 <= i < |ts| ==> ts[i].price == us[i].price && ts[i].qty == us[i].qty
    requires TotalQty(ts) != 0.0
    ensures TotalQty(us) == TotalQty(ts) && AveBuyPrice(us) == AveBuyPrice(ts)
  {
    SumOfPointwise(ts, us, Amount);
    SumOfPointwise(ts, us, Qty);
  }

  /** The average does not depend on the order of the trades. */
  lemma AveBuyPriceOrderInsensitive(ts: seq<Trade>, us: seq<Trade>)
    requires multiset(ts) == multiset(us)
    requires |ts| > 0 && TotalQty(ts) != 0.0
    ensures |us| > 0 && TotalQty(us) == TotalQty(ts) && AveBuyPrice(us) == AveBuyPrice(ts)
  {
    assert |us| == |multiset(us)| == |multiset(ts)| == |ts|;
    SumOfPermutation(ts, us, Amount);
    SumOfPermutation(ts, us, Qty);
  }

  lemma {:induction false} TotalAmountBounds(trades: seq<Trade>, lo: real, hi: real)
    requires forall i :: 0 <= i < |trades| ==> trades[i].qty > 0.0 && lo <= trades[i].price <= hi
    ensures lo * TotalQty(trades) <= TotalAmount(trades) <= hi * TotalQty(trades)
    ensures trades != [] ==> TotalQty(trades) > 0.0
  {
    if trades != [] {
      var t := trades[0];
      var q, a := TotalQty(trades[1..]), TotalAmount(trades[1..]);
      TotalAmountBounds(trades[1..], lo, hi);
      assert TotalQty(trades) == t.qty + q && TotalAmount(trades) == t.price * t.qty + a;
      BoundsStep(lo, hi, t.price, t.qty, q, a);
    }
  }

  /** One more trade inside the price bounds keeps the amount inside them. */
  lemma BoundsStep(lo: real, hi: real, p: real, x: real, q: real, a: real)
    requires x > 0.0 && lo <= p <= hi && lo * q <= a <= hi * q
    ensures lo * (x + q) <= p * x + a <= hi * (x + q)
  {
    assert lo * x <= p * x <= hi * x;
    assert lo * (x + q) == lo * x + lo * q;
    assert hi * (x + q) == hi * x + hi * q;
  }

  /** With positive quantities, the average lies within any bounds on the prices. */
  lemma AveBuyPriceWithinBounds(trades: seq<Trade>, lo: real, hi: real)
    requires |trades| > 0
    requires forall i :: 0 <= i < |trades| ==> trades[i].qty > 0.0 && lo <= trades[i].price <= hi
    ensures TotalQty(trades) > 0.0 && lo <= AveBuyPrice(trades) <= hi
  {
    TotalAmountBounds(trades, lo, hi);
    var q, a := TotalQty(trades), TotalAmount(trades);
    DivisionBounds(a, q, lo, hi);
  }

  lemma DivisionBounds(a: real, q: real, lo: real, hi: real)
    requires q > 0.0 && lo * q <= a <= hi * q
    ensures lo <= a / q <= hi
  {
  }

  /** Lowest and highest trade price. */
  function MinPrice(trades: seq<Trade>): (m: real)
    requires |trades| > 0
    ensures forall i :: 0 <= i < |trades| ==> m <= trades[i].price
    ensures exists i :: 0 <= i < |trades| && m == trades[i].price
  {
    if |trades| == 1 then trades[0].price
    else
      var m := MinPrice(trades[1..]);
      assert forall i :: 1 <= i < |trades| ==> trades[1..][i - 1] == trades[i];
      if trades[0].price <= m then trades[0].price else m
  }

  function MaxPrice(trades: seq<Trade>): (m: real)
    requires |trades| > 0
    ensures forall i :: 0 <= i < |trades| ==> trades[i].price <= m
    ensures exists i :: 0 <= i < |trades| && m == trades[i].price
  {
    if |trades| == 1 then trades[0].price
    else
      var m := MaxPrice(trades[1..]);
      assert forall i :: 1 <= i < |trades| ==> trades[1..][i - 1] == trades[i];
      if trades[0].price >= m then trades[0].price else m
  }

  /** With positive quantities, the average lies between the lowest and the
      highest trade price. */
  lemma AveBuyPriceBetweenMinAndMax(trades: seq<Trade>)
    requires |trades| > 0
    requires forall i :: 0 <= i < |trades| ==> trades[i].qty > 0.0
    ensures TotalQty(trades) > 0.0
    ensures MinPrice(trades) <= AveBuyPrice(trades) <= MaxPrice(trades)
  {
    AveBuyPriceWithinBounds(trades, MinPrice(trades), MaxPrice(trades));
  }

  lemma {:induction false} TotalAmountAtOnePrice(trades: seq<Trade>, p: real)
    requires forall i :: 0 <= i < |trades| ==> trades[i].price == p
    ensures TotalAmount(trades) == p * TotalQty(trades)
  {
    if trades != [] {
      TotalAmountAtOnePrice(trades[1..], p);
    }
  }

  /** When every trade was made at price p, the average is p. */
  lemma AveBuyPriceAtOnePrice(trades: seq<Trade>, p: real)
    requires |trades| > 0 && TotalQty(trades) != 0.0
    requires forall i :: 0 <= i < |trades| ==> trades[i].price == p
    ensures AveBuyPrice(trades) == p
  {
    TotalAmountAtOnePrice(trades, p);
  }

  /** The expectations of src/util/calculateUtil.spec.ts for `aveBuyPrice`. */
  lemma AveBuyPriceExamples()
    ensures var t1 := Trade("test1", 100.0, 1.0, "", "", 0, true);
            var t2 := Trade("test1", 200.0, 1.0, "", "", 0, true);
            TotalQty([t1, t2]) == 2.0 && AveBuyPrice([t1, t2]) == 150.0
    ensures var t1 := Trade("test1", 0.005, 0.01, "", "", 0, true);
            var t2 := Trade("test1", 0.01, 0.01, "", "", 0, true);
            TotalQty([t1, t2]) == 0.02 && AveBuyPrice([t1, t2]) == 0.0075
  {
    var t1 := Trade("test1", 100.0, 1.0, "", "", 0, true);
    var t2 := Trade("test1", 200.0, 1.0, "", "", 0, true);
    assert [t1, t2][1..] == [t2];
    var u1 := Trade("test1", 0.005, 0.01, "", "", 0, true);
    var u2 := Trade("test1", 0.01, 0.01, "", "", 0, true);
    assert [u1, u2][1..] == [u2];
  }
}
