/**
 * src/util/binanceUtil.ts: the list of coins the account holds, without dust.
 *
 * The exchange is not modelled: the balances of `accountInfo()` are a parameter,
 * and the price lookup `prices({symbol})` is a map from pair symbol to price in
 * which a missing symbol stands for a lookup that was rejected.
 */
module BinanceUtil {
  import opened Wrappers

  /** The quote currency every holding is valued in. */
  const BaseFiat: string := "USDT"

  /** One entry of `accountInfo().balances`: free and locked (on order) quantity. */
  datatype AssetBalance = AssetBalance(asset: string, free: real, locked: real)

  /** The pair an asset is priced by: the asset followed by the base currency. */
  function Symbol(asset: string): string
  {
    asset + BaseFiat
  }

  /** The held quantity: free plus locked when orders count, free alone otherwise. */
  function HeldAmount(b: AssetBalance, includeLocked: bool): real
  {
    if includeLocked then b.free + b.locked else b.free
  }

  /** `getSymbolPrice(symbol)`, caught: None when the lookup is rejected. */
  function GetSymbolPrice(prices: map<string, real>, symbol: string): (r: Option<real>)
    ensures r.Some? <==> symbol in prices
    ensures r.Some? ==> r.value == prices[symbol]
  {
    if symbol in prices then Some(prices[symbol]) else None
  }

  /** `orMoreMinQuantity`: the balance holds a positive quantity. */
  predicate OrMoreMinQuantity(b: AssetBalance, includeLocked: bool)
  {
    HeldAmount(b, includeLocked) > 0.0
  }

  /** `getAllBalances`: the balances with a positive quantity, in account order. */
  function GetAllBalances(balances: seq<AssetBalance>, includeLocked: bool): (r: seq<AssetBalance>)
    ensures |r| <= |balances|
    ensures forall b {:trigger b in r} :: b in r ==> b in balances && HeldAmount(b, includeLocked) > 0.0
  {
    if balances == [] then []
    else
      (if OrMoreMinQuantity(balances[0], includeLocked) then [balances[0]] else [])
      + GetAllBalances(balances[1..], includeLocked)
  }

  /** An amount converted to the base currency at the given price. */
  function InBaseFiat(amount: real, price: real): real
  {
    amount * price
  }

  /** A holding worth keeping: it has a price, and its value in the base currency
      is at least one unit. */
  predicate WorthAtLeastOneFiat(b: AssetBalance, prices: map<string, real>, includeOnOrder: bool)
  {
    Symbol(b.asset) in prices && InBaseFiat(HeldAmount(b, includeOnOrder), prices[Symbol(b.asset)]) >= 1.0
  }

  /** Specification of the loop of `getHasCoinList`: the balances worth at least
      one unit of the base currency, in their order. */
  function KeepWorthAtLeastOneFiat(bs: seq<AssetBalance>, prices: map<string, real>, includeOnOrder: bool): seq<AssetBalance>
  {
    if bs == [] then []
    else
      var last := bs[|bs| - 1];
      KeepWorthAtLeastOneFiat(bs[..|bs| - 1], prices, includeOnOrder)
      + (if WorthAtLeastOneFiat(last, prices, includeOnOrder) then [last] else [])
  }

  /** What `getHasCoinList` returns for the given account balances and prices. */
  function HasCoinList(balances: seq<AssetBalance>, prices: map<string, real>, includeOnOrder: bool): seq<AssetBalance>
  {
    KeepWorthAtLeastOneFiat(GetAllBalances(balances, includeOnOrder), prices, includeOnOrder)
  }

  /** `getHasCoinList`: walks the positive balances, skips those whose price cannot
      be fetched and those worth less than one unit, and pushes the others. */
  method GetHasCoinList(balances: seq<AssetBalance>, prices: map<string, real>, includeOnOrder: bool)
    returns (balanceList: seq<AssetBalance>)
    ensures balanceList == HasCoinList(balances, prices, includeOnOrder)
  {
    balanceList := [];
    var balanceOfHasCoins := GetAllBalances(balances, includeOnOrder);
    for k := 0 to |balanceOfHasCoins|
      invariant balanceList == KeepWorthAtLeastOneFiat(balanceOfHasCoins[..k], prices, includeOnOrder)
    {
      var balance := balanceOfHasCoins[k];
      KeepWorthStep(balanceOfHasCoins, k, prices, includeOnOrder);
      var symbol := balance.asset + BaseFiat;
      var symbolPrice := GetSymbolPrice(prices, symbol);
      if symbolPrice.None? {
        continue;
      }
      var amount := if includeOnOrder then balance.free + balance.locked else balance.free;
      var convertBaseFiat := InBaseFiat(amount, symbolPrice.value);
      if convertBaseFiat < 1.0 {
        continue;
      }
      balanceList := balanceList + [balance];
    }
    assert balanceOfHasCoins[..|balanceOfHasCoins|] == balanceOfHasCoins;
  }

  /** One more balance extends the specification by that balance or by nothing. */
  lemma KeepWorthStep(bs: seq<AssetBalance>, k: nat, prices: map<string, real>, includeOnOrder: bool)
    requires k < |bs|
    ensures KeepWorthAtLeastOneFiat(bs[..k + 1], prices, includeOnOrder)
         == KeepWorthAtLeastOneFiat(bs[..k], prices, includeOnOrder)
            + (if WorthAtLeastOneFiat(bs[k], prices, includeOnOrder) then [bs[k]] else [])
  {
    assert bs[..k + 1][..k] == bs[..k];
  }

  // ----------------------------------------------------------------------------
  // Properties
  // ----------------------------------------------------------------------------

  lemma {:induction false} GetAllBalancesAppend(a: seq<AssetBalance>, b: seq<AssetBalance>, includeLocked: bool)
    ensures GetAllBalances(a + b, includeLocked) == GetAllBalances(a, includeLocked) + GetAllBalances(b, includeLocked)
  {
    if a == [] {
      assert a + b == b;
    } else {
      var head := if OrMoreMinQuantity(a[0], includeLocked) then [a[0]] else [];
      assert (a + b)[0] == a[0];
      assert (a + b)[1..] == a[1..] + b;
      calc {
        GetAllBalances(a + b, includeLocked);
        head + GetAllBalances(a[1..] + b, includeLocked);
        { GetAllBalancesAppend(a[1..], b, includeLocked); }
        head + (GetAllBalances(a[1..], includeLocked) + GetAllBalances(b, includeLocked));
        (head + GetAllBalances(a[1..], includeLocked)) + GetAllBalances(b, includeLocked);
      }
    }
  }

  /** `getAllBalances` keeps exactly the balances holding a positive amount. */
  lemma {:induction false} GetAllBalancesMembership(balances: seq<AssetBalance>, includeLocked: bool, b: AssetBalance)
    ensures b in GetAllBalances(balances, includeLocked) <==> b in balances && HeldAmount(b, includeLocked) > 0.0
  {
    if balances != [] {
      GetAllBalancesMembership(balances[1..], includeLocked, b);
      assert balances == [balances[0]] + balances[1..];
    }
  }

  lemma {:induction false} KeepWorthAppend(a: seq<AssetBalance>, b: seq<AssetBalance>,
                                           prices: map<string, real>, includeOnOrder: bool)
    ensures KeepWorthAtLeastOneFiat(a + b, prices, includeOnOrder)
         == KeepWorthAtLeastOneFiat(a, prices, includeOnOrder) + KeepWorthAtLeastOneFiat(b, prices, includeOnOrder)
    decreases |b|
  {
    if b == [] {
      assert a + b == a;
    } else {
      KeepWorthAppend(a, b[..|b| - 1], prices, includeOnOrder);
      assert (a + b)[..|a + b| - 1] == a + b[..|b| - 1];
    }
  }

  /** The result is built balance by balance, in account order: the list for a
      concatenation is the concatenation of the lists. */
  lemma HasCoinListAppend(a: seq<AssetBalance>, b: seq<AssetBalance>, prices: map<string, real>, includeOnOrder: bool)
    ensures HasCoinList(a + b, prices, includeOnOrder)
         == HasCoinList(a, prices, includeOnOrder) + HasCoinList(b, prices, includeOnOrder)
  {
    GetAllBalancesAppend(a, b, includeOnOrder);
    KeepWorthAppend(GetAllBalances(a, includeOnOrder), GetAllBalances(b, includeOnOrder), prices, includeOnOrder);
  }

  /** A single balance is kept, unchanged, exactly when its held amount is positive,
      its pair has a price, and amount * price is at least 1 (so exactly 1 is kept). */
  lemma HasCoinListSingle(b: AssetBalance, prices: map<string, real>, includeOnOrder: bool)
    ensures HasCoinList([b], prices, includeOnOrder)
         == if HeldAmount(b, includeOnOrder) > 0.0
               && Symbol(b.asset) in prices
               && HeldAmount(b, includeOnOrder) * prices[Symbol(b.asset)] >= 1.0
            then [b] else []
  {
    assert [b][1..] == [] && [b][..0] == [];
    if HeldAmount(b, includeOnOrder) > 0.0 {
      assert GetAllBalances([b], includeOnOrder) == [b];
      assert KeepWorthAtLeastOneFiat([b], prices, includeOnOrder)
          == if WorthAtLeastOneFiat(b, prices, includeOnOrder) then [b] else [];
    } else {
      assert GetAllBalances([b], includeOnOrder) == [];
    }
  }

  /** A balance is listed exactly when it is in the account, holds a positive
      amount, has a price, and is worth at least one unit of the base currency. */
  lemma {:induction false} HasCoinListMembership(balances: seq<AssetBalance>, prices: map<string, real>,
                                                 includeOnOrder: bool, b: AssetBalance)
    ensures b in HasCoinList(balances, prices, includeOnOrder)
        <==> b in balances && HeldAmount(b, includeOnOrder) > 0.0
             && Symbol(b.asset) in prices
             && HeldAmount(b, includeOnOrder) * prices[Symbol(b.asset)] >= 1.0
  {
    var held := GetAllBalances(balances, includeOnOrder);
    assert HasCoinList(balances, prices, includeOnOrder) == KeepWorthAtLeastOneFiat(held, prices, includeOnOrder);
    GetAllBalancesMembership(balances, includeOnOrder, b);
    KeepWorthMembership(held, prices, includeOnOrder, b);
    assert WorthAtLeastOneFiat(b, prices, includeOnOrder)
        <==> Symbol(b.asset) in prices && HeldAmount(b, includeOnOrder) * prices[Symbol(b.asset)] >= 1.0;
  }

  lemma {:induction false} KeepWorthMembership(bs: seq<AssetBalance>, prices: map<string, real>,
                                               includeOnOrder: bool, b: AssetBalance)
    ensures b in KeepWorthAtLeastOneFiat(bs, prices, includeOnOrder)
        <==> b in bs && WorthAtLeastOneFiat(b, prices, includeOnOrder)
  {
    if bs != [] {
      var init, last := bs[..|bs| - 1], bs[|bs| - 1];
      KeepWorthMembership(init, prices, includeOnOrder, b);
      assert bs == init + [last];
    }
  }

  /** The account of __tests__/unit/util/binanceUtil.test.ts: BTC and SAND are
      kept; ADA is worth too little, USDT has no USDTUSDT price, XRP holds nothing. */
  const Btc := AssetBalance("BTC", 0.01, 0.0)
  const Sand := AssetBalance("SAND", 50.0, 150.0)
  const Ada := AssetBalance("ADA", 0.1, 0.0)
  const Usdt := AssetBalance("USDT", 499.5, 0.5)
  const Xrp := AssetBalance("XRP", 0.0, 0.0)
  const ExamplePrices: map<string, real> := map["BTCUSDT" := 50000.0, "SANDUSDT" := 20.0, "ADAUSDT" := 1.0]

  lemma HasCoinListExample()
    ensures HasCoinList([Btc, Sand, Ada, Usdt, Xrp], ExamplePrices, true) == [Btc, Sand]
  {
    ExampleKept();
    ExampleDropped();
    HasCoinListAppend([Btc, Sand], [Ada, Usdt, Xrp], ExamplePrices, true);
    assert [Btc, Sand] + [Ada, Usdt, Xrp] == [Btc, Sand, Ada, Usdt, Xrp];
  }

  lemma ExampleKept()
    ensures HasCoinList([Btc, Sand], ExamplePrices, true) == [Btc, Sand]
  {
    assert HasCoinList([Btc], ExamplePrices, true) == [Btc] by {
      assert Symbol(Btc.asset) == "BTCUSDT" && ExamplePrices["BTCUSDT"] == 50000.0;
      assert HeldAmount(Btc, true) == 0.01;
      HasCoinListSingle(Btc, ExamplePrices, true);
    }
    assert HasCoinList([Sand], ExamplePrices, true) == [Sand] by {
      assert Symbol(Sand.asset) == "SANDUSDT" && ExamplePrices["SANDUSDT"] == 20.0;
      assert HeldAmount(Sand, true) == 200.0;
      HasCoinListSingle(Sand, ExamplePrices, true);
    }
    HasCoinListAppend([Btc], [Sand], ExamplePrices, true);
    assert [Btc] + [Sand] == [Btc, Sand];
  }

  lemma ExampleDropped()
    ensures HasCoinList([Ada, Usdt, Xrp], ExamplePrices, true) == []
  {
    assert HasCoinList([Ada], ExamplePrices, true) == [] by {
      assert Symbol(Ada.asset) == "ADAUSDT" && ExamplePrices["ADAUSDT"] == 1.0;
      assert HeldAmount(Ada, true) == 0.1;
      HasCoinListSingle(Ada, ExamplePrices, true);
    }
    assert HasCoinList([Usdt], ExamplePrices, true) == [] by {
      assert Symbol(Usdt.asset) == "USDTUSDT" && "USDTUSDT" !in ExamplePrices;
      HasCoinListSingle(Usdt, ExamplePrices, true);
    }
    assert HasCoinList([Xrp], ExamplePrices, true) == [] by {
      HasCoinListSingle(Xrp, ExamplePrices, true);
    }
    HasCoinListAppend([Ada], [Usdt], ExamplePrices, true);
    HasCoinListAppend([Ada, Usdt], [Xrp], ExamplePrices, true);
    assert [Ada] + [Usdt] == [Ada, Usdt];
    assert [Ada, Usdt] + [Xrp] == [Ada, Usdt, Xrp];
  }
}
