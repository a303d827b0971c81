/** The broker's list of instruments: a join of the instruments with an account's holdings, the latest prices and the
    products, each turned into a dictionary first. */
module InstrumentListing {
  import opened Wrappers
  import PriceCurve
  import PriceSeries

  datatype Instrument = Instrument(id: int, productId: int)
  datatype Owned = Owned(instrumentId: int, quantity: real)
  datatype Product = Product(id: int)
  datatype Row = Row(instrument: Instrument, owned: Option<Owned>, product: Product, price: PriceCurve.Pricing)

  // ----- Dictionaries -----

  ghost predicate DistinctKeys<T>(rows: seq<T>, key: T -> int) {
    forall i, j :: 0 <= i < j < |rows| ==> key(rows[i]) != key(rows[j])
  }

  /** The row with this key, if there is one. */
  ghost function Find<T>(rows: seq<T>, key: T -> int, k: int): Option<T> {
    if rows == [] then None else if key(rows[0]) == k then Some(rows[0]) else Find(rows[1..], key, k)
  }

  ghost predicate IsDictionary<T>(d: map<int, T>, rows: seq<T>, key: T -> int) {
    && (forall i :: 0 <= i < |rows| ==> key(rows[i]) in d && d[key(rows[i])] == rows[i])
    && (forall k :: k in d ==> exists i :: 0 <= i < |rows| && key(rows[i]) == k)
  }

  /** Throws, which is None here, when a key comes twice. */
  method ToDictionary<T>(rows: seq<T>, key: T -> int) returns (d: Option<map<int, T>>)
    ensures d.Some? <==> DistinctKeys(rows, key)
    ensures d.Some? ==> IsDictionary(d.value, rows, key)
  {
    var dictionary := map[];
    for i := 0 to |rows|
      invariant DistinctKeys(rows[..i], key) && IsDictionary(dictionary, rows[..i], key)
    {
      if key(rows[i]) in dictionary {
        var j :| 0 <= j < |rows[..i]| && key(rows[..i][j]) == key(rows[i]);
        assert rows[..i][j] == rows[j];
        return None;
      }
      OneMoreKey(dictionary, rows, key, i);
      dictionary := dictionary[key(rows[i]) := rows[i]];
    }
    assert rows[..|rows|] == rows;
    return Some(dictionary);
  }

  lemma OneMoreKey<T>(d: map<int, T>, rows: seq<T>, key: T -> int, i: nat)
    requires i < |rows| && DistinctKeys(rows[..i], key) && IsDictionary(d, rows[..i], key) && key(rows[i]) !in d
    ensures DistinctKeys(rows[..i + 1], key) && IsDictionary(d[key(rows[i]) := rows[i]], rows[..i + 1], key)
  {
    var next, more := d[key(rows[i]) := rows[i]], rows[..i + 1];
    assert more == rows[..i] + [rows[i]];
    forall k | k in next ensures exists j :: 0 <= j < |more| && key(more[j]) == k {
      if k == key(rows[i]) {
        assert key(more[i]) == k;
      } else {
        var j :| 0 <= j < i && key(rows[..i][j]) == k;
        assert key(more[j]) == k;
      }
    }
  }

  lemma {:induction false} FoundIn<T>(rows: seq<T>, key: T -> int, k: int)
    ensures Find(rows, key, k).Some? <==> exists i :: 0 <= i < |rows| && key(rows[i]) == k
    ensures Find(rows, key, k).Some? ==> exists i :: 0 <= i < |rows| && rows[i] == Find(rows, key, k).value
    ensures Find(rows, key, k).Some? ==> key(Find(rows, key, k).value) == k
  {
    if rows != [] {
      FoundIn(rows[1..], key, k);
      assert forall i :: 0 <= i < |rows| - 1 ==> rows[1..][i] == rows[i + 1];
      assert forall i :: 0 < i < |rows| ==> rows[i] == rows[1..][i - 1];
    }
  }

  lemma LookupFinds<T>(d: map<int, T>, rows: seq<T>, key: T -> int, k: int)
    requires IsDictionary(d, rows, key)
    ensures k in d <==> Find(rows, key, k).Some?
    ensures k in d ==> Find(rows, key, k) == Some(d[k])
  {
    FoundIn(rows, key, k);
  }

  // ----- The join -----

  const OWNED_KEY := (x: Owned) => x.instrumentId
  const PRODUCT_KEY := (x: Product) => x.id
  const PRICE_KEY := (x: PriceCurve.Pricing) => x.instrumentId

  /** The rows of those instruments that have a product and a price, in the order of the instruments. */
  ghost function Listed(instruments: seq<Instrument>, owned: seq<Owned>, prices: seq<PriceCurve.Pricing>,
                        products: seq<Product>): seq<Row>
  {
    if instruments == [] then []
    else
      var i := instruments[|instruments| - 1];
      var product, price := Find(products, PRODUCT_KEY, i.productId), Find(prices, PRICE_KEY, i.id);
      Listed(instruments[..|instruments| - 1], owned, prices, products)
        + if product.Some? && price.Some? then [Row(i, Find(owned, OWNED_KEY, i.id), product.value, price.value)] else []
  }

  method GetInstruments(instruments: seq<Instrument>, owned: seq<Owned>, prices: seq<PriceCurve.Pricing>,
                        products: seq<Product>) returns (r: Option<seq<Row>>)
    ensures r.Some? <==>
              DistinctKeys(owned, OWNED_KEY) && DistinctKeys(prices, PRICE_KEY) && DistinctKeys(products, PRODUCT_KEY)
    ensures r.Some? ==> r.value == Listed(instruments, owned, prices, products)
  {
    var ownedInstruments := ToDictionary(owned, OWNED_KEY);
    if ownedInstruments.None? {
      return None;
    }
    var priceDictionary := ToDictionary(prices, PRICE_KEY);
    if priceDictionary.None? {
      return None;
    }
    var productDictionary := ToDictionary(products, PRODUCT_KEY);
    if productDictionary.None? {
      return None;
    }
    var list: seq<Row> := [];
    for n := 0 to |instruments|
      invariant list == Listed(instruments[..n], owned, prices, products)
    {
      var i := instruments[n];
      assert instruments[..n + 1][..n] == instruments[..n];
      LookupFinds(productDictionary.value, products, PRODUCT_KEY, i.productId);
      LookupFinds(priceDictionary.value, prices, PRICE_KEY, i.id);
      LookupFinds(ownedInstruments.value, owned, OWNED_KEY, i.id);
      if i.productId in productDictionary.value && i.id in priceDictionary.value {
        var value := if i.id in ownedInstruments.value then Some(ownedInstruments.value[i.id]) else None;
        list := list + [Row(i, value, productDictionary.value[i.productId], priceDictionary.value[i.id])];
      }
    }
    assert instruments[..|instruments|] == instruments;
    return Some(list);
  }

  /** Every instrument of the database is one that prices are generated for, and has a product. */
  ghost predicate AreTraded(instruments: seq<Instrument>, generated: seq<PriceCurve.Instrument>, products: seq<Product>) {
    forall n :: 0 <= n < |instruments| ==>
      && PriceSeries.HasId(generated, instruments[n].id)
      && Find(products, PRODUCT_KEY, instruments[n].productId).Some?
  }

  /** From one price row per generated instrument, the list has one row per instrument, in order, each with its own price. */
  lemma {:induction false} ListIsComplete(instruments: seq<Instrument>, generated: seq<PriceCurve.Instrument>,
                                          owned: seq<Owned>, prices: seq<PriceCurve.Pricing>, products: seq<Product>)
    requires PriceSeries.OnePerInstrument(prices, generated) && AreTraded(instruments, generated, products)
    ensures DistinctKeys(prices, PRICE_KEY)
    ensures var list := Listed(instruments, owned, prices, products);
      && |list| == |instruments|
      && forall n :: 0 <= n < |instruments| ==>
           && list[n].instrument == instruments[n] && list[n].price in prices
           && list[n].price.instrumentId == instruments[n].id && list[n].product.id == instruments[n].productId
           && IsHoldingOf(list[n].owned, owned, instruments[n].id)
  {
    if instruments != [] {
      var n := |instruments| - 1;
      ListIsComplete(instruments[..n], generated, owned, prices, products);
      var row := LastIsListed(instruments, generated, owned, prices, products);
    }
  }

  lemma LastIsListed(instruments: seq<Instrument>, generated: seq<PriceCurve.Instrument>, owned: seq<Owned>,
                     prices: seq<PriceCurve.Pricing>, products: seq<Product>) returns (row: Row)
    requires PriceSeries.OnePerInstrument(prices, generated) && AreTraded(instruments, generated, products)
    requires instruments != []
    ensures var i := instruments[|instruments| - 1];
      && Listed(instruments, owned, prices, products)
           == Listed(instruments[..|instruments| - 1], owned, prices, products) + [row]
      && row.instrument == i && row.price in prices && row.price.instrumentId == i.id && row.product.id == i.productId
      && IsHoldingOf(row.owned, owned, i.id)
  {
    var i := instruments[|instruments| - 1];
    ProductAndPrice(i, generated, prices, products);
    FoundIn(owned, OWNED_KEY, i.id);
    row := Row(i, Find(owned, OWNED_KEY, i.id), Find(products, PRODUCT_KEY, i.productId).value,
               Find(prices, PRICE_KEY, i.id).value);
  }

  /** The account's row for the instrument, or nothing when it has none. */
  ghost predicate IsHoldingOf(o: Option<Owned>, owned: seq<Owned>, id: int) {
    if o.Some? then o.value in owned && o.value.instrumentId == id
    else forall k :: 0 <= k < |owned| ==> OWNED_KEY(owned[k]) != id
  }

  ghost predicate CanBeListed(i: Instrument, prices: seq<PriceCurve.Pricing>, products: seq<Product>) {
    && (exists k :: 0 <= k < |products| && PRODUCT_KEY(products[k]) == i.productId)
    && (exists k :: 0 <= k < |prices| && PRICE_KEY(prices[k]) == i.id)
  }

  ghost predicate IsListed(list: seq<Row>, i: Instrument) {
    exists k :: 0 <= k < |list| && list[k].instrument == i
  }

  /** Whatever the tables hold, an instrument is listed exactly when it is there and has a product and a price. */
  lemma {:induction false} ListedIff(instruments: seq<Instrument>, owned: seq<Owned>, prices: seq<PriceCurve.Pricing>,
                                     products: seq<Product>, x: Instrument)
    ensures IsListed(Listed(instruments, owned, prices, products), x)
       <==> x in instruments && CanBeListed(x, prices, products)
  {
    if instruments != [] {
      var n := |instruments| - 1;
      var i, less := instruments[n], Listed(instruments[..n], owned, prices, products);
      var list := Listed(instruments, owned, prices, products);
      ListedIff(instruments[..n], owned, prices, products, x);
      FoundIn(products, PRODUCT_KEY, i.productId);
      FoundIn(prices, PRICE_KEY, i.id);
      assert x in instruments <==> x in instruments[..n] || x == i;
      if CanBeListed(i, prices, products) {
        assert list == less + [list[|less|]] && list[|less|].instrument == i;
        OneMoreListed(less, list[|less|], x);
      } else {
        assert list == less;
      }
    }
  }

  lemma OneMoreListed(list: seq<Row>, row: Row, x: Instrument)
    ensures IsListed(list + [row], x) <==> IsListed(list, x) || row.instrument == x
  {
    if IsListed(list, x) {
      var k :| 0 <= k < |list| && list[k].instrument == x;
      assert (list + [row])[k].instrument == x;
    }
    assert (list + [row])[|list|] == row;
  }

  lemma ProductAndPrice(i: Instrument, generated: seq<PriceCurve.Instrument>, prices: seq<PriceCurve.Pricing>,
                        products: seq<Product>)
    requires PriceSeries.OnePerInstrument(prices, generated) && PriceSeries.HasId(generated, i.id)
    requires Find(products, PRODUCT_KEY, i.productId).Some?
    ensures Find(products, PRODUCT_KEY, i.productId).value.id == i.productId
    ensures var price := Find(prices, PRICE_KEY, i.id);
      price.Some? && price.value in prices && price.value.instrumentId == i.id
  {
    FoundIn(products, PRODUCT_KEY, i.productId);
    FoundIn(prices, PRICE_KEY, i.id);
    var g :| 0 <= g < |generated| && generated[g].id == i.id;
    assert PriceSeries.HasRow(prices, generated[g].id);
    var k :| 0 <= k < |prices| && prices[k].instrumentId == i.id;
    assert PRICE_KEY(prices[k]) == i.id;
  }

  /** After every completed insert: from a price table without gaps up to the minute `last`, the lookup of the latest prices
      has no key twice, and the list has one row per instrument, in order, with its price of that minute. */
  lemma ListFromGapFreeTable(rows: seq<PriceCurve.Pricing>, generated: seq<PriceCurve.Instrument>, first: int, last: nat,
                             instruments: seq<Instrument>, owned: seq<Owned>, products: seq<Product>)
    requires PriceSeries.GapFree(rows, generated, first, last) && first <= last && (last - first) % 60 == 0
    requires AreTraded(instruments, generated, products)
    ensures DistinctKeys(PriceSeries.CurrentPrices(rows), PRICE_KEY)
    ensures var list := Listed(instruments, owned, PriceSeries.CurrentPrices(rows), products);
      && |list| == |instruments|
      && forall n :: 0 <= n < |instruments| ==>
           && list[n].instrument == instruments[n] && list[n].price in rows
           && list[n].price.instrumentId == instruments[n].id && list[n].price.timestamp == last
           && list[n].product.id == instruments[n].productId && IsHoldingOf(list[n].owned, owned, instruments[n].id)
  {
    PriceSeries.LatestPricesAreOnePerInstrument(rows, generated, first, last);
    PriceSeries.CurrentPricesAreRows(rows);
    ListIsComplete(instruments, generated, owned, PriceSeries.CurrentPrices(rows), products);
  }

  /** The price in the list is on the curve of the instrument it stands beside. */
  lemma ListedPricesAreOnCurves(rows: seq<PriceCurve.Pricing>, generated: seq<PriceCurve.Instrument>, first: int, last: nat,
                                random: (int, int) -> seq<real>, instruments: seq<Instrument>, owned: seq<Owned>,
                                products: seq<Product>, n: nat, g: nat)
    requires PriceSeries.GapFree(rows, generated, first, last) && first <= last && (last - first) % 60 == 0
    requires PriceSeries.DistinctIds(generated) && PriceSeries.AllOnCurve(rows, generated, random)
    requires AreTraded(instruments, generated, products)
    requires n < |instruments| && g < |generated| && generated[g].id == instruments[n].id
    ensures var list := Listed(instruments, owned, PriceSeries.CurrentPrices(rows), products);
      && |list| == |instruments| && list[n].price.timestamp == last
      && list[n].price.open == PriceCurve.PrecisePrice(last % PriceCurve.DAY, generated[g])
      && list[n].price.close == PriceCurve.PrecisePrice(last % PriceCurve.DAY + 60, generated[g])
  {
    var prices := PriceSeries.CurrentPrices(rows);
    ListFromGapFreeTable(rows, generated, first, last, instruments, owned, products);
    PriceSeries.LatestPricesAreOnePerInstrument(rows, generated, first, last);
    ListIsComplete(instruments, generated, owned, prices, products);
    var list := Listed(instruments, owned, prices, products);
    assert list[n].price in prices;
    var k :| 0 <= k < |prices| && prices[k] == list[n].price;
    PriceSeries.LatestPriceIsOnCurve(rows, generated, first, last, random, g, k);
  }
}
