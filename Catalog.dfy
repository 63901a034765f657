/** The placeholder catalogue: four categories of thirty products each,
    numbered consecutively from 1, and the look-up of a product by id. */
module Catalog {
  import opened Wrappers
  import opened Seqs
  import opened Strings

  const Categories: seq<string> := ["mens", "girls", "baby", "accessories"]
  const SlotsPerCategory := 30
  const CatalogSize := 120

  /** `Math.floor(500 + Math.random() * 3000)` lies in this range. */
  const MinPrice := 500
  const MaxPrice := 3499

  const PlaceholderDescription := "Placeholder description. Replace with real product details."

  datatype Product = Product(id: int, name: string, price: int, category: string, image: string, desc: string)

  /** `cat.charAt(0).toUpperCase() + cat.slice(1)`. */
  function Capitalize(s: string): string {
    if s == [] then [] else [ToUpperChar(s[0])] + s[1..]
  }

  /** The name of slot `i` (counted from 1) of category `cat`, e.g. "Mens item 7". */
  function ItemName(cat: string, i: nat): string {
    Capitalize(cat) + " item " + NatToString(i)
  }

  /** The product pushed as the `k`-th of the catalogue (from 0), with the price drawn for it. */
  function SlotProduct(k: nat, price: int): Product
    requires k < CatalogSize
  {
    var cat := Categories[k / SlotsPerCategory];
    Product(k + 1, ItemName(cat, k % SlotsPerCategory + 1), price, cat, "", PlaceholderDescription)
  }

  predicate PricesInRange(prices: seq<int>) {
    forall k :: 0 <= k < |prices| ==> MinPrice <= prices[k] <= MaxPrice
  }

  /** The catalogue `generateProducts` builds from the drawn prices, in push order. */
  function GeneratedCatalog(prices: seq<int>): (r: seq<Product>)
    requires |prices| == CatalogSize
    ensures |r| == CatalogSize
    ensures forall k :: 0 <= k < |r| ==> r[k].id == k + 1 && r[k].price == prices[k]
    ensures forall k :: 0 <= k < |r| ==> r[k].category == Categories[k / SlotsPerCategory]
    ensures forall k :: 0 <= k < |r| ==>
      r[k].name == ItemName(Categories[k / SlotsPerCategory], k % SlotsPerCategory + 1)
    ensures forall k :: 0 <= k < |r| ==> r[k].image == "" && r[k].desc == PlaceholderDescription
  {
    seq(CatalogSize, k requires 0 <= k < CatalogSize => SlotProduct(k, prices[k]))
  }

  /** `products` holds the first `|products|` products of the catalogue for `prices`. */
  predicate CatalogPrefix(products: seq<Product>, prices: seq<int>) {
    |products| <= |prices| == CatalogSize
    && forall k :: 0 <= k < |products| ==> products[k] == SlotProduct(k, prices[k])
  }

  /** Pushing the next slot's product extends the prefix by one. */
  lemma ExtendPrefix(products: seq<Product>, prices: seq<int>, p: Product)
    requires CatalogPrefix(products, prices) && |products| < CatalogSize
    requires p == SlotProduct(|products|, prices[|products|])
    ensures CatalogPrefix(products + [p], prices)
  {
    var n := |products|;
    forall k | 0 <= k < n + 1 ensures (products + [p])[k] == SlotProduct(k, prices[k]) {
      if k < n {
        assert (products + [p])[k] == products[k];
      }
    }
  }

  /** The whole prefix is the catalogue. */
  lemma FullPrefix(products: seq<Product>, prices: seq<int>)
    requires CatalogPrefix(products, prices) && |products| == CatalogSize
    ensures products == GeneratedCatalog(prices)
  {
  }

  /** Every product of the catalogue is priced as `Math.random` could price it. */
  lemma CatalogPrices(prices: seq<int>)
    requires |prices| == CatalogSize && PricesInRange(prices)
    ensures forall p :: p in GeneratedCatalog(prices) ==> MinPrice <= p.price <= MaxPrice
  {
  }

  /** No product before position `k` has the id `id`. */
  predicate FirstWithId(products: seq<Product>, k: int, id: int)
    requires 0 <= k <= |products|
  {
    forall j :: 0 <= j < k ==> products[j].id != id
  }

  /** `products.find(x => x.id === id)`: the first product with that id. */
  function FindProduct(products: seq<Product>, id: int): (r: Option<Product>)
    ensures r.Some? ==> r.value in products && r.value.id == id
    ensures r.Some? ==> exists k :: 0 <= k < |products| && products[k] == r.value && FirstWithId(products, k, id)
    ensures r.None? <==> forall k :: 0 <= k < |products| ==> products[k].id != id
  {
    if products == [] then None
    else if products[0].id == id then Some(products[0])
    else FindProduct(products[1..], id)
  }

  /** Look-up in a run of products numbered consecutively from `first`. */
  lemma {:induction false} FindConsecutive(products: seq<Product>, first: int, id: int)
    requires forall k :: 0 <= k < |products| ==> products[k].id == first + k
    ensures FindProduct(products, id) ==
      if first <= id < first + |products| then Some(products[id - first]) else None
  {
    if products != [] {
      FindConsecutive(products[1..], first + 1, id);
    }
  }

  /** Ids 1 to 120 find the product in that slot; no other id finds anything. */
  lemma FindInCatalog(prices: seq<int>, id: int)
    requires |prices| == CatalogSize
    ensures FindProduct(GeneratedCatalog(prices), id) ==
      if 1 <= id <= CatalogSize then Some(GeneratedCatalog(prices)[id - 1]) else None
  {
    FindConsecutive(GeneratedCatalog(prices), 1, id);
  }

  /** The filter `p => p.category === cat`. */
  function InCategory(cat: string): Product -> bool {
    (p: Product) => p.category == cat
  }

  /** Slot `k` belongs to the `c`-th block of thirty. */
  lemma SlotBlock(k: nat, c: nat)
    ensures k / SlotsPerCategory == c <==> SlotsPerCategory * c <= k < SlotsPerCategory * (c + 1)
  {
  }

  /** The filter counts one for a single product exactly when it passes. */
  lemma FilterOne(f: Product -> bool, p: Product)
    ensures |Filter(f, [p])| == if f(p) then 1 else 0
  {
    assert [p][1..] == [];
  }

  /** The product pushed as slot `i` (from 1) of category `c` is catalogue slot `30c + i - 1`. */
  lemma SlotOfPush(c: nat, i: nat)
    requires c < |Categories| && 1 <= i <= SlotsPerCategory
    ensures var k := SlotsPerCategory * c + i - 1;
      k < CatalogSize && k / SlotsPerCategory == c && k % SlotsPerCategory + 1 == i
  {
  }

  /** The four category names differ from one another. */
  lemma CategoriesDistinct(c: nat, d: nat)
    requires c < |Categories| && d < |Categories|
    ensures Categories[c] == Categories[d] <==> c == d
  {
    assert Categories[0][0] == 'm' && Categories[1][0] == 'g' && Categories[2][0] == 'b' && Categories[3][0] == 'a';
  }

  /** Products laid out as `generateProducts` lays them out: slot `k` in category `k / 30`. */
  predicate Blocked(all: seq<Product>) {
    forall k :: 0 <= k < |all| ==> k / SlotsPerCategory < |Categories| && all[k].category == Categories[k / SlotsPerCategory]
  }

  /** Of the first `n` products, those of category `c` are the ones in slots `30c` to `30c + 29`. */
  lemma {:induction false} CategoryCountPrefix(all: seq<Product>, c: nat, n: nat)
    requires |all| == CatalogSize && Blocked(all) && c < |Categories| && n <= CatalogSize
    ensures |Filter(InCategory(Categories[c]), all[..n])| ==
      Max(0, Min(n, SlotsPerCategory * (c + 1)) - SlotsPerCategory * c)
  {
    if n > 0 {
      var f := InCategory(Categories[c]);
      CategoryCountPrefix(all, c, n - 1);
      assert all[..n] == all[..n - 1] + [all[n - 1]];
      FilterAppend(f, all[..n - 1], [all[n - 1]]);
      FilterOne(f, all[n - 1]);
      var d := (n - 1) / SlotsPerCategory;
      SlotBlock(n - 1, c);
      CategoriesDistinct(c, d);
      assert f(all[n - 1]) <==> d == c;
    }
  }

  /** Each of the four categories holds exactly thirty products, and any other category none. */
  lemma CategorySize(prices: seq<int>, cat: string)
    requires |prices| == CatalogSize
    ensures |Filter(InCategory(cat), GeneratedCatalog(prices))| == if cat in Categories then SlotsPerCategory else 0
  {
    var all := GeneratedCatalog(prices);
    assert all[..CatalogSize] == all;
    if cat in Categories {
      var c :| 0 <= c < |Categories| && Categories[c] == cat;
      CategoryCountPrefix(all, c, CatalogSize);
    } else {
      FilterNone(InCategory(cat), all);
    }
  }
}
