/** The product listing of `renderProducts` as a pipeline of values:
    filter by category, filter by the search text, sort by price, and cut
    the result into pages of eighteen; plus the label a category button
    is matched by. */
module Listing {
  import opened Seqs
  import opened Strings
  import opened Catalog

  const PerPage := 18
  const AllCategories := "all"
  const SortAscending := "price-asc"
  const SortDescending := "price-desc"

  /** The search text as it is compared: trimmed, then lower-cased. */
  function NormalizeQuery(search: string): string {
    ToLower(Trim(search))
  }

  /** The filter `p => p.name.toLowerCase().includes(q) || p.desc.toLowerCase().includes(q)`. */
  function MatchesQuery(q: string): Product -> bool {
    (p: Product) => Contains(ToLower(p.name), q) || Contains(ToLower(p.desc), q)
  }

  /** The category filter, then the search filter when the query is not empty. */
  function Selected(products: seq<Product>, cat: string, q: string): seq<Product> {
    var list := if cat == AllCategories then products else Filter(InCategory(cat), products);
    if q != "" then Filter(MatchesQuery(q), list) else list
  }

  /** A product is listed when its category is chosen ("all" chooses every
      one) and its lower-cased name or description contains the query. */
  function Listable(cat: string, q: string): Product -> bool {
    (p: Product) => (cat == AllCategories || p.category == cat)
      && (Contains(ToLower(p.name), q) || Contains(ToLower(p.desc), q))
  }

  /** The two filters select exactly the listable products, in catalogue order. */
  lemma SelectedIsListable(products: seq<Product>, cat: string, q: string)
    ensures Selected(products, cat, q) == Filter(Listable(cat, q), products)
  {
    var f := Listable(cat, q);
    if q == "" {
      forall p: Product ensures MatchesQuery(q)(p) {
        ContainsEmpty(ToLower(p.name));
      }
    }
    if cat == AllCategories {
      if q == "" {
        FilterAll(f, products);
      } else {
        FilterSame(MatchesQuery(q), f, products);
      }
    } else {
      if q == "" {
        FilterSame(InCategory(cat), f, products);
      } else {
        FilterTwice(InCategory(cat), MatchesQuery(q), f, products);
      }
    }
  }

  /** `a` may stand before `b`: by the comparator `a.price - b.price`, or `b.price - a.price` descending. */
  predicate Precedes(ascending: bool, a: Product, b: Product) {
    if ascending then a.price <= b.price else a.price >= b.price
  }

  predicate InPriceOrder(ascending: bool, s: seq<Product>) {
    forall i, j :: 0 <= i < j < |s| ==> Precedes(ascending, s[i], s[j])
  }

  /** Inserts `x` before the first element it may precede. */
  function InsertByPrice(ascending: bool, x: Product, s: seq<Product>): (r: seq<Product>)
    ensures multiset(r) == multiset(s) + multiset{x}
  {
    if s == [] then [x]
    else if Precedes(ascending, x, s[0]) then [x] + s
    else
      assert s == [s[0]] + s[1..];
      [s[0]] + InsertByPrice(ascending, x, s[1..])
  }

  /** `y` may precede every element of `s`. */
  predicate LowerBound(ascending: bool, y: Product, s: seq<Product>) {
    forall k :: 0 <= k < |s| ==> Precedes(ascending, y, s[k])
  }

  /** A bound of the head and of the tail is a bound of the whole list. */
  lemma ConsBound(ascending: bool, y: Product, a: Product, t: seq<Product>)
    requires Precedes(ascending, y, a) && LowerBound(ascending, y, t)
    ensures LowerBound(ascending, y, [a] + t)
  {
    forall k | 0 <= k < |[a] + t| ensures Precedes(ascending, y, ([a] + t)[k]) {
      if k > 0 {
        assert ([a] + t)[k] == t[k - 1];
      }
    }
  }

  /** A head that bounds an ordered tail gives an ordered list. */
  lemma ConsOrdered(ascending: bool, a: Product, t: seq<Product>)
    requires InPriceOrder(ascending, t) && LowerBound(ascending, a, t)
    ensures InPriceOrder(ascending, [a] + t)
  {
    var r := [a] + t;
    forall i, j | 0 <= i < j < |r| ensures Precedes(ascending, r[i], r[j]) {
      assert r[j] == t[j - 1];
      if i > 0 {
        assert r[i] == t[i - 1];
      }
    }
  }

  /** The head of an ordered list bounds its tail, and the tail is ordered. */
  lemma HeadBoundsTail(ascending: bool, s: seq<Product>)
    requires s != [] && InPriceOrder(ascending, s)
    ensures LowerBound(ascending, s[0], s[1..]) && InPriceOrder(ascending, s[1..])
  {
    var t := s[1..];
    forall k | 0 <= k < |t| ensures Precedes(ascending, s[0], t[k]) {
      assert t[k] == s[k + 1];
    }
    forall i, j | 0 <= i < j < |t| ensures Precedes(ascending, t[i], t[j]) {
      assert t[i] == s[i + 1] && t[j] == s[j + 1];
    }
  }

  /** A product that may precede `x` and every element of `s` may precede every element after the insertion. */
  lemma {:induction false} InsertLowerBound(ascending: bool, y: Product, x: Product, s: seq<Product>)
    requires Precedes(ascending, y, x) && LowerBound(ascending, y, s)
    ensures LowerBound(ascending, y, InsertByPrice(ascending, x, s))
  {
    if s == [] {
      assert InsertByPrice(ascending, x, s) == [x];
    } else if Precedes(ascending, x, s[0]) {
      ConsBound(ascending, y, x, s);
    } else {
      assert LowerBound(ascending, y, s[1..]) by {
        forall k | 0 <= k < |s[1..]| ensures Precedes(ascending, y, s[1..][k]) {
          assert s[1..][k] == s[k + 1];
        }
      }
      InsertLowerBound(ascending, y, x, s[1..]);
      ConsBound(ascending, y, s[0], InsertByPrice(ascending, x, s[1..]));
    }
  }

  /** Insertion into a list in price order keeps it in price order. */
  lemma {:induction false} InsertKeepsOrder(ascending: bool, x: Product, s: seq<Product>)
    requires InPriceOrder(ascending, s)
    ensures InPriceOrder(ascending, InsertByPrice(ascending, x, s))
  {
    if s == [] {
      assert InsertByPrice(ascending, x, s) == [x];
    } else if Precedes(ascending, x, s[0]) {
      assert LowerBound(ascending, x, s);
      ConsOrdered(ascending, x, s);
    } else {
      var tail := s[1..];
      HeadBoundsTail(ascending, s);
      InsertKeepsOrder(ascending, x, tail);
      InsertLowerBound(ascending, s[0], x, tail);
      ConsOrdered(ascending, s[0], InsertByPrice(ascending, x, tail));
    }
  }

  /** `list.sort(comparator)` by price: an insertion sort. */
  function SortByPrice(ascending: bool, s: seq<Product>): (r: seq<Product>)
    ensures multiset(r) == multiset(s)
  {
    if s == [] then []
    else
      assert s == [s[0]] + s[1..];
      InsertByPrice(ascending, s[0], SortByPrice(ascending, s[1..]))
  }

  /** The sort puts the list in price order. */
  lemma {:induction false} SortByPriceOrdered(ascending: bool, s: seq<Product>)
    ensures InPriceOrder(ascending, SortByPrice(ascending, s))
  {
    if s != [] {
      SortByPriceOrdered(ascending, s[1..]);
      InsertKeepsOrder(ascending, s[0], SortByPrice(ascending, s[1..]));
    }
  }

  /** The sort `renderProducts` applies for the value of the sort control. */
  function SortBy(list: seq<Product>, sort: string): seq<Product> {
    if sort == SortAscending then SortByPrice(true, list)
    else if sort == SortDescending then SortByPrice(false, list)
    else list
  }

  /** The whole list `renderProducts` pages through. */
  function Listed(products: seq<Product>, cat: string, search: string, sort: string): seq<Product> {
    SortBy(Selected(products, cat, NormalizeQuery(search)), sort)
  }

  /** The listing holds the listable products: in catalogue order when
      unsorted, otherwise rearranged into price order. */
  lemma ListedSpec(products: seq<Product>, cat: string, search: string, sort: string)
    ensures var chosen := Filter(Listable(cat, NormalizeQuery(search)), products);
      && multiset(Listed(products, cat, search, sort)) == multiset(chosen)
      && (sort == SortAscending ==> InPriceOrder(true, Listed(products, cat, search, sort)))
      && (sort == SortDescending ==> InPriceOrder(false, Listed(products, cat, search, sort)))
      && (sort != SortAscending && sort != SortDescending ==> Listed(products, cat, search, sort) == chosen)
  {
    var chosen := Selected(products, cat, NormalizeQuery(search));
    SelectedIsListable(products, cat, NormalizeQuery(search));
    SortByPriceOrdered(true, chosen);
    SortByPriceOrdered(false, chosen);
  }

  /** With category "all", an empty search box and no price sort, the listing is the catalogue as generated. */
  lemma ListedWithoutFilters(products: seq<Product>, sort: string)
    requires sort != SortAscending && sort != SortDescending
    ensures Listed(products, AllCategories, "", sort) == products
  {
    assert Trim("") == "";
    assert NormalizeQuery("") == "";
  }

  /** The products of page `page` (counted from 1): `list.slice(start, start + perPage)`. */
  function PageItems(list: seq<Product>, page: nat): seq<Product>
    requires page >= 1
  {
    var start := (page - 1) * PerPage;
    Slice(list, start, start + PerPage)
  }

  /** Whether "load more" is displayed after rendering page `page`. */
  predicate LoadMoreShown(list: seq<Product>, page: nat)
    requires page >= 1
  {
    var start := (page - 1) * PerPage;
    !(start + PerPage >= |list|)
  }

  /** The listing globals: `currentPage` and `visibleProducts`. */
  datatype View = View(page: nat, visible: seq<Product>)

  /** One `renderProducts(reset)` call on the state `v`. */
  function Render(v: View, list: seq<Product>, reset: bool): View
    requires reset || v.page >= 1
  {
    var base := if reset then View(1, []) else v;
    base.(visible := base.visible + PageItems(list, base.page))
  }

  /** `loadMore`: the next page number, then a render without reset. */
  function LoadMoreStep(v: View, list: seq<Product>): View {
    Render(v.(page := v.page + 1), list, false)
  }

  /** The state after a reset render and then `k` calls of `loadMore`. */
  function AfterLoads(list: seq<Product>, k: nat): View {
    if k == 0 then Render(View(1, []), list, true) else LoadMoreStep(AfterLoads(list, k - 1), list)
  }

  /** After the reset and `k` loads, page `k + 1` is current and the first `(k + 1) * 18` items are shown. */
  lemma {:induction false} AfterLoadsShowsPrefix(list: seq<Product>, k: nat)
    ensures AfterLoads(list, k) == View(k + 1, Take(list, (k + 1) * PerPage))
  {
    if k == 0 {
      TakeThenSlice(list, 0, PerPage);
    } else {
      AfterLoadsShowsPrefix(list, k - 1);
      TakeThenSlice(list, k * PerPage, k * PerPage + PerPage);
    }
  }

  /** "Load more" is hidden exactly when every item of the list is shown. */
  lemma LoadMoreHiddenIffAllShown(list: seq<Product>, k: nat)
    ensures !LoadMoreShown(list, k + 1) <==> AfterLoads(list, k).visible == list
  {
    AfterLoadsShowsPrefix(list, k);
    var shown := AfterLoads(list, k).visible;
    if shown == list {
      assert |shown| == Min((k + 1) * PerPage, |list|);
    }
  }

  /** The labels a category button's text is mapped to. */
  const NavLabels: seq<string> := [AllCategories] + Categories

  /** The nested conditional of `updateCategoryNavActive`: the trimmed,
      lower-cased text when it is one of "all", "mens", "girls", "baby" and
      "accessories", else "". */
  function NavLabel(text: string): (mapped: string)
    ensures mapped == "" || mapped in NavLabels
    ensures mapped in NavLabels <==> NormalizeQuery(text) in NavLabels
    ensures mapped != "" ==> mapped == NormalizeQuery(text)
  {
    var t := NormalizeQuery(text);
    LabelChainIsMembership(t);
    LabelChain(t)
  }

  /** The nested conditional of `updateCategoryNavActive` on the normalised text. */
  function LabelChain(t: string): string {
    if t == "all" then "all"
    else if t == "mens" then "mens"
    else if t == "girls" then "girls"
    else if t == "baby" then "baby"
    else if t == "accessories" then "accessories"
    else ""
  }

  /** The conditional keeps exactly the texts that are labels. */
  lemma LabelChainIsMembership(t: string)
    ensures LabelChain(t) == if t in NavLabels then t else ""
  {
  }

  /** A category button is highlighted when its label equals the current category. */
  predicate NavButtonActive(text: string, current: string) {
    NavLabel(text) == current
  }

  /** For any non-empty current category, a button is highlighted exactly
      when its normalised text is one of the labels and equals that category;
      so for a category outside the labels (say "sale") no button is. */
  lemma NavActiveIff(text: string, current: string)
    requires current != ""
    ensures NavButtonActive(text, current) <==> NormalizeQuery(text) in NavLabels && NormalizeQuery(text) == current
  {
  }

  /** With an empty current category, every button whose text is not a label is highlighted. */
  lemma NavActiveOnEmptyCategory(text: string)
    ensures NavButtonActive(text, "") <==> NormalizeQuery(text) !in NavLabels
  {
  }

}
