/** The page state behind the product grid: the generated catalogue and
    the globals `currentCategory`, `currentPage` and `visibleProducts`,
    with the handlers that change them. The search box and the sort
    control are read by `renderProducts` each time it runs; here their
    values are parameters. */
module Storefront {
  import opened Seqs
  import opened Catalog
  import opened Listing

  class Storefront {
    var products: seq<Product>
    var visibleProducts: seq<Product>
    var currentCategory: string
    var currentPage: nat

    ghost predicate Valid()
      reads this
    {
      currentPage >= 1
    }

    /** `currentPage` and `visibleProducts` as a value. */
    function CurrentView(): View
      reads this
    {
      View(currentPage, visibleProducts)
    }

    /** The list `renderProducts` would page through now. */
    function CurrentList(search: string, sort: string): seq<Product>
      reads this`products, this`currentCategory
    {
      Listed(products, currentCategory, search, sort)
    }

    /** The state when the script is loaded. */
    constructor ()
      ensures Valid()
      ensures products == [] && visibleProducts == [] && currentCategory == AllCategories && currentPage == 1
    {
      products := [];
      visibleProducts := [];
      currentCategory := AllCategories;
      currentPage := 1;
    }

    /** `generateProducts`: thirty products per category, ids counting up
        from 1; `prices` holds the price drawn for each push in turn. */
    method GenerateProducts(prices: seq<int>)
      requires |prices| == CatalogSize
      modifies this`products
      ensures products == GeneratedCatalog(prices)
    {
      products := [];
      var id := 1;
      for c := 0 to |Categories|
        invariant |products| == SlotsPerCategory * c && id == |products| + 1
        invariant CatalogPrefix(products, prices)
      {
        var cat := Categories[c];
        for i := 1 to SlotsPerCategory + 1
          invariant |products| == SlotsPerCategory * c + i - 1 && id == |products| + 1
          invariant CatalogPrefix(products, prices)
        {
          SlotOfPush(c, i);
          var p := Product(id, ItemName(cat, i), prices[id - 1], cat, "", PlaceholderDescription);
          assert p == SlotProduct(id - 1, prices[id - 1]);
          ExtendPrefix(products, prices, p);
          products := products + [p];
          id := id + 1;
        }
      }
      FullPrefix(products, prices);
    }

    /** `renderProducts(reset)`: appends the current page of the list to
        the visible products and reports whether "load more" is shown. */
    method RenderProducts(reset: bool, search: string, sort: string) returns (showLoadMore: bool)
      requires Valid()
      modifies this`currentPage, this`visibleProducts
      ensures Valid()
      ensures CurrentView() == Render(old(CurrentView()), CurrentList(search, sort), reset)
      ensures showLoadMore == LoadMoreShown(CurrentList(search, sort), currentPage)
    {
      ghost var before := CurrentView();
      if reset {
        currentPage := 1;
        visibleProducts := [];
      }
      ghost var base := CurrentView();
      assert base == if reset then View(1, []) else before;
      var list := if currentCategory == AllCategories then products else Filter(InCategory(currentCategory), products);
      var q := NormalizeQuery(search);
      if q != "" {
        list := Filter(MatchesQuery(q), list);
      }
      if sort == SortAscending {
        list := SortByPrice(true, list);
      } else if sort == SortDescending {
        list := SortByPrice(false, list);
      }
      assert list == CurrentList(search, sort);
      var start := (currentPage - 1) * PerPage;
      var nextItems := PageItems(list, currentPage);
      visibleProducts := visibleProducts + nextItems;
      showLoadMore := !(start + PerPage >= |list|);
      assert CurrentView() == Render(before, list, reset);
    }

    /** `loadMore`: the next page is appended. */
    method LoadMore(search: string, sort: string) returns (showLoadMore: bool)
      requires Valid()
      modifies this`currentPage, this`visibleProducts
      ensures Valid()
      ensures CurrentView() == LoadMoreStep(old(CurrentView()), CurrentList(search, sort))
      ensures showLoadMore == LoadMoreShown(CurrentList(search, sort), currentPage)
    {
      ghost var before := CurrentView();
      currentPage := currentPage + 1;
      assert CurrentView() == before.(page := before.page + 1);
      showLoadMore := RenderProducts(false, search, sort);
    }

    /** `showCategory(cat)`: the first page of that category. */
    method ShowCategory(cat: string, search: string, sort: string) returns (showLoadMore: bool)
      requires Valid()
      modifies this`currentCategory, this`currentPage, this`visibleProducts
      ensures Valid() && currentCategory == cat
      ensures CurrentView() == AfterLoads(CurrentList(search, sort), 0)
      ensures showLoadMore == LoadMoreShown(CurrentList(search, sort), 1)
    {
      currentCategory := cat;
      visibleProducts := [];
      currentPage := 1;
      showLoadMore := RenderProducts(true, search, sort);
    }

    /** The click handler of a hero button: it records the button's category
        and renders nothing, so the grid and the page stay as they were until
        `showCategory` runs. */
    method SelectHeroCategory(cat: string)
      requires Valid()
      modifies this`currentCategory
      ensures Valid() && currentCategory == cat
      ensures CurrentView() == old(CurrentView())
    {
      currentCategory := cat;
    }

    /** `performSearch`: the first page for the new search text. */
    method PerformSearch(search: string, sort: string) returns (showLoadMore: bool)
      requires Valid()
      modifies this`currentPage, this`visibleProducts
      ensures Valid()
      ensures CurrentView() == AfterLoads(CurrentList(search, sort), 0)
      ensures showLoadMore == LoadMoreShown(CurrentList(search, sort), 1)
    {
      visibleProducts := [];
      currentPage := 1;
      showLoadMore := RenderProducts(true, search, sort);
    }

    /** `applySort`: the first page in the new order. */
    method ApplySort(search: string, sort: string) returns (showLoadMore: bool)
      requires Valid()
      modifies this`currentPage, this`visibleProducts
      ensures Valid()
      ensures CurrentView() == AfterLoads(CurrentList(search, sort), 0)
      ensures showLoadMore == LoadMoreShown(CurrentList(search, sort), 1)
    {
      visibleProducts := [];
      currentPage := 1;
      showLoadMore := RenderProducts(true, search, sort);
    }

    /** `resetFilters`: empty search, default order, all categories; the
        first eighteen products of the catalogue are shown. */
    method ResetFilters() returns (showLoadMore: bool)
      requires Valid()
      modifies this`currentCategory, this`currentPage, this`visibleProducts
      ensures Valid() && currentCategory == AllCategories && currentPage == 1
      ensures visibleProducts == Take(products, PerPage)
      ensures showLoadMore <==> |products| > PerPage
    {
      showLoadMore := ShowCategory(AllCategories, "", "default");
      ListedWithoutFilters(products, "default");
      AfterLoadsShowsPrefix(products, 0);
    }
  }
}
