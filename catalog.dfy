/**
 * The catalog page's list processing (src/pages/ProductsPage.tsx): the
 * search, price-range and category filters applied in that order, then an
 * optional sort, and the list of distinct categories of the products.
 * Prices are integers in the unit of the price range.
 */
module Catalog {
  import opened Wrappers
  import Seqs

  /** A product as the page receives it; `category` is the id of the included category, if any. */
  datatype Product = Product(id: string, name: string, description: string, price: int,
                             categoryId: string, category: Option<string>)

  /** `toLowerCase` on one character (ASCII letters only). */
  function LowerChar(c: char): char
  {
    if 'A' <= c <= 'Z' then (c as int + 32) as char else c
  }

  function Lower(s: string): string
  {
    Seqs.Map(s, LowerChar)
  }

  /** `query` occurs in `text` starting at position `i`. */
  predicate OccursAt(text: string, query: string, i: int)
  {
    0 <= i && i + |query| <= |text| && text[i..i + |query|] == query
  }

  /** `text.includes(query)`: `query` occurs in `text` at some position. */
  predicate Contains(text: string, query: string)
  {
    exists i :: 0 <= i <= |text| - |query| && OccursAt(text, query, i)
  }

  /** The search test: the lower-cased name or description contains the lower-cased query. */
  predicate MatchesSearch(p: Product, query: string)
  {
    Contains(Lower(p.name), Lower(query)) || Contains(Lower(p.description), Lower(query))
  }

  /** Stage 1: the search filter, applied only when the query is not empty. */
  function SearchStage(products: seq<Product>, searchQuery: string): seq<Product>
  {
    if searchQuery == "" then products
    else Seqs.Filter(products, (p: Product) => MatchesSearch(p, searchQuery))
  }

  /** Stage 2: the inclusive price range `[minPrice, maxPrice]`. */
  function PriceStage(products: seq<Product>, minPrice: int, maxPrice: int): seq<Product>
  {
    Seqs.Filter(products, (p: Product) => p.price >= minPrice && p.price <= maxPrice)
  }

  /** Stage 3: the category filter, applied only when a category is selected. */
  function CategoryStage(products: seq<Product>, selectedCategory: string): seq<Product>
  {
    if selectedCategory == "" then products
    else Seqs.Filter(products, (p: Product) => p.categoryId == selectedCategory)
  }

  /** Code-unit lexicographic order on names, standing for `localeCompare`. */
  predicate NameLe(a: string, b: string)
  {
    a == [] || (b != [] && (a[0] < b[0] || (a[0] == b[0] && NameLe(a[1..], b[1..]))))
  }

  lemma {:induction false} NameLeTotal(a: string, b: string)
    ensures NameLe(a, b) || NameLe(b, a)
  {
    if a != [] && b != [] && a[0] == b[0] {
      NameLeTotal(a[1..], b[1..]);
    }
  }

  lemma {:induction false} NameLeTransitive(a: string, b: string, c: string)
    requires NameLe(a, b) && NameLe(b, c)
    ensures NameLe(a, c)
  {
    if a != [] && b != [] && c != [] && a[0] == b[0] && b[0] == c[0] {
      NameLeTransitive(a[1..], b[1..], c[1..]);
    }
  }

  predicate PriceAscending(a: Product, b: Product) { a.price <= b.price }
  predicate PriceDescending(a: Product, b: Product) { b.price <= a.price }
  predicate NameAscending(a: Product, b: Product) { NameLe(a.name, b.name) }
  predicate NameDescending(a: Product, b: Product) { NameLe(b.name, a.name) }

  /** Stage 4: the sort `sortBy` names; any other value leaves the order alone. */
  function SortStage(products: seq<Product>, sortBy: string): (r: seq<Product>)
    ensures multiset(r) == multiset(products)
    ensures sortBy != "price-asc" && sortBy != "price-desc" && sortBy != "name-asc" && sortBy != "name-desc" ==>
              r == products
  {
    if sortBy == "price-asc" then Seqs.Sort(products, PriceAscending)
    else if sortBy == "price-desc" then Seqs.Sort(products, PriceDescending)
    else if sortBy == "name-asc" then Seqs.Sort(products, NameAscending)
    else if sortBy == "name-desc" then Seqs.Sort(products, NameDescending)
    else products
  }

  /** The three filters in the page's order. */
  function Filtered(products: seq<Product>, searchQuery: string, minPrice: int, maxPrice: int,
                    selectedCategory: string): seq<Product>
  {
    CategoryStage(PriceStage(SearchStage(products, searchQuery), minPrice, maxPrice), selectedCategory)
  }

  /** The list the page shows: the filters, then the sort. */
  function FilteredProducts(products: seq<Product>, searchQuery: string, minPrice: int, maxPrice: int,
                            sortBy: string, selectedCategory: string): seq<Product>
  {
    SortStage(Filtered(products, searchQuery, minPrice, maxPrice, selectedCategory), sortBy)
  }

  /** Reference definition: the product passes all three filters. */
  predicate Selected(p: Product, searchQuery: string, minPrice: int, maxPrice: int, selectedCategory: string)
  {
    && (searchQuery == "" || MatchesSearch(p, searchQuery))
    && minPrice <= p.price <= maxPrice
    && (selectedCategory == "" || p.categoryId == selectedCategory)
  }

  /** The three stages together are a single filter by `Selected`. */
  lemma FilteredIsOneFilter(products: seq<Product>, searchQuery: string, minPrice: int, maxPrice: int,
                            selectedCategory: string)
    ensures Filtered(products, searchQuery, minPrice, maxPrice, selectedCategory)
         == Seqs.Filter(products, (p: Product) => Selected(p, searchQuery, minPrice, maxPrice, selectedCategory))
  {
    var search := (p: Product) => searchQuery == "" || MatchesSearch(p, searchQuery);
    var price := (p: Product) => p.price >= minPrice && p.price <= maxPrice;
    var category := (p: Product) => selectedCategory == "" || p.categoryId == selectedCategory;
    var searchAndPrice := (p: Product) => search(p) && price(p);
    var all := (p: Product) => Selected(p, searchQuery, minPrice, maxPrice, selectedCategory);
    if searchQuery == "" {
      Seqs.FilterKeepsAll(products, search);
    } else {
      Seqs.FilterSameTest(products, (p: Product) => MatchesSearch(p, searchQuery), search);
    }
    assert SearchStage(products, searchQuery) == Seqs.Filter(products, search);
    var priced := PriceStage(SearchStage(products, searchQuery), minPrice, maxPrice);
    Seqs.FilterTwice(products, search, price, searchAndPrice);
    if selectedCategory == "" {
      Seqs.FilterKeepsAll(priced, category);
    } else {
      Seqs.FilterSameTest(priced, (p: Product) => p.categoryId == selectedCategory, category);
    }
    Seqs.FilterTwice(products, searchAndPrice, category, all);
  }

  /**
   * The page shows exactly the products that pass the search, price and
   * category tests, none duplicated; without a recognised sort they keep
   * their original relative order, and any sort only permutes the filtered list.
   */
  lemma FilteredProductsContents(products: seq<Product>, searchQuery: string, minPrice: int, maxPrice: int,
                                 sortBy: string, selectedCategory: string)
    ensures forall p :: p in FilteredProducts(products, searchQuery, minPrice, maxPrice, sortBy, selectedCategory)
              <==> p in products && Selected(p, searchQuery, minPrice, maxPrice, selectedCategory)
    ensures multiset(FilteredProducts(products, searchQuery, minPrice, maxPrice, sortBy, selectedCategory))
         == multiset(Filtered(products, searchQuery, minPrice, maxPrice, selectedCategory))
    ensures multiset(FilteredProducts(products, searchQuery, minPrice, maxPrice, sortBy, selectedCategory))
         <= multiset(products)
    ensures sortBy != "price-asc" && sortBy != "price-desc" && sortBy != "name-asc" && sortBy != "name-desc" ==>
              Seqs.IsSubsequence(FilteredProducts(products, searchQuery, minPrice, maxPrice, sortBy, selectedCategory), products)
  {
    var all := (p: Product) => Selected(p, searchQuery, minPrice, maxPrice, selectedCategory);
    var f := Filtered(products, searchQuery, minPrice, maxPrice, selectedCategory);
    var r := SortStage(f, sortBy);
    FilteredIsOneFilter(products, searchQuery, minPrice, maxPrice, selectedCategory);
    assert f == Seqs.Filter(products, all);
    Seqs.FilterIsSubsequence(products, all);
    forall p ensures p in r <==> p in f {
      assert p in r <==> multiset(r)[p] > 0;
      assert p in f <==> multiset(f)[p] > 0;
    }
  }

  /** The price sorts order by price, the name sorts by name, ascending or descending. */
  lemma FilteredProductsOrder(products: seq<Product>, searchQuery: string, minPrice: int, maxPrice: int,
                              sortBy: string, selectedCategory: string)
    ensures sortBy == "price-asc" ==>
              var r := FilteredProducts(products, searchQuery, minPrice, maxPrice, sortBy, selectedCategory);
              forall i, j :: 0 <= i < j < |r| ==> r[i].price <= r[j].price
    ensures sortBy == "price-desc" ==>
              var r := FilteredProducts(products, searchQuery, minPrice, maxPrice, sortBy, selectedCategory);
              forall i, j :: 0 <= i < j < |r| ==> r[i].price >= r[j].price
    ensures sortBy == "name-asc" ==>
              var r := FilteredProducts(products, searchQuery, minPrice, maxPrice, sortBy, selectedCategory);
              forall i, j :: 0 <= i < j < |r| ==> NameLe(r[i].name, r[j].name)
    ensures sortBy == "name-desc" ==>
              var r := FilteredProducts(products, searchQuery, minPrice, maxPrice, sortBy, selectedCategory);
              forall i, j :: 0 <= i < j < |r| ==> NameLe(r[j].name, r[i].name)
  {
    var f := Filtered(products, searchQuery, minPrice, maxPrice, selectedCategory);
    var r := FilteredProducts(products, searchQuery, minPrice, maxPrice, sortBy, selectedCategory);
    forall a: string, b: string ensures NameLe(a, b) || NameLe(b, a) { NameLeTotal(a, b); }
    forall a: string, b: string, c: string | NameLe(a, b) && NameLe(b, c) ensures NameLe(a, c) {
      NameLeTransitive(a, b, c);
    }
    if sortBy == "price-asc" {
      Seqs.SortSorted(f, PriceAscending);
      Seqs.SortedPairwise(r, PriceAscending);
    } else if sortBy == "price-desc" {
      Seqs.SortSorted(f, PriceDescending);
      Seqs.SortedPairwise(r, PriceDescending);
    } else if sortBy == "name-asc" {
      Seqs.SortSorted(f, NameAscending);
      Seqs.SortedPairwise(r, NameAscending);
    } else if sortBy == "name-desc" {
      Seqs.SortSorted(f, NameDescending);
      Seqs.SortedPairwise(r, NameDescending);
    }
  }

  /** `filter(Boolean)` on category ids: the ids that are present and not empty, in order. */
  function PresentIds(refs: seq<Option<string>>): (r: seq<string>)
    ensures forall c :: c in r <==> Some(c) in refs && c != ""
    ensures Seqs.NoDuplicates(refs) ==> Seqs.NoDuplicates(r)
  {
    if refs == [] then []
    else
      assert refs == [refs[0]] + refs[1..];
      var rest := PresentIds(refs[1..]);
      if refs[0].Some? && refs[0].value != "" then
        assert Seqs.NoDuplicates(refs) ==> Some(refs[0].value) !in refs[1..] && Seqs.NoDuplicates(refs[1..]);
        [refs[0].value] + rest
      else rest
  }

  /** `[...new Set(products.map(p => p.category?.id))].filter(Boolean)`. */
  function Categories(products: seq<Product>): seq<string>
  {
    PresentIds(Seqs.Distinct(Seqs.Map(products, (p: Product) => p.category)))
  }

  /**
   * The category list has no duplicates and no missing or empty ids, and it
   * lists exactly the non-empty category ids some product has.
   */
  lemma CategoriesSpec(products: seq<Product>)
    ensures Seqs.NoDuplicates(Categories(products))
    ensures forall c :: c in Categories(products) ==> c != ""
    ensures forall c :: c in Categories(products) <==> c != "" && exists p :: p in products && p.category == Some(c)
  {
    var refs := Seqs.Map(products, (p: Product) => p.category);
    forall c ensures Some(c) in refs <==> exists p :: p in products && p.category == Some(c) {
      if Some(c) in refs {
        var k :| 0 <= k < |refs| && refs[k] == Some(c);
        assert products[k] in products;
      }
      if exists p :: p in products && p.category == Some(c) {
        var p :| p in products && p.category == Some(c);
        var k :| 0 <= k < |products| && products[k] == p;
        assert refs[k] == Some(c);
      }
    }
  }
}
