/**
 * The product grid's filter pipeline (src/components/organisms/ProductGrid.jsx): the loaded
 * products are narrowed by the selected category, then by the search text, then cut to the
 * grid's `limit`; a "View All" button appears when the limit hides products.
 */
module ProductGrid {
  import opened Wrappers
  import opened JsValue
  import opened JsString
  import opened Sequences
  import opened ProductService

  /** The category selector's value meaning "no category filter". */
  const AllCategories := "all"

  /** `s.slice(0, n)`: a negative end counts from the back, an end past the length is the length. */
  function Truncate<T>(s: seq<T>, n: int): (r: seq<T>)
    ensures |r| <= |s| && r == s[..|r|]
    ensures n >= 0 ==> |r| == if n < |s| then n else |s|
    ensures n < 0 ==> |r| == if |s| + n > 0 then |s| + n else 0
  {
    var end := if n < 0 then (if |s| + n > 0 then |s| + n else 0) else if n < |s| then n else |s|;
    s[..end]
  }

  /** `if (limit)`: an absent or zero limit applies no cut. */
  predicate HasLimit(limit: Option<int>) {
    limit.Some? && limit.value != 0
  }

  /** `filterProducts`: the category filter, then the search filter when the query is not
      empty, then the limit as a prefix take. Fails with a TypeError when the search reaches
      a product whose name, description or category is not a string. */
  function FilterProducts(products: seq<Record>, selectedCategory: string, searchQuery: string,
                          limit: Option<int>): Result<seq<Record>>
  {
    var filtered := if selectedCategory != AllCategories then Filter(products, CategoryIs(selectedCategory))
                    else products;
    var searched := if searchQuery != "" then SearchRecords(filtered, searchQuery) else Success(filtered);
    match searched
    case Failure(e) => Failure(e)
    case Success(f) => Success(if HasLimit(limit) then Truncate(f, limit.value) else f)
  }

  /** The condition of the "View All" button: `limit && products.length > limit`, over the
      whole product list rather than the filtered one. */
  predicate ShowViewAll(products: seq<Record>, limit: Option<int>) {
    HasLimit(limit) && |products| > limit.value
  }

  // ---------------------------------------------------------------------------
  // What the pipeline keeps
  // ---------------------------------------------------------------------------

  /** A product passes the category filter. */
  predicate CategoryKeeps(p: Record, selectedCategory: string) {
    selectedCategory == AllCategories || HasCategory(p, selectedCategory)
  }

  /** A product passes both filters: the category when one is selected, and the search text
      in its name, description or category when the query is not empty. */
  function GridKeep(selectedCategory: string, searchQuery: string): (keep: Record -> bool)
    ensures forall p :: keep(p) == (CategoryKeeps(p, selectedCategory)
                                    && (searchQuery == "" || MatchesTerm(p, Lower(searchQuery)) == Some(true)))
  {
    p => CategoryKeeps(p, selectedCategory)
         && (searchQuery == "" || MatchesTerm(p, Lower(searchQuery)) == Some(true))
  }

  /** Filtering by two predicates that agree everywhere gives the same sequence. */
  lemma {:induction false} FilterCongruent<T>(s: seq<T>, p: T -> bool, q: T -> bool)
    requires forall x :: p(x) == q(x)
    ensures Filter(s, p) == Filter(s, q)
    decreases |s|
  {
    if s != [] {
      FilterCongruent(s[..|s| - 1], p, q);
    }
  }

  /** The two filters, before the limit: when the search does not throw, its result is the
      products both filters keep. */
  lemma FilteredKeeps(products: seq<Record>, selectedCategory: string, searchQuery: string)
    ensures var filtered := if selectedCategory != AllCategories then Filter(products, CategoryIs(selectedCategory))
                            else products;
            var searched := if searchQuery != "" then SearchRecords(filtered, searchQuery) else Success(filtered);
            searched.Success? ==> searched.value == Filter(products, GridKeep(selectedCategory, searchQuery))
  {
    var keep := GridKeep(selectedCategory, searchQuery);
    var byCategory := CategoryIs(selectedCategory);
    var byText := TermMatches(Lower(searchQuery));
    if selectedCategory == AllCategories && searchQuery == "" {
      FilterKeepAll(products, keep);
    } else if selectedCategory == AllCategories {
      FilterCongruent(products, byText, keep);
    } else if searchQuery == "" {
      FilterCongruent(products, byCategory, keep);
    } else {
      FilterFilter(products, byCategory, byText);
      FilterCongruent(products, Both(byCategory, byText), keep);
    }
  }

  /** Whenever the pipeline succeeds, it returns the first `limit` products that both filters
      keep, in the order of `products`. */
  lemma FilterProductsKeeps(products: seq<Record>, selectedCategory: string, searchQuery: string,
                            limit: Option<int>)
    ensures var r := FilterProducts(products, selectedCategory, searchQuery, limit);
            var kept := Filter(products, GridKeep(selectedCategory, searchQuery));
            r.Success? ==> Selects(products, GridKeep(selectedCategory, searchQuery), kept)
                           && r.value == if HasLimit(limit) then Truncate(kept, limit.value) else kept
  {
    FilterSelects(products, GridKeep(selectedCategory, searchQuery));
    FilteredKeeps(products, selectedCategory, searchQuery);
  }

  /** The pipeline fails exactly when the query is not empty and some product that passes the
      category filter cannot be searched. */
  lemma FilterProductsFails(products: seq<Record>, selectedCategory: string, searchQuery: string,
                            limit: Option<int>)
    ensures FilterProducts(products, selectedCategory, searchQuery, limit).Failure?
            <==> searchQuery != ""
                 && exists i :: 0 <= i < |products| && CategoryKeeps(products[i], selectedCategory)
                                && MatchesTerm(products[i], Lower(searchQuery)).None?
  {
    if searchQuery != "" && selectedCategory != AllCategories {
      var byCategory := CategoryIs(selectedCategory);
      FilterSelects(products, byCategory);
      SelectsSome(products, byCategory, Filter(products, byCategory), Untestable(Lower(searchQuery)));
    }
  }

  /** The search throws on this product. */
  function Untestable(term: string): (bad: Record -> bool)
    ensures forall p :: bad(p) == MatchesTerm(p, term).None?
  {
    p => MatchesTerm(p, term).None?
  }

  /** Whatever the filters and the limit, a successful result is an order-preserving
      subsequence of the products. */
  lemma FilterProductsSubseq(products: seq<Record>, selectedCategory: string, searchQuery: string,
                             limit: Option<int>)
    ensures var r := FilterProducts(products, selectedCategory, searchQuery, limit);
            r.Success? ==> SubseqOf(r.value, products)
  {
    var r := FilterProducts(products, selectedCategory, searchQuery, limit);
    if r.Success? {
      var keep := GridKeep(selectedCategory, searchQuery);
      var kept := Filter(products, keep);
      FilterProductsKeeps(products, selectedCategory, searchQuery, limit);
      if HasLimit(limit) {
        PrefixSubseq(kept, |r.value|);
        SubseqTrans(r.value, kept, products);
      }
    }
  }

  /** A positive limit bounds the number of products shown. */
  lemma FilterProductsLimit(products: seq<Record>, selectedCategory: string, searchQuery: string,
                            n: int)
    requires n > 0
    ensures var r := FilterProducts(products, selectedCategory, searchQuery, Some(n));
            r.Success? ==> |r.value| <= n
  {
  }

  /** With the category "all", an empty query and no limit the grid shows every product. */
  lemma FilterProductsIdentity(products: seq<Record>)
    ensures FilterProducts(products, AllCategories, "", None) == Success(products)
  {
  }

  /** For a positive limit, the "View All" button appears exactly when the unfiltered grid
      has to leave products out. */
  lemma ViewAllWhenTruncated(products: seq<Record>, n: int)
    requires n > 0
    ensures var r := FilterProducts(products, AllCategories, "", Some(n));
            r.Success? && (ShowViewAll(products, Some(n)) <==> |r.value| < |products|)
  {
  }
}
