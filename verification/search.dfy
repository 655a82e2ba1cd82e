/** The two-stage, order-preserving filter of `searchProducts`. */
module Search {
  import opened Seqs
  import opened Catalog

  /** The two category names that switch the category stage off. */
  predicate IsAllCategory(category: string) {
    category == "all" || category == "همه"
  }

  /** `query && query.trim()`: the query has a character that is not white space. */
  predicate HasQuery(query: string) {
    HasNonSpace(query)
  }

  /** `field && field.toLowerCase().includes(term)`. */
  predicate FieldMatches(field: string, term: string) {
    field != "" && Contains(AsciiLower(field), term)
  }

  /** The product's name, code, description or full description contains `term`. */
  predicate Matches(p: Product, term: string) {
    FieldMatches(p.name, term) || FieldMatches(p.code, term) ||
    FieldMatches(p.description, term) || FieldMatches(p.fullDescription, term)
  }

  /** First stage: keep the products of `category`, unless it is one of the "all" names. */
  function ByCategory(products: seq<Product>, category: string): (kept: seq<Product>)
    ensures |kept| <= |products|
    ensures !IsAllCategory(category) ==> forall i :: 0 <= i < |kept| ==> kept[i].category == category
  {
    if IsAllCategory(category) then products
    else Filter(products, (p: Product) => p.category == category)
  }

  /** Second stage: when the trimmed query is non-empty, keep the products matching the lower-cased, untrimmed query. */
  function ByQuery(products: seq<Product>, query: string): (kept: seq<Product>)
    ensures |kept| <= |products|
    ensures HasQuery(query) ==> forall i :: 0 <= i < |kept| ==> Matches(kept[i], AsciiLower(query))
  {
    if HasQuery(query) then Filter(products, (p: Product) => Matches(p, AsciiLower(query)))
    else products
  }

  /** The list `searchProducts(query, category)` stores in `currentSearchResults`. */
  function SearchResults(products: seq<Product>, query: string, category: string): (results: seq<Product>)
    ensures |results| <= |products|
  {
    ByQuery(ByCategory(products, category), query)
  }

  /** Filtering never reorders and never adds. */
  lemma StagesAreSubsequences(products: seq<Product>, query: string, category: string)
    ensures IsSubsequence(ByCategory(products, category), products)
    ensures IsSubsequence(SearchResults(products, query, category), ByCategory(products, category))
    ensures IsSubsequence(SearchResults(products, query, category), products)
  {
    var c := ByCategory(products, category);
    if IsAllCategory(category) {
      SubsequenceReflexive(products);
    } else {
      FilterSpec(products, (p: Product) => p.category == category);
    }
    if HasQuery(query) {
      FilterSpec(c, (p: Product) => Matches(p, AsciiLower(query)));
    } else {
      SubsequenceReflexive(c);
    }
    SubsequenceTransitive(SearchResults(products, query, category), c, products);
  }

  /**
   * A search keeps exactly the products of the chosen category (any, for the
   * "all" names) that match the query (any, for a blank query), in catalog
   * order; with "all" and a blank query it keeps the whole catalog.
   */
  lemma SearchResultsSpec(products: seq<Product>, query: string, category: string)
    ensures IsSubsequence(SearchResults(products, query, category), products)
    ensures forall p :: p in SearchResults(products, query, category) <==>
      && p in products
      && (IsAllCategory(category) || p.category == category)
      && (!HasQuery(query) || Matches(p, AsciiLower(query)))
    ensures IsAllCategory(category) && !HasQuery(query) ==> SearchResults(products, query, category) == products
  {
    StagesAreSubsequences(products, query, category);
    var c := ByCategory(products, category);
    if !IsAllCategory(category) {
      FilterSpec(products, (p: Product) => p.category == category);
    }
    if HasQuery(query) {
      FilterSpec(c, (p: Product) => Matches(p, AsciiLower(query)));
    }
  }

  /** Adding a query only narrows the list the blank query gives for the same category. */
  lemma QueryNarrowsCategory(products: seq<Product>, query: string, category: string)
    ensures IsSubsequence(SearchResults(products, query, category), SearchResults(products, "", category))
  {
    StagesAreSubsequences(products, query, category);
    assert !HasQuery("");
    assert SearchResults(products, "", category) == ByCategory(products, category);
  }
}
