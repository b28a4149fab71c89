/** The product catalogue page's filter: a case-insensitive search on the
    product name or vendor, combined with a category selector whose default
    value "all" lets every category through. */
module ProductsPage {
  import Seqs
  import Text

  /** The fields of a catalogue entry the filter reads. */
  datatype Product = Product(id: int, name: string, vendor: string, category: string)

  /** The search matches when the lower-cased query occurs in the lower-cased
      name or the lower-cased vendor. */
  predicate MatchesSearch(p: Product, query: string) {
    Text.Contains(Text.Lower(p.name), Text.Lower(query))
      || Text.Contains(Text.Lower(p.vendor), Text.Lower(query))
  }

  predicate MatchesCategory(p: Product, category: string) {
    category == "all" || p.category == category
  }

  predicate Shows(p: Product, query: string, category: string) {
    MatchesSearch(p, query) && MatchesCategory(p, category)
  }

  function Matcher(query: string, category: string): Product -> bool {
    (p: Product) => Shows(p, query, category)
  }

  /** `filteredProducts`: the catalogue in its own order, keeping exactly the
      products that match both the search and the category. */
  function Filtered(products: seq<Product>, query: string, category: string): (r: seq<Product>)
    ensures forall i :: 0 <= i < |r| ==> r[i] in products && Shows(r[i], query, category)
    ensures forall i :: 0 <= i < |products| && Shows(products[i], query, category) ==> products[i] in r
    ensures Seqs.IsSubsequence(r, products)
  {
    Seqs.Filter(products, Matcher(query, category))
  }

  /** What the grid lists. The sort selector's value is kept in state but
      never used, so the listing is the filtered catalogue in source order. */
  function Displayed(products: seq<Product>, query: string, category: string, sortBy: string): (r: seq<Product>)
    ensures r == Filtered(products, query, category)
    ensures Seqs.IsSubsequence(r, products)
  {
    Filtered(products, query, category)
  }

  // ---------------------------------------------------------------- properties

  /** The page's initial state (no query, "all") lists the whole catalogue. */
  lemma InitialShowsAll(products: seq<Product>)
    ensures Filtered(products, "", "all") == products
  {
    forall i | 0 <= i < |products| ensures Shows(products[i], "", "all") {
      Text.ContainsEmpty(Text.Lower(products[i].name));
    }
  }

  /** The search ignores the case of the query. */
  lemma SearchIgnoresCase(products: seq<Product>, query: string, category: string)
    ensures Filtered(products, Text.Upper(query), category) == Filtered(products, query, category)
    ensures Filtered(products, Text.Lower(query), category) == Filtered(products, query, category)
  {
    Text.LowerOfUpper(query);
    Text.LowerIdempotent(query);
    Seqs.FilterCongruent(products, Matcher(Text.Upper(query), category), Matcher(query, category));
    Seqs.FilterCongruent(products, Matcher(Text.Lower(query), category), Matcher(query, category));
  }

  /** Choosing a category narrows the "all" listing to the products of that category. */
  lemma {:induction false} CategoryNarrows(products: seq<Product>, query: string, category: string)
    ensures Filtered(products, query, category)
         == Seqs.Filter(Filtered(products, query, "all"), (p: Product) => p.category == category || category == "all")
    decreases |products|
  {
    if |products| > 0 {
      CategoryNarrows(products[1..], query, category);
    }
  }

  /** The sort selector changes nothing that is listed or its order. */
  lemma SortIgnored(products: seq<Product>, query: string, category: string, s1: string, s2: string)
    ensures Displayed(products, query, category, s1) == Displayed(products, query, category, s2)
  {
  }
}
