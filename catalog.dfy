/** The catalog page: a fixed list of six products, shown through a search
    box (case-insensitive substring of the name) and a category selector. */
module CatalogPage {
  import opened Seqs

  /** A catalog entry; the display price string is not part of the model. */
  datatype Product = Product(id: int, name: string, category: string, image: string)

  /** The hard-coded catalog, in display order; its ids are pairwise distinct. */
  function Products(): (ps: seq<Product>)
    ensures |ps| == 6
    ensures forall i, j :: 0 <= i < j < |ps| ==> ps[i].id != ps[j].id
  {
    [ Product(1, "Product 1", "electronics", "https://via.placeholder.com/300"),
      Product(2, "Product 2", "clothing", "https://via.placeholder.com/300"),
      Product(3, "Product 3", "electronics", "https://via.placeholder.com/300"),
      Product(4, "Product 4", "clothing", "https://via.placeholder.com/300"),
      Product(5, "Product 5", "electronics", "https://via.placeholder.com/300"),
      Product(6, "Product 6", "clothing", "https://via.placeholder.com/300") ]
  }

  /** ASCII lower-casing of one character. */
  function LowerChar(c: char): char {
    if 'A' <= c <= 'Z' then (c as int + 32) as char else c
  }

  /** `toLowerCase`, restricted to ASCII letters. */
  function Lower(s: string): string {
    seq(|s|, i requires 0 <= i < |s| => LowerChar(s[i]))
  }

  /** `includes`: `needle` occurs as a contiguous block of `hay`. */
  predicate Includes(hay: string, needle: string) {
    exists i :: 0 <= i <= |hay| && needle <= hay[i..]
  }

  /** The filter predicate of the page. */
  predicate IsShown(p: Product, searchTerm: string, category: string) {
    Includes(Lower(p.name), Lower(searchTerm)) && (category == "all" || p.category == category)
  }

  function Shown(searchTerm: string, category: string): Product -> bool {
    (p: Product) => IsShown(p, searchTerm, category)
  }

  /** The products the page displays for a search term and a category. */
  function FilteredProducts(searchTerm: string, category: string): seq<Product> {
    Filter(Products(), Shown(searchTerm, category))
  }

  /** The result is the catalog with some products deleted, in catalog order. */
  lemma FilteredIsSubsequence(searchTerm: string, category: string)
    ensures IsSubsequence(FilteredProducts(searchTerm, category), Products())
    ensures |FilteredProducts(searchTerm, category)| <= |Products()|
  {
    FilterIsSubsequence(Products(), Shown(searchTerm, category));
  }

  /** Soundness and completeness: a product is shown iff it is in the catalog,
      its lower-cased name includes the lower-cased term, and the category is
      "all" or its own. */
  lemma FilteredMembers(searchTerm: string, category: string, p: Product)
    ensures p in FilteredProducts(searchTerm, category) <==>
      p in Products()
      && Includes(Lower(p.name), Lower(searchTerm))
      && (category == "all" || p.category == category)
  {
  }

  /** An empty search in "all" shows the whole catalog, in order. */
  lemma EmptySearchShowsAll()
    ensures FilteredProducts("", "all") == Products()
  {
    forall p | p in Products() ensures Shown("", "all")(p) {
      EmptyTermIsShown(p, "all");
    }
    FilterKeepsAll(Products(), Shown("", "all"));
  }

  lemma {:induction false} LowerIdempotent(s: string)
    ensures Lower(Lower(s)) == Lower(s)
  {
    assert forall i :: 0 <= i < |s| ==> LowerChar(LowerChar(s[i])) == LowerChar(s[i]);
  }

  /** The search is case-insensitive: a term and its lower-cased form show the same products. */
  lemma SearchIgnoresCase(searchTerm: string, category: string)
    ensures FilteredProducts(searchTerm, category) == FilteredProducts(Lower(searchTerm), category)
  {
    LowerIdempotent(searchTerm);
    FilterCongruent(Products(), Shown(searchTerm, category), Shown(Lower(searchTerm), category));
  }

  /** A category that is neither "all" nor any product's category shows nothing. */
  lemma UnknownCategoryShowsNothing(searchTerm: string, category: string)
    requires category != "all"
    requires forall p :: p in Products() ==> p.category != category
    ensures FilteredProducts(searchTerm, category) == []
  {
    FilterKeepsNone(Products(), Shown(searchTerm, category));
  }

  /** The empty search term is included in every name. */
  lemma EmptyTermIsShown(p: Product, category: string)
    ensures IsShown(p, "", category) <==> category == "all" || p.category == category
  {
    assert Lower("") <= Lower(p.name)[0..];
  }

  function InCategory(category: string): Product -> bool {
    (p: Product) => p.category == category
  }

  /** With an empty search only the category selector filters. */
  lemma EmptySearchFiltersByCategory(category: string)
    requires category != "all"
    ensures FilteredProducts("", category) == Filter(Products(), InCategory(category))
  {
    forall p | p in Products() ensures Shown("", category)(p) == InCategory(category)(p) {
      EmptyTermIsShown(p, category);
    }
    FilterCongruent(Products(), Shown("", category), InCategory(category));
  }
}
