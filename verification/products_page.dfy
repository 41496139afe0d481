/**
 * The public product listing: case-insensitive search over name and
 * category, fixed-size pages of the filtered list, the page count that
 * drives the pager, and the link target of each product card.
 */
module ProductsPage {
  import opened Entities
  import Text

  const ItemsPerPage: int := 12

  /** The search predicate: the query occurs in the lower-cased name or category. */
  function Matches(p: Product, query: string): (b: bool)
    ensures query == "" ==> b
    ensures Text.ToLower(p.name) == Text.ToLower(query) ==> b
  {
    Text.ContainsEmpty(Text.ToLower(p.name));
    Text.ContainsSelf(Text.ToLower(p.name));
    var q := Text.ToLower(query);
    Text.Contains(Text.ToLower(p.name), q) || Text.Contains(Text.ToLower(p.category), q)
  }

  /** `products.filter(...)`: the matching products in their original order. */
  function Filter(products: seq<Product>, query: string): (r: seq<Product>)
    ensures |r| <= |products|
    ensures forall p :: p in r ==> p in products && Matches(p, query)
  {
    if |products| == 0 then []
    else (if Matches(products[0], query) then [products[0]] else []) + Filter(products[1..], query)
  }

  /** `filteredProducts`: a collection that has not loaded yet filters to nothing. */
  function FilteredProducts(products: Option<seq<Product>>, query: string): (r: seq<Product>)
    ensures products.None? ==> r == []
  {
    match products
    case None => []
    case Some(ps) => Filter(ps, query)
  }

  /**
   * `Array.prototype.slice(begin, end)`: negative bounds count from the end,
   * bounds are clamped to the length, and a reversed range is empty.
   */
  function JsSlice<T>(s: seq<T>, begin: int, end: int): (r: seq<T>)
  {
    var b := Clamp(if begin < 0 then |s| + begin else begin, |s|);
    var e := Clamp(if end < 0 then |s| + end else end, |s|);
    if e <= b then [] else s[b..e]
  }

  function Clamp(i: int, len: nat): (r: nat)
    ensures r <= len
  {
    if i < 0 then 0 else if i > len then len else i
  }

  /** `paginatedProducts` for the 1-based page `currentPage`. */
  function PageSlice(filtered: seq<Product>, currentPage: int): (r: seq<Product>)
    ensures |r| <= ItemsPerPage
    ensures forall i :: 0 <= i < |r| ==> r[i] in filtered
  {
    var startIndex := (currentPage - 1) * ItemsPerPage;
    JsSlice(filtered, startIndex, startIndex + ItemsPerPage)
  }

  /** `Math.ceil(filteredProducts.length / ITEMS_PER_PAGE)` */
  function TotalPages(count: nat): (t: nat)
    ensures count <= t * ItemsPerPage
    ensures t > 0 ==> (t - 1) * ItemsPerPage < count
  {
    (count + ItemsPerPage - 1) / ItemsPerPage
  }

  /** The pager is rendered only when there is more than one page. */
  function ShowPager(filtered: seq<Product>): (b: bool)
    ensures b <==> |filtered| > ItemsPerPage
  {
    TotalPages(|filtered|) > 1
  }

  /** The card link: the slug when it is non-empty, otherwise the document id. */
  function CardHref(p: Product): (href: string)
    ensures Text.StartsWith(href, "/products/")
    ensures |p.slug| > 0 ==> href[|"/products/"|..] == p.slug
    ensures |p.slug| == 0 ==> href[|"/products/"|..] == p.id
  {
    "/products/" + (if |p.slug| > 0 then p.slug else p.id)
  }

  /** The page-local state: the search text and the current page. */
  datatype View = View(searchQuery: string, currentPage: int)

  const InitialView: View := View("", 1)

  /** The search input's `onChange`: store the text and go back to page 1. */
  function OnSearchChange(v: View, text: string): (r: View)
    ensures r.searchQuery == text && r.currentPage == 1
  {
    View(text, 1)
  }

  /** The pager's `onPageChange`. */
  function OnPageChange(v: View, page: int): (r: View)
    ensures r.searchQuery == v.searchQuery && r.currentPage == page
  {
    v.(currentPage := page)
  }

  /** The products shown for a view. */
  function Visible(products: Option<seq<Product>>, v: View): seq<Product> {
    PageSlice(FilteredProducts(products, v.searchQuery), v.currentPage)
  }

  // ---------------------------------------------------------------------
  // Properties

  /** A product is kept iff it matches (both directions). */
  lemma {:induction false} FilterKeepsExactlyMatches(products: seq<Product>, query: string, p: Product)
    ensures p in Filter(products, query) <==> p in products && Matches(p, query)
  {
    if |products| > 0 {
      FilterKeepsExactlyMatches(products[1..], query, p);
      assert products == [products[0]] + products[1..];
    }
  }

  /** Filtering distributes over concatenation, so kept products keep their relative order. */
  lemma {:induction false} FilterAppend(a: seq<Product>, b: seq<Product>, query: string)
    ensures Filter(a + b, query) == Filter(a, query) + Filter(b, query)
  {
    if |a| == 0 {
      assert a + b == b;
    } else {
      assert (a + b)[0] == a[0];
      assert (a + b)[1..] == a[1..] + b;
      FilterAppend(a[1..], b, query);
    }
  }

  /** The empty query keeps every product, in order. */
  lemma {:induction false} EmptyQueryKeepsAll(products: seq<Product>)
    ensures Filter(products, "") == products
  {
    if |products| > 0 {
      assert Text.ToLower("") == "";
      Text.ContainsEmpty(Text.ToLower(products[0].name));
      EmptyQueryKeepsAll(products[1..]);
      assert products == [products[0]] + products[1..];
    }
  }

  /** For a page number of at least 1, the slice is a plain window of at most twelve items. */
  lemma PageSliceWindow(filtered: seq<Product>, currentPage: int)
    requires currentPage >= 1
    ensures var b := if (currentPage - 1) * ItemsPerPage < |filtered| then (currentPage - 1) * ItemsPerPage else |filtered|;
      var e := if currentPage * ItemsPerPage < |filtered| then currentPage * ItemsPerPage else |filtered|;
      PageSlice(filtered, currentPage) == filtered[b..e]
    ensures |PageSlice(filtered, currentPage)| <= ItemsPerPage
  {
  }

  /** The slice for any page number, valid or not, never exceeds twelve items. */
  lemma PageSliceBounded(filtered: seq<Product>, currentPage: int)
    ensures |PageSlice(filtered, currentPage)| <= ItemsPerPage
  {
  }

  /** The first `k` pages, concatenated. */
  function FirstPages(filtered: seq<Product>, k: nat): seq<Product> {
    if k == 0 then [] else FirstPages(filtered, k - 1) + PageSlice(filtered, k)
  }

  lemma {:induction false} FirstPagesPrefix(filtered: seq<Product>, k: nat)
    ensures var m := if k * ItemsPerPage < |filtered| then k * ItemsPerPage else |filtered|;
      FirstPages(filtered, k) == filtered[..m]
  {
    if k > 0 {
      FirstPagesPrefix(filtered, k - 1);
      PageSliceWindow(filtered, k);
    }
  }

  /** Concatenating pages `1..totalPages` reproduces the filtered list exactly. */
  lemma AllPagesReproduceList(filtered: seq<Product>)
    ensures FirstPages(filtered, TotalPages(|filtered|)) == filtered
  {
    FirstPagesPrefix(filtered, TotalPages(|filtered|));
  }

  /** Every page up to `totalPages` is non-empty and the page after it is empty. */
  lemma PageCountTight(filtered: seq<Product>, currentPage: int)
    requires currentPage >= 1
    ensures |PageSlice(filtered, currentPage)| > 0 <==> currentPage <= TotalPages(|filtered|)
  {
    PageSliceWindow(filtered, currentPage);
  }

  /** The pager appears exactly when more than twelve products match. */
  lemma PagerIffMoreThanOnePage(filtered: seq<Product>)
    ensures ShowPager(filtered) <==> |filtered| > ItemsPerPage
  {
  }

  /**
   * After any search-text change the view shows the first page of the new
   * result: its first twelve matching products.
   */
  lemma SearchShowsFirstPage(products: Option<seq<Product>>, v: View, text: string)
    ensures var f := FilteredProducts(products, text);
      Visible(products, OnSearchChange(v, text)) == f[..if |f| < ItemsPerPage then |f| else ItemsPerPage]
  {
    PageSliceWindow(FilteredProducts(products, text), 1);
  }
}
