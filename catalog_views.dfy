/**
 * The catalogue pages of `productos/views.py`: the product list with its
 * optional filters, the related products of the detail page, and the cap on
 * the cover images one create or update request attaches.
 */
module CatalogViews {
  import opened Util
  import opened Catalog
  import opened Text
  import opened Sorting

  /**
   * The query string of the list page. A parameter that is missing or empty
   * is falsy and adds no condition; the numbers are the values the database
   * compares with. Any non-empty value counts as given, so `stock_min=0` is a
   * condition that every product meets.
   */
  datatype Query = Query(category: Option<CategoryId>, search: string,
                         minPrice: Option<Cents>, maxPrice: Option<Cents>, stockMin: Option<int>)

  const NoQuery: Query := Query(None, "", None, None, None)

  predicate Matches(p: Product, q: Query)
  {
    && (q.category.None? || p.category == Some(q.category.value))
    && (q.search == "" || ContainsIgnoringCase(p.name, q.search))
    && (q.minPrice.None? || p.price >= q.minPrice.value)
    && (q.maxPrice.None? || p.price <= q.maxPrice.value)
    && (q.stockMin.None? || p.stock >= q.stockMin.value)
  }

  /** `ProductoListView.get_queryset` over the catalogue in its default order (by name). */
  function ListProducts(catalogue: seq<Product>, q: Query): (r: seq<Product>)
    ensures forall p :: p in r <==> p in catalogue && Matches(p, q)
    ensures |r| <= |catalogue|
  {
    Filter(catalogue, (p: Product) => Matches(p, q))
  }

  /**
   * The list keeps the catalogue's order: any relation that holds between every
   * earlier and later catalogue row holds in the list. With "name before" this is
   * the `ordering = ['nombre']` of the list; with "keys differ" no product is listed twice.
   */
  lemma ListKeepsOrder(catalogue: seq<Product>, q: Query, rel: (Product, Product) -> bool)
    requires Pairwise(catalogue, rel)
    ensures Pairwise(ListProducts(catalogue, q), rel)
  {
    FilterPairwise(catalogue, (p: Product) => Matches(p, q), rel);
  }

  /** Products with distinct keys are each listed at most once. */
  lemma ListHasNoRepeats(catalogue: seq<Product>, q: Query)
    requires forall i, j :: 0 <= i < j < |catalogue| ==> catalogue[i].id != catalogue[j].id
    ensures forall i, j :: 0 <= i < j < |ListProducts(catalogue, q)| ==> ListProducts(catalogue, q)[i] != ListProducts(catalogue, q)[j]
  {
    var rel := (a: Product, b: Product) => a.id != b.id;
    assert Pairwise(catalogue, rel);
    ListKeepsOrder(catalogue, q, rel);
  }

  /** With no parameter the list is the whole catalogue, in its order. */
  lemma NoQueryListsAll(catalogue: seq<Product>)
    ensures ListProducts(catalogue, NoQuery) == catalogue
  {
    FilterAll(catalogue, (p: Product) => Matches(p, NoQuery));
  }

  /** Dropping a parameter never removes a product: each given parameter only narrows the list. */
  lemma EachParameterNarrows(catalogue: seq<Product>, q: Query, p: Product)
    requires p in ListProducts(catalogue, q)
    ensures p in ListProducts(catalogue, q.(category := None))
    ensures p in ListProducts(catalogue, q.(search := ""))
    ensures p in ListProducts(catalogue, q.(minPrice := None))
    ensures p in ListProducts(catalogue, q.(maxPrice := None))
    ensures p in ListProducts(catalogue, q.(stockMin := None))
  {
  }

  function Id(p: Product): int
  {
    p.id
  }

  /** The products of the same category as `p`, other than `p` itself. */
  function Candidates(catalogue: seq<Product>, p: Product): (r: seq<Product>)
    ensures forall x :: x in r <==> x in catalogue && x.category == p.category && x.id != p.id
  {
    Filter(catalogue, (x: Product) => x.category == p.category && x.id != p.id)
  }

  const RelatedLimit: nat := 4

  /**
   * `relacionados` of the detail page: the same category, without the product
   * itself, highest keys first, at most four; nothing for a product without a category.
   */
  function Related(catalogue: seq<Product>, p: Product): (r: seq<Product>)
    ensures |r| <= RelatedLimit
    ensures p.category.None? ==> r == []
    ensures p.category.Some? ==> |r| == if |Candidates(catalogue, p)| < RelatedLimit then |Candidates(catalogue, p)| else RelatedLimit
    ensures p.category.Some? ==> multiset(r) <= multiset(Candidates(catalogue, p))
    ensures forall x :: x in r ==> x in catalogue && x.category == p.category && x.category.Some? && x.id != p.id
    ensures NonIncreasing(r, Id)
    ensures p.category.Some? && |Candidates(catalogue, p)| <= RelatedLimit ==> multiset(r) == multiset(Candidates(catalogue, p))
  {
    if p.category.None? then []
    else
      Top(Candidates(catalogue, p), Id, RelatedLimit)
  }

  /** A product of the category that was not picked has a lower key than every one that was. */
  lemma RelatedAreNewest(catalogue: seq<Product>, p: Product, shown: Product, other: Product)
    requires shown in Related(catalogue, p)
    requires other in Candidates(catalogue, p) && other !in Related(catalogue, p)
    ensures shown.id >= other.id
  {
    assert p.category.Some?;
    TopRowsDominate(Candidates(catalogue, p), Id, RelatedLimit, shown, other);
  }

  /** `files[:5]`: a create or update request attaches at most this many covers. */
  const CoverLimit: nat := 5

  /** A `PortadaProducto` row: one uploaded cover image of a product. */
  datatype Cover = Cover(product: ProductId, file: string)

  /** The cover rows `form_valid` creates for the uploaded `files`, in upload order, at most `CoverLimit` of them. */
  function CoversFor(product: ProductId, files: seq<string>): (r: seq<Cover>)
    ensures |r| <= CoverLimit && |r| <= |files|
    ensures |files| <= CoverLimit ==> |r| == |files|
    ensures forall i :: 0 <= i < |r| ==> r[i] == Cover(product, files[i])
  {
    var chosen := Take(files, CoverLimit);
    seq(|chosen|, i requires 0 <= i < |chosen| => Cover(product, chosen[i]))
  }

  /** Uploading more than five files keeps exactly the first five. */
  lemma CoversKeepFirstFive(product: ProductId, files: seq<string>)
    requires |files| > CoverLimit
    ensures |CoversFor(product, files)| == CoverLimit
    ensures forall f :: f in files[CoverLimit..] && f !in files[..CoverLimit] ==> Cover(product, f) !in CoversFor(product, files)
  {
    var r := CoversFor(product, files);
    assert forall i :: 0 <= i < |r| ==> r[i].file == files[..CoverLimit][i];
  }
}
