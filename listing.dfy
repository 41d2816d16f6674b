/**
 * The property listing (src/app/properties/page.tsx): the category selection, the
 * filtered list it shows, and the URL written for a category; plus the home page's
 * featured selection (src/app/page.tsx), which filters the same catalog.
 */
module Listing {
  import opened Wrappers

  /** The listing-relevant fields of a catalog property; an omitted flag is `None`. */
  datatype Property = Property(
    slug: string,
    name: string,
    category: string,
    published: Option<bool>,
    featured: Option<bool>)

  const AllCategories: string := "all"

  /** `p.published !== false`: a property without the flag is published. */
  predicate IsPublished(p: Property) {
    p.published != Some(false)
  }

  /** `p.featured === true`: a property without the flag is not featured. */
  predicate IsFeatured(p: Property) {
    p.featured == Some(true)
  }

  /** `xs.filter(keep)`. */
  function Filter<T>(xs: seq<T>, keep: T -> bool): (r: seq<T>)
    ensures |r| <= |xs|
    ensures forall x :: x in r ==> x in xs && keep(x)
  {
    if xs == [] then []
    else if keep(xs[0]) then [xs[0]] + Filter(xs[1..], keep)
    else Filter(xs[1..], keep)
  }

  /** The filter acts piecewise on a concatenation: it keeps order and duplicates. */
  lemma {:induction false} FilterConcat<T>(a: seq<T>, b: seq<T>, keep: T -> bool)
    ensures Filter(a + b, keep) == Filter(a, keep) + Filter(b, keep)
  {
    if a == [] {
      assert a + b == b;
    } else {
      assert (a + b)[0] == a[0];
      assert (a + b)[1..] == a[1..] + b;
      FilterConcat(a[1..], b, keep);
    }
  }

  /** Every element that passes `keep` keeps its number of occurrences; the others are gone. */
  lemma {:induction false} FilterCounts<T>(xs: seq<T>, keep: T -> bool, x: T)
    ensures multiset(Filter(xs, keep))[x] == if keep(x) then multiset(xs)[x] else 0
  {
    if xs != [] {
      assert xs == [xs[0]] + xs[1..];
      FilterCounts(xs[1..], keep, x);
    }
  }

  /** When nothing passes, nothing is kept. */
  lemma {:induction false} FilterNone<T>(xs: seq<T>, keep: T -> bool)
    requires forall x :: x in xs ==> !keep(x)
    ensures Filter(xs, keep) == []
  {
    if xs != [] {
      assert xs[0] in xs;
      FilterNone(xs[1..], keep);
    }
  }

  /** Everything in `xs` that passes `keep` is kept. */
  lemma {:induction false} FilterKeeps<T>(xs: seq<T>, keep: T -> bool, x: T)
    requires x in xs && keep(x)
    ensures x in Filter(xs, keep)
  {
    if xs[0] != x {
      FilterKeeps(xs[1..], keep, x);
    }
  }

  /** Filtering twice is filtering once by both tests, in the same order. */
  lemma {:induction false} FilterFusion<T>(xs: seq<T>, first: T -> bool, second: T -> bool, both: T -> bool)
    requires forall x :: both(x) == (first(x) && second(x))
    ensures Filter(Filter(xs, first), second) == Filter(xs, both)
  {
    if xs != [] {
      FilterFusion(xs[1..], first, second, both);
      if first(xs[0]) {
        assert Filter(xs, first) == [xs[0]] + Filter(xs[1..], first);
        assert ([xs[0]] + Filter(xs[1..], first))[1..] == Filter(xs[1..], first);
      }
    }
  }

  /** Two tests that agree everywhere filter alike. */
  lemma {:induction false} FilterEquivalent<T>(xs: seq<T>, a: T -> bool, b: T -> bool)
    requires forall x :: a(x) == b(x)
    ensures Filter(xs, a) == Filter(xs, b)
  {
    if xs != [] {
      FilterEquivalent(xs[1..], a, b);
    }
  }

  /** Whether `p` belongs on the listing for `selected`. */
  predicate Listed(p: Property, selected: string) {
    IsPublished(p) && (selected == AllCategories || p.category == selected)
  }

  /** `filteredProperties`: narrow by category unless "all", then drop unpublished ones. */
  function FilteredProperties(catalog: seq<Property>, selected: string): (r: seq<Property>)
    ensures forall p :: p in r ==> p in catalog && Listed(p, selected)
  {
    var byCategory := if selected == AllCategories then catalog
                      else Filter(catalog, (p: Property) => p.category == selected);
    Filter(byCategory, IsPublished)
  }

  /**
   * The listing is exactly the catalog's listed properties in catalog order: one
   * pass over the catalog with the combined test gives the same sequence.
   */
  lemma FilteredIsCatalogOrder(catalog: seq<Property>, selected: string)
    ensures FilteredProperties(catalog, selected) == Filter(catalog, (p: Property) => Listed(p, selected))
  {
    var listed := (p: Property) => Listed(p, selected);
    if selected == AllCategories {
      FilterEquivalent(catalog, IsPublished, listed);
    } else {
      FilterFusion(catalog, (p: Property) => p.category == selected, IsPublished, listed);
    }
  }

  /** Every listed property of the catalog appears. */
  lemma FilteredComplete(catalog: seq<Property>, selected: string, p: Property)
    requires p in catalog && Listed(p, selected)
    ensures p in FilteredProperties(catalog, selected)
  {
    FilteredIsCatalogOrder(catalog, selected);
    FilterKeeps(catalog, (q: Property) => Listed(q, selected), p);
  }

  /** A category that no property has gives an empty listing. */
  lemma UnknownCategoryEmpty(catalog: seq<Property>, selected: string)
    requires selected != AllCategories
    requires forall p :: p in catalog ==> p.category != selected
    ensures FilteredProperties(catalog, selected) == []
  {
    FilteredIsCatalogOrder(catalog, selected);
    FilterNone(catalog, (p: Property) => Listed(p, selected));
  }

  /** The "no properties in this category" message is shown exactly when nothing is listed. */
  function ShowsEmptyState(catalog: seq<Property>, selected: string): (b: bool)
    ensures b <==> forall p :: p in catalog ==> !Listed(p, selected)
  {
    var r := FilteredProperties(catalog, selected);
    if |r| == 0 then
      assert forall p :: p in catalog ==> !Listed(p, selected) by {
        forall p | p in catalog && Listed(p, selected) ensures false {
          FilteredComplete(catalog, selected, p);
        }
      }
      true
    else
      assert r[0] in r;
      false
  }

  // ----- category selection and URL -----

  const PropertiesPath: string := "/properties"
  const CategoryQueryPath: string := "/properties?category="

  /** The URL `handleCategoryChange` replaces the current one with. */
  function CategoryUrl(category: string): (url: string)
    ensures category == AllCategories ==> url == PropertiesPath
    ensures category != AllCategories ==> url == CategoryQueryPath + category
  {
    if category == AllCategories then PropertiesPath else CategoryQueryPath + category
  }

  /** The `category` query value carried by a listing URL, if any. */
  function CategoryParam(url: string): (param: Option<string>)
    ensures param.Some? ==> url == CategoryQueryPath + param.value
  {
    if CategoryQueryPath <= url then
      var v := url[|CategoryQueryPath|..];
      assert url == CategoryQueryPath + v;
      Some(v)
    else None
  }

  /** The selection after the query-parameter effect: a present, non-empty value wins. */
  function SelectAfterQuery(selected: string, param: Option<string>): (r: string)
    ensures param.Some? && param.value != "" ==> r == param.value
    ensures param.None? || param.value == "" ==> r == selected
  {
    if param.Some? && param.value != "" then param.value else selected
  }

  /**
   * The URL written for a category restores that category when the listing is opened
   * afresh from it (the initial selection is "all"). The category goes into the URL
   * unencoded, so this is stated for categories spelled like the tab ids, in lower-case
   * letters and hyphens: a browser's URL parsing cuts the value at `&` or `#`, decodes
   * `+` and `%` escapes, and drops tabs, newlines and surrounding spaces.
   */
  lemma CategoryUrlRoundTrip(category: string)
    requires category != ""
    requires forall c :: c in category ==> 'a' <= c <= 'z' || c == '-'
    ensures SelectAfterQuery(AllCategories, CategoryParam(CategoryUrl(category))) == category
  {
    if category == AllCategories {
      assert !(CategoryQueryPath <= PropertiesPath) by {
        assert |CategoryQueryPath| > |PropertiesPath|;
      }
    } else {
      assert (CategoryQueryPath + category)[|CategoryQueryPath|..] == category;
    }
  }

  /** The listing page's `selectedCategory` state. */
  class ListingPage {
    var selectedCategory: string

    constructor ()
      ensures selectedCategory == AllCategories
    {
      selectedCategory := AllCategories;
    }

    /** The effect run when the search parameters change. */
    method ApplyCategoryParam(categoryParam: Option<string>)
      modifies this
      ensures selectedCategory == SelectAfterQuery(old(selectedCategory), categoryParam)
    {
      if categoryParam.Some? && categoryParam.value != "" {
        selectedCategory := categoryParam.value;
      }
    }

    /** A click on a category tab: select it and compute the URL to replace. */
    method HandleCategoryChange(category: string) returns (url: string)
      modifies this
      ensures selectedCategory == category
      ensures url == CategoryUrl(category)
    {
      selectedCategory := category;
      if category == AllCategories {
        url := PropertiesPath;
      } else {
        url := CategoryQueryPath + category;
      }
    }
  }

  // ----- featured selection of the home page -----

  predicate IsFeaturedListing(p: Property) {
    IsPublished(p) && IsFeatured(p)
  }

  /** `properties.filter(p => p.published !== false && p.featured === true).slice(0, 2)`. */
  function FeaturedProperties(catalog: seq<Property>): (r: seq<Property>)
    ensures |r| <= 2
    ensures r <= Filter(catalog, IsFeaturedListing)
    ensures |r| == if |Filter(catalog, IsFeaturedListing)| < 2 then |Filter(catalog, IsFeaturedListing)| else 2
    ensures forall p :: p in r ==> p in catalog && IsPublished(p) && IsFeatured(p)
  {
    var candidates := Filter(catalog, IsFeaturedListing);
    var r := if |candidates| <= 2 then candidates else candidates[..2];
    assert forall p :: p in r ==> p in candidates;
    r
  }
}
