/**
 * The image carousel of src/app/components.tsx: a working list of image URLs and the
 * index of the image on display. An image that fails to load is dropped from the list;
 * when nothing is left the fallback logo takes its place.
 */
module Carousel {
  import Content

  /** The carousel's state as a value: `validImages` and `currentImageIndex`. */
  datatype CarouselState = CarouselState(images: seq<string>, index: nat)

  /** The carousel's invariant: something to show, and the index points into it. */
  predicate Valid(st: CarouselState) {
    |st.images| >= 1 && st.index < |st.images|
  }

  /** The list installed when the `images` prop changes. */
  function WorkingList(images: seq<string>): (r: seq<string>)
    ensures |r| >= 1
    ensures images != [] ==> r == images
    ensures images == [] ==> r == [Content.FallbackImage]
  {
    if |images| > 0 then images else [Content.FallbackImage]
  }

  function NextIndex(i: nat, n: nat): (j: nat)
    requires i < n
    ensures j < n
  {
    (i + 1) % n
  }

  /** JavaScript's `%` truncates, but `i - 1 + n` is never negative here, so it agrees with Dafny's. */
  function PrevIndex(i: nat, n: nat): (j: nat)
    requires i < n
    ensures j < n
  {
    (i - 1 + n) % n
  }

  lemma PrevAfterNext(i: nat, n: nat)
    requires i < n
    ensures PrevIndex(NextIndex(i, n), n) == i
  {
    if i + 1 < n {
      assert NextIndex(i, n) == i + 1;
      assert PrevIndex(i + 1, n) == (i + n) % n;
    } else {
      assert NextIndex(i, n) == 0;
      assert PrevIndex(0, n) == (n - 1) % n;
    }
  }

  lemma NextAfterPrev(i: nat, n: nat)
    requires i < n
    ensures NextIndex(PrevIndex(i, n), n) == i
  {
    if i == 0 {
      ModOfSum(n - 1, n);
      assert PrevIndex(0, n) == n - 1;
      ModSelf(n);
      assert NextIndex(n - 1, n) == n % n;
    } else {
      ModOfSum(i - 1, n);
      assert PrevIndex(i, n) == i - 1;
      ModSmall(i, n);
      assert NextIndex(i - 1, n) == i % n;
    }
  }

  /** A remainder that is already in range is its own remainder. */
  lemma ModSmall(r: nat, n: nat)
    requires r < n
    ensures r % n == r
  {
    assert r == 0 * n + r;
  }

  /** The modulus leaves no remainder. */
  lemma ModSelf(n: nat)
    requires 0 < n
    ensures n % n == 0
  {
    assert n == 1 * n + 0;
  }

  /** Adding the modulus once does not change a remainder that is already in range. */
  lemma ModOfSum(r: nat, n: nat)
    requires r < n
    ensures (r + n) % n == r
  {
    assert r + n == r + 1 * n;
  }

  /** `s.filter(img => img !== x)`: every copy of `x` goes, the rest keep their order. */
  function Without(s: seq<string>, x: string): (r: seq<string>)
    ensures |r| <= |s|
    ensures forall y :: y in r <==> y in s && y != x
  {
    if s == [] then []
    else if s[0] == x then Without(s[1..], x)
    else [s[0]] + Without(s[1..], x)
  }

  /** Removing an image that is present shortens the list. */
  lemma {:induction false} WithoutShrinks(s: seq<string>, x: string)
    requires x in s
    ensures |Without(s, x)| < |s|
  {
    if s[0] != x {
      WithoutShrinks(s[1..], x);
    }
  }

  /** The filter works piecewise, which is what keeps the survivors in their order. */
  lemma {:induction false} WithoutConcat(a: seq<string>, b: seq<string>, x: string)
    ensures Without(a + b, x) == Without(a, x) + Without(b, x)
  {
    if a == [] {
      assert a + b == b;
    } else {
      assert (a + b)[0] == a[0];
      assert (a + b)[1..] == a[1..] + b;
      WithoutConcat(a[1..], b, x);
    }
  }

  /** A list without `x` is left as it is. */
  lemma {:induction false} WithoutAbsent(s: seq<string>, x: string)
    requires x !in s
    ensures Without(s, x) == s
  {
    if s != [] {
      WithoutAbsent(s[1..], x);
    }
  }

  /** Every other image keeps its number of occurrences. */
  lemma {:induction false} WithoutCounts(s: seq<string>, x: string, y: string)
    requires y != x
    ensures multiset(Without(s, x))[y] == multiset(s)[y]
  {
    if s != [] {
      assert s == [s[0]] + s[1..];
      WithoutCounts(s[1..], x, y);
    }
  }

  predicate Distinct(s: seq<string>) {
    forall i, j :: 0 <= i < j < |s| ==> s[i] != s[j]
  }

  /** In a list without duplicates, removing the image at `i` removes just that slot. */
  lemma {:induction false} WithoutDistinct(s: seq<string>, i: nat)
    requires Distinct(s) && i < |s|
    ensures Without(s, s[i]) == s[..i] + s[i + 1..]
    decreases i
  {
    var x := s[i];
    if i == 0 {
      assert x !in s[1..] by {
        forall y | y in s[1..] ensures y != x {
          var k :| 0 <= k < |s[1..]| && s[1..][k] == y;
          assert s[k + 1] == y;
        }
      }
      WithoutAbsent(s[1..], x);
      assert s[..0] + s[1..] == s[1..];
    } else {
      var t := s[1..];
      assert Distinct(t) by {
        forall j, k | 0 <= j < k < |t| ensures t[j] != t[k] {
          assert t[j] == s[j + 1] && t[k] == s[k + 1];
        }
      }
      assert s[0] != x;
      assert t[i - 1] == x;
      WithoutDistinct(t, i - 1);
      assert Without(s, x) == [s[0]] + (t[..i - 1] + t[i..]);
      assert [s[0]] + t[..i - 1] == s[..i];
      assert t[i..] == s[i + 1..];
    }
  }

  /** `handleImageError`: drop the image on display, fall back to the logo if none remain. */
  function AfterError(st: CarouselState): (r: CarouselState)
    requires Valid(st)
    ensures Valid(r)
  {
    var remaining := Without(st.images, st.images[st.index]);
    if |remaining| == 0 then CarouselState([Content.FallbackImage], 0)
    else if st.index >= |remaining| then CarouselState(remaining, |remaining| - 1)
    else CarouselState(remaining, st.index)
  }

  /** What a failure does, stated without the code: the failed image is gone from the list,
      every other image stays, and the index stays put unless it fell off the end. */
  lemma AfterErrorSpec(st: CarouselState)
    requires Valid(st)
    ensures var failed, r := st.images[st.index], AfterError(st);
      (exists y :: y in st.images && y != failed) ==>
        failed !in r.images &&
        (forall y :: y in r.images <==> y in st.images && y != failed) &&
        r.index == (if st.index < |r.images| then st.index else |r.images| - 1)
    ensures var failed, r := st.images[st.index], AfterError(st);
      (forall y :: y in st.images ==> y == failed) ==> r == CarouselState([Content.FallbackImage], 0)
  {
    var remaining := Without(st.images, st.images[st.index]);
    if |remaining| > 0 {
      assert remaining[0] in remaining;
    }
  }

  /** Once only the logo is left, a failure of the logo leaves the state unchanged. */
  lemma FallbackIsFixedPoint()
    ensures AfterError(CarouselState([Content.FallbackImage], 0)) == CarouselState([Content.FallbackImage], 0)
  {
  }

  /** With distinct images, the successor of the failed image moves into its slot. */
  lemma SuccessorTakesSlot(st: CarouselState)
    requires Valid(st) && Distinct(st.images) && st.index + 1 < |st.images|
    ensures AfterError(st).index == st.index
    ensures AfterError(st).images[st.index] == st.images[st.index + 1]
  {
    WithoutDistinct(st.images, st.index);
  }

  /** `n` successive load failures. */
  function Failures(st: CarouselState, n: nat): (r: CarouselState)
    requires Valid(st)
    ensures Valid(r)
    decreases n
  {
    if n == 0 then st else Failures(AfterError(st), n - 1)
  }

  /** Distance from the logo-only state: drops by at least one on every failure until then. */
  function Remaining(st: CarouselState): nat {
    |st.images| + (if st.images == [Content.FallbackImage] then 0 else 1)
  }

  lemma AfterErrorProgress(st: CarouselState)
    requires Valid(st) && st.images != [Content.FallbackImage]
    ensures Remaining(AfterError(st)) < Remaining(st)
  {
    WithoutShrinks(st.images, st.images[st.index]);
  }

  /** However the images fail, at most `|images|` failures reach the logo-only state. */
  lemma {:induction false} FailuresConverge(st: CarouselState, n: nat)
    requires Valid(st) && Remaining(st) <= n + 1
    ensures Failures(st, n).images == [Content.FallbackImage]
    decreases n
  {
    if st.images == [Content.FallbackImage] {
      if n > 0 {
        FallbackIsFixedPoint();
        assert st == CarouselState([Content.FallbackImage], 0);
        FailuresConverge(AfterError(st), n - 1);
      }
    } else {
      AfterErrorProgress(st);
      assert n > 0;
      FailuresConverge(AfterError(st), n - 1);
    }
  }

  lemma ConvergesWithinLength(st: CarouselState)
    requires Valid(st)
    ensures Failures(st, |st.images|).images == [Content.FallbackImage]
  {
    FailuresConverge(st, |st.images|);
  }

  /** With distinct images other than the logo, each failure removes exactly one image,
      so fewer than `|images|` failures never reach the logo. */
  lemma {:induction false} NoEarlyFallback(st: CarouselState, k: nat)
    requires Valid(st) && Distinct(st.images) && Content.FallbackImage !in st.images
    requires k < |st.images|
    ensures |Failures(st, k).images| == |st.images| - k
    ensures Failures(st, k).images != [Content.FallbackImage]
    decreases k
  {
    if k > 0 {
      var r := AfterError(st);
      WithoutDistinct(st.images, st.index);
      assert r.images == st.images[..st.index] + st.images[st.index + 1..];
      assert Distinct(r.images) by {
        forall i, j | 0 <= i < j < |r.images| ensures r.images[i] != r.images[j] {
          var i' := if i < st.index then i else i + 1;
          var j' := if j < st.index then j else j + 1;
          assert r.images[i] == st.images[i'] && r.images[j] == st.images[j'];
        }
      }
      assert Content.FallbackImage !in r.images;
      NoEarlyFallback(r, k - 1);
    } else {
      assert st.images[0] in st.images;
    }
  }

  /** Navigation controls are shown exactly when stepping actually moves the index. */
  function ShowsNavigation(st: CarouselState): (b: bool)
    requires Valid(st)
    ensures b <==> NextIndex(st.index, |st.images|) != st.index
  {
    |st.images| > 1
  }

  /** The example of a three-image list whose middle image fails. */
  lemma MiddleFailureExample(a: string, b: string, c: string)
    requires Distinct([a, b, c])
    ensures AfterError(CarouselState([a, b, c], 1)) == CarouselState([a, c], 1)
  {
    WithoutDistinct([a, b, c], 1);
  }

  /** The `ImageCarousel` component's state, updated by its handlers and effects. */
  class ImageCarousel {
    var validImages: seq<string>
    var currentImageIndex: nat
    /** The placement props: whether position indicators are drawn at all, and whether
        below the image rather than over it (defaults `true` and `false`). */
    const showIndicators: bool
    const indicatorsOutside: bool

    function State(): CarouselState
      reads this
    {
      CarouselState(validImages, currentImageIndex)
    }

    /** First render: `useState(images)` and `useState(0)`, before any effect has run. */
    constructor (images: seq<string>, showIndicators: bool, indicatorsOutside: bool)
      ensures validImages == images && currentImageIndex == 0
      ensures this.showIndicators == showIndicators && this.indicatorsOutside == indicatorsOutside
    {
      validImages := images;
      currentImageIndex := 0;
      this.showIndicators := showIndicators;
      this.indicatorsOutside := indicatorsOutside;
    }

    /** The effect run when the `images` prop changes (and on mount). */
    method ImagesChanged(images: seq<string>)
      modifies this
      ensures Valid(State())
      ensures State() == CarouselState(WorkingList(images), 0)
    {
      validImages := if |images| > 0 then images else [Content.FallbackImage];
      currentImageIndex := 0;
    }

    /** The effect that resets an out-of-range index to the first image. */
    method ClampIndex()
      modifies this`currentImageIndex
      ensures currentImageIndex == if old(currentImageIndex) >= |validImages| && |validImages| > 0
                                   then 0 else old(currentImageIndex)
      ensures |validImages| > 0 ==> Valid(State())
    {
      if currentImageIndex >= |validImages| && |validImages| > 0 {
        currentImageIndex := 0;
      }
    }

    method Next()
      requires Valid(State())
      modifies this`currentImageIndex
      ensures Valid(State())
      ensures currentImageIndex == NextIndex(old(currentImageIndex), |validImages|)
    {
      currentImageIndex := (currentImageIndex + 1) % |validImages|;
    }

    method Prev()
      requires Valid(State())
      modifies this`currentImageIndex
      ensures Valid(State())
      ensures currentImageIndex == PrevIndex(old(currentImageIndex), |validImages|)
    {
      currentImageIndex := (currentImageIndex - 1 + |validImages|) % |validImages|;
    }

    /** A click on indicator `position`; indicators are drawn one per image. */
    method JumpTo(position: nat)
      requires Valid(State()) && position < |validImages|
      modifies this`currentImageIndex
      ensures Valid(State())
      ensures currentImageIndex == position
    {
      currentImageIndex := position;
    }

    method HandleImageError()
      requires Valid(State())
      modifies this
      ensures Valid(State())
      ensures State() == AfterError(old(State()))
    {
      var currentImage := validImages[currentImageIndex];
      var newValidImages := Without(validImages, currentImage);
      if |newValidImages| == 0 {
        validImages := [Content.FallbackImage];
        currentImageIndex := 0;
      } else {
        validImages := newValidImages;
        if currentImageIndex >= |newValidImages| {
          currentImageIndex := |newValidImages| - 1;
        }
      }
    }

    /** Whether the previous/next buttons are rendered: exactly when a step in either
        direction would show another image. */
    function NavigationVisible(): (b: bool)
      reads this
      requires Valid(State())
      ensures b <==> NextIndex(currentImageIndex, |validImages|) != currentImageIndex
      ensures b <==> PrevIndex(currentImageIndex, |validImages|) != currentImageIndex
    {
      ShowsNavigation(State())
    }

    /** Whether the indicators are rendered over the image, inside the buttons' block. */
    function InnerIndicatorsVisible(): (b: bool)
      reads this
      requires Valid(State())
    {
      NavigationVisible() && showIndicators && !indicatorsOutside
    }

    /** Whether the indicators are rendered below the image. */
    function OuterIndicatorsVisible(): (b: bool)
      reads this
      requires Valid(State())
      ensures b <==> showIndicators && indicatorsOutside && NavigationVisible()
    {
      showIndicators && indicatorsOutside && |validImages| > 1
    }

    /** At most one row of indicators is drawn, and one is drawn exactly when indicators
        are enabled and a step would show another image. */
    lemma IndicatorsShownOnce()
      requires Valid(State())
      ensures !(InnerIndicatorsVisible() && OuterIndicatorsVisible())
      ensures InnerIndicatorsVisible() || OuterIndicatorsVisible() <==>
                showIndicators && NextIndex(currentImageIndex, |validImages|) != currentImageIndex
    {
    }
  }
}
