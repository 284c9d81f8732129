/**
 * The hero slider's index state: next, previous and go-to over a fixed list
 * of slides, the background image shown for the current slide, and the
 * category label.
 */
module HeroSlider {

  /** The `category` of each slide, in order. */
  const Categories: seq<string> := ["elderly-care", "home-care", "family-care", "pet-care", "medical-care"]

  /** The number of background images. */
  const ImageCount: nat := 5

  /** JavaScript's `%` on a positive divisor: the remainder takes the sign of
      the dividend (Dafny's `%` never returns a negative value). */
  function JsRem(a: int, n: int): (r: int)
    requires n > 0
    ensures a >= 0 ==> r == a % n
    ensures -n < r < n
  {
    if a >= 0 then a % n else -((-a) % n)
  }

  /** Euclidean remainder facts for the two values the updaters produce. */
  lemma RemOfSmall(a: int, n: int)
    requires 0 <= a < n
    ensures a % n == a
  {
  }

  lemma RemOfLap(a: int, n: int)
    requires n <= a < 2 * n
    ensures a % n == a - n
  {
    assert a == 1 * n + (a - n);
  }

  /** The remainders both updaters take, for an index in `[0, n)`. */
  lemma StepRems(i: int, n: int)
    requires 0 <= i < n
    ensures JsRem(i + 1, n) == if i == n - 1 then 0 else i + 1
    ensures JsRem(i - 1 + n, n) == if i == 0 then n - 1 else i - 1
  {
    if i == n - 1 { RemOfLap(i + 1, n); } else { RemOfSmall(i + 1, n); }
    if i == 0 { RemOfSmall(i - 1 + n, n); } else { RemOfLap(i - 1 + n, n); }
  }

  /** The updater of `nextSlide`: `(prev + 1) % slides.length`. From a slide
      index it moves one slide on, wrapping the last slide to 0. */
  function Next(i: int, n: int): (j: int)
    requires n > 0
    ensures 0 <= i < n ==> 0 <= j < n && j == if i == n - 1 then 0 else i + 1
  {
    if 0 <= i < n then StepRems(i, n); JsRem(i + 1, n) else JsRem(i + 1, n)
  }

  /** The updater of `prevSlide`: `(prev - 1 + slides.length) % slides.length`.
      From a slide index it moves one slide back, wrapping 0 to the last slide. */
  function Prev(i: int, n: int): (j: int)
    requires n > 0
    ensures 0 <= i < n ==> 0 <= j < n && j == if i == 0 then n - 1 else i - 1
  {
    if 0 <= i < n then StepRems(i, n); JsRem(i - 1 + n, n) else JsRem(i - 1 + n, n)
  }

  /** `prevSlide` undoes `nextSlide` and the other way round. */
  lemma PrevUndoesNext(i: int, n: int)
    requires 0 <= i < n
    ensures Prev(Next(i, n), n) == i && Next(Prev(i, n), n) == i
  {
  }

  /** `nextSlide` applied `k` times. */
  function NextTimes(i: int, n: int, k: nat): int
    requires n > 0
    decreases k
  {
    if k == 0 then i else NextTimes(Next(i, n), n, k - 1)
  }

  /** Up to one lap, `k` steps forward from slide `i` land `k` slides on,
      wrapping past the last slide once. */
  lemma {:induction false} NextTimesWraps(i: int, n: int, k: nat)
    requires 0 <= i < n && k <= n
    ensures NextTimes(i, n, k) == if i + k < n then i + k else i + k - n
    decreases k
  {
    if k > 0 {
      NextTimesWraps(Next(i, n), n, k - 1);
    }
  }

  /** Going forward once per slide returns to the starting slide. */
  lemma FullCycle(i: int, n: int)
    requires 0 <= i < n
    ensures NextTimes(i, n, n) == i
  {
    NextTimesWraps(i, n, n);
  }

  /** Which background images are shown: image `index` has full opacity
      exactly when `index === current % images.length`. */
  function VisibleImages(current: int, imageCount: nat): (v: seq<bool>)
    requires imageCount > 0
    ensures |v| == imageCount
    ensures forall k :: 0 <= k < imageCount ==> (v[k] <==> k == JsRem(current, imageCount))
  {
    seq(imageCount, k requires 0 <= k < imageCount => k == JsRem(current, imageCount))
  }

  /** For a non-negative index exactly one image is visible. */
  lemma ExactlyOneVisible(current: int, imageCount: nat)
    requires current >= 0 && imageCount > 0
    ensures var v := VisibleImages(current, imageCount);
      exists k :: 0 <= k < imageCount && v[k] && forall j :: 0 <= j < imageCount && v[j] ==> j == k
  {
    var k := current % imageCount;
    assert VisibleImages(current, imageCount)[k];
  }

  /** The index of the first `c` in `s`, or -1 (`indexOf`). */
  function IndexOf(s: string, c: char): (k: int)
    ensures -1 <= k < |s|
    ensures k == -1 <==> c !in s
    ensures k >= 0 ==> s[k] == c && c !in s[..k]
  {
    if s == [] then -1
    else if s[0] == c then 0
    else
      var k := IndexOf(s[1..], c);
      assert k >= 0 ==> s[..k + 1] == [s[0]] + s[1..][..k];
      if k == -1 then -1 else k + 1
  }

  /** `s.replace(from, to)` with a one-character string pattern: only the
      first occurrence is replaced. */
  function ReplaceFirst(s: string, from: char, to: char): (r: string)
    ensures var k := IndexOf(s, from);
      (k == -1 ==> r == s) && (k >= 0 ==> r == s[k := to])
  {
    if s == [] then []
    else if s[0] == from then [to] + s[1..]
    else [s[0]] + ReplaceFirst(s[1..], from, to)
  }

  /** The category label shown for a slide: the first '-' becomes a space;
      a category without a dash is shown as it is. */
  function CategoryLabel(category: string): (l: string)
    ensures |l| == |category|
    ensures '-' !in category ==> l == category
    ensures '-' in category ==> l[IndexOf(category, '-')] == ' '
    ensures forall i :: 0 <= i < |l| ==> l[i] == category[i] || (category[i] == '-' && l[i] == ' ')
  {
    ReplaceFirst(category, '-', ' ')
  }

  /** A label keeps every character after the first dash, dashes included. */
  lemma LabelReplacesOnlyFirstDash(category: string, k: nat)
    requires k < |category| && category[k] == '-' && '-' !in category[..k]
    ensures |CategoryLabel(category)| == |category|
    ensures CategoryLabel(category)[k] == ' '
    ensures CategoryLabel(category)[k + 1..] == category[k + 1..]
    ensures CategoryLabel(category)[..k] == category[..k]
  {
  }

  /** A category with two dashes keeps its second one. */
  lemma LabelExample()
    ensures CategoryLabel("a-b-c") == "a b-c"
  {
    var t := "a-b-c";
    assert t[1..] == "-b-c";
    assert ReplaceFirst(t[1..], '-', ' ') == " b-c";
  }

  /** The slider's state: the index of the current slide. */
  class Slider {
    var current: int
    var playing: bool
    const slideCount: nat
    const imageCount: nat

    ghost predicate Valid()
      reads this
    {
      slideCount == |Categories| && imageCount > 0 && 0 <= current < slideCount
    }

    /** `useState(0)` and `useState(true)` over the page's slides and images. */
    constructor ()
      ensures Valid() && current == 0 && playing && imageCount == ImageCount
    {
      current := 0;
      playing := true;
      slideCount := |Categories|;
      imageCount := ImageCount;
    }

    /** The "next" arrow. */
    method NextSlide()
      requires Valid()
      modifies this`current
      ensures Valid() && current == Next(old(current), slideCount) && playing == old(playing)
    {
      current := Next(current, slideCount);
    }

    /** The "previous" arrow. */
    method PrevSlide()
      requires Valid()
      modifies this`current
      ensures Valid() && current == Prev(old(current), slideCount) && playing == old(playing)
    {
      current := Prev(current, slideCount);
    }

    /** One firing of the autoplay interval, which exists only while playing. */
    method Tick()
      requires Valid() && playing
      modifies this`current
      ensures Valid() && playing && current == Next(old(current), slideCount)
    {
      current := Next(current, slideCount);
    }

    /** The play/pause button. */
    method TogglePlay()
      requires Valid()
      modifies this`playing
      ensures Valid() && playing == !old(playing) && current == old(current)
    {
      playing := !playing;
    }

    /** `goToSlide(index)` sets the index unchecked; its only callers are the
        indicator buttons, rendered by `slides.map((_, i) => ...)`, so the
        index is always that of a slide. */
    method GoToSlide(index: int)
      requires Valid() && 0 <= index < slideCount
      modifies this`current
      ensures Valid() && current == index && playing == old(playing)
    {
      current := index;
    }

    /** The index of the background image at full opacity. */
    function VisibleImage(): (k: int)
      requires Valid()
      reads this
      ensures 0 <= k < imageCount && VisibleImages(current, imageCount)[k]
    {
      current % imageCount
    }

    /** The label of the current slide's category: the category with its
        dash shown as a space. */
    function Label(): (l: string)
      requires Valid()
      reads this
      ensures |l| == |Categories[current]|
      ensures '-' in Categories[current] ==> l[IndexOf(Categories[current], '-')] == ' '
      ensures forall i :: 0 <= i < |l| ==>
        l[i] == Categories[current][i] || (Categories[current][i] == '-' && l[i] == ' ')
    {
      CategoryLabel(Categories[current])
    }
  }
}
