/**
 * The home screen's banner carousel (`components/common/banner-carousel.tsx`):
 * four slides, a play/pause toggle, and the `NN/NN` index label. The
 * carousel library reports the selected slide; autoplay is left to it.
 */
module BannerCarousel {
  import opened Options
  import opened Text

  const Slides: seq<string> := ["/banner1.png", "/banner2.png", "/banner3.png", "/banner4.png"]

  /** `slides.length`. */
  const Total: nat := |Slides|

  /** `String(n).padStart(2, "0")`. */
  function TwoDigits(n: nat): string {
    PadStart(NatToString(n), 2, '0')
  }

  /** The label for the slide at `index` of `total`: one-based index, a slash, the total. */
  function IndexLabel(index: nat, total: nat): (text: string)
    ensures |text| >= 5
  {
    TwoDigits(index + 1) + "/" + TwoDigits(total)
  }

  /** Both numbers read back from the label: it splits at its only slash into the two padded numbers. */
  lemma IndexLabelRoundTrip(index: nat, total: nat)
    ensures var pieces := Split(IndexLabel(index, total), '/');
      && AllDigits(pieces[0]) && DigitsValue(pieces[0]) == index + 1
      && AllDigits(Last(pieces)) && DigitsValue(Last(pieces)) == total
  {
    var a, b := TwoDigits(index + 1), TwoDigits(total);
    PaddedNumberRoundTrip(index + 1, 2);
    PaddedNumberRoundTrip(total, 2);
    assert '/' !in a by {
      assert forall k :: 0 <= k < |a| ==> IsDigit(a[k]);
    }
    assert '/' !in b by {
      assert forall k :: 0 <= k < |b| ==> IsDigit(b[k]);
    }
    assert IndexLabel(index, total) == a + ['/'] + b;
    SplitFirst(a, '/', b);
    SplitLastAfter(a, '/', b);
  }

  /** Numbers of two or more digits are not padded. */
  lemma NatToStringAtLeastTwo(n: nat)
    requires n >= 10
    ensures |NatToString(n)| >= 2
  {
  }

  /** Padding never truncates: from 10 on, the number is shown in full. */
  lemma TwoDigitsNeverTruncates(n: nat)
    ensures |TwoDigits(n)| >= |NatToString(n)|
    ensures TwoDigits(n)[|TwoDigits(n)| - |NatToString(n)|..] == NatToString(n)
    ensures n >= 10 ==> TwoDigits(n) == NatToString(n)
    ensures n < 10 ==> TwoDigits(n) == ['0', DigitChar(n)]
  {
    if n >= 10 {
      NatToStringAtLeastTwo(n);
    }
  }

  /** With four slides the label always ends in "/04". */
  lemma LabelEndsWithTotal(index: nat)
    ensures Total == 4
    ensures IndexLabel(index, Total)[|IndexLabel(index, Total)| - 3..] == "/04"
  {
    TwoDigitsNeverTruncates(4);
    var text := IndexLabel(index, Total);
    var a := TwoDigits(index + 1);
    assert text == a + "/04";
  }

  class Carousel {
    var selectedIndex: nat
    var isPlaying: bool

    ghost predicate Valid()
      reads this
    {
      selectedIndex < Total
    }

    /** The first slide, playing. */
    constructor ()
      ensures Valid()
      ensures selectedIndex == 0 && isPlaying
    {
      selectedIndex := 0;
      isPlaying := true;
    }

    /** The label currently shown, which always ends in "/04". */
    function Label(): (text: string)
      reads this
      ensures |text| >= 5 && text[|text| - 3..] == "/04"
    {
      LabelEndsWithTotal(selectedIndex);
      IndexLabel(selectedIndex, Total)
    }

    /** `onSelect` with the library's selected snap, or nothing before the library is ready. */
    method OnSelect(snap: Option<nat>)
      requires Valid()
      requires snap.Some? ==> snap.value < Total
      modifies this
      ensures Valid()
      ensures selectedIndex == if snap.Some? then snap.value else old(selectedIndex)
      ensures isPlaying == old(isPlaying)
    {
      if snap.Some? {
        selectedIndex := snap.value;
      }
    }

    /** The play button flips playing and paused. */
    method TogglePlay()
      modifies this
      ensures isPlaying == !old(isPlaying)
      ensures selectedIndex == old(selectedIndex)
    {
      isPlaying := !isPlaying;
    }
  }

  /** The first slide's label, which a fresh carousel shows, is "01/04". */
  lemma InitialLabel()
    ensures IndexLabel(0, Total) == "01/04"
  {
    TwoDigitsNeverTruncates(1);
    TwoDigitsNeverTruncates(4);
  }
}
