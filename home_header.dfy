/**
 * The home screen's floating header (`components/common/HomeHeader.tsx`):
 * it hides while the page scrolls down past 80 pixels and shows again on
 * any scroll up or near the top. Each scroll event carries the window's
 * vertical scroll position.
 */
module HomeHeader {

  /** Positions at or above this never hide the header. */
  const ScrollThreshold: int := 80

  /** Whether the header shows after the page scrolls from `last` to `current`. */
  function ShowsAfter(last: int, current: int): (shown: bool)
    ensures !shown <==> current > last && current > ScrollThreshold
  {
    !(current > last && current > ScrollThreshold)
  }

  /** Near the top the header always shows, whatever the direction. */
  lemma NearTopShows(last: int, current: int)
    requires current <= ScrollThreshold
    ensures ShowsAfter(last, current)
  {
  }

  /** Scrolling up, or not moving, always shows the header. */
  lemma ScrollUpShows(last: int, current: int)
    requires current <= last
    ensures ShowsAfter(last, current)
  {
  }

  class FloatingHeader {
    var showHeader: bool
    var lastScrollY: int

    /** A hidden header was last seen below the threshold. */
    ghost predicate Valid()
      reads this
    {
      !showHeader ==> lastScrollY > ScrollThreshold
    }

    /** Shown, with the last position at the top. */
    constructor ()
      ensures Valid()
      ensures showHeader && lastScrollY == 0
    {
      showHeader := true;
      lastScrollY := 0;
    }

    /**
     * `handleScroll` at position `current`: the visibility that follows
     * depends only on the last and the current position, never on the
     * visibility before; the current position becomes the last one.
     */
    method OnScroll(current: int)
      requires Valid()
      modifies this
      ensures Valid()
      ensures showHeader == ShowsAfter(old(lastScrollY), current)
      ensures lastScrollY == current
    {
      if current > lastScrollY && current > ScrollThreshold {
        showHeader := false;
      } else {
        showHeader := true;
      }
      lastScrollY := current;
    }
  }
}
