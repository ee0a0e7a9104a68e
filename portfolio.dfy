/**
 * The navigator as the page keeps it: mutable state updated in place by one
 * handler per input event. Each handler is proved to perform exactly the
 * matching transition in module Navigation (`HandleWheel` performs
 * `OnWheel`, and so on), so every lemma proved there about event sequences
 * holds of this object.
 */
module Portfolio {
  import Navigation

  class Navigator {
    /** Index of the section on screen (`currentSection`). */
    var currentSection: int
    /** The transition lock (`isScrollingRef.current`). */
    var isScrolling: bool
    /** Where the last touch went down. */
    var touchStartX: real
    var touchStartY: real
    /** Lock releases scheduled with the cooldown timer and not yet fired. */
    var pendingReleases: nat

    function State(): Navigation.NavState
      reads this
    {
      Navigation.NavState(currentSection, isScrolling, touchStartX, touchStartY, pendingReleases)
    }

    ghost predicate Valid()
      reads this
    {
      Navigation.Valid(State())
    }

    /** The first section is shown, unlocked, with no touch recorded yet. */
    constructor ()
      ensures Valid() && State() == Navigation.Initial
    {
      currentSection := 0;
      isScrolling := false;
      touchStartX, touchStartY := 0.0, 0.0;
      pendingReleases := 0;
    }

    /** Takes the lock and schedules its release after the cooldown. */
    method Lock()
      modifies this`isScrolling, this`pendingReleases
      ensures isScrolling && pendingReleases == old(pendingReleases) + 1
    {
      isScrolling := true;
      pendingReleases := pendingReleases + 1;
    }

    method HandleWheel(deltaY: real)
      requires Valid()
      modifies this
      ensures Valid() && State() == Navigation.OnWheel(old(State()), deltaY)
    {
      if isScrolling {
        return;
      }
      Lock();
      if deltaY > 0.0 {
        currentSection := Navigation.Min(currentSection + 1, Navigation.TotalSections - 1);
      } else {
        currentSection := Navigation.Max(currentSection - 1, 0);
      }
    }

    method HandleKeyDown(key: string)
      requires Valid()
      modifies this
      ensures Valid() && State() == Navigation.OnKey(old(State()), key)
    {
      if isScrolling {
        return;
      }
      if key == "ArrowRight" || key == "ArrowDown" {
        Lock();
        currentSection := Navigation.Min(currentSection + 1, Navigation.TotalSections - 1);
      } else if key == "ArrowLeft" || key == "ArrowUp" {
        Lock();
        currentSection := Navigation.Max(currentSection - 1, 0);
      }
    }

    method HandleTouchStart(x: real, y: real)
      requires Valid()
      modifies this
      ensures Valid() && State() == Navigation.OnTouchStart(old(State()), x, y)
    {
      touchStartX := x;
      touchStartY := y;
    }

    method HandleTouchEnd(x: real, y: real)
      requires Valid()
      modifies this
      ensures Valid() && State() == Navigation.OnTouchEnd(old(State()), x, y)
    {
      if isScrolling {
        return;
      }
      var deltaX := x - touchStartX;
      var deltaY := y - touchStartY;
      if Navigation.Abs(deltaX) > Navigation.Abs(deltaY) {
        if Navigation.Abs(deltaX) > Navigation.SwipeThreshold {
          Lock();
          if deltaX > 0.0 {
            currentSection := Navigation.Max(currentSection - 1, 0);
          } else {
            currentSection := Navigation.Min(currentSection + 1, Navigation.TotalSections - 1);
          }
        }
      } else {
        if Navigation.Abs(deltaY) > Navigation.SwipeThreshold {
          Lock();
          if deltaY > 0.0 {
            currentSection := Navigation.Max(currentSection - 1, 0);
          } else {
            currentSection := Navigation.Min(currentSection + 1, Navigation.TotalSections - 1);
          }
        }
      }
    }

    /** Dots are rendered from the section list, so `index` is one of its indices. */
    method HandleDotClick(index: int)
      requires Valid() && Navigation.InRange(index)
      modifies this
      ensures Valid() && State() == Navigation.OnDotClick(old(State()), index)
    {
      if !isScrolling {
        Lock();
        currentSection := index;
      }
    }

    /** The cooldown timer fires; it exists only if a gesture scheduled it. */
    method HandleRelease()
      requires Valid() && pendingReleases > 0
      modifies this
      ensures Valid() && State() == Navigation.OnRelease(old(State()))
      ensures !isScrolling
    {
      isScrolling := false;
      pendingReleases := pendingReleases - 1;
    }

    /** Whether navigation dot `index` is drawn highlighted. */
    method DotHighlighted(index: int) returns (on: bool)
      requires Valid()
      ensures on <==> index in Navigation.HighlightedDots(currentSection)
    {
      on := currentSection == index;
    }
  }

  /** A leftward swipe that is mostly horizontal moves one section on. */
  method SwipeLeftAdvances()
  {
    var nav := new Navigator();
    nav.HandleTouchStart(200.0, 300.0);
    nav.HandleTouchEnd(140.0, 295.0);
    assert nav.currentSection == 1 && nav.isScrolling;
    nav.HandleWheel(10.0);
    assert nav.currentSection == 1;
    nav.HandleRelease();
    nav.HandleKeyDown("ArrowLeft");
    assert nav.currentSection == 0;
    nav.HandleRelease();
    nav.HandleTouchEnd(190.0, 340.0);
    assert nav.currentSection == 0 && !nav.isScrolling;
  }
}
