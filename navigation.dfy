/**
 * The section navigator of the portfolio page, as pure state transitions.
 *
 * The page shows one of four full-viewport sections at a time. Wheel ticks,
 * arrow keys, swipes and clicks on the navigation dots move between them;
 * every accepted gesture takes a transition lock and schedules its release,
 * and gestures that arrive while the lock is held are ignored.
 *
 * The imperative handlers in module Portfolio are proved to perform exactly
 * these transitions; the lemmas at the end are about whole event sequences.
 */
module Navigation {
  import opened Wrappers

  /** The sections, in display order. */
  const Sections: seq<string> := ["hero", "skills", "stats", "footer"]
  const TotalSections: nat := |Sections|

  /** Minimum swipe displacement, in pixels, along the dominant axis. */
  const SwipeThreshold: real := 50.0

  predicate InRange(i: int) {
    0 <= i < TotalSections
  }

  function Min(a: int, b: int): int { if a <= b then a else b }
  function Max(a: int, b: int): int { if a >= b then a else b }
  function Abs(x: real): real { if x < 0.0 then -x else x }

  /** `Math.min(prev + 1, totalSections - 1)`: one section on, stopping at the last. */
  function Advance(prev: int): (r: int)
    ensures InRange(prev) ==> InRange(r)
    ensures prev < TotalSections - 1 ==> r == prev + 1
    ensures prev >= TotalSections - 1 ==> r == TotalSections - 1
  {
    Min(prev + 1, TotalSections - 1)
  }

  /** `Math.max(prev - 1, 0)`: one section back, stopping at the first. */
  function Retreat(prev: int): (r: int)
    ensures InRange(prev) ==> InRange(r)
    ensures prev > 0 ==> r == prev - 1
    ensures prev <= 0 ==> r == 0
  {
    Max(prev - 1, 0)
  }

  /** Away from the ends, one step back undoes one step on and vice versa. */
  lemma AdvanceRetreatInverse(i: int)
    ensures 0 <= i < TotalSections - 1 ==> Retreat(Advance(i)) == i
    ensures 0 < i < TotalSections ==> Advance(Retreat(i)) == i
  {
  }

  datatype Direction = Forward | Backward

  function Move(i: int, d: Direction): int {
    match d
    case Forward => Advance(i)
    case Backward => Retreat(i)
  }

  const AdvanceKeys: set<string> := {"ArrowRight", "ArrowDown"}
  const RetreatKeys: set<string> := {"ArrowLeft", "ArrowUp"}

  /** The direction a key press asks for; any other key is not a gesture. */
  function KeyDirection(key: string): (d: Option<Direction>)
    ensures d == Some(Forward) <==> key in AdvanceKeys
    ensures d == Some(Backward) <==> key in RetreatKeys
    ensures d == None <==> key !in AdvanceKeys + RetreatKeys
  {
    if key == "ArrowRight" || key == "ArrowDown" then Some(Forward)
    else if key == "ArrowLeft" || key == "ArrowUp" then Some(Backward)
    else None
  }

  /**
   * The direction a swipe with displacement (dx, dy) asks for. The axis with
   * the strictly larger displacement wins (a tie counts as vertical); on that
   * axis a positive displacement (rightward or downward) goes back and any
   * other goes forward, provided it exceeds the threshold.
   */
  function SwipeDirection(dx: real, dy: real): (d: Option<Direction>)
    ensures d == None <==> Abs(dx) <= SwipeThreshold && Abs(dy) <= SwipeThreshold
    ensures d.Some? && Abs(dx) > Abs(dy) ==> (d.value == Backward <==> dx > 0.0)
    ensures d.Some? && Abs(dx) <= Abs(dy) ==> (d.value == Backward <==> dy > 0.0)
  {
    if Abs(dx) > Abs(dy) then
      if Abs(dx) > SwipeThreshold then Some(if dx > 0.0 then Backward else Forward) else None
    else
      if Abs(dy) > SwipeThreshold then Some(if dy > 0.0 then Backward else Forward) else None
  }

  /**
   * What the navigator holds: the current section, the transition lock, the
   * coordinates of the last touch start (zero until the first touch), and
   * the number of lock releases scheduled and not yet fired.
   */
  datatype NavState = NavState(
    section: int,
    locked: bool,
    touchStartX: real,
    touchStartY: real,
    pendingReleases: nat)

  const Initial: NavState := NavState(0, false, 0.0, 0.0, 0)

  /**
   * The navigator's invariant: the index names a section, and a release is
   * pending exactly while the lock is held (so never more than one).
   */
  predicate Valid(s: NavState)
    ensures Valid(s) ==> s.pendingReleases <= 1 && (s.locked <==> s.pendingReleases > 0)
  {
    InRange(s.section) && s.pendingReleases == (if s.locked then 1 else 0)
  }

  /** An accepted gesture: take the lock, schedule its release, set the index. */
  function Accept(s: NavState, target: int): NavState {
    s.(section := target, locked := true, pendingReleases := s.pendingReleases + 1)
  }

  /** A wheel tick: down (positive deltaY) goes on, anything else goes back. */
  function OnWheel(s: NavState, deltaY: real): (r: NavState)
    ensures s.locked ==> r == s
    ensures !s.locked ==> r.locked && r.pendingReleases == s.pendingReleases + 1
    ensures !s.locked && deltaY > 0.0 ==> r.section == Advance(s.section)
    ensures !s.locked && deltaY <= 0.0 ==> r.section == Retreat(s.section)
    ensures r.touchStartX == s.touchStartX && r.touchStartY == s.touchStartY
    ensures Valid(s) ==> Valid(r)
  {
    if s.locked then s
    else if deltaY > 0.0 then Accept(s, Advance(s.section))
    else Accept(s, Retreat(s.section))
  }

  /** A key press: only the four arrow keys are gestures. */
  function OnKey(s: NavState, key: string): (r: NavState)
    ensures s.locked || key !in AdvanceKeys + RetreatKeys ==> r == s
    ensures !s.locked && key in AdvanceKeys ==> r == Accept(s, Advance(s.section))
    ensures !s.locked && key in RetreatKeys ==> r == Accept(s, Retreat(s.section))
    ensures Valid(s) ==> Valid(r)
  {
    if s.locked then s
    else match KeyDirection(key)
      case Some(d) => Accept(s, Move(s.section, d))
      case None => s
  }

  /** A touch start only records where the finger went down; it ignores the lock. */
  function OnTouchStart(s: NavState, x: real, y: real): (r: NavState)
    ensures r.section == s.section && r.locked == s.locked
    ensures r.pendingReleases == s.pendingReleases
    ensures r.touchStartX == x && r.touchStartY == y
    ensures Valid(s) ==> Valid(r)
  {
    s.(touchStartX := x, touchStartY := y)
  }

  /** A touch end: classify the displacement from the recorded start. */
  function OnTouchEnd(s: NavState, x: real, y: real): (r: NavState)
    ensures s.locked ==> r == s
    ensures Abs(x - s.touchStartX) <= SwipeThreshold && Abs(y - s.touchStartY) <= SwipeThreshold ==> r == s
    ensures r.locked <==> s.locked || Abs(x - s.touchStartX) > SwipeThreshold || Abs(y - s.touchStartY) > SwipeThreshold
    ensures !s.locked && r.locked ==>
      r == Accept(s, Move(s.section, SwipeDirection(x - s.touchStartX, y - s.touchStartY).value))
    ensures Valid(s) ==> Valid(r)
  {
    if s.locked then s
    else match SwipeDirection(x - s.touchStartX, y - s.touchStartY)
      case Some(d) => Accept(s, Move(s.section, d))
      case None => s
  }

  /** A click on navigation dot `index` jumps straight to that section. */
  function OnDotClick(s: NavState, index: int): (r: NavState)
    ensures s.locked ==> r == s
    ensures !s.locked ==> r.section == index && r.locked && r.pendingReleases == s.pendingReleases + 1
    ensures r.touchStartX == s.touchStartX && r.touchStartY == s.touchStartY
    ensures Valid(s) && InRange(index) ==> Valid(r)
  {
    if s.locked then s else Accept(s, index)
  }

  /** The scheduled timer fires: the lock is cleared and nothing else moves. */
  function OnRelease(s: NavState): (r: NavState)
    ensures s.pendingReleases > 0 ==> !r.locked && r.pendingReleases == s.pendingReleases - 1
    ensures r.section == s.section && r.touchStartX == s.touchStartX && r.touchStartY == s.touchStartY
    ensures Valid(s) ==> Valid(r) && !r.locked
  {
    if s.pendingReleases > 0 then s.(locked := false, pendingReleases := s.pendingReleases - 1)
    else s
  }

  /** The inputs the navigator reacts to, one at a time. */
  datatype Event =
    | Wheel(deltaY: real)
    | Key(key: string)
    | TouchStart(x: real, y: real)
    | TouchEnd(x: real, y: real)
    | DotClick(index: int)
    | Release

  /** Events that can ask for a section change (and are ignored while locked). */
  predicate IsGesture(e: Event) {
    e.Wheel? || e.Key? || e.TouchEnd? || e.DotClick?
  }

  /** Dots are drawn one per section, so a click names a section. */
  predicate WellFormed(e: Event) {
    e.DotClick? ==> InRange(e.index)
  }

  function Step(s: NavState, e: Event): (r: NavState)
    ensures IsGesture(e) && s.locked ==> r == s
    ensures Valid(s) && WellFormed(e) ==> Valid(r)
  {
    match e
    case Wheel(deltaY) => OnWheel(s, deltaY)
    case Key(key) => OnKey(s, key)
    case TouchStart(x, y) => OnTouchStart(s, x, y)
    case TouchEnd(x, y) => OnTouchEnd(s, x, y)
    case DotClick(index) => OnDotClick(s, index)
    case Release => OnRelease(s)
  }

  /** The state after a sequence of events, handled in order. */
  function Run(s: NavState, events: seq<Event>): (r: NavState)
    ensures Valid(s) && (forall e | e in events :: WellFormed(e)) ==> Valid(r)
    decreases |events|
  {
    if events == [] then s else Run(Step(s, events[0]), events[1..])
  }

  lemma {:induction false} RunAppend(s: NavState, a: seq<Event>, b: seq<Event>)
    ensures Run(s, a + b) == Run(Run(s, a), b)
    decreases |a|
  {
    if a == [] {
      assert a + b == b;
    } else {
      assert (a + b)[1..] == a[1..] + b;
      RunAppend(Step(s, a[0]), a[1..], b);
    }
  }

  /**
   * While the lock is held and no release fires, nothing but the recorded
   * touch start changes, however many gestures arrive.
   */
  lemma {:induction false} LockedIgnoresGestures(s: NavState, events: seq<Event>)
    requires s.locked
    requires forall e | e in events :: !e.Release?
    ensures Run(s, events).(touchStartX := s.touchStartX, touchStartY := s.touchStartY) == s
    decreases |events|
  {
    if events != [] {
      var t := Step(s, events[0]);
      assert t.(touchStartX := s.touchStartX, touchStartY := s.touchStartY) == s;
      LockedIgnoresGestures(t, events[1..]);
    }
  }

  /**
   * Between two releases at most one index change happens: a run of wheel,
   * key and touch events with no release ends one step on, one step back, or
   * where it started.
   */
  lemma {:induction false} OneMovePerLock(s: NavState, events: seq<Event>)
    requires forall e | e in events :: !e.Release? && !e.DotClick?
    ensures Run(s, events).section in {s.section, Advance(s.section), Retreat(s.section)}
    decreases |events|
  {
    if events != [] {
      var t := Step(s, events[0]);
      if t.locked && !s.locked {
        LockedIgnoresGestures(t, events[1..]);
      } else {
        assert t.section == s.section && t.locked == s.locked;
        OneMovePerLock(t, events[1..]);
      }
    }
  }

  /** `k` rounds of "scroll down, then let the cooldown expire". */
  function ScrollDownTimes(k: nat): seq<Event> {
    if k == 0 then [] else [Wheel(1.0), Release] + ScrollDownTimes(k - 1)
  }

  /** Scrolling down k times from an idle state moves k sections on, stopping at the last. */
  lemma {:induction false} ScrollDownReaches(s: NavState, k: nat)
    requires Valid(s) && !s.locked
    ensures Run(s, ScrollDownTimes(k)).section == Min(s.section + k, TotalSections - 1)
    ensures !Run(s, ScrollDownTimes(k)).locked
    decreases k
  {
    if k > 0 {
      var t := Run(s, [Wheel(1.0), Release]);
      assert t == OnRelease(OnWheel(s, 1.0));
      RunAppend(s, [Wheel(1.0), Release], ScrollDownTimes(k - 1));
      ScrollDownReaches(t, k - 1);
    }
  }

  /**
   * The active-section test used for dot highlighting and section visibility:
   * a section is active exactly when the track is shifted to bring it into view.
   */
  predicate IsActive(current: int, index: int)
    ensures IsActive(current, index) <==> TrackOffset(current) == -index * 100
  {
    current == index
  }

  /** The indices of the navigation dots drawn highlighted. */
  function HighlightedDots(current: int): (dots: set<int>)
    ensures InRange(current) ==> dots == {current}
    ensures !InRange(current) ==> dots == {}
  {
    set i | 0 <= i < TotalSections && IsActive(current, i)
  }

  /**
   * The horizontal translation of the section track, in viewport widths
   * times 100 (`-currentSection * 100` vw). For a valid index the viewport
   * window lies inside the track, which is TotalSections * 100 vw wide.
   */
  function TrackOffset(current: int): (x: int)
    ensures InRange(current) ==> 0 <= -x && -x + 100 <= TotalSections * 100
  {
    -current * 100
  }
}
