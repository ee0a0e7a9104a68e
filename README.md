# Portfolio section navigator, modelled in Dafny

The portfolio page (`app/page.tsx`) shows four full-viewport sections
(hero, skills, stats, footer) one at a time. A wheel tick, an arrow key, a
swipe or a click on a navigation dot moves between them. Every accepted
gesture takes a transition lock (`isScrollingRef`) and schedules an 800 ms
timer that clears it. Gestures that arrive while the lock is held are
ignored. The page also maps a skill's proficiency level to two sets of CSS
classes.

The project has four files:

- `wrappers.dfy`: an `Option` datatype.
- `level_styles.dfy` (module `LevelStyles`): `getLevelColor` and
  `getLevelBadgeColor` as pure functions. `ParseLevel` is the reference that
  says which strings are level names.
- `navigation.dfy` (module `Navigation`): the navigator as pure transitions.
  - `NavState` holds the section index, the lock, the last touch start and
    the count of scheduled releases.
  - There is one transition function per handler, plus `Step` and `Run` over
    event sequences.
  - It holds the lemmas about sequences of events, and the
    active-section test used to draw the dots and show sections.
- `portfolio.dfy` (module `Portfolio`): class `Navigator`. Its fields are
  updated in place by one method per handler, in the source's own branching.
  Each method is proved to perform exactly the matching `Navigation`
  transition and to keep the invariant `Valid`.

The invariant `Valid` says two things. The index is in `[0, 3]`. A release
is pending exactly while the lock is held, so at most one is ever pending.

Three edge cases follow the code:

- The swipe threshold is strict (`> 50` at app/page.tsx:163 and 178), so a
  displacement of exactly 50 px is ignored.
- A wheel event with `deltaY == 0` retreats: it takes the `else` branch at
  app/page.tsx:112.
- A tie between `|dx|` and `|dy|` is a vertical swipe (the strict `>` at
  app/page.tsx:161).

## Model

| member | source | states |
|---|---|---|
| `LevelStyles.ParseLevel` | app/page.tsx:59-67 | a string is recognised as a level exactly when it is one of the four level names, and the recognised level's name is that string |
| `LevelStyles.LevelColor` | app/page.tsx:58-71 | the gray default gradient is returned exactly for strings that are not a level name |
| `LevelStyles.LevelBadgeColor` | app/page.tsx:73-86 | the gray default badge is returned exactly for strings that are not a level name |
| `LevelStyles.StylesDistinguishLevels` | app/page.tsx:58-86 | two different levels never share a gradient or a badge, and no level gets the default gradient |
| `Navigation.Advance` | app/page.tsx:111 | moves one section on from a valid index and stays on the last section; the result is a valid index |
| `Navigation.Retreat` | app/page.tsx:114 | moves one section back from a valid index and stays on the first; the result is a valid index |
| `Navigation.AdvanceRetreatInverse` | app/page.tsx:111-114 | away from the ends, one step back undoes one step on, and one step on undoes one step back |
| `Navigation.KeyDirection` | app/page.tsx:126-140 | ArrowRight and ArrowDown go forward, ArrowLeft and ArrowUp go back, and every other key is not a gesture |
| `Navigation.SwipeDirection` | app/page.tsx:161-191 | a swipe is a gesture exactly when some axis moved more than 50 px. The strictly larger axis decides, and ties go to vertical. A positive displacement on the deciding axis goes back |
| `Navigation.Valid` | app/page.tsx:92-120 | the index names a section and the lock is held exactly while a release is pending, so at most one release is ever pending |
| `Navigation.OnWheel` | app/page.tsx:102-121 | ignored while locked; otherwise it always takes the lock and schedules one release, even at an end. Positive deltaY advances and any other deltaY retreats. It keeps `Valid` |
| `Navigation.OnKey` | app/page.tsx:123-141 | ignored while locked and for non-arrow keys, which leave the lock untouched. The forward keys advance and the back keys retreat, each taking the lock. It keeps `Valid` |
| `Navigation.OnTouchStart` | app/page.tsx:147-150 | records the touch coordinates even while locked, and changes neither the index nor the lock |
| `Navigation.OnTouchEnd` | app/page.tsx:152-192 | ignored while locked or when neither axis moved more than 50 px. Otherwise it takes the lock and moves in the swipe's direction. It keeps `Valid` |
| `Navigation.OnDotClick` | app/page.tsx:409-417 | ignored while locked; otherwise it jumps to the clicked index and takes the lock. The touch start is unchanged either way. A click on a valid dot keeps `Valid` |
| `Navigation.OnRelease` | app/page.tsx:117-120 | when a release is pending it clears the lock and consumes that release. The index and the touch start never change |
| `Navigation.Step` | app/page.tsx:194-198 | every gesture is a no-op while locked, and every well-formed event keeps `Valid` |
| `Navigation.Run` | app/page.tsx:90-95 | after any sequence of well-formed events from a valid state, the index is still in `[0, 3]` and at most one release is pending |
| `Navigation.LockedIgnoresGestures` | app/page.tsx:101-192 | while the lock is held and no release fires, no sequence of events changes anything but the recorded touch start |
| `Navigation.OneMovePerLock` | app/page.tsx:102-192 | with no release in between, any run of wheel, key and touch events ends where it began, one step on, or one step back |
| `Navigation.ScrollDownReaches` | app/page.tsx:109-120 | k rounds of "scroll down, cooldown expires" from an idle state move k sections on, stop at the last section, and leave the lock free |
| `Navigation.IsActive` | app/page.tsx:419 | a section is active (its dot highlighted, its content shown) exactly when the track is shifted to bring that section into view |
| `Navigation.HighlightedDots` | app/page.tsx:406-423 | for a valid index, exactly one dot is highlighted: the one at the current index |
| `Navigation.TrackOffset` | app/page.tsx:430-438 | the track is shifted by the current index times 100 vw, so the viewport stays inside the track |
| `Portfolio.Navigator.constructor` | app/page.tsx:90-92 | starts on section 0, unlocked, with no touch recorded and no release pending |
| `Portfolio.Navigator.Lock` | app/page.tsx:107-120 | takes the lock and schedules exactly one more release |
| `Portfolio.Navigator.HandleWheel` | app/page.tsx:102-121 | updates the fields exactly as `Navigation.OnWheel` and keeps `Valid` |
| `Portfolio.Navigator.HandleKeyDown` | app/page.tsx:123-141 | updates the fields exactly as `Navigation.OnKey` and keeps `Valid` |
| `Portfolio.Navigator.HandleTouchStart` | app/page.tsx:147-150 | updates the fields exactly as `Navigation.OnTouchStart` and keeps `Valid` |
| `Portfolio.Navigator.HandleTouchEnd` | app/page.tsx:152-192 | updates the fields exactly as `Navigation.OnTouchEnd` and keeps `Valid` |
| `Portfolio.Navigator.HandleDotClick` | app/page.tsx:409-417 | updates the fields exactly as `Navigation.OnDotClick` and keeps `Valid` |
| `Portfolio.Navigator.HandleRelease` | app/page.tsx:117-120 | updates the fields exactly as `Navigation.OnRelease`; the lock is free afterwards |
| `Portfolio.Navigator.DotHighlighted` | app/page.tsx:419 | a dot is drawn highlighted exactly when its index is the current section |

## Left out

- Animation variants, motion props and spring transitions are not modelled. They are presentation data with floating-point durations and scales. The exception is the track offset of line 431, which is covered by `TrackOffset`.
- The floating particles' `Math.sin`/`Math.cos` layout is not modelled. It is decorative floating point.
- Listener registration and cleanup are not modelled, and neither are the `e.preventDefault()` calls. They are browser plumbing, and events are taken as abstract inputs.
- The 800 ms wall-clock delay is not modelled. Scheduling a timer increments `pendingReleases`, and the timer firing is the explicit `Release` event.
- `HandleRelease` requires a pending release, because a timer fires only if a gesture scheduled it. `OnRelease` on a state with nothing pending leaves it unchanged.
- React mechanics are not modelled: state batching, the `mounted` guard, refs and the JSX tree. The `setCurrentSection` updaters are applied at once, in handler order.
- The static skill data and the stats array are not modelled. They are hard-coded display content; the listed `average` is not derived from the skill percentages.
- Wheel deltas and touch coordinates are JavaScript numbers, modelled as `real`. `NaN` and infinities are left out.
- A touch event's `touches[0]`/`changedTouches[0]` is taken as given, as coordinates passed to the handler.
