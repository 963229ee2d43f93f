# Swipe and match state machine of the profile browser page

The page `src/pages/Index.tsx` shows one profile card at a time out of a fixed
list of three. A left or right swipe animates the card and, half a second
later, a timer callback settles the swipe: a right swipe may record a match
(decided by a coin flip) and raise a two-second "it's a match" celebration,
the cursor moves to the next profile or wraps to the first, and the swipe
animation is cleared. A heart button toggles between browsing and the list of
matches; a close button in that list returns to browsing.

This project models that state machine and proves what it does.

- `options.dfy`: `Option`, standing for a value that may be `undefined`.
- `catalog.dfy` (module `Catalog`): the three profiles, the lookup
  `profiles[currentIndex]` (`ProfileAt`), and the advance rule (`NextIndex`).
- `index_page.dfy` (module `IndexPage`): the page state as a value, one step
  function per handler or timer callback, the values the page derives for
  display (current profile, whether the swipe buttons or the "all viewed"
  card are rendered, the badge, the position counter), and `Run`, which
  plays a sequence of clicks and timer events.
- `browser.dfy` (module `IndexComponent`): the component as a class
  `Browser` whose fields are the five state variables, updated in place by
  `Swipe`, `Settle`, `ClearCelebration`, `Toggle` and `Close`. Each method's
  contract states the new fields and ties `Snapshot()` to the step function.
- `traces.dfy` (module `IndexTraces`): lemmas about runs.

Timers are events. The 500 ms settle callbacks still pending are the field
`settlements`, oldest first. Each entry keeps what its closure captured: the
direction, the cursor, and the profile under the cursor at swipe time. The
pending 2000 ms celebration time-outs are counted in `clears`. The random
draw is the boolean `draw` passed to `Settle`.

The settle callback tests the cursor its closure captured, but increments the
latest cursor. With one swipe at a time (`serial` runs) the cursor stays on a
profile, and every three settled swipes bring it back to where it started,
whatever clicks and time-outs come in between. When two swipes
on the second profile are both pending, the cursor reaches 3. The profile is
then undefined, the "all profiles viewed" card shows, and the swipe buttons
disappear. Unless a callback captured at the last profile is still pending,
nothing brings the cursor back. The wrap to 0 at src/pages/Index.tsx:77
suggests that the card at lines 206-212 can never show. The test at line 74
reads the captured cursor, so it can, and this model follows the code.

## Model

| member | source | states |
|---|---|---|
| Catalog.ProfileAt | src/pages/Index.tsx:19-59 | the profile lookup is defined exactly for cursors below 3; then it yields the profile at that position, whose id is the position plus one |
| Catalog.NextIndex | src/pages/Index.tsx:74-78 | the new cursor is 0 or the latest cursor plus one; it is 0 exactly when the captured cursor is at or past the last profile; when captured and latest agree and are in range it is their successor modulo 3 |
| IndexPage.Initial | src/pages/Index.tsx:53-57 | on mount the cursor is 0, matches are empty, both view flags are false, there is no direction and no timer is pending |
| IndexPage.CurrentProfile | src/pages/Index.tsx:59 | the current profile is defined exactly when the cursor is below 3, and is then the profile at the cursor |
| IndexPage.SwipeButtonsShown | src/pages/Index.tsx:215 | the swipe buttons are rendered exactly in the browsing view with the cursor below 3 |
| IndexPage.AllViewedShown | src/pages/Index.tsx:162-212 | the "all viewed" card is rendered exactly in the browsing view with the cursor at 3 or beyond; while browsing it shows exactly when the swipe buttons do not |
| IndexTraces.EventsOffered | src/pages/Index.tsx:90-121 | the heart button can always be pressed, close only in the matches view, a swipe only when the swipe buttons are rendered (line 215), a timer event only while its timer is pending; a serial run also holds back a swipe until the previous one settled |
| IndexPage.Run | src/pages/Index.tsx:61-121 | an empty run leaves the state as it is, and a run whose first event cannot happen has no outcome |
| IndexPage.SwipeStep | src/pages/Index.tsx:61-64 | a swipe sets the direction and schedules one settle that captures the direction, the cursor and the profile under it; nothing else changes |
| IndexPage.SettleStep | src/pages/Index.tsx:64-80 | settling clears the direction, removes the oldest pending settle, keeps the view, moves the cursor by the advance rule on the captured cursor, and records a match exactly for a right swipe on a defined profile with a true draw; otherwise matches, celebration and time-outs are unchanged |
| IndexPage.ClearStep | src/pages/Index.tsx:70 | the celebration time-out lowers the celebration flag, consumes one pending time-out and changes nothing else |
| IndexPage.ToggleStep | src/pages/Index.tsx:94 | the heart button flips the view and changes nothing else |
| IndexPage.CloseStep | src/pages/Index.tsx:121 | the close button sets the browsing view and changes nothing else |
| IndexPage.Badge | src/pages/Index.tsx:97-101 | the badge is present exactly when there are matches, and then shows their (positive) number |
| IndexPage.Counter | src/pages/Index.tsx:246-248 | the counter shows the cursor plus one out of the number of profiles, and its position lies in 1..total exactly when a profile is under the cursor |
| IndexComponent.Browser.constructor | src/pages/Index.tsx:53-57 | on mount the cursor is 0, matches are empty, both view flags are false, there is no direction and no timer is pending |
| IndexComponent.Browser.Swipe | src/pages/Index.tsx:61-64 | sets the direction and appends the captured settle; every other field is unchanged |
| IndexComponent.Browser.Settle | src/pages/Index.tsx:64-80 | runs the oldest pending settle: direction cleared, cursor advanced from the captured test and the latest cursor, view untouched, whole state as the settle step prescribes |
| IndexComponent.Browser.ClearCelebration | src/pages/Index.tsx:70 | lowers the celebration, consumes one time-out, leaves every other field |
| IndexComponent.Browser.Toggle | src/pages/Index.tsx:94 | flips the view; cursor, matches and the other fields unchanged |
| IndexComponent.Browser.Close | src/pages/Index.tsx:121 | returns to browsing; cursor, matches and the other fields unchanged |
| IndexComponent.Browser.SwipeOffered | src/pages/Index.tsx:215 | the swipe buttons are rendered exactly in the browsing view with a defined profile, and then the cursor is in range |
| IndexComponent.OverlappingSwipes | src/pages/Index.tsx:59-81 | on the object, a settled swipe followed by two quick swipes leaves the cursor at 3 with no profile, no swipe buttons, and the "all viewed" card |
| IndexTraces.StepConsistent | src/pages/Index.tsx:59-70 | every event keeps the captured profiles equal to the lookup of their captured cursors, matches drawn from the profile list, a pending time-out behind a raised celebration, and no more time-outs than matches |
| IndexTraces.RunConsistent | src/pages/Index.tsx:59-70 | the same consistency holds after any run from a consistent state |
| IndexTraces.ReachableConsistent | src/pages/Index.tsx:53-70 | every state reached from mount, overlapping swipes included, is consistent |
| IndexTraces.CelebrationTransitions | src/pages/Index.tsx:67-70 | only the time-out lowers the celebration, and only a settle that records a match raises it or changes the match count |
| IndexTraces.MatchesAccounted | src/pages/Index.tsx:65-68 | over any run the old match list is a prefix of the new one, and recorded plus pending right swipes never exceed earlier ones plus the right swipes made |
| IndexTraces.MatchesAtMostRightSwipes | src/pages/Index.tsx:65-68 | from mount there are never more matches than right swipes |
| IndexTraces.LeftSwipesKeepMatches | src/pages/Index.tsx:65 | runs with only left swipes never change the match list, never raise the celebration and never add time-outs |
| IndexTraces.ToggleTwice | src/pages/Index.tsx:94 | toggling twice restores the state; toggling keeps the cursor and the matches |
| IndexTraces.StepSerialInvariant | src/pages/Index.tsx:61-80 | with one swipe at a time each admitted event keeps the cursor in range, at most one settle pending with the current cursor captured, and the direction shown exactly while it is pending |
| IndexTraces.RunSerialInvariant | src/pages/Index.tsx:61-80 | the serial invariant holds after any serial run from a state satisfying it |
| IndexTraces.SerialCursorInRange | src/pages/Index.tsx:59-80 | from mount, with one swipe at a time, the cursor stays below 3, a profile is always under it, the "all viewed" card never shows, the buttons are offered while browsing, and the counter does not pass its total |
| IndexTraces.SerialAdvance | src/pages/Index.tsx:74-78 | in every serial run, with any clicks and time-outs in between, the cursor ends the number of settles places round the list modulo 3 |
| IndexTraces.FullCycleReturns | src/pages/Index.tsx:74-78 | every serial run with three settles returns the cursor to where it was |
| IndexTraces.RoundsAdvance | src/pages/Index.tsx:74-78 | n swipes each settled before the next, starting in the browsing view, are all admitted and move the cursor n places round the list modulo 3 |
| IndexTraces.MatchThenCycle | src/pages/Index.tsx:61-80 | from mount, a matching right swipe, its celebration time-out and two left swipes are all admitted, record one match and bring the cursor back to 0 |
| IndexTraces.OverlapOvershoots | src/pages/Index.tsx:59-81 | two swipes on the second profile, both pending, bring the cursor to 3: undefined profile, "all viewed" card, no swipe buttons, counter 4 of 3; a serial run refuses the second swipe |
| IndexTraces.OverlapReachableFromMount | src/pages/Index.tsx:53-81 | that overrun is reached from mount after one settled left swipe |
| IndexTraces.StepExhausted | src/pages/Index.tsx:74-75 | a cursor past the end with only pending settles that captured a cursor below the last keeps that property under every event |
| IndexTraces.ExhaustedIsPermanent | src/pages/Index.tsx:206-215 | once exhausted, every later state offers no swipe buttons and shows the "all viewed" card while browsing |
| IndexTraces.TransientOverrun | src/pages/Index.tsx:74-78 | a swipe made on the last profile while another is pending resets the cursor to 0 once it settles, after the "all viewed" card has shown |

## Left out

- Rendering, styling, animations and the display text (src/pages/Index.tsx:83-252): presentation only. Only the render conditions that decide which buttons and cards exist are modelled.
- The UI primitives `Card`, `Button`, `Badge`, `Icon` and `Avatar`: foreign components; their source is not part of this model.
- Real time: the 500 ms and 2000 ms delays become the events `Settle` and `ClearCelebration`. Settle callbacks fire oldest first, but any interleaving with clicks and time-outs is admitted, including orders the real delays would exclude.
- `Math.random() > 0.5`: randomness and floating point are left out; the model takes the outcome as the boolean `draw`.
- Profile content: the bio, image reference and interest tags are not modelled; identity, name, age, location and the verified flag are kept. The names are transliterated and the city names translated into English.
- The star button: its click handler does nothing.
- React's batching and re-rendering: each callback's state updates are applied in order, as one step.
- IndexComponent.Browser.Settle and IndexComponent.Browser.ClearCelebration: require a pending timer, because a timer callback runs only after it was scheduled; the component has no way to cancel one, and none is cancelled here.
