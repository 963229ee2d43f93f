/**
 * The state of the `Index` page as a value, one transition function per
 * handler or timer callback, what the page derives from the state for
 * display, and runs of events over it.
 */
module IndexPage {

  import opened Options
  import opened Catalog

  datatype Direction = Left | Right

  /**
   * A settle callback scheduled by a swipe, with what its closure captured:
   * the direction, the cursor and the profile under the cursor at swipe time.
   */
  datatype Settlement = Settlement(dir: Direction, index: nat, profile: Option<Profile>)

  /**
   * The five state variables of the page, followed by the timers still
   * scheduled: `settlements` holds the pending 500 ms settle callbacks,
   * oldest first, and `clears` counts the pending 2000 ms celebration time-outs.
   */
  datatype State = State(
    currentIndex: nat,
    matches: seq<Profile>,
    showMatches: bool,
    swipeDirection: Option<Direction>,
    showMatch: bool,
    settlements: seq<Settlement>,
    clears: nat)

  /** The state when the page mounts. */
  function Initial(): (s: State)
    ensures s.currentIndex == 0 && s.matches == []
    ensures !s.showMatches && s.swipeDirection == None && !s.showMatch
    ensures s.settlements == [] && s.clears == 0
  {
    State(0, [], false, None, false, [], 0)
  }

  /** The immediate part of `handleSwipe`: record the direction and schedule the settle. */
  function SwipeStep(s: State, dir: Direction): (r: State)
    ensures r.swipeDirection == Some(dir)
    ensures r.settlements == s.settlements + [Settlement(dir, s.currentIndex, ProfileAt(s.currentIndex))]
    ensures r.(swipeDirection := s.swipeDirection, settlements := s.settlements) == s
  {
    var pending := Settlement(dir, s.currentIndex, ProfileAt(s.currentIndex));
    s.(swipeDirection := Some(dir), settlements := s.settlements + [pending])
  }

  /** True when settling `s` appended the captured profile and raised the celebration. */
  predicate MatchRecorded(s: State, r: State)
  {
    && s.settlements != []
    && s.settlements[0].profile.Some?
    && r.matches == s.matches + [s.settlements[0].profile.value]
    && r.showMatch
    && r.clears == s.clears + 1
  }

  /**
   * The oldest pending settle callback runs. `draw` is the outcome of the
   * random draw, consulted only for a right swipe on a defined profile.
   */
  function SettleStep(s: State, draw: bool): (r: State)
    requires s.settlements != []
    ensures r.swipeDirection == None
    ensures r.settlements == s.settlements[1..]
    ensures r.showMatches == s.showMatches
    ensures r.currentIndex == NextIndex(s.settlements[0].index, s.currentIndex)
    ensures MatchRecorded(s, r) <==> s.settlements[0].dir == Right && s.settlements[0].profile.Some? && draw
    ensures !MatchRecorded(s, r) ==> r.matches == s.matches && r.showMatch == s.showMatch && r.clears == s.clears
  {
    var p := s.settlements[0];
    var matched := p.dir == Right && p.profile.Some? && draw;
    State(
      NextIndex(p.index, s.currentIndex),
      if matched then s.matches + [p.profile.value] else s.matches,
      s.showMatches,
      None,
      if matched then true else s.showMatch,
      s.settlements[1..],
      if matched then s.clears + 1 else s.clears)
  }

  /** The oldest pending celebration time-out runs. */
  function ClearStep(s: State): (r: State)
    requires s.clears > 0
    ensures !r.showMatch && r.clears == s.clears - 1
    ensures r.(showMatch := s.showMatch, clears := s.clears) == s
  {
    s.(showMatch := false, clears := s.clears - 1)
  }

  /** The heart button in the header. */
  function ToggleStep(s: State): (r: State)
    ensures r.showMatches != s.showMatches
    ensures r.(showMatches := s.showMatches) == s
  {
    s.(showMatches := !s.showMatches)
  }

  /** The close button of the matches view. */
  function CloseStep(s: State): (r: State)
    ensures !r.showMatches
    ensures r.(showMatches := s.showMatches) == s
  {
    s.(showMatches := false)
  }

  /** `currentProfile`: the profile under the cursor, if any. */
  function CurrentProfile(s: State): (r: Option<Profile>)
    ensures r.Some? <==> s.currentIndex < |PROFILES|
    ensures r.Some? ==> r.value == PROFILES[s.currentIndex]
  {
    ProfileAt(s.currentIndex)
  }

  /** The left, right and star buttons are rendered: browsing view, profile defined. */
  predicate SwipeButtonsShown(s: State)
    ensures SwipeButtonsShown(s) <==> !s.showMatches && s.currentIndex < |PROFILES|
  {
    !s.showMatches && CurrentProfile(s).Some?
  }

  /** The "all profiles viewed" card is rendered: browsing view, profile undefined. */
  predicate AllViewedShown(s: State)
    ensures AllViewedShown(s) <==> !s.showMatches && s.currentIndex >= |PROFILES|
    ensures !s.showMatches ==> (AllViewedShown(s) <==> !SwipeButtonsShown(s))
  {
    !s.showMatches && CurrentProfile(s).None?
  }

  /** The badge on the heart button: the number of matches, shown only when positive. */
  function Badge(s: State): (r: Option<nat>)
    ensures r.Some? <==> s.matches != []
    ensures r.Some? ==> r.value == |s.matches| && r.value > 0
  {
    if |s.matches| > 0 then Some(|s.matches|) else None
  }

  /** The position counter "n of m" under the card. */
  function Counter(s: State): (r: (nat, nat))
    ensures r.0 == s.currentIndex + 1
    ensures r.1 == |PROFILES|
    ensures 1 <= r.0 <= r.1 <==> CurrentProfile(s).Some?
  {
    (s.currentIndex + 1, |PROFILES|)
  }

  /** Something that can happen to the page: a click, or a timer firing. */
  datatype Event =
    | Swipe(dir: Direction)
    | Settle(draw: bool)
    | ClearCelebration
    | Toggle
    | Close

  /** A timer event needs its timer to be pending; clicks need nothing. */
  predicate Scheduled(s: State, e: Event)
  {
    match e
    case Settle(_) => s.settlements != []
    case ClearCelebration => s.clears > 0
    case _ => true
  }

  /** The event can happen: its timer is pending, or the page renders its button. */
  predicate Offered(s: State, e: Event)
  {
    && Scheduled(s, e)
    && match e
       case Swipe(_) => SwipeButtonsShown(s)
       case Close => s.showMatches
       case _ => true
  }

  /**
   * The event is offered and, when `serial` holds, a swipe waits until the
   * previous swipe has settled (one swipe at a time).
   */
  predicate Admits(s: State, e: Event, serial: bool)
  {
    Offered(s, e) && (serial && e.Swipe? ==> s.settlements == [])
  }

  function Step(s: State, e: Event): (r: State)
    requires Scheduled(s, e)
  {
    match e
    case Swipe(dir) => SwipeStep(s, dir)
    case Settle(draw) => SettleStep(s, draw)
    case ClearCelebration => ClearStep(s)
    case Toggle => ToggleStep(s)
    case Close => CloseStep(s)
  }

  /** The state after the events, or `None` when one of them cannot happen. */
  function Run(s: State, es: seq<Event>, serial: bool): (r: Option<State>)
    ensures es == [] ==> r == Some(s)
    ensures es != [] && !Admits(s, es[0], serial) ==> r == None
    decreases |es|
  {
    if es == [] then Some(s)
    else if Admits(s, es[0], serial) then Run(Step(s, es[0]), es[1..], serial)
    else None
  }

}
