/**
 * The `Index` component as an object: its five state variables are fields
 * that the handlers and timer callbacks update in place. Two further fields
 * stand for the timers the component has scheduled and that have not run.
 */
module IndexComponent {

  import opened Options
  import opened Catalog
  import opened IndexPage

  class Browser {
    var currentIndex: nat
    var matches: seq<Profile>
    var showMatches: bool
    var swipeDirection: Option<Direction>
    var showMatch: bool
    /** Pending settle callbacks, oldest first; 500 ms timers fire in that order. */
    var settlements: seq<Settlement>
    /** Pending celebration time-outs. */
    var clears: nat

    /** The component's state as a value. */
    function Snapshot(): State
      reads this
    {
      State(currentIndex, matches, showMatches, swipeDirection, showMatch, settlements, clears)
    }

    /** Mounting: the `useState` initial values, no timer pending. */
    constructor ()
      ensures currentIndex == 0 && matches == []
      ensures !showMatches && swipeDirection == None && !showMatch
      ensures settlements == [] && clears == 0
      ensures Snapshot() == Initial()
    {
      currentIndex := 0;
      matches := [];
      showMatches := false;
      swipeDirection := None;
      showMatch := false;
      settlements := [];
      clears := 0;
    }

    /** The synchronous part of `handleSwipe`. */
    method Swipe(dir: Direction)
      modifies this
      ensures swipeDirection == Some(dir)
      ensures settlements == old(settlements) + [Settlement(dir, old(currentIndex), ProfileAt(old(currentIndex)))]
      ensures currentIndex == old(currentIndex) && matches == old(matches)
      ensures showMatches == old(showMatches) && showMatch == old(showMatch) && clears == old(clears)
      ensures Snapshot() == SwipeStep(old(Snapshot()), dir)
    {
      swipeDirection := Some(dir);
      settlements := settlements + [Settlement(dir, currentIndex, ProfileAt(currentIndex))];
    }

    /**
     * The 500 ms callback of the oldest pending swipe. It sees the direction,
     * cursor and profile its closure captured; `draw` is the outcome of the
     * random draw.
     */
    method Settle(draw: bool)
      requires settlements != []
      modifies this
      ensures swipeDirection == None
      ensures settlements == old(settlements[1..])
      ensures currentIndex == NextIndex(old(settlements[0].index), old(currentIndex))
      ensures showMatches == old(showMatches)
      ensures Snapshot() == SettleStep(old(Snapshot()), draw)
    {
      var pending := settlements[0];
      settlements := settlements[1..];
      if pending.dir == Right && pending.profile.Some? {
        if draw {
          matches := matches + [pending.profile.value];
          showMatch := true;
          clears := clears + 1;
        }
      }
      if pending.index < |PROFILES| - 1 {
        currentIndex := currentIndex + 1;
      } else {
        currentIndex := 0;
      }
      swipeDirection := None;
    }

    /** The 2000 ms time-out scheduled when a match was recorded. */
    method ClearCelebration()
      requires clears > 0
      modifies this
      ensures !showMatch && clears == old(clears) - 1
      ensures currentIndex == old(currentIndex) && matches == old(matches)
      ensures showMatches == old(showMatches) && swipeDirection == old(swipeDirection)
      ensures settlements == old(settlements)
      ensures Snapshot() == ClearStep(old(Snapshot()))
    {
      showMatch := false;
      clears := clears - 1;
    }

    /** The heart button: flip between browsing and the matches view. */
    method Toggle()
      modifies this
      ensures showMatches == !old(showMatches)
      ensures currentIndex == old(currentIndex) && matches == old(matches)
      ensures swipeDirection == old(swipeDirection) && showMatch == old(showMatch)
      ensures settlements == old(settlements) && clears == old(clears)
      ensures Snapshot() == ToggleStep(old(Snapshot()))
    {
      showMatches := !showMatches;
    }

    /** The close button of the matches view: back to browsing. */
    method Close()
      modifies this
      ensures !showMatches
      ensures currentIndex == old(currentIndex) && matches == old(matches)
      ensures swipeDirection == old(swipeDirection) && showMatch == old(showMatch)
      ensures settlements == old(settlements) && clears == old(clears)
      ensures Snapshot() == CloseStep(old(Snapshot()))
    {
      showMatches := false;
    }

    /** The render test for the swipe buttons, read from the current fields. */
    method SwipeOffered() returns (offered: bool)
      ensures offered <==> SwipeButtonsShown(Snapshot())
      ensures offered ==> currentIndex < |PROFILES|
    {
      var profile := ProfileAt(currentIndex);
      offered := !showMatches && profile.Some?;
    }
  }

  /**
   * A client of the component: one swipe settled, then two swipes on the
   * second profile before either settles. The cursor ends past the last
   * profile and the swipe buttons are no longer offered.
   */
  method OverlappingSwipes(d1: Direction, d2: Direction, b0: bool, b1: bool, b2: bool) returns (b: Browser)
    ensures b.currentIndex == |PROFILES| && ProfileAt(b.currentIndex) == None
    ensures !SwipeButtonsShown(b.Snapshot()) && AllViewedShown(b.Snapshot())
  {
    b := new Browser();
    b.Swipe(Left);
    b.Settle(b0);
    assert b.currentIndex == 1;
    var offered := b.SwipeOffered();
    assert offered;
    b.Swipe(d1);
    offered := b.SwipeOffered();
    assert offered;
    b.Swipe(d2);
    b.Settle(b1);
    b.Settle(b2);
    offered := b.SwipeOffered();
    assert !offered;
  }

}
