/**
 * Properties of runs of the page: what holds after any sequence of clicks
 * and timer events, what holds when swipes never overlap, and what goes
 * wrong when they do.
 */
module IndexTraces {

  import opened Options
  import opened Catalog
  import opened IndexPage

  /** Running a prefix and then the rest is running the whole. */
  lemma {:induction false} RunAppend(s: State, a: seq<Event>, b: seq<Event>, serial: bool)
    ensures Run(s, a + b, serial) ==
      match Run(s, a, serial)
      case None => None
      case Some(m) => Run(m, b, serial)
    decreases |a|
  {
    if a == [] {
      assert a + b == b;
    } else {
      assert (a + b)[0] == a[0];
      assert (a + b)[1..] == a[1..] + b;
      if Admits(s, a[0], serial) {
        RunAppend(Step(s, a[0]), a[1..], b, serial);
      }
    }
  }

  // ---------------------------------------------------------------------
  // Facts that hold in every run, overlapping swipes included
  // ---------------------------------------------------------------------

  /**
   * Every scheduled callback captured the profile that was under its cursor,
   * every match is one of the profiles, a raised celebration has a time-out
   * pending, and each pending time-out belongs to a recorded match.
   */
  ghost predicate Consistent(s: State)
  {
    && (forall k :: 0 <= k < |s.settlements| ==> s.settlements[k].profile == ProfileAt(s.settlements[k].index))
    && (forall k :: 0 <= k < |s.matches| ==> s.matches[k] in PROFILES)
    && (s.showMatch ==> s.clears > 0)
    && s.clears <= |s.matches|
  }

  lemma StepConsistent(s: State, e: Event)
    requires Consistent(s) && Scheduled(s, e)
    ensures Consistent(Step(s, e))
  {
  }

  lemma {:induction false} RunConsistent(s: State, es: seq<Event>, serial: bool)
    requires Consistent(s)
    ensures Run(s, es, serial).Some? ==> Consistent(Run(s, es, serial).value)
    decreases |es|
  {
    if es != [] && Admits(s, es[0], serial) {
      StepConsistent(s, es[0]);
      RunConsistent(Step(s, es[0]), es[1..], serial);
    }
  }

  /** From mount, every run keeps the captured profiles and the celebration consistent. */
  lemma ReachableConsistent(es: seq<Event>, serial: bool)
    ensures Run(Initial(), es, serial).Some? ==> Consistent(Run(Initial(), es, serial).value)
  {
    RunConsistent(Initial(), es, serial);
  }

  /**
   * Only the celebration time-out lowers the celebration flag, and only a
   * settle that records a match raises it.
   */
  lemma CelebrationTransitions(s: State, e: Event)
    requires Scheduled(s, e)
    ensures s.showMatch && !Step(s, e).showMatch ==> e == ClearCelebration
    ensures !s.showMatch && Step(s, e).showMatch ==> e.Settle? && MatchRecorded(s, Step(s, e))
    ensures |Step(s, e).matches| != |s.matches| ==> e.Settle? && MatchRecorded(s, Step(s, e))
  {
  }

  /** Number of right swipes among the events. */
  function RightSwipes(es: seq<Event>): (n: nat)
    ensures n <= |es|
  {
    if es == [] then 0
    else (if es[0] == Swipe(Right) then 1 else 0) + RightSwipes(es[1..])
  }

  /** Number of pending settle callbacks of right swipes. */
  function RightPending(q: seq<Settlement>): (n: nat)
    ensures n <= |q|
  {
    if q == [] then 0
    else (if q[0].dir == Right then 1 else 0) + RightPending(q[1..])
  }

  lemma {:induction false} RightPendingAppend(q: seq<Settlement>, x: Settlement)
    ensures RightPending(q + [x]) == RightPending(q) + (if x.dir == Right then 1 else 0)
    decreases |q|
  {
    if q == [] {
      assert q + [x] == [x];
    } else {
      assert (q + [x])[1..] == q[1..] + [x];
      RightPendingAppend(q[1..], x);
    }
  }

  /**
   * The match list only grows at its end, and each right swipe accounts for
   * at most one new match: matches recorded plus right swipes still pending
   * never exceed the right swipes made.
   */
  lemma {:induction false} MatchesAccounted(s: State, es: seq<Event>, serial: bool)
    ensures Run(s, es, serial).Some? ==>
      var t := Run(s, es, serial).value;
      && s.matches <= t.matches
      && |t.matches| + RightPending(t.settlements) <= |s.matches| + RightPending(s.settlements) + RightSwipes(es)
    decreases |es|
  {
    if es != [] && Admits(s, es[0], serial) {
      var m := Step(s, es[0]);
      if es[0].Swipe? {
        RightPendingAppend(s.settlements, Settlement(es[0].dir, s.currentIndex, ProfileAt(s.currentIndex)));
      }
      assert s.matches <= m.matches;
      assert |m.matches| + RightPending(m.settlements)
        <= |s.matches| + RightPending(s.settlements) + (if es[0] == Swipe(Right) then 1 else 0);
      MatchesAccounted(m, es[1..], serial);
    }
  }

  /** From mount, there are never more matches than right swipes. */
  lemma MatchesAtMostRightSwipes(es: seq<Event>, serial: bool)
    ensures Run(Initial(), es, serial).Some? ==> |Run(Initial(), es, serial).value.matches| <= RightSwipes(es)
  {
    MatchesAccounted(Initial(), es, serial);
  }

  /** No swipe among the events goes right. */
  predicate LeftOnly(es: seq<Event>)
  {
    forall k :: 0 <= k < |es| ==> es[k] != Swipe(Right)
  }

  /**
   * Left swipes never touch the match list, and without a right swipe the
   * celebration can only go down.
   */
  lemma {:induction false} LeftSwipesKeepMatches(s: State, es: seq<Event>, serial: bool)
    requires forall k :: 0 <= k < |s.settlements| ==> s.settlements[k].dir == Left
    requires LeftOnly(es)
    ensures Run(s, es, serial).Some? ==>
      var t := Run(s, es, serial).value;
      t.matches == s.matches && (t.showMatch ==> s.showMatch) && t.clears <= s.clears
    decreases |es|
  {
    if es != [] && Admits(s, es[0], serial) {
      var m := Step(s, es[0]);
      assert es[0] != Swipe(Right);
      assert forall k :: 0 <= k < |m.settlements| ==> m.settlements[k].dir == Left by {
        if es[0].Settle? {
          forall k | 0 <= k < |m.settlements| ensures m.settlements[k].dir == Left {
            assert m.settlements[k] == s.settlements[k + 1];
          }
        }
      }
      assert LeftOnly(es[1..]) by {
        forall k | 0 <= k < |es[1..]| ensures es[1..][k] != Swipe(Right) {
          assert es[1..][k] == es[k + 1];
        }
      }
      LeftSwipesKeepMatches(m, es[1..], serial);
    }
  }

  /** Toggling twice restores the view and leaves everything else alone. */
  lemma ToggleTwice(s: State)
    ensures ToggleStep(ToggleStep(s)) == s
    ensures ToggleStep(s).currentIndex == s.currentIndex && ToggleStep(s).matches == s.matches
  {
  }

  /**
   * Which events can happen: the heart button is always rendered, the close
   * button only in the matches view, the swipe buttons only while a profile
   * is browsed, and a timer fires only while it is pending. A serial run
   * further holds back a swipe while an earlier one has not settled.
   */
  lemma EventsOffered(s: State, e: Event)
    ensures Offered(s, Toggle)
    ensures Offered(s, Close) <==> s.showMatches
    ensures forall d :: Offered(s, Swipe(d)) <==> !s.showMatches && s.currentIndex < |PROFILES|
    ensures forall b :: Offered(s, Settle(b)) <==> s.settlements != []
    ensures Offered(s, ClearCelebration) <==> s.clears > 0
    ensures Offered(s, e) ==> Scheduled(s, e)
    ensures Admits(s, e, false) <==> Offered(s, e)
    ensures Admits(s, e, true) <==> Offered(s, e) && (e.Swipe? ==> s.settlements == [])
  {
  }

  // ---------------------------------------------------------------------
  // One swipe at a time: the cursor cycles through the list
  // ---------------------------------------------------------------------

  /**
   * With swipes that never overlap the cursor is on a profile, at most one
   * settle is pending, it captured the current cursor, and the direction is
   * shown exactly while it is pending.
   */
  ghost predicate SerialInvariant(s: State)
  {
    && s.currentIndex < |PROFILES|
    && |s.settlements| <= 1
    && (s.swipeDirection.Some? <==> s.settlements != [])
    && (s.settlements != [] ==>
          s.settlements[0].index == s.currentIndex && Some(s.settlements[0].dir) == s.swipeDirection)
  }

  lemma StepSerialInvariant(s: State, e: Event)
    requires SerialInvariant(s) && Admits(s, e, true)
    ensures SerialInvariant(Step(s, e))
  {
  }

  lemma {:induction false} RunSerialInvariant(s: State, es: seq<Event>)
    requires SerialInvariant(s)
    ensures Run(s, es, true).Some? ==> SerialInvariant(Run(s, es, true).value)
    decreases |es|
  {
    if es != [] && Admits(s, es[0], true) {
      StepSerialInvariant(s, es[0]);
      RunSerialInvariant(Step(s, es[0]), es[1..]);
    }
  }

  /**
   * From mount, with one swipe at a time, the cursor stays in range, a
   * profile is always under it, the "all viewed" card never shows, and in
   * the browsing view the swipe buttons are always offered.
   */
  lemma SerialCursorInRange(es: seq<Event>)
    ensures Run(Initial(), es, true).Some? ==>
      var t := Run(Initial(), es, true).value;
      && t.currentIndex < |PROFILES|
      && CurrentProfile(t).Some?
      && !AllViewedShown(t)
      && (!t.showMatches ==> SwipeButtonsShown(t))
      && Counter(t).0 <= Counter(t).1
  {
    RunSerialInvariant(Initial(), es);
  }

  /** Each pair is one swipe direction and the draw of its settle. */
  function Rounds(rs: seq<(Direction, bool)>): (es: seq<Event>)
    ensures |es| == 2 * |rs|
  {
    if rs == [] then [] else [Swipe(rs[0].0), Settle(rs[0].1)] + Rounds(rs[1..])
  }

  /** Swiping and settling `|rs|` times advances the cursor `|rs|` places round the list. */
  lemma {:induction false} RoundsAdvance(s: State, rs: seq<(Direction, bool)>)
    requires SerialInvariant(s) && s.settlements == [] && !s.showMatches
    ensures Run(s, Rounds(rs), true).Some?
    ensures var t := Run(s, Rounds(rs), true).value;
      && SerialInvariant(t) && t.settlements == [] && !t.showMatches
      && t.currentIndex == (s.currentIndex + |rs|) % |PROFILES|
    decreases |rs|
  {
    if rs == [] {
      assert s.currentIndex % |PROFILES| == s.currentIndex;
    } else {
      var s1 := SwipeStep(s, rs[0].0);
      var s2 := SettleStep(s1, rs[0].1);
      var pair := [Swipe(rs[0].0), Settle(rs[0].1)];
      assert Run(s1, [Settle(rs[0].1)], true) == Some(s2);
      assert Run(s, pair, true) == Some(s2) by {
        assert pair[1..] == [Settle(rs[0].1)];
      }
      RunAppend(s, pair, Rounds(rs[1..]), true);
      RoundsAdvance(s2, rs[1..]);
      assert s2.currentIndex == (s.currentIndex + 1) % |PROFILES|;
    }
  }

  /** Number of settle events among the events. */
  function Settles(es: seq<Event>): (n: nat)
    ensures n <= |es|
  {
    if es == [] then 0
    else (if es[0].Settle? then 1 else 0) + Settles(es[1..])
  }

  /**
   * In any serial run, whatever clicks and time-outs come between the swipes,
   * each settle moves the cursor one place round the list and nothing else
   * moves it.
   */
  lemma {:induction false} SerialAdvance(s: State, es: seq<Event>)
    requires SerialInvariant(s)
    ensures Run(s, es, true).Some? ==>
      Run(s, es, true).value.currentIndex == (s.currentIndex + Settles(es)) % |PROFILES|
    decreases |es|
  {
    if es == [] {
      assert s.currentIndex % |PROFILES| == s.currentIndex;
    } else if Admits(s, es[0], true) {
      var m := Step(s, es[0]);
      StepSerialInvariant(s, es[0]);
      SerialAdvance(m, es[1..]);
      if es[0].Settle? {
        assert m.currentIndex == (s.currentIndex + 1) % |PROFILES|;
      }
    }
  }

  /** Any serial run with three settles brings the cursor back to where it was. */
  lemma FullCycleReturns(s: State, es: seq<Event>)
    requires SerialInvariant(s)
    requires Settles(es) == |PROFILES|
    ensures Run(s, es, true).Some? ==> Run(s, es, true).value.currentIndex == s.currentIndex
  {
    SerialAdvance(s, es);
  }

  /**
   * The ordinary flow from mount: a right swipe that matches, the celebration
   * time-out, then two left swipes. All events are admitted and the cursor is
   * back on the first profile.
   */
  lemma MatchThenCycle()
    ensures var es := [Swipe(Right), Settle(true), ClearCelebration, Swipe(Left), Settle(false), Swipe(Left), Settle(false)];
      && Run(Initial(), es, true).Some?
      && Run(Initial(), es, true).value.currentIndex == 0
      && |Run(Initial(), es, true).value.matches| == 1
  {
  }

  // ---------------------------------------------------------------------
  // Overlapping swipes: the cursor runs past the end
  // ---------------------------------------------------------------------

  /**
   * Two swipes made on the second profile before either settles: both
   * callbacks test the captured cursor 1 and increment the latest one, so the
   * cursor reaches 3. The profile is then undefined, the "all viewed" card
   * shows, the swipe buttons are gone and the counter reads 4 of 3. With one
   * swipe at a time the second swipe is not admitted.
   */
  lemma OverlapOvershoots(s: State, d1: Direction, d2: Direction, b1: bool, b2: bool)
    requires s.currentIndex == 1 && s.settlements == [] && !s.showMatches
    ensures var es := [Swipe(d1), Swipe(d2), Settle(b1), Settle(b2)];
      && Run(s, es, true).None?
      && Run(s, es, false).Some?
      && var t := Run(s, es, false).value;
         && t.currentIndex == |PROFILES|
         && t.settlements == []
         && CurrentProfile(t) == None
         && AllViewedShown(t)
         && !SwipeButtonsShown(t)
         && Counter(t) == (4, 3)
  {
    var s1 := SwipeStep(s, d1);
    var s2 := SwipeStep(s1, d2);
    var s3 := SettleStep(s2, b1);
    var s4 := SettleStep(s3, b2);
    assert s3.currentIndex == 2;
    assert s4.currentIndex == 3;
    assert Run(s3, [Settle(b2)], false) == Some(s4);
    assert Run(s2, [Settle(b1), Settle(b2)], false) == Some(s4) by {
      assert [Settle(b1), Settle(b2)][1..] == [Settle(b2)];
    }
    assert Run(s1, [Swipe(d2), Settle(b1), Settle(b2)], false) == Some(s4) by {
      assert [Swipe(d2), Settle(b1), Settle(b2)][1..] == [Settle(b1), Settle(b2)];
    }
    assert Run(s, [Swipe(d1), Swipe(d2), Settle(b1), Settle(b2)], false) == Some(s4) by {
      assert [Swipe(d1), Swipe(d2), Settle(b1), Settle(b2)][1..] == [Swipe(d2), Settle(b1), Settle(b2)];
    }
  }

  /** The overrun is reachable from mount: swipe and settle once, then swipe twice quickly. */
  lemma OverlapReachableFromMount(d1: Direction, d2: Direction, b0: bool, b1: bool, b2: bool)
    ensures var es := [Swipe(Left), Settle(b0), Swipe(d1), Swipe(d2), Settle(b1), Settle(b2)];
      Run(Initial(), es, false).Some? && AllViewedShown(Run(Initial(), es, false).value)
  {
    var s := SettleStep(SwipeStep(Initial(), Left), b0);
    assert s.currentIndex == 1;
    var head := [Swipe(Left), Settle(b0)];
    var tail := [Swipe(d1), Swipe(d2), Settle(b1), Settle(b2)];
    assert Run(Initial(), head, false) == Some(s) by {
      var s0 := SwipeStep(Initial(), Left);
      assert Run(s0, [Settle(b0)], false) == Some(s);
      assert head[1..] == [Settle(b0)];
    }
    RunAppend(Initial(), head, tail, false);
    assert head + tail == [Swipe(Left), Settle(b0), Swipe(d1), Swipe(d2), Settle(b1), Settle(b2)];
    OverlapOvershoots(s, d1, d2, b1, b2);
  }

  /**
   * The cursor is past the end and every pending callback will increment it:
   * no swipe can be made, so nothing ever brings the cursor back.
   */
  ghost predicate Exhausted(s: State)
  {
    && s.currentIndex >= |PROFILES|
    && forall k :: 0 <= k < |s.settlements| ==> s.settlements[k].index < |PROFILES| - 1
  }

  lemma StepExhausted(s: State, e: Event, serial: bool)
    requires Exhausted(s) && Admits(s, e, serial)
    ensures Exhausted(Step(s, e))
  {
  }

  /** Once exhausted, the page stays on the "all viewed" card whatever happens next. */
  lemma {:induction false} ExhaustedIsPermanent(s: State, es: seq<Event>, serial: bool)
    requires Exhausted(s)
    ensures Run(s, es, serial).Some? ==>
      var t := Run(s, es, serial).value;
      && Exhausted(t)
      && !SwipeButtonsShown(t)
      && (!t.showMatches ==> AllViewedShown(t))
    decreases |es|
  {
    if es != [] && Admits(s, es[0], serial) {
      StepExhausted(s, es[0], serial);
      ExhaustedIsPermanent(Step(s, es[0]), es[1..], serial);
    }
  }

  /**
   * The overrun need not be permanent: a swipe made on the last profile
   * while an earlier one is pending resets the cursor to 0 when it settles,
   * after the "all viewed" card has shown.
   */
  lemma TransientOverrun(s: State, b1: bool, b2: bool, b3: bool)
    requires s.currentIndex == 1 && s.settlements == [] && !s.showMatches
    ensures var s4 := SettleStep(SwipeStep(SettleStep(SwipeStep(SwipeStep(s, Left), Left), b1), Left), b2);
      && AllViewedShown(s4)
      && s4.settlements != []
      && SettleStep(s4, b3).currentIndex == 0
      && SwipeButtonsShown(SettleStep(s4, b3))
  {
  }

}
