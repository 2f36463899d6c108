/** Which coins a Start finds, after any run of arming, dropping and starting on the one coin slot. */
module ArmedWindow {
  import opened Options
  import opened Clock
  import opened Sessions
  import opened CoinLedger

  // ---------- what a run does to the clock, the coins and the markers ----------

  lemma StepAdvancesTheClock(s: Store, e: Event)
    requires Enabled(s, e)
    ensures s.now <= Step(s, e).now
  {
  }

  lemma ActAdvancesTheClock(e: Engine, a: Act)
    requires ActOk(e, a)
    ensures e.store.now <= After(e, a).store.now
  {
    if a.Other? {
      StepAdvancesTheClock(e.store, a.event);
    }
  }

  /** The arm second could be written every time. */
  predicate AllNoted(run: seq<Act>) {
    forall a <- run :: a.Arm? ==> a.noted
  }

  /** While there is an armed window, its arm second is noted and has come. */
  predicate SlotOk(e: Engine) {
    && TICK <= e.store.now
    && (e.slot.expires.Some? ==>
          && e.slot.armedAt.Some? && 0 < e.slot.armedAt.value <= e.slot.expires.value
          && e.slot.armedAt.value <= e.store.now / TICK)
  }

  lemma ActKeepsSlotOk(e: Engine, a: Act)
    requires ActOk(e, a) && SlotOk(e) && (a.Arm? ==> a.noted)
    ensures SlotOk(After(e, a))
  {
    hide Step;
    ActAdvancesTheClock(e, a);
  }

  /** The start of the present window, or the present second when there is none: it never moves back. */
  function Marker(e: Engine): int {
    if e.slot.expires.Some? && e.slot.armedAt.Some? then e.slot.armedAt.value else e.store.now / TICK
  }

  lemma ActMovesMarkerOn(e: Engine, a: Act)
    requires ActOk(e, a) && SlotOk(e) && (a.Arm? ==> a.noted)
    ensures Marker(e) <= Marker(After(e, a))
  {
    hide Step;
    ActAdvancesTheClock(e, a);
  }

  lemma {:induction false} RunKeepsSlotOk(e: Engine, run: seq<Act>)
    requires ActsOk(e, run) && SlotOk(e) && AllNoted(run)
    ensures SlotOk(Run(e, run)) && Marker(e) <= Marker(Run(e, run)) && e.store.now <= Run(e, run).store.now
    decreases |run|
  {
    if run != [] {
      ActKeepsSlotOk(e, run[0]);
      ActMovesMarkerOn(e, run[0]);
      ActAdvancesTheClock(e, run[0]);
      hide After, SlotOk, Marker;
      RunKeepsSlotOk(After(e, run[0]), run[1..]);
    }
  }

  /** A window that was opened in this second starts after the instant, at the given fraction of a second. */
  predicate Passed(second: int, fraction: int, at: int) {
    (second - 1) * TICK + fraction > at
  }

  /** Some Arm of the run came after coin i was there and opened its window past the instant. */
  ghost predicate Overtaken(e: Engine, run: seq<Act>, i: nat, fraction: int, at: int)
    requires ActsOk(e, run)
    decreases |run|
  {
    && run != []
    && (|| (run[0].Arm? && i < |e.coins| && Passed(e.store.now / TICK, fraction, at))
        || Overtaken(After(e, run[0]), run[1..], i, fraction, at))
  }

  lemma {:induction false} CoinsStay(e: Engine, run: seq<Act>, i: nat)
    requires ActsOk(e, run) && i < |e.coins|
    ensures i < |Run(e, run).coins| && Run(e, run).coins[i].at == e.coins[i].at
    decreases |run|
  {
    if run != [] {
      hide Step;
      CoinsStay(After(e, run[0]), run[1..], i);
    }
  }

  /** For a coin that is there: the final window has passed it if and only if the present one has, or
      some later Arm's. */
  lemma {:induction false} PassedIffOvertaken(e: Engine, run: seq<Act>, i: nat, fraction: int, at: int)
    requires ActsOk(e, run) && SlotOk(e) && AllNoted(run) && i < |e.coins| && Run(e, run).slot.expires.Some?
    ensures Passed(Marker(Run(e, run)), fraction, at) <==>
            Overtaken(e, run, i, fraction, at) || (e.slot.expires.Some? && Passed(Marker(e), fraction, at))
    decreases |run|
  {
    RunKeepsSlotOk(e, run);
    if run != [] {
      var next := After(e, run[0]);
      ActKeepsSlotOk(e, run[0]);
      ActMovesMarkerOn(e, run[0]);
      RunKeepsSlotOk(next, run[1..]);
      CoinsStay(e, [run[0]], i);
      hide Step, Started;
      PassedIffOvertaken(next, run[1..], i, fraction, at);
    }
  }

  /** For a coin that drops during the run: the final window has passed it if and only if some Arm after
      its drop has. */
  lemma {:induction false} DroppedPassedIffOvertaken(e: Engine, run: seq<Act>, i: nat, fraction: int)
    requires ActsOk(e, run) && SlotOk(e) && AllNoted(run) && 0 <= fraction < TICK
    requires |e.coins| <= i < |Run(e, run).coins| && Run(e, run).slot.expires.Some?
    ensures var at := Run(e, run).coins[i].at;
            Passed(Marker(Run(e, run)), fraction, at) <==> Overtaken(e, run, i, fraction, at)
    decreases |run|
  {
    if run != [] {
      var next, at := After(e, run[0]), Run(e, run).coins[i].at;
      ActKeepsSlotOk(e, run[0]);
      if i < |next.coins| {
        CoinsStay(next, run[1..], i);
        assert next.coins[i].at == e.store.now && !Passed(Marker(next), fraction, e.store.now);
        PassedIffOvertaken(next, run[1..], i, fraction, at);
      } else {
        DroppedPassedIffOvertaken(next, run[1..], i, fraction);
      }
    }
  }

  // ---------- which coins a Start finds ----------

  /** From an arm on, after any run of arming and disarming by whomever, of drops, Starts and anything
      else, while the slot is armed: an unprocessed coin dropped meanwhile is in the window of a Start if
      and only if no later Arm has opened a window past it and fewer than 200 coins of the window come
      before it. */
  lemma ArmedCoinIsReturnedIff(e: Engine, run: seq<Act>, o: Order, i: nat)
    requires ActsOk(e, run) && SlotOk(e) && AllNoted(run)
    requires var f := Run(e, run);
             && IsArmed(f.slot, f.store.now) && |e.coins| <= i < |f.coins|
             && f.coins[i].source == o.source && !f.coins[i].processed
    ensures var f := Run(e, run);
            i in WindowOf(f, o) <==>
            && !Overtaken(e, run, i, f.store.now % TICK, f.coins[i].at)
            && Rank(f.coins, i, Since(f.slot, f.store.now), o.source) < 200
  {
    var f := Run(e, run);
    RunKeepsSlotOk(e, run);
    SinceTheArm(f.slot, f.store.now);
    WindowMembershipIff(f.coins, |f.coins|, Since(f.slot, f.store.now), o.source, i);
    DroppedPassedIffOvertaken(e, run, i, f.store.now % TICK);
  }

  /** When the slot is not armed, exactly the coins of the last five minutes count. */
  lemma UnarmedCoinIsReturnedIff(e: Engine, o: Order, i: nat)
    requires !IsArmed(e.slot, e.store.now) && i < |e.coins|
    ensures i in WindowOf(e, o) <==>
            && !e.coins[i].processed && e.coins[i].source == o.source
            && e.coins[i].at >= e.store.now - 300 * TICK
            && Rank(e.coins, i, Since(e.slot, e.store.now), o.source) < 200
  {
    WindowMembershipIff(e.coins, |e.coins|, Since(e.slot, e.store.now), o.source, i);
  }

  /** As long as nobody else arms, the coins of an armed window reach the Start: each one dropped since the
      arm is processed for the session it credits, but for those behind 200 others. */
  lemma ArmedCoinsAreCredited(e: Engine, run: seq<Act>, o: Order, i: nat)
    requires ActsOk(e, run) && SlotOk(e) && (forall a <- run :: !a.Arm?)
    requires var f := Run(e, run);
             && IsArmed(f.slot, f.store.now) && |e.coins| <= i < |f.coins| && OrderOk(f, o) && StartCommits(f, o)
             && f.coins[i].source == o.source && !f.coins[i].processed
    ensures var f := Run(e, run); var g := Started(f, o);
            if Rank(f.coins, i, Since(f.slot, f.store.now), o.source) < 200
            then g.coins[i].processed && g.coins[i].session == Some(SessionOf(f, o))
            else g.coins[i] == f.coins[i]
  {
    var f := Run(e, run);
    NeverOvertaken(e, run, i, f.store.now % TICK, f.coins[i].at);
    ArmedCoinIsReturnedIff(e, run, o, i);
  }

  lemma {:induction false} NeverOvertaken(e: Engine, run: seq<Act>, i: nat, fraction: int, at: int)
    requires ActsOk(e, run) && forall a <- run :: !a.Arm?
    ensures !Overtaken(e, run, i, fraction, at)
    decreases |run|
  {
    if run != [] {
      NeverOvertaken(After(e, run[0]), run[1..], i, fraction, at);
    }
  }

  lemma {:induction false} ProcessedStays(e: Engine, run: seq<Act>, i: nat)
    requires ActsOk(e, run) && i < |e.coins| && e.coins[i].processed
    ensures i < |Run(e, run).coins| && Run(e, run).coins[i].processed
    decreases |run|
  {
    if run != [] {
      hide Step;
      ProcessedStays(After(e, run[0]), run[1..], i);
    }
  }

  /** A coin goes to whoever's Start commits first with it, and whatever happens then, it is in no window of
      any Start again. */
  lemma CoinsGoToTheFirstStart(e: Engine, o: Order, i: nat, run: seq<Act>, later: Order)
    requires OrderOk(e, o) && StartCommits(e, o) && i in WindowOf(e, o) && ActsOk(Started(e, o), run)
    ensures Started(e, o).coins[i].processed && Started(e, o).coins[i].session == Some(SessionOf(e, o))
    ensures i !in WindowOf(Run(Started(e, o), run), later)
  {
    ProcessedStays(Started(e, o), run, i);
  }
}
