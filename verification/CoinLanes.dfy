/** The one coin slot shared by many VLANs: whose coins a Start credits. */
module CoinLanes {
  import opened Options
  import opened Clock
  import opened Sessions
  import opened CoinLedger
  import opened ArmedWindow
  import Pricing

  /** The engine with what it does not record itself: the VLAN that armed last and when, and for each coin
      the VLAN that had armed last when it dropped, whose customer stood at the slot. */
  datatype Lanes = Lanes(engine: Engine, opener: string, openedAt: int, owners: seq<string>)

  /** An act, and the VLAN it comes from. */
  datatype Move = Move(vlan: string, act: Act)

  function Grown(owners: seq<string>, opener: string, before: nat, after: nat): seq<string> {
    if after > before then owners + [opener] else owners
  }

  function AfterMove(l: Lanes, m: Move): Lanes
    requires ActOk(l.engine, m.act)
  {
    var next := After(l.engine, m.act);
    Lanes(next,
          if m.act.Arm? then m.vlan else l.opener,
          if m.act.Arm? then l.engine.store.now else l.openedAt,
          Grown(l.owners, l.opener, |l.engine.coins|, |next.coins|))
  }

  predicate MovesOk(l: Lanes, run: seq<Move>)
    decreases |run|
  {
    run == [] || (ActOk(l.engine, run[0].act) && MovesOk(AfterMove(l, run[0]), run[1..]))
  }

  function RunMoves(l: Lanes, run: seq<Move>): Lanes
    requires MovesOk(l, run)
    decreases |run|
  {
    if run == [] then l else RunMoves(AfterMove(l, run[0]), run[1..])
  }

  /** The desk is opened: nothing has happened yet, and the clock shows the epoch time. */
  function Opening(now: int): Lanes {
    Lanes(Engine(EMPTY.(now := now), [], CLOSED), "", now, [])
  }

  // ---------- what every run keeps ----------

  /** The coins of VLANs other than the last one to arm dropped before it armed, and the window in force is
      the one it opened. */
  predicate LanesOk(l: Lanes) {
    && SlotOk(l.engine) && |l.owners| == |l.engine.coins| && l.openedAt <= l.engine.store.now
    && (l.engine.slot.expires.Some? ==> l.engine.slot.armedAt == Some(l.openedAt / TICK))
    && forall i :: 0 <= i < |l.owners| ==>
         && l.engine.coins[i].at <= l.engine.store.now
         && (l.owners[i] != l.opener ==> l.engine.coins[i].at <= l.openedAt)
  }

  lemma CoinsAfter(e: Engine, a: Act)
    requires ActOk(e, a)
    ensures var f := After(e, a);
            && |e.coins| <= |f.coins| <= |e.coins| + 1
            && (forall i :: 0 <= i < |e.coins| ==> f.coins[i].at == e.coins[i].at)
            && (|f.coins| > |e.coins| ==> a.Drop? && f.coins[|e.coins|].at == e.store.now && f.store == e.store)
            && (f.slot.expires.Some? ==> a.Arm? || (e.slot.expires.Some? && f.slot.armedAt == e.slot.armedAt))
  {
    hide Step;
  }

  lemma MoveKeepsLanes(l: Lanes, m: Move)
    requires ActOk(l.engine, m.act) && LanesOk(l) && (m.act.Arm? ==> m.act.noted)
    ensures LanesOk(AfterMove(l, m))
  {
    hide Step, Started;
    ActKeepsSlotOk(l.engine, m.act);
    ActAdvancesTheClock(l.engine, m.act);
    CoinsAfter(l.engine, m.act);
  }

  predicate MovesNoted(run: seq<Move>) {
    forall m <- run :: m.act.Arm? ==> m.act.noted
  }

  lemma {:induction false} RunKeepsLanes(l: Lanes, run: seq<Move>)
    requires MovesOk(l, run) && LanesOk(l) && MovesNoted(run)
    ensures LanesOk(RunMoves(l, run))
    decreases |run|
  {
    if run != [] {
      MoveKeepsLanes(l, run[0]);
      hide LanesOk, AfterMove;
      RunKeepsLanes(AfterMove(l, run[0]), run[1..]);
    }
  }

  // ---------- whose coins a Start credits ----------

  /** Coin i belongs to another VLAN and would be the caller's to spend. */
  predicate ForeignInReach(l: Lanes, vlan: string, o: Order, i: nat)
    requires i < |l.engine.coins| == |l.owners|
  {
    var e := l.engine;
    && l.owners[i] != vlan && !e.coins[i].processed && e.coins[i].source == o.source
    && Rank(e.coins, i, Since(e.slot, e.store.now), o.source) < 200
    && if IsArmed(e.slot, e.store.now) then (l.openedAt / TICK - 1) * TICK + e.store.now % TICK <= e.coins[i].at
       else e.store.now - 300 * TICK <= e.coins[i].at
  }

  ghost predicate CreditsOnlyOwn(l: Lanes, vlan: string, o: Order)
    requires |l.engine.coins| == |l.owners|
  {
    forall i <- WindowOf(l.engine, o) :: l.owners[i] == vlan
  }

  /** After every run: a Start of a VLAN credits only the coins of its own customers if and only if no
      unprocessed coin of another VLAN, among the first 200, is in reach: since the second before the last
      arm at the present fraction of a second when the slot is armed, and in the last five minutes when
      it is not. */
  lemma StartCreditsOnlyOwnIff(now: int, run: seq<Move>, vlan: string, o: Order)
    requires now >= TICK && MovesOk(Opening(now), run) && MovesNoted(run)
    ensures var l := RunMoves(Opening(now), run);
            && |l.engine.coins| == |l.owners|
            && (CreditsOnlyOwn(l, vlan, o) <==>
                forall i :: 0 <= i < |l.owners| ==> !ForeignInReach(l, vlan, o, i))
  {
    RunKeepsLanes(Opening(now), run);
    OnlyOwnIff(RunMoves(Opening(now), run), vlan, o);
  }

  lemma OnlyOwnIff(l: Lanes, vlan: string, o: Order)
    requires LanesOk(l)
    ensures CreditsOnlyOwn(l, vlan, o) <==> forall i :: 0 <= i < |l.owners| ==> !ForeignInReach(l, vlan, o, i)
  {
    var e := l.engine;
    SinceTheArm(e.slot, e.store.now);
    forall i | 0 <= i < |l.owners|
      ensures l.owners[i] != vlan ==> (i in WindowOf(e, o) <==> ForeignInReach(l, vlan, o, i))
    {
      WindowMembershipIff(e.coins, |e.coins|, Since(e.slot, e.store.now), o.source, i);
    }
  }

  /** When the VLAN that starts armed last, a foreign coin is in reach only if it dropped in the two
      seconds before that arm. */
  lemma OwnArmLeavesTheSlack(l: Lanes, o: Order, i: nat)
    requires LanesOk(l) && IsArmed(l.engine.slot, l.engine.store.now) && i < |l.owners|
    requires ForeignInReach(l, l.opener, o, i)
    ensures l.openedAt - 2 * TICK < l.engine.coins[i].at <= l.openedAt
  {
  }

  /** When another VLAN armed last, every unprocessed coin that dropped since is in reach, but for those
      behind 200 others. */
  lemma LaterArmPutsItsCoinsInReach(l: Lanes, vlan: string, o: Order, i: nat)
    requires LanesOk(l) && IsArmed(l.engine.slot, l.engine.store.now) && i < |l.owners|
    requires vlan != l.opener && l.owners[i] == l.opener && l.openedAt <= l.engine.coins[i].at
    requires !l.engine.coins[i].processed && l.engine.coins[i].source == o.source
    requires Rank(l.engine.coins, i, Since(l.engine.slot, l.engine.store.now), o.source) < 200
    ensures ForeignInReach(l, vlan, o, i)
  {
  }

  // ---------- a run in which a customer is robbed ----------

  lemma FirstMove(l: Lanes, m: Move, run: seq<Move>)
    requires ActOk(l.engine, m.act) && MovesOk(AfterMove(l, m), run)
    ensures MovesOk(l, [m] + run) && RunMoves(l, [m] + run) == RunMoves(AfterMove(l, m), run)
  {
    assert ([m] + run)[1..] == run;
  }

  function Second(s: int): int {
    s * 1_000_000
  }

  function Waiting(seconds: nat): Move {
    Move("", Other(Tick(seconds * 1_000_000)))
  }

  function At(now: int, coins: seq<Coin>, armedAt: int, opener: string, owners: seq<string>): Lanes {
    Lanes(Engine(EMPTY.(now := Second(now)), coins, Slot(Some(armedAt + 60), Some(armedAt))),
          opener, Second(armedAt), owners)
  }

  function Five(): Coin {
    Coin(5, Second(1005), LOCAL_GPIO, false, None)
  }

  function Ten(): Coin {
    Coin(10, Second(1035), LOCAL_GPIO, false, None)
  }

  /** VLAN 1 arms at second 1000 and drops five pesos; VLAN 2 arms at 1030, its own lock being free; and
      then the rest. */
  function TwoArms(rest: seq<Move>): seq<Move> {
    [Move("v1", Arm(60, true))] + ([Waiting(5)] + ([Move("v1", Drop(5, LOCAL_GPIO))]
    + ([Waiting(25)] + ([Move("v2", Arm(60, true))] + rest))))
  }

  function Rearmed(now: int, coins: seq<Coin>, owners: seq<string>): Lanes {
    At(now, coins, 1030, "v2", owners)
  }

  lemma TwoArmsOfTwoVlans(rest: seq<Move>)
    requires MovesOk(Rearmed(1030, [Five()], ["v1"]), rest)
    ensures var l := Opening(Second(1000));
            MovesOk(l, TwoArms(rest)) && RunMoves(l, TwoArms(rest)) == RunMoves(Rearmed(1030, [Five()], ["v1"]), rest)
  {
    var arm1, arm2, drop := Move("v1", Arm(60, true)), Move("v2", Arm(60, true)), Move("v1", Drop(5, LOCAL_GPIO));
    var l1, l2 := At(1000, [], 1000, "v1", []), At(1005, [], 1000, "v1", []);
    var l3, l4 := At(1005, [Five()], 1000, "v1", ["v1"]), At(1030, [Five()], 1000, "v1", ["v1"]);
    assert AfterMove(Opening(Second(1000)), arm1) == l1;
    assert AfterMove(l1, Waiting(5)) == l2;
    assert AfterMove(l2, drop) == l3;
    assert AfterMove(l3, Waiting(25)) == l4;
    assert AfterMove(l4, arm2) == Rearmed(1030, [Five()], ["v1"]);
    hide AfterMove, At, Opening, Rearmed;
    FirstMove(l4, arm2, rest);
    FirstMove(l3, Waiting(25), [arm2] + rest);
    FirstMove(l2, drop, [Waiting(25)] + ([arm2] + rest));
    FirstMove(l1, Waiting(5), [drop] + ([Waiting(25)] + ([arm2] + rest)));
    FirstMove(Opening(Second(1000)), arm1, [Waiting(5)] + ([drop] + ([Waiting(25)] + ([arm2] + rest))));
  }

  /** Ten seconds later VLAN 1's customer starts: the window is empty. */
  lemma RobbedCustomerRun(o: Order)
    requires o.source == LOCAL_GPIO
    ensures var run := TwoArms([Waiting(10)]); var l := Opening(Second(1000));
            && MovesOk(l, run) && RunMoves(l, run) == Rearmed(1040, [Five()], ["v1"])
            && WindowOf(RunMoves(l, run).engine, o) == []
  {
    assert AfterMove(Rearmed(1030, [Five()], ["v1"]), Waiting(10)) == Rearmed(1040, [Five()], ["v1"]);
    FirstMove(Rearmed(1030, [Five()], ["v1"]), Waiting(10), []);
    assert [Waiting(10)] + [] == [Waiting(10)];
    TwoArmsOfTwoVlans([Waiting(10)]);
    var e := Rearmed(1040, [Five()], ["v1"]).engine;
    SinceTheArm(e.slot, e.store.now);
    assert Window(e.coins, 0, Since(e.slot, e.store.now), LOCAL_GPIO) == [];
  }

  /** The same when VLAN 2's customer has dropped ten pesos meanwhile. */
  function TenDropped(): seq<Move> {
    [Waiting(5)] + ([Move("v2", Drop(10, LOCAL_GPIO))] + [Waiting(5)])
  }

  lemma TenAreDropped()
    ensures var l := Rearmed(1030, [Five()], ["v1"]);
            MovesOk(l, TenDropped()) && RunMoves(l, TenDropped()) == Rearmed(1040, [Five(), Ten()], ["v1", "v2"])
  {
    var l, drop := Rearmed(1030, [Five()], ["v1"]), Move("v2", Drop(10, LOCAL_GPIO));
    assert AfterMove(l, Waiting(5)) == Rearmed(1035, [Five()], ["v1"]);
    assert AfterMove(Rearmed(1035, [Five()], ["v1"]), drop) == Rearmed(1035, [Five(), Ten()], ["v1", "v2"]);
    assert AfterMove(Rearmed(1035, [Five(), Ten()], ["v1", "v2"]), Waiting(5))
           == Rearmed(1040, [Five(), Ten()], ["v1", "v2"]);
    hide AfterMove, Rearmed;
    FirstMove(Rearmed(1035, [Five(), Ten()], ["v1", "v2"]), Waiting(5), []);
    assert [Waiting(5)] + [] == [Waiting(5)];
    FirstMove(Rearmed(1035, [Five()], ["v1"]), drop, [Waiting(5)]);
    FirstMove(l, Waiting(5), [drop] + [Waiting(5)]);
  }

  lemma TenDroppedRun()
    ensures var run := TwoArms(TenDropped()); var l := Opening(Second(1000));
            MovesOk(l, run) && RunMoves(l, run) == Rearmed(1040, [Five(), Ten()], ["v1", "v2"])
  {
    TenAreDropped();
    TwoArmsOfTwoVlans(TenDropped());
  }

  /** The order of VLAN 1's customer, at twelve minutes a peso. */
  function FirstCustomer(): Order {
    Order(Purchase("10.0.0.2", "aa", "", "t1", 0, 0, true, 0), false, Insert,
          [Pricing.Tier(1, 1, 12, true, true, 0)], LOCAL_GPIO)
  }

  lemma TenIsTheWindow()
    ensures var l := Rearmed(1040, [Five(), Ten()], ["v1", "v2"]);
            WindowOf(l.engine, FirstCustomer()) == [1] && WindowTotal(l.engine, FirstCustomer()) == 10
  {
    var e, o := Rearmed(1040, [Five(), Ten()], ["v1", "v2"]).engine, FirstCustomer();
    SinceTheArm(e.slot, e.store.now);
    assert Window(e.coins, 0, Since(e.slot, e.store.now), LOCAL_GPIO) == [];
    assert Window(e.coins, 1, Since(e.slot, e.store.now), LOCAL_GPIO) == [];
    assert WindowOf(e, o) == [1];
    assert Values(e.coins, [1]) == [10] && [10][..0] == [];
  }

  /** What VLAN 1's customer asks for once the window is priced. */
  function TwoHours(): Purchase {
    Purchase("10.0.0.2", "aa", "", "t1", 10, 120, true, 0)
  }

  lemma TenBuyTwoHours()
    ensures Pricing.Credit(FirstCustomer().tiers, 10) == 120
    ensures Priced(FirstCustomer().p, FirstCustomer().tiers, 10) == TwoHours()
  {
    Pricing.CreditIsTheScaledGreatestTier(FirstCustomer().tiers, 10, FirstCustomer().tiers[0]);
  }

  lemma TwoHoursAreCredited()
    ensures var s := EMPTY.(now := Second(1040));
            && TargetOk(s, TwoHours(), Insert) && CreditCommits(s, TwoHours(), false, Insert)
            && Credited(s, TwoHours(), false, Insert) ==
               Store(Second(1040), map[0 := FreshRow(Second(1040), TwoHours(), "t1")], 1, {"aa"})
  {
    var s := EMPTY.(now := Second(1040));
    assert CreditRows(s, TwoHours(), Insert) == map[0 := FreshRow(Second(1040), TwoHours(), "t1")];
  }

  lemma StartWith(e: Engine, o: Order, ids: seq<nat>, total: int, p: Purchase)
    requires OrderOk(e, o) && WindowOf(e, o) == ids && WindowTotal(e, o) == total
    requires Priced(o.p, o.tiers, total) == p && p.minutes != 0 && TargetOk(e.store, p, o.target)
    requires CreditCommits(e.store, p, o.banned, o.target)
    ensures StartCommits(e, o)
    ensures Started(e, o) ==
            Engine(Credited(e.store, p, o.banned, o.target), MarkProcessed(e.coins, ids, SessionOf(e, o)), CLOSED)
  {
    hide WindowOf, WindowTotal, Credited, CreditCommits, TargetOk, MarkProcessed, Pricing.Credit;
  }

  lemma TenAreMarked()
    ensures MarkProcessed([Five(), Ten()], [1], 0) == [Five(), Ten().(processed := true, session := Some(0))]
  {
  }

  /** At the end of TenDroppedRun VLAN 1's customer buys two hours with VLAN 2's ten pesos, and its own five
      stay behind. */
  lemma SwappedCoins()
    ensures var l := Rearmed(1040, [Five(), Ten()], ["v1", "v2"]);
            && !CreditsOnlyOwn(l, "v1", FirstCustomer())
            && OrderOk(l.engine, FirstCustomer()) && StartCommits(l.engine, FirstCustomer())
            && Started(l.engine, FirstCustomer()) ==
               Engine(Store(Second(1040), map[0 := FreshRow(Second(1040), TwoHours(), "t1")], 1, {"aa"}),
                      [Five(), Ten().(processed := true, session := Some(0))], CLOSED)
  {
    var l, o := Rearmed(1040, [Five(), Ten()], ["v1", "v2"]), FirstCustomer();
    assert OrderOk(l.engine, o);
    TenIsTheWindow();
    TenBuyTwoHours();
    TwoHoursAreCredited();
    TenAreMarked();
    assert l.owners[1] == "v2" && 1 in WindowOf(l.engine, o);
    hide WindowOf, WindowTotal, Pricing.Credit, CreditCommits, Credited, Priced, TargetOk, OrderOk, StartCommits,
         Started, MarkProcessed, Five, Ten, FreshRow;
    StartWith(l.engine, o, [1], 10, TwoHours());
  }
}
