/** Coin events and the purchase that consumes them: the window is read and credited in one step. */
module CoinLedger {
  import opened Options
  import opened Clock
  import opened Sessions
  import SessionLaws
  import Pricing

  /** maxWindowCoins and maxArmDuration, the latter in seconds. */
  const MAX_WINDOW_COINS: nat := 200
  const MAX_ARM_DURATION: int := 300

  const LOCAL_GPIO := "local_gpio"

  /** A row of coin_events; its id is its position. */
  datatype Coin = Coin(value: int, at: int, source: string, processed: bool, session: Option<nat>)

  // ---------- the window ----------

  /** The two marker files of the coin slot, in epoch seconds: when the armed window expires, and when it
      was opened. */
  datatype Slot = Slot(expires: Option<int>, armedAt: Option<int>)

  const CLOSED := Slot(None, None)

  predicate IsArmed(slot: Slot, now: int) {
    slot.expires.Some? && now / TICK < slot.expires.value
  }

  /** readArmedAt: the arm second, or the latest it can have been when its marker is not usable. */
  function ArmedAt(slot: Slot): int {
    if slot.expires.None? || slot.expires.value <= 0 then 0
    else if slot.armedAt.Some? && 0 < slot.armedAt.value <= slot.expires.value then slot.armedAt.value
    else slot.expires.value - MAX_ARM_DURATION
  }

  /** The window's age in seconds: the time since the arm when the slot is armed, and the longest window
      otherwise. */
  function WindowAge(slot: Slot, now: int): int {
    if IsArmed(slot, now) && ArmedAt(slot) > 0 then Max(1, now / TICK - ArmedAt(slot) + 1) else MAX_ARM_DURATION
  }

  /** The instant from which on the query takes coins. */
  function Since(slot: Slot, now: int): int {
    now - WindowAge(slot, now) * TICK
  }

  /** The arm second is the one noted, if there is one that can be right, and otherwise five minutes before
      the end of the window. */
  lemma ArmSecondLaw(expires: int, noted: Option<int>)
    requires expires > 0
    ensures ArmedAt(Slot(Some(expires), noted)) ==
            if noted.Some? && 0 < noted.value <= expires then noted.value else expires - 300
  {
  }

  /** While the slot is armed the window reaches back to the second before the arm second, at the present
      fraction of a second, and otherwise for five minutes. */
  lemma SinceTheArm(slot: Slot, now: int)
    ensures IsArmed(slot, now) && 0 < ArmedAt(slot) <= now / TICK ==>
              Since(slot, now) == (ArmedAt(slot) - 1) * TICK + now % TICK
    ensures !IsArmed(slot, now) ==> Since(slot, now) == now - 300 * TICK
  {
  }

  predicate InWindow(c: Coin, since: int, source: string) {
    !c.processed && c.at >= since && c.source == source
  }

  /** The ids the query returns, looking at the first n rows: in id order, at most the limit. */
  function Window(coins: seq<Coin>, n: nat, since: int, source: string): (ids: seq<nat>)
    requires n <= |coins|
    ensures |ids| <= MAX_WINDOW_COINS
    ensures forall k :: 0 <= k < |ids| ==> ids[k] < n && InWindow(coins[ids[k]], since, source)
    ensures forall j, k :: 0 <= j < k < |ids| ==> ids[j] < ids[k]
  {
    if n == 0 then []
    else
      var ids := Window(coins, n - 1, since, source);
      if InWindow(coins[n - 1], since, source) && |ids| < MAX_WINDOW_COINS then ids + [n - 1] else ids
  }

  /** How many of the first n rows the query would take if it had no limit. */
  function Rank(coins: seq<Coin>, n: nat, since: int, source: string): nat
    requires n <= |coins|
  {
    if n == 0 then 0 else Rank(coins, n - 1, since, source) + if InWindow(coins[n - 1], since, source) then 1 else 0
  }

  lemma {:induction false} WindowLength(coins: seq<Coin>, n: nat, since: int, source: string)
    requires n <= |coins|
    ensures var rank := Rank(coins, n, since, source);
            |Window(coins, n, since, source)| == if rank < MAX_WINDOW_COINS then rank else MAX_WINDOW_COINS
  {
    if n > 0 {
      WindowLength(coins, n - 1, since, source);
    }
  }

  /** A coin is returned exactly when it is unprocessed, of the source and recent enough, and fewer than 200
      such coins come before it. */
  lemma {:induction false} WindowMembershipIff(coins: seq<Coin>, n: nat, since: int, source: string, i: nat)
    requires i < n <= |coins|
    ensures i in Window(coins, n, since, source) <==>
            InWindow(coins[i], since, source) && Rank(coins, i, since, source) < 200
  {
    if i < n - 1 {
      WindowMembershipIff(coins, n - 1, since, source, i);
    } else {
      WindowLength(coins, i, since, source);
    }
  }

  function Values(coins: seq<Coin>, ids: seq<nat>): seq<int>
    requires forall k :: 0 <= k < |ids| ==> ids[k] < |coins|
  {
    seq(|ids|, k requires 0 <= k < |ids| => coins[ids[k]].value)
  }

  // ---------- the purchase ----------

  datatype Engine = Engine(store: Store, coins: seq<Coin>, slot: Slot)

  /** What a Start brings along: the caller, the pricing table and the source of coins it reads. */
  datatype Order = Order(p: Purchase, banned: bool, target: Target, tiers: seq<Pricing.Tier>, source: string)

  function WindowOf(e: Engine, o: Order): seq<nat> {
    Window(e.coins, |e.coins|, Since(e.slot, e.store.now), o.source)
  }

  function WindowTotal(e: Engine, o: Order): int {
    Pricing.Sum(Values(e.coins, WindowOf(e, o)))
  }

  /** The caller's purchase with its amount, minutes and pause rules filled in from the window. */
  function Priced(p: Purchase, tiers: seq<Pricing.Tier>, total: int): Purchase {
    var m := Pricing.MinutesForAmount(tiers, total);
    p.(coins := total, minutes := Pricing.Credit(tiers, total), pausable := m.pausable, hours := m.hours)
  }

  function MarkProcessed(coins: seq<Coin>, ids: seq<nat>, session: nat): seq<Coin> {
    seq(|coins|, i requires 0 <= i < |coins| =>
      if i in ids then coins[i].(processed := true, session := Some(session)) else coins[i])
  }

  predicate OrderOk(e: Engine, o: Order) {
    TargetOk(e.store, o.p, o.target)
  }

  /** The transaction goes through: there is something to credit and creditSession commits. */
  predicate StartCommits(e: Engine, o: Order)
    requires OrderOk(e, o)
  {
    && Pricing.Credit(o.tiers, WindowTotal(e, o)) != 0
    && CreditCommits(e.store, Priced(o.p, o.tiers, WindowTotal(e, o)), o.banned, o.target)
  }

  /** The session a Start credits. */
  function SessionOf(e: Engine, o: Order): nat {
    if o.target.Insert? then e.store.nextId else o.target.id
  }

  /** Everything or nothing: the session is credited, its coins are marked and the armed window is closed,
      or none of it. */
  function Started(e: Engine, o: Order): Engine
    requires OrderOk(e, o)
  {
    if StartCommits(e, o) then
      Engine(Credited(e.store, Priced(o.p, o.tiers, WindowTotal(e, o)), o.banned, o.target),
             MarkProcessed(e.coins, WindowOf(e, o), SessionOf(e, o)), CLOSED)
    else e
  }

  // ---------- whole runs ----------

  const DEFAULT_ARM_DURATION: int := 60

  /** The seconds a window is opened for. */
  function ArmDuration(requested: int): (seconds: int)
    ensures 0 < seconds <= MAX_ARM_DURATION
  {
    if requested <= 0 then DEFAULT_ARM_DURATION
    else if requested > MAX_ARM_DURATION then MAX_ARM_DURATION else requested
  }

  /** What happens at the desk: a coin drops; the slot is armed, and the arm second could be noted or not;
      the coin listener puts off the end of the armed window; the slot is disarmed; a customer starts; or
      anything that happens to the sessions alone. */
  datatype Act =
    | Drop(value: int, source: string)
    | Arm(duration: int, noted: bool)
    | Keep(until: int)
    | Disarm
    | Start(o: Order)
    | Other(event: Event)

  predicate ActOk(e: Engine, a: Act) {
    match a
    case Start(o) => OrderOk(e, o)
    case Other(event) => Enabled(e.store, event)
    case _ => true
  }

  function Kept(slot: Slot, until: int): Slot {
    if slot.expires.Some? then slot.(expires := Some(Max(slot.expires.value, until))) else slot
  }

  function After(e: Engine, a: Act): Engine
    requires ActOk(e, a)
  {
    match a
    case Drop(value, source) =>
      if value <= 0 then e else e.(coins := e.coins + [Coin(value, e.store.now, source, false, None)])
    case Arm(duration, noted) =>
      var second := e.store.now / TICK;
      e.(slot := Slot(Some(second + ArmDuration(duration)), if noted then Some(second) else e.slot.armedAt))
    case Keep(until) => e.(slot := Kept(e.slot, until))
    case Disarm => e.(slot := CLOSED)
    case Start(o) => Started(e, o)
    case Other(event) => e.(store := Step(e.store, event))
  }

  predicate ActsOk(e: Engine, run: seq<Act>)
    decreases |run|
  {
    run == [] || (ActOk(e, run[0]) && ActsOk(After(e, run[0]), run[1..]))
  }

  function Run(e: Engine, run: seq<Act>): Engine
    requires ActsOk(e, run)
    decreases |run|
  {
    if run == [] then e else Run(After(e, run[0]), run[1..])
  }

  /** The pesos credited by the committed Starts of a run. */
  function ValueCredited(e: Engine, run: seq<Act>): int
    requires ActsOk(e, run)
    decreases |run|
  {
    if run == [] then 0
    else
      (if run[0].Start? && StartCommits(e, run[0].o) then WindowTotal(e, run[0].o) else 0)
      + ValueCredited(After(e, run[0]), run[1..])
  }

  /** How many committed Starts of a run credited coin i. */
  function TimesCredited(e: Engine, run: seq<Act>, i: nat): nat
    requires ActsOk(e, run)
    decreases |run|
  {
    if run == [] then 0
    else
      (if run[0].Start? && StartCommits(e, run[0].o) && i in WindowOf(e, run[0].o) then 1 else 0)
      + TimesCredited(After(e, run[0]), run[1..], i)
  }

  predicate IsProcessed(coins: seq<Coin>, i: nat) {
    i < |coins| && coins[i].processed
  }

  function ProcessedValue(coins: seq<Coin>): int {
    if coins == [] then 0
    else
      var last := coins[|coins| - 1];
      ProcessedValue(coins[..|coins| - 1]) + if last.processed then last.value else 0
  }

  /** The first n rows decide which of them the whole query returns. */
  lemma {:induction false} WindowPrefix(coins: seq<Coin>, n: nat, m: nat, since: int, source: string)
    requires n <= m <= |coins|
    ensures var all := Window(coins, m, since, source); var part := Window(coins, n, since, source);
            forall i :: 0 <= i < n ==> (i in all <==> i in part)
    decreases m
  {
    if n < m {
      WindowPrefix(coins, n, m - 1, since, source);
    }
  }

  lemma WindowValueStep(coins: seq<Coin>, n: nat, since: int, source: string)
    requires 0 < n <= |coins|
    ensures var part := Window(coins, n, since, source); var shorter := Window(coins, n - 1, since, source);
            && Pricing.Sum(Values(coins, part))
               == Pricing.Sum(Values(coins, shorter)) + (if n - 1 in part then coins[n - 1].value else 0)
            && (n - 1 in part ==> !coins[n - 1].processed)
            && (n - 1 in part <==> InWindow(coins[n - 1], since, source) && |shorter| < MAX_WINDOW_COINS)
            && part == shorter + if n - 1 in part then [n - 1] else []
  {
    var part, shorter := Window(coins, n, since, source), Window(coins, n - 1, since, source);
    if part != shorter {
      assert part == shorter + [n - 1];
      assert Values(coins, part)[..|part| - 1] == Values(coins, shorter);
    }
  }

  lemma ProcessedValueStep(coins: seq<Coin>, n: nat)
    requires 0 < n <= |coins|
    ensures ProcessedValue(coins[..n])
            == ProcessedValue(coins[..n - 1]) + if coins[n - 1].processed then coins[n - 1].value else 0
  {
    assert coins[..n][..n - 1] == coins[..n - 1];
  }

  lemma MarkedCoin(coins: seq<Coin>, ids: seq<nat>, session: nat, i: nat)
    requires i < |coins|
    ensures var marked := MarkProcessed(coins, ids, session);
            && |marked| == |coins| && marked[i].value == coins[i].value
            && (marked[i].processed <==> coins[i].processed || i in ids)
  {
  }

  /** The query of unprocessedWindowCoins and the loop over its rows. */
  method ReadWindow(coins: seq<Coin>, since: int, source: string) returns (ids: seq<nat>, totalValue: int)
    ensures ids == Window(coins, |coins|, since, source)
    ensures totalValue == Pricing.Sum(Values(coins, ids))
  {
    ids, totalValue := [], 0;
    assert Values(coins, ids) == [];
    hide Window, Values, InWindow;
    for id := 0 to |coins|
      invariant ids == Window(coins, id, since, source)
      invariant totalValue == Pricing.Sum(Values(coins, ids))
    {
      WindowValueStep(coins, id + 1, since, source);
      if InWindow(coins[id], since, source) && |ids| < MAX_WINDOW_COINS {
        ids := ids + [id];
        totalValue := totalValue + coins[id].value;
      }
    }
  }

  lemma {:induction false} MarkingAddsTheWindow(coins: seq<Coin>, n: nat, since: int, source: string, session: nat)
    requires n <= |coins|
    ensures var ids := Window(coins, |coins|, since, source);
            ProcessedValue(MarkProcessed(coins, ids, session)[..n])
            == ProcessedValue(coins[..n]) + Pricing.Sum(Values(coins, Window(coins, n, since, source)))
  {
    var ids := Window(coins, |coins|, since, source);
    var marked := MarkProcessed(coins, ids, session);
    if n > 0 {
      hide Window, Values, InWindow, MarkProcessed, ProcessedValue;
      MarkingAddsTheWindow(coins, n - 1, since, source, session);
      WindowPrefix(coins, n, |coins|, since, source);
      WindowValueStep(coins, n, since, source);
      MarkedCoin(coins, ids, session, n - 1);
      ProcessedValueStep(coins, n);
      ProcessedValueStep(marked, n);
    }
  }

  lemma ProcessedValueOfDrop(coins: seq<Coin>, c: Coin)
    requires !c.processed
    ensures ProcessedValue(coins + [c]) == ProcessedValue(coins)
  {
    assert (coins + [c])[..|coins|] == coins;
  }

  lemma ActBalances(e: Engine, a: Act)
    requires ActOk(e, a)
    ensures ProcessedValue(After(e, a).coins)
            == ProcessedValue(e.coins) + if a.Start? && StartCommits(e, a.o) then WindowTotal(e, a.o) else 0
  {
    match a
    case Drop(value, source) => ProcessedValueOfDrop(e.coins, Coin(value, e.store.now, source, false, None));
    case Start(o) =>
      if StartCommits(e, o) {
        MarkingAddsTheWindow(e.coins, |e.coins|, Since(e.slot, e.store.now), o.source, SessionOf(e, o));
        assert e.coins[..|e.coins|] == e.coins;
        var marked := After(e, a).coins;
        assert marked[..|e.coins|] == marked;
      }
    case _ =>
  }

  /** Across drops, Starts, aborts and every other step: the value all Starts credited is exactly the
      value of the coins that became processed. */
  lemma {:induction false} CreditedValueIsProcessedValue(e: Engine, run: seq<Act>)
    requires ActsOk(e, run)
    ensures ProcessedValue(Run(e, run).coins) == ProcessedValue(e.coins) + ValueCredited(e, run)
    decreases |run|
  {
    if run != [] {
      ActBalances(e, run[0]);
      CreditedValueIsProcessedValue(After(e, run[0]), run[1..]);
    }
  }

  /** No coin is credited twice, and a coin is processed exactly when some Start credited it. */
  lemma {:induction false} EachCoinIsCreditedAtMostOnce(e: Engine, run: seq<Act>, i: nat)
    requires ActsOk(e, run) && (i < |e.coins| || !IsProcessed(e.coins, i))
    ensures TimesCredited(e, run, i) + (if IsProcessed(e.coins, i) then 1 else 0)
            == if IsProcessed(Run(e, run).coins, i) then 1 else 0
    decreases |run|
  {
    if run != [] {
      EachCoinIsCreditedAtMostOnce(After(e, run[0]), run[1..], i);
    }
  }

  /** One Start: if it fails nothing changes anywhere; if it commits, it marks for the credited session
      exactly its window, the first at most 200 coins, and leaves every other coin alone. */
  lemma StartIsAllOrNothing(e: Engine, o: Order)
    requires OrderOk(e, o)
    ensures var f := Started(e, o);
            if !StartCommits(e, o) then f == e
            else
              && SessionOf(e, o) in f.store.rows && f.slot == CLOSED
              && |f.coins| == |e.coins| && |WindowOf(e, o)| <= 200
              && forall i :: 0 <= i < |e.coins| ==>
                   if i in WindowOf(e, o) then !e.coins[i].processed && f.coins[i].processed
                                               && f.coins[i].session == Some(SessionOf(e, o))
                   else f.coins[i] == e.coins[i]
  {
  }

  // ---------- what a Start gives ----------

  /** A committed Start gives the caller the minutes of the greatest active tier not above the sum of the
      window, scaled and rounded down, and the pesos of the window: to the session found, or to a fresh one,
      which has the pause rules of that tier. */
  lemma StartPaysTheRate(e: Engine, o: Order, t: Pricing.Tier)
    requires OrderOk(e, o) && StartCommits(e, o) && Pricing.ValidTable(o.tiers)
    requires var sum := Pricing.Sum(Values(e.coins, WindowOf(e, o)));
             && t in o.tiers && t.active && t.coin <= sum
             && forall u <- o.tiers :: u.active && u.coin <= sum ==> u.coin <= t.coin
    ensures var sum := Pricing.Sum(Values(e.coins, WindowOf(e, o))); var minutes := sum * t.minutes / t.coin;
            var f := Started(e, o); var id := if o.target.Insert? then e.store.nextId else o.target.id;
            && id in f.store.rows
            && var q := f.store.rows[id];
               && q.status == Active && q.ip == o.p.ip
               && if o.target.Prolong? then
                    var r := e.store.rows[id];
                    && q.total == r.total + 60 * minutes && q.coins == r.coins + sum
                    && q.pausable == r.pausable && q.hours == r.hours
                  else
                    && q.total == 60 * minutes && q.coins == sum && q.mac == o.p.mac
                    && q.pausable == t.pausable && q.hours == t.hours
  {
    var sum := Pricing.Sum(Values(e.coins, WindowOf(e, o)));
    Pricing.CreditIsTheScaledGreatestTier(o.tiers, sum, t);
    hide WindowOf, Pricing.Credit, CreditCommits, Pricing.ValidTable, Credited;
    SessionLaws.CreditLaw(e.store, Priced(o.p, o.tiers, sum), o.banned, o.target);
  }

  /** A Start commits exactly when the window buys at least a minute and the credit is not refused; with no
      active tier at or below the sum of the window it never does. */
  lemma NothingToCredit(e: Engine, o: Order)
    requires OrderOk(e, o) && Pricing.ValidTable(o.tiers)
    requires forall t <- o.tiers :: t.active ==> Pricing.Sum(Values(e.coins, WindowOf(e, o))) < t.coin
    ensures !StartCommits(e, o)
  {
    Pricing.NothingEligibleNothingCredited(o.tiers, WindowTotal(e, o));
  }

  // ---------- the sessions of an engine run ----------

  predicate TiersValid(run: seq<Act>) {
    forall i :: 0 <= i < |run| && run[i].Start? ==> Pricing.ValidTable(run[i].o.tiers)
  }

  function EventOf(e: Engine, a: Act): seq<Event>
    requires ActOk(e, a)
  {
    match a
    case Start(o) =>
      if StartCommits(e, o) then [Credit(Priced(o.p, o.tiers, WindowTotal(e, o)), o.banned, o.target)] else []
    case Other(event) => [event]
    case _ => []
  }

  function EventsOf(e: Engine, run: seq<Act>): seq<Event>
    requires ActsOk(e, run)
    decreases |run|
  {
    if run == [] then [] else EventOf(e, run[0]) + EventsOf(After(e, run[0]), run[1..])
  }

  lemma ActIsAtMostOneEvent(e: Engine, a: Act)
    requires ActOk(e, a) && (a.Start? ==> Pricing.ValidTable(a.o.tiers))
    ensures var es := EventOf(e, a);
            if es == [] then After(e, a).store == e.store
            else |es| == 1 && Enabled(e.store, es[0]) && Step(e.store, es[0]) == After(e, a).store
  {
    if a.Start? {
      Pricing.CreditIsNonNegative(a.o.tiers, WindowTotal(e, a.o));
    }
  }

  /** The sessions of a payment run are the result of a run of session events, so what is proved of
      every session run holds while coins are dropped and bought with. */
  lemma {:induction false} SessionsOfAnEngineRun(e: Engine, run: seq<Act>)
    requires ActsOk(e, run) && TiersValid(run)
    ensures ValidRun(e.store, EventsOf(e, run)) && Exec(e.store, EventsOf(e, run)) == Run(e, run).store
    decreases |run|
  {
    if run != [] {
      hide Step, StartCommits, After;
      ActIsAtMostOneEvent(e, run[0]);
      var next, es := After(e, run[0]), EventOf(e, run[0]);
      SessionsOfAnEngineRun(next, run[1..]);
      var all := EventsOf(e, run);
      if es == [] {
        assert all == EventsOf(next, run[1..]);
      } else {
        assert all[0] == es[0] && all[1..] == EventsOf(next, run[1..]);
      }
    }
  }
}
