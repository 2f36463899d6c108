/** The time for which one device, known by its MAC, is let through: on whose rows it ran, how far past
    their expiry, and how long without any. */
module DeviceLedger {
  import opened Options
  import opened Clock
  import opened Sessions
  import opened SessionAccess
  import opened SessionLedger
  import opened AccessLedger

  /** In clock units: how long the MAC was authorised; how long a row that carried it ran on past its
      expiry; how long it was authorised while no running row carried it; and for each row how long it
      served the device. */
  datatype Device = Device(access: int, overran: int, stray: int, served: map<nat, int>)

  const UNSEEN := Device(0, 0, 0, map[])

  predicate Carries(s: Store, id: nat, mac: string) {
    id in s.rows && Running(s.rows[id]) && s.rows[id].mac == mac
  }

  /** The MAC is let through without a running row that carries it. */
  ghost predicate Stray(s: Store, mac: string) {
    mac in s.auth && forall id <- s.rows :: !Carries(s, id, mac)
  }

  function ServedBy(served: map<nat, int>, id: nat): int {
    if id in served then served[id] else 0
  }

  /** The running row that carries the MAC: there is at most one. */
  ghost function Carrier(s: Store, mac: string): (id: Option<nat>)
    ensures id.Some? ==> Carries(s, id.value, mac)
    ensures id.None? ==> forall x <- s.rows :: !Carries(s, x, mac)
  {
    if x :| Carries(s, x, mac) then Some(x) else None
  }

  /** Time passes for the device. */
  ghost function Waited(s: Store, v: Device, mac: string, d: nat): Device {
    var open := if mac in s.auth then d else 0;
    match Carrier(s, mac)
    case None => v.(access := v.access + open, stray := v.stray + open)
    case Some(id) =>
      var live := LiveIn(s.rows[id], s.now, d);
      Device(v.access + open, v.overran + d - live, v.stray, v.served[id := ServedBy(v.served, id) + live])
  }

  ghost function DeviceAfter(s: Store, v: Device, e: Event, mac: string): Device {
    if e.Tick? then Waited(s, v, mac, e.d) else v
  }

  ghost function Follow(w: World, v: Device, es: seq<Event>, mac: string): Device
    requires WorldOk(w) && ValidRun(w.store, es)
    decreases |es|
  {
    if es == [] then v
    else
      NextIsOk(w, es[0]);
      Follow(Next(w, es[0]), DeviceAfter(w.store, v, es[0], mac), es[1..], mac)
  }

  /** What the first n rows served. */
  function Total(served: map<nat, int>, n: nat): int {
    if n == 0 then 0 else Total(served, n - 1) + ServedBy(served, n - 1)
  }

  lemma {:induction false} TotalAfter(served: map<nat, int>, id: nat, more: int, n: nat)
    ensures Total(served[id := ServedBy(served, id) + more], n) == Total(served, n) + if id < n then more else 0
  {
    if n > 0 {
      TotalAfter(served, id, more, n - 1);
    }
  }

  lemma {:induction false} TotalOfMoreRows(served: map<nat, int>, n: nat, more: nat)
    requires n <= more && forall id <- served :: id < n
    ensures Total(served, more) == Total(served, n)
    decreases more
  {
    if n < more {
      TotalOfMoreRows(served, n, more - 1);
    }
  }

  /** All access is service, overrun or stray, and no row served the device longer than it served at all. */
  ghost predicate DeviceOk(w: World, v: Device) {
    && 0 <= v.overran && 0 <= v.stray
    && v.access == Total(v.served, w.store.nextId) + v.overran + v.stray
    && w.accounts.Keys == w.store.rows.Keys
    && forall id <- v.served ::
         id < w.store.nextId && id in w.accounts && 0 <= v.served[id] <= w.accounts[id].life.served
  }

  lemma WaitingAddsUp(w: World, v: Device, mac: string, d: nat)
    requires WorldOk(w) && NobodyShutOut(w.store) && mac != "" && DeviceOk(w, v)
    ensures var u := Waited(w.store, v, mac, d);
            && 0 <= u.overran && 0 <= u.stray
            && u.access == Total(u.served, w.store.nextId) + u.overran + u.stray
  {
    var s, carrier := w.store, Carrier(w.store, mac);
    if carrier.Some? {
      var live := LiveIn(s.rows[carrier.value], s.now, d);
      assert 0 <= live <= d && mac in s.auth;
      hide LiveIn, NobodyShutOut, TableOk, Carries;
      TotalAfter(v.served, carrier.value, live, s.nextId);
      assert carrier.value < s.nextId by {
        RowIdsAreGivenOut(s, {carrier.value});
      }
    }
  }

  lemma LifeServedGrows(w: World, e: Event, id: nat)
    requires WorldOk(w) && AllBalanced(w) && Enabled(w.store, e) && id in w.store.rows
    ensures id in Next(w, e).accounts
    ensures Next(w, e).accounts[id].life.served >=
            w.accounts[id].life.served + if e.Tick? then LiveIn(w.store.rows[id], w.store.now, e.d) else 0
  {
    hide Step, StartsAfresh, Posting, TableOk, Balanced, LiveIn, Enabled;
    StepKeepsRow(w.store, e, id);
    if StartsAfresh(w.store, e, id) {
      OnlyForfeitsWhenRenewed(w.store, e, id);
      FreshStartsArePayments(w.store, e, id);
    } else {
      BalancedPause(w.store.rows[id], w.accounts[id], w.store.now);
      ServedGrows(w.store, e, id);
    }
  }

  lemma FreshStartsArePayments(s: Store, e: Event, id: nat)
    requires Enabled(s, e) && StartsAfresh(s, e, id)
    ensures e.Credit?
  {
  }

  lemma IdsGrow(s: Store, e: Event)
    requires Enabled(s, e)
    ensures s.nextId <= Step(s, e).nextId && (e.Tick? ==> Step(s, e).nextId == s.nextId)
  {
  }

  /** In a step each row serves the device at most as long as it serves. */
  lemma ServedStepwise(s: Store, v: Device, e: Event, mac: string, id: nat)
    requires id in DeviceAfter(s, v, e, mac).served
    ensures id in v.served || id in s.rows
    ensures ServedBy(v.served, id) <= DeviceAfter(s, v, e, mac).served[id]
    ensures DeviceAfter(s, v, e, mac).served[id] <=
            ServedBy(v.served, id) + if e.Tick? && id in s.rows then LiveIn(s.rows[id], s.now, e.d) else 0
  {
  }

  lemma RowStaysWithin(w: World, v: Device, e: Event, mac: string, id: nat)
    requires WorldOk(w) && AllBalanced(w) && Enabled(w.store, e) && DeviceOk(w, v)
    requires id in DeviceAfter(w.store, v, e, mac).served
    ensures id in w.store.rows && id in Next(w, e).accounts
    ensures 0 <= DeviceAfter(w.store, v, e, mac).served[id] <= Next(w, e).accounts[id].life.served
  {
    ServedStepwise(w.store, v, e, mac, id);
    assert id in w.store.rows;
    LifeServedGrows(w, e, id);
    ServedIsNotNegative(w, id);
    hide DeviceAfter, Next, AllBalanced, LiveIn, Enabled, TableOk;
  }

  lemma ServedIsNotNegative(w: World, id: nat)
    requires AllBalanced(w) && id in w.store.rows
    ensures 0 <= w.accounts[id].life.served
  {
  }

  lemma StepAddsUp(w: World, v: Device, e: Event, mac: string)
    requires WorldOk(w) && Enabled(w.store, e) && NobodyShutOut(w.store) && mac != "" && DeviceOk(w, v)
    ensures var u := DeviceAfter(w.store, v, e, mac);
            && 0 <= u.overran && 0 <= u.stray
            && u.access == Total(u.served, w.store.nextId) + u.overran + u.stray
  {
    if e.Tick? {
      WaitingAddsUp(w, v, mac, e.d);
    }
  }

  lemma StepKeepsDevice(w: World, v: Device, e: Event, mac: string)
    requires WorldOk(w) && AllBalanced(w) && Enabled(w.store, e) && NobodyShutOut(w.store)
    requires mac != "" && DeviceOk(w, v)
    ensures DeviceOk(Next(w, e), DeviceAfter(w.store, v, e, mac))
  {
    var s, u, next := w.store, DeviceAfter(w.store, v, e, mac), Next(w, e);
    IdsGrow(s, e);
    NextIsOk(w, e);
    StepAddsUp(w, v, e, mac);
    assert s.nextId <= next.store.nextId;
    hide DeviceAfter, Next, AllBalanced, Enabled, NobodyShutOut, DeviceOk;
    forall id <- u.served
      ensures id in s.rows && id in next.accounts && 0 <= u.served[id] <= next.accounts[id].life.served
    {
      RowStaysWithin(w, v, e, mac, id);
    }
    RowIdsAreGivenOut(s, u.served.Keys);
    hide TableOk;
    DeviceIsOk(next, u, s.nextId);
  }

  lemma DeviceIsOk(w: World, v: Device, n: nat)
    requires n <= w.store.nextId && w.accounts.Keys == w.store.rows.Keys
    requires 0 <= v.overran && 0 <= v.stray && v.access == Total(v.served, n) + v.overran + v.stray
    requires forall id <- v.served :: id < n && id in w.accounts && 0 <= v.served[id] <= w.accounts[id].life.served
    ensures DeviceOk(w, v)
  {
    TotalOfMoreRows(v.served, n, w.store.nextId);
  }

  lemma RowIdsAreGivenOut(s: Store, ids: set<nat>)
    requires TableOk(s) && ids <= s.rows.Keys
    ensures forall id <- ids :: id < s.nextId
  {
  }

  lemma {:induction false} RunKeepsDevice(w: World, v: Device, es: seq<Event>, mac: string)
    requires WorldOk(w) && AllBalanced(w) && NobodyShutOut(w.store) && ValidRun(w.store, es)
    requires mac != "" && DeviceOk(w, v)
    ensures DeviceOk(Replay(w, es), Follow(w, v, es, mac))
    decreases |es|
  {
    if es != [] {
      var e := es[0];
      NextIsOk(w, e);
      StepKeepsBalance(w, e);
      StepShutsNobodyOut(w.store, e);
      StepKeepsDevice(w, v, e, mac);
      hide DeviceOk, DeviceAfter, AllBalanced, NobodyShutOut, TableOk, Enabled;
      RunKeepsDevice(Next(w, e), DeviceAfter(w.store, v, e, mac), es[1..], mac);
    }
  }

  /** What was paid, over all their purchases, on those of the first n rows that served the device. */
  ghost function PaidOn(accounts: map<nat, Account>, served: map<nat, int>, n: nat): int {
    if n == 0 then 0
    else
      PaidOn(accounts, served, n - 1)
      + if n - 1 in served && n - 1 in accounts then accounts[n - 1].life.paid else 0
  }

  lemma {:induction false} ServiceIsPaid(w: World, v: Device, n: nat)
    requires AllBalanced(w) && DeviceOk(w, v)
    ensures Total(v.served, n) <= PaidOn(w.accounts, v.served, n)
    decreases n
  {
    if n > 0 {
      ServiceIsPaid(w, v, n - 1);
      if n - 1 in v.served {
        ServedWithinPaid(w, n - 1);
      }
    }
  }

  lemma ServedWithinPaid(w: World, id: nat)
    requires AllBalanced(w) && id in w.store.rows
    ensures w.accounts[id].life.served <= w.accounts[id].life.paid
  {
    assert Balanced(w.store.rows[id], w.accounts[id], w.store.now);
    assert 0 <= Owed(w.store.rows[id], w.store.now);
  }

  lemma MatchingHasNoStray(s: Store, v: Device, e: Event, mac: string)
    requires AccessMatches(s) && mac != ""
    ensures DeviceAfter(s, v, e, mac).stray == v.stray
  {
    if mac in s.auth {
      var id :| id in s.rows && s.rows[id].status.Active? && s.rows[id].pause.None? && s.rows[id].mac == mac;
      assert Carries(s, id, mac);
    }
  }

  lemma {:induction false} OrderlyRunHasNoStray(w: World, v: Device, es: seq<Event>, mac: string)
    requires WorldOk(w) && ValidRun(w.store, es) && mac != ""
    requires AccessMatches(w.store) && OrderlyRun(w.store, es)
    ensures Follow(w, v, es, mac).stray == v.stray
    decreases |es|
  {
    if es != [] {
      NextIsOk(w, es[0]);
      StepAccess(w.store, es[0]);
      MatchingHasNoStray(w.store, v, es[0], mac);
      hide DeviceAfter, AccessMatches, Misauthorises, TableOk, Enabled;
      OrderlyRunHasNoStray(Next(w, es[0]), DeviceAfter(w.store, v, es[0], mac), es[1..], mac);
    }
  }

  lemma StartIsOk()
    ensures WorldOk(START) && AllBalanced(START) && NobodyShutOut(EMPTY) && DeviceOk(START, UNSEEN)
  {
  }

  lemma DeviceIsOkAfter(es: seq<Event>, mac: string)
    requires ValidRun(EMPTY, es) && mac != ""
    ensures AllBalanced(Replay(START, es)) && DeviceOk(Replay(START, es), Follow(START, UNSEEN, es, mac))
  {
    StartIsOk();
    hide AllBalanced, DeviceOk, NobodyShutOut, TableOk, Follow, Replay;
    AccountBalancesOverRuns(START, es);
    RunKeepsDevice(START, UNSEEN, es, mac);
  }

  lemma DeviceFacts(w: World, v: Device)
    requires AllBalanced(w) && DeviceOk(w, v)
    ensures v.access == Total(v.served, w.store.nextId) + v.overran + v.stray && 0 <= v.overran && 0 <= v.stray
    ensures Total(v.served, w.store.nextId) <= PaidOn(w.accounts, v.served, w.store.nextId)
    ensures forall id <- v.served :: id in w.accounts && v.served[id] <= w.accounts[id].life.served
  {
    ServiceIsPaid(w, v, w.store.nextId);
  }

  /** In every run, whatever rows a device has had and lost: the time it was let through is exactly what its
      rows served it, plus the time they ran on past their expiry, plus the time no running row carried it.
      What they served it was paid for on those rows, and an orderly run has no stray time. */
  lemma DeviceAccessIsPaidFor(es: seq<Event>, mac: string)
    requires ValidRun(EMPTY, es) && mac != ""
    ensures var w := Replay(START, es); var v := Follow(START, UNSEEN, es, mac); var n := w.store.nextId;
            && v.access == Total(v.served, n) + v.overran + v.stray
            && Total(v.served, n) <= PaidOn(w.accounts, v.served, n)
            && (forall id <- v.served :: id in w.accounts && v.served[id] <= w.accounts[id].life.served)
            && 0 <= v.overran && 0 <= v.stray
            && (OrderlyRun(EMPTY, es) ==> v.stray == 0)
  {
    DeviceIsOkAfter(es, mac);
    hide AllBalanced, DeviceOk, Misauthorises, Follow, Replay, TableOk, Total, PaidOn;
    DeviceFacts(Replay(START, es), Follow(START, UNSEEN, es, mac));
    if OrderlyRun(EMPTY, es) {
      OrderlyRunHasNoStray(START, UNSEEN, es, mac);
    }
  }

  // ---------- exactly when a device strays, and for how long ----------

  lemma NoEmptyMac(s: Store, e: Event)
    requires TableOk(s) && Enabled(s, e) && "" !in s.auth
    ensures "" !in Step(s, e).auth
  {
    if e.Restart? || e.Reboot? {
      RecoveryAuthorisesExactlyTheLive(if e.Reboot? then s.(now := s.now + e.down, auth := {}) else s);
    }
  }

  /** From a state in which access matches, a step leaves some device let through without a running row if
      and only if the step misauthorises somebody. */
  lemma StepStraysIff(s: Store, e: Event)
    requires TableOk(s) && AccessMatches(s) && Enabled(s, e)
    ensures (exists mac :: Stray(Step(s, e), mac)) <==> Misauthorises(s, e)
  {
    var t := Step(s, e);
    StepAccess(s, e);
    NoEmptyMac(s, e);
    StepShutsNobodyOut(s, e);
    hide Step, Enabled, TableOk, Misauthorises;
    if !AccessMatches(t) {
      assert EntitledMacs(t) <= t.auth;
      var mac :| mac in t.auth && mac !in EntitledMacs(t);
      assert Stray(t, mac);
    }
  }

  /** The event may authorise this MAC, or empties the rule set. */
  predicate Names(e: Event, mac: string) {
    e.Reboot? || (e.Credit? && e.p.mac == mac) || (e.Migrate? && e.mac == mac)
  }

  /** Let through, and no row carries it, running or not. */
  predicate Adrift(s: Store, mac: string) {
    mac in s.auth && forall id <- s.rows :: s.rows[id].mac != mac
  }

  lemma CreditLeavesAdrift(s: Store, e: Event, mac: string)
    requires Enabled(s, e) && Adrift(s, mac) && e.Credit? && e.p.mac != mac
    ensures Adrift(Step(s, e), mac)
  {
    hide CreditCommits;
  }

  lemma EndsLeaveAdrift(s: Store, e: Event, mac: string)
    requires Adrift(s, mac) && (e.End? || e.Tick? || e.ExpirePass? || e.PausedPass?)
    ensures Adrift(Step(s, e), mac)
  {
  }

  lemma OneRowLeavesAdrift(s: Store, e: Event, mac: string)
    requires Adrift(s, mac) && (e.Extend? || e.Pause? || e.Resume?)
    ensures Adrift(Step(s, e), mac)
  {
  }

  lemma StepLeavesAdrift(s: Store, e: Event, mac: string)
    requires TableOk(s) && Enabled(s, e) && Adrift(s, mac) && !Names(e, mac)
    ensures Adrift(Step(s, e), mac)
  {
    match e
    case Migrate(id, ip, m) => MigrationMovesOrAborts(s, id, ip, m);
    case Restart => RecoveryAuthorisesExactlyTheLive(s);
    case Credit(_, _, _) => CreditLeavesAdrift(s, e, mac);
    case Extend(_, _, _) => OneRowLeavesAdrift(s, e, mac);
    case Pause(_, _) => OneRowLeavesAdrift(s, e, mac);
    case Resume(_) => OneRowLeavesAdrift(s, e, mac);
    case _ => EndsLeaveAdrift(s, e, mac);
  }

  /** A device adrift is let through for the rest of the run, through every end, pause and pass: only a
      reboot, or its own next payment or migration, changes that. All of this time is stray. */
  lemma {:induction false} AdriftForGood(w: World, v: Device, es: seq<Event>, mac: string)
    requires WorldOk(w) && ValidRun(w.store, es) && Adrift(w.store, mac) && forall e <- es :: !Names(e, mac)
    ensures Adrift(Exec(w.store, es), mac)
    ensures var u := Follow(w, v, es, mac); var d := Exec(w.store, es).now - w.store.now;
            u.stray == v.stray + d && u.access == v.access + d && u.served == v.served && u.overran == v.overran
    decreases |es|
  {
    if es != [] {
      var e := es[0];
      NextIsOk(w, e);
      StepLeavesAdrift(w.store, e, mac);
      ClockUnlessReboot(w.store, e);
      assert forall id <- w.store.rows :: !Carries(w.store, id, mac);
      hide Step, Adrift, TableOk, Enabled;
      AdriftForGood(Next(w, e), DeviceAfter(w.store, v, e, mac), es[1..], mac);
    }
  }

  lemma ClockUnlessReboot(s: Store, e: Event)
    requires Enabled(s, e) && !e.Reboot?
    ensures Step(s, e).now == s.now + if e.Tick? then e.d else 0
  {
  }

  /** The device whose row OldMacRun gives to another one is adrift. */
  lemma OldMacIsAdrift()
    ensures var e := Credit(Payment("10.0.0.2", "bb", "t2"), false, Prolong(0));
            Enabled(OneLive(), e) && Adrift(Step(OneLive(), e), "aa") && Step(OneLive(), e).rows.Keys == {0}
  {
    NewcomerTakesTheRow();
    var t := Step(OneLive(), Credit(Payment("10.0.0.2", "bb", "t2"), false, Prolong(0)));
    assert OneLive().rows[0].mac == "aa";
    assert t.rows.Keys == {0} && t.rows[0].mac == "bb";
  }

  lemma NobodyIsEntitled(s: Store, e: Event)
    requires (forall id <- s.rows :: !s.rows[id].status.Active?) && (e.Tick? || e.ExpirePass? || e.PausedPass?)
    ensures forall id <- Step(s, e).rows :: !Step(s, e).rows[id].status.Active?
  {
  }

  /** Its row is ended, and any time goes by: nobody has a session, and the device is still let through. */
  lemma OldMacDriftsOn(d: nat)
    ensures var s := Step(OneLive(), Credit(Payment("10.0.0.2", "bb", "t2"), false, Prolong(0)));
            var es := [End(0, false)] + ([Tick(d)] + ([ExpirePass] + [PausedPass]));
            && ValidRun(s, es) && Exec(s, es).now == s.now + d
            && "aa" in Exec(s, es).auth && EntitledMacs(Exec(s, es)) == {}
  {
    var s := Step(OneLive(), Credit(Payment("10.0.0.2", "bb", "t2"), false, Prolong(0)));
    OldMacIsAdrift();
    hide OneLive;
    DriftsOn(s, d);
  }

  lemma DriftsOn(s: Store, d: nat)
    requires Adrift(s, "aa") && s.rows.Keys == {0}
    ensures var es := [End(0, false)] + ([Tick(d)] + ([ExpirePass] + [PausedPass]));
            && ValidRun(s, es) && Exec(s, es).now == s.now + d
            && "aa" in Exec(s, es).auth && EntitledMacs(Exec(s, es)) == {}
  {
    var s1 := Step(s, End(0, false));
    var s2, s3 := Step(s1, Tick(d)), Step(Step(s1, Tick(d)), ExpirePass);
    assert s1.rows.Keys == {0} && !s1.rows[0].status.Active?;
    assert s3.now == s.now + d && Step(s3, PausedPass).now == s3.now;
    EndsLeaveAdrift(s, End(0, false), "aa");
    EndsLeaveAdrift(s1, Tick(d), "aa");
    EndsLeaveAdrift(s2, ExpirePass, "aa");
    EndsLeaveAdrift(s3, PausedPass, "aa");
    NobodyIsEntitled(s1, Tick(d));
    NobodyIsEntitled(s2, ExpirePass);
    NobodyIsEntitled(s3, PausedPass);
    hide Step, Adrift;
    FirstStep(s3, PausedPass, []);
    assert [PausedPass] + [] == [PausedPass];
    FirstStep(s2, ExpirePass, [PausedPass]);
    FirstStep(s1, Tick(d), [ExpirePass] + [PausedPass]);
    FirstStep(s, End(0, false), [Tick(d)] + ([ExpirePass] + [PausedPass]));
    assert "aa" in Step(s3, PausedPass).auth by {
      AdriftIsLetThrough(Step(s3, PausedPass), "aa");
    }
  }

  lemma AdriftIsLetThrough(s: Store, mac: string)
    requires Adrift(s, mac)
    ensures mac in s.auth
  {
  }
}
