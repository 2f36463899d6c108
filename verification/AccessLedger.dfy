/** The time for which the MAC of a row is let through, metered against what the row was paid. Devices that
    have lost their rows are on the meters of module DeviceLedger. */
module AccessLedger {
  import opened Options
  import opened Clock
  import opened Sessions
  import opened SessionAccess
  import opened SessionLedger

  /** For the current purchase of a row, in clock units: how long its MAC was authorised; how long the
      row ran on past its expiry; how long its MAC was authorised although the row was not running; and
      how often the administrator extended it when it was already overdue. */
  datatype Meter = Meter(access: int, overran: int, unbacked: int, lapses: nat)

  const ZERO := Meter(0, 0, 0, 0)

  datatype Metered = Metered(world: World, meters: map<nat, Meter>)

  predicate Authorised(s: Store, id: nat)
    requires id in s.rows
  {
    s.rows[id].mac != "" && s.rows[id].mac in s.auth
  }

  /** The device of this row is let through although the row is not running. */
  predicate Unbacked(s: Store, id: nat)
    requires id in s.rows
  {
    Authorised(s, id) && !Running(s.rows[id])
  }

  function MeterAfter(s: Store, m: Meter, e: Event, id: nat): Meter
    requires id in s.rows
  {
    var r := s.rows[id];
    match e
    case Tick(d) =>
      m.(access := m.access + if Authorised(s, id) then d else 0,
         overran := m.overran + if Running(r) then d - LiveIn(r, s.now, d) else 0,
         unbacked := m.unbacked + if Unbacked(s, id) then d else 0)
    case Extend(x, seconds, _) =>
      m.(lapses := m.lapses + if x == id && seconds > 0 && Overdue(r, s.now) then 1 else 0)
    case _ => m
  }

  ghost predicate MeteredOk(v: Metered) {
    WorldOk(v.world) && AllBalanced(v.world) && v.meters.Keys == v.world.store.rows.Keys
  }

  ghost function Follow(v: Metered, e: Event): Metered
    requires MeteredOk(v) && Enabled(v.world.store, e)
  {
    var s := v.world.store;
    Metered(Next(v.world, e),
            map id | id in Step(s, e).rows ::
              if id in s.rows && !StartsAfresh(s, e, id) then MeterAfter(s, v.meters[id], e, id) else ZERO)
  }

  lemma FollowIsOk(v: Metered, e: Event)
    requires MeteredOk(v) && Enabled(v.world.store, e)
    ensures MeteredOk(Follow(v, e))
  {
    NextIsOk(v.world, e);
    StepKeepsBalance(v.world, e);
  }

  ghost function Meters(v: Metered, es: seq<Event>): (r: Metered)
    requires MeteredOk(v) && ValidRun(v.world.store, es)
    ensures MeteredOk(r) && r.world == Replay(v.world, es)
    decreases |es|
  {
    if es == [] then v
    else
      FollowIsOk(v, es[0]);
      Meters(Follow(v, es[0]), es[1..])
  }

  // ---------- access is service, overrun or unbacked ----------

  predicate Bounded(m: Meter, served: int) {
    0 <= m.overran && 0 <= m.unbacked && m.access <= served + m.overran + m.unbacked
  }

  ghost predicate AllBounded(v: Metered)
    requires MeteredOk(v)
  {
    forall id <- v.meters :: Bounded(v.meters[id], v.world.accounts[id].current.served)
  }

  lemma ServedGrows(s: Store, e: Event, id: nat)
    requires TableOk(s) && Enabled(s, e) && id in s.rows && PauseOk(s.rows[id]) && !StartsAfresh(s, e, id)
    ensures Posting(s, e, id).served >= if e.Tick? then LiveIn(s.rows[id], s.now, e.d) else 0
  {
    hide Step, StartsAfresh, LiveIn, Posting, TableOk;
    if e.Tick? {
      OnlyPassage(s, e, id);
    } else {
      StepExplained(s, e, id);
    }
  }

  lemma MeterStaysBounded(s: Store, m: Meter, e: Event, id: nat, served: int, later: int)
    requires id in s.rows && Bounded(m, served)
    requires later >= served + if e.Tick? then LiveIn(s.rows[id], s.now, e.d) else 0
    ensures Bounded(MeterAfter(s, m, e, id), later)
  {
  }

  lemma ServedAfter(w: World, e: Event, id: nat)
    requires WorldOk(w) && Enabled(w.store, e) && id in Step(w.store, e).rows
    ensures AccountAfter(w, e, id).current.served ==
            if id in w.store.rows && !StartsAfresh(w.store, e, id)
            then w.accounts[id].current.served + Posting(w.store, e, id).served else 0
  {
    hide Step, StartsAfresh, Posting, TableOk, Enabled;
  }

  lemma RowStaysBounded(v: Metered, e: Event, id: nat)
    requires MeteredOk(v) && Enabled(v.world.store, e) && AllBounded(v)
    requires id in v.world.store.rows && !StartsAfresh(v.world.store, e, id) && id in Step(v.world.store, e).rows
    ensures Bounded(MeterAfter(v.world.store, v.meters[id], e, id), AccountAfter(v.world, e, id).current.served)
  {
    hide Step, StartsAfresh, Posting, TableOk, Balanced, Bounded, Enabled, MeterAfter, AccountAfter;
    var s := v.world.store;
    BalancedPause(s.rows[id], v.world.accounts[id], s.now);
    ServedGrows(s, e, id);
    ServedAfter(v.world, e, id);
    MeterStaysBounded(s, v.meters[id], e, id, v.world.accounts[id].current.served,
                      AccountAfter(v.world, e, id).current.served);
  }

  lemma StepStaysBounded(v: Metered, e: Event)
    requires MeteredOk(v) && Enabled(v.world.store, e) && AllBounded(v)
    ensures MeteredOk(Follow(v, e)) && AllBounded(Follow(v, e))
  {
    FollowIsOk(v, e);
    var s, u := v.world.store, Follow(v, e);
    hide Step, StartsAfresh, TableOk, AllBalanced, AllBounded, Bounded, Enabled, MeterAfter, AccountAfter;
    forall id <- u.meters
      ensures Bounded(u.meters[id], u.world.accounts[id].current.served)
    {
      if id in s.rows && !StartsAfresh(s, e, id) {
        RowStaysBounded(v, e, id);
      } else {
        ServedAfter(v.world, e, id);
        FreshMeter();
      }
    }
    BoundedEverywhere(u);
  }

  lemma BoundedEverywhere(u: Metered)
    requires MeteredOk(u) && forall id <- u.meters :: Bounded(u.meters[id], u.world.accounts[id].current.served)
    ensures AllBounded(u)
  {
  }

  lemma FreshMeter()
    ensures Bounded(ZERO, 0)
  {
  }

  lemma {:induction false} RunStaysBounded(v: Metered, es: seq<Event>)
    requires MeteredOk(v) && ValidRun(v.world.store, es) && AllBounded(v)
    ensures AllBounded(Meters(v, es))
    decreases |es|
  {
    if es != [] {
      StepStaysBounded(v, es[0]);
      RunStaysBounded(Follow(v, es[0]), es[1..]);
    }
  }

  // ---------- orderly runs leave nothing unbacked ----------

  lemma MatchingIsBacked(s: Store, id: nat)
    requires MacIndexOk(s.rows) && AccessMatches(s) && id in s.rows
    ensures !Unbacked(s, id)
  {
  }

  ghost predicate NothingUnbacked(v: Metered) {
    forall id <- v.meters :: v.meters[id].unbacked == 0
  }

  lemma {:induction false} OrderlyRunIsBacked(v: Metered, es: seq<Event>)
    requires MeteredOk(v) && ValidRun(v.world.store, es) && NothingUnbacked(v)
    requires AccessMatches(v.world.store) && OrderlyRun(v.world.store, es)
    ensures NothingUnbacked(Meters(v, es))
    decreases |es|
  {
    if es != [] {
      var s, e := v.world.store, es[0];
      FollowIsOk(v, e);
      StepAccess(s, e);
      forall id | id in s.rows
        ensures !Unbacked(s, id)
      {
        MatchingIsBacked(s, id);
      }
      assert NothingUnbacked(Follow(v, e)) by {
        hide Step, StartsAfresh, Enabled, TableOk, AccessMatches, AllBalanced, Unbacked;
      }
      OrderlyRunIsBacked(Follow(v, e), es[1..]);
    }
  }

  // ---------- the ticker bounds the overrun ----------

  /** How long the row has been running past its expiry. */
  function Overstay(r: Row, now: int): int {
    if Running(r) then Max(0, now - r.expiresAt) else 0
  }

  predicate OverrunOk(r: Row, m: Meter, now: int) {
    if r.status.Active? then m.overran <= m.lapses * PERIOD + Overstay(r, now) else m.overran <= (m.lapses + 1) * PERIOD
  }

  /** A step lets the overrun grow only with the overstay, unless it extends an overdue row or ends one. */
  ghost predicate Contained(s: Store, m: Meter, e: Event, id: nat)
    requires Enabled(s, e) && id in s.rows && id in Step(s, e).rows
  {
    var r, q, n := s.rows[id], Step(s, e).rows[id], MeterAfter(s, m, e, id);
    && m.lapses <= n.lapses <= m.lapses + 1
    && if q.status.Active? then
         && r.status.Active?
         && n.overran - m.overran + Overstay(r, s.now)
            <= Overstay(q, Step(s, e).now) + if n.lapses > m.lapses then PERIOD else 0
       else n.overran == m.overran
  }

  lemma TimeIsContained(s: Store, m: Meter, e: Event, id: nat)
    requires id in s.rows && (e.Tick? || e.ExpirePass? || e.PausedPass?)
    ensures id in Step(s, e).rows && Contained(s, m, e, id)
  {
  }

  lemma RecoveryIsContained(s: Store, m: Meter, e: Event, id: nat)
    requires id in s.rows && (e.Restart? || e.Reboot?)
    ensures id in Step(s, e).rows && Contained(s, m, e, id)
  {
  }

  lemma OneRowIsContained(s: Store, m: Meter, e: Event, id: nat)
    requires id in s.rows && PauseOk(s.rows[id]) && Overstay(s.rows[id], s.now) <= PERIOD
    requires e.Extend? || e.End? || e.Pause? || e.Resume?
    ensures id in Step(s, e).rows && Contained(s, m, e, id)
  {
  }

  lemma MigrationIsContained(s: Store, m: Meter, e: Event, id: nat)
    requires TableOk(s) && id in s.rows && e.Migrate?
    ensures id in Step(s, e).rows && Contained(s, m, e, id)
  {
    hide TableOk, MigratedRows, CanMigrate;
    MigrationMovesOrAborts(s, e.id, e.ip, e.mac);
    assert Step(s, e) == Migrated(s, e.id, e.ip, e.mac);
  }

  lemma CreditIsContained(s: Store, m: Meter, e: Event, id: nat)
    requires e.Credit? && Enabled(s, e) && id in s.rows && !StartsAfresh(s, e, id)
    ensures id in Step(s, e).rows && Contained(s, m, e, id)
  {
    hide CreditCommits;
  }

  lemma StepIsContained(s: Store, m: Meter, e: Event, id: nat)
    requires TableOk(s) && Enabled(s, e) && id in s.rows && !StartsAfresh(s, e, id)
    requires PauseOk(s.rows[id]) && Overstay(s.rows[id], s.now) <= PERIOD
    ensures id in Step(s, e).rows && Contained(s, m, e, id)
  {
    hide Step, TableOk, StartsAfresh, PauseOk, Overstay, Contained, Enabled;
    match e
    case Credit(_, _, _) => CreditIsContained(s, m, e, id);
    case Migrate(_, _, _) => MigrationIsContained(s, m, e, id);
    case Extend(_, _, _) => OneRowIsContained(s, m, e, id);
    case End(_, _) => OneRowIsContained(s, m, e, id);
    case Pause(_, _) => OneRowIsContained(s, m, e, id);
    case Resume(_) => OneRowIsContained(s, m, e, id);
    case Restart => RecoveryIsContained(s, m, e, id);
    case Reboot(_) => RecoveryIsContained(s, m, e, id);
    case _ => TimeIsContained(s, m, e, id);
  }

  lemma ContainedKeepsOverrunOk(s: Store, m: Meter, e: Event, id: nat)
    requires Enabled(s, e) && id in s.rows && id in Step(s, e).rows && Contained(s, m, e, id)
    requires OverrunOk(s.rows[id], m, s.now) && Overstay(s.rows[id], s.now) <= PERIOD
    ensures OverrunOk(Step(s, e).rows[id], MeterAfter(s, m, e, id), Step(s, e).now)
  {
    hide Step, MeterAfter, Overstay;
  }

  ghost predicate AllOverrunsOk(v: Metered)
    requires MeteredOk(v)
  {
    forall id <- v.meters :: OverrunOk(v.world.store.rows[id], v.meters[id], v.world.store.now)
  }

  lemma OverstayWithinPeriod(w: World, id: nat)
    requires EnforcedUpToLastPass(w) && w.store.now <= w.lastPass + PERIOD && id in w.store.rows
    ensures Overstay(w.store.rows[id], w.store.now) <= PERIOD
  {
  }

  lemma RowKeepsOverrun(v: Metered, e: Event, id: nat)
    requires MeteredOk(v) && Enabled(v.world.store, e) && AllOverrunsOk(v)
    requires EnforcedUpToLastPass(v.world) && v.world.store.now <= v.world.lastPass + PERIOD
    requires id in v.world.store.rows && !StartsAfresh(v.world.store, e, id) && id in Step(v.world.store, e).rows
    ensures var s, t := v.world.store, Step(v.world.store, e);
            OverrunOk(t.rows[id], MeterAfter(s, v.meters[id], e, id), t.now)
  {
    hide Step, StartsAfresh, TableOk, Balanced, Enabled, MeterAfter, Contained, OverrunOk, Overstay;
    var s := v.world.store;
    BalancedPause(s.rows[id], v.world.accounts[id], s.now);
    OverstayWithinPeriod(v.world, id);
    StepIsContained(s, v.meters[id], e, id);
    ContainedKeepsOverrunOk(s, v.meters[id], e, id);
  }

  lemma StepKeepsOverruns(v: Metered, e: Event)
    requires MeteredOk(v) && Enabled(v.world.store, e) && AllOverrunsOk(v)
    requires EnforcedUpToLastPass(v.world) && v.world.store.now <= v.world.lastPass + PERIOD
    ensures MeteredOk(Follow(v, e)) && AllOverrunsOk(Follow(v, e))
  {
    FollowIsOk(v, e);
    var s, u := v.world.store, Follow(v, e);
    hide Step, StartsAfresh, TableOk, AllBalanced, EnforcedUpToLastPass, Enabled, MeterAfter, AccountAfter, OverrunOk;
    forall id <- u.meters
      ensures OverrunOk(u.world.store.rows[id], u.meters[id], u.world.store.now)
    {
      if id in s.rows && !StartsAfresh(s, e, id) {
        RowKeepsOverrun(v, e, id);
      } else {
        FreshOverrun(u.world.store.rows[id], u.world.store.now);
      }
    }
  }

  lemma FreshOverrun(r: Row, now: int)
    ensures OverrunOk(r, ZERO, now)
  {
  }

  lemma {:induction false} PunctualRunKeepsOverruns(v: Metered, es: seq<Event>)
    requires MeteredOk(v) && ValidRun(v.world.store, es) && AllOverrunsOk(v)
    requires EnforcedUpToLastPass(v.world) && v.world.store.now <= v.world.lastPass + PERIOD && Punctual(v.world, es)
    ensures AllOverrunsOk(Meters(v, es)) && EnforcedUpToLastPass(Meters(v, es).world)
    ensures Meters(v, es).world.store.now <= Meters(v, es).world.lastPass + PERIOD
    decreases |es|
  {
    hide TableOk, Enabled, AllOverrunsOk, EnforcedUpToLastPass, AllBalanced;
    if es != [] {
      StepKeepsOverruns(v, es[0]);
      StepKeepsEnforcement(v.world, es[0]);
      PunctualClock(v.world, [es[0]]);
      PunctualRunKeepsOverruns(Follow(v, es[0]), es[1..]);
    }
  }

  const OPENING := Metered(START, map[])

  lemma BoundedByPaid(r: Row, a: Account, now: int, m: Meter)
    requires Balanced(r, a, now) && Bounded(m, a.current.served)
    ensures m.access <= r.total * TICK + m.overran + m.unbacked
  {
    assert Owed(r, now) >= 0;
  }

  lemma OverrunTotal(r: Row, m: Meter, now: int)
    requires OverrunOk(r, m, now) && Overstay(r, now) <= PERIOD
    ensures m.overran <= (m.lapses + 1) * (30 * TICK)
  {
  }

  lemma OpeningIsOk()
    ensures MeteredOk(OPENING) && AllBounded(OPENING) && AllOverrunsOk(OPENING) && NothingUnbacked(OPENING)
  {
  }

  lemma AccessIsBounded(es: seq<Event>, id: nat)
    requires MeteredOk(OPENING) && ValidRun(EMPTY, es) && id in Exec(EMPTY, es).rows
    ensures var m := Meters(OPENING, es).meters[id];
            m.access <= Exec(EMPTY, es).rows[id].total * TICK + m.overran + m.unbacked
  {
    hide Balanced, Bounded, TableOk;
    var v := Meters(OPENING, es);
    OpeningIsOk();
    RunStaysBounded(OPENING, es);
    BoundedByPaid(v.world.store.rows[id], v.world.accounts[id], v.world.store.now, v.meters[id]);
  }

  lemma OverrunIsBounded(es: seq<Event>, id: nat)
    requires MeteredOk(OPENING) && ValidRun(EMPTY, es) && id in Exec(EMPTY, es).rows && Punctual(START, es)
    ensures var m := Meters(OPENING, es).meters[id]; m.overran <= (m.lapses + 1) * (30 * TICK)
  {
    hide Overstay, OverrunOk, TableOk, AllBalanced;
    var v := Meters(OPENING, es);
    OpeningIsOk();
    PunctualRunKeepsOverruns(OPENING, es);
    OverstayWithinPeriod(v.world, id);
    OverrunTotal(v.world.store.rows[id], v.meters[id], v.world.store.now);
  }

  /** In every run, the MAC of a row is let through no longer than its purchase was paid for, plus the time
      the row ran on past its expiry, plus the time it was authorised without a running row. An orderly run
      has none of the latter, and under the ticker the former is at most 30 seconds, and 30 more for
      every time the administrator extended the row when it was overdue. */
  lemma AccessIsPaidFor(es: seq<Event>, id: nat)
    requires ValidRun(EMPTY, es) && id in Exec(EMPTY, es).rows
    ensures MeteredOk(OPENING)
    ensures var m := Meters(OPENING, es).meters[id];
            && m.access <= Exec(EMPTY, es).rows[id].total * TICK + m.overran + m.unbacked
            && (OrderlyRun(EMPTY, es) ==> m.unbacked == 0)
            && (Punctual(START, es) ==> m.overran <= (m.lapses + 1) * (30 * TICK))
  {
    OpeningIsOk();
    AccessIsBounded(es, id);
    hide AllBounded, AllOverrunsOk, AllBalanced, TableOk, Misauthorises, Meters;
    if OrderlyRun(EMPTY, es) {
      OrderlyRunIsBacked(OPENING, es);
    }
    if Punctual(START, es) {
      OverrunIsBounded(es, id);
    }
  }

  // ---------- exactly when access is unbacked ----------

  /** The payment moves a running row from the device it belonged to over to the caller. */
  ghost predicate MovesTheRow(s: Store, e: Event)
    requires Enabled(s, e)
  {
    && e.Credit? && e.target.Prolong? && s.rows[e.target.id].pause.None?
    && !OwnedByOther(s.rows, e.p.mac, e.target.id)
  }

  /** While access matches the table no row is unbacked, and a step makes one so if and only if it
      misauthorises somebody; the one exception is the payment that moves a running row to the caller,
      where the device left behind has no row at all. */
  lemma StepUnbacksIff(s: Store, e: Event)
    requires TableOk(s) && AccessMatches(s) && Enabled(s, e)
    ensures var t := Step(s, e); (exists id <- t.rows :: Unbacked(t, id)) <==> Misauthorises(s, e) && !MovesTheRow(s, e)
  {
    var t := Step(s, e);
    StepAccess(s, e);
    StepKeepsTable(s, e);
    if !Misauthorises(s, e) {
      forall id <- t.rows
        ensures !Unbacked(t, id)
      {
        MatchingIsBacked(t, id);
      }
    } else if MovesTheRow(s, e) {
      MovedRowsAreBacked(s, e.p, e.banned, e.target.id);
    } else {
      var id := UnbackedRow(s, e);
    }
  }

  lemma MovedRowsAreBacked(s: Store, p: Purchase, banned: bool, id: nat)
    requires TableOk(s) && AccessMatches(s) && TargetOk(s, p, Prolong(id)) && p.minutes > 0
    requires p.mac != "" && s.rows[id].pause.None? && !OwnedByOther(s.rows, p.mac, id)
    ensures var t := Credited(s, p, banned, Prolong(id)); forall x <- t.rows :: !Unbacked(t, x)
  {
    var t := Credited(s, p, banned, Prolong(id));
    forall x <- t.rows
      ensures !Unbacked(t, x)
    {
      MatchingIsBacked(s, x);
    }
  }

  lemma UnbackedRow(s: Store, e: Event) returns (id: nat)
    requires TableOk(s) && AccessMatches(s) && Enabled(s, e) && Misauthorises(s, e) && !MovesTheRow(s, e)
    ensures id in Step(s, e).rows && Unbacked(Step(s, e), id)
  {
    match e
    case Extend(x, _, _) =>
      id := x;
    case Migrate(x, ip, mac) =>
      id := x;
      MigrationMovesOrAborts(s, x, ip, mac);
    case Credit(p, _, Prolong(x)) =>
      if OwnedByOther(s.rows, p.mac, x) {
        id :| id in s.rows && id != x && s.rows[id].mac == p.mac;
      } else {
        id := x;
      }
  }

  // ---------- nobody entitled is ever shut out ----------

  ghost predicate NobodyShutOut(s: Store) {
    forall id <- s.rows :: Running(s.rows[id]) && s.rows[id].mac != "" ==> s.rows[id].mac in s.auth
  }

  lemma PassesShutNobodyOut(s: Store)
    requires TableOk(s) && NobodyShutOut(s)
    ensures NobodyShutOut(AfterExpirePass(s)) && NobodyShutOut(AfterPausedPass(s))
  {
  }

  lemma RecoveryShutsNobodyOut(s: Store)
    ensures NobodyShutOut(Recovered(s))
  {
    var t := AfterPausedPass(AfterExpirePass(s));
    forall id <- t.rows | Running(t.rows[id]) && t.rows[id].mac != ""
      ensures id in RecoverableIds(t)
    {
      assert !Overdue(s.rows[id], s.now);
    }
  }

  lemma StepShutsNobodyOut(s: Store, e: Event)
    requires TableOk(s) && NobodyShutOut(s) && Enabled(s, e)
    ensures NobodyShutOut(Step(s, e))
  {
    match e
    case Credit(_, _, _) => CreditShutsNobodyOut(s, e);
    case ExpirePass => PassesShutNobodyOut(s);
    case PausedPass => PassesShutNobodyOut(s);
    case Restart => RecoveryShutsNobodyOut(s);
    case Reboot(down) => RecoveryShutsNobodyOut(s.(now := s.now + down, auth := {}));
    case Migrate(id, ip, mac) => MigrationMovesOrAborts(s, id, ip, mac);
    case _ => OneRowShutsNobodyOut(s, e);
  }

  lemma CreditShutsNobodyOut(s: Store, e: Event)
    requires NobodyShutOut(s) && Enabled(s, e) && e.Credit?
    ensures NobodyShutOut(Step(s, e))
  {
    hide CreditCommits;
  }

  lemma OneRowShutsNobodyOut(s: Store, e: Event)
    requires MacIndexOk(s.rows) && NobodyShutOut(s) && (e.Tick? || e.Extend? || e.End? || e.Pause? || e.Resume?)
    ensures NobodyShutOut(Step(s, e))
  {
  }

  /** In every run, with no hypothesis, the device of every running row is let through. */
  lemma {:induction false} NobodyEntitledIsShutOut(s: Store, es: seq<Event>)
    requires TableOk(s) && NobodyShutOut(s) && ValidRun(s, es)
    ensures NobodyShutOut(Exec(s, es))
    decreases |es|
  {
    if es != [] {
      StepShutsNobodyOut(s, es[0]);
      StepKeepsTable(s, es[0]);
      NobodyEntitledIsShutOut(Step(s, es[0]), es[1..]);
    }
  }

  // ---------- unbacked access without end ----------

  /** A row that is paused without a deadline, which any run may hold (HourIsBoughtAndPaused), and is then
      extended: its device is let through for as long as one likes, through every pass, all of it unbacked,
      while the row is still owed all it was owed. */
  lemma PausedRowIsOpenedForGood(s: Store, m: Meter, id: nat, seconds: int, d: nat)
    requires TableOk(s) && id in s.rows && seconds > 0
    requires var r := s.rows[id]; r.status.Active? && r.mac != "" && r.pause.Some? && r.pause.value.deadline.None?
    ensures var e, t := Extend(id, seconds, 0), Extended(s, id, seconds, 0);
            var u := t.(now := t.now + d); var passed := AfterPausedPass(AfterExpirePass(u));
            && Misauthorises(s, e) && id in t.rows
            && Step(s, e) == t && Step(t, Tick(d)) == u && !StartsAfresh(s, e, id) && !StartsAfresh(t, Tick(d), id)
            && MeterAfter(t, MeterAfter(s, m, e, id), Tick(d), id).access == m.access + d
            && MeterAfter(t, MeterAfter(s, m, e, id), Tick(d), id).unbacked == m.unbacked + d
            && id in passed.rows && passed.rows[id] == u.rows[id] && Authorised(passed, id)
            && Owed(u.rows[id], u.now) == Owed(s.rows[id], s.now)
  {
    var e, t := Extend(id, seconds, 0), Extended(s, id, seconds, 0);
    StepKeepsTable(s, e);
    StepKeepsTable(t, Tick(d));
    ExtendOpens(s, m, id, seconds);
    TickOpened(t, MeterAfter(s, m, e, id), d, id);
    hide Extended, MeterAfter, Misauthorises, StartsAfresh, Owed, AfterExpirePass, AfterPausedPass, TableOk;
    PassesSpareIt(t.(now := t.now + d), id);
  }

  lemma TickOpened(t: Store, m: Meter, d: nat, id: nat)
    requires id in t.rows && Unbacked(t, id)
    ensures var n := MeterAfter(t, m, Tick(d), id); n.access == m.access + d && n.unbacked == m.unbacked + d
    ensures Step(t, Tick(d)) == t.(now := t.now + d) && !StartsAfresh(t, Tick(d), id)
    ensures Authorised(t.(now := t.now + d), id)
  {
  }

  lemma ExtendOpens(s: Store, m: Meter, id: nat, seconds: int)
    requires id in s.rows && seconds > 0
    requires s.rows[id].status.Active? && s.rows[id].mac != "" && s.rows[id].pause.Some?
    ensures var t := Extended(s, id, seconds, 0); var e := Extend(id, seconds, 0);
            && Step(s, e) == t && Misauthorises(s, e) && !StartsAfresh(s, e, id)
            && id in t.rows && Unbacked(t, id) && t.rows[id].pause == s.rows[id].pause && t.rows[id].status.Active?
            && (forall later: int :: Owed(t.rows[id], later) == Owed(s.rows[id], s.now))
            && MeterAfter(s, m, e, id).access == m.access && MeterAfter(s, m, e, id).unbacked == m.unbacked
  {
  }

  lemma PassesSpareIt(u: Store, id: nat)
    requires TableOk(u) && id in u.rows && Authorised(u, id)
    requires u.rows[id].status.Active? && u.rows[id].pause.Some? && u.rows[id].pause.value.deadline.None?
    ensures var t := AfterPausedPass(AfterExpirePass(u)); id in t.rows && t.rows[id] == u.rows[id] && Authorised(t, id)
  {
  }
}
