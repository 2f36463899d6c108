/** The authorised MACs follow the sessions table, and expiry and pausing do what they promise over runs. */
module SessionAccess {
  import opened Options
  import opened Clock
  import opened Sessions

  /** The MACs that should be let through: those of active rows that are not paused. */
  function EntitledMacs(s: Store): set<string> {
    set id | id in s.rows && s.rows[id].status.Active? && s.rows[id].pause.None? && s.rows[id].mac != ""
      :: s.rows[id].mac
  }

  ghost predicate AccessMatches(s: Store) {
    s.auth == EntitledMacs(s)
  }

  /** Prolonging row id for a caller with this MAC keeps access right: when another row owns the MAC,
      that row must be running; otherwise row id takes the MAC over, and must be running and have had
      no other one. */
  predicate SafeToProlong(rows: map<nat, Row>, id: nat, mac: string)
    requires id in rows
  {
    if OwnedByOther(rows, mac, id) then
      exists x <- rows :: x != id && rows[x].mac == mac && rows[x].status.Active? && rows[x].pause.None?
    else rows[id].pause.None? && (rows[id].mac == mac || rows[id].mac == "")
  }

  /** The step leaves somebody authorised who should not be: the device of a row that stays paused, the
      caller of a payment whose own row is not running, or the device a row was taken from. */
  ghost predicate Misauthorises(s: Store, e: Event)
    requires Enabled(s, e)
  {
    match e
    case Credit(p, banned, Prolong(id)) =>
      p.mac != "" && CreditCommits(s, p, banned, e.target) && !SafeToProlong(s.rows, id, p.mac)
    case Extend(id, seconds, _) =>
      && seconds > 0 && id in s.rows && s.rows[id].status.Active?
      && s.rows[id].mac != "" && s.rows[id].pause.Some?
    case Migrate(id, _, mac) =>
      CanMigrate(s, id, mac) && s.rows[id].pause.Some? && !OwnedByOther(s.rows, mac, id)
    case _ => false
  }

  /** With unique MACs, replacing one row moves its own entitlement and no other. */
  lemma EntitlementOfOneRow(s: Store, id: nat, r: Row)
    requires MacIndexOk(s.rows) && MacIndexOk(s.rows[id := r])
    requires id in s.rows ==> s.rows[id].mac == r.mac
    ensures EntitledMacs(s.(rows := s.rows[id := r])) ==
            if r.mac == "" then EntitledMacs(s)
            else if r.status.Active? && r.pause.None? then EntitledMacs(s) + {r.mac}
            else EntitledMacs(s) - {r.mac}
  {
    var t := s.(rows := s.rows[id := r]);
    forall m: string
      ensures m in EntitledMacs(t) <==>
              m in if r.mac == "" then EntitledMacs(s)
                   else if r.status.Active? && r.pause.None? then EntitledMacs(s) + {r.mac}
                   else EntitledMacs(s) - {r.mac}
    {
      if m in EntitledMacs(t) {
        var x :| x in t.rows && t.rows[x].status.Active? && t.rows[x].pause.None? && t.rows[x].mac == m;
        if x != id {
          assert t.rows[x] == s.rows[x] && t.rows[id] == r;
        }
      }
      if m in EntitledMacs(s) {
        var x :| x in s.rows && s.rows[x].status.Active? && s.rows[x].pause.None? && s.rows[x].mac == m;
        if x != id {
          assert t.rows[x] == s.rows[x] && t.rows[id] == r;
        }
      }
      if r.status.Active? && r.pause.None? && m == r.mac {
        assert t.rows[id].mac == m;
      }
    }
  }

  lemma RowStepAccess(s: Store, id: nat, r: Row)
    requires TableOk(s) && AccessMatches(s) && id in s.rows && r.mac == s.rows[id].mac
    ensures var t := s.(rows := s.rows[id := r]);
            && (r.status.Active? && r.pause.None? ==> AccessMatches(t.(auth := Allow(s.auth, r.mac))))
            && (!(r.status.Active? && r.pause.None?) ==> AccessMatches(t.(auth := s.auth - {r.mac})))
  {
    EntitlementOfOneRow(s, id, r);
  }

  lemma OpeningAPausedRow(s: Store, id: nat, r: Row)
    requires TableOk(s) && AccessMatches(s) && id in s.rows && r.mac == s.rows[id].mac && r.pause.Some?
    ensures AccessMatches(s.(rows := s.rows[id := r], auth := Allow(s.auth, r.mac))) <==> r.mac == ""
  {
    EntitlementOfOneRow(s, id, r);
  }

  /** A payment that leaves its row without a MAC, or with the one it had. */
  lemma ProlongInPlaceAccess(s: Store, id: nat, r: Row, mac: string)
    requires TableOk(s) && AccessMatches(s) && id in s.rows && s.rows[id].status.Active?
    requires r.mac == s.rows[id].mac && r.status == s.rows[id].status && r.pause == s.rows[id].pause
    ensures AccessMatches(s.(rows := s.rows[id := r], auth := Allow(s.auth, mac))) <==>
            mac == "" || mac in EntitledMacs(s)
  {
    EntitlementOfOneRow(s, id, r);
    var t := s.(rows := s.rows[id := r]);
    if r.mac != "" {
      if r.pause.None? {
        assert s.rows[id].mac in EntitledMacs(s);
      } else {
        UnentitledWhilePaused(s, id);
      }
    }
    assert EntitledMacs(t) == EntitledMacs(s);
  }

  /** A payment after which the row found by address carries the caller's MAC, which nobody else has. */
  lemma ProlongWithNewMacAccess(s: Store, id: nat, r: Row)
    requires TableOk(s) && AccessMatches(s) && id in s.rows && s.rows[id].status.Active?
    requires r.mac != "" && r.mac != s.rows[id].mac && !OwnedByOther(s.rows, r.mac, id)
    requires r.status == s.rows[id].status && r.pause == s.rows[id].pause
    ensures AccessMatches(s.(rows := s.rows[id := r], auth := s.auth + {r.mac})) <==>
            r.pause.None? && s.rows[id].mac == ""
  {
    var t := s.(rows := s.rows[id := r], auth := s.auth + {r.mac});
    var before := s.rows[id].mac;
    assert t.rows[id] == r && forall x <- s.rows :: x != id ==> t.rows[x] == s.rows[x] && s.rows[x].mac != r.mac;
    assert r.mac in EntitledMacs(t) <==> r.pause.None?;
    if before != "" {
      assert forall x <- t.rows :: t.rows[x].mac != before;
      assert before !in EntitledMacs(t);
      if r.pause.None? {
        assert before in EntitledMacs(s);
      }
    } else {
      forall m | m != r.mac
        ensures m in EntitledMacs(t) <==> m in EntitledMacs(s)
      {
        if m in EntitledMacs(s) {
          var x :| x in s.rows && s.rows[x].status.Active? && s.rows[x].pause.None? && s.rows[x].mac == m && m != "";
          assert t.rows[x] == s.rows[x];
        }
      }
    }
  }

  lemma EntitledOwner(s: Store, id: nat, mac: string)
    requires MacIndexOk(s.rows) && id in s.rows && mac != "" && OwnedByOther(s.rows, mac, id)
    ensures mac in EntitledMacs(s) <==> SafeToProlong(s.rows, id, mac)
  {
  }

  lemma ProlongAccess(s: Store, p: Purchase, banned: bool, id: nat)
    requires TableOk(s) && AccessMatches(s) && TargetOk(s, p, Prolong(id)) && p.minutes > 0
    requires CreditCommits(s, p, banned, Prolong(id))
    ensures AccessMatches(Credited(s, p, banned, Prolong(id))) <==> p.mac == "" || SafeToProlong(s.rows, id, p.mac)
  {
    var r := ProlongedRow(s, id, p);
    if p.mac != "" && OwnedByOther(s.rows, p.mac, id) {
      ProlongInPlaceAccess(s, id, r, p.mac);
      EntitledOwner(s, id, p.mac);
    } else if p.mac == "" || s.rows[id].mac == p.mac {
      ProlongInPlaceAccess(s, id, r, p.mac);
      if p.mac != "" && r.pause.Some? {
        UnentitledWhilePaused(s, id);
      }
    } else {
      ProlongWithNewMacAccess(s, id, r);
    }
  }

  lemma CreditAccess(s: Store, p: Purchase, banned: bool, target: Target)
    requires TableOk(s) && AccessMatches(s) && TargetOk(s, p, target) && p.minutes > 0
    ensures AccessMatches(Credited(s, p, banned, target)) <==> !Misauthorises(s, Credit(p, banned, target))
  {
    if CreditCommits(s, p, banned, target) {
      match target
      case Prolong(id) => ProlongAccess(s, p, banned, id);
      case Reuse(id) => EntitlementOfOneRow(s, id, CreditRows(s, p, target)[id]);
      case Insert => EntitlementOfOneRow(s, s.nextId, CreditRows(s, p, target)[s.nextId]);
    }
  }

  lemma UnentitledWhilePaused(s: Store, id: nat)
    requires MacIndexOk(s.rows) && id in s.rows && s.rows[id].mac != "" && s.rows[id].pause.Some?
    ensures s.rows[id].mac !in EntitledMacs(s)
  {
  }

  lemma MigrateAccess(s: Store, id: nat, ip: string, mac: string)
    requires TableOk(s) && AccessMatches(s)
    ensures AccessMatches(Migrated(s, id, ip, mac)) <==> !Misauthorises(s, Migrate(id, ip, mac))
  {
    MigrationMovesOrAborts(s, id, ip, mac);
    if CanMigrate(s, id, mac) && !OwnedByOther(s.rows, mac, id) {
      var t := Migrated(s, id, ip, mac);
      var before := s.rows[id].mac;
      assert forall x <- s.rows :: x != id ==>
               t.rows[x] == s.rows[x] && s.rows[x].mac != before && s.rows[x].mac != mac;
      assert t.rows[id].mac == mac && t.rows[id].pause == s.rows[id].pause;
      forall m: string
        ensures m in EntitledMacs(t) <==>
                if m == mac then s.rows[id].pause.None? else m != before && m in EntitledMacs(s)
      {
        if m in EntitledMacs(t) {
          var x :| x in t.rows && t.rows[x].status.Active? && t.rows[x].pause.None? && t.rows[x].mac == m;
          assert x == id || s.rows[x] == t.rows[x];
        }
        if m in EntitledMacs(s) {
          var x :| x in s.rows && s.rows[x].status.Active? && s.rows[x].pause.None? && s.rows[x].mac == m;
          assert x == id || s.rows[x] == t.rows[x];
        }
      }
      assert mac in t.auth;
    }
  }

  lemma ExtendAccess(s: Store, id: nat, seconds: int, coins: int)
    requires TableOk(s) && AccessMatches(s)
    ensures AccessMatches(Extended(s, id, seconds, coins)) <==> !Misauthorises(s, Extend(id, seconds, coins))
  {
    if seconds > 0 && id in s.rows && s.rows[id].status.Active? {
      var r := ExtendedRow(s.rows[id], s.now, seconds, coins);
      if r.pause.Some? {
        OpeningAPausedRow(s, id, r);
      } else {
        RowStepAccess(s, id, r);
      }
    }
  }

  /** Dropping the entitlement of a whole set of rows drops exactly their MACs. */
  lemma PassAccess(s: Store, t: Store, dropped: set<nat>)
    requires TableOk(s) && AccessMatches(s) && t.rows.Keys == s.rows.Keys
    requires dropped <= s.rows.Keys
    requires forall id <- s.rows :: if id in dropped then !t.rows[id].status.Active? else t.rows[id] == s.rows[id]
    requires t.auth == s.auth - MacsOf(s.rows, dropped)
    ensures AccessMatches(t)
  {
    forall m: string
      ensures m in t.auth <==> m in EntitledMacs(t)
    {
      if m in EntitledMacs(t) {
        var x :| x in t.rows && t.rows[x].status.Active? && t.rows[x].pause.None? && t.rows[x].mac == m;
        assert s.rows[x] == t.rows[x];
        assert forall y <- dropped :: s.rows[y].mac != m;
      }
      if m in t.auth {
        var x :| x in s.rows && s.rows[x].status.Active? && s.rows[x].pause.None? && s.rows[x].mac == m;
        assert x !in dropped;
        assert t.rows[x] == s.rows[x];
      }
    }
  }

  lemma PassesAccess(s: Store)
    requires TableOk(s) && AccessMatches(s)
    ensures AccessMatches(AfterExpirePass(s)) && AccessMatches(AfterPausedPass(s))
  {
    PassAccess(s, AfterExpirePass(s), OverdueIds(s));
    PassAccess(s, AfterPausedPass(s), OverduePausedIds(s));
  }

  /** Starting the enforcer revokes the overdue and authorises the live; any other MAC that the rule set
      already held stays. From an empty rule set exactly the live MACs are authorised. */
  lemma RecoveryAuthorisesExactlyTheLive(s: Store)
    ensures Recovered(s).auth ==
            s.auth - MacsOf(s.rows, OverdueIds(s)) - MacsOf(s.rows, OverduePausedIds(s))
            + MacsOf(s.rows, RecoverableIds(s))
    ensures s.auth == {} ==> AccessMatches(Recovered(s)) && Recovered(s).auth == MacsOf(s.rows, RecoverableIds(s))
  {
    var u := AfterExpirePass(s);
    var t := Recovered(s);
    assert forall id <- s.rows :: s.rows[id].status.Active? && s.rows[id].pause.None? && s.rows[id].expiresAt > s.now
                                  ==> t.rows[id] == s.rows[id];
    assert forall id <- t.rows :: t.rows[id].status.Active? ==>
                                    t.rows[id] == s.rows[id] && !Overdue(s.rows[id], s.now);
    assert forall id <- s.rows :: OverduePaused(s.rows[id], s.now) <==> OverduePaused(u.rows[id], u.now);
    assert forall id <- s.rows :: u.rows[id].mac == s.rows[id].mac;
    assert OverduePausedIds(u) == OverduePausedIds(s);
    assert RecoverableIds(AfterPausedPass(u)) == RecoverableIds(s);
    assert MacsOf(u.rows, OverduePausedIds(s)) == MacsOf(s.rows, OverduePausedIds(s));
    assert MacsOf(AfterPausedPass(u).rows, RecoverableIds(s)) == MacsOf(s.rows, RecoverableIds(s));
  }

  lemma RestartAccess(s: Store)
    requires TableOk(s) && AccessMatches(s)
    ensures AccessMatches(Recovered(s))
  {
    PassesKeepTable(s);
    PassesAccess(s);
    PassesAccess(AfterExpirePass(s));
    var t := AfterPausedPass(AfterExpirePass(s));
    assert MacsOf(t.rows, RecoverableIds(t)) <= EntitledMacs(t);
  }

  /** For every step, the authorised set stays equal to the entitled one if and only if the step is none
      of the misauthorising ones. */
  lemma StepAccess(s: Store, e: Event)
    requires TableOk(s) && AccessMatches(s) && Enabled(s, e)
    ensures AccessMatches(Step(s, e)) <==> !Misauthorises(s, e)
  {
    match e
    case Tick(d) => assert EntitledMacs(s.(now := s.now + d)) == EntitledMacs(s);
    case Credit(p, banned, target) => CreditAccess(s, p, banned, target);
    case Extend(id, seconds, coins) => ExtendAccess(s, id, seconds, coins);
    case Migrate(id, ip, mac) => MigrateAccess(s, id, ip, mac);
    case ExpirePass => PassesAccess(s);
    case PausedPass => PassesAccess(s);
    case Restart => RestartAccess(s);
    case Reboot(down) => RecoveryAuthorisesExactlyTheLive(s.(now := s.now + down, auth := {}));
    case _ => OneRowStepAccess(s, e);
  }

  lemma OneRowStepAccess(s: Store, e: Event)
    requires TableOk(s) && AccessMatches(s) && (e.End? || e.Pause? || e.Resume?)
    ensures AccessMatches(Step(s, e))
  {
    var t := Step(s, e);
    if e.id in s.rows {
      RowStepAccess(s, e.id, t.rows[e.id]);
    }
  }

  /** No step of the run misauthorises anybody. */
  ghost predicate OrderlyRun(s: Store, es: seq<Event>)
    requires ValidRun(s, es)
    decreases |es|
  {
    es == [] || (!Misauthorises(s, es[0]) && OrderlyRun(Step(s, es[0]), es[1..]))
  }

  /** In every state of the run, the first and the last included, the authorised set is the entitled one. */
  ghost predicate MatchesThroughout(s: Store, es: seq<Event>)
    requires ValidRun(s, es)
    decreases |es|
  {
    AccessMatches(s) && (es == [] || MatchesThroughout(Step(s, es[0]), es[1..]))
  }

  /** Access tracks the table throughout a run if and only if no step of it misauthorises anybody. */
  lemma {:induction false} AccessTracksTheTable(s: Store, es: seq<Event>)
    requires TableOk(s) && AccessMatches(s) && ValidRun(s, es)
    ensures MatchesThroughout(s, es) <==> OrderlyRun(s, es)
    ensures OrderlyRun(s, es) ==> AccessMatches(Exec(s, es))
    decreases |es|
  {
    if es != [] {
      StepAccess(s, es[0]);
      if !Misauthorises(s, es[0]) {
        StepKeepsTable(s, es[0]);
        AccessTracksTheTable(Step(s, es[0]), es[1..]);
      } else if es[1..] == [] {
        assert MatchesThroughout(Step(s, es[0]), es[1..]) <==> AccessMatches(Step(s, es[0]));
      }
    }
  }

  // ---------- the two ways in which a payment goes astray ----------

  /** A live row found by address whose MAC is not the caller's: the row moves to the caller, and the MAC
      it had stays authorised although no row carries it any more. */
  lemma OldMacStaysAuthorised(s: Store, p: Purchase, id: nat)
    requires TableOk(s) && AccessMatches(s) && TargetOk(s, p, Prolong(id)) && p.minutes > 0
    requires CreditCommits(s, p, false, Prolong(id))
    requires p.mac != "" && s.rows[id].mac != "" && s.rows[id].mac != p.mac && !OwnedByOther(s.rows, p.mac, id)
    requires s.rows[id].pause.None?
    ensures var t := Credited(s, p, false, Prolong(id));
            s.rows[id].mac in t.auth && forall x <- t.rows :: t.rows[x].mac != s.rows[id].mac
  {
    assert s.rows[id].mac in EntitledMacs(s);
  }

  /** A live row found by address while the caller's own row has ended or is paused: the row keeps its
      MAC, yet the caller is authorised. */
  lemma CallerWithoutRunningRowIsAuthorised(s: Store, p: Purchase, id: nat, own: nat)
    requires TableOk(s) && AccessMatches(s) && TargetOk(s, p, Prolong(id)) && p.minutes > 0
    requires CreditCommits(s, p, false, Prolong(id))
    requires p.mac != "" && own in s.rows && own != id && s.rows[own].mac == p.mac
    requires !(s.rows[own].status.Active? && s.rows[own].pause.None?)
    ensures var t := Credited(s, p, false, Prolong(id));
            p.mac in t.auth && t.rows[own] == s.rows[own] && t.rows[id].mac == s.rows[id].mac && !AccessMatches(t)
  {
    CreditAccess(s, p, false, Prolong(id));
  }

  function Payment(ip: string, mac: string, generated: string): Purchase {
    Purchase(ip, mac, "", generated, 5, 60, true, 0)
  }

  lemma DisorderlyEnd(s: Store, e: Event, es: seq<Event>)
    requires Enabled(s, e) && ValidRun(Step(s, e), es) && ValidRun(s, [e] + es)
    requires Misauthorises(s, e) || !OrderlyRun(Step(s, e), es)
    ensures !OrderlyRun(s, [e] + es)
  {
    assert ([e] + es)[1..] == es;
  }

  /** The table with one live session, of "aa", under the address 10.0.0.2. */
  function OneLive(): Store {
    Store(0, map[0 := FreshRow(0, Payment("10.0.0.2", "aa", "t1"), "t1")], 1, {"aa"})
  }

  lemma OneLiveIsReached()
    ensures var e := Credit(Payment("10.0.0.2", "aa", "t1"), false, Insert);
            Enabled(EMPTY, e) && Step(EMPTY, e) == OneLive()
  {
  }

  lemma NewcomerTakesTheRow()
    ensures var e := Credit(Payment("10.0.0.2", "bb", "t2"), false, Prolong(0)); var t := Step(OneLive(), e);
            && Enabled(OneLive(), e) && Misauthorises(OneLive(), e)
            && t.auth == {"aa", "bb"} && EntitledMacs(t) == {"bb"}
  {
    var s, q := OneLive(), Payment("10.0.0.2", "bb", "t2");
    assert s.rows[0].mac == "aa";
    var t := Step(s, Credit(q, false, Prolong(0)));
    assert t == Store(0, map[0 := ProlongedRow(s, 0, q)], 1, {"aa", "bb"});
    assert t.rows[0].mac == "bb";
  }

  /** A new device gets the address of a device whose session is live, and pays. */
  lemma OldMacRun()
    ensures var es := [Credit(Payment("10.0.0.2", "aa", "t1"), false, Insert)]
                      + [Credit(Payment("10.0.0.2", "bb", "t2"), false, Prolong(0))];
            && ValidRun(EMPTY, es) && !OrderlyRun(EMPTY, es)
            && Exec(EMPTY, es).auth == {"aa", "bb"} && EntitledMacs(Exec(EMPTY, es)) == {"bb"}
  {
    var e := Credit(Payment("10.0.0.2", "aa", "t1"), false, Insert);
    var f := Credit(Payment("10.0.0.2", "bb", "t2"), false, Prolong(0));
    OneLiveIsReached();
    NewcomerTakesTheRow();
    hide Step, Enabled, OneLive, Payment, EntitledMacs, Misauthorises;
    FirstStep(OneLive(), f, []);
    assert [f] + [] == [f];
    FirstStep(EMPTY, e, [f]);
    DisorderlyEnd(OneLive(), f, []);
    DisorderlyEnd(EMPTY, e, [f]);
  }

  /** The table with an ended session of "bb" and a live one of "aa" under the address 10.0.0.3. */
  function EndedAndLive(): Store {
    Store(0, map[0 := FreshRow(0, Payment("10.0.0.2", "bb", "t1"), "t1").(status := Expired, expiresAt := 0),
                 1 := FreshRow(0, Payment("10.0.0.3", "aa", "t2"), "t2")], 2, {"aa"})
  }

  function OneEnded(): Store {
    Store(0, map[0 := FreshRow(0, Payment("10.0.0.2", "bb", "t1"), "t1").(status := Expired, expiresAt := 0)], 1, {})
  }

  lemma OneEndedIsReached()
    ensures var e := Credit(Payment("10.0.0.2", "bb", "t1"), false, Insert);
            Enabled(EMPTY, e) && Step(Step(EMPTY, e), End(0, false)) == OneEnded()
  {
    var p := Payment("10.0.0.2", "bb", "t1");
    assert Step(EMPTY, Credit(p, false, Insert)) == Store(0, map[0 := FreshRow(0, p, "t1")], 1, {"bb"});
  }

  lemma SecondDevicePays()
    ensures var e := Credit(Payment("10.0.0.3", "aa", "t2"), false, Insert);
            Enabled(OneEnded(), e) && Step(OneEnded(), e) == EndedAndLive()
  {
    assert OneEnded().rows[0].mac == "bb" && OneEnded().rows[0].token == "t1";
  }

  lemma EndedAndLiveIsReached()
    ensures var es := [Credit(Payment("10.0.0.2", "bb", "t1"), false, Insert)] + ([End(0, false)]
                      + [Credit(Payment("10.0.0.3", "aa", "t2"), false, Insert)]);
            ValidRun(EMPTY, es) && Exec(EMPTY, es) == EndedAndLive()
  {
    var e := Credit(Payment("10.0.0.2", "bb", "t1"), false, Insert);
    var f := Credit(Payment("10.0.0.3", "aa", "t2"), false, Insert);
    OneEndedIsReached();
    SecondDevicePays();
    hide Step, OneEnded, EndedAndLive, Payment;
    FirstStep(OneEnded(), f, []);
    assert [f] + [] == [f];
    FirstStep(Step(EMPTY, e), End(0, false), [f]);
    FirstStep(EMPTY, e, [End(0, false)] + [f]);
  }

  /** The live device changes its MAC to that of the ended session: the row in the way, though ended, keeps
      its MAC, so the migration aborts, and would do so just as well if it had been expired to make room. */
  lemma MigrationIsAborted(ip: string)
    ensures CanMigrate(EndedAndLive(), 1, "bb") && Migrated(EndedAndLive(), 1, ip, "bb") == EndedAndLive()
    ensures var s := EndedAndLive(); var t := s.(rows := s.rows[0 := s.rows[0].(status := Active, expiresAt := TICK)]);
            CanMigrate(t, 1, "bb") && Migrated(t, 1, ip, "bb") == t
  {
    var s := EndedAndLive();
    assert s.rows[0].mac == "bb" && s.rows[1].mac == "aa";
    var t := s.(rows := s.rows[0 := s.rows[0].(status := Active, expiresAt := TICK)]);
    InTheWay(s, 1, ip, "bb", 0);
    InTheWay(t, 1, ip, "bb", 0);
  }

  lemma InTheWay(s: Store, id: nat, ip: string, mac: string, other: nat)
    requires id in s.rows && other in s.rows && other != id && s.rows[other].mac == mac && mac != ""
    ensures Migrated(s, id, ip, mac) == s
  {
    var rows := MigratedRows(s, id, ip, mac);
    assert rows[other].mac == rows[id].mac;
  }

  /** A device whose session was ended gets the address of a live one, and pays: it is authorised, though
      its own row stays ended. */
  lemma EndedOwnerPays()
    ensures var s := EndedAndLive(); var p := Payment("10.0.0.3", "bb", "t3"); var e := Credit(p, false, Prolong(1));
            && Enabled(s, e) && Misauthorises(s, e)
            && Step(s, e).auth == {"aa", "bb"} && EntitledMacs(Step(s, e)) == {"aa"}
  {
    var s, p := EndedAndLive(), Payment("10.0.0.3", "bb", "t3");
    assert s.rows[0].mac == "bb" && OwnedByOther(s.rows, "bb", 1);
    var t := Step(s, Credit(p, false, Prolong(1)));
    assert t == Store(0, map[0 := s.rows[0], 1 := ProlongedRow(s, 1, p)], 2, {"aa", "bb"});
    assert t.rows[0].status == Expired && t.rows[1].mac == "aa";
    assert EntitledMacs(t) == {"aa"};
  }

  // ---------- expiry and pausing ----------

  /** After both passes at one instant nothing overdue is active, and every row that was not overdue is untouched. */
  lemma PassesClearTheOverdue(s: Store)
    ensures var t := AfterPausedPass(AfterExpirePass(s));
            && t.rows.Keys == s.rows.Keys
            && forall id <- s.rows ::
                 && !Overdue(t.rows[id], s.now) && !OverduePaused(t.rows[id], s.now)
                 && (t.rows[id].status.Active? <==>
                     s.rows[id].status.Active? && !Overdue(s.rows[id], s.now) && !OverduePaused(s.rows[id], s.now))
                 && (t.rows[id].status.Active? ==> t.rows[id] == s.rows[id])
  {
  }

  /** The enforcer at work: time passes and the two passes run, in any order and number. */
  predicate OnlyEnforcement(es: seq<Event>) {
    forall e <- es :: e.Tick? || e.ExpirePass? || e.PausedPass?
  }

  ghost predicate FrozenUntil(r: Row, end: int) {
    r.status.Active? && r.pause.Some? && (r.pause.value.deadline.Some? ==> end < r.pause.value.deadline.value)
  }

  lemma {:induction false} ClockOnlyAdvances(s: Store, es: seq<Event>)
    requires ValidRun(s, es)
    ensures s.now <= Exec(s, es).now
    decreases |es|
  {
    if es != [] {
      ClockOnlyAdvances(Step(s, es[0]), es[1..]);
    }
  }

  /** A paused row whose deadline, if it has one, still lies ahead is untouched by the enforcer however
      long the pause, and then resumes with exactly the remainder its pause recorded. */
  lemma {:induction false} PausedRowsAreFrozen(s: Store, es: seq<Event>, id: nat)
    requires ValidRun(s, es) && OnlyEnforcement(es) && id in s.rows
    requires FrozenUntil(s.rows[id], Exec(s, es).now) && s.rows[id].mac != ""
    ensures var t := Exec(s, es);
            && id in t.rows && t.rows[id] == s.rows[id]
            && var r := Resumed(t, id).rows[id];
               r.status.Active? && r.pause.None? && r.expiresAt - t.now == s.rows[id].pause.value.remaining * TICK
    decreases |es|
  {
    if es != [] {
      var u := Step(s, es[0]);
      ClockOnlyAdvances(s, es);
      ClockOnlyAdvances(u, es[1..]);
      assert u.rows[id] == s.rows[id];
      PausedRowsAreFrozen(u, es[1..], id);
    }
  }

  /** A pause is forfeited exactly when the hours of its rate have passed, and never when it has none. */
  lemma PauseWindowIsTheRatesHours(r: Row, now: int, limit: nat, later: int)
    requires CanPause(r, now, limit)
    ensures OverduePaused(PausedRow(r, now), later) <==> r.hours > 0 && later >= now + r.hours * 3600 * TICK
    ensures var remaining := PausedRow(r, now).pause.value.remaining;
            remaining * TICK <= r.expiresAt - now < (remaining + 1) * TICK
  {
  }

  predicate FixedLimit(es: seq<Event>, limit: nat) {
    forall e <- es :: e.Pause? ==> e.limit == limit
  }

  ghost predicate PausesWithin(s: Store, limit: nat) {
    forall id <- s.rows :: s.rows[id].pauseCount <= limit
  }

  lemma StepKeepsPausesWithin(s: Store, e: Event, limit: nat)
    requires TableOk(s) && Enabled(s, e) && PausesWithin(s, limit) && 0 < limit && (e.Pause? ==> e.limit == limit)
    ensures PausesWithin(Step(s, e), limit)
  {
  }

  /** Under a fixed positive limit no session is ever paused more often than the limit allows. */
  lemma {:induction false} PauseLimitHoldsOverRuns(s: Store, es: seq<Event>, limit: nat)
    requires TableOk(s) && ValidRun(s, es) && PausesWithin(s, limit) && 0 < limit && FixedLimit(es, limit)
    ensures PausesWithin(Exec(s, es), limit)
    decreases |es|
  {
    if es != [] {
      StepKeepsPausesWithin(s, es[0], limit);
      StepKeepsTable(s, es[0]);
      PauseLimitHoldsOverRuns(Step(s, es[0]), es[1..], limit);
    }
  }
}
