/** The sessions table of session.go together with the set of MACs the captive rules let through.
    Every handler body is one step at one instant of one clock. Times are integers, in
    microseconds; the row columns that count seconds are plain integers. */
module Sessions {
  import opened Options
  import opened Clock

  datatype Status = Active | Expired | Cancelled

  /** The three pause columns, which the handlers always set and clear together:
      paused_at, remaining_seconds_at_pause and the optional pause_expires_at. */
  datatype PauseMark = PauseMark(at: int, remaining: int, deadline: Option<int>)

  datatype Row = Row(
    ip: string, mac: string, coins: int, total: int, status: Status,
    startedAt: int, expiresAt: int, pause: Option<PauseMark>, pauseCount: nat,
    pausable: bool, hours: int, token: string)

  datatype Store = Store(now: int, rows: map<nat, Row>, nextId: nat, auth: set<string>)

  const EMPTY := Store(0, map[], 0, {})

  /** One call of creditSession. `generated` is the token it would generate for a caller without one. */
  datatype Purchase = Purchase(
    ip: string, mac: string, token: string, generated: string,
    coins: int, minutes: int, pausable: bool, hours: int)

  /** The row a purchase lands on. */
  datatype Target = Prolong(id: nat) | Reuse(id: nat) | Insert

  datatype Event =
    | Tick(d: nat)
    | Credit(p: Purchase, banned: bool, target: Target)
    | Extend(id: nat, seconds: int, coins: int)
    | End(id: nat, cancelled: bool)
    | Pause(id: nat, limit: nat)
    | Resume(id: nat)
    | ExpirePass
    | PausedPass
    | Migrate(id: nat, ip: string, mac: string)
    | Restart
    | Reboot(down: nat)

  // ---------- which row a purchase lands on ----------

  /** The row is visible to creditSession's lookup: a live session of this MAC, or of this IP. */
  predicate Matches(r: Row, now: int, ip: string, mac: string) {
    r.status.Active? && r.expiresAt > now && ((mac != "" && r.mac == mac) || r.ip == ip)
  }

  predicate NoMatch(s: Store, p: Purchase) {
    forall id <- s.rows :: !Matches(s.rows[id], s.now, p.ip, p.mac)
  }

  /** The target is what the lookup and the upsert can choose; rows started at the same instant
      are interchangeable to ORDER BY started_at DESC LIMIT 1. */
  predicate TargetOk(s: Store, p: Purchase, target: Target) {
    match target
    case Prolong(id) =>
      && id in s.rows && Matches(s.rows[id], s.now, p.ip, p.mac)
      && forall other <- s.rows ::
           Matches(s.rows[other], s.now, p.ip, p.mac) ==> s.rows[other].startedAt <= s.rows[id].startedAt
    case Reuse(id) =>
      NoMatch(s, p) && p.mac != "" && id in s.rows && s.rows[id].mac == p.mac
    case Insert =>
      NoMatch(s, p) && (p.mac == "" || forall id <- s.rows :: s.rows[id].mac != p.mac)
  }

  // ---------- the two unique indexes ----------

  predicate MacIndexOk(rows: map<nat, Row>) {
    forall i <- rows, j <- rows :: i != j && rows[i].mac != "" ==> rows[i].mac != rows[j].mac
  }

  predicate TokenIndexOk(rows: map<nat, Row>) {
    forall i <- rows, j <- rows :: i != j && rows[i].token != "" ==> rows[i].token != rows[j].token
  }

  predicate OwnedByOther(rows: map<nat, Row>, mac: string, id: nat) {
    exists x <- rows :: x != id && rows[x].mac == mac
  }

  predicate TokenOwnedByOther(rows: map<nat, Row>, token: string, id: nat) {
    exists x <- rows :: x != id && rows[x].token == token
  }

  // ---------- creditSession ----------

  function Max(a: int, b: int): int { if a >= b then a else b }

  function UpsertToken(p: Purchase): string {
    if p.token == "" then p.generated else p.token
  }

  /** The branch that pushes expires_at out. */
  function ProlongedRow(s: Store, id: nat, p: Purchase): Row
    requires id in s.rows
  {
    var r := s.rows[id];
    r.(coins := r.coins + p.coins,
       total := r.total + 60 * p.minutes,
       expiresAt := Max(r.expiresAt, s.now) + 60 * p.minutes * TICK,
       ip := p.ip,
       mac := if p.mac != "" && !OwnedByOther(s.rows, p.mac, id) then p.mac else r.mac,
       token := if r.token == "" && p.token != "" then p.token else r.token)
  }

  function FreshRow(now: int, p: Purchase, token: string): Row {
    Row(p.ip, p.mac, p.coins, 60 * p.minutes, Active, now, now + 60 * p.minutes * TICK,
        None, 0, p.pausable, p.hours, token)
  }

  function CreditRows(s: Store, p: Purchase, target: Target): map<nat, Row>
    requires TargetOk(s, p, target)
  {
    match target
    case Prolong(id) => s.rows[id := ProlongedRow(s, id, p)]
    case Reuse(id) =>
      var kept := s.rows[id].token;
      s.rows[id := FreshRow(s.now, p, if kept != "" then kept else UpsertToken(p))]
    case Insert => s.rows[s.nextId := FreshRow(s.now, p, if p.mac == "" then "" else UpsertToken(p))]
  }

  predicate CreditCommits(s: Store, p: Purchase, banned: bool, target: Target)
    requires TargetOk(s, p, target)
  {
    !(p.mac != "" && banned) && MacIndexOk(CreditRows(s, p, target)) && TokenIndexOk(CreditRows(s, p, target))
  }

  function Allow(auth: set<string>, mac: string): set<string> {
    if mac == "" then auth else auth + {mac}
  }

  /** A transaction that breaks a unique index, or meets a ban, leaves the store as it was. */
  function Credited(s: Store, p: Purchase, banned: bool, target: Target): Store
    requires TargetOk(s, p, target)
  {
    if CreditCommits(s, p, banned, target) then
      s.(rows := CreditRows(s, p, target),
         nextId := if target.Insert? then s.nextId + 1 else s.nextId,
         auth := Allow(s.auth, p.mac))
    else s
  }

  // ---------- the other handlers ----------

  function ExtendedRow(r: Row, now: int, seconds: int, coins: int): Row {
    r.(coins := r.coins + coins, total := r.total + seconds,
       expiresAt := Max(r.expiresAt, now) + seconds * TICK)
  }

  function Extended(s: Store, id: nat, seconds: int, coins: int): Store {
    if seconds > 0 && id in s.rows && s.rows[id].status.Active? then
      s.(rows := s.rows[id := ExtendedRow(s.rows[id], s.now, seconds, coins)],
         auth := Allow(s.auth, s.rows[id].mac))
    else s
  }

  function Ended(s: Store, id: nat, cancelled: bool): Store {
    if id in s.rows then
      s.(rows := s.rows[id := s.rows[id].(status := if cancelled then Cancelled else Expired, expiresAt := s.now)],
         auth := s.auth - {s.rows[id].mac})
    else s
  }

  predicate CanPause(r: Row, now: int, limit: nat) {
    && r.mac != "" && r.status.Active? && r.expiresAt > now && r.pause.None?
    && r.pausable && !(limit > 0 && r.pauseCount >= limit)
  }

  function PausedRow(r: Row, now: int): Row {
    var deadline := if r.hours > 0 then Some(now + r.hours * 3600 * TICK) else None;
    r.(pause := Some(PauseMark(now, (r.expiresAt - now) / TICK, deadline)), pauseCount := r.pauseCount + 1)
  }

  function Paused(s: Store, id: nat, limit: nat): Store {
    if id in s.rows && CanPause(s.rows[id], s.now, limit) then
      s.(rows := s.rows[id := PausedRow(s.rows[id], s.now)], auth := s.auth - {s.rows[id].mac})
    else s
  }

  /** The row forceExpirePaused writes. */
  function ForfeitedRow(r: Row): Row {
    r.(status := Expired, pause := None)
  }

  predicate CanResume(r: Row) {
    r.mac != "" && r.status.Active? && r.pause.Some?
  }

  /** The pause window has closed before this instant: Resume forfeits the purchase. */
  predicate WindowClosed(r: Row, now: int)
    requires r.pause.Some?
  {
    r.pause.value.deadline.Some? && r.pause.value.deadline.value < now
  }

  function ResumedRow(r: Row, now: int): Row
    requires r.pause.Some?
  {
    r.(pause := None, expiresAt := now + r.pause.value.remaining * TICK)
  }

  function Resumed(s: Store, id: nat): Store {
    if id in s.rows && CanResume(s.rows[id]) then
      var r := s.rows[id];
      if WindowClosed(r, s.now) then
        s.(rows := s.rows[id := ForfeitedRow(r)], auth := s.auth - {r.mac})
      else
        s.(rows := s.rows[id := ResumedRow(r, s.now)], auth := Allow(s.auth, r.mac))
    else s
  }

  predicate Overdue(r: Row, now: int) {
    r.status.Active? && r.pause.None? && r.expiresAt <= now
  }

  predicate OverduePaused(r: Row, now: int) {
    && r.status.Active? && r.pause.Some?
    && r.pause.value.deadline.Some? && r.pause.value.deadline.value <= now
  }

  function OverdueIds(s: Store): set<nat> {
    set id | id in s.rows && Overdue(s.rows[id], s.now)
  }

  function OverduePausedIds(s: Store): set<nat> {
    set id | id in s.rows && OverduePaused(s.rows[id], s.now)
  }

  function MacsOf(rows: map<nat, Row>, ids: set<nat>): set<string>
    requires ids <= rows.Keys
  {
    set id | id in ids :: rows[id].mac
  }

  lemma NoMacs(rows: map<nat, Row>)
    ensures MacsOf(rows, {}) == {}
  {
  }

  lemma MacsOfOneMore(rows: map<nat, Row>, ids: set<nat>, id: nat)
    requires ids <= rows.Keys && id in rows
    ensures MacsOf(rows, ids + {id}) == MacsOf(rows, ids) + {rows[id].mac}
  {
  }

  function AfterExpirePass(s: Store): Store {
    s.(rows := map id | id in s.rows ::
               if Overdue(s.rows[id], s.now) then s.rows[id].(status := Expired) else s.rows[id],
       auth := s.auth - MacsOf(s.rows, OverdueIds(s)))
  }

  function ForfeitedRows(rows: map<nat, Row>, ids: set<nat>): map<nat, Row> {
    map id | id in rows :: if id in ids then ForfeitedRow(rows[id]) else rows[id]
  }

  function AfterPausedPass(s: Store): Store {
    s.(rows := ForfeitedRows(s.rows, OverduePausedIds(s)),
       auth := s.auth - MacsOf(s.rows, OverduePausedIds(s)))
  }

  /** The migration's UPDATE meets the unique index whenever another row carries the new MAC, in
      whatever status, because expiring that row first does not take its MAC away. */
  predicate CanMigrate(s: Store, id: nat, mac: string) {
    && id in s.rows && s.rows[id].status.Active?
    && (s.rows[id].pause.Some? || s.rows[id].expiresAt > s.now)
    && s.rows[id].mac != "" && mac != "" && s.rows[id].mac != mac
  }

  /** The rows the two UPDATE statements of the migration leave, before the indexes are checked. */
  function MigratedRows(s: Store, id: nat, ip: string, mac: string): map<nat, Row>
    requires id in s.rows
  {
    map x | x in s.rows ::
      if x == id then s.rows[x].(ip := ip, mac := mac)
      else if s.rows[x].mac == mac && s.rows[x].status.Active?
      then s.rows[x].(status := Expired, expiresAt := s.now)
      else s.rows[x]
  }

  function Migrated(s: Store, id: nat, ip: string, mac: string): Store {
    if CanMigrate(s, id, mac) && MacIndexOk(MigratedRows(s, id, ip, mac)) then
      s.(rows := MigratedRows(s, id, ip, mac), auth := s.auth - {s.rows[id].mac} + {mac})
    else s
  }

  /** The rows whose MACs startup recovery authorises. */
  function RecoverableIds(s: Store): set<nat> {
    set id | id in s.rows && s.rows[id].status.Active? && s.rows[id].expiresAt > s.now
             && s.rows[id].pause.None? && s.rows[id].mac != ""
  }

  /** The enforcer starts: both passes, then whatever is still live is authorised. */
  function Recovered(s: Store): Store {
    var t := AfterPausedPass(AfterExpirePass(s));
    t.(auth := t.auth + MacsOf(t.rows, RecoverableIds(t)))
  }

  /** A power cut empties the rule set and, until the box is up again, serves nobody. */
  function Rebooted(s: Store, down: nat): Store {
    Recovered(s.(now := s.now + down, auth := {}))
  }

  // ---------- runs ----------

  predicate Enabled(s: Store, e: Event) {
    e.Credit? ==> TargetOk(s, e.p, e.target) && e.p.minutes > 0
  }

  function Step(s: Store, e: Event): Store
    requires Enabled(s, e)
  {
    match e
    case Tick(d) => s.(now := s.now + d)
    case Credit(p, banned, target) => Credited(s, p, banned, target)
    case Extend(id, seconds, coins) => Extended(s, id, seconds, coins)
    case End(id, cancelled) => Ended(s, id, cancelled)
    case Pause(id, limit) => Paused(s, id, limit)
    case Resume(id) => Resumed(s, id)
    case ExpirePass => AfterExpirePass(s)
    case PausedPass => AfterPausedPass(s)
    case Migrate(id, ip, mac) => Migrated(s, id, ip, mac)
    case Restart => Recovered(s)
    case Reboot(down) => Rebooted(s, down)
  }

  predicate ValidRun(s: Store, es: seq<Event>)
    decreases |es|
  {
    es == [] || (Enabled(s, es[0]) && ValidRun(Step(s, es[0]), es[1..]))
  }

  function Exec(s: Store, es: seq<Event>): Store
    requires ValidRun(s, es)
    decreases |es|
  {
    if es == [] then s else Exec(Step(s, es[0]), es[1..])
  }

  /** A run that begins with a given step. */
  lemma FirstStep(s: Store, e: Event, es: seq<Event>)
    requires Enabled(s, e) && ValidRun(Step(s, e), es)
    ensures ValidRun(s, [e] + es) && Exec(s, [e] + es) == Exec(Step(s, e), es)
  {
    assert ([e] + es)[1..] == es;
  }

  // ---------- one row per device ----------

  /** What every reachable table satisfies: both indexes, and serial ids that were never given out. */
  ghost predicate TableOk(s: Store) {
    && MacIndexOk(s.rows) && TokenIndexOk(s.rows)
    && forall id <- s.rows :: id < s.nextId
  }

  /** The guarded MAC update and the upsert keep the MAC index in every branch. */
  lemma CreditKeepsMacIndex(s: Store, p: Purchase, target: Target)
    requires TableOk(s) && TargetOk(s, p, target)
    ensures MacIndexOk(CreditRows(s, p, target))
  {
    if target.Prolong? && OwnedByOther(s.rows, p.mac, target.id) {
      var x :| x in s.rows && x != target.id && s.rows[x].mac == p.mac;
    }
  }

  /** The token this purchase wants to write, the caller's own or else the generated one, already belongs to
      another row. */
  ghost predicate TokenTaken(s: Store, p: Purchase, target: Target)
    requires TargetOk(s, p, target)
  {
    var wanted := if p.token != "" then p.token else p.generated;
    match target
    case Prolong(id) => s.rows[id].token == "" && p.token != "" && TokenOwnedByOther(s.rows, p.token, id)
    case Reuse(id) => s.rows[id].token == "" && wanted != "" && TokenOwnedByOther(s.rows, wanted, id)
    case Insert => p.mac != "" && wanted != "" && TokenOwnedByOther(s.rows, wanted, s.nextId)
  }

  /** A credit is refused for a ban or a token that another row owns, and for nothing else. */
  lemma CreditCommitsIff(s: Store, p: Purchase, banned: bool, target: Target)
    requires TableOk(s) && TargetOk(s, p, target)
    ensures CreditCommits(s, p, banned, target) <==> !(p.mac != "" && banned) && !TokenTaken(s, p, target)
  {
    CreditKeepsMacIndex(s, p, target);
    var rows := CreditRows(s, p, target);
    var id := if target.Insert? then s.nextId else target.id;
    assert forall x <- s.rows :: x != id ==> rows[x] == s.rows[x];
    if TokenTaken(s, p, target) {
      var token := if target.Prolong? then p.token else UpsertToken(p);
      var x :| x in s.rows && x != id && s.rows[x].token == token;
      assert rows[id].token == rows[x].token;
    } else {
      assert TokenIndexOk(rows);
    }
  }

  /** Migration moves the row when no other row carries the new MAC, and otherwise changes nothing at all. */
  lemma MigrationMovesOrAborts(s: Store, id: nat, ip: string, mac: string)
    requires TableOk(s)
    ensures CanMigrate(s, id, mac) && !OwnedByOther(s.rows, mac, id) ==>
              Migrated(s, id, ip, mac) ==
              s.(rows := s.rows[id := s.rows[id].(ip := ip, mac := mac)], auth := s.auth - {s.rows[id].mac} + {mac})
    ensures !(CanMigrate(s, id, mac) && !OwnedByOther(s.rows, mac, id)) ==> Migrated(s, id, ip, mac) == s
  {
    if CanMigrate(s, id, mac) {
      var rows := MigratedRows(s, id, ip, mac);
      if OwnedByOther(s.rows, mac, id) {
        var x :| x in s.rows && x != id && s.rows[x].mac == mac;
        assert rows[x].mac == rows[id].mac;
      } else {
        assert rows == s.rows[id := s.rows[id].(ip := ip, mac := mac)];
      }
    }
  }

  /** A step that leaves every row its MAC and its token keeps the table sound. */
  lemma SameKeysKeepTable(s: Store, t: Store)
    requires TableOk(s) && t.nextId == s.nextId && t.rows.Keys == s.rows.Keys
    requires forall id <- s.rows :: t.rows[id].mac == s.rows[id].mac && t.rows[id].token == s.rows[id].token
    ensures TableOk(t)
  {
  }

  lemma CreditKeepsTable(s: Store, p: Purchase, banned: bool, target: Target)
    requires TableOk(s) && TargetOk(s, p, target)
    ensures TableOk(Credited(s, p, banned, target))
  {
  }

  lemma PassesKeepTable(s: Store)
    requires TableOk(s)
    ensures TableOk(AfterExpirePass(s)) && TableOk(AfterPausedPass(s))
  {
    SameKeysKeepTable(s, AfterExpirePass(s));
    SameKeysKeepTable(s, AfterPausedPass(s));
  }

  lemma MigrationKeepsTable(s: Store, id: nat, ip: string, mac: string)
    requires TableOk(s)
    ensures TableOk(Migrated(s, id, ip, mac))
  {
    MigrationMovesOrAborts(s, id, ip, mac);
  }

  lemma RecoveryKeepsTable(s: Store)
    requires TableOk(s)
    ensures TableOk(Recovered(s))
  {
    PassesKeepTable(s);
    PassesKeepTable(AfterExpirePass(s));
  }

  lemma RebootKeepsTable(s: Store, down: nat)
    requires TableOk(s)
    ensures TableOk(Rebooted(s, down))
  {
    var cut := s.(now := s.now + down, auth := {});
    SameKeysKeepTable(s, cut);
    RecoveryKeepsTable(cut);
  }

  lemma StepKeepsTable(s: Store, e: Event)
    requires TableOk(s) && Enabled(s, e)
    ensures TableOk(Step(s, e))
  {
    hide TableOk;
    match e
    case Tick(d) => SameKeysKeepTable(s, s.(now := s.now + d));
    case Credit(p, banned, target) => CreditKeepsTable(s, p, banned, target);
    case Extend(id, seconds, coins) => SameKeysKeepTable(s, Extended(s, id, seconds, coins));
    case End(id, cancelled) => SameKeysKeepTable(s, Ended(s, id, cancelled));
    case Pause(id, limit) => SameKeysKeepTable(s, Paused(s, id, limit));
    case Resume(id) => SameKeysKeepTable(s, Resumed(s, id));
    case ExpirePass => PassesKeepTable(s);
    case PausedPass => PassesKeepTable(s);
    case Migrate(id, ip, mac) => MigrationKeepsTable(s, id, ip, mac);
    case Restart => RecoveryKeepsTable(s);
    case Reboot(down) => RebootKeepsTable(s, down);
  }

  /** In every run each real MAC, and each token, belongs to at most one row. */
  lemma {:induction false} OneRowPerDevice(s: Store, es: seq<Event>)
    requires TableOk(s) && ValidRun(s, es)
    ensures TableOk(Exec(s, es))
    decreases |es|
  {
    if es != [] {
      StepKeepsTable(s, es[0]);
      OneRowPerDevice(Step(s, es[0]), es[1..]);
    }
  }

  ghost predicate KeepsTokens(before: map<nat, Row>, after: map<nat, Row>) {
    forall id <- before :: id in after && (before[id].token != "" ==> after[id].token == before[id].token)
  }

  lemma CreditKeepsTokens(s: Store, p: Purchase, banned: bool, target: Target)
    requires TableOk(s) && TargetOk(s, p, target)
    ensures KeepsTokens(s.rows, Credited(s, p, banned, target).rows)
  {
  }

  lemma MigrateKeepsTokens(s: Store, id: nat, ip: string, mac: string)
    requires TableOk(s)
    ensures KeepsTokens(s.rows, Migrated(s, id, ip, mac).rows)
  {
    MigrationMovesOrAborts(s, id, ip, mac);
  }

  lemma RecoveryKeepsTokens(s: Store)
    ensures KeepsTokens(s.rows, Recovered(s).rows)
  {
    var t := AfterExpirePass(s);
    assert KeepsTokens(s.rows, t.rows) && KeepsTokens(t.rows, AfterPausedPass(t).rows);
  }

  lemma StepKeepsTokens(s: Store, e: Event)
    requires TableOk(s) && Enabled(s, e)
    ensures KeepsTokens(s.rows, Step(s, e).rows)
  {
    hide TableOk;
    match e
    case Credit(p, banned, target) => CreditKeepsTokens(s, p, banned, target);
    case Migrate(id, ip, mac) => MigrateKeepsTokens(s, id, ip, mac);
    case Restart => RecoveryKeepsTokens(s);
    case Reboot(down) => RecoveryKeepsTokens(s.(now := s.now + down, auth := {}));
    case _ =>
  }

  /** No run removes a row or changes a session token once it is set. */
  lemma {:induction false} TokenIsPermanent(s: Store, es: seq<Event>, id: nat)
    requires TableOk(s) && ValidRun(s, es) && id in s.rows
    ensures id in Exec(s, es).rows
    ensures s.rows[id].token != "" ==> Exec(s, es).rows[id].token == s.rows[id].token
    decreases |es|
  {
    if es != [] {
      StepKeepsTable(s, es[0]);
      StepKeepsTokens(s, es[0]);
      TokenIsPermanent(Step(s, es[0]), es[1..], id);
    }
  }
}
