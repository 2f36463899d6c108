/** The account of every row over whole runs: where each paid second went. */
module SessionLedger {
  import opened Options
  import opened Clock
  import opened Sessions
  import opened SessionAccess

  /** Clock units paid for, and where they went: served while the row was running and not expired; the
      fractions of a second that pausing cut off; added while the row was paused, which Resume does not
      know of; forfeited, when a purchase ended with time still owed; and run off during a power cut. */
  datatype Book = Book(paid: int, served: int, cutOff: int, stranded: int, forfeited: int, outage: int, pauses: nat)

  const NOTHING := Book(0, 0, 0, 0, 0, 0, 0)

  function Plus(a: Book, b: Book): Book {
    Book(a.paid + b.paid, a.served + b.served, a.cutOff + b.cutOff, a.stranded + b.stranded,
         a.forfeited + b.forfeited, a.outage + b.outage, a.pauses + b.pauses)
  }

  /** The account of a row since it was inserted, and of its current purchase alone. */
  datatype Account = Account(life: Book, current: Book)

  datatype World = World(store: Store, accounts: map<nat, Account>, lastPass: int)

  const START := World(EMPTY, map[], 0)

  predicate Running(r: Row) {
    r.status.Active? && r.pause.None?
  }

  /** What an active row still owes: the snapshot while paused, the time to expiry otherwise. */
  function Remaining(r: Row, now: int): int {
    if r.pause.Some? then r.pause.value.remaining * TICK else Max(0, r.expiresAt - now)
  }

  function Owed(r: Row, now: int): int {
    if r.status.Active? then Remaining(r, now) else 0
  }

  /** The part of the next d units in which a running row has not yet expired. */
  function LiveIn(r: Row, now: int, d: nat): int {
    if !Running(r) then 0
    else if Max(0, r.expiresAt - now) < d then Max(0, r.expiresAt - now) else d
  }

  // ---------- bookings ----------

  /** A fresh purchase on the row: a new one, or one that overwrites what the row was before. */
  ghost predicate StartsAfresh(s: Store, e: Event, id: nat)
    requires Enabled(s, e)
  {
    && e.Credit? && CreditCommits(s, e.p, e.banned, e.target)
    && (e.target == Reuse(id) || (e.target.Insert? && id == s.nextId))
  }

  /** The time the event adds to the purchase that row id already holds. */
  ghost function AddedTime(s: Store, e: Event, id: nat): int
    requires Enabled(s, e)
  {
    match e
    case Credit(p, banned, Prolong(x)) =>
      if x == id && CreditCommits(s, p, banned, e.target) then 60 * p.minutes * TICK else 0
    case Extend(x, seconds, _) =>
      if x == id && seconds > 0 && id in s.rows && s.rows[id].status.Active? then seconds * TICK else 0
    case _ => 0
  }

  /** The event ends the row's purchase: it is ended, its pause window has closed, or it is overwritten. */
  ghost predicate Terminates(s: Store, e: Event, id: nat)
    requires Enabled(s, e) && id in s.rows
  {
    var r := s.rows[id];
    match e
    case Credit(_, _, _) => StartsAfresh(s, e, id)
    case End(x, _) => x == id
    case Resume(x) => x == id && CanResume(r) && WindowClosed(r, s.now)
    case PausedPass => OverduePaused(r, s.now)
    case Restart => OverduePaused(r, s.now)
    case Reboot(down) => OverduePaused(r, s.now + down)
    case _ => false
  }

  ghost function Forfeit(s: Store, e: Event, id: nat): Book
    requires Enabled(s, e) && id in s.rows
  {
    if Terminates(s, e, id) then NOTHING.(forfeited := Owed(s.rows[id], s.now)) else NOTHING
  }

  ghost function Addition(s: Store, e: Event, id: nat): Book
    requires Enabled(s, e) && id in s.rows
  {
    var added := AddedTime(s, e, id);
    NOTHING.(paid := added, stranded := if s.rows[id].pause.Some? then added else 0)
  }

  /** The fraction of a second that a pause at this instant cuts off. */
  function Fraction(r: Row, now: int): int {
    (r.expiresAt - now) % TICK
  }

  function Passage(s: Store, e: Event, id: nat): Book
    requires id in s.rows
  {
    var r := s.rows[id];
    match e
    case Tick(d) => NOTHING.(served := LiveIn(r, s.now, d))
    case Reboot(down) => NOTHING.(outage := LiveIn(r, s.now, down))
    case Pause(x, limit) =>
      if x == id && CanPause(r, s.now, limit) then NOTHING.(cutOff := Fraction(r, s.now), pauses := 1) else NOTHING
    case _ => NOTHING
  }

  /** Everything the event books on a row that exists. */
  ghost function Posting(s: Store, e: Event, id: nat): Book
    requires Enabled(s, e) && id in s.rows
  {
    Plus(Plus(Passage(s, e, id), Forfeit(s, e, id)), Addition(s, e, id))
  }

  ghost function AccountAfter(w: World, e: Event, id: nat): Account
    requires WorldOk(w) && Enabled(w.store, e) && id in Step(w.store, e).rows
  {
    var before := if id in w.store.rows then Plus(w.accounts[id].life, Posting(w.store, e, id)) else NOTHING;
    if id !in w.store.rows || StartsAfresh(w.store, e, id) then
      var bought := NOTHING.(paid := Step(w.store, e).rows[id].total * TICK);
      Account(Plus(before, bought), bought)
    else Account(before, Plus(w.accounts[id].current, Posting(w.store, e, id)))
  }

  ghost predicate WorldOk(w: World) {
    w.accounts.Keys == w.store.rows.Keys && TableOk(w.store)
  }

  function LastPass(w: World, e: Event): int {
    match e
    case ExpirePass => w.store.now
    case Restart => w.store.now
    case Reboot(down) => w.store.now + down
    case _ => w.lastPass
  }

  ghost function Next(w: World, e: Event): World
    requires WorldOk(w) && Enabled(w.store, e)
  {
    var t := Step(w.store, e);
    World(t, map id | id in t.rows :: AccountAfter(w, e, id), LastPass(w, e))
  }

  lemma NextIsOk(w: World, e: Event)
    requires WorldOk(w) && Enabled(w.store, e)
    ensures WorldOk(Next(w, e))
  {
    StepKeepsTable(w.store, e);
  }

  /** The world after a run of the store's events. */
  ghost function Replay(w: World, es: seq<Event>): (r: World)
    requires WorldOk(w) && ValidRun(w.store, es)
    ensures WorldOk(r) && r.store == Exec(w.store, es)
    decreases |es|
  {
    if es == [] then w
    else
      NextIsOk(w, es[0]);
      Replay(Next(w, es[0]), es[1..])
  }

  // ---------- the account balances ----------

  /** Every unit paid is served, owed, cut off, stranded, forfeited or lost to a power cut; what pauses
      cut off is less than a second each. */
  predicate Adds(b: Book, owed: int) {
    && 0 <= b.served && 0 <= b.cutOff <= b.pauses * (TICK - 1)
    && 0 <= b.stranded && 0 <= b.forfeited && 0 <= b.outage
    && b.paid == b.served + owed + b.cutOff + b.stranded + b.forfeited + b.outage
  }

  predicate PauseOk(r: Row) {
    r.pause.Some? ==> 0 <= r.pause.value.remaining
  }

  predicate Balanced(r: Row, a: Account, now: int) {
    && Adds(a.life, Owed(r, now)) && Adds(a.current, Owed(r, now))
    && a.current.paid == r.total * TICK && a.current.pauses == r.pauseCount
    && (r.status.Active? ==> a.current.forfeited == 0)
    && PauseOk(r)
  }

  ghost predicate AllBalanced(w: World) {
    && w.accounts.Keys == w.store.rows.Keys
    && forall id <- w.store.rows :: Balanced(w.store.rows[id], w.accounts[id], w.store.now)
  }

  /** The posting b accounts for a row that turns from r into q while the clock goes from now to later. */
  predicate Fits(r: Row, now: int, q: Row, later: int, b: Book) {
    && Adds(b, Owed(q, later) - Owed(r, now))
    && q.total * TICK == r.total * TICK + b.paid && q.pauseCount == r.pauseCount + b.pauses
    && (q.status.Active? ==> r.status.Active? && b.forfeited == 0)
    && PauseOk(q)
  }

  lemma FittingPostingKeepsBalance(r: Row, now: int, q: Row, later: int, b: Book, a: Account)
    requires Balanced(r, a, now) && Fits(r, now, q, later, b)
    ensures Balanced(q, Account(Plus(a.life, b), Plus(a.current, b)), later)
  {
  }

  lemma WaitingFits(r: Row, now: int, d: nat)
    requires PauseOk(r)
    ensures Fits(r, now, r, now + d, NOTHING.(served := LiveIn(r, now, d)))
    ensures Fits(r, now, r, now + d, NOTHING.(outage := LiveIn(r, now, d)))
  {
  }

  lemma PauseFits(r: Row, now: int, limit: nat)
    requires CanPause(r, now, limit)
    ensures Fits(r, now, PausedRow(r, now), now, NOTHING.(cutOff := Fraction(r, now), pauses := 1))
  {
  }

  lemma AddingFits(r: Row, now: int, seconds: int, q: Row)
    requires r.status.Active? && PauseOk(r) && seconds > 0
    requires q.total == r.total + seconds && q.expiresAt == Max(r.expiresAt, now) + seconds * TICK
    requires q.status == r.status && q.pause == r.pause && q.pauseCount == r.pauseCount
    ensures var added := seconds * TICK;
            Fits(r, now, q, now, NOTHING.(paid := added, stranded := if r.pause.Some? then added else 0))
  {
  }

  lemma EndingFits(r: Row, now: int, q: Row)
    requires PauseOk(r) && PauseOk(q) && !q.status.Active? && q.total == r.total && q.pauseCount == r.pauseCount
    ensures Fits(r, now, q, now, NOTHING.(forfeited := Owed(r, now)))
  {
  }

  /** A row that changes nothing the account depends on, or resumes, or expires when overdue. */
  lemma KeepingFits(r: Row, now: int, q: Row)
    requires PauseOk(r) && PauseOk(q) && q.total == r.total && q.pauseCount == r.pauseCount
    requires Owed(q, now) == Owed(r, now) && (q.status.Active? ==> r.status.Active?)
    ensures Fits(r, now, q, now, NOTHING)
  {
  }

  lemma FittingInTwoSteps(r: Row, now: int, q: Row, later: int, t: Row, b: Book, c: Book)
    requires Fits(r, now, q, later, b) && Fits(q, later, t, later, c)
    ensures Fits(r, now, t, later, Plus(b, c))
  {
  }

  // ---------- what each event books ----------

  lemma NoPassage(s: Store, e: Event, id: nat)
    requires Enabled(s, e) && id in s.rows && !e.Tick? && !e.Reboot? && !e.Pause?
    ensures Passage(s, e, id) == NOTHING
  {
  }

  lemma NoForfeit(s: Store, e: Event, id: nat)
    requires Enabled(s, e) && id in s.rows && !Terminates(s, e, id)
    ensures Forfeit(s, e, id) == NOTHING
  {
  }

  lemma NoAddition(s: Store, e: Event, id: nat)
    requires Enabled(s, e) && id in s.rows && AddedTime(s, e, id) == 0
    ensures Addition(s, e, id) == NOTHING
  {
  }

  lemma PlusNothing(b: Book)
    ensures Plus(b, NOTHING) == b && Plus(NOTHING, b) == b
  {
  }

  lemma OnlyPassage(s: Store, e: Event, id: nat)
    requires Enabled(s, e) && id in s.rows && (e.Tick? || e.Pause? || e.ExpirePass? || e.Migrate?)
    ensures Posting(s, e, id) == Passage(s, e, id)
  {
    hide Plus, Passage, Forfeit, Addition;
    NoForfeit(s, e, id);
    NoAddition(s, e, id);
    PlusNothing(Passage(s, e, id));
  }

  lemma OnlyForfeit(s: Store, e: Event, id: nat)
    requires Enabled(s, e) && id in s.rows && AddedTime(s, e, id) == 0
    requires !e.Tick? && !e.Reboot? && !e.Pause?
    ensures Posting(s, e, id) == Forfeit(s, e, id)
  {
    hide Plus, Passage, Forfeit, Addition;
    NoPassage(s, e, id);
    NoAddition(s, e, id);
    PlusNothing(Forfeit(s, e, id));
  }

  lemma NotTerminated(s: Store, e: Event, id: nat)
    requires Enabled(s, e) && id in s.rows && (e.Extend? || (e.Credit? && !StartsAfresh(s, e, id)))
    ensures !Terminates(s, e, id)
  {
  }

  lemma OnlyAddition(s: Store, e: Event, id: nat)
    requires Enabled(s, e) && id in s.rows && (e.Extend? || (e.Credit? && !StartsAfresh(s, e, id)))
    ensures Posting(s, e, id) == Addition(s, e, id)
  {
    hide Plus, Passage, Forfeit, Addition, Terminates;
    NoPassage(s, e, id);
    NotTerminated(s, e, id);
    NoForfeit(s, e, id);
    PlusNothing(Addition(s, e, id));
    PlusNothing(NOTHING);
  }

  lemma OutageAndForfeit(s: Store, e: Event, id: nat)
    requires Enabled(s, e) && id in s.rows && e.Reboot?
    ensures Posting(s, e, id) == Plus(Passage(s, e, id), Forfeit(s, e, id))
  {
    hide Plus, Passage, Forfeit, Addition;
    NoAddition(s, e, id);
    PlusNothing(Plus(Passage(s, e, id), Forfeit(s, e, id)));
  }

  lemma RebootBooks(s: Store, down: nat, id: nat)
    requires id in s.rows
    ensures Passage(s, Reboot(down), id) == NOTHING.(outage := LiveIn(s.rows[id], s.now, down))
    ensures var r, later := s.rows[id], s.now + down;
            Forfeit(s, Reboot(down), id) == NOTHING.(forfeited := if OverduePaused(r, later) then Owed(r, later) else 0)
  {
    hide LiveIn;
  }

  ghost predicate Explains(s: Store, e: Event, id: nat)
    requires Enabled(s, e) && id in s.rows && id in Step(s, e).rows
  {
    Fits(s.rows[id], s.now, Step(s, e).rows[id], Step(s, e).now, Posting(s, e, id))
  }

  lemma TickExplained(s: Store, d: nat, id: nat)
    requires id in s.rows && PauseOk(s.rows[id])
    ensures id in Step(s, Tick(d)).rows && Explains(s, Tick(d), id)
  {
    hide Fits, LiveIn, Posting;
    OnlyPassage(s, Tick(d), id);
    WaitingFits(s.rows[id], s.now, d);
  }

  lemma PauseExplained(s: Store, x: nat, limit: nat, id: nat)
    requires id in s.rows && PauseOk(s.rows[id])
    ensures var e := Pause(x, limit); id in Step(s, e).rows && Explains(s, e, id)
  {
    hide Fits, Fraction, PausedRow, CanPause, Posting;
    OnlyPassage(s, Pause(x, limit), id);
    KeepingFits(s.rows[id], s.now, s.rows[id]);
    if CanPause(s.rows[id], s.now, limit) {
      PauseFits(s.rows[id], s.now, limit);
    }
  }

  lemma ExtendExplained(s: Store, x: nat, seconds: int, coins: int, id: nat)
    requires id in s.rows && PauseOk(s.rows[id])
    ensures var e := Extend(x, seconds, coins); id in Step(s, e).rows && Explains(s, e, id)
  {
    hide Fits, Posting;
    var e := Extend(x, seconds, coins);
    OnlyAddition(s, e, id);
    KeepingFits(s.rows[id], s.now, s.rows[id]);
    if x == id && seconds > 0 && s.rows[id].status.Active? {
      AddingFits(s.rows[id], s.now, seconds, ExtendedRow(s.rows[id], s.now, seconds, coins));
    }
  }

  lemma EndExplained(s: Store, x: nat, cancelled: bool, id: nat)
    requires id in s.rows && PauseOk(s.rows[id])
    ensures var e := End(x, cancelled); id in Step(s, e).rows && Explains(s, e, id)
  {
    hide Fits, Posting;
    var e := End(x, cancelled);
    OnlyForfeit(s, e, id);
    KeepingFits(s.rows[id], s.now, s.rows[id]);
    if x == id {
      EndingFits(s.rows[id], s.now, Step(s, e).rows[id]);
    }
  }

  lemma ResumeExplained(s: Store, x: nat, id: nat)
    requires id in s.rows && PauseOk(s.rows[id])
    ensures id in Step(s, Resume(x)).rows && Explains(s, Resume(x), id)
  {
    hide Fits, Posting;
    OnlyForfeit(s, Resume(x), id);
    var q := Step(s, Resume(x)).rows[id];
    if Terminates(s, Resume(x), id) {
      EndingFits(s.rows[id], s.now, q);
    } else {
      KeepingFits(s.rows[id], s.now, q);
    }
  }

  lemma ExpirePassExplained(s: Store, id: nat)
    requires id in s.rows && PauseOk(s.rows[id])
    ensures id in Step(s, ExpirePass).rows && Explains(s, ExpirePass, id)
  {
    hide Fits, Posting;
    OnlyPassage(s, ExpirePass, id);
    KeepingFits(s.rows[id], s.now, Step(s, ExpirePass).rows[id]);
  }

  lemma PausedPassExplained(s: Store, id: nat)
    requires id in s.rows && PauseOk(s.rows[id])
    ensures id in Step(s, PausedPass).rows && Explains(s, PausedPass, id)
  {
    hide Fits, Posting;
    OnlyForfeit(s, PausedPass, id);
    var q := Step(s, PausedPass).rows[id];
    if OverduePaused(s.rows[id], s.now) {
      EndingFits(s.rows[id], s.now, q);
    } else {
      KeepingFits(s.rows[id], s.now, q);
    }
  }

  /** What the two passes of a starting enforcer make of a row. */
  lemma RecoveredRow(s: Store, id: nat)
    requires id in s.rows && PauseOk(s.rows[id])
    ensures Recovered(s).now == s.now && id in Recovered(s).rows
    ensures var r, q := s.rows[id], Recovered(s).rows[id];
            Fits(r, s.now, q, s.now, NOTHING.(forfeited := if OverduePaused(r, s.now) then Owed(r, s.now) else 0))
  {
    hide Fits;
    var q := Recovered(s).rows[id];
    if OverduePaused(s.rows[id], s.now) {
      EndingFits(s.rows[id], s.now, q);
    } else {
      assert NOTHING.(forfeited := 0) == NOTHING;
      KeepingFits(s.rows[id], s.now, q);
    }
  }

  lemma RestartExplained(s: Store, id: nat)
    requires id in s.rows && PauseOk(s.rows[id])
    ensures id in Step(s, Restart).rows && Explains(s, Restart, id)
  {
    hide Fits, Recovered, Posting;
    OnlyForfeit(s, Restart, id);
    RecoveredRow(s, id);
  }

  lemma RebootExplained(s: Store, down: nat, id: nat)
    requires id in s.rows && PauseOk(s.rows[id])
    ensures id in Step(s, Reboot(down)).rows && Explains(s, Reboot(down), id)
  {
    hide Fits, Recovered, LiveIn, Posting, Passage, Forfeit, Plus, Owed, OverduePaused;
    var e, r, cut := Reboot(down), s.rows[id], s.(now := s.now + down, auth := {});
    OutageAndForfeit(s, e, id);
    RebootBooks(s, down, id);
    RecoveredRow(cut, id);
    WaitingFits(r, s.now, down);
    FittingInTwoSteps(r, s.now, r, cut.now, Recovered(cut).rows[id], NOTHING.(outage := LiveIn(r, s.now, down)),
                      NOTHING.(forfeited := if OverduePaused(r, cut.now) then Owed(r, cut.now) else 0));
  }

  lemma MigrationExplained(s: Store, x: nat, ip: string, mac: string, id: nat)
    requires id in s.rows && PauseOk(s.rows[id]) && TableOk(s)
    ensures var e := Migrate(x, ip, mac); id in Step(s, e).rows && Explains(s, e, id)
  {
    hide Fits, TableOk, MigratedRows, CanMigrate, Posting;
    var e := Migrate(x, ip, mac);
    OnlyPassage(s, e, id);
    MigrationMovesOrAborts(s, x, ip, mac);
    assert Step(s, e) == Migrated(s, x, ip, mac);
    KeepingFits(s.rows[id], s.now, s.rows[id]);
    KeepingFits(s.rows[id], s.now, s.rows[id].(ip := ip, mac := mac));
  }

  lemma CreditExplained(s: Store, p: Purchase, banned: bool, target: Target, id: nat)
    requires id in s.rows && PauseOk(s.rows[id]) && TableOk(s) && TargetOk(s, p, target) && p.minutes > 0
    requires !StartsAfresh(s, Credit(p, banned, target), id)
    ensures var e := Credit(p, banned, target); id in Step(s, e).rows && Explains(s, e, id)
  {
    hide Fits, CreditCommits, TokenIndexOk, MacIndexOk, Posting;
    var e := Credit(p, banned, target);
    OnlyAddition(s, e, id);
    KeepingFits(s.rows[id], s.now, s.rows[id]);
    if target == Prolong(id) {
      AddingFits(s.rows[id], s.now, 60 * p.minutes, ProlongedRow(s, id, p));
    }
  }

  lemma StepExplained(s: Store, e: Event, id: nat)
    requires id in s.rows && PauseOk(s.rows[id])
    requires Enabled(s, e) && TableOk(s) && !StartsAfresh(s, e, id)
    ensures id in Step(s, e).rows && Explains(s, e, id)
  {
    hide Explains, Step, TableOk, StartsAfresh, PauseOk;
    match e
    case Credit(p, banned, target) => CreditExplained(s, p, banned, target, id);
    case Migrate(x, ip, mac) => MigrationExplained(s, x, ip, mac, id);
    case Extend(x, seconds, coins) => ExtendExplained(s, x, seconds, coins, id);
    case End(x, cancelled) => EndExplained(s, x, cancelled, id);
    case Resume(x) => ResumeExplained(s, x, id);
    case Pause(x, limit) => PauseExplained(s, x, limit, id);
    case Tick(d) => TickExplained(s, d, id);
    case Reboot(down) => RebootExplained(s, down, id);
    case Restart => RestartExplained(s, id);
    case ExpirePass => ExpirePassExplained(s, id);
    case PausedPass => PausedPassExplained(s, id);
  }

  /** A fresh purchase forfeits what the row still owed and opens a new current account. */
  lemma FreshStartBalances(w: World, e: Event, id: nat)
    requires WorldOk(w) && AllBalanced(w) && Enabled(w.store, e)
    requires id in Step(w.store, e).rows && (id !in w.store.rows || StartsAfresh(w.store, e, id))
    ensures Balanced(Step(w.store, e).rows[id], AccountAfter(w, e, id), Step(w.store, e).now)
  {
    hide Posting, StartsAfresh, Step, TableOk, Balanced;
    if id in w.store.rows {
      OnlyForfeitsWhenRenewed(w.store, e, id);
      RenewedRow(w.store, e, id);
      RenewalBalances(w.store.rows[id], w.accounts[id], w.store.now, Step(w.store, e).rows[id]);
    } else {
      NewRowsAreFresh(w.store, e, id);
      RenewedRow(w.store, e, id);
      InsertionBalances(Step(w.store, e).rows[id], w.store.now);
    }
  }

  lemma RenewedRow(s: Store, e: Event, id: nat)
    requires TableOk(s) && Enabled(s, e) && StartsAfresh(s, e, id)
    ensures Step(s, e).now == s.now && id in Step(s, e).rows && IsFresh(Step(s, e).rows[id], s.now)
  {
  }

  predicate IsFresh(r: Row, now: int) {
    r.status.Active? && r.pause.None? && r.pauseCount == 0 && r.expiresAt == now + r.total * TICK && r.total >= 0
  }

  lemma OnlyForfeitsWhenRenewed(s: Store, e: Event, id: nat)
    requires Enabled(s, e) && id in s.rows && StartsAfresh(s, e, id)
    ensures Posting(s, e, id) == NOTHING.(forfeited := Owed(s.rows[id], s.now))
  {
    hide Posting, Owed;
    OnlyForfeit(s, e, id);
  }

  lemma RenewalBalances(r: Row, a: Account, now: int, q: Row)
    requires Balanced(r, a, now) && IsFresh(q, now)
    ensures var bought := NOTHING.(paid := q.total * TICK);
            Balanced(q, Account(Plus(Plus(a.life, NOTHING.(forfeited := Owed(r, now))), bought), bought), now)
  {
    assert q.total * TICK >= 0;
    assert Owed(r, now) >= 0;
  }

  lemma InsertionBalances(q: Row, now: int)
    requires IsFresh(q, now)
    ensures var bought := NOTHING.(paid := q.total * TICK); Balanced(q, Account(Plus(NOTHING, bought), bought), now)
  {
    assert q.total * TICK >= 0;
  }

  lemma NewRowsAreFresh(s: Store, e: Event, id: nat)
    requires TableOk(s) && Enabled(s, e) && id in Step(s, e).rows && id !in s.rows
    ensures StartsAfresh(s, e, id)
  {
    if e.Migrate? {
      MigrationMovesOrAborts(s, e.id, e.ip, e.mac);
    }
  }

  lemma StepKeepsBalance(w: World, e: Event)
    requires WorldOk(w) && AllBalanced(w) && Enabled(w.store, e)
    ensures AllBalanced(Next(w, e))
  {
    hide Step, Enabled, Balanced, StartsAfresh, Posting, TableOk, Fits;
    var t := Step(w.store, e);
    forall id <- t.rows
      ensures Balanced(t.rows[id], AccountAfter(w, e, id), t.now)
    {
      if id !in w.store.rows || StartsAfresh(w.store, e, id) {
        FreshStartBalances(w, e, id);
      } else {
        BalancedPause(w.store.rows[id], w.accounts[id], w.store.now);
        StepExplained(w.store, e, id);
        FittingPostingKeepsBalance(
          w.store.rows[id], w.store.now, t.rows[id], t.now, Posting(w.store, e, id), w.accounts[id]);
      }
    }
  }

  lemma BalancedPause(r: Row, a: Account, now: int)
    requires Balanced(r, a, now)
    ensures PauseOk(r)
  {
  }

  /** The accounts balance in every state of every run, with no hypothesis on the run. */
  lemma {:induction false} AccountBalancesOverRuns(w: World, es: seq<Event>)
    requires WorldOk(w) && AllBalanced(w) && ValidRun(w.store, es)
    ensures AllBalanced(Replay(w, es))
    decreases |es|
  {
    if es != [] {
      NextIsOk(w, es[0]);
      StepKeepsBalance(w, es[0]);
      AccountBalancesOverRuns(Next(w, es[0]), es[1..]);
    }
  }

  /** In every run from an empty table, a row runs unexpired for no longer than it was paid for, and what
      it has run together with what it still owes never exceeds that either, both for its current
      purchase and over all its purchases. */
  lemma NeverOverServes(es: seq<Event>, id: nat)
    requires ValidRun(EMPTY, es) && id in Exec(EMPTY, es).rows
    ensures var w := Replay(START, es); var r := w.store.rows[id]; var a := w.accounts[id];
            && a.current.paid == r.total * TICK
            && a.current.served + Owed(r, w.store.now) <= a.current.paid
            && a.life.served + Owed(r, w.store.now) <= a.life.paid
  {
    AccountBalancesOverRuns(START, es);
  }

  // ---------- what one credit gives ----------

  /** A committed credit adds exactly its minutes and pesos to the device's live session, or starts a
      fresh one with exactly those and the purchase's pause rules; it touches no other row. */
  lemma CommittedCreditGivesItsMinutes(s: Store, p: Purchase, target: Target)
    requires TableOk(s) && TargetOk(s, p, target) && p.minutes > 0 && CreditCommits(s, p, false, target)
    ensures var t := Credited(s, p, false, target); var id := if target.Insert? then s.nextId else target.id;
            && id in t.rows && t.rows - {id} == s.rows - {id}
            && var r := t.rows[id];
               && r.status.Active? && r.ip == p.ip
               && if target.Prolong? then
                    && r.total == s.rows[id].total + 60 * p.minutes && r.coins == s.rows[id].coins + p.coins
                    && r.pause == s.rows[id].pause && r.pauseCount == s.rows[id].pauseCount
                    && (r.pause.None? ==>
                          Owed(r, t.now) == Owed(s.rows[id], s.now) + 60 * p.minutes * TICK)
                  else
                    && r.total == 60 * p.minutes && r.coins == p.coins && r.mac == p.mac && r.startedAt == t.now
                    && r.pause.None? && r.pauseCount == 0 && r.pausable == p.pausable && r.hours == p.hours
                    && Owed(r, t.now) == 60 * p.minutes * TICK
  {
    var t := Credited(s, p, false, target);
    var id := if target.Insert? then s.nextId else target.id;
    assert forall x :: x in (t.rows - {id}).Keys <==> x in (s.rows - {id}).Keys;
  }

  // ---------- exactly when paid time is lost ----------

  /** The three ways to lose paid time beyond the fraction of a second that a pause cuts off. */
  datatype Loss = Stranding | Forfeiture | Outage

  function Amount(b: Book, k: Loss): int {
    match k case Stranding => b.stranded case Forfeiture => b.forfeited case Outage => b.outage
  }

  /** The event loses time of row id in this way. Each case is the guard of the branch that does it. */
  ghost predicate Incurs(s: Store, e: Event, id: nat, k: Loss)
    requires Enabled(s, e)
  {
    && id in s.rows && s.rows[id].status.Active?
    && var r := s.rows[id];
       match k
       case Stranding => r.pause.Some? && AddedTime(s, e, id) > 0
       case Forfeiture =>
         Terminates(s, e, id) && if r.pause.Some? then r.pause.value.remaining > 0 else r.expiresAt > s.now
       case Outage => e.Reboot? && e.down > 0 && r.pause.None? && r.expiresAt > s.now
  }

  lemma PassageLosesIff(s: Store, e: Event, id: nat)
    requires Enabled(s, e) && id in s.rows
    ensures var b := Passage(s, e, id);
            b.stranded == 0 && b.forfeited == 0 && b.outage >= 0 && (b.outage > 0 <==> Incurs(s, e, id, Outage))
  {
    hide Fraction;
  }

  lemma ForfeitLosesIff(s: Store, e: Event, id: nat)
    requires Enabled(s, e) && id in s.rows && PauseOk(s.rows[id])
    ensures var b := Forfeit(s, e, id);
            && b.stranded == 0 && b.outage == 0 && b.forfeited >= 0
            && (b.forfeited > 0 <==> Incurs(s, e, id, Forfeiture))
            && (Incurs(s, e, id, Forfeiture) ==> b.forfeited == Owed(s.rows[id], s.now))
  {
    hide Terminates;
  }

  lemma AdditionLosesIff(s: Store, e: Event, id: nat)
    requires Enabled(s, e) && id in s.rows
    ensures var b := Addition(s, e, id);
            b.forfeited == 0 && b.outage == 0 && b.stranded >= 0 && (b.stranded > 0 <==> Incurs(s, e, id, Stranding))
  {
    hide CreditCommits;
  }

  /** The posting loses time in a way exactly when the guard of that way holds, and a forfeiture takes
      everything the row owed. */
  lemma PostingLosesIff(s: Store, e: Event, id: nat, k: Loss)
    requires Enabled(s, e) && id in s.rows && PauseOk(s.rows[id])
    ensures Amount(Posting(s, e, id), k) >= 0
    ensures Amount(Posting(s, e, id), k) > 0 <==> Incurs(s, e, id, k)
    ensures Incurs(s, e, id, Forfeiture) ==> Posting(s, e, id).forfeited == Owed(s.rows[id], s.now)
  {
    hide Passage, Forfeit, Addition, Incurs;
    PassageLosesIff(s, e, id);
    ForfeitLosesIff(s, e, id);
    AdditionLosesIff(s, e, id);
  }

  /** One step: which of the row's accounts records a loss, and when. */
  lemma StepLosesIff(w: World, e: Event, id: nat, k: Loss)
    requires WorldOk(w) && AllBalanced(w) && Enabled(w.store, e) && id in w.store.rows
    ensures id in Next(w, e).accounts
    ensures var before, after := w.accounts[id], Next(w, e).accounts[id];
            && Amount(before.life, k) <= Amount(after.life, k)
            && (Amount(before.life, k) < Amount(after.life, k) <==> Incurs(w.store, e, id, k))
            && (Incurs(w.store, e, id, Forfeiture) ==>
                  after.life.forfeited == before.life.forfeited + Owed(w.store.rows[id], w.store.now))
  {
    hide Incurs, Posting, Step, TableOk, StartsAfresh;
    BalancedPause(w.store.rows[id], w.accounts[id], w.store.now);
    PostingLosesIff(w.store, e, id, k);
    PostingLosesIff(w.store, e, id, Forfeiture);
    StepKeepsRow(w.store, e, id);
  }

  lemma StepKeepsRow(s: Store, e: Event, id: nat)
    requires TableOk(s) && Enabled(s, e) && id in s.rows
    ensures id in Step(s, e).rows
  {
    StepKeepsTokens(s, e);
  }

  function LifeLoss(w: World, id: nat, k: Loss): int {
    if id in w.accounts then Amount(w.accounts[id].life, k) else 0
  }

  function CurrentLoss(w: World, id: nat, k: Loss): int {
    if id in w.accounts then Amount(w.accounts[id].current, k) else 0
  }

  lemma LossesAreNotNegative(r: Row, a: Account, now: int, k: Loss)
    requires Balanced(r, a, now)
    ensures Amount(a.life, k) >= 0 && Amount(a.current, k) >= 0 && PauseOk(r)
  {
  }

  lemma StepLosses(w: World, e: Event, id: nat, k: Loss)
    requires WorldOk(w) && AllBalanced(w) && Enabled(w.store, e)
    ensures LifeLoss(w, id, k) >= 0 && CurrentLoss(w, id, k) >= 0
    ensures LifeLoss(Next(w, e), id, k) == 0 <==> LifeLoss(w, id, k) == 0 && !Incurs(w.store, e, id, k)
    ensures CurrentLoss(Next(w, e), id, k) == 0 <==>
            StartsAfresh(w.store, e, id) || (CurrentLoss(w, id, k) == 0 && !Incurs(w.store, e, id, k))
  {
    hide Incurs, Posting, Step, TableOk, StartsAfresh, Enabled, Owed, Balanced;
    if id in w.store.rows {
      LossesAreNotNegative(w.store.rows[id], w.accounts[id], w.store.now, k);
      PostingLosesIff(w.store, e, id, k);
      StepKeepsRow(w.store, e, id);
    } else {
      NotYetIncurred(w.store, e, id, k);
    }
  }

  lemma NotYetIncurred(s: Store, e: Event, id: nat, k: Loss)
    requires Enabled(s, e) && id !in s.rows
    ensures !Incurs(s, e, id, k)
  {
  }

  /** Some event of the run loses time of row id in this way. */
  ghost predicate Incurred(s: Store, es: seq<Event>, id: nat, k: Loss)
    requires ValidRun(s, es)
    decreases |es|
  {
    es != [] && (Incurs(s, es[0], id, k) || Incurred(Step(s, es[0]), es[1..], id, k))
  }

  ghost predicate Renewed(s: Store, es: seq<Event>, id: nat)
    requires ValidRun(s, es)
    decreases |es|
  {
    es != [] && (StartsAfresh(s, es[0], id) || Renewed(Step(s, es[0]), es[1..], id))
  }

  /** Some event after the last fresh purchase on row id loses its time in this way. */
  ghost predicate IncurredSince(s: Store, es: seq<Event>, id: nat, k: Loss)
    requires ValidRun(s, es)
    decreases |es|
  {
    && es != []
    && (|| (Incurs(s, es[0], id, k) && !StartsAfresh(s, es[0], id) && !Renewed(Step(s, es[0]), es[1..], id))
        || IncurredSince(Step(s, es[0]), es[1..], id, k))
  }

  lemma {:induction false} LossesOverRuns(w: World, es: seq<Event>, id: nat, k: Loss)
    requires WorldOk(w) && AllBalanced(w) && ValidRun(w.store, es)
    ensures LifeLoss(Replay(w, es), id, k) == 0 <==> LifeLoss(w, id, k) == 0 && !Incurred(w.store, es, id, k)
    ensures CurrentLoss(Replay(w, es), id, k) == 0 <==>
            !IncurredSince(w.store, es, id, k) && (Renewed(w.store, es, id) || CurrentLoss(w, id, k) == 0)
    decreases |es|
  {
    hide Incurs, StartsAfresh, Step, TableOk, Enabled, LifeLoss, CurrentLoss;
    if es != [] {
      NextIsOk(w, es[0]);
      StepKeepsBalance(w, es[0]);
      StepLosses(w, es[0], id, k);
      LossesOverRuns(Next(w, es[0]), es[1..], id, k);
    }
  }

  /** In every run, and for every row over all its purchases: what was paid and neither served nor is
      still owed is cut off, stranded, forfeited or lost to power cuts; the cut-off part is less than a
      second per pause; and each other part is zero if and only if no event of the run incurred it. */
  lemma NoLossBeyondTruncation(es: seq<Event>, id: nat)
    requires ValidRun(EMPTY, es) && id in Exec(EMPTY, es).rows
    ensures var w := Replay(START, es); var b := w.accounts[id].life;
            var lost := b.paid - b.served - Owed(w.store.rows[id], w.store.now);
            && 0 <= b.cutOff <= b.pauses * (TICK - 1)
            && lost == b.cutOff + b.stranded + b.forfeited + b.outage
            && (b.stranded == 0 <==> !Incurred(EMPTY, es, id, Stranding))
            && (b.forfeited == 0 <==> !Incurred(EMPTY, es, id, Forfeiture))
            && (b.outage == 0 <==> !Incurred(EMPTY, es, id, Outage))
            && (lost == b.cutOff <==> forall k: Loss :: !Incurred(EMPTY, es, id, k))
  {
    AccountBalancesOverRuns(START, es);
    LossesOverRuns(START, es, id, Stranding);
    LossesOverRuns(START, es, id, Forfeiture);
    LossesOverRuns(START, es, id, Outage);
    forall k: Loss | Incurred(EMPTY, es, id, k)
      ensures k == Stranding || k == Forfeiture || k == Outage
    {
    }
  }

  /** The same for the current purchase of a row and the events since it began. An active one has
      forfeited nothing. */
  lemma PurchaseLosesIff(es: seq<Event>, id: nat)
    requires ValidRun(EMPTY, es) && id in Exec(EMPTY, es).rows
    ensures var w := Replay(START, es); var r := w.store.rows[id]; var b := w.accounts[id].current;
            var lost := r.total * TICK - b.served - Owed(r, w.store.now);
            && 0 <= b.cutOff <= r.pauseCount * (TICK - 1)
            && lost == b.cutOff + b.stranded + b.forfeited + b.outage
            && (b.stranded == 0 <==> !IncurredSince(EMPTY, es, id, Stranding))
            && (b.outage == 0 <==> !IncurredSince(EMPTY, es, id, Outage))
            && (b.forfeited == 0 <==> !IncurredSince(EMPTY, es, id, Forfeiture))
            && (r.status.Active? ==> b.forfeited == 0)
  {
    AccountBalancesOverRuns(START, es);
    LossesOverRuns(START, es, id, Stranding);
    LossesOverRuns(START, es, id, Forfeiture);
    LossesOverRuns(START, es, id, Outage);
  }

  /** Seconds added to a live purchase, by a payment or by the administrator, are owed if and only if the
      row is not paused; to a paused row they enter the total, and what it resumes with stays the same. */
  lemma TimeAddedWhilePausedIsLost(s: Store, e: Event, id: nat)
    requires TableOk(s) && Enabled(s, e) && id in s.rows && AddedTime(s, e, id) > 0
    ensures var added := AddedTime(s, e, id); var r := s.rows[id]; var q := Step(s, e).rows[id];
            && q.total * TICK == r.total * TICK + added && q.status.Active? && q.pause == r.pause
            && (Owed(q, s.now) == Owed(r, s.now) + added <==> r.pause.None?)
            && (r.pause.Some? ==> Owed(q, s.now) == Owed(r, s.now)
                                  && ResumedRow(q, s.now).expiresAt == ResumedRow(r, s.now).expiresAt)
  {
  }

  // ---------- three runs that lose paid time ----------

  lemma FirstIncurs(s: Store, e: Event, es: seq<Event>, id: nat, k: Loss)
    requires Enabled(s, e) && ValidRun(Step(s, e), es) && ValidRun(s, [e] + es)
    ensures Incurred(s, [e] + es, id, k) <==> Incurs(s, e, id, k) || Incurred(Step(s, e), es, id, k)
    ensures Renewed(s, [e] + es, id) <==> StartsAfresh(s, e, id) || Renewed(Step(s, e), es, id)
    ensures IncurredSince(s, [e] + es, id, k) <==>
            || (Incurs(s, e, id, k) && !StartsAfresh(s, e, id) && !Renewed(Step(s, e), es, id))
            || IncurredSince(Step(s, e), es, id, k)
  {
    hide Incurs, StartsAfresh, Step, Enabled;
    assert ([e] + es)[1..] == es;
  }

  /** A device buys an hour. */
  function HourBought(): Event {
    Credit(Payment("10.0.0.2", "aa", "t1"), false, Insert)
  }

  function HourRow(): Row {
    FreshRow(0, Payment("10.0.0.2", "aa", "t1"), "t1")
  }

  function PausedHourRow(): Row {
    HourRow().(pause := Some(PauseMark(0, 3600, None)), pauseCount := 1)
  }

  function OneRow(now: int, r: Row, auth: set<string>): Store {
    Store(now, map[0 := r], 1, auth)
  }

  /** The hour is bought and paused at once. */
  lemma HourIsBoughtAndPaused(es: seq<Event>)
    requires ValidRun(OneRow(0, PausedHourRow(), {}), es)
    ensures var run := [HourBought()] + ([Pause(0, 0)] + es);
            && ValidRun(EMPTY, run) && Exec(EMPTY, run) == Exec(OneRow(0, PausedHourRow(), {}), es)
            && forall k: Loss ::
                 && (Incurred(EMPTY, run, 0, k) <==> Incurred(OneRow(0, PausedHourRow(), {}), es, 0, k))
                 && (IncurredSince(EMPTY, run, 0, k) <==> IncurredSince(OneRow(0, PausedHourRow(), {}), es, 0, k))
  {
    var s := OneRow(0, HourRow(), {"aa"});
    assert Step(EMPTY, HourBought()) == s;
    assert PausedRow(HourRow(), 0) == PausedHourRow();
    assert Step(s, Pause(0, 0)) == OneRow(0, PausedHourRow(), {});
    hide Step, Incurred, IncurredSince;
    FirstStep(s, Pause(0, 0), es);
    FirstStep(EMPTY, HourBought(), [Pause(0, 0)] + es);
    forall k: Loss
      ensures Incurred(EMPTY, [HourBought()] + ([Pause(0, 0)] + es), 0, k) <==>
              Incurred(OneRow(0, PausedHourRow(), {}), es, 0, k)
      ensures IncurredSince(EMPTY, [HourBought()] + ([Pause(0, 0)] + es), 0, k) <==>
              IncurredSince(OneRow(0, PausedHourRow(), {}), es, 0, k)
    {
      FirstIncurs(s, Pause(0, 0), es, 0, k);
      FirstIncurs(EMPTY, HourBought(), [Pause(0, 0)] + es, 0, k);
    }
  }

  /** Exactly this payment buys one more minute. */
  function MinuteMore(): Purchase {
    Payment("10.0.0.2", "aa", "t2").(minutes := 1)
  }

  function MinuteAdded(byPayment: bool): Event {
    if byPayment then Credit(MinuteMore(), false, Prolong(0)) else Extend(0, 60, 0)
  }

  function LongerPausedRow(byPayment: bool): Row {
    PausedHourRow().(total := 3660, expiresAt := 3660 * TICK, coins := if byPayment then 10 else 5)
  }

  lemma MinuteIsStranded(byPayment: bool)
    ensures var s := OneRow(0, PausedHourRow(), {}); var add := MinuteAdded(byPayment);
            && Enabled(s, add) && Incurs(s, add, 0, Stranding) && !StartsAfresh(s, add, 0)
            && Step(s, add) == OneRow(0, LongerPausedRow(byPayment), {"aa"})
  {
    assert OneRow(0, PausedHourRow(), {}).rows[0].mac == "aa";
  }

  lemma LongerRowResumes(byPayment: bool)
    ensures var t := OneRow(0, LongerPausedRow(byPayment), {"aa"});
            && Step(t, Resume(0)) ==
               OneRow(0, LongerPausedRow(byPayment).(pause := None, expiresAt := 3600 * TICK), {"aa"})
            && !StartsAfresh(t, Resume(0), 0)
  {
  }

  /** A minute added to the paused row, by the administrator or by a payment, is gone when it resumes. */
  lemma StrandedMinuteRun(byPayment: bool)
    ensures var es := [HourBought()] + ([Pause(0, 0)] + ([MinuteAdded(byPayment)] + [Resume(0)]));
            && ValidRun(EMPTY, es) && Exec(EMPTY, es).now == 0 && Exec(EMPTY, es).rows.Keys == {0}
            && Running(Exec(EMPTY, es).rows[0])
            && Exec(EMPTY, es).rows[0].total == 3660 && Owed(Exec(EMPTY, es).rows[0], 0) == 3600 * TICK
            && Replay(START, es).accounts[0].current.stranded > 0
  {
    var add := MinuteAdded(byPayment);
    var s, t := OneRow(0, PausedHourRow(), {}), OneRow(0, LongerPausedRow(byPayment), {"aa"});
    var u := OneRow(0, LongerPausedRow(byPayment).(pause := None, expiresAt := 3600 * TICK), {"aa"});
    var es := [HourBought()] + ([Pause(0, 0)] + ([add] + [Resume(0)]));
    MinuteIsStranded(byPayment);
    LongerRowResumes(byPayment);
    hide Step, Incurs, StartsAfresh, Enabled, Incurred, IncurredSince, Renewed, MinuteAdded, HourBought;
    TwoSteps(s, add, t, Resume(0), u);
    HourIsBoughtAndPaused([add] + [Resume(0)]);
    PurchaseLosesIff(es, 0);
    AccountBalancesOverRuns(START, es);
    LossesAreNotNegative(u.rows[0], Replay(START, es).accounts[0], 0, Stranding);
  }

  /** What a run of two steps loses of row 0. */
  lemma TwoSteps(s: Store, e: Event, t: Store, f: Event, u: Store)
    requires Enabled(s, e) && Step(s, e) == t && Enabled(t, f) && Step(t, f) == u
    ensures ValidRun(s, [e] + [f]) && Exec(s, [e] + [f]) == u
    ensures forall k :: Incurred(s, [e] + [f], 0, k) <==> Incurs(s, e, 0, k) || Incurs(t, f, 0, k)
    ensures !StartsAfresh(s, e, 0) && !StartsAfresh(t, f, 0) ==>
              forall k :: IncurredSince(s, [e] + [f], 0, k) <==> Incurs(s, e, 0, k) || Incurs(t, f, 0, k)
  {
    hide Incurs, Step, StartsAfresh;
    assert [f] + [] == [f];
    FirstStep(t, f, []);
    FirstStep(s, e, [f]);
    forall k: Loss
      ensures Incurred(s, [e] + [f], 0, k) <==> Incurs(s, e, 0, k) || Incurs(t, f, 0, k)
      ensures !StartsAfresh(s, e, 0) && !StartsAfresh(t, f, 0) ==>
                (IncurredSince(s, [e] + [f], 0, k) <==> Incurs(s, e, 0, k) || Incurs(t, f, 0, k))
    {
      FirstIncurs(t, f, [], 0, k);
      FirstIncurs(s, e, [f], 0, k);
    }
  }

  lemma HourIsOverwritten()
    ensures var now := 3600 * TICK; var t := OneRow(now, PausedHourRow(), {});
            var pay := Credit(MinuteMore(), false, Reuse(0));
            && Enabled(t, pay) && Incurs(t, pay, 0, Forfeiture)
            && Step(t, pay) == OneRow(now, FreshRow(now, MinuteMore(), "t1"), {"aa"})
  {
    assert OneRow(3600 * TICK, PausedHourRow(), {}).rows[0].mac == "aa";
  }

  /** The owner of a paused hour pays for one more minute once an hour has gone by: the paused hour is
      overwritten, and the row owes a minute. */
  lemma OverwrittenHourRun()
    ensures var now := 3600 * TICK;
            var es := [HourBought()] + ([Pause(0, 0)] + ([Tick(now)] + [Credit(MinuteMore(), false, Reuse(0))]));
            && ValidRun(EMPTY, es) && Exec(EMPTY, es) == OneRow(now, FreshRow(now, MinuteMore(), "t1"), {"aa"})
            && Owed(PausedHourRow(), now) == 3600 * TICK && Owed(Exec(EMPTY, es).rows[0], now) == 60 * TICK
            && Replay(START, es).accounts[0].life.forfeited > 0
  {
    var now := 3600 * TICK;
    var pay := Credit(MinuteMore(), false, Reuse(0));
    var s, t := OneRow(0, PausedHourRow(), {}), OneRow(now, PausedHourRow(), {});
    var u := OneRow(now, FreshRow(now, MinuteMore(), "t1"), {"aa"});
    var es := [HourBought()] + ([Pause(0, 0)] + ([Tick(now)] + [pay]));
    assert Step(s, Tick(now)) == t;
    HourIsOverwritten();
    hide Step, Incurs, StartsAfresh, Incurred, IncurredSince, Renewed, HourBought;
    TwoSteps(s, Tick(now), t, pay, u);
    HourIsBoughtAndPaused([Tick(now)] + [pay]);
    NoLossBeyondTruncation(es, 0);
    AccountBalancesOverRuns(START, es);
    LossesAreNotNegative(u.rows[0], Replay(START, es).accounts[0], now, Forfeiture);
  }

  // ---------- expiry is enforced in time ----------

  /** No running row outlived the last expiry pass. */
  ghost predicate EnforcedUpToLastPass(w: World) {
    && w.lastPass <= w.store.now
    && forall id <- w.store.rows :: Running(w.store.rows[id]) ==> w.lastPass <= w.store.rows[id].expiresAt
  }

  lemma PassesKeepEnforcement(w: World, e: Event)
    requires WorldOk(w) && EnforcedUpToLastPass(w) && (e.ExpirePass? || e.PausedPass?)
    ensures EnforcedUpToLastPass(Next(w, e))
  {
    hide TableOk;
  }

  lemma RecoveryEnforces(s: Store)
    ensures Recovered(s).now == s.now
    ensures forall id <- Recovered(s).rows ::
              Running(Recovered(s).rows[id]) ==> s.now <= Recovered(s).rows[id].expiresAt
  {
    var t := AfterExpirePass(s);
    assert forall id <- t.rows :: Running(t.rows[id]) ==> s.now <= t.rows[id].expiresAt;
    assert forall id <- t.rows :: Running(AfterPausedPass(t).rows[id]) ==> Running(t.rows[id]);
  }

  lemma RecoveryKeepsEnforcement(w: World, e: Event)
    requires WorldOk(w) && EnforcedUpToLastPass(w) && (e.Restart? || e.Reboot?)
    ensures EnforcedUpToLastPass(Next(w, e))
  {
    hide TableOk, Recovered;
    match e
    case Restart => RecoveryEnforces(w.store);
    case Reboot(down) => RecoveryEnforces(w.store.(now := w.store.now + down, auth := {}));
  }

  lemma CreditKeepsEnforcement(w: World, p: Purchase, banned: bool, target: Target)
    requires WorldOk(w) && EnforcedUpToLastPass(w) && TargetOk(w.store, p, target) && p.minutes > 0
    ensures EnforcedUpToLastPass(Next(w, Credit(p, banned, target)))
  {
    hide TableOk;
  }

  lemma OthersKeepEnforcement(w: World, e: Event)
    requires WorldOk(w) && AllBalanced(w) && EnforcedUpToLastPass(w)
    requires e.Tick? || e.Extend? || e.End? || e.Pause? || e.Resume?
    ensures EnforcedUpToLastPass(Next(w, e))
  {
    hide TableOk;
  }

  lemma StepKeepsEnforcement(w: World, e: Event)
    requires WorldOk(w) && AllBalanced(w) && EnforcedUpToLastPass(w) && Enabled(w.store, e)
    ensures EnforcedUpToLastPass(Next(w, e))
  {
    match e
    case Migrate(id, ip, mac) => MigrationMovesOrAborts(w.store, id, ip, mac);
    case Credit(p, banned, target) => CreditKeepsEnforcement(w, p, banned, target);
    case ExpirePass => PassesKeepEnforcement(w, e);
    case PausedPass => PassesKeepEnforcement(w, e);
    case Restart => RecoveryKeepsEnforcement(w, e);
    case Reboot(_) => RecoveryKeepsEnforcement(w, e);
    case _ => OthersKeepEnforcement(w, e);
  }

  lemma {:induction false} EnforcementOverRuns(w: World, es: seq<Event>)
    requires WorldOk(w) && AllBalanced(w) && EnforcedUpToLastPass(w) && ValidRun(w.store, es)
    ensures EnforcedUpToLastPass(Replay(w, es))
    decreases |es|
  {
    if es != [] {
      NextIsOk(w, es[0]);
      StepKeepsBalance(w, es[0]);
      StepKeepsEnforcement(w, es[0]);
      EnforcementOverRuns(Next(w, es[0]), es[1..]);
    }
  }

  /** However a run went, a session is never left running longer past its expiry than the time since
      the last pass. */
  lemma OverstayIsBoundedByTheLastPass(es: seq<Event>, id: nat)
    requires ValidRun(EMPTY, es) && id in Exec(EMPTY, es).rows && Running(Exec(EMPTY, es).rows[id])
    ensures var w := Replay(START, es);
            w.store.now - w.store.rows[id].expiresAt <= w.store.now - w.lastPass
  {
    EnforcementOverRuns(START, es);
  }

  /** The ticker of the enforcer: a pass is due this long after the last one. */
  const PERIOD: int := 30 * TICK

  /** While the API is up, time does not go past a pass that is due. */
  ghost predicate Punctual(w: World, es: seq<Event>)
    requires WorldOk(w) && ValidRun(w.store, es)
    decreases |es|
  {
    es == [] || (InTime(w, es[0]) && (NextIsOk(w, es[0]); Punctual(Next(w, es[0]), es[1..])))
  }

  predicate InTime(w: World, e: Event) {
    e.Tick? ==> w.store.now + e.d <= w.lastPass + PERIOD
  }

  lemma {:induction false} PunctualClock(w: World, es: seq<Event>)
    requires WorldOk(w) && ValidRun(w.store, es) && Punctual(w, es) && w.store.now <= w.lastPass + PERIOD
    ensures var v := Replay(w, es); v.store.now <= v.lastPass + PERIOD
    decreases |es|
  {
    hide TableOk;
    if es != [] {
      NextIsOk(w, es[0]);
      PunctualClock(Next(w, es[0]), es[1..]);
    }
  }

  /** With the ticker, no session runs more than 30 seconds past its expiry. */
  lemma OverstayIsBoundedByTheTicker(es: seq<Event>, id: nat)
    requires ValidRun(EMPTY, es) && id in Exec(EMPTY, es).rows && Running(Exec(EMPTY, es).rows[id])
    requires Punctual(START, es)
    ensures Exec(EMPTY, es).now <= Exec(EMPTY, es).rows[id].expiresAt + 30 * TICK
  {
    OverstayIsBoundedByTheLastPass(es, id);
    PunctualClock(START, es);
  }

  /** This running session of the device had not expired when the last expiry pass ran. */
  ghost predicate Backs(w: World, id: nat, mac: string) {
    && id in w.store.rows && w.store.rows[id].mac == mac
    && Running(w.store.rows[id]) && w.lastPass <= w.store.rows[id].expiresAt
  }

  /** Access is paid for: after every run in which no step misauthorises anybody, each authorised MAC is that
      of a running session which had not expired when the last expiry pass ran. */
  lemma AuthorisedMeansPaid(es: seq<Event>, mac: string) returns (id: nat)
    requires ValidRun(EMPTY, es) && OrderlyRun(EMPTY, es) && mac in Exec(EMPTY, es).auth
    ensures Backs(Replay(START, es), id, mac)
  {
    AccessTracksTheTable(EMPTY, es);
    EnforcementOverRuns(START, es);
    var w := Replay(START, es);
    id :| id in w.store.rows && Running(w.store.rows[id]) && w.store.rows[id].mac == mac;
  }
}
