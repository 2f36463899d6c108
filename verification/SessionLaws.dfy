/** What the session handlers do, said in terms of the columns alone: who is found, what is refused, what is
    written, and what runs make of it. */
module SessionLaws {
  import opened Options
  import opened Clock
  import opened Sessions
  import opened SessionAccess

  // ---------- pausing ----------

  /** A pause goes through exactly for a device with a MAC whose session is active, not expired, not paused
      already, not consumable and below the limit, if there is one. It then freezes the whole seconds left,
      for the hours of its rate if it has any, and closes the device's access; otherwise nothing changes. */
  lemma PauseLaw(s: Store, id: nat, limit: nat)
    requires id in s.rows
    ensures var r, t := s.rows[id], Paused(s, id, limit);
            if && r.mac != "" && r.status == Active && s.now < r.expiresAt && r.pause == None
               && r.pausable && (limit == 0 || r.pauseCount < limit)
            then
              && t == s.(rows := t.rows, auth := s.auth - {r.mac})
              && t.rows == s.rows[id := t.rows[id]]
              && t.rows[id].pause.Some?
              && t.rows[id] == r.(pause := t.rows[id].pause, pauseCount := r.pauseCount + 1)
              && var mark := t.rows[id].pause.value;
                 && mark.at == s.now
                 && mark.remaining * TICK <= r.expiresAt - s.now < (mark.remaining + 1) * TICK
                 && mark.deadline == if r.hours > 0 then Some(s.now + r.hours * 3600 * TICK) else None
            else t == s
  {
  }

  ghost predicate ConsumableUnpaused(rows: map<nat, Row>) {
    forall id <- rows :: !rows[id].pausable ==> rows[id].pause == None && rows[id].pauseCount == 0
  }

  lemma StepKeepsConsumable(s: Store, e: Event)
    requires TableOk(s) && Enabled(s, e) && ConsumableUnpaused(s.rows)
    ensures ConsumableUnpaused(Step(s, e).rows)
  {
    match e
    case Credit(_, _, _) => CreditKeepsConsumable(s, e);
    case Migrate(id, ip, mac) => MigrationMovesOrAborts(s, id, ip, mac);
    case _ =>
  }

  lemma CreditKeepsConsumable(s: Store, e: Event)
    requires Enabled(s, e) && e.Credit? && ConsumableUnpaused(s.rows)
    ensures ConsumableUnpaused(Step(s, e).rows)
  {
    hide CreditCommits;
  }

  /** In no run is a session of a consumable rate ever paused. */
  lemma {:induction false} ConsumableIsNeverPaused(s: Store, es: seq<Event>)
    requires TableOk(s) && ConsumableUnpaused(s.rows) && ValidRun(s, es)
    ensures ConsumableUnpaused(Exec(s, es).rows)
    decreases |es|
  {
    if es != [] {
      StepKeepsConsumable(s, es[0]);
      StepKeepsTable(s, es[0]);
      ConsumableIsNeverPaused(Step(s, es[0]), es[1..]);
    }
  }

  // ---------- resuming ----------

  /** A resume finds an active paused row of a device with a MAC. Strictly after the deadline the row is
      expired and its access closed; at or before it, or without one, the row runs again for what the pause
      recorded and its access is opened. Anything else changes nothing. */
  lemma ResumeLaw(s: Store, id: nat)
    requires id in s.rows
    ensures var r, t := s.rows[id], Resumed(s, id);
            if r.mac == "" || r.status != Active || r.pause == None then t == s
            else if r.pause.value.deadline.Some? && r.pause.value.deadline.value < s.now then
              t == s.(rows := s.rows[id := r.(status := Expired, pause := None)], auth := s.auth - {r.mac})
            else
              t == s.(rows := s.rows[id := r.(pause := None, expiresAt := s.now + r.pause.value.remaining * TICK)],
                      auth := s.auth + {r.mac})
  {
  }

  // ---------- ending and extending ----------

  /** An ended row has the status that was asked for, expires now and loses its access; no other row changes. */
  lemma EndLaw(s: Store, id: nat, cancelled: bool)
    requires id in s.rows
    ensures var r, t := s.rows[id], Ended(s, id, cancelled);
            && t == s.(rows := s.rows[id := t.rows[id]], auth := s.auth - {r.mac})
            && t.rows[id] == r.(status := t.rows[id].status, expiresAt := s.now)
            && (cancelled ==> t.rows[id].status == Cancelled) && (!cancelled ==> t.rows[id].status == Expired)
  {
  }

  /** An extension reaches active rows only, counts from the later of expiry and now, and opens the access of
      the row's device. */
  lemma ExtendLaw(s: Store, id: nat, seconds: int, coins: int)
    requires id in s.rows
    ensures var r, t := s.rows[id], Extended(s, id, seconds, coins);
            if seconds <= 0 || r.status != Active then t == s
            else
              && t == s.(rows := s.rows[id := t.rows[id]], auth := if r.mac == "" then s.auth else s.auth + {r.mac})
              && t.rows[id].coins == r.coins + coins && t.rows[id].total == r.total + seconds
              && t.rows[id].expiresAt == (if r.expiresAt > s.now then r.expiresAt else s.now) + seconds * TICK
              && t.rows[id] == r.(coins := t.rows[id].coins, total := t.rows[id].total,
                                  expiresAt := t.rows[id].expiresAt)
  {
  }

  // ---------- the passes ----------

  /** The expiry pass expires exactly the active unpaused rows whose expiry has come, to the instant, and
      closes exactly their access. */
  lemma ExpirePassLaw(s: Store)
    ensures var t := AfterExpirePass(s);
            && t == s.(rows := t.rows, auth := t.auth) && t.rows.Keys == s.rows.Keys
            && (forall id <- s.rows :: var r := s.rows[id];
                  t.rows[id] == if r.status == Active && r.pause == None && r.expiresAt <= s.now
                                then r.(status := Expired) else r)
            && forall mac :: mac in t.auth <==>
                 && mac in s.auth
                 && !exists id <- s.rows :: var r := s.rows[id];
                      r.mac == mac && r.status == Active && r.pause == None && r.expiresAt <= s.now
  {
  }

  /** The other pass forfeits exactly the active paused rows whose deadline has come, to the instant. */
  lemma PausedPassLaw(s: Store)
    ensures var t := AfterPausedPass(s);
            && t == s.(rows := t.rows, auth := t.auth) && t.rows.Keys == s.rows.Keys
            && (forall id <- s.rows :: var r := s.rows[id];
                  t.rows[id] == if r.status == Active && r.pause.Some? && r.pause.value.deadline.Some?
                                   && r.pause.value.deadline.value <= s.now
                                then r.(status := Expired, pause := None) else r)
            && forall mac :: mac in t.auth <==>
                 && mac in s.auth
                 && !exists id <- s.rows :: var r := s.rows[id];
                      && r.mac == mac && r.status == Active && r.pause.Some? && r.pause.value.deadline.Some?
                      && r.pause.value.deadline.value <= s.now
  {
  }

  /** A starting enforcer leaves authorised the MAC of every active, unpaused, unexpired row, and of the MACs
      that were authorised before those without an active row that it expires. */
  lemma RecoveryLaw(s: Store, mac: string)
    ensures mac in Recovered(s).auth <==>
            || (exists id <- s.rows :: var r := s.rows[id];
                  mac != "" && r.mac == mac && r.status == Active && r.pause == None && s.now < r.expiresAt)
            || (&& mac in s.auth
                && !exists id <- s.rows :: var r := s.rows[id];
                     && r.mac == mac && r.status == Active
                     && if r.pause == None then r.expiresAt <= s.now
                        else r.pause.value.deadline.Some? && r.pause.value.deadline.value <= s.now)
  {
    RecoveryAuthorisesExactlyTheLive(s);
  }

  // ---------- whom a payment finds, and what it writes ----------

  /** The lookup finds exactly a live session of the caller's MAC, if it has one, or of its address. */
  lemma LookupLaw(s: Store, p: Purchase, id: nat)
    requires id in s.rows && TargetOk(s, p, Prolong(id))
    ensures var r := s.rows[id];
            && r.status == Active && s.now < r.expiresAt && ((p.mac != "" && r.mac == p.mac) || r.ip == p.ip)
            && forall x <- s.rows :: var q := s.rows[x];
                 q.status == Active && s.now < q.expiresAt && ((p.mac != "" && q.mac == p.mac) || q.ip == p.ip)
                 ==> q.startedAt <= r.startedAt
  {
  }

  /** A payment that does not find one overwrites the row that owns the MAC, or else is a new row. */
  lemma NoLookupLaw(s: Store, p: Purchase, target: Target)
    requires TargetOk(s, p, target) && !target.Prolong?
    ensures forall x <- s.rows :: var q := s.rows[x];
              !(q.status == Active && s.now < q.expiresAt && ((p.mac != "" && q.mac == p.mac) || q.ip == p.ip))
    ensures target.Reuse? <==> p.mac != "" && exists x <- s.rows :: s.rows[x].mac == p.mac
    ensures target.Reuse? ==> target.id in s.rows && s.rows[target.id].mac == p.mac
  {
  }

  /** The row has the columns of this payment alone. */
  predicate WrittenAfresh(q: Row, p: Purchase, now: int) {
    && q.mac == p.mac && q.coins == p.coins && q.total == 60 * p.minutes
    && q.startedAt == now && q.expiresAt == now + 60 * p.minutes * TICK
    && q.pausable == p.pausable && q.hours == p.hours && q.pause == None && q.pauseCount == 0
  }

  /** What a committed payment writes, in every column: the row it finds grows by the minutes and pesos and
      keeps its pause rules; a row written afresh has exactly those of the payment. A set token stays; else
      the caller's own token is written and, where a row with a MAC is written afresh, for a caller without
      one the generated one. No other row changes. */
  lemma CreditLaw(s: Store, p: Purchase, banned: bool, target: Target)
    requires TargetOk(s, p, target) && CreditCommits(s, p, banned, target)
    ensures var t := Credited(s, p, banned, target); var id := if target.Insert? then s.nextId else target.id;
            && id in t.rows
            && t == s.(rows := s.rows[id := t.rows[id]], nextId := if target.Insert? then s.nextId + 1 else s.nextId,
                       auth := if p.mac == "" then s.auth else s.auth + {p.mac})
            && var q := t.rows[id];
               && q.status == Active && q.ip == p.ip
               && match target
                  case Prolong(_) =>
                    var r := s.rows[id];
                    && q.mac == (if p.mac != "" && forall x <- s.rows :: x != id ==> s.rows[x].mac != p.mac
                                 then p.mac else r.mac)
                    && q.token == (if r.token != "" then r.token else p.token)
                    && q.coins == r.coins + p.coins && q.total == r.total + 60 * p.minutes
                    && q.expiresAt == (if r.expiresAt > s.now then r.expiresAt else s.now) + 60 * p.minutes * TICK
                    && q.pausable == r.pausable && q.hours == r.hours && q.startedAt == r.startedAt
                    && q.pause == r.pause && q.pauseCount == r.pauseCount
                  case Reuse(_) =>
                    && WrittenAfresh(q, p, s.now)
                    && q.token == (if s.rows[id].token != "" then s.rows[id].token
                                   else if p.token != "" then p.token else p.generated)
                  case Insert =>
                    && WrittenAfresh(q, p, s.now)
                    && q.token == (if p.mac == "" then "" else if p.token != "" then p.token else p.generated)
  {
  }

  // ---------- migration ----------

  /** A migration moves an active row that is paused or not expired, from one MAC to another that no other
      row carries; in every other case nothing changes. */
  lemma MigrationLaw(s: Store, id: nat, ip: string, mac: string)
    requires TableOk(s) && id in s.rows
    ensures var r := s.rows[id];
            Migrated(s, id, ip, mac) ==
            if && r.status == Active && (r.pause.Some? || s.now < r.expiresAt)
               && r.mac != "" && mac != "" && r.mac != mac
               && forall x <- s.rows :: x != id ==> s.rows[x].mac != mac
            then s.(rows := s.rows[id := r.(ip := ip, mac := mac)], auth := s.auth - {r.mac} + {mac}) else s
  {
    MigrationMovesOrAborts(s, id, ip, mac);
  }
}
