/** The session handlers as they run: methods that update the table and the captive rules in place,
    each proved to take exactly the step that module Sessions names. That the steps keep both unique
    indexes is lemma StepKeepsTable. */
module SessionStore {
  import opened Options
  import opened Clock
  import opened Sessions

  datatype CreditReply = Banned | Aborted | Done(id: nat, extended: bool)
  datatype PauseReply = UnknownDevice | NothingToPause | NotPausable | LimitReached | PausedWith(remaining: int)
  datatype ResumeReply = NoDevice | NothingToResume | Forfeited | ResumedWith(remaining: int)

  /** SELECT id ... ORDER BY started_at DESC LIMIT 1. */
  method Latest(rows: map<nat, Row>, wanted: Row -> bool) returns (hit: Option<nat>)
    ensures hit.None? ==> forall id <- rows :: !wanted(rows[id])
    ensures hit.Some? ==>
              && hit.value in rows && wanted(rows[hit.value])
              && forall id <- rows :: wanted(rows[id]) ==> rows[id].startedAt <= rows[hit.value].startedAt
  {
    hit := None;
    var todo := rows.Keys;
    while todo != {}
      invariant todo <= rows.Keys
      invariant hit.None? ==> forall id <- rows :: id !in todo ==> !wanted(rows[id])
      invariant hit.Some? ==>
                  && hit.value in rows && wanted(rows[hit.value])
                  && forall id <- rows :: id !in todo && wanted(rows[id]) ==>
                       rows[id].startedAt <= rows[hit.value].startedAt
    {
      var id :| id in todo;
      if wanted(rows[id]) && (hit.None? || rows[hit.value].startedAt < rows[id].startedAt) {
        hit := Some(id);
      }
      todo := todo - {id};
    }
  }

  /** The unique index lets a migration through exactly when no other row carries the new MAC. */
  lemma MovesIff(s: Store, id: nat, ip: string, mac: string)
    requires MacIndexOk(s.rows) && id in s.rows && mac != ""
    ensures MacIndexOk(MigratedRows(s, id, ip, mac)) <==> forall x <- s.rows :: x != id ==> s.rows[x].mac != mac
  {
    var rows := MigratedRows(s, id, ip, mac);
    if x :| x in s.rows && x != id && s.rows[x].mac == mac {
      assert rows[x].mac == rows[id].mac;
    }
  }

  class SessionHandler {
    var now: int
    var rows: map<nat, Row>
    var nextId: nat
    var auth: set<string>

    function State(): Store
      reads this
    {
      Store(now, rows, nextId, auth)
    }

    constructor ()
      ensures State() == EMPTY
    {
      now, rows, nextId, auth := 0, map[], 0, {};
    }

    method RunCaptiveRules(allow: bool, mac: string)
      modifies this`auth
      ensures auth == if allow then Allow(old(auth), mac) else old(auth) - {mac}
    {
      if allow {
        if mac != "" {
          auth := auth + {mac};
        }
      } else {
        auth := auth - {mac};
      }
    }

    /** The lookup of creditSession and the conflict arbiter of its upsert. */
    method FindTarget(p: Purchase) returns (target: Target)
      ensures TargetOk(State(), p, target)
    {
      var instant := now;
      var hit := Latest(rows, (r: Row) => Matches(r, instant, p.ip, p.mac));
      if hit.Some? {
        return Prolong(hit.value);
      }
      if p.mac == "" {
        return Insert;
      }
      var owner := Latest(rows, (r: Row) => r.mac == p.mac);
      target := if owner.Some? then Reuse(owner.value) else Insert;
    }

    /** creditSession followed by its caller's authorisation of the MAC. */
    method CreditSession(p: Purchase, banned: bool) returns (reply: CreditReply, target: Target)
      requires p.minutes > 0
      modifies this
      ensures TargetOk(old(State()), p, target) && State() == Credited(old(State()), p, banned, target)
      ensures reply.Banned? <==> p.mac != "" && banned
      ensures reply.Done? <==> CreditCommits(old(State()), p, banned, target)
      ensures !reply.Done? ==> State() == old(State())
      ensures reply.Done? ==>
                && reply.id in rows && reply.extended == target.Prolong?
                && reply.id == if target.Insert? then old(nextId) else target.id
    {
      target := FindTarget(p);
      if p.mac != "" && banned {
        return Banned, target;
      }
      var id := nextId;
      var after := rows;
      if target.Prolong? {
        id := target.id;
        var r := rows[id];
        if p.mac != "" && !OwnedByOther(rows, p.mac, id) {
          r := r.(mac := p.mac);
        }
        if r.token == "" && p.token != "" {
          r := r.(token := p.token);
        }
        r := r.(ip := p.ip, coins := r.coins + p.coins, total := r.total + 60 * p.minutes);
        after := rows[id := r.(expiresAt := Max(r.expiresAt, now) + 60 * p.minutes * TICK)];
      } else if p.mac != "" {
        var token := if p.token == "" then p.generated else p.token;
        if target.Reuse? {
          id := target.id;
          if rows[id].token != "" {
            token := rows[id].token;
          }
        }
        after := rows[id := FreshRow(now, p, token)];
      } else {
        after := rows[id := FreshRow(now, p, "")];
      }
      assert after == CreditRows(State(), p, target);
      if !MacIndexOk(after) || !TokenIndexOk(after) {
        return Aborted, target;
      }
      rows := after;
      if target.Insert? {
        nextId := nextId + 1;
      }
      RunCaptiveRules(true, p.mac);
      reply := Done(id, target.Prolong?);
    }

    /** Admin extend; `seconds` is used when no positive number of minutes is given. */
    method Extend(id: nat, minutes: int, seconds: int, coins: int) returns (ok: bool)
      modifies this
      ensures var add := if minutes * 60 <= 0 then seconds else minutes * 60;
              && State() == Extended(old(State()), id, add, coins)
              && (ok <==> add > 0 && id in old(rows) && old(rows)[id].status.Active?)
    {
      var add := minutes * 60;
      if add <= 0 {
        add := seconds;
      }
      if add <= 0 || id !in rows || !rows[id].status.Active? {
        return false;
      }
      var r := rows[id];
      r := r.(coins := r.coins + coins, total := r.total + add);
      if r.expiresAt < now {
        r := r.(expiresAt := now);
      }
      rows := rows[id := r.(expiresAt := r.expiresAt + add * TICK)];
      RunCaptiveRules(true, r.mac);
      return true;
    }

    method End(id: nat, reason: string) returns (ok: bool)
      modifies this
      ensures State() == Ended(old(State()), id, reason == "cancelled")
      ensures ok <==> id in old(rows)
    {
      if id !in rows {
        return false;
      }
      var status := Expired;
      if reason == "cancelled" {
        status := Cancelled;
      }
      rows := rows[id := rows[id].(status := status, expiresAt := now)];
      RunCaptiveRules(false, rows[id].mac);
      return true;
    }

    /** Pause: each refusal has its own condition, looked at in this order, and changes nothing. */
    method Pause(mac: string, limit: nat) returns (reply: PauseReply)
      requires MacIndexOk(rows)
      modifies this
      ensures reply.UnknownDevice? <==> mac == ""
      ensures mac != "" ==> forall id <- old(rows) :: old(rows)[id].mac == mac ==>
                var r := old(rows)[id]; var live := r.status == Active && now < r.expiresAt && r.pause == None;
                && State() == Paused(old(State()), id, limit)
                && (reply.NothingToPause? <==> !live)
                && (reply.NotPausable? <==> live && !r.pausable)
                && (reply.LimitReached? <==> live && r.pausable && limit > 0 && r.pauseCount >= limit)
                && (reply.PausedWith? ==> rows[id].pause.Some? && rows[id].pause.value.remaining == reply.remaining)
      ensures (forall id <- old(rows) :: old(rows)[id].mac != mac) ==> mac == "" || reply.NothingToPause?
      ensures !reply.PausedWith? ==> State() == old(State())
    {
      if mac == "" {
        return UnknownDevice;
      }
      var instant := now;
      var hit := Latest(rows, (r: Row) => r.status.Active? && r.expiresAt > instant && r.pause.None? && r.mac == mac);
      if hit.None? {
        return NothingToPause;
      }
      assert forall x <- rows :: rows[x].mac == mac ==> x == hit.value;
      reply := PauseLive(hit.value, limit);
    }

    /** The live session that was found. */
    method PauseLive(id: nat, limit: nat) returns (reply: PauseReply)
      requires id in rows && rows[id].mac != "" && rows[id].status == Active && now < rows[id].expiresAt
      requires rows[id].pause == None
      modifies this`rows, this`auth
      ensures var r := old(rows)[id];
              && State() == Paused(old(State()), id, limit)
              && (reply.NotPausable? <==> !r.pausable)
              && (reply.LimitReached? <==> r.pausable && limit > 0 && r.pauseCount >= limit)
              && (reply.PausedWith? <==> r.pausable && (limit == 0 || r.pauseCount < limit))
      ensures reply.PausedWith? ==> rows[id].pause.Some? && rows[id].pause.value.remaining == reply.remaining
      ensures !reply.PausedWith? ==> State() == old(State())
    {
      var r := rows[id];
      if !r.pausable {
        return NotPausable;
      }
      if limit > 0 && r.pauseCount >= limit {
        return LimitReached;
      }
      var remaining := (r.expiresAt - now) / TICK;
      var deadline: Option<int> := None;
      if r.hours > 0 {
        deadline := Some(now + r.hours * 3600 * TICK);
      }
      rows := rows[id := r.(pause := Some(PauseMark(now, remaining, deadline)), pauseCount := r.pauseCount + 1)];
      RunCaptiveRules(false, r.mac);
      reply := PausedWith(remaining);
    }

    method ForceExpirePaused(id: nat, mac: string)
      requires id in rows
      modifies this`rows, this`auth
      ensures rows == if old(rows)[id].status.Active? then old(rows)[id := ForfeitedRow(old(rows)[id])] else old(rows)
      ensures auth == old(auth) - {mac}
    {
      if rows[id].status.Active? {
        rows := rows[id := rows[id].(status := Expired, pause := None)];
      }
      RunCaptiveRules(false, mac);
    }

    /** Resume: a pause window that closed before now forfeits the purchase. */
    method Resume(mac: string) returns (reply: ResumeReply)
      requires MacIndexOk(rows)
      modifies this
      ensures reply.NoDevice? <==> mac == ""
      ensures mac != "" ==> forall id <- old(rows) :: old(rows)[id].mac == mac ==>
                var r := old(rows)[id]; var paused := r.status == Active && r.pause.Some?;
                && State() == Resumed(old(State()), id)
                && (reply.NothingToResume? <==> !paused)
                && (reply.Forfeited? <==>
                      paused && r.pause.value.deadline.Some? && r.pause.value.deadline.value < now)
                && (reply.ResumedWith? ==> reply.remaining == r.pause.value.remaining)
      ensures (forall id <- old(rows) :: old(rows)[id].mac != mac) ==> mac == "" || reply.NothingToResume?
      ensures reply.NoDevice? || reply.NothingToResume? ==> State() == old(State())
    {
      if mac == "" {
        return NoDevice;
      }
      var hit := Latest(rows, (r: Row) => r.status.Active? && r.pause.Some? && r.mac == mac);
      if hit.None? {
        return NothingToResume;
      }
      var id := hit.value;
      var mark := rows[id].pause.value;
      if mark.deadline.Some? && mark.deadline.value < now {
        ForceExpirePaused(id, mac);
        return Forfeited;
      }
      rows := rows[id := rows[id].(pause := None, expiresAt := now + mark.remaining * TICK)];
      RunCaptiveRules(true, mac);
      reply := ResumedWith(mark.remaining);
    }

    /** Revokes the access of every listed row, one at a time. */
    method Revoke(ids: set<nat>) returns (count: nat)
      requires ids <= rows.Keys
      modifies this`auth
      ensures auth == old(auth) - MacsOf(rows, ids) && count == |ids|
    {
      hide MacsOf;
      count := 0;
      var todo := ids;
      ghost var done := {};
      NoMacs(rows);
      while todo != {}
        invariant done <= ids && todo == ids - done && count == |ids| - |todo|
        invariant auth == old(auth) - MacsOf(rows, done)
      {
        var id :| id in todo;
        RunCaptiveRules(false, rows[id].mac);
        MacsOfOneMore(rows, done, id);
        done := done + {id};
        todo := todo - {id};
        count := count + 1;
      }
      assert done == ids;
    }

    method ExpireOverdueSessions() returns (expired: nat)
      modifies this
      ensures State() == AfterExpirePass(old(State()))
      ensures expired == |OverdueIds(old(State()))|
    {
      var returned := OverdueIds(State());
      ghost var before := rows;
      rows := map id | id in rows :: if Overdue(rows[id], now) then rows[id].(status := Expired) else rows[id];
      expired := Revoke(returned);
      assert MacsOf(rows, returned) == MacsOf(before, returned);
    }

    /** Forfeits every listed row, one at a time. */
    method ForfeitListed(ids: set<nat>) returns (count: nat)
      requires ids <= rows.Keys && forall id <- ids :: rows[id].status.Active?
      modifies this`rows, this`auth
      ensures rows == ForfeitedRows(old(rows), ids) && auth == old(auth) - MacsOf(old(rows), ids)
      ensures count == |ids|
    {
      hide MacsOf;
      ghost var before := rows;
      ghost var done := {};
      NoMacs(before);
      var todo := ids;
      count := 0;
      while todo != {}
        invariant done <= ids && todo == ids - done && count == |ids| - |todo|
        invariant rows == ForfeitedRows(before, done) && auth == old(auth) - MacsOf(before, done)
      {
        var id :| id in todo;
        ForceExpirePaused(id, rows[id].mac);
        MacsOfOneMore(before, done, id);
        assert rows == ForfeitedRows(before, done + {id});
        done := done + {id};
        todo := todo - {id};
        count := count + 1;
      }
      assert done == ids;
    }

    method ExpireOverduePausedSessions() returns (expired: nat)
      modifies this
      ensures State() == AfterPausedPass(old(State()))
      ensures expired == |OverduePausedIds(old(State()))|
    {
      expired := ForfeitListed(OverduePausedIds(State()));
    }

    /** Startup recovery, after a reboot, when the rule set is empty, or after a restart of the API alone,
        when the rules are still in place. */
    method StartExpiryEnforcer()
      modifies this
      ensures State() == Recovered(old(State()))
    {
      var n := ExpireOverdueSessions();
      n := ExpireOverduePausedSessions();
      Reauthorise();
    }

    /** One tick of the background loop. */
    method EnforcerTick()
      modifies this
      ensures State() == AfterPausedPass(AfterExpirePass(old(State())))
    {
      var n := ExpireOverdueSessions();
      n := ExpireOverduePausedSessions();
    }

    method Reauthorise()
      modifies this`auth
      ensures auth == old(auth) + MacsOf(rows, RecoverableIds(State()))
    {
      var todo := MacsOf(rows, RecoverableIds(State()));
      ghost var all := todo;
      while todo != {}
        invariant todo <= all && auth == old(auth) + (all - todo) && "" !in all
      {
        var mac :| mac in todo;
        RunCaptiveRules(true, mac);
        todo := todo - {mac};
      }
    }

    /** The migration that a status poll triggers for a roaming device. */
    method MigrateSessionMAC(id: nat, newIP: string, newMAC: string) returns (ok: bool)
      requires newMAC != "" && id in rows && rows[id].mac != ""
      requires rows[id].status.Active? && (rows[id].pause.Some? || rows[id].expiresAt > now)
      modifies this
      ensures State() == Migrated(old(State()), id, newIP, newMAC)
      ensures ok <==> old(rows)[id].mac == newMAC || MacIndexOk(MigratedRows(old(State()), id, newIP, newMAC))
      ensures MacIndexOk(old(rows)) ==>
                (ok <==> forall x <- old(rows) :: x != id ==> old(rows)[x].mac != newMAC)
    {
      var oldMAC := rows[id].mac;
      if oldMAC == newMAC {
        return true;
      }
      var after := map x | x in rows ::
        if rows[x].mac == newMAC && x != id && rows[x].status.Active?
        then rows[x].(status := Expired, expiresAt := now) else rows[x];
      after := after[id := after[id].(ip := newIP, mac := newMAC)];
      assert after == MigratedRows(State(), id, newIP, newMAC);
      if MacIndexOk(rows) {
        MovesIff(State(), id, newIP, newMAC);
      }
      if !MacIndexOk(after) {
        return false;
      }
      rows := after;
      RunCaptiveRules(false, oldMAC);
      RunCaptiveRules(true, newMAC);
      return true;
    }
  }
}
