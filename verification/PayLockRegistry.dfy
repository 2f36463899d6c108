/** The process-wide registry of pay locks, and the arm and start handlers that drive it. */
module PayLockRegistry {
  import opened PayLock

  class Entry {
    var sem: bool
    var holder: string
    var ticket: string
    var gen: nat
    /** Everything that has happened to this lock, as a run of module PayLock. */
    ghost var history: seq<Step>

    constructor ()
      ensures Abs() == FREE && Valid() && history == []
    {
      sem, holder, ticket, gen := false, "", "", 0;
      history := [];
    }

    function Abs(): Lock
      reads this
    {
      Lock(sem, holder, ticket, gen)
    }

    /** The lock is where the run of its history has brought it. */
    ghost predicate Valid()
      reads this
    {
      Exec(START, history).lock == Abs()
    }

    /** Records the step the lock has just taken. */
    ghost method Record(s: Step)
      requires Next(Exec(START, history), s).lock == Abs()
      modifies this`history
      ensures Valid() && history == old(history) + [s]
    {
      LastStep(START, history, s);
      history := history + [s];
    }

    method TryAcquire(ip: string, generated: string) returns (acquired: bool, holding: string)
      requires Valid()
      modifies this
      ensures Valid() && history == old(history) + [Try(ip, generated)]
      ensures Abs() == Acquired(old(Abs()), ip, generated)
      ensures acquired <==> !old(sem)
      ensures holding == if acquired then "" else old(holder)
    {
      acquired, holding := !sem, if sem then holder else "";
      if !sem {
        sem := true;
        holder := ip;
        ticket := generated;
        gen := gen + 1;
      }
      Record(Try(ip, generated));
    }

    method ValidateAndRelease(given: string) returns (verdict: Verdict)
      requires Valid()
      modifies this
      ensures Valid() && history == old(history) + [Start(given)]
      ensures verdict == Check(old(Abs()), given) && Abs() == Validated(old(Abs()), given)
    {
      if given == "" || ticket == "" || given != ticket {
        verdict := InvalidTicket;
      } else if sem {
        sem := false;
        holder := "";
        ticket := "";
        verdict := Passed;
      } else {
        ticket := "";
        verdict := LockGone;
      }
      Record(Start(given));
    }

    method Release()
      requires Valid()
      modifies this
      ensures Valid() && history == old(history) + [Drop]
      ensures Abs() == Released(old(Abs()))
    {
      if sem {
        sem := false;
        holder := "";
        ticket := "";
      }
      Record(Drop);
    }

    /** What a watchdog does when it wakes. */
    method Wake(spawnGen: nat)
      requires Valid()
      modifies this
      ensures Valid() && history == old(history) + [Fire(spawnGen)]
      ensures Abs() == Drained(old(Abs()), spawnGen)
    {
      if gen == spawnGen && sem {
        sem := false;
        holder := "";
        ticket := "";
      }
      Record(Fire(spawnGen));
    }

    /** Time passes. */
    ghost method Elapse(d: nat)
      requires Valid()
      modifies this`history
      ensures Valid() && history == old(history) + [Wait(d)] && Abs() == old(Abs())
    {
      Record(Wait(d));
    }
  }

  datatype ArmReply = Busy | Reissued(ticket: string) | Failed | Armed(ticket: string)
  datatype StartReply = Admitted | BadTicket | Gone

  /** A VLAN without an entry behaves as one whose lock was never taken. */
  function At(locks: map<string, Lock>, vlan: string): Lock {
    if vlan in locks then locks[vlan] else FREE
  }

  /** No lock but this VLAN's may differ, and no entry disappears. */
  predicate OthersKept(before: map<string, Lock>, after: map<string, Lock>, vlan: string) {
    && before.Keys <= after.Keys <= before.Keys + {vlan}
    && forall v <- before :: v != vlan ==> after[v] == before[v]
  }

  lemma OneLockSet(before: map<string, Lock>, mid: map<string, Lock>, after: map<string, Lock>, vlan: string)
    requires mid == if vlan in before then before else before[vlan := FREE]
    requires vlan in after && after == mid[vlan := after[vlan]]
    ensures OthersKept(before, after, vlan) && At(after, vlan) == after[vlan] && At(before, vlan) == mid[vlan]
  {
  }

  class Registry {
    var entries: map<string, Entry>

    constructor ()
      ensures Valid() && Locks() == map[]
    {
      entries := map[];
    }

    /** The empty key stands for an unresolved VLAN and never gets an entry. */
    ghost predicate Valid()
      reads this, entries.Values
    {
      && "" !in entries
      && (forall a <- entries, b <- entries :: a != b ==> entries[a] != entries[b])
      && forall v <- entries :: entries[v].Valid()
    }

    function Locks(): map<string, Lock>
      reads this, entries.Values
    {
      map v | v in entries :: entries[v].Abs()
    }

    /** A VLAN's entry, made when it is first asked for. */
    method GetOrCreate(vlan: string) returns (e: Entry)
      requires Valid() && vlan != ""
      modifies this`entries
      ensures Valid() && vlan in entries && entries[vlan] == e
      ensures entries == old(entries)[vlan := e]
      ensures vlan in old(entries) ==> e == old(entries)[vlan]
      ensures vlan in old(entries) ==> Locks() == old(Locks())
      ensures vlan !in old(entries) ==>
                fresh(e) && e.Abs() == FREE && e.history == [] && Locks() == old(Locks())[vlan := FREE]
    {
      hide Exec;
      if vlan in entries {
        return entries[vlan];
      }
      e := MakeEntry(vlan);
    }

    method MakeEntry(vlan: string) returns (e: Entry)
      requires Valid() && vlan != "" && vlan !in entries
      modifies this`entries
      ensures Valid() && fresh(e) && e.Abs() == FREE && e.history == []
      ensures entries == old(entries)[vlan := e] && Locks() == old(Locks())[vlan := FREE]
    {
      e := new Entry();
      hide Exec;
      assert forall v <- entries :: entries[v] != e && entries[v].Valid();
      entries := entries[vlan := e];
    }

    /** Time passes for the lock of a VLAN. */
    ghost method Elapse(vlan: string, d: nat)
      requires Valid() && vlan in entries
      modifies entries.Values
      ensures Valid() && Locks() == old(Locks())
      ensures entries[vlan].history == old(entries[vlan].history) + [Wait(d)]
    {
      hide Exec;
      entries[vlan].Elapse(d);
    }

    /** A watchdog of the VLAN's lock wakes. */
    method WakeWatchdog(vlan: string, spawnGen: nat)
      requires Valid() && vlan in entries
      modifies entries.Values
      ensures Valid() && entries[vlan].history == old(entries[vlan].history) + [Fire(spawnGen)]
      ensures var l := old(Locks())[vlan];
              Locks() == old(Locks())[vlan := if l.full && l.gen == spawnGen then Lock(false, "", "", l.gen) else l]
    {
      ReleaseLaw(Locks()[vlan], spawnGen);
      hide Exec;
      entries[vlan].Wake(spawnGen);
    }

    /** An unresolved VLAN is let through without a lock. */
    method PayLockTryAcquire(ip: string, vlan: string, generated: string)
      returns (acquired: bool, holder: string, ticket: string)
      requires Valid()
      modifies this`entries, entries.Values
      ensures Valid() && fresh(entries.Values - old(entries.Values))
      ensures vlan == "" ==> acquired && ticket == "" && entries == old(entries) && Locks() == old(Locks())
      ensures vlan != "" ==>
                && OthersKept(old(Locks()), Locks(), vlan) && vlan in entries
                && entries == old(entries)[vlan := entries[vlan]]
                && (vlan in old(entries) ==> entries[vlan] == old(entries)[vlan])
                && At(Locks(), vlan) == Acquired(At(old(Locks()), vlan), ip, generated)
                && (acquired <==> !At(old(Locks()), vlan).full)
                && holder == (if acquired then "" else At(old(Locks()), vlan).holder)
                && ticket == (if acquired then generated else "")
                && entries[vlan].history == (if vlan in old(entries) then old(entries[vlan].history) else [])
                                            + [Try(ip, generated)]
    {
      if vlan == "" {
        return true, "", "";
      }
      hide Exec, Acquired, At, OthersKept;
      acquired, holder, ticket := TryAcquireFor(ip, vlan, generated);
    }

    method TryAcquireFor(ip: string, vlan: string, generated: string)
      returns (acquired: bool, holder: string, ticket: string)
      requires Valid() && vlan != ""
      modifies this`entries, entries.Values
      ensures Valid() && fresh(entries.Values - old(entries.Values)) && vlan in entries
      ensures OthersKept(old(Locks()), Locks(), vlan)
      ensures entries == old(entries)[vlan := entries[vlan]]
      ensures vlan in old(entries) ==> entries[vlan] == old(entries)[vlan]
      ensures At(Locks(), vlan) == Acquired(At(old(Locks()), vlan), ip, generated)
      ensures acquired <==> !At(old(Locks()), vlan).full
      ensures holder == if acquired then "" else At(old(Locks()), vlan).holder
      ensures ticket == if acquired then generated else ""
      ensures entries[vlan].history ==
              (if vlan in old(entries) then old(entries[vlan].history) else []) + [Try(ip, generated)]
    {
      hide Exec, Acquired, At, OthersKept;
      var e := GetOrCreate(vlan);
      ghost var mid := Locks();
      acquired, holder := AcquireAt(vlan, ip, generated);
      ticket := if acquired then generated else "";
      OneLockSet(old(Locks()), mid, Locks(), vlan);
    }

    /** The attempt on an entry that exists. */
    method AcquireAt(vlan: string, ip: string, generated: string) returns (acquired: bool, holder: string)
      requires Valid() && vlan in entries
      modifies entries[vlan]
      ensures Valid() && Locks() == old(Locks())[vlan := Acquired(old(Locks())[vlan], ip, generated)]
      ensures acquired <==> !old(Locks())[vlan].full
      ensures holder == if acquired then "" else old(Locks())[vlan].holder
      ensures entries[vlan].history == old(entries[vlan].history) + [Try(ip, generated)]
    {
      hide Exec, Acquired;
      acquired, holder := entries[vlan].TryAcquire(ip, generated);
    }

    /** The matching ticket of a taken lock is admitted and frees it, and so is a caller without a VLAN;
        everyone else is turned away. */
    method PayLockValidateAndRelease(vlan: string, ticket: string) returns (reply: StartReply)
      requires Valid()
      modifies entries.Values
      ensures Valid()
      ensures reply == Admitted <==>
              vlan == ""
              || (vlan in entries && ticket != "" && old(Locks())[vlan].full && ticket == old(Locks())[vlan].ticket)
      ensures reply == BadTicket <==>
              vlan != "" && vlan in entries && (ticket == "" || ticket != old(Locks())[vlan].ticket)
      ensures vlan !in entries ==> Locks() == old(Locks())
      ensures vlan in entries && reply == Admitted ==>
                Locks() == old(Locks())[vlan := Lock(false, "", "", old(Locks())[vlan].gen)]
      ensures vlan in entries && reply == BadTicket ==> Locks() == old(Locks())
      ensures vlan in entries ==>
                && Locks() == old(Locks())[vlan := Validated(old(Locks())[vlan], ticket)]
                && entries[vlan].history == old(entries[vlan].history) + [Start(ticket)]
    {
      if vlan == "" {
        return Admitted;
      }
      if vlan !in entries {
        return Gone;
      }
      TicketLaw(Locks()[vlan], ticket);
      hide Exec, Validated, Check;
      var verdict := ValidateAt(vlan, ticket);
      reply := match verdict case Passed => Admitted case InvalidTicket => BadTicket case LockGone => Gone;
    }

    /** The check on an entry that exists. */
    method ValidateAt(vlan: string, ticket: string) returns (verdict: Verdict)
      requires Valid() && vlan in entries
      modifies entries[vlan]
      ensures Valid() && Locks() == old(Locks())[vlan := Validated(old(Locks())[vlan], ticket)]
      ensures verdict == Check(old(Locks())[vlan], ticket)
      ensures entries[vlan].history == old(entries[vlan].history) + [Start(ticket)]
    {
      hide Exec, Validated, Check;
      verdict := entries[vlan].ValidateAndRelease(ticket);
    }

    function PayLockCurrentTicket(vlan: string): string
      reads this, entries.Values
    {
      if vlan in entries then entries[vlan].ticket else ""
    }

    /** Releases whoever holds the lock; the caller's address plays no part. */
    method PayLockRelease(vlan: string)
      requires Valid()
      modifies entries.Values
      ensures Valid()
      ensures vlan !in entries ==> Locks() == old(Locks())
      ensures vlan in entries ==>
                && entries[vlan].history == old(entries[vlan].history) + [Drop]
                && var l := old(Locks())[vlan];
                   Locks() == old(Locks())[vlan := if l.full then Lock(false, "", "", l.gen) else l]
    {
      if vlan != "" && vlan in entries {
        ReleaseLaw(Locks()[vlan], 0);
        hide Exec, Released;
        entries[vlan].Release();
      }
    }

    /** Arm from the lock onwards. `armable` is the outcome of what follows the acquisition: a coin slot
        is fitted and its marker files could be written. Every exit that acquired the lock either
        hands its ticket to the caller or has released it again. */
    method Arm(ip: string, vlan: string, generated: string, armable: bool) returns (reply: ArmReply)
      requires Valid()
      modifies this`entries, entries.Values
      ensures Valid() && fresh(entries.Values - old(entries.Values))
      ensures vlan == "" ==> Locks() == old(Locks()) && reply == if armable then Armed("") else Failed
      ensures vlan != "" ==>
                var before := At(old(Locks()), vlan); var after := At(Locks(), vlan);
                && OthersKept(old(Locks()), Locks(), vlan)
                && match reply
                   case Busy => before.full && before.holder != ip && after == before
                   case Reissued(t) => before.full && before.holder == ip && after == before && t == before.ticket
                   case Failed => !before.full && !armable && after == Lock(false, "", "", before.gen + 1)
                   case Armed(t) =>
                     !before.full && armable && after == Lock(true, ip, generated, before.gen + 1) && t == generated
    {
      hide Exec;
      var acquired, holder, ticket := PayLockTryAcquire(ip, vlan, generated);
      if !acquired {
        if holder == ip {
          return Reissued(PayLockCurrentTicket(vlan));
        }
        return Busy;
      }
      if !armable {
        PayLockRelease(vlan);
        return Failed;
      }
      reply := Armed(ticket);
    }

    method Disarm(vlan: string)
      requires Valid()
      modifies entries.Values
      ensures Valid() && OthersKept(old(Locks()), Locks(), vlan)
      ensures var l := At(old(Locks()), vlan);
              At(Locks(), vlan) == if l.full then Lock(false, "", "", l.gen) else l
    {
      PayLockRelease(vlan);
    }

    /** The probe takes and drops a free lock, so it costs one generation and nothing else; it lets the
        holder of a taken lock through and turns everyone else away. */
    method CanStart(ip: string, vlan: string, generated: string) returns (can: bool)
      requires Valid()
      modifies this`entries, entries.Values
      ensures Valid() && fresh(entries.Values - old(entries.Values))
      ensures vlan == "" ==> can && Locks() == old(Locks())
      ensures vlan != "" ==>
                var before := At(old(Locks()), vlan);
                && OthersKept(old(Locks()), Locks(), vlan)
                && (can <==> !before.full || before.holder == ip)
                && At(Locks(), vlan) == if before.full then before else Lock(false, "", "", before.gen + 1)
    {
      hide Exec;
      var acquired, holder, _ := PayLockTryAcquire(ip, vlan, generated);
      if acquired {
        PayLockRelease(vlan);
        return true;
      }
      can := holder == ip;
    }
  }

  /** The locks of the registry obey what is proved of every timed run, whatever calls brought them about,
      as long as tickets were fresh and watchdogs woke when due: a taken lock has the ticket last issued,
      is in the generation that counts its acquisitions, has been held for at most the timeout, and no
      more Starts got past its ticket check than it was acquired. */
  lemma RegistryRunsInTime(r: Registry, vlan: string)
    requires r.Valid() && vlan in r.entries && ValidRun(START, r.entries[vlan].history)
    ensures var run := r.entries[vlan].history; var w := Exec(START, run); var l := r.entries[vlan].Abs();
            && w.lock == l && Inv(w)
            && l.gen == Acquisitions(START, run) && Passes(START, run) <= Acquisitions(START, run)
            && (l.full ==> w.now <= w.acquiredAt + 120_000_000)
  {
    LockInvariantOverRuns(START, r.entries[vlan].history);
    StartsNeverExceedAcquisitions(r.entries[vlan].history);
  }
}
