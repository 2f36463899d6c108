/** Paying with coins from end to end: the coin endpoint, the window and the start handler, on top of
    the pay locks and the sessions table. */
module PaymentDesk {
  import opened Options
  import opened Clock
  import opened Sessions
  import opened SessionStore
  import opened CoinLedger
  import Pricing
  import PayLock
  import PayLockRegistry

  datatype Reply =
    | Forbidden
    | NotAdmitted(why: PayLockRegistry.StartReply)
    | NoCredit
    | CreditFailed
    | Paid(id: nat, extended: bool)

  class Desk {
    const sessions: SessionHandler
    const locks: PayLockRegistry.Registry
    var coins: seq<Coin>
    var armedFile: Option<int>
    var armedAtFile: Option<int>

    constructor (sessions: SessionHandler, locks: PayLockRegistry.Registry)
      ensures this.sessions == sessions && this.locks == locks
      ensures coins == [] && armedFile == None && armedAtFile == None
    {
      this.sessions, this.locks := sessions, locks;
      coins, armedFile, armedAtFile := [], None, None;
    }

    function View(): Engine
      reads this, sessions
    {
      Engine(sessions.State(), coins, Slot(armedFile, armedAtFile))
    }

    /** Arm: take the pay lock of the caller's VLAN, then write the two markers that open the window of the
        one coin slot. `slot` tells whether a coin slot is fitted, `made`, `wrote` and `noted` whether
        the directory, the marker and the arm time could be written; a missing arm time is only logged. */
    method Arm(
      ip: string, vlan: string, generated: string, duration: int, slot: bool, made: bool, wrote: bool, noted: bool)
      returns (reply: PayLockRegistry.ArmReply)
      requires locks.Valid()
      modifies this`armedFile, this`armedAtFile, locks`entries, locks.entries.Values
      ensures locks.Valid() && fresh(locks.entries.Values - old(locks.entries.Values))
      ensures PayLockRegistry.OthersKept(old(locks.Locks()), locks.Locks(), vlan)
      ensures reply.Armed? || reply.Failed? ==>
                && (reply.Armed? <==> slot && made && wrote)
                && (vlan != "" ==> !PayLockRegistry.At(old(locks.Locks()), vlan).full)
      ensures reply.Armed? && vlan != "" ==>
                && reply.ticket == generated && PayLockRegistry.At(locks.Locks(), vlan).full
                && PayLockRegistry.At(locks.Locks(), vlan).holder == ip
                && PayLockRegistry.At(locks.Locks(), vlan).ticket == generated
      ensures reply.Armed? ==> View() == After(old(View()), Act.Arm(duration, noted))
      ensures reply.Armed? ==>
                && var second := sessions.now / TICK;
                   && armedFile == Some(second + if duration <= 0 then 60 else if duration > 300 then 300 else duration)
                   && armedAtFile == if noted then Some(second) else old(armedAtFile)
      ensures !reply.Armed? ==> View() == old(View())
    {
      reply := locks.Arm(ip, vlan, generated, slot && made && wrote);
      if reply.Armed? {
        OpenWindow(duration, noted);
      }
    }

    method OpenWindow(duration: int, noted: bool)
      modifies this`armedFile, this`armedAtFile
      ensures View() == After(old(View()), Act.Arm(duration, noted))
      ensures var second := sessions.now / TICK;
              && armedFile == Some(second + if duration <= 0 then 60 else if duration > 300 then 300 else duration)
              && armedAtFile == if noted then Some(second) else old(armedAtFile)
    {
      var d := duration;
      if d <= 0 {
        d := DEFAULT_ARM_DURATION;
      }
      if d > MAX_ARM_DURATION {
        d := MAX_ARM_DURATION;
      }
      var armedAt := sessions.now / TICK;
      armedFile := Some(armedAt + d);
      if noted {
        armedAtFile := Some(armedAt);
      }
    }

    /** Disarm closes the window, whichever VLAN opened it, and frees the lock of the caller's VLAN. */
    method Disarm(vlan: string)
      requires locks.Valid()
      modifies this`armedFile, this`armedAtFile, locks.entries.Values
      ensures locks.Valid() && View() == After(old(View()), Act.Disarm) && armedFile == None && armedAtFile == None
      ensures PayLockRegistry.OthersKept(old(locks.Locks()), locks.Locks(), vlan)
      ensures var l := PayLockRegistry.At(old(locks.Locks()), vlan);
              PayLockRegistry.At(locks.Locks(), vlan) == if l.full then PayLock.Lock(false, "", "", l.gen) else l
    {
      hide PayLockRegistry.OthersKept, PayLockRegistry.At, PayLock.Released;
      locks.Disarm(vlan);
      armedFile, armedAtFile := None, None;
    }

    /** The coin endpoint. */
    method InsertCoin(value: int) returns (ok: bool)
      modifies this`coins
      ensures ok <==> value > 0
      ensures View() == After(old(View()), Drop(value, LOCAL_GPIO))
      ensures coins == old(coins) + if ok then [Coin(value, sessions.now, "local_gpio", false, None)] else []
    {
      if value <= 0 {
        return false;
      }
      coins := coins + [Coin(value, sessions.now, LOCAL_GPIO, false, None)];
      ok := true;
    }

    method UnprocessedWindowCoins(source: string, tiers: seq<Pricing.Tier>)
      returns (ids: seq<nat>, totalValue: int, totalMinutes: int)
      ensures ids == Window(coins, |coins|, Since(View().slot, sessions.now), source)
      ensures totalValue == Pricing.Sum(Values(coins, ids))
      ensures totalMinutes == Pricing.Credit(tiers, totalValue)
    {
      var windowAge := WindowAge(Slot(armedFile, armedAtFile), sessions.now);
      ids, totalValue := ReadWindow(coins, sessions.now - windowAge * TICK, source);
      totalMinutes := 0;
      if totalValue > 0 {
        var m := Pricing.MinutesForAmount(tiers, totalValue);
        if m.coin > 0 && m.minutes > 0 {
          totalMinutes := Pricing.Scaled(totalValue, m.minutes, m.coin);
        }
      }
    }

    /** What Start does once it is admitted; `lateBan` is the check inside the credit transaction. */
    method CreditWindow(caller: Purchase, lateBan: bool, tiers: seq<Pricing.Tier>)
      returns (reply: Reply, target: Target)
      requires Pricing.ValidTable(tiers)
      modifies this, sessions
      ensures var o := Order(caller, lateBan, target, tiers, LOCAL_GPIO);
              && (reply.NoCredit? ==> Pricing.Credit(tiers, WindowTotal(old(View()), o)) == 0 && View() == old(View()))
              && (!reply.NoCredit? ==>
                    && Pricing.Credit(tiers, WindowTotal(old(View()), o)) > 0
                    && OrderOk(old(View()), o) && View() == Started(old(View()), o)
                    && (reply.Paid? <==> StartCommits(old(View()), o)))
      ensures reply.NoCredit? || reply.CreditFailed? || reply.Paid?
      ensures reply.Paid? ==>
                && reply.extended == target.Prolong?
                && reply.id == if target.Insert? then old(sessions.nextId) else target.id
    {
      hide Credited, CreditCommits, WindowAge, Pricing.Credit, Window;
      target := Insert;
      var ids, totalValue, totalMinutes := UnprocessedWindowCoins(LOCAL_GPIO, tiers);
      if totalMinutes == 0 {
        return NoCredit, target;
      }
      Pricing.CreditIsNonNegative(tiers, totalValue);
      var credit;
      credit, target := sessions.CreditSession(Priced(caller, tiers, totalValue), lateBan);
      if !credit.Done? {
        return CreditFailed, target;
      }
      coins := MarkProcessed(coins, ids, credit.id);
      armedFile, armedAtFile := None, None;
      reply := Paid(credit.id, credit.extended);
    }

    /** Start, from the ticket to the credited session. The ticket is spent whether or not there is
        anything to credit; session and coins change together or not at all. */
    method Start(
      caller: Purchase, vlan: string, ticket: string, banned: bool, lateBan: bool, tiers: seq<Pricing.Tier>)
      returns (reply: Reply, target: Target)
      requires locks.Valid() && Pricing.ValidTable(tiers)
      modifies this, sessions, locks.entries.Values
      ensures locks.Valid()
      ensures reply.Forbidden? <==> caller.mac != "" && banned
      ensures reply.Forbidden? || (vlan !in locks.entries) ==> locks.Locks() == old(locks.Locks())
      ensures !reply.Forbidden? && vlan in locks.entries ==>
                locks.Locks() == old(locks.Locks())[vlan := PayLock.Validated(old(locks.Locks())[vlan], ticket)]
      ensures !reply.Forbidden? ==>
                (!reply.NotAdmitted? <==>
                   vlan == "" || (&& vlan in locks.entries && ticket != "" && old(locks.Locks())[vlan].full
                                  && ticket == old(locks.Locks())[vlan].ticket))
      ensures reply.NotAdmitted? ==>
                (reply.why == PayLockRegistry.BadTicket <==>
                   vlan in locks.entries && (ticket == "" || ticket != old(locks.Locks())[vlan].ticket))
      ensures reply.Forbidden? || reply.NotAdmitted? || reply.NoCredit? ==> View() == old(View())
      ensures var o := Order(caller, lateBan, target, tiers, LOCAL_GPIO);
              && (reply.NoCredit? ==> Pricing.Credit(tiers, WindowTotal(old(View()), o)) == 0)
              && (reply.CreditFailed? || reply.Paid? ==> Pricing.Credit(tiers, WindowTotal(old(View()), o)) > 0)
              && (reply.CreditFailed? || reply.Paid? ==>
                    && OrderOk(old(View()), o) && View() == Started(old(View()), o)
                    && (reply.Paid? <==> StartCommits(old(View()), o)))
      ensures reply.Paid? ==>
                && reply.extended == target.Prolong?
                && reply.id == if target.Insert? then old(sessions.nextId) else target.id
    {
      hide Started, StartCommits, WindowTotal, OrderOk, Pricing.Credit, PayLock.Validated, Pricing.ValidTable;
      target := Insert;
      if caller.mac != "" && banned {
        return Forbidden, target;
      }
      var admitted := locks.PayLockValidateAndRelease(vlan, ticket);
      if admitted != PayLockRegistry.Admitted {
        return NotAdmitted(admitted), target;
      }
      reply, target := CreditWindow(caller, lateBan, tiers);
    }
  }
}
