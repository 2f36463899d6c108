/** The pay lock of one VLAN: a one-slot semaphore with its holder, the ticket handed from arm to
    start, and the generation counter that its delayed watchdogs compare. Each function body of
    paylock.go, and a watchdog's check with its drain, is one step. */
module PayLock {

  datatype Lock = Lock(full: bool, holder: string, ticket: string, gen: nat)

  const FREE := Lock(false, "", "", 0)

  /** payLockTimeout in microseconds. */
  const TIMEOUT: nat := 120_000_000

  datatype Verdict = Passed | InvalidTicket | LockGone

  function Acquired(l: Lock, ip: string, ticket: string): Lock {
    if l.full then l else Lock(true, ip, ticket, l.gen + 1)
  }

  function Released(l: Lock): Lock {
    if l.full then Lock(false, "", "", l.gen) else l
  }

  function Check(l: Lock, ticket: string): Verdict {
    if ticket == "" || l.ticket == "" || ticket != l.ticket then InvalidTicket
    else if l.full then Passed else LockGone
  }

  function Validated(l: Lock, ticket: string): Lock {
    match Check(l, ticket)
    case InvalidTicket => l
    case Passed => Released(l)
    case LockGone => l.(ticket := "")
  }

  function Drained(l: Lock, spawnGen: nat): Lock {
    if l.gen != spawnGen then l else Released(l)
  }

  // ---------- timed runs of one VLAN ----------

  /** The lock with the clock, the due time of every sleeping watchdog, the tickets issued so far
      (the ticket of generation g at position g - 1) and the instant of the last acquisition. */
  datatype World = World(lock: Lock, now: int, due: map<nat, int>, issued: seq<string>, acquiredAt: int)

  const START := World(FREE, 0, map[], [], 0)

  datatype Step = Wait(d: nat) | Try(ip: string, ticket: string) | Start(ticket: string) | Drop | Fire(gen: nat)

  /** Tickets are fresh, and time does not pass a watchdog that is due. */
  predicate Enabled(w: World, s: Step) {
    match s
    case Wait(d) => forall g <- w.due :: w.now + d <= w.due[g]
    case Try(ip, ticket) => ip != "" && ticket != "" && ticket !in w.issued
    case Fire(g) => g in w.due && w.due[g] <= w.now
    case _ => true
  }

  function Next(w: World, s: Step): World {
    match s
    case Wait(d) => w.(now := w.now + d)
    case Try(ip, ticket) =>
      if w.lock.full then w
      else
        var l := Acquired(w.lock, ip, ticket);
        w.(lock := l, due := w.due[l.gen := w.now + TIMEOUT], issued := w.issued + [ticket], acquiredAt := w.now)
    case Start(ticket) => w.(lock := Validated(w.lock, ticket))
    case Drop => w.(lock := Released(w.lock))
    case Fire(g) => w.(lock := Drained(w.lock, g), due := w.due - {g})
  }

  predicate ValidRun(w: World, run: seq<Step>)
    decreases |run|
  {
    run == [] || (Enabled(w, run[0]) && ValidRun(Next(w, run[0]), run[1..]))
  }

  function Exec(w: World, run: seq<Step>): World
    decreases |run|
  {
    if run == [] then w else Exec(Next(w, run[0]), run[1..])
  }

  lemma {:induction false} LastStep(w: World, run: seq<Step>, s: Step)
    ensures Exec(w, run + [s]) == Next(Exec(w, run), s)
    ensures ValidRun(w, run) && Enabled(Exec(w, run), s) ==> ValidRun(w, run + [s])
    decreases |run|
  {
    assert [s][1..] == [];
    if run != [] {
      LastStep(Next(w, run[0]), run[1..], s);
      assert (run + [s])[1..] == run[1..] + [s];
    } else {
      assert run + [s] == [s];
    }
  }

  // ---------- the invariant ----------

  predicate Distinct(s: seq<string>) {
    forall i, j :: 0 <= i < j < |s| ==> s[i] != s[j]
  }

  /** Empty means no holder and no ticket; full means both are set, the ticket being the one issued
      to the current generation, whose own watchdog is still asleep. */
  predicate LockOk(w: World) {
    && w.lock.gen == |w.issued|
    && if w.lock.full
       then w.lock.holder != "" && w.lock.ticket != "" && w.lock.gen > 0 && w.lock.ticket == w.issued[w.lock.gen - 1]
       else w.lock.holder == "" && w.lock.ticket == ""
  }

  predicate WatchdogsOk(w: World) {
    && (forall g <- w.due :: g <= w.lock.gen && w.now <= w.due[g])
    && (w.lock.full ==> w.lock.gen in w.due && w.acquiredAt <= w.now)
    && (w.lock.gen in w.due ==> w.due[w.lock.gen] == w.acquiredAt + TIMEOUT)
  }

  predicate Inv(w: World) {
    LockOk(w) && WatchdogsOk(w) && Distinct(w.issued)
  }

  lemma StepKeepsInv(w: World, s: Step)
    requires Inv(w) && Enabled(w, s)
    ensures Inv(Next(w, s))
  {
  }

  function Acquisitions(w: World, run: seq<Step>): nat
    decreases |run|
  {
    if run == [] then 0
    else (if run[0].Try? && !w.lock.full then 1 else 0) + Acquisitions(Next(w, run[0]), run[1..])
  }

  /** In every run: the lock and its tickets agree, the generation counts the acquisitions, and no
      lock has been held for more than 120 seconds. */
  lemma {:induction false} LockInvariantOverRuns(w: World, run: seq<Step>)
    requires Inv(w) && ValidRun(w, run)
    ensures var v := Exec(w, run);
            && Inv(v)
            && v.lock.gen == w.lock.gen + Acquisitions(w, run)
            && (v.lock.full ==> v.now <= v.acquiredAt + 120_000_000)
    decreases |run|
  {
    if run != [] {
      StepKeepsInv(w, run[0]);
      LockInvariantOverRuns(Next(w, run[0]), run[1..]);
    }
  }

  /** A matching ticket always finds its lock: the branch for a valid ticket on an empty semaphore is dead. */
  lemma ValidTicketFindsItsLock(run: seq<Step>, ticket: string)
    requires ValidRun(START, run)
    ensures Check(Exec(START, run).lock, ticket) != LockGone
  {
    LockInvariantOverRuns(START, run);
  }

  /** Who can free a held lock: its own ticket, an explicit release, or its own watchdog exactly when
      the timeout is up. A watchdog of an older generation changes nothing, however many probes and
      re-arms came in between. */
  lemma WatchdogIsExact(run: seq<Step>, s: Step)
    requires ValidRun(START, run) && Enabled(Exec(START, run), s)
    ensures var w := Exec(START, run); var v := Next(w, s);
            && (s.Fire? && s.gen != w.lock.gen ==> v.lock == w.lock)
            && (s.Fire? && v.lock != w.lock ==> w.now == w.acquiredAt + 120_000_000)
            && (w.lock.full && !v.lock.full ==>
                  || (s.Start? && s.ticket == w.lock.ticket) || s.Drop?
                  || (s == Fire(w.lock.gen) && w.now == w.acquiredAt + 120_000_000))
  {
    LockInvariantOverRuns(START, run);
  }

  // ---------- what each operation does ----------

  /** A free lock is taken by whoever tries; a taken one is left alone. */
  lemma AcquisitionLaw(l: Lock, ip: string, ticket: string)
    ensures !l.full ==> Acquired(l, ip, ticket) == Lock(true, ip, ticket, l.gen + 1)
    ensures l.full ==> Acquired(l, ip, ticket) == l
  {
  }

  /** Exactly the ticket of a taken lock passes, and frees it; a ticket that does not match changes nothing. */
  lemma TicketLaw(l: Lock, ticket: string)
    ensures Check(l, ticket) == Passed <==> l.full && ticket != "" && ticket == l.ticket
    ensures Check(l, ticket) == LockGone <==> !l.full && ticket != "" && ticket == l.ticket
    ensures Validated(l, ticket) ==
            if ticket == "" || ticket != l.ticket then l
            else if l.full then Lock(false, "", "", l.gen) else l.(ticket := "")
  {
  }

  /** An explicit release frees a taken lock, and a watchdog that wakes one of its own generation. */
  lemma ReleaseLaw(l: Lock, spawnGen: nat)
    ensures Released(l) == if l.full then Lock(false, "", "", l.gen) else l
    ensures Drained(l, spawnGen) == if l.full && l.gen == spawnGen then Lock(false, "", "", l.gen) else l
  {
  }

  // ---------- the right ticket gets in ----------

  /** The lock is held with this ticket, and its own watchdog sleeps until the deadline. */
  predicate Holds(w: World, ip: string, ticket: string, gen: nat, deadline: int) {
    w.lock == Lock(true, ip, ticket, gen) && gen in w.due && w.due[gen] == deadline
  }

  lemma {:induction false} TimeAdvances(w: World, run: seq<Step>)
    requires ValidRun(w, run)
    ensures w.now <= Exec(w, run).now
    decreases |run|
  {
    if run != [] {
      TimeAdvances(Next(w, run[0]), run[1..]);
    }
  }

  lemma {:induction false} HeldThroughout(w: World, run: seq<Step>, ip: string, ticket: string, gen: nat, deadline: int)
    requires ValidRun(w, run) && Holds(w, ip, ticket, gen, deadline) && Exec(w, run).now < deadline
    requires forall s <- run :: s != Drop && s != Start(ticket)
    ensures Holds(Exec(w, run), ip, ticket, gen, deadline)
    decreases |run|
  {
    if run != [] {
      TimeAdvances(w, run);
      TimeAdvances(Next(w, run[0]), run[1..]);
      assert run[0] in run && forall s <- run[1..] :: s in run;
      HeldThroughout(Next(w, run[0]), run[1..], ip, ticket, gen, deadline);
    }
  }

  /** A customer who takes a free lock gets in with its ticket for 120 seconds, whatever other customers try,
      whatever wrong tickets are given and whatever older watchdogs wake, unless the lock is released. */
  lemma CustomerGetsIn(w: World, ip: string, ticket: string, run: seq<Step>)
    requires !w.lock.full && Enabled(w, Try(ip, ticket)) && ValidRun(Next(w, Try(ip, ticket)), run)
    requires forall s <- run :: s != Drop && s != Start(ticket)
    requires Exec(Next(w, Try(ip, ticket)), run).now < w.now + 120_000_000
    ensures var v := Exec(Next(w, Try(ip, ticket)), run);
            && v.lock.full && v.lock.ticket == ticket && v.lock.holder == ip
            && PassesCheck(v, Start(ticket)) && Next(v, Start(ticket)).lock == Lock(false, "", "", w.lock.gen + 1)
  {
    HeldThroughout(Next(w, Try(ip, ticket)), run, ip, ticket, w.lock.gen + 1, w.now + TIMEOUT);
  }

  // ---------- tickets are linear ----------

  predicate PassesCheck(w: World, s: Step) {
    s.Start? && Check(w.lock, s.ticket).Passed?
  }

  /** How often this ticket gets past the check in the run. */
  function PassesOf(w: World, run: seq<Step>, ticket: string): nat
    decreases |run|
  {
    if run == [] then 0
    else
      (if PassesCheck(w, run[0]) && run[0].ticket == ticket then 1 else 0)
      + PassesOf(Next(w, run[0]), run[1..], ticket)
  }

  function Passes(w: World, run: seq<Step>): nat
    decreases |run|
  {
    if run == [] then 0 else (if PassesCheck(w, run[0]) then 1 else 0) + Passes(Next(w, run[0]), run[1..])
  }

  /** A ticket can still pass while it is the current one, or before it is issued. */
  function Budget(w: World, ticket: string): nat {
    if ticket in w.issued && !(w.lock.full && w.lock.ticket == ticket) then 0 else 1
  }

  lemma StepSpendsBudget(w: World, s: Step, ticket: string)
    requires Inv(w) && Enabled(w, s)
    ensures Budget(Next(w, s), ticket) + (if PassesCheck(w, s) && s.ticket == ticket then 1 else 0) <= Budget(w, ticket)
  {
    if w.lock.full {
      assert w.issued[w.lock.gen - 1] == w.lock.ticket;
    }
    if s.Try? && !w.lock.full {
      assert Next(w, s).issued[|w.issued|] == s.ticket;
    }
  }

  /** Whatever happens in between, each ticket passes validation at most once. */
  lemma {:induction false} TicketPassesAtMostOnce(w: World, run: seq<Step>, ticket: string)
    requires Inv(w) && ValidRun(w, run)
    ensures PassesOf(w, run, ticket) <= Budget(w, ticket) <= 1
    decreases |run|
  {
    if run != [] {
      StepKeepsInv(w, run[0]);
      StepSpendsBudget(w, run[0], ticket);
      TicketPassesAtMostOnce(Next(w, run[0]), run[1..], ticket);
    }
  }

  /** A ticket passes only in the generation it was issued to. */
  lemma PassesOnlyInItsGeneration(run: seq<Step>, s: Step, g: nat)
    requires ValidRun(START, run) && PassesCheck(Exec(START, run), s)
    requires 0 < g <= |Exec(START, run).issued| && Exec(START, run).issued[g - 1] == s.ticket
    ensures Exec(START, run).lock.gen == g
  {
    LockInvariantOverRuns(START, run);
  }

  lemma {:induction false} PassesAreBacked(w: World, run: seq<Step>)
    requires Inv(w) && ValidRun(w, run)
    ensures Passes(w, run) <= Acquisitions(w, run) + (if w.lock.full then 1 else 0)
    decreases |run|
  {
    if run != [] {
      StepKeepsInv(w, run[0]);
      PassesAreBacked(Next(w, run[0]), run[1..]);
    }
  }

  /** On a VLAN, no more Starts get past the ticket check than there were successful acquisitions. */
  lemma StartsNeverExceedAcquisitions(run: seq<Step>)
    requires ValidRun(START, run)
    ensures Passes(START, run) <= Acquisitions(START, run)
  {
    PassesAreBacked(START, run);
  }
}
