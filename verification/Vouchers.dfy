/** Voucher redemption: claim, credit and bind or rollback are separate statements, between which
    other clients and the administrator may act on the same voucher. */
module Vouchers {
  import opened Options
  import opened Clock
  import Sessions
  import SessionLaws
  import opened SessionStore

  datatype Status = Unused | Used | Disabled

  /** What a voucher buys. */
  datatype Terms = Terms(minutes: int, pausable: bool, hours: int)

  datatype Voucher = Voucher(
    code: string, terms: Terms, status: Status, redeemedBy: Option<string>, session: Option<nat>, token: string)

  /** A redemption under way: the claimed voucher with the terms it had then, and whether its credit has
      failed and it is about to be rolled back. */
  datatype Flight = Flight(voucher: nat, terms: Terms, failed: bool)

  /** Ids, of vouchers and of redemptions, are serial and never used again. */
  datatype Shop = Shop(vouchers: map<nat, Voucher>, nextId: nat, flights: map<nat, Flight>, nextFlight: nat)

  const EMPTY := Shop(map[], 1, map[], 0)

  const MAX_MINUTES: int := 525600

  /** The administrator's status change: only these two are accepted. */
  datatype NewStatus = Reissue | Disable

  datatype Step =
    | Create(code: string, terms: Terms)
    | Claim(id: nat, mac: string)
    | CreditDone(flight: nat)
    | CreditFailed(flight: nat)
    | Rollback(flight: nat)
    | Crash(flight: nat)
    | Bind(id: nat, session: nat, token: string)
    | Patch(id: nat, minutes: Option<int>, status: Option<NewStatus>)
    | Delete(id: nat)

  predicate InRange(minutes: int) {
    0 < minutes <= MAX_MINUTES
  }

  /** The claiming UPDATE finds a row only while the voucher is unused. */
  predicate Claimable(shop: Shop, id: nat) {
    id in shop.vouchers && shop.vouchers[id].status.Unused?
  }

  predicate Enabled(shop: Shop, s: Step) {
    match s
    case Create(_, terms) => InRange(terms.minutes)
    case Claim(id, _) => Claimable(shop, id)
    case CreditDone(f) => f in shop.flights && !shop.flights[f].failed
    case CreditFailed(f) => f in shop.flights && !shop.flights[f].failed
    case Rollback(f) => f in shop.flights && shop.flights[f].failed
    case Crash(f) => f in shop.flights
    case Patch(_, minutes, _) => minutes.Some? ==> InRange(minutes.value)
    case _ => true
  }

  function SetVoucher(shop: Shop, id: nat, v: Voucher): Shop {
    shop.(vouchers := shop.vouchers[id := v])
  }

  function Patched(v: Voucher, minutes: Option<int>, status: Option<NewStatus>): Voucher {
    var w := if minutes.Some? then v.(terms := v.terms.(minutes := minutes.value)) else v;
    match status
    case None => w
    case Some(Reissue) => w.(status := Unused, redeemedBy := None, session := None, token := "")
    case Some(Disable) => w.(status := Disabled)
  }

  function Next(shop: Shop, s: Step): Shop
    requires Enabled(shop, s)
  {
    match s
    case Create(code, terms) =>
      shop.(vouchers := shop.vouchers[shop.nextId := Voucher(code, terms, Unused, None, None, "")],
            nextId := shop.nextId + 1)
    case Claim(id, mac) =>
      var v := shop.vouchers[id];
      SetVoucher(shop, id, v.(status := Used, redeemedBy := Some(mac)))
      .(flights := shop.flights[shop.nextFlight := Flight(id, v.terms, false)], nextFlight := shop.nextFlight + 1)
    case CreditDone(f) => shop.(flights := shop.flights - {f})
    case CreditFailed(f) => shop.(flights := shop.flights[f := shop.flights[f].(failed := true)])
    case Rollback(f) =>
      var id := shop.flights[f].voucher;
      var rolled := shop.(flights := shop.flights - {f});
      if id in shop.vouchers && shop.vouchers[id].status.Used?
      then SetVoucher(rolled, id, shop.vouchers[id].(status := Unused, redeemedBy := None)) else rolled
    case Crash(f) => shop.(flights := shop.flights - {f})
    case Bind(id, session, token) =>
      if id in shop.vouchers
      then SetVoucher(shop, id, shop.vouchers[id].(session := Some(session), token := token)) else shop
    case Patch(id, minutes, status) =>
      if id in shop.vouchers then SetVoucher(shop, id, Patched(shop.vouchers[id], minutes, status)) else shop
    case Delete(id) => shop.(vouchers := shop.vouchers - {id})
  }

  predicate ValidRun(shop: Shop, run: seq<Step>)
    decreases |run|
  {
    run == [] || (Enabled(shop, run[0]) && ValidRun(Next(shop, run[0]), run[1..]))
  }

  function Exec(shop: Shop, run: seq<Step>): Shop
    requires ValidRun(shop, run)
    decreases |run|
  {
    if run == [] then shop else Exec(Next(shop, run[0]), run[1..])
  }

  // ---------- the account of one voucher ----------

  function UnusedNow(shop: Shop, id: nat): nat {
    if Claimable(shop, id) then 1 else 0
  }

  function FlightsOf(flights: map<nat, Flight>, id: nat): set<nat> {
    set f | f in flights && flights[f].voucher == id
  }

  function InFlight(shop: Shop, id: nat): nat {
    |FlightsOf(shop.flights, id)|
  }

  predicate IsReissue(s: Step, id: nat) {
    s.Patch? && s.id == id && s.status == Some(Reissue)
  }

  /** Chances to be credited that the step adds: the creation, and a re-issue of a voucher that was not unused. */
  function Granted(shop: Shop, s: Step, id: nat): nat {
    if s.Create? && shop.nextId == id then 1
    else if IsReissue(s, id) && id in shop.vouchers && !shop.vouchers[id].status.Unused? then 1
    else 0
  }

  predicate OfVoucher(shop: Shop, f: nat, id: nat) {
    f in shop.flights && shop.flights[f].voucher == id
  }

  /** Chances the step destroys: a crash in mid-redemption, taking an unused voucher out of sale, or a
      rollback that finds the voucher in a state other than used. */
  function Lost(shop: Shop, s: Step, id: nat): nat {
    match s
    case Crash(f) => if OfVoucher(shop, f, id) then 1 else 0
    case Patch(x, _, status) => if x == id && status == Some(Disable) && Claimable(shop, id) then 1 else 0
    case Delete(x) => if x == id && Claimable(shop, id) then 1 else 0
    case Rollback(f) =>
      if OfVoucher(shop, f, id) && !(id in shop.vouchers && shop.vouchers[id].status.Used?) then 1 else 0
    case _ => 0
  }

  function CreditsOf(shop: Shop, s: Step, id: nat): nat {
    if s.CreditDone? && OfVoucher(shop, s.flight, id) then 1 else 0
  }

  datatype Tally = Tally(credits: nat, granted: nat, lost: nat)

  function TallyOf(shop: Shop, run: seq<Step>, id: nat): Tally
    requires ValidRun(shop, run)
    decreases |run|
  {
    if run == [] then Tally(0, 0, 0)
    else
      var rest := TallyOf(Next(shop, run[0]), run[1..], id);
      Tally(CreditsOf(shop, run[0], id) + rest.credits,
            Granted(shop, run[0], id) + rest.granted,
            Lost(shop, run[0], id) + rest.lost)
  }

  /** Ids the counters have not reached are not in use, and minutes stay within the accepted range. */
  ghost predicate ShopOk(shop: Shop) {
    && (forall id <- shop.vouchers :: id < shop.nextId && InRange(shop.vouchers[id].terms.minutes))
    && forall f <- shop.flights ::
         f < shop.nextFlight && shop.flights[f].voucher < shop.nextId && InRange(shop.flights[f].terms.minutes)
  }

  lemma StepKeepsShop(shop: Shop, s: Step)
    requires ShopOk(shop) && Enabled(shop, s)
    ensures ShopOk(Next(shop, s))
  {
  }

  lemma OneFlightMore(flights: map<nat, Flight>, f: nat, x: Flight, id: nat)
    requires f !in flights
    ensures |FlightsOf(flights[f := x], id)| == |FlightsOf(flights, id)| + if x.voucher == id then 1 else 0
  {
    assert FlightsOf(flights[f := x], id) == FlightsOf(flights, id) + if x.voucher == id then {f} else {};
  }

  lemma OneFlightLess(flights: map<nat, Flight>, f: nat, id: nat)
    requires f in flights
    ensures |FlightsOf(flights, id)| == |FlightsOf(flights - {f}, id)| + if flights[f].voucher == id then 1 else 0
  {
    assert FlightsOf(flights - {f}, id) == FlightsOf(flights, id) - {f};
  }

  lemma SameFlights(flights: map<nat, Flight>, f: nat, id: nat)
    requires f in flights
    ensures |FlightsOf(flights[f := flights[f].(failed := true)], id)| == |FlightsOf(flights, id)|
  {
    assert FlightsOf(flights[f := flights[f].(failed := true)], id) == FlightsOf(flights, id);
  }

  ghost predicate Conserves(shop: Shop, s: Step, id: nat)
    requires Enabled(shop, s)
  {
    var next := Next(shop, s);
    CreditsOf(shop, s, id) + InFlight(next, id) + UnusedNow(next, id) + Lost(shop, s, id)
    == InFlight(shop, id) + UnusedNow(shop, id) + Granted(shop, s, id)
  }

  lemma StepConserves(shop: Shop, s: Step, id: nat)
    requires ShopOk(shop) && Enabled(shop, s)
    ensures Conserves(shop, s, id)
  {
    hide FlightsOf;
    match s
    case Claim(x, _) => OneFlightMore(shop.flights, shop.nextFlight, Flight(x, shop.vouchers[x].terms, false), id);
    case CreditDone(f) => OneFlightLess(shop.flights, f, id);
    case CreditFailed(f) => SameFlights(shop.flights, f, id);
    case Rollback(f) => OneFlightLess(shop.flights, f, id);
    case Crash(f) => OneFlightLess(shop.flights, f, id);
    case _ =>
  }

  /** Conservation, under every interleaving: what a voucher was worth before the run and was granted
      during it is exactly what was credited, is in flight, is still unused or was destroyed. */
  lemma {:induction false} ChancesAreConserved(shop: Shop, run: seq<Step>, id: nat)
    requires ShopOk(shop) && ValidRun(shop, run)
    ensures var end := Exec(shop, run); var t := TallyOf(shop, run, id);
            && ShopOk(end)
            && t.credits + InFlight(end, id) + UnusedNow(end, id) + t.lost
               == InFlight(shop, id) + UnusedNow(shop, id) + t.granted
    decreases |run|
  {
    if run != [] {
      StepKeepsShop(shop, run[0]);
      StepConserves(shop, run[0], id);
      ChancesAreConserved(Next(shop, run[0]), run[1..], id);
    }
  }

  function Reissues(run: seq<Step>, id: nat): nat {
    if run == [] then 0 else (if IsReissue(run[0], id) then 1 else 0) + Reissues(run[1..], id)
  }

  lemma {:induction false} GrantsAreCreationAndReissues(shop: Shop, run: seq<Step>, id: nat)
    requires ShopOk(shop) && ValidRun(shop, run)
    ensures TallyOf(shop, run, id).granted <= (if id < shop.nextId then 0 else 1) + Reissues(run, id)
    decreases |run|
  {
    if run != [] {
      StepKeepsShop(shop, run[0]);
      GrantsAreCreationAndReissues(Next(shop, run[0]), run[1..], id);
    }
  }

  /** A voucher is credited at most once per time it was put on sale: credits done, claims in flight
      and an unused voucher together never exceed one plus the administrator's re-issues. */
  lemma SingleCreditPerIssue(run: seq<Step>, id: nat)
    requires ValidRun(EMPTY, run)
    ensures var end := Exec(EMPTY, run);
            TallyOf(EMPTY, run, id).credits + InFlight(end, id) + UnusedNow(end, id) <= 1 + Reissues(run, id)
  {
    ChancesAreConserved(EMPTY, run, id);
    GrantsAreCreationAndReissues(EMPTY, run, id);
  }

  /** A redemption that fails and is rolled back with nothing in between gives the voucher back. */
  lemma RollbackRestoresTheVoucher(shop: Shop, id: nat, mac: string)
    requires ShopOk(shop) && Claimable(shop, id) && shop.vouchers[id].redeemedBy.None?
    ensures var f := shop.nextFlight; var claimed := Next(shop, Claim(id, mac));
            && Enabled(claimed, CreditFailed(f))
            && Enabled(Next(claimed, CreditFailed(f)), Rollback(f))
            && Next(Next(claimed, CreditFailed(f)), Rollback(f)) == shop.(nextFlight := f + 1)
  {
    var f := shop.nextFlight;
    var failed := Next(Next(shop, Claim(id, mac)), CreditFailed(f));
    assert failed.flights - {f} == shop.flights;
    assert Next(failed, Rollback(f)).vouchers == shop.vouchers;
  }

  // ---------- vouchers and sessions together ----------

  /** The caller's purchase of a voucher: no pesos, the voucher's minutes and pause rules. */
  function VoucherPurchase(caller: Sessions.Purchase, terms: Terms): Sessions.Purchase {
    caller.(coins := 0, minutes := terms.minutes, pausable := terms.pausable, hours := terms.hours)
  }

  datatype Kiosk = Kiosk(shop: Shop, store: Sessions.Store)

  /** A redemption in flight is settled by creditSession, with the terms of its claim; all else happens to
      the vouchers alone or to the sessions alone. */
  datatype Act =
    | Settle(flight: nat, caller: Sessions.Purchase, banned: bool, target: Sessions.Target)
    | OnShop(step: Step)
    | OnSessions(event: Sessions.Event)

  predicate ActOk(k: Kiosk, a: Act) {
    match a
    case Settle(f, caller, _, target) =>
      && f in k.shop.flights && !k.shop.flights[f].failed
      && Sessions.TargetOk(k.store, VoucherPurchase(caller, k.shop.flights[f].terms), target)
    case OnShop(step) => Enabled(k.shop, step) && !step.CreditDone? && !step.CreditFailed?
    case OnSessions(event) => Sessions.Enabled(k.store, event)
  }

  function CreditOf(k: Kiosk, a: Act): Sessions.Event
    requires ActOk(k, a) && a.Settle?
  {
    Sessions.Credit(VoucherPurchase(a.caller, k.shop.flights[a.flight].terms), a.banned, a.target)
  }

  predicate Pays(k: Kiosk, a: Act)
    requires ActOk(k, a)
  {
    a.Settle? && Sessions.CreditCommits(k.store, CreditOf(k, a).p, a.banned, a.target)
  }

  /** What the act is to the vouchers, and to the sessions. */
  function StepOf(k: Kiosk, a: Act): seq<Step>
    requires ActOk(k, a)
  {
    match a
    case Settle(f, _, _, _) => [if Pays(k, a) then CreditDone(f) else CreditFailed(f)]
    case OnShop(step) => [step]
    case OnSessions(_) => []
  }

  function EventOf(k: Kiosk, a: Act): seq<Sessions.Event>
    requires ActOk(k, a)
  {
    match a
    case Settle(_, _, _, _) => if Pays(k, a) then [CreditOf(k, a)] else []
    case OnShop(_) => []
    case OnSessions(event) => [event]
  }

  function After(k: Kiosk, a: Act): Kiosk
    requires ActOk(k, a)
  {
    match a
    case Settle(f, _, _, _) =>
      if Pays(k, a)
      then Kiosk(Next(k.shop, CreditDone(f)), Sessions.Credited(k.store, CreditOf(k, a).p, a.banned, a.target))
      else k.(shop := Next(k.shop, CreditFailed(f)))
    case OnShop(step) => k.(shop := Next(k.shop, step))
    case OnSessions(event) => k.(store := Sessions.Step(k.store, event))
  }

  predicate ActsOk(k: Kiosk, run: seq<Act>)
    decreases |run|
  {
    run == [] || (ActOk(k, run[0]) && ActsOk(After(k, run[0]), run[1..]))
  }

  function Run(k: Kiosk, run: seq<Act>): Kiosk
    requires ActsOk(k, run)
    decreases |run|
  {
    if run == [] then k else Run(After(k, run[0]), run[1..])
  }

  function StepsOf(k: Kiosk, run: seq<Act>): seq<Step>
    requires ActsOk(k, run)
    decreases |run|
  {
    if run == [] then [] else StepOf(k, run[0]) + StepsOf(After(k, run[0]), run[1..])
  }

  function EventsOf(k: Kiosk, run: seq<Act>): seq<Sessions.Event>
    requires ActsOk(k, run)
    decreases |run|
  {
    if run == [] then [] else EventOf(k, run[0]) + EventsOf(After(k, run[0]), run[1..])
  }

  lemma ActIsItsParts(k: Kiosk, a: Act)
    requires ShopOk(k.shop) && ActOk(k, a)
    ensures ShopOk(After(k, a).shop)
    ensures var steps := StepOf(k, a);
            if steps == [] then After(k, a).shop == k.shop
            else |steps| == 1 && Enabled(k.shop, steps[0]) && Next(k.shop, steps[0]) == After(k, a).shop
    ensures var es := EventOf(k, a);
            if es == [] then After(k, a).store == k.store
            else |es| == 1 && Sessions.Enabled(k.store, es[0]) && Sessions.Step(k.store, es[0]) == After(k, a).store
  {
    match a
    case Settle(f, _, _, _) => StepKeepsShop(k.shop, if Pays(k, a) then CreditDone(f) else CreditFailed(f));
    case OnShop(step) => StepKeepsShop(k.shop, step);
    case OnSessions(_) =>
  }

  /** A run of vouchers and sessions together is a run of the vouchers and a run of the sessions, so what
      is proved of every run of either holds of it: the credits that the conservation law counts are
      credit steps of the sessions table. */
  lemma {:induction false} KioskRunIsBothRuns(k: Kiosk, run: seq<Act>)
    requires ShopOk(k.shop) && ActsOk(k, run)
    ensures ValidRun(k.shop, StepsOf(k, run)) && Exec(k.shop, StepsOf(k, run)) == Run(k, run).shop
    ensures Sessions.ValidRun(k.store, EventsOf(k, run))
    ensures Sessions.Exec(k.store, EventsOf(k, run)) == Run(k, run).store
    decreases |run|
  {
    if run != [] {
      hide After, StepOf, EventOf, Sessions.Step, Next, ShopOk, ActOk, Enabled, Sessions.Enabled;
      ActIsItsParts(k, run[0]);
      var next := After(k, run[0]);
      KioskRunIsBothRuns(next, run[1..]);
      Prefixed(StepOf(k, run[0]), StepsOf(next, run[1..]));
      Prefixed(EventOf(k, run[0]), EventsOf(next, run[1..]));
    }
  }

  lemma Prefixed<T>(first: seq<T>, rest: seq<T>)
    requires |first| <= 1
    ensures if first == [] then first + rest == rest else (first + rest)[0] == first[0] && (first + rest)[1..] == rest
  {
  }

  /** The minutes that the sessions were credited for a voucher. */
  function MinutesCredited(k: Kiosk, run: seq<Act>, id: nat): int
    requires ActsOk(k, run)
    decreases |run|
  {
    if run == [] then 0
    else
      (if Pays(k, run[0]) && k.shop.flights[run[0].flight].voucher == id then CreditOf(k, run[0]).p.minutes else 0)
      + MinutesCredited(After(k, run[0]), run[1..], id)
  }

  predicate Edits(a: Act, id: nat) {
    a.OnShop? && a.step.Patch? && a.step.id == id && a.step.minutes.Some?
  }

  ghost predicate WorthOf(shop: Shop, id: nat, minutes: int) {
    && (id in shop.vouchers ==> shop.vouchers[id].terms.minutes == minutes)
    && forall f <- shop.flights :: shop.flights[f].voucher == id ==> shop.flights[f].terms.minutes == minutes
  }

  lemma ActKeepsWorth(k: Kiosk, a: Act, id: nat, minutes: int)
    requires ShopOk(k.shop) && ActOk(k, a) && id < k.shop.nextId && WorthOf(k.shop, id, minutes) && !Edits(a, id)
    ensures WorthOf(After(k, a).shop, id, minutes) && id < After(k, a).shop.nextId
  {
  }

  lemma CreditsOfRun(k: Kiosk, run: seq<Act>, id: nat)
    requires ShopOk(k.shop) && ActsOk(k, run) && run != []
    requires ValidRun(k.shop, StepsOf(k, run)) && ValidRun(After(k, run[0]).shop, StepsOf(After(k, run[0]), run[1..]))
    ensures TallyOf(k.shop, StepsOf(k, run), id).credits ==
            (if StepOf(k, run[0]) == [] then 0 else CreditsOf(k.shop, StepOf(k, run[0])[0], id))
            + TallyOf(After(k, run[0]).shop, StepsOf(After(k, run[0]), run[1..]), id).credits
  {
    ActIsItsParts(k, run[0]);
    Prefixed(StepOf(k, run[0]), StepsOf(After(k, run[0]), run[1..]));
    hide After, StepOf, Next, ShopOk, ActOk, Enabled, CreditsOf, Granted, Lost;
  }

  /** As long as the administrator does not edit its minutes, a voucher's credits in the sessions table are
      its minutes, once for each credit that the conservation law counts. */
  lemma {:induction false} CreditsAreTheVouchersMinutes(k: Kiosk, run: seq<Act>, id: nat, minutes: int)
    requires ShopOk(k.shop) && ActsOk(k, run) && id < k.shop.nextId && WorthOf(k.shop, id, minutes)
    requires forall i :: 0 <= i < |run| ==> !Edits(run[i], id)
    ensures ValidRun(k.shop, StepsOf(k, run))
    ensures MinutesCredited(k, run, id) == TallyOf(k.shop, StepsOf(k, run), id).credits * minutes
    decreases |run|
  {
    KioskRunIsBothRuns(k, run);
    if run != [] {
      hide After, StepOf, Next, ShopOk, ActOk, Enabled, CreditsOf, WorthOf, Pays, CreditOf, TallyOf, Edits;
      var next := After(k, run[0]);
      ActIsItsParts(k, run[0]);
      ActKeepsWorth(k, run[0], id, minutes);
      CreditsAreTheVouchersMinutes(next, run[1..], id, minutes);
      CreditsOfRun(k, run, id);
      FirstCredit(k, run[0], id, minutes);
      OneCreditMore(TallyOf(next.shop, StepsOf(next, run[1..]), id).credits, minutes);
    }
  }

  lemma OneCreditMore(n: int, minutes: int)
    ensures (1 + n) * minutes == minutes + n * minutes && (0 + n) * minutes == n * minutes
  {
  }

  lemma FirstCredit(k: Kiosk, a: Act, id: nat, minutes: int)
    requires ShopOk(k.shop) && ActOk(k, a) && WorthOf(k.shop, id, minutes)
    ensures var paid := Pays(k, a) && k.shop.flights[a.flight].voucher == id;
            && (paid ==> CreditOf(k, a).p.minutes == minutes)
            && (StepOf(k, a) != [] ==> CreditsOf(k.shop, StepOf(k, a)[0], id) == if paid then 1 else 0)
            && (StepOf(k, a) == [] ==> !paid)
  {
  }

  // ---------- the statements as they run ----------

  datatype RedeemReply =
    | TooManyAttempts
    | BadCode
    | Forbidden
    | NotFound
    | GivenBack(id: nat)
    | Redeemed(id: nat, session: nat)

  const CODE_LENGTH: nat := 6
  const FAIL_LIMIT: nat := 10
  const FAIL_WINDOW: int := 300 * TICK

  /** The failed attempts of one address since the start of its window. */
  datatype Failures = Failures(count: nat, since: int)

  predicate Throttled(f: Option<Failures>, now: int) {
    f.Some? && now - f.value.since <= FAIL_WINDOW && f.value.count > FAIL_LIMIT
  }

  function OneMoreFailure(f: Option<Failures>, now: int): Failures {
    if f.None? || now - f.value.since > FAIL_WINDOW then Failures(1, now) else f.value.(count := f.value.count + 1)
  }

  function FailuresAfter(f: Option<Failures>, times: seq<int>): Option<Failures>
    decreases |times|
  {
    if times == [] then f
    else FailuresAfter(if Throttled(f, times[0]) then f else Some(OneMoreFailure(f, times[0])), times[1..])
  }

  /** The first failure opens a window of five minutes, in which the address gets eleven attempts in all:
      after n failing attempts inside it, the address is throttled if and only if n is at least eleven. */
  lemma {:induction false} ElevenAttemptsPerWindow(f: Failures, times: seq<int>, now: int)
    requires f.since <= now <= f.since + FAIL_WINDOW && f.count <= FAIL_LIMIT + 1
    requires forall i :: 0 <= i < |times| ==> times[i] <= f.since + FAIL_WINDOW
    ensures Throttled(FailuresAfter(Some(f), times), now) <==> f.count + |times| > FAIL_LIMIT
    decreases |times|
  {
    if times != [] {
      var g := if Throttled(Some(f), times[0]) then f else OneMoreFailure(Some(f), times[0]);
      ElevenAttemptsPerWindow(g, times[1..], now);
    }
  }

  /** The status change that a PATCH with an acceptable status asks for. */
  function NewStatusOf(status: Option<string>): Option<NewStatus> {
    if status.None? then None else Some(if status.value == "unused" then Reissue else Disable)
  }

  /** What a credited voucher gives: its minutes and not a peso, to the session found or to a fresh one of the
      caller, which then has the pause rules of the voucher. */
  lemma VoucherCreditLaw(
    s: Sessions.Store, caller: Sessions.Purchase, terms: Terms, banned: bool, target: Sessions.Target)
    requires var p := VoucherPurchase(caller, terms);
             Sessions.TargetOk(s, p, target) && Sessions.CreditCommits(s, p, banned, target)
    ensures var t := Sessions.Credited(s, VoucherPurchase(caller, terms), banned, target);
            var id := if target.Insert? then s.nextId else target.id;
            && id in t.rows && t.rows - {id} == s.rows - {id}
            && var q := t.rows[id];
               && q.status == Sessions.Active && q.ip == caller.ip
               && if target.Prolong? then
                    && q.total == s.rows[id].total + 60 * terms.minutes && q.coins == s.rows[id].coins
                    && q.pausable == s.rows[id].pausable && q.hours == s.rows[id].hours
                  else
                    && q.total == 60 * terms.minutes && q.coins == 0 && q.mac == caller.mac
                    && q.pausable == terms.pausable && q.hours == terms.hours
  {
    SessionLaws.CreditLaw(s, VoucherPurchase(caller, terms), banned, target);
    var t := Sessions.Credited(s, VoucherPurchase(caller, terms), banned, target);
    var id := if target.Insert? then s.nextId else target.id;
    assert forall x :: x in (t.rows - {id}).Keys <==> x in (s.rows - {id}).Keys;
  }

  /** The unique index on the code column. */
  ghost predicate UniqueCodes(vouchers: map<nat, Voucher>) {
    forall a <- vouchers, b <- vouchers :: a != b ==> vouchers[a].code != vouchers[b].code
  }

  lemma SameCodesStayUnique(before: map<nat, Voucher>, after: map<nat, Voucher>)
    requires UniqueCodes(before) && after.Keys <= before.Keys
    requires forall id <- after :: after[id].code == before[id].code
    ensures UniqueCodes(after)
  {
  }

  class VoucherHandler {
    var vouchers: map<nat, Voucher>
    var nextId: nat
    var failures: map<string, Failures>
    ghost var flights: map<nat, Flight>
    ghost var nextFlight: nat

    ghost function State(): Shop
      reads this
    {
      Shop(vouchers, nextId, flights, nextFlight)
    }

    ghost predicate Valid()
      reads this
    {
      ShopOk(State()) && UniqueCodes(vouchers)
    }

    constructor ()
      ensures State() == EMPTY && failures == map[] && Valid()
    {
      vouchers, nextId, failures, flights, nextFlight := map[], 1, map[], map[], 0;
    }

    /** The failures counted against an address. */
    function FailuresOf(ip: string): Option<Failures>
      reads this
    {
      if ip in failures then Some(failures[ip]) else None
    }

    /** Counts a failed attempt; tells whether the address is now throttled. */
    method RedeemFailAdd(ip: string, now: int) returns (over: bool)
      modifies this`failures
      ensures failures == old(failures)[ip := OneMoreFailure(old(FailuresOf(ip)), now)]
      ensures failures[ip] ==
              if ip !in old(failures) || now - old(failures)[ip].since > 300 * TICK then Failures(1, now)
              else Failures(old(failures)[ip].count + 1, old(failures)[ip].since)
      ensures over <==> failures[ip].count > 10
    {
      var e := if ip in failures then failures[ip] else Failures(0, now - FAIL_WINDOW - 1);
      if now - e.since > FAIL_WINDOW {
        e := Failures(0, now);
      }
      e := e.(count := e.count + 1);
      failures := failures[ip := e];
      over := e.count > FAIL_LIMIT;
    }

    /** The atomic claim: only one caller can flip a voucher from unused to used. It returns the voucher's
        terms at this moment. */
    method ClaimCode(code: string, mac: string) returns (hit: Option<(nat, Terms)>)
      requires Valid()
      modifies this`vouchers, this`flights, this`nextFlight
      ensures Valid()
      ensures hit.Some? <==> exists id <- old(vouchers) :: old(vouchers)[id].code == code && Claimable(old(State()), id)
      ensures hit.Some? ==>
                && Claimable(old(State()), hit.value.0) && old(vouchers)[hit.value.0].code == code
                && hit.value.1 == old(vouchers)[hit.value.0].terms
                && State() == Next(old(State()), Claim(hit.value.0, mac))
                && vouchers == old(vouchers)[hit.value.0 :=
                     old(vouchers)[hit.value.0].(status := Used, redeemedBy := Some(mac))]
      ensures hit.None? ==> State() == old(State())
    {
      if id :| id in vouchers && vouchers[id].code == code && vouchers[id].status.Unused? {
        var v := vouchers[id];
        ghost var before := vouchers;
        vouchers := vouchers[id := v.(status := Used, redeemedBy := Some(mac))];
        flights := flights[nextFlight := Flight(id, v.terms, false)];
        nextFlight := nextFlight + 1;
        SameCodesStayUnique(before, vouchers);
        return Some((id, v.terms));
      }
      return None;
    }

    /** Settles a redemption in flight, whatever has happened to its voucher since the claim: credit the
        caller with the terms of the claim, then bind the voucher or roll it back. */
    method SettleClaim(id: nat, terms: Terms, ghost f: nat, sessions: SessionHandler, caller: Sessions.Purchase,
                       lateBan: bool)
      returns (session: Option<nat>, target: Sessions.Target)
      requires Valid() && f in flights && flights[f] == Flight(id, terms, false)
      modifies this`vouchers, this`flights, sessions
      ensures Valid()
      ensures var p := VoucherPurchase(caller, terms);
              && Sessions.TargetOk(old(sessions.State()), p, target)
              && sessions.State() == Sessions.Credited(old(sessions.State()), p, lateBan, target)
              && (session.Some? <==> Sessions.CreditCommits(old(sessions.State()), p, lateBan, target))
      ensures session.Some? ==>
                && session.value == (if target.Insert? then old(sessions.nextId) else target.id)
                && session.value in sessions.rows && sessions.rows[session.value].status == Sessions.Active
                && sessions.rows[session.value].ip == caller.ip
                && vouchers ==
                   (if id !in old(vouchers) then old(vouchers)
                    else
                      old(vouchers)[id := old(vouchers)[id].(session := session,
                                                             token := sessions.rows[session.value].token)])
                && var settled := Next(old(State()), CreditDone(f));
                   State() == Next(settled, Bind(id, session.value, sessions.rows[session.value].token))
      ensures session.None? ==>
                && sessions.State() == old(sessions.State())
                && vouchers ==
                   (if id in old(vouchers) && old(vouchers)[id].status == Used
                    then old(vouchers)[id := old(vouchers)[id].(status := Unused, redeemedBy := None)]
                    else old(vouchers))
                && State() == Next(Next(old(State()), CreditFailed(f)), Rollback(f))
    {
      assert terms.minutes > 0;
      hide Sessions.Credited, Sessions.CreditCommits, Sessions.TargetOk, ShopOk, UniqueCodes;
      var credit;
      credit, target := sessions.CreditSession(VoucherPurchase(caller, terms), lateBan);
      if credit.Done? {
        VoucherCreditLaw(old(sessions.State()), caller, terms, lateBan, target);
        BindClaim(id, f, credit.id, sessions.rows[credit.id].token);
        session := Some(credit.id);
      } else {
        RollBackClaim(id, f);
        session := None;
      }
    }

    /** The voucher is bound to the session, unless it is gone. */
    method BindClaim(id: nat, ghost f: nat, session: nat, token: string)
      requires Valid() && Enabled(State(), CreditDone(f))
      modifies this`vouchers, this`flights
      ensures Valid() && State() == Next(Next(old(State()), CreditDone(f)), Bind(id, session, token))
    {
      ghost var before, settled := vouchers, Next(State(), CreditDone(f));
      StepKeepsShop(State(), CreditDone(f));
      StepKeepsShop(settled, Bind(id, session, token));
      hide ShopOk, UniqueCodes;
      flights := flights - {f};
      if id in vouchers {
        vouchers := vouchers[id := vouchers[id].(session := Some(session), token := token)];
      }
      SameCodesStayUnique(before, vouchers);
    }

    /** The voucher goes back on sale, unless it is no longer used. */
    method RollBackClaim(id: nat, ghost f: nat)
      requires Valid() && Enabled(State(), CreditFailed(f)) && flights[f].voucher == id
      modifies this`vouchers, this`flights
      ensures Valid() && State() == Next(Next(old(State()), CreditFailed(f)), Rollback(f))
    {
      ghost var before, failed := vouchers, Next(State(), CreditFailed(f));
      StepKeepsShop(State(), CreditFailed(f));
      StepKeepsShop(failed, Rollback(f));
      hide ShopOk, UniqueCodes;
      assert failed.flights - {f} == flights - {f};
      flights := flights - {f};
      if id in vouchers && vouchers[id].status.Used? {
        vouchers := vouchers[id := vouchers[id].(status := Unused, redeemedBy := None)];
      }
      SameCodesStayUnique(before, vouchers);
    }

    /** What RedeemVoucher does once it is let in, with no other request in between. A failed credit leaves
        both the sessions and the voucher's standing as they were; a successful one is the very step a
        coin payment of the voucher's minutes takes, and binds the voucher to that session and its token. */
    method ClaimAndSettle(sessions: SessionHandler, code: string, caller: Sessions.Purchase, lateBan: bool)
      returns (reply: RedeemReply, target: Sessions.Target)
      requires Valid()
      modifies this`vouchers, this`flights, this`nextFlight, sessions
      ensures Valid() && flights == old(flights)
      ensures reply.NotFound? || reply.GivenBack? || reply.Redeemed?
      ensures reply.NotFound? <==>
              forall id <- old(vouchers) :: old(vouchers)[id].code == code ==> !old(vouchers)[id].status.Unused?
      ensures reply.NotFound? ==> vouchers == old(vouchers) && sessions.State() == old(sessions.State())
      ensures !reply.NotFound? ==>
                && Claimable(old(State()), reply.id) && old(vouchers)[reply.id].code == code
                && var v := old(vouchers)[reply.id]; var p := VoucherPurchase(caller, v.terms);
                   && Sessions.TargetOk(old(sessions.State()), p, target)
                   && sessions.State() == Sessions.Credited(old(sessions.State()), p, lateBan, target)
                   && (reply.Redeemed? <==> Sessions.CreditCommits(old(sessions.State()), p, lateBan, target))
                   && (reply.GivenBack? ==> sessions.State() == old(sessions.State()))
                   && (reply.Redeemed? ==>
                         && reply.session == (if target.Insert? then old(sessions.nextId) else target.id)
                         && reply.session in sessions.rows && sessions.rows[reply.session].status == Sessions.Active
                         && sessions.rows[reply.session].ip == caller.ip)
                   && vouchers == old(vouchers)[reply.id :=
                        if reply.Redeemed?
                        then v.(status := Used, redeemedBy := Some(caller.mac), session := Some(reply.session),
                                token := sessions.rows[reply.session].token)
                        else v.(redeemedBy := None)]
    {
      hide Sessions.Credited, Sessions.CreditCommits, Sessions.TargetOk, UniqueCodes, ShopOk;
      target := Sessions.Insert;
      ghost var f := nextFlight;
      assert f !in flights by {
        NextFlightIsNew(State());
      }
      var hit := ClaimCode(code, caller.mac);
      if hit.None? {
        return NotFound, target;
      }
      var id, terms := hit.value.0, hit.value.1;
      var session;
      session, target := SettleClaim(id, terms, f, sessions, caller, lateBan);
      assert flights == old(flights);
      reply := if session.Some? then Redeemed(id, session.value) else GivenBack(id);
    }

    /** RedeemVoucher from the throttle to the credited session; `banned` is the check at the door and
        `lateBan` the one inside the credit transaction. Codes that are malformed or not found count
        against the caller's address, which a success clears. */
    method RedeemVoucher(sessions: SessionHandler, code: string, caller: Sessions.Purchase, banned: bool, lateBan: bool)
      returns (reply: RedeemReply, target: Sessions.Target)
      requires Valid()
      modifies this, sessions
      ensures Valid() && nextId == old(nextId) && flights == old(flights)
      ensures reply.TooManyAttempts? <==>
              && caller.ip in old(failures) && old(failures)[caller.ip].count > 10
              && old(sessions.now) - old(failures)[caller.ip].since <= 300 * TICK
      ensures !reply.TooManyAttempts? ==> (reply.BadCode? <==> |code| != 6)
      ensures !reply.TooManyAttempts? && !reply.BadCode? ==> (reply.Forbidden? <==> caller.mac != "" && banned)
      ensures !reply.TooManyAttempts? && !reply.BadCode? && !reply.Forbidden? ==>
                (reply.NotFound? <==>
                   forall id <- old(vouchers) :: old(vouchers)[id].code == code ==> !old(vouchers)[id].status.Unused?)
      ensures failures ==
              if reply.BadCode? || reply.NotFound?
              then old(failures)[caller.ip := OneMoreFailure(old(FailuresOf(caller.ip)), old(sessions.now))]
              else if reply.Redeemed? then old(failures) - {caller.ip} else old(failures)
      ensures !reply.Redeemed? ==> sessions.State() == old(sessions.State())
      ensures !reply.GivenBack? && !reply.Redeemed? ==> vouchers == old(vouchers)
      ensures reply.GivenBack? || reply.Redeemed? ==>
                && Claimable(old(State()), reply.id) && old(vouchers)[reply.id].code == code
                && var v := old(vouchers)[reply.id]; var p := VoucherPurchase(caller, v.terms);
                   && Sessions.TargetOk(old(sessions.State()), p, target)
                   && sessions.State() == Sessions.Credited(old(sessions.State()), p, lateBan, target)
                   && (reply.Redeemed? <==> Sessions.CreditCommits(old(sessions.State()), p, lateBan, target))
                   && (reply.Redeemed? ==>
                         && reply.session == (if target.Insert? then old(sessions.nextId) else target.id)
                         && reply.session in sessions.rows && sessions.rows[reply.session].status == Sessions.Active
                         && sessions.rows[reply.session].ip == caller.ip)
                   && vouchers == old(vouchers)[reply.id :=
                        if reply.Redeemed?
                        then v.(status := Used, redeemedBy := Some(caller.mac), session := Some(reply.session),
                                token := sessions.rows[reply.session].token)
                        else v.(redeemedBy := None)]
    {
      hide Sessions.Credited, Sessions.CreditCommits, Sessions.TargetOk, UniqueCodes, ShopOk;
      target := Sessions.Insert;
      var now := sessions.now;
      if caller.ip in failures && now - failures[caller.ip].since <= FAIL_WINDOW
         && failures[caller.ip].count > FAIL_LIMIT {
        return TooManyAttempts, target;
      }
      if |code| != CODE_LENGTH {
        var over := RedeemFailAdd(caller.ip, now);
        return BadCode, target;
      }
      if caller.mac != "" && banned {
        return Forbidden, target;
      }
      reply, target := ClaimAndSettle(sessions, code, caller, lateBan);
      if reply.NotFound? {
        var over := RedeemFailAdd(caller.ip, now);
      } else if reply.Redeemed? {
        failures := failures - {caller.ip};
      }
    }

    /** The administrator's PATCH. Plan, price and notes, of which a redemption makes nothing, are checked as
        the code checks them but not stored. */
    method Update(
      id: nat, minutes: Option<int>, status: Option<string>, plan: Option<string>, price: Option<real>,
      notes: Option<string>)
      returns (ok: bool)
      requires Valid()
      modifies this`vouchers
      ensures Valid()
      ensures ok <==>
              && (minutes.Some? ==> 0 < minutes.value <= MAX_MINUTES)
              && (status.Some? ==> status.value == "unused" || status.value == "disabled")
              && (plan.Some? ==> plan.value == "time" || plan.value == "monthly")
              && (price.Some? ==> 0.0 <= price.value <= 1000000.0)
              && (minutes.Some? || status.Some? || plan.Some? || price.Some? || notes.Some?)
              && id in old(vouchers)
      ensures ok ==> State() == Next(old(State()), Patch(id, minutes, NewStatusOf(status)))
      ensures ok ==>
                && vouchers == old(vouchers)[id := vouchers[id]]
                && var v, w := old(vouchers)[id], vouchers[id];
                   && w.code == v.code
                   && w.terms == (if minutes.Some? then v.terms.(minutes := minutes.value) else v.terms)
                   && (status == Some("unused") ==>
                         w.status == Unused && w.redeemedBy == None && w.session == None && w.token == "")
                   && (status == Some("disabled") ==> w == v.(status := Disabled, terms := w.terms))
                   && (status == None ==> w == v.(terms := w.terms))
      ensures !ok ==> State() == old(State())
    {
      if minutes.Some? && (minutes.value <= 0 || minutes.value > MAX_MINUTES) {
        return false;
      }
      if status.Some? && status.value != "unused" && status.value != "disabled" {
        return false;
      }
      if plan.Some? && plan.value != "time" && plan.value != "monthly" {
        return false;
      }
      if price.Some? && (price.value < 0.0 || price.value > 1000000.0) {
        return false;
      }
      if minutes.None? && status.None? && plan.None? && price.None? && notes.None? {
        return false;
      }
      if id !in vouchers {
        return false;
      }
      ghost var before := vouchers;
      StepKeepsShop(State(), Patch(id, minutes, NewStatusOf(status)));
      var v := vouchers[id];
      if minutes.Some? {
        v := v.(terms := v.terms.(minutes := minutes.value));
      }
      if status.Some? {
        v := v.(status := if status.value == "unused" then Unused else Disabled);
        if status.value == "unused" {
          v := v.(redeemedBy := None, session := None, token := "");
        }
      }
      hide ShopOk, UniqueCodes;
      vouchers := vouchers[id := v];
      SameCodesStayUnique(before, vouchers);
      ok := true;
    }

    method Delete(id: nat) returns (ok: bool)
      requires Valid()
      modifies this`vouchers
      ensures Valid()
      ensures State() == Next(old(State()), Step.Delete(id)) && (ok <==> id in old(vouchers))
      ensures vouchers == old(vouchers) - {id}
    {
      ok := id in vouchers;
      vouchers := vouchers - {id};
    }
  }

  lemma NextFlightIsNew(shop: Shop)
    requires ShopOk(shop)
    ensures shop.nextFlight !in shop.flights
  {
  }
}
