/** The anti-abuse limiter on arming the coin slot: a fixed-window tap counter and a ban per device. */
module TapLimiter {
  import opened Options
  import opened Clock

  /** loadTapRules never returns a rule that is not positive. */
  datatype Rules = Rules(maxTaps: int, windowSeconds: int, banSeconds: int)

  predicate Positive(r: Rules) {
    r.maxTaps > 0 && r.windowSeconds > 0 && r.banSeconds > 0
  }

  datatype Window = Window(counter: int, startedAt: int)
  datatype Ban = Ban(until: int, attempts: int)

  /** What the two tables hold about one device. */
  datatype Device = Device(taps: Option<Window>, ban: Option<Ban>)

  const UNKNOWN := Device(None, None)

  predicate IsBanned(d: Device, now: int) {
    d.ban.Some? && d.ban.value.until > now
  }

  function Recorded(taps: Option<Window>, now: int, windowSeconds: int): Window {
    if taps.None? || now - taps.value.startedAt > windowSeconds * TICK then Window(1, now)
    else Window(taps.value.counter + 1, taps.value.startedAt)
  }

  function Passes(d: Device, now: int, r: Rules): bool {
    !IsBanned(d, now) && Recorded(d.taps, now, r.windowSeconds).counter <= r.maxTaps
  }

  /** One call of Arm, up to the decision whether it gets past the tap check. */
  function Armed(d: Device, now: int, r: Rules): Device {
    if IsBanned(d, now) then d
    else
      var w := Recorded(d.taps, now, r.windowSeconds);
      Device(Some(w), if w.counter > r.maxTaps then Some(Ban(now + r.banSeconds * TICK, w.counter)) else None)
  }

  // ---------- runs of one device ----------

  datatype Event = Arm(at: int) | Clean(at: int) | Unban(at: int)

  function Next(d: Device, e: Event, r: Rules): Device {
    match e
    case Arm(at) => Armed(d, at, r)
    case Clean(at) => if d.ban.Some? && d.ban.value.until <= at then d.(ban := None) else d
    case Unban(_) => d.(ban := None)
  }

  predicate Ordered(run: seq<Event>) {
    forall i, j :: 0 <= i < j < |run| ==> run[i].at <= run[j].at
  }

  /** How many calls of Arm in the closed interval get past the tap check. */
  function PassesWithin(d: Device, run: seq<Event>, r: Rules, lo: int, hi: int): nat
    decreases |run|
  {
    if run == [] then 0
    else
      (if run[0].Arm? && lo <= run[0].at <= hi && Passes(d, run[0].at, r) then 1 else 0)
      + PassesWithin(Next(d, run[0], r), run[1..], r, lo, hi)
  }

  function Exec(d: Device, run: seq<Event>, r: Rules): Device
    decreases |run|
  {
    if run == [] then d else Exec(Next(d, run[0], r), run[1..], r)
  }

  /** A stored window has counted at least one tap. */
  predicate Sound(d: Device) {
    d.taps.Some? ==> d.taps.value.counter >= 1
  }

  function Slack(max: int, counter: int): nat {
    if counter < max then max - counter else 0
  }

  /** The passes still possible in an interval that starts at lo and is as long as the window: what is
      left of the open window and, when it opened before lo, one more window. */
  function Potential(d: Device, r: Rules, lo: int): nat
    requires Positive(r)
  {
    if d.taps.None? then r.maxTaps
    else Slack(r.maxTaps, d.taps.value.counter) + if d.taps.value.startedAt < lo then r.maxTaps else 0
  }

  lemma StepSpendsPotential(d: Device, e: Event, r: Rules, lo: int)
    requires Positive(r) && Sound(d) && lo <= e.at <= lo + r.windowSeconds * TICK
    ensures Sound(Next(d, e, r))
    ensures Potential(Next(d, e, r), r, lo) + (if e.Arm? && Passes(d, e.at, r) then 1 else 0) <= Potential(d, r, lo)
  {
  }

  lemma {:induction false} NothingAfterTheInterval(d: Device, run: seq<Event>, r: Rules, lo: int, hi: int)
    requires forall i :: 0 <= i < |run| ==> run[i].at > hi
    ensures PassesWithin(d, run, r, lo, hi) == 0
    decreases |run|
  {
    if run != [] {
      NothingAfterTheInterval(Next(d, run[0], r), run[1..], r, lo, hi);
    }
  }

  lemma {:induction false} PassesAreWithinPotential(d: Device, run: seq<Event>, r: Rules, lo: int)
    requires Positive(r) && Sound(d) && Ordered(run)
    requires forall i :: 0 <= i < |run| ==> lo <= run[i].at
    ensures PassesWithin(d, run, r, lo, lo + r.windowSeconds * TICK) <= Potential(d, r, lo)
    decreases |run|
  {
    if run != [] {
      if run[0].at > lo + r.windowSeconds * TICK {
        NothingAfterTheInterval(d, run, r, lo, lo + r.windowSeconds * TICK);
      } else {
        StepSpendsPotential(d, run[0], r, lo);
        PassesAreWithinPotential(Next(d, run[0], r), run[1..], r, lo);
      }
    }
  }

  /** With constant rules, any closed interval as long as the window contains at most 2*max_taps - 1
      calls that get past the tap check, whatever the bans and however they are lifted. */
  lemma {:induction false} FixedWindowRateBound(d: Device, run: seq<Event>, r: Rules, lo: int)
    requires Positive(r) && Sound(d) && Ordered(run)
    ensures PassesWithin(d, run, r, lo, lo + r.windowSeconds * TICK) <= 2 * r.maxTaps - 1
    decreases |run|
  {
    if run != [] && run[0].at < lo {
      FixedWindowRateBound(Next(d, run[0], r), run[1..], r, lo);
    } else {
      PassesAreWithinPotential(d, run, r, lo);
      BoundOnPotential(d, r, lo);
    }
  }

  lemma BoundOnPotential(d: Device, r: Rules, lo: int)
    requires Positive(r) && Sound(d)
    ensures Potential(d, r, lo) <= 2 * r.maxTaps - 1
  {
  }

  // ---------- the bound is reached ----------

  function Burst(n: nat, at: int): seq<Event> {
    seq(n, i => Arm(at))
  }

  lemma {:induction false} BurstInOpenWindow(d: Device, n: nat, at: int, r: Rules, lo: int, hi: int)
    requires Positive(r) && d.ban.None? && d.taps.Some? && lo <= at <= hi
    requires at - d.taps.value.startedAt <= r.windowSeconds * TICK && d.taps.value.counter + n <= r.maxTaps
    ensures PassesWithin(d, Burst(n, at), r, lo, hi) == n
    ensures Exec(d, Burst(n, at), r) == Device(Some(d.taps.value.(counter := d.taps.value.counter + n)), None)
    decreases n
  {
    if n > 0 {
      assert Burst(n, at)[1..] == Burst(n - 1, at);
      BurstInOpenWindow(Next(d, Arm(at), r), n - 1, at, r, lo, hi);
    }
  }

  lemma {:induction false} PassesOfConcatenation(d: Device, a: seq<Event>, b: seq<Event>, r: Rules, lo: int, hi: int)
    ensures PassesWithin(d, a + b, r, lo, hi) ==
            PassesWithin(d, a, r, lo, hi) + PassesWithin(Exec(d, a, r), b, r, lo, hi)
    decreases |a|
  {
    if a == [] {
      assert a + b == b;
    } else {
      assert (a + b)[1..] == a[1..] + b;
      PassesOfConcatenation(Next(d, a[0], r), a[1..], b, r, lo, hi);
    }
  }

  /** A burst at the last instant of one window and a burst right after it reach the bound, so the
      counter is a fixed window and not the sliding one its comments describe. */
  lemma RateBoundIsReached(r: Rules)
    requires Positive(r)
    ensures var w := r.windowSeconds * TICK;
            var run := [Arm(0)] + Burst(r.maxTaps - 1, w) + ([Arm(w + 1)] + Burst(r.maxTaps - 1, w + 1));
            Ordered(run) && PassesWithin(UNKNOWN, run, r, w, w + w) == 2 * r.maxTaps - 1
  {
    var w := r.windowSeconds * TICK;
    var first := [Arm(0)] + Burst(r.maxTaps - 1, w);
    var second := [Arm(w + 1)] + Burst(r.maxTaps - 1, w + 1);
    var started := Next(UNKNOWN, Arm(0), r);
    assert first[1..] == Burst(r.maxTaps - 1, w);
    BurstInOpenWindow(started, r.maxTaps - 1, w, r, w, w + w);
    var full := Exec(UNKNOWN, first, r);
    assert full == Device(Some(Window(r.maxTaps, 0)), None);
    var reopened := Next(full, Arm(w + 1), r);
    assert reopened == Device(Some(Window(1, w + 1)), None);
    assert second[1..] == Burst(r.maxTaps - 1, w + 1);
    BurstInOpenWindow(reopened, r.maxTaps - 1, w + 1, r, w, w + w);
    PassesOfConcatenation(UNKNOWN, first, second, r, w, w + w);
  }

  /** A ban holds until its end unless the operator lifts it: no call of Arm before then gets through,
      and none of them prolongs the ban. */
  lemma {:induction false} BanHolds(d: Device, run: seq<Event>, r: Rules, lo: int, hi: int)
    requires d.ban.Some?
    requires forall i :: 0 <= i < |run| ==> run[i].at < d.ban.value.until && !run[i].Unban?
    ensures PassesWithin(d, run, r, lo, hi) == 0 && Exec(d, run, r) == d
    decreases |run|
  {
    if run != [] {
      BanHolds(Next(d, run[0], r), run[1..], r, lo, hi);
    }
  }

  // ---------- who is refused, and for how long ----------

  /** One call of Arm: under a ban it is refused and changes nothing. Otherwise it counts in the open window,
      or opens a new one strictly after the old one's length; up to the limit it passes, and above it it is
      refused and bans the device for the length of a ban from now. */
  lemma ArmLaw(d: Device, at: int, r: Rules)
    ensures var open := d.taps.Some? && at - d.taps.value.startedAt <= r.windowSeconds * TICK;
            var count := if open then d.taps.value.counter + 1 else 1;
            var w := Window(count, if open then d.taps.value.startedAt else at);
            if d.ban.Some? && at < d.ban.value.until then !Passes(d, at, r) && Next(d, Arm(at), r) == d
            else if count <= r.maxTaps then Passes(d, at, r) && Next(d, Arm(at), r) == Device(Some(w), None)
            else
              && !Passes(d, at, r)
              && Next(d, Arm(at), r) == Device(Some(w), Some(Ban(at + r.banSeconds * TICK, count)))
  {
  }

  predicate ArmsBefore(run: seq<Event>, end: int) {
    forall i :: 0 <= i < |run| ==> run[i].Arm? && run[i].at < end
  }

  /** The tap after the last one that passes in an open window is refused, and so is every other one until
      the length of a ban has gone by from it. The first one then, when a new window opens, passes; while
      the old window is still open it is refused and bans anew. */
  lemma AbuseIsBannedFor(d: Device, at: int, run: seq<Event>, next: int, r: Rules, lo: int, hi: int)
    requires Positive(r) && d.ban.None? && d.taps.Some? && d.taps.value.counter == r.maxTaps
    requires d.taps.value.startedAt <= at <= d.taps.value.startedAt + r.windowSeconds * TICK
    requires ArmsBefore(run, at + r.banSeconds * TICK) && at + r.banSeconds * TICK <= next
    ensures PassesWithin(d, [Arm(at)] + run, r, lo, hi) == 0
    ensures var banned := Exec(d, [Arm(at)] + run, r);
            Passes(banned, next, r) <==> next > d.taps.value.startedAt + r.windowSeconds * TICK
  {
    var refused := Next(d, Arm(at), r);
    assert ([Arm(at)] + run)[1..] == run;
    BanHolds(refused, run, r, lo, hi);
  }

  function Arms(times: seq<int>): seq<Event> {
    seq(|times|, i requires 0 <= i < |times| => Arm(times[i]))
  }

  /** The window that is open after the calls, of which the first is number `first`. */
  predicate OpenWindow(d: Device, times: seq<int>, first: nat, r: Rules) {
    && first < |times|
    && d == Device(Some(Window(|times| - first, times[first])), None)
    && times[|times| - 1] - times[first] <= r.windowSeconds * TICK
  }

  lemma {:induction false} ExecLast(d: Device, run: seq<Event>, e: Event, r: Rules)
    ensures Exec(d, run + [e], r) == Next(Exec(d, run, r), e, r)
    decreases |run|
  {
    if run == [] {
      assert run + [e] == [e] && [e][1..] == [];
    } else {
      assert (run + [e])[1..] == run[1..] + [e];
      ExecLast(Next(d, run[0], r), run[1..], e, r);
    }
  }

  predicate Modest(times: seq<int>, r: Rules) {
    && (forall i, j :: 0 <= i < j < |times| ==> times[i] <= times[j])
    && forall i, j :: 0 <= i < j < |times| && i + r.maxTaps <= j ==> times[j] - times[i] > r.windowSeconds * TICK
  }

  /** The next call of a device that keeps to the limit passes, in the open window or a new one. */
  lemma NextOfModestPasses(d: Device, times: seq<int>, at: int, first: nat, r: Rules) returns (first': nat)
    requires Positive(r) && OpenWindow(d, times, first, r) && Modest(times + [at], r)
    ensures Passes(d, at, r) && OpenWindow(Next(d, Arm(at), r), times + [at], first', r)
  {
    var all := times + [at];
    assert all[first] == times[first] && all[|times|] == at;
    first' := if at - times[first] <= r.windowSeconds * TICK then first else |times|;
  }

  lemma OneCall(d: Device, at: int, r: Rules, lo: int, hi: int)
    requires lo <= at <= hi
    ensures PassesWithin(d, [Arm(at)], r, lo, hi) == if Passes(d, at, r) then 1 else 0
  {
    assert [Arm(at)][1..] == [];
    assert PassesWithin(Next(d, Arm(at), r), [], r, lo, hi) == 0;
  }

  lemma FirstCallPasses(at: int, r: Rules)
    requires Positive(r)
    ensures Passes(UNKNOWN, at, r) && OpenWindow(Next(UNKNOWN, Arm(at), r), [at], 0, r)
  {
  }

  lemma ModestBefore(times: seq<int>, r: Rules)
    requires times != [] && Modest(times, r)
    ensures Modest(times[..|times| - 1], r)
  {
  }

  lemma LastCall(times: seq<int>, r: Rules, lo: int, hi: int)
    requires times != [] && lo <= times[|times| - 1] <= hi
    ensures var init, at := times[..|times| - 1], times[|times| - 1]; var before := Exec(UNKNOWN, Arms(init), r);
            && Exec(UNKNOWN, Arms(times), r) == Next(before, Arm(at), r)
            && PassesWithin(UNKNOWN, Arms(times), r, lo, hi)
               == PassesWithin(UNKNOWN, Arms(init), r, lo, hi) + if Passes(before, at, r) then 1 else 0
  {
    var init, at := times[..|times| - 1], times[|times| - 1];
    assert Arms(times) == Arms(init) + [Arm(at)];
    ExecLast(UNKNOWN, Arms(init), Arm(at), r);
    PassesOfConcatenation(UNKNOWN, Arms(init), [Arm(at)], r, lo, hi);
    OneCall(Exec(UNKNOWN, Arms(init), r), at, r, lo, hi);
  }

  /** A device that never calls more often than the limit within the length of a window is never refused. */
  lemma {:induction false} ModestIsNeverRefused(times: seq<int>, r: Rules, lo: int, hi: int) returns (first: nat)
    requires Positive(r) && Modest(times, r) && forall i :: 0 <= i < |times| ==> lo <= times[i] <= hi
    ensures PassesWithin(UNKNOWN, Arms(times), r, lo, hi) == |times|
    ensures times != [] ==> OpenWindow(Exec(UNKNOWN, Arms(times), r), times, first, r)
    decreases |times|
  {
    first := 0;
    if times == [] {
      assert Arms(times) == [];
    } else {
      var init, at := times[..|times| - 1], times[|times| - 1];
      assert init + [at] == times;
      ModestBefore(times, r);
      LastCall(times, r, lo, hi);
      first := ModestIsNeverRefused(init, r, lo, hi);
      if init == [] {
        assert times == [at] && Arms(init) == [];
        FirstCallPasses(at, r);
        first := 0;
      } else {
        hide PassesWithin, Exec, Arms, Modest, Passes, OpenWindow, Next;
        first := NextOfModestPasses(Exec(UNKNOWN, Arms(init), r), init, at, first, r);
      }
    }
  }

  // ---------- the two tables ----------

  class TapTables {
    var tapActivity: map<string, Window>
    var clientBans: map<string, Ban>

    constructor ()
      ensures tapActivity == map[] && clientBans == map[]
    {
      tapActivity, clientBans := map[], map[];
    }

    function Of(mac: string): Device
      reads this
    {
      Device(if mac in tapActivity then Some(tapActivity[mac]) else None,
             if mac in clientBans then Some(clientBans[mac]) else None)
    }

    /** Clears a stale ban on sight. */
    method ActiveBan(mac: string, now: int) returns (ban: Option<Ban>)
      modifies this`clientBans
      ensures ban.Some? <==> mac in old(clientBans) && now < old(clientBans)[mac].until
      ensures ban.Some? ==> ban == old(Of(mac)).ban && clientBans == old(clientBans)
      ensures ban.None? ==> clientBans == old(clientBans) - {mac}
    {
      if mac in clientBans && clientBans[mac].until > now {
        return Some(clientBans[mac]);
      }
      clientBans := clientBans - {mac};
      return None;
    }

    method RecordTap(mac: string, now: int, windowSeconds: int) returns (counter: int)
      modifies this`tapActivity
      ensures tapActivity == old(tapActivity)[mac := Recorded(old(Of(mac)).taps, now, windowSeconds)]
      ensures counter == tapActivity[mac].counter
      ensures tapActivity[mac] ==
              if mac in old(tapActivity) && now - old(tapActivity)[mac].startedAt <= windowSeconds * TICK
              then Window(old(tapActivity)[mac].counter + 1, old(tapActivity)[mac].startedAt) else Window(1, now)
    {
      var w := Window(1, now);
      if mac in tapActivity && now - tapActivity[mac].startedAt <= windowSeconds * TICK {
        w := Window(tapActivity[mac].counter + 1, tapActivity[mac].startedAt);
      }
      tapActivity := tapActivity[mac := w];
      counter := w.counter;
    }

    /** The tap check of Arm; a caller whose MAC is unknown is not counted. */
    method TapCheck(mac: string, now: int, rules: Rules) returns (ok: bool)
      modifies this
      ensures mac == "" ==> ok && tapActivity == old(tapActivity) && clientBans == old(clientBans)
      ensures mac != "" ==> (ok <==> Passes(old(Of(mac)), now, rules)) && Of(mac) == Armed(old(Of(mac)), now, rules)
      ensures forall other :: other != mac ==> Of(other) == old(Of(other))
    {
      if mac == "" {
        return true;
      }
      var ban := ActiveBan(mac, now);
      if ban.Some? {
        return false;
      }
      var count := RecordTap(mac, now, rules.windowSeconds);
      if count > rules.maxTaps {
        clientBans := clientBans[mac := Ban(now + rules.banSeconds * TICK, count)];
        return false;
      }
      ok := true;
    }

    /** The administrator lifts a ban: the device may tap again at once, with its counter as it was. */
    method ClearBan(mac: string, now: int)
      modifies this`clientBans
      ensures Of(mac) == Next(old(Of(mac)), Unban(now), Rules(1, 1, 1))
      ensures forall other :: other != mac ==> Of(other) == old(Of(other))
    {
      clientBans := clientBans - {mac};
    }

    method CleanExpiredBans(now: int) returns (removed: nat)
      modifies this`clientBans
      ensures forall mac :: Of(mac) == Next(old(Of(mac)), Clean(now), Rules(1, 1, 1))
      ensures forall mac :: mac in clientBans <==> mac in old(clientBans) && now < old(clientBans)[mac].until
      ensures forall mac <- clientBans :: clientBans[mac] == old(clientBans)[mac]
      ensures removed == |old(clientBans)| - |clientBans|
    {
      var kept := map mac | mac in clientBans && clientBans[mac].until > now :: clientBans[mac];
      assert |kept.Keys| <= |clientBans.Keys| by {
        SubsetIsNoLarger(kept.Keys, clientBans.Keys);
      }
      removed := |clientBans| - |kept|;
      clientBans := kept;
    }
  }

  lemma SubsetIsNoLarger(a: set<string>, b: set<string>)
    requires a <= b
    ensures |a| <= |b|
  {
    assert b == a + (b - a);
  }
}
