/** The DNS watcher: a new upstream server is acted on only after two equal readings in a row. */
module DnsWatch {

  /** dnsWatchStableNeed. */
  const STABLE_NEED: nat := 2

  /** The state file, the two variables the loop passes by pointer, and how often the rules were refreshed. */
  datatype Watch = Watch(stored: string, streak: nat, pending: string, refreshes: nat)

  /** The stored value after a history of readings, the oldest first: the latest reading that equalled
      the one before it and was not empty, else the initial value. */
  function LatestPair(initial: string, readings: seq<string>): string {
    var n := |readings|;
    if n < 2 then initial
    else if readings[n - 1] != "" && readings[n - 2] == readings[n - 1] then readings[n - 1]
    else LatestPair(initial, readings[..n - 1])
  }

  /** How often that value changed. */
  function Changes(initial: string, readings: seq<string>): nat {
    if readings == [] then 0
    else
      var before := readings[..|readings| - 1];
      Changes(initial, before) + if LatestPair(initial, readings) != LatestPair(initial, before) then 1 else 0
  }

  /** What the loop variables mean: a pending value is the last reading, seen once, and differs from
      the stored one; an unconfirmed new reading is always pending. */
  predicate Tracks(w: Watch, initial: string, readings: seq<string>) {
    && w.stored == LatestPair(initial, readings)
    && w.refreshes == Changes(initial, readings)
    && if readings == [] || readings[|readings| - 1] == "" || readings[|readings| - 1] == w.stored
       then w.streak == 0 && w.pending == ""
       else w.streak == 1 && w.pending == readings[|readings| - 1]
  }

  class Watcher {
    var last: string
    var refreshes: nat

    constructor (stored: string)
      ensures last == stored && refreshes == 0
    {
      last, refreshes := stored, 0;
    }

    function View(streak: nat, pending: string): Watch
      reads this
    {
      Watch(last, streak, pending, refreshes)
    }

    /** One detect-compare-refresh cycle; streak and pending are returned in their new values. */
    method DnsWatchPass(
      current: string, streak: nat, pending: string, ghost initial: string, ghost readings: seq<string>)
      returns (streak': nat, pending': string)
      requires Tracks(View(streak, pending), initial, readings)
      modifies this
      ensures Tracks(View(streak', pending'), initial, readings + [current])
    {
      assert (readings + [current])[..|readings|] == readings;
      streak', pending' := streak, pending;
      if current == "" {
        return 0, "";
      }
      if last == current {
        return 0, "";
      }
      if pending == current {
        streak' := streak + 1;
      } else {
        pending' := current;
        streak' := 1;
      }
      if streak' < STABLE_NEED {
        return;
      }
      refreshes := refreshes + 1;
      last := current;
      return 0, "";
    }

    /** The polling loop: the state file follows the history of readings, and the rules are refreshed
        exactly when its value changes. */
    method Poll(readings: seq<string>)
      requires refreshes == 0
      modifies this
      ensures last == LatestPair(old(last), readings) && refreshes == Changes(old(last), readings)
    {
      var streak: nat, pending := 0, "";
      for i := 0 to |readings|
        invariant Tracks(View(streak, pending), old(last), readings[..i])
      {
        assert readings[..i + 1] == readings[..i] + [readings[i]];
        streak, pending := DnsWatchPass(readings[i], streak, pending, old(last), readings[..i]);
      }
      assert readings[..|readings|] == readings;
    }

    /** The boot pass has a streak of its own and sees one reading, so it never acts, although its
        comment promises to align all clients when the reading differs or nothing is stored. */
    method StartDNSWatcher(boot: string, readings: seq<string>)
      requires refreshes == 0
      modifies this
      ensures last == LatestPair(old(last), readings) && refreshes == Changes(old(last), readings)
    {
      var streak, pending := DnsWatchPass(boot, 0, "", last, []);
      assert [] + [boot] == [boot];
      Poll(readings);
    }
  }

  /** The meaning of the history function: the value is a pair's, with no later pair, or the initial one
      when there is no pair at all. */
  lemma {:induction false} LatestPairIsTheLatest(initial: string, readings: seq<string>)
    ensures var v := LatestPair(initial, readings);
            (exists i :: IsPair(readings, i) && readings[i] == v && forall j :: i < j ==> !IsPair(readings, j))
            || (v == initial && forall j :: !IsPair(readings, j))
  {
    var n := |readings|;
    if n >= 2 {
      if IsPair(readings, n - 1) {
        assert forall j :: n - 1 < j ==> !IsPair(readings, j);
      } else {
        var init := readings[..n - 1];
        LatestPairIsTheLatest(initial, init);
        assert forall j :: IsPair(readings, j) <==> IsPair(init, j);
        if exists i ::
             IsPair(init, i) && init[i] == LatestPair(initial, init) && forall j :: i < j ==> !IsPair(init, j) {
          var i :| IsPair(init, i) && init[i] == LatestPair(initial, init) && forall j :: i < j ==> !IsPair(init, j);
          assert IsPair(readings, i) && readings[i] == init[i];
        }
      }
    }
  }

  /** Reading i is not empty and equals the reading before it. */
  ghost predicate IsPair(readings: seq<string>, i: int) {
    0 < i < |readings| && readings[i] != "" && readings[i - 1] == readings[i]
  }

  /** A link that flaps, never giving the same answer twice in a row, changes nothing however long it lasts. */
  lemma FlappingChangesNothing(initial: string, readings: seq<string>)
    requires forall i :: 0 < i < |readings| ==> readings[i - 1] != readings[i]
    ensures LatestPair(initial, readings) == initial
  {
    LatestPairIsTheLatest(initial, readings);
  }
}
