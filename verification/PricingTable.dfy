/** The operator's writes to the pricing table, and what every reachable table satisfies. */
module PricingTable {
  import opened Pricing

  datatype Request = Request(coin: int, minutes: int, active: bool, pausable: bool, hours: int)

  predicate Acceptable(r: Request) {
    r.coin > 0 && r.minutes > 0 && r.hours >= 0
  }

  /** INSERT ... ON CONFLICT (coin_value) DO UPDATE. The existing row keeps its id. */
  function Upsert(rows: seq<Tier>, r: Request, id: nat): seq<Tier> {
    if rows == [] then [Tier(id, r.coin, r.minutes, r.active, r.pausable, r.hours)]
    else if rows[0].coin == r.coin
    then [rows[0].(minutes := r.minutes, active := r.active, pausable := r.pausable, hours := r.hours)] + rows[1..]
    else [rows[0]] + Upsert(rows[1..], r, id)
  }

  /** A batch is applied request by request up to the first one that is refused; each statement draws
      one serial id, used or not. */
  function ApplyBatch(rows: seq<Tier>, batch: seq<Request>, nextId: nat): seq<Tier>
    decreases |batch|
  {
    if batch == [] || !Acceptable(batch[0]) then rows
    else ApplyBatch(Upsert(rows, batch[0], nextId), batch[1..], nextId + 1)
  }

  function Deactivate(rows: seq<Tier>, id: int): seq<Tier> {
    if rows == [] then []
    else [if rows[0].id == id then rows[0].(active := false) else rows[0]] + Deactivate(rows[1..], id)
  }

  /** The position of the row with that coin value, or the length when there is none. */
  function Position(rows: seq<Tier>, coin: int): (i: nat)
    ensures i <= |rows| && (i < |rows| ==> rows[i].coin == coin)
    ensures forall j :: 0 <= j < i ==> rows[j].coin != coin
  {
    if rows == [] || rows[0].coin == coin then 0 else 1 + Position(rows[1..], coin)
  }

  /** An upsert overwrites in place the row of that coin value, keeping its id, or appends a new one. */
  lemma {:induction false} UpsertShape(rows: seq<Tier>, r: Request, id: nat)
    ensures var i := Position(rows, r.coin);
            Upsert(rows, r, id) ==
            if i < |rows|
            then rows[i := Tier(rows[i].id, r.coin, r.minutes, r.active, r.pausable, r.hours)]
            else rows + [Tier(id, r.coin, r.minutes, r.active, r.pausable, r.hours)]
  {
    if rows != [] && rows[0].coin != r.coin {
      UpsertShape(rows[1..], r, id);
      assert rows == [rows[0]] + rows[1..];
    }
  }

  lemma UpsertKeepsTableValid(rows: seq<Tier>, r: Request, id: nat)
    requires ValidTable(rows) && Acceptable(r)
    ensures ValidTable(Upsert(rows, r, id))
  {
    UpsertShape(rows, r, id);
  }

  lemma {:induction false} BatchKeepsTableValid(rows: seq<Tier>, batch: seq<Request>, nextId: nat)
    requires ValidTable(rows)
    ensures ValidTable(ApplyBatch(rows, batch, nextId))
    decreases |batch|
  {
    if batch != [] && Acceptable(batch[0]) {
      UpsertKeepsTableValid(rows, batch[0], nextId);
      BatchKeepsTableValid(Upsert(rows, batch[0], nextId), batch[1..], nextId + 1);
    }
  }

  // ---------- exactly when a batch leaves the table alone ----------

  /** How many requests of a batch are applied: those before the first unacceptable one. */
  function Applied(batch: seq<Request>): (n: nat)
    ensures n <= |batch| && (n < |batch| ==> !Acceptable(batch[n]))
    ensures forall i :: 0 <= i < n ==> Acceptable(batch[i])
  {
    if batch == [] || !Acceptable(batch[0]) then 0 else 1 + Applied(batch[1..])
  }

  predicate Says(t: Tier, r: Request) {
    t.coin == r.coin && t.minutes == r.minutes && t.active == r.active && t.pausable == r.pausable && t.hours == r.hours
  }

  /** The table already holds what the request asks for. */
  predicate Stored(rows: seq<Tier>, r: Request) {
    exists t <- rows :: Says(t, r)
  }

  /** Request i is the last of the first n for its coin value. */
  predicate LastForItsCoin(batch: seq<Request>, n: nat, i: int)
    requires n <= |batch|
  {
    0 <= i < n && forall j :: i < j < n ==> batch[j].coin != batch[i].coin
  }

  lemma UpsertStores(rows: seq<Tier>, r: Request, id: nat, q: Request)
    requires ValidTable(rows)
    ensures Stored(Upsert(rows, r, id), q) <==> if q.coin == r.coin then q == r else Stored(rows, q)
  {
    UpsertShape(rows, r, id);
    var i, after := Position(rows, r.coin), Upsert(rows, r, id);
    var k := if i < |rows| then i else |rows|;
    assert forall j :: 0 <= j < |rows| && j != k ==> after[j] == rows[j];
    assert Says(after[k], r) && after[k] in after;
    if q.coin != r.coin && Stored(rows, q) {
      var j :| 0 <= j < |rows| && Says(rows[j], q);
      assert after[j] in after;
    }
    if Stored(after, q) {
      var j :| 0 <= j < |after| && Says(after[j], q);
      assert j != k ==> after[j] in rows;
    }
  }

  /** A coin value that the batch does not set is stored as before. */
  lemma {:induction false} UnsetCoinIsKept(rows: seq<Tier>, batch: seq<Request>, nextId: nat, q: Request)
    requires ValidTable(rows) && forall i :: 0 <= i < Applied(batch) ==> batch[i].coin != q.coin
    ensures Stored(ApplyBatch(rows, batch, nextId), q) <==> Stored(rows, q)
    decreases |batch|
  {
    hide Stored, ValidTable;
    if Applied(batch) > 0 {
      UpsertStores(rows, batch[0], nextId, q);
      UpsertKeepsTableValid(rows, batch[0], nextId);
      assert forall i :: 0 <= i < Applied(batch[1..]) ==> batch[1..][i] == batch[i + 1];
      UnsetCoinIsKept(Upsert(rows, batch[0], nextId), batch[1..], nextId + 1, q);
    }
  }

  /** A coin value that the batch sets is stored as its last request says. */
  lemma {:induction false} LastRequestWins(rows: seq<Tier>, batch: seq<Request>, nextId: nat, i: nat, q: Request)
    requires ValidTable(rows) && LastForItsCoin(batch, Applied(batch), i) && batch[i].coin == q.coin
    ensures Stored(ApplyBatch(rows, batch, nextId), q) <==> q == batch[i]
    decreases |batch|
  {
    hide Stored, ValidTable;
    var next, rest := Upsert(rows, batch[0], nextId), batch[1..];
    assert forall j :: 0 <= j < Applied(rest) ==> rest[j] == batch[j + 1];
    UpsertKeepsTableValid(rows, batch[0], nextId);
    if i > 0 {
      LastRequestWins(next, rest, nextId + 1, i - 1, q);
    } else {
      UpsertStores(rows, batch[0], nextId, q);
      UnsetCoinIsKept(next, rest, nextId + 1, q);
    }
  }

  /** A batch that only sets coin values the table has keeps every row's place, id and coin value, and the
      rows it does not set. */
  lemma {:induction false} BatchKeepsShape(rows: seq<Tier>, batch: seq<Request>, nextId: nat)
    requires ValidTable(rows)
    requires forall i :: 0 <= i < Applied(batch) ==> Position(rows, batch[i].coin) < |rows|
    ensures var after := ApplyBatch(rows, batch, nextId);
            && |after| == |rows|
            && forall k :: 0 <= k < |rows| ==> after[k].id == rows[k].id && after[k].coin == rows[k].coin
    decreases |batch|
  {
    if Applied(batch) > 0 {
      var next := Upsert(rows, batch[0], nextId);
      UpsertKeepsTableValid(rows, batch[0], nextId);
      UpsertKeepsShape(rows, batch[0], nextId);
      hide Upsert, ValidTable;
      forall i | 0 <= i < Applied(batch[1..])
        ensures Position(next, batch[1..][i].coin) < |next|
      {
        assert batch[1..][i] == batch[i + 1];
      }
      BatchKeepsShape(next, batch[1..], nextId + 1);
    }
  }

  lemma UpsertKeepsShape(rows: seq<Tier>, r: Request, id: nat)
    requires Position(rows, r.coin) < |rows|
    ensures var after := Upsert(rows, r, id);
            && |after| == |rows|
            && (forall k :: 0 <= k < |rows| ==> after[k].id == rows[k].id && after[k].coin == rows[k].coin)
            && forall c :: Position(rows, c) < |rows| ==> Position(after, c) < |after|
  {
    UpsertShape(rows, r, id);
    var after := Upsert(rows, r, id);
    forall c | Position(rows, c) < |rows|
      ensures Position(after, c) < |after|
    {
      assert after[Position(rows, c)].coin == c;
    }
  }

  function RequestOf(t: Tier): Request {
    Request(t.coin, t.minutes, t.active, t.pausable, t.hours)
  }

  lemma {:induction false} LastRequest(batch: seq<Request>, n: nat, i: nat) returns (last: nat)
    requires i < n <= |batch|
    ensures LastForItsCoin(batch, n, last) && batch[last].coin == batch[i].coin
    decreases n - i
  {
    if j :| i < j < n && batch[j].coin == batch[i].coin {
      last := LastRequest(batch, n, j);
    } else {
      last := i;
    }
  }

  /** A batch, refused or not, leaves every row as it was if and only if, for every coin value it gets to
      set before the first unacceptable request, the last such request says what the table already held. */
  lemma BatchChangesNothingIff(rows: seq<Tier>, batch: seq<Request>, nextId: nat)
    requires ValidTable(rows)
    ensures ApplyBatch(rows, batch, nextId) == rows <==>
            forall i :: LastForItsCoin(batch, Applied(batch), i) ==> Stored(rows, batch[i])
  {
    var n, after := Applied(batch), ApplyBatch(rows, batch, nextId);
    if after == rows {
      forall i | LastForItsCoin(batch, n, i)
        ensures Stored(rows, batch[i])
      {
        LastRequestWins(rows, batch, nextId, i, batch[i]);
      }
    }
    if forall i :: LastForItsCoin(batch, n, i) ==> Stored(rows, batch[i]) {
      forall i | 0 <= i < n
        ensures Position(rows, batch[i].coin) < |rows|
      {
        var last := LastRequest(batch, n, i);
        assert Stored(rows, batch[last]);
      }
      BatchKeepsShape(rows, batch, nextId);
      forall k | 0 <= k < |rows|
        ensures after[k] == rows[k]
      {
        RowIsKept(rows, batch, nextId, k);
      }
    }
  }

  lemma RowIsKept(rows: seq<Tier>, batch: seq<Request>, nextId: nat, k: nat)
    requires ValidTable(rows) && k < |rows| && |ApplyBatch(rows, batch, nextId)| == |rows|
    requires var t := ApplyBatch(rows, batch, nextId)[k]; t.id == rows[k].id && t.coin == rows[k].coin
    requires forall i :: LastForItsCoin(batch, Applied(batch), i) ==> Stored(rows, batch[i])
    ensures ApplyBatch(rows, batch, nextId)[k] == rows[k]
  {
    var n, after := Applied(batch), ApplyBatch(rows, batch, nextId);
    var q := RequestOf(after[k]);
    assert Says(after[k], q) && after[k] in after;
    if i :| 0 <= i < n && batch[i].coin == q.coin {
      var last := LastRequest(batch, n, i);
      LastRequestWins(rows, batch, nextId, last, q);
    } else {
      UnsetCoinIsKept(rows, batch, nextId, q);
    }
    assert Stored(rows, q);
    var t :| t in rows && Says(t, q);
    SameCoinSameRow(rows, t, rows[k]);
  }

  /** Two prices of which the second is refused: the answer is a refusal, yet the first one is in force. */
  lemma RefusedBatchIsPartlyApplied()
    ensures var rows := [Tier(1, 1, 12, true, true, 0)];
            var batch := [Request(1, 20, true, true, 0), Request(5, 0, true, true, 0)];
            && ValidTable(rows) && Applied(batch) == 1
            && ApplyBatch(rows, batch, 2) == [Tier(1, 1, 20, true, true, 0)]
  {
    var rows := [Tier(1, 1, 12, true, true, 0)];
    var batch := [Request(1, 20, true, true, 0), Request(5, 0, true, true, 0)];
    assert batch[1..] == [batch[1]] && !Acceptable(batch[1]);
    UpsertShape(rows, batch[0], 2);
  }

  /** Setting a price and setting it back changes nothing, though the first request says something new. */
  lemma SettingBackChangesNothing()
    ensures var rows := [Tier(1, 1, 12, true, true, 0)];
            var batch := [Request(1, 20, true, true, 0), Request(1, 12, true, true, 0), Request(5, 0, true, true, 0)];
            && ValidTable(rows) && Applied(batch) == 2 && !Stored(rows, batch[0])
            && ApplyBatch(rows, batch, 2) == rows
  {
    var rows := [Tier(1, 1, 12, true, true, 0)];
    var batch := [Request(1, 20, true, true, 0), Request(1, 12, true, true, 0), Request(5, 0, true, true, 0)];
    assert batch[1..] == [batch[1], batch[2]] && batch[1..][1..] == [batch[2]] && !Acceptable(batch[2]);
    UpsertShape(rows, batch[0], 2);
    UpsertShape(Upsert(rows, batch[0], 2), batch[1], 3);
    assert Applied(batch[1..]) == 1;
  }

  lemma {:induction false} DeactivateAt(rows: seq<Tier>, id: int)
    ensures var after := Deactivate(rows, id);
            && |after| == |rows|
            && forall i :: 0 <= i < |rows| ==>
                 after[i] == if rows[i].id == id then rows[i].(active := false) else rows[i]
  {
    if rows != [] {
      DeactivateAt(rows[1..], id);
    }
  }

  lemma DeactivateKeepsTableValid(rows: seq<Tier>, id: int)
    requires ValidTable(rows)
    ensures ValidTable(Deactivate(rows, id))
  {
    DeactivateAt(rows, id);
    forall t <- Deactivate(rows, id)
      ensures t.coin > 0 && t.minutes > 0 && t.hours >= 0
    {
      var i :| 0 <= i < |rows| && Deactivate(rows, id)[i] == t;
      assert rows[i] in rows;
    }
  }

  class PricingHandler {
    var rows: seq<Tier>
    var nextId: nat

    constructor ()
      ensures rows == [] && nextId == 1 && ValidTable(rows)
    {
      rows, nextId := [], 1;
    }

    /** The loop of updatePricing: it stops at the first refused request, keeping what it applied. */
    method UpdatePricing(batch: seq<Request>) returns (ok: bool)
      requires ValidTable(rows)
      modifies this
      ensures ValidTable(rows) && rows == ApplyBatch(old(rows), batch, old(nextId))
      ensures ok <==> forall i :: 0 <= i < |batch| ==> batch[i].coin > 0 && batch[i].minutes > 0 && batch[i].hours >= 0
      ensures rows == old(rows) <==>
              forall i :: LastForItsCoin(batch, Applied(batch), i) ==> Stored(old(rows), batch[i])
    {
      BatchKeepsTableValid(rows, batch, nextId);
      BatchChangesNothingIff(rows, batch, nextId);
      hide LastForItsCoin, Stored, Applied, ValidTable, Upsert;
      for i := 0 to |batch|
        invariant forall j :: 0 <= j < i ==> Acceptable(batch[j])
        invariant ApplyBatch(rows, batch[i..], nextId) == ApplyBatch(old(rows), batch, old(nextId))
      {
        if batch[i].coin <= 0 || batch[i].minutes <= 0 {
          return false;
        }
        if batch[i].hours < 0 {
          return false;
        }
        assert batch[i..][1..] == batch[i + 1..];
        rows := Upsert(rows, batch[i], nextId);
        nextId := nextId + 1;
      }
      ok := true;
    }

    method DeletePricing(id: int) returns (found: bool)
      requires ValidTable(rows)
      modifies this`rows
      ensures ValidTable(rows) && rows == Deactivate(old(rows), id)
      ensures found <==> exists t <- old(rows) :: t.id == id
    {
      DeactivateKeepsTableValid(rows, id);
      DeactivateAt(rows, id);
      found := exists t <- rows :: t.id == id;
      rows := Deactivate(rows, id);
    }
  }
}
