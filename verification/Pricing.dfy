/** The pricing table and the credit rule: one tier resolved for an amount, then scaled and rounded down. */
module Pricing {
  import opened Arithmetic

  datatype Tier = Tier(id: nat, coin: int, minutes: int, active: bool, pausable: bool, hours: int)

  datatype Match = Match(minutes: int, coin: int, pausable: bool, hours: int)

  /** The zero value the resolution returns when no row is usable. */
  const NO_MATCH := Match(0, 0, false, 0)

  /** ORDER BY coin_value DESC, minutes DESC, id DESC. */
  predicate Precedes(a: Tier, b: Tier) {
    a.coin > b.coin || (a.coin == b.coin && (a.minutes > b.minutes || (a.minutes == b.minutes && a.id >= b.id)))
  }

  predicate Eligible(t: Tier, amount: int) {
    t.active && t.coin <= amount
  }

  /** MinutesForAmount: the first eligible row in that order. */
  function MinutesForAmount(rows: seq<Tier>, amount: int): Match {
    if amount <= 0 then NO_MATCH else ToMatch(First(rows, amount))
  }

  function ToMatch(first: seq<Tier>): Match {
    if first == [] then NO_MATCH
    else Match(first[0].minutes, first[0].coin, first[0].pausable, first[0].hours)
  }

  /** At most one row: the winner of the ordered query. */
  function First(rows: seq<Tier>, amount: int): (best: seq<Tier>)
    ensures |best| <= 1
    ensures best == [] <==> forall t <- rows :: !Eligible(t, amount)
    ensures best != [] ==>
              && best[0] in rows && Eligible(best[0], amount)
              && forall t <- rows :: Eligible(t, amount) ==> Precedes(best[0], t)
  {
    if rows == [] then []
    else
      var rest := First(rows[1..], amount);
      assert forall t <- rows :: t == rows[0] || t in rows[1..];
      if Eligible(rows[0], amount) && (rest == [] || Precedes(rows[0], rest[0])) then [rows[0]] else rest
  }

  /** Integer division of the scaled amount. */
  function Scaled(total: int, minutes: int, coin: int): int
    requires coin > 0
  {
    total * minutes / coin
  }

  /** The minutes a total of pesos buys. */
  function Credit(rows: seq<Tier>, total: int): int {
    var m := MinutesForAmount(rows, total);
    if total > 0 && m.coin > 0 && m.minutes > 0 then Scaled(total, m.minutes, m.coin) else 0
  }

  /** What the write path lets into the table: positive values, one row per coin value. */
  predicate ValidTable(rows: seq<Tier>) {
    && (forall t <- rows :: t.coin > 0 && t.minutes > 0 && t.hours >= 0)
    && forall i, j :: 0 <= i < j < |rows| ==> rows[i].coin != rows[j].coin
  }

  /** Minutes per peso never fall from a smaller tier to a greater one. */
  predicate NonFallingRates(rows: seq<Tier>) {
    forall a <- rows, b <- rows :: a.active && b.active && a.coin < b.coin ==> a.minutes * b.coin <= b.minutes * a.coin
  }

  // ---------- what is credited ----------

  lemma SameCoinSameRow(rows: seq<Tier>, a: Tier, b: Tier)
    requires ValidTable(rows) && a in rows && b in rows && a.coin == b.coin
    ensures a == b
  {
    var i :| 0 <= i < |rows| && rows[i] == a;
    var j :| 0 <= j < |rows| && rows[j] == b;
    assert !(i < j) && !(j < i);
  }

  /** The greatest active tier not above the amount decides, its minutes scaled to the amount and
      rounded down; without such a tier nothing is credited. */
  lemma CreditIsTheScaledGreatestTier(rows: seq<Tier>, total: int, t: Tier)
    requires ValidTable(rows) && t in rows && Eligible(t, total)
    requires forall u <- rows :: Eligible(u, total) ==> u.coin <= t.coin
    ensures Credit(rows, total) == Scaled(total, t.minutes, t.coin)
    ensures MinutesForAmount(rows, total) == Match(t.minutes, t.coin, t.pausable, t.hours)
    ensures var q := Credit(rows, total); q * t.coin <= total * t.minutes < (q + 1) * t.coin
  {
    SameCoinSameRow(rows, First(rows, total)[0], t);
  }

  lemma NothingEligibleNothingCredited(rows: seq<Tier>, total: int)
    requires ValidTable(rows)
    ensures Credit(rows, total) != 0 ==> exists t <- rows :: Eligible(t, total)
    ensures Credit(rows, total) >= 0
  {
    var m := MinutesForAmount(rows, total);
    if total > 0 && m.coin > 0 && m.minutes > 0 {
      ScaledIsNonNegative(total, m.minutes, m.coin);
    }
  }

  lemma ScaledIsNonNegative(x: int, m: int, c: int)
    requires x >= 0 && m >= 0 && c > 0
    ensures 0 <= Scaled(x, m, c)
  {
    assert x * m >= 0;
  }

  /** Paying exactly a tier buys exactly its minutes. */
  lemma ExactTierIsExact(rows: seq<Tier>, t: Tier)
    requires ValidTable(rows) && t in rows && t.active
    ensures Credit(rows, t.coin) == t.minutes
  {
    hide Scaled;
    CreditIsTheScaledGreatestTier(rows, t.coin, t);
    DivideOut(t.minutes, t.coin);
  }

  lemma DivideOut(m: int, c: int)
    requires c > 0
    ensures Scaled(c, m, c) == m
  {
    FloorBounds(c * m, c);
    FloorAtLeast(c * m, c, m);
    CancelFactor(c * m / c, m, c);
  }

  // ---------- superadditivity ----------

  /** A better rate credits at least as much for the same amount. */
  lemma BetterRateCreditsMore(x: int, m: int, c: int, m': int, c': int)
    requires x >= 0 && c > 0 && c' > 0 && m * c' <= m' * c
    ensures Scaled(x, m, c) <= Scaled(x, m', c')
  {
    var q := x * m / c;
    FloorBounds(x * m, c);
    calc {
      q * c' * c;
      == (q * c) * c';
      <= { MulMono(q * c, x * m, c'); } (x * m) * c';
      == x * (m * c');
      <= { MulMono(m * c', m' * c, x); } x * (m' * c);
      == (x * m') * c;
    }
    CancelFactor(q * c', x * m', c);
    FloorAtLeast(x * m', c', q);
  }

  lemma FloorsAdd(x: int, y: int, c: int)
    requires c > 0
    ensures x / c + y / c <= (x + y) / c
  {
    FloorBounds(x, c);
    FloorBounds(y, c);
    assert (x / c + y / c) * c == (x / c) * c + (y / c) * c;
    FloorAtLeast(x + y, c, x / c + y / c);
  }

  lemma ScaledAdds(a: int, b: int, m: int, c: int)
    requires c > 0
    ensures Scaled(a, m, c) + Scaled(b, m, c) <= Scaled(a + b, m, c)
  {
    FloorsAdd(a * m, b * m, c);
    assert (a + b) * m == a * m + b * m;
  }

  lemma ScaledSteps(a: int, m: int, c: int)
    requires c > 0 && m >= 0
    ensures Scaled(a, m, c) <= Scaled(a + 1, m, c)
  {
    FloorBounds(a * m, c);
    assert (a + 1) * m == a * m + m;
    FloorAtLeast((a + 1) * m, c, a * m / c);
  }

  /** With non-falling rates, the part of a larger amount is credited at the larger amount's rate or less. */
  lemma PartAtWholeRate(rows: seq<Tier>, part: int, whole: int)
    requires ValidTable(rows) && NonFallingRates(rows) && 0 < part <= whole
    requires First(rows, whole) != []
    ensures var t := First(rows, whole)[0]; Credit(rows, part) <= Scaled(part, t.minutes, t.coin)
  {
    hide Scaled;
    var t := First(rows, whole)[0];
    if First(rows, part) == [] {
      ScaledIsNonNegative(part, t.minutes, t.coin);
    } else {
      var u := First(rows, part)[0];
      assert u.coin <= t.coin;
      if u.coin == t.coin {
        SameCoinSameRow(rows, u, t);
      } else {
        BetterRateCreditsMore(part, u.minutes, u.coin, t.minutes, t.coin);
      }
    }
  }

  lemma TwoParts(rows: seq<Tier>, a: int, b: int)
    requires ValidTable(rows) && NonFallingRates(rows) && a > 0 && b > 0 && First(rows, a + b) != []
    ensures Credit(rows, a) + Credit(rows, b) <= Credit(rows, a + b)
  {
    var t := First(rows, a + b)[0];
    assert forall u <- rows :: Eligible(u, a + b) ==> u.coin <= t.coin;
    CreditIsTheScaledGreatestTier(rows, a + b, t);
    hide Scaled, NonFallingRates, Credit, MinutesForAmount, ValidTable;
    PartAtWholeRate(rows, a, a + b);
    PartAtWholeRate(rows, b, a + b);
    ScaledAdds(a, b, t.minutes, t.coin);
  }

  /** Splitting a payment never pays: with non-falling rates, a total buys at least what its parts buy. */
  lemma CreditIsSuperadditive(rows: seq<Tier>, a: int, b: int)
    requires ValidTable(rows) && NonFallingRates(rows) && a >= 0 && b >= 0
    ensures Credit(rows, a) + Credit(rows, b) <= Credit(rows, a + b)
  {
    hide Scaled, NonFallingRates, ValidTable;
    if a > 0 && b > 0 && First(rows, a + b) != [] {
      TwoParts(rows, a, b);
    } else if a > 0 && b > 0 {
      NothingEligibleNothingCredited(rows, a);
      NothingEligibleNothingCredited(rows, b);
      assert First(rows, a) == [] && First(rows, b) == [];
    }
  }

  lemma CreditIsNonNegative(rows: seq<Tier>, total: int)
    requires ValidTable(rows)
    ensures Credit(rows, total) >= 0
  {
    NothingEligibleNothingCredited(rows, total);
  }

  lemma CreditIsMonotone(rows: seq<Tier>, a: int, b: int)
    requires ValidTable(rows) && NonFallingRates(rows) && a <= b
    ensures Credit(rows, a) <= Credit(rows, b)
  {
    hide Scaled, NonFallingRates;
    if a <= 0 {
      assert Credit(rows, a) == 0;
      CreditIsNonNegative(rows, b);
    } else {
      AddingPesosAdds(rows, a, b - a);
    }
  }

  lemma AddingPesosAdds(rows: seq<Tier>, a: int, d: int)
    requires ValidTable(rows) && NonFallingRates(rows) && a >= 0 && d >= 0
    ensures Credit(rows, a) <= Credit(rows, a + d)
  {
    hide Scaled, NonFallingRates;
    CreditIsSuperadditive(rows, a, d);
    CreditIsNonNegative(rows, d);
  }

  // ---------- exactly when paying more never buys less ----------

  /** At the value of every active tier the credit is at least that of one peso less. */
  predicate NoDropAtATier(rows: seq<Tier>) {
    forall t <- rows :: t.active ==> Credit(rows, t.coin - 1) <= t.minutes
  }

  ghost predicate PayingMoreBuysNoLess(rows: seq<Tier>) {
    forall a: int, b: int {:trigger Credit(rows, a), Credit(rows, b)} :: a <= b ==> Credit(rows, a) <= Credit(rows, b)
  }

  /** The greatest eligible tier is the same one peso later, unless a tier has exactly that value. */
  lemma SameTierOnePesoLater(rows: seq<Tier>, a: int)
    requires ValidTable(rows) && First(rows, a) != []
    ensures var next := First(rows, a + 1);
            next != [] && (next[0].coin == a + 1 || next[0] == First(rows, a)[0])
  {
    var t := First(rows, a)[0];
    assert Eligible(t, a + 1);
    var u := First(rows, a + 1)[0];
    if u.coin != a + 1 {
      assert Eligible(u, a);
      SameCoinSameRow(rows, t, u);
    }
  }

  lemma OneMorePeso(rows: seq<Tier>, a: int)
    requires ValidTable(rows) && NoDropAtATier(rows)
    ensures Credit(rows, a) <= Credit(rows, a + 1)
  {
    hide Scaled;
    if First(rows, a) == [] || a <= 0 {
      assert Credit(rows, a) == 0;
      CreditIsNonNegative(rows, a + 1);
    } else {
      SameTierOnePesoLater(rows, a);
      var t, u := First(rows, a)[0], First(rows, a + 1)[0];
      if u.coin == a + 1 {
        ExactTierIsExact(rows, u);
      } else {
        ScaledSteps(a, t.minutes, t.coin);
      }
    }
  }

  lemma {:induction false} ManyMorePesos(rows: seq<Tier>, a: int, b: int)
    requires ValidTable(rows) && NoDropAtATier(rows) && a <= b
    ensures Credit(rows, a) <= Credit(rows, b)
    decreases b - a
  {
    hide Scaled;
    if a < b {
      ManyMorePesos(rows, a, b - 1);
      OneMorePeso(rows, b - 1);
    }
  }

  /** Over all amounts, credit is monotone if and only if no single tier value drops it. */
  lemma MonotoneIffNoDropAtATier(rows: seq<Tier>)
    requires ValidTable(rows)
    ensures PayingMoreBuysNoLess(rows) <==> NoDropAtATier(rows)
  {
    hide Scaled;
    if PayingMoreBuysNoLess(rows) {
      forall t <- rows | t.active
        ensures Credit(rows, t.coin - 1) <= t.minutes
      {
        ExactTierIsExact(rows, t);
        assert Credit(rows, t.coin - 1) <= Credit(rows, t.coin);
      }
    }
    if NoDropAtATier(rows) {
      forall a: int, b: int {:trigger Credit(rows, a), Credit(rows, b)} | a <= b
        ensures Credit(rows, a) <= Credit(rows, b)
      {
        ManyMorePesos(rows, a, b);
      }
    }
  }

  // ---------- exactly when splitting a payment never pays ----------

  ghost predicate SplittingNeverPays(rows: seq<Tier>) {
    forall a: int, b: int {:trigger Credit(rows, a), Credit(rows, b)} ::
      a >= 0 && b >= 0 ==> Credit(rows, a) + Credit(rows, b) <= Credit(rows, a + b)
  }

  /** The same over the finitely many payments below a limit. */
  predicate SplittingNeverPaysBelow(rows: seq<Tier>, limit: int) {
    forall a: int, b: int {:trigger Credit(rows, a), Credit(rows, b)} ::
      0 <= a < limit && 0 <= b < limit - a ==> Credit(rows, a) + Credit(rows, b) <= Credit(rows, a + b)
  }

  predicate IsTop(rows: seq<Tier>, top: Tier) {
    top in rows && top.active && forall u <- rows :: u.active ==> u.coin <= top.coin
  }

  /** No active tier has a better rate than the greatest one. */
  predicate TopRateIsBest(rows: seq<Tier>, top: Tier) {
    forall u <- rows :: u.active ==> u.minutes * top.coin <= top.minutes * u.coin
  }

  lemma OneSplit(rows: seq<Tier>, a: int, b: int)
    requires SplittingNeverPays(rows) && a >= 0 && b >= 0
    ensures Credit(rows, a) + Credit(rows, b) <= Credit(rows, a + b)
  {
    hide Credit;
  }

  lemma {:induction false} ManyCopies(rows: seq<Tier>, x: int, n: nat)
    requires ValidTable(rows) && SplittingNeverPays(rows) && x >= 0
    ensures n * Credit(rows, x) <= Credit(rows, n * x)
  {
    hide Credit, ValidTable, SplittingNeverPays;
    if n == 0 {
      CreditIsNonNegative(rows, 0);
    } else {
      ManyCopies(rows, x, n - 1);
      assert (n - 1) * x >= 0;
      assert (n - 1) * x + x == n * x;
      OneSplit(rows, (n - 1) * x, x);
      assert (n - 1) * Credit(rows, x) + Credit(rows, x) == n * Credit(rows, x);
    }
  }

  /** As many payments of a tier as the greatest tier has pesos make a multiple of the greatest tier. */
  lemma TopCredit(rows: seq<Tier>, top: Tier, u: Tier)
    requires ValidTable(rows) && IsTop(rows, top) && u in rows
    ensures Credit(rows, top.coin * u.coin) == u.coin * top.minutes
  {
    hide Credit, Scaled;
    MulMono(1, u.coin, top.coin);
    CreditIsTheScaledGreatestTier(rows, top.coin * u.coin, top);
    TopCoinsOfTop(top.minutes, top.coin, u.coin);
  }

  lemma TopRateIsNecessary(rows: seq<Tier>, top: Tier, u: Tier)
    requires ValidTable(rows) && IsTop(rows, top) && SplittingNeverPays(rows) && u in rows && u.active
    ensures u.minutes * top.coin <= top.minutes * u.coin
  {
    hide Credit, Scaled, SplittingNeverPays;
    ManyCopies(rows, u.coin, top.coin);
    ExactTierIsExact(rows, u);
    TopCredit(rows, top, u);
  }

  lemma TopCoinsOfTop(m: int, c: int, n: int)
    requires c > 0
    ensures Scaled(c * n, m, c) == n * m
  {
    FloorBounds(c * n * m, c);
    assert c * n * m == (n * m) * c;
    FloorAtLeast(c * n * m, c, n * m);
    CancelFactor(c * n * m / c, n * m, c);
  }

  lemma PartAtTopRate(rows: seq<Tier>, top: Tier, part: int)
    requires ValidTable(rows) && IsTop(rows, top) && TopRateIsBest(rows, top) && part >= 0
    ensures Credit(rows, part) <= Scaled(part, top.minutes, top.coin)
  {
    hide Scaled;
    ScaledIsNonNegative(part, top.minutes, top.coin);
    if part > 0 && First(rows, part) != [] {
      var u := First(rows, part)[0];
      BetterRateCreditsMore(part, u.minutes, u.coin, top.minutes, top.coin);
    }
  }

  lemma WholeAtTopRate(rows: seq<Tier>, top: Tier, a: int, b: int)
    requires ValidTable(rows) && IsTop(rows, top) && TopRateIsBest(rows, top)
    requires a >= 0 && b >= 0 && a + b >= top.coin
    ensures Credit(rows, a) + Credit(rows, b) <= Credit(rows, a + b)
  {
    hide Scaled, Credit, TopRateIsBest;
    PartAtTopRate(rows, top, a);
    PartAtTopRate(rows, top, b);
    ScaledAdds(a, b, top.minutes, top.coin);
    CreditIsTheScaledGreatestTier(rows, a + b, top);
  }

  /** Over all payments, splitting one never pays if and only if no tier has a better rate than the
      greatest one and splitting never pays below the greatest one's value. */
  lemma SuperadditiveIff(rows: seq<Tier>, top: Tier)
    requires ValidTable(rows) && IsTop(rows, top)
    ensures SplittingNeverPays(rows) <==> TopRateIsBest(rows, top) && SplittingNeverPaysBelow(rows, top.coin)
  {
    hide Credit, ValidTable, IsTop;
    if SplittingNeverPays(rows) {
      forall u <- rows | u.active
        ensures u.minutes * top.coin <= top.minutes * u.coin
      {
        TopRateIsNecessary(rows, top, u);
      }
    }
    if TopRateIsBest(rows, top) && SplittingNeverPaysBelow(rows, top.coin) {
      forall a: int, b: int {:trigger Credit(rows, a), Credit(rows, b)} | a >= 0 && b >= 0
        ensures Credit(rows, a) + Credit(rows, b) <= Credit(rows, a + b)
      {
        if a + b >= top.coin {
          WholeAtTopRate(rows, top, a, b);
        }
      }
    }
  }

  /** Without an active tier nothing is ever credited, so splitting never pays. */
  lemma NoTierSplittingNeverPays(rows: seq<Tier>)
    requires ValidTable(rows) && forall u <- rows :: !u.active
    ensures SplittingNeverPays(rows)
  {
  }

  /** A table with a falling rate on which paying more does buy less, and on which a split payment wins. */
  lemma FallingRatesBreakBoth()
    ensures var rows := [Tier(1, 1, 12, true, true, 0), Tier(2, 5, 20, true, true, 0)];
            && ValidTable(rows) && !NonFallingRates(rows)
            && Credit(rows, 5) < Credit(rows, 4)
            && Credit(rows, 5) < Credit(rows, 4) + Credit(rows, 1)
  {
    var one, five := Tier(1, 1, 12, true, true, 0), Tier(2, 5, 20, true, true, 0);
    var rows := [one, five];
    CreditIsTheScaledGreatestTier(rows, 1, one);
    CreditIsTheScaledGreatestTier(rows, 4, one);
    CreditIsTheScaledGreatestTier(rows, 5, five);
    assert one in rows && five in rows && one.minutes * five.coin > five.minutes * one.coin;
  }

  // ---------- the preview of an open window ----------

  function Sum(values: seq<int>): int {
    if values == [] then 0 else Sum(values[..|values| - 1]) + values[|values| - 1]
  }

  /** The per-coin minutes of coinsSinceArm: each coin at its own tier, never scaled. */
  function Preview(rows: seq<Tier>, values: seq<int>): int {
    if values == [] then 0
    else Preview(rows, values[..|values| - 1]) + MinutesForAmount(rows, values[|values| - 1]).minutes
  }

  lemma PreviewOfOneCoin(rows: seq<Tier>, v: int)
    requires ValidTable(rows) && v > 0
    ensures MinutesForAmount(rows, v).minutes <= Credit(rows, v)
  {
    if First(rows, v) != [] {
      var t := First(rows, v)[0];
      MulMono(t.coin, v, t.minutes);
      FloorAtLeast(v * t.minutes, t.coin, t.minutes);
    }
  }

  /** What the coin endpoint accepts. */
  predicate PositiveCoins(values: seq<int>) {
    forall i :: 0 <= i < |values| ==> values[i] > 0
  }

  lemma {:induction false} SumIsNonNegative(values: seq<int>)
    requires PositiveCoins(values)
    ensures Sum(values) >= 0
  {
    if values != [] {
      SumIsNonNegative(values[..|values| - 1]);
    }
  }

  lemma OneMoreCoin(rows: seq<Tier>, total: int, v: int)
    requires ValidTable(rows) && NonFallingRates(rows) && total >= 0 && v > 0
    ensures Credit(rows, total) + MinutesForAmount(rows, v).minutes <= Credit(rows, total + v)
  {
    hide Scaled, NonFallingRates;
    PreviewOfOneCoin(rows, v);
    CreditIsSuperadditive(rows, total, v);
  }

  /** What the portal is shown while coins drop never exceeds what Start credits for the same coins. */
  lemma {:induction false} PreviewNeverExceedsCredit(rows: seq<Tier>, values: seq<int>)
    requires ValidTable(rows) && NonFallingRates(rows) && PositiveCoins(values)
    ensures Preview(rows, values) <= Credit(rows, Sum(values))
  {
    hide Scaled, Credit, NonFallingRates, ValidTable;
    if values == [] {
      CreditIsNonNegative(rows, 0);
    } else {
      var init, last := values[..|values| - 1], values[|values| - 1];
      PreviewNeverExceedsCredit(rows, init);
      SumIsNonNegative(init);
      OneMoreCoin(rows, Sum(init), last);
    }
  }

  // ---------- exactly when the preview never exceeds the credit ----------

  ghost predicate PreviewNeverExceeds(rows: seq<Tier>) {
    forall values :: PositiveCoins(values) ==> Preview(rows, values) <= Credit(rows, Sum(values))
  }

  /** The same over the finitely many lists of coins that sum to less than a limit. */
  ghost predicate PreviewNeverExceedsBelow(rows: seq<Tier>, limit: int) {
    forall values :: PositiveCoins(values) && Sum(values) < limit ==> Preview(rows, values) <= Credit(rows, Sum(values))
  }

  lemma {:induction false} CopiesSum(rows: seq<Tier>, v: int, n: nat)
    ensures var values := seq(n, _ => v);
            Sum(values) == n * v && Preview(rows, values) == n * MinutesForAmount(rows, v).minutes
  {
    hide MinutesForAmount;
    if n > 0 {
      CopiesSum(rows, v, n - 1);
      assert seq(n, _ => v)[..n - 1] == seq(n - 1, _ => v);
      OneMoreProduct(n, v);
      OneMoreProduct(n, MinutesForAmount(rows, v).minutes);
    }
  }

  lemma OneMoreProduct(n: int, x: int)
    ensures (n - 1) * x + x == n * x
  {
  }

  lemma PreviewOfCopies(rows: seq<Tier>, u: Tier, n: nat)
    requires ValidTable(rows) && u in rows && u.active && PreviewNeverExceeds(rows)
    ensures n * u.minutes <= Credit(rows, n * u.coin)
  {
    hide Credit, Scaled, Sum, Preview;
    CopiesSum(rows, u.coin, n);
    CreditIsTheScaledGreatestTier(rows, u.coin, u);
    assert Preview(rows, seq(n, _ => u.coin)) <= Credit(rows, Sum(seq(n, _ => u.coin)));
  }

  lemma PreviewNeedsTheTopRate(rows: seq<Tier>, top: Tier, u: Tier)
    requires ValidTable(rows) && IsTop(rows, top) && PreviewNeverExceeds(rows) && u in rows && u.active
    ensures u.minutes * top.coin <= top.minutes * u.coin
  {
    hide Credit, PreviewNeverExceeds;
    PreviewOfCopies(rows, u, top.coin);
    TopCredit(rows, top, u);
  }

  lemma OneCoinAtTopRate(rows: seq<Tier>, top: Tier, v: int)
    requires ValidTable(rows) && IsTop(rows, top) && TopRateIsBest(rows, top) && v > 0
    ensures MinutesForAmount(rows, v).minutes * top.coin <= top.minutes * v
  {
    if First(rows, v) == [] {
      MulMono(0, v, top.minutes);
    } else {
      var u := First(rows, v)[0];
      assert u in rows && u.active && u.coin <= v;
      MulMono(u.coin, v, top.minutes);
    }
  }

  lemma {:induction false} PreviewAtTopRate(rows: seq<Tier>, top: Tier, values: seq<int>)
    requires ValidTable(rows) && IsTop(rows, top) && TopRateIsBest(rows, top) && PositiveCoins(values)
    ensures Preview(rows, values) * top.coin <= top.minutes * Sum(values)
  {
    hide MinutesForAmount, TopRateIsBest, ValidTable;
    if values != [] {
      var init, last := values[..|values| - 1], values[|values| - 1];
      PreviewAtTopRate(rows, top, init);
      OneCoinAtTopRate(rows, top, last);
      Distribute(Preview(rows, init), MinutesForAmount(rows, last).minutes, top.coin);
      Distribute(Sum(init), last, top.minutes);
    }
  }

  lemma Distribute(a: int, b: int, k: int)
    ensures (a + b) * k == a * k + b * k && k * (a + b) == k * a + k * b
  {
  }

  lemma WholePreviewAtTopRate(rows: seq<Tier>, top: Tier, values: seq<int>)
    requires ValidTable(rows) && IsTop(rows, top) && TopRateIsBest(rows, top) && PositiveCoins(values)
    requires Sum(values) >= top.coin
    ensures Preview(rows, values) <= Credit(rows, Sum(values))
  {
    hide Credit, MinutesForAmount, TopRateIsBest, Sum, Preview;
    PreviewAtTopRate(rows, top, values);
    CreditIsTheScaledGreatestTier(rows, Sum(values), top);
    FloorAtLeast(Sum(values) * top.minutes, top.coin, Preview(rows, values));
  }

  /** Over all lists of coins, the preview never exceeds the credit if and only if no active tier has a
      better rate than the greatest one and it never does so below the greatest one's value. */
  lemma PreviewIff(rows: seq<Tier>, top: Tier)
    requires ValidTable(rows) && IsTop(rows, top)
    ensures PreviewNeverExceeds(rows) <==> TopRateIsBest(rows, top) && PreviewNeverExceedsBelow(rows, top.coin)
  {
    hide Credit, ValidTable, IsTop, Sum, Preview;
    if PreviewNeverExceeds(rows) {
      forall u <- rows | u.active
        ensures u.minutes * top.coin <= top.minutes * u.coin
      {
        PreviewNeedsTheTopRate(rows, top, u);
      }
    }
    if TopRateIsBest(rows, top) && PreviewNeverExceedsBelow(rows, top.coin) {
      forall values | PositiveCoins(values)
        ensures Preview(rows, values) <= Credit(rows, Sum(values))
      {
        if Sum(values) >= top.coin {
          WholePreviewAtTopRate(rows, top, values);
        }
      }
    }
  }

  /** The loop of coinsSinceArm with its cache of minutes by coin value. */
  method CoinsSinceArm(rows: seq<Tier>, values: seq<int>)
    returns (count: nat, totalValue: int, totalMinutes: int, totalSeconds: int)
    ensures count == |values| && totalValue == Sum(values)
    ensures totalMinutes == Preview(rows, values) && totalSeconds == 60 * totalMinutes
  {
    count, totalValue, totalMinutes := 0, 0, 0;
    var minutesByValue: map<int, int> := map[];
    for i := 0 to |values|
      invariant count == i && totalValue == Sum(values[..i]) && totalMinutes == Preview(rows, values[..i])
      invariant forall v <- minutesByValue :: minutesByValue[v] == MinutesForAmount(rows, v).minutes
    {
      var v := values[i];
      assert values[..i + 1][..i] == values[..i];
      if v !in minutesByValue {
        minutesByValue := minutesByValue[v := MinutesForAmount(rows, v).minutes];
      }
      count := count + 1;
      totalValue := totalValue + v;
      totalMinutes := totalMinutes + minutesByValue[v];
    }
    assert values[..|values|] == values;
    totalSeconds := totalMinutes * 60;
  }

  // ---------- the browser's copy of the rule ----------

  /** The portal's tiers are the active rows of the table. */
  ghost predicate Mirrors(tiers: map<int, int>, rows: seq<Tier>) {
    && (forall t <- rows :: t.active ==> t.coin in tiers && tiers[t.coin] == t.minutes)
    && forall c <- tiers :: exists t <- rows :: t.active && t.coin == c
  }

  /** loadPricing: the server sends the active rows; the portal keeps the positive ones. */
  method LoadPricing(rows: seq<Tier>) returns (tiers: map<int, int>)
    requires ValidTable(rows)
    ensures Mirrors(tiers, rows)
  {
    tiers := map[];
    for i := 0 to |rows|
      invariant Mirrors(tiers, rows[..i])
    {
      var t := rows[i];
      ghost var before := tiers;
      if t.active && t.coin > 0 && t.minutes > 0 {
        tiers := tiers[t.coin := t.minutes];
      }
      assert rows[..i + 1] == rows[..i] + [t];
      forall c <- tiers
        ensures exists u <- rows[..i + 1] :: u.active && u.coin == c
      {
        if c in before {
          var u :| u in rows[..i] && u.active && u.coin == c;
          assert u in rows[..i + 1];
        } else {
          assert t in rows[..i + 1];
        }
      }
    }
    assert rows[..|rows|] == rows;
  }

  /** The portal's minutesForAmount agrees with the backend for every amount, whatever the order in
      which the keys are visited. */
  method BrowserMinutesForAmount(rows: seq<Tier>, tiers: map<int, int>, keys: seq<int>, coin: int)
    returns (minutes: int)
    requires ValidTable(rows) && Mirrors(tiers, rows)
    requires forall k :: k in keys <==> k in tiers
    ensures minutes == Credit(rows, coin)
  {
    if coin <= 0 {
      return 0;
    }
    var bestTier, bestMinutes := 0, 0;
    for i := 0 to |keys|
      invariant bestTier == 0 || (bestTier in tiers && bestTier <= coin && bestMinutes == tiers[bestTier])
      invariant bestTier == 0 ==> bestMinutes == 0
      invariant forall j :: 0 <= j < i ==> 0 < keys[j] <= coin ==> keys[j] <= bestTier
      invariant bestTier >= 0
    {
      var tier := keys[i];
      if tier > 0 && tier <= coin && tier > bestTier {
        bestTier := tier;
        bestMinutes := tiers[tier];
      }
    }
    if bestTier > 0 {
      var t :| t in rows && t.active && t.coin == bestTier;
      CreditIsTheScaledGreatestTier(rows, coin, t);
    } else {
      assert First(rows, coin) == [];
    }
    if bestTier <= 0 || bestMinutes <= 0 {
      return 0;
    }
    minutes := (coin * bestMinutes) / bestTier;
  }
}
