/** The in-memory payment store, and the settlement and deposit jobs above it. */
module PayStore {
  import opened Sums
  import opened PayLedger

  ghost predicate IsOrder(column: map<string, int>, b: string, order: seq<string>) {
    && (forall i, j :: 0 <= i < j < |order| ==> Precedes(b, order[i], order[j]))
    && (forall s :: s in order <==> s in column)
  }

  // The ledger while a settlement is under way: only the sponsors in `done` have paid.
  ghost function Partly(t: Table, b: string, charge: int, done: set<string>): Table {
    map s | s in t && (s in done ==> RowLeft(t, b, charge, s) != map[]) ::
      if s in done then RowLeft(t, b, charge, s) else t[s]
  }

  ghost function Paid(column: map<string, int>, order: seq<string>, i: nat): int
    requires i <= |order|
  {
    SumMap(Only(column, Elements(order[..i])))
  }

  lemma PaidStep(column: map<string, int>, b: string, order: seq<string>, i: nat)
    requires IsOrder(column, b, order) && i < |order|
    ensures order[i] in column && order[i] !in Elements(order[..i])
    ensures Elements(order[..i + 1]) == Elements(order[..i]) + {order[i]}
    ensures SumMap(Earlier(column, b, order[i])) == Paid(column, order, i)
    ensures Paid(column, order, i + 1) == Paid(column, order, i) + column[order[i]]
  {
    hide SumMap;
    var done := Elements(order[..i]);
    assert order[i] in order;
    ElementsOfNext(order, i);
    forall k | 0 <= k < |order|
      ensures Precedes(b, order[k], order[i]) <==> k < i
      ensures order[k] == order[i] <==> k == i
    {
      PrecedesIsTotal(b, order[k], order[i]);
    }
    forall s | s in column
      ensures s in done <==> Precedes(b, s, order[i])
    {
      assert s in order;
      var k :| 0 <= k < |order| && order[k] == s;
      if s in done {
        var m :| 0 <= m < i && order[m] == s;
      }
      assert k < i ==> order[k] in order[..i];
    }
    assert Earlier(column, b, order[i]) == Only(column, done);
    SumOnlyAdd(column, done, order[i]);
  }

  lemma PaidEnds(column: map<string, int>, b: string, order: seq<string>, i: nat)
    requires IsOrder(column, b, order) && i <= |order| && forall s <- column :: column[s] > 0
    ensures Paid(column, order, 0) == 0 && Paid(column, order, i) <= SumMap(column)
    ensures i == |order| ==> Paid(column, order, i) == SumMap(column)
  {
    assert Only(column, Elements(order[..0])) == map[];
    assert Only(column, column.Keys) == column;
    forall s | s in order[..i]
      ensures s in column
    {
      assert s in order;
    }
    SumOnlyGrows(column, Elements(order[..i]), column.Keys);
    if i == |order| {
      assert order[..i] == order;
      assert Only(column, Elements(order)) == column;
    }
  }

  lemma NothingPaidYet(t: Table, b: string, charge: int, order: seq<string>)
    requires Proper(t)
    ensures Partly(t, b, charge, Elements(order[..0])) == t
  {
  }

  lemma UnpaidAreLater(order: seq<string>, i: nat, s: string) returns (k: nat)
    requires i <= |order| && s in order && s !in order[..i]
    ensures i <= k < |order| && order[k] == s && Elements(order[..i]) <= Elements(order[..k])
  {
    assert order == order[..i] + order[i..];
    assert s in order[i..];
    k :| i <= k < |order| && order[k] == s;
    assert order[..i] == order[..k][..i];
  }

  lemma UnpaidColumn(column: map<string, int>, b: string, order: seq<string>, i: nat, s: string)
    requires IsOrder(column, b, order) && i <= |order| && s in column && s !in order[..i]
    requires forall k <- column :: column[k] > 0
    ensures i < |order| && Paid(column, order, i) <= SumMap(Earlier(column, b, s))
  {
    hide SumMap;
    var k := UnpaidAreLater(order, i, s);
    PaidStep(column, b, order, k);
    SumOnlyGrows(column, Elements(order[..i]), Elements(order[..k]));
  }

  // Once nothing remains, those further down the order pay nothing.
  lemma RestPaysNothing(t: Table, b: string, charge: int, order: seq<string>, i: nat)
    requires Proper(t) && IsOrder(Column(t, b), b, order) && i <= |order|
    requires i < |order| ==> charge <= Paid(Column(t, b), order, i)
    ensures Partly(t, b, charge, Elements(order[..i])) == Drained(t, b, charge)
  {
    hide SumMap;
    var column := Column(t, b);
    var done := Elements(order[..i]);
    forall s | s in t && s !in done
      ensures RowLeft(t, b, charge, s) == t[s]
    {
      if s in column {
        ColumnPositive(t, b);
        UnpaidColumn(column, b, order, i, s);
        assert Taken(column, b, charge, s) == 0;
        assert t[s][b := t[s][b]] == t[s];
      }
    }
  }

  lemma PartlyStep(t: Table, b: string, charge: int, done: set<string>, s: string)
    requires s in t && s !in done && b in t[s]
    ensures var left := t[s][b] - Taken(Column(t, b), b, charge, s);
      Partly(t, b, charge, done + {s}) == Put(Partly(t, b, charge, done), s, b, left)
  {
    hide Taken;
    var left := t[s][b] - Taken(Column(t, b), b, charge, s);
    assert Row(Partly(t, b, charge, done), s) == t[s];
    assert b in t[s][b := left];
  }

  lemma ColumnStep(t: Table, s: string, b: string)
    requires s in t
    ensures SumMap(Column(t, b)) == SumMap(Column(t - {s}, b)) + At(t[s], b)
  {
    assert Column(t - {s}, b) == Column(t, b) - {s};
    SumDrop(Column(t, b), s);
  }

  lemma DevFeesStep(row: map<string, int>, left: map<string, int>, pid: string, ratio: int)
    requires left.Keys <= row.Keys && pid in left
    ensures DevFees(row - (left - {pid}).Keys, ratio)
      == if row[pid] > 0 then DevFees(row - left.Keys, ratio)[pid := row[pid] * ratio / 10000]
         else DevFees(row - left.Keys, ratio)
    ensures pid !in DevFees(row - left.Keys, ratio)
  {
  }

  lemma SelfThenOthers(column: map<string, int>, b: string, others: seq<string>)
    requires Sorted(others) && forall s :: s in others <==> s in column && s != b
    ensures IsOrder(column, b, (if b in column then [b] else []) + others)
  {
    var order := (if b in column then [b] else []) + others;
    forall i, j | 0 <= i < j < |order|
      ensures Precedes(b, order[i], order[j])
    {
      var o := |order| - |others|;
      assert order[j] == others[j - o] && others[j - o] in others;
      if i >= o {
        assert order[i] == others[i - o];
        LessTotal(order[i], order[j]);
      }
    }
  }

  // Two maps added up key by key.
  function Added(a: map<string, int>, b: map<string, int>): map<string, int> {
    map k | k in a.Keys + b.Keys :: At(a, k) + At(b, k)
  }

  ghost function RowSums(t: Table): map<string, int> {
    map row | row in t :: SumMap(t[row])
  }

  lemma AddedOne(a: map<string, int>, b: map<string, int>, left: set<string>, k: string)
    requires k in left && k in b
    ensures Added(a, b - (left - {k})) == Added(a, b - left)[k := At(Added(a, b - left), k) + b[k]]
  {
  }

  lemma AddedNone(a: map<string, int>, b: map<string, int>)
    ensures Added(a, b - b.Keys) == a && b - {} == b
  {
  }

  lemma AddedAt(a: map<string, int>, b: map<string, int>, k: string)
    ensures At(Added(a, b), k) == At(a, k) + At(b, k) && (k in Added(a, b) <==> k in a || k in b)
  {
  }

  lemma RowSumsAt(t: Table, k: string)
    ensures At(RowSums(t), k) == SumMap(Row(t, k)) && (k in RowSums(t) <==> k in t)
  {
  }

  lemma AddedUp(v: Books)
    ensures Added(Added(Added(map[], RowSums(v.tx)), RowSums(v.spawn)), v.residency) == AllPendingOf(v)
  {
    hide SumMap, Added, RowSums;
    var one := Added(map[], RowSums(v.tx));
    var two := Added(one, RowSums(v.spawn));
    var all := Added(two, v.residency);
    forall b
      ensures (b in all <==> b in AllPendingOf(v)) && At(all, b) == At(AllPendingOf(v), b)
    {
      AddedAt(map[], RowSums(v.tx), b);
      AddedAt(one, RowSums(v.spawn), b);
      AddedAt(two, v.residency, b);
      RowSumsAt(v.tx, b);
      RowSumsAt(v.spawn, b);
    }
  }

  class Pay {
    var executed: set<string>
    var ledger: Table
    var txPending: Table
    var spawnPending: Table
    var residencyPending: map<string, int>

    ghost function View(): Books
      reads this
    {
      Books(ledger, txPending, spawnPending, residencyPending, executed)
    }

    constructor ()
      ensures View() == EMPTY_BOOKS && Inv(View())
    {
      executed, ledger, txPending, spawnPending, residencyPending := {}, map[], map[], map[], map[];
    }

    method TotalBal(b: string) returns (sum: int)
      ensures sum == Balance(View(), b)
    {
      sum := 0;
      var left := ledger;
      while left != map[]
        invariant left.Keys <= ledger.Keys && forall s <- left :: left[s] == ledger[s]
        invariant sum + SumMap(Column(left, b)) == SumMap(Column(ledger, b))
        decreases |left|
      {
        var s :| s in left;
        ColumnStep(left, s, b);
        if b in left[s] {
          sum := sum + left[s][b];
        }
        left := left - {s};
      }
    }

    method TotalPending(b: string) returns (sum: int)
      ensures sum == Pending(View(), b)
    {
      var tx := SumValues(Row(txPending, b));
      var spawn := SumValues(Row(spawnPending, b));
      sum := tx + spawn + At(residencyPending, b);
    }

    method CanCover(b: string, delta: int) returns (ok: bool)
      ensures ok <==> Covers(View(), b, delta)
    {
      if b == "" || delta <= 0 { return false; }
      var avail := TotalBal(b);
      var pending := TotalPending(b);
      ok := avail - pending >= delta;
    }

    method Deposit(sponsor: string, b: string, amount: int) returns (out: Outcome)
      requires Inv(View())
      modifies this
      ensures (View(), out) == Next(old(View()), Op.Deposit(sponsor, b, amount))
    {
      if amount <= 0 { return InvalidAmount; }
      CellNonNegative(ledger, sponsor, b);
      var row := Row(ledger, sponsor);
      assert b in row[b := At(row, b) + amount];
      row := row[b := At(row, b) + amount];
      ledger := ledger[sponsor := row];
      out := Done;
    }

    method Withdraw(sponsor: string, b: string, amount: int) returns (out: Outcome)
      requires Inv(View())
      modifies this
      ensures (View(), out) == Next(old(View()), Op.Withdraw(sponsor, b, amount))
    {
      hide SumMap;
      if amount <= 0 { return InvalidAmount; }
      if sponsor !in ledger || b !in ledger[sponsor] || ledger[sponsor][b] < amount {
        return Insufficient;
      }
      var totalBal := TotalBal(b);
      var totalPending := TotalPending(b);
      if totalBal - totalPending < amount { return PendingLocked; }
      Reduce(sponsor, b, amount);
      out := Done;
    }

    // Lowers one cell, dropping it at zero and its row when that was the last cell.
    method Reduce(sponsor: string, b: string, amount: int)
      requires sponsor in ledger && b in ledger[sponsor]
      modifies this`ledger
      ensures ledger == Put(old(ledger), sponsor, b, old(ledger)[sponsor][b] - amount)
    {
      var row := ledger[sponsor];
      row := row[b := row[b] - amount];
      assert b in row;
      if row[b] == 0 {
        row := row - {b};
        assert row == ledger[sponsor] - {b};
      }
      ledger := ledger[sponsor := row];
      if row == map[] {
        ledger := ledger - {sponsor};
        assert ledger == old(ledger) - {sponsor};
      }
    }

    method UseOnce(b: string, pid: string, fee: int) returns (out: Outcome)
      requires Inv(View())
      modifies this
      ensures (View(), out) == Next(old(View()), Op.UseOnce(b, pid, fee))
    {
      if fee <= 0 { return InvalidAmount; }
      var ok := CanCover(b, fee);
      if !ok { return Insufficient; }
      var row := Row(txPending, b);
      txPending := txPending[b := row[pid := At(row, pid) + fee]];
      out := Done;
    }

    method SpawnFee(b: string, pid: string, fee: int) returns (out: Outcome)
      requires Inv(View())
      modifies this
      ensures (View(), out) == Next(old(View()), Op.SpawnFee(b, pid, fee))
    {
      if fee <= 0 { return InvalidAmount; }
      var ok := CanCover(b, fee);
      if !ok { return Insufficient; }
      var row := Row(spawnPending, b);
      spawnPending := spawnPending[b := row[pid := At(row, pid) + fee]];
      out := Done;
    }

    method ResidencyFee(pid: string, fee: int) returns (out: Outcome)
      requires Inv(View())
      modifies this
      ensures (View(), out) == Next(old(View()), Op.ResidencyFee(pid, fee))
    {
      if fee <= 0 { return InvalidAmount; }
      var ok := CanCover(pid, fee);
      if !ok { return Insufficient; }
      residencyPending := residencyPending[pid := At(residencyPending, pid) + fee];
      out := Done;
    }

    method CollectDevFees(b: string, ratio: int) returns (devFees: map<string, int>, totalTx: int)
      requires Proper(txPending) && ValidRatio(ratio)
      ensures devFees == DevFees(Row(txPending, b), ratio) && totalTx == SumMap(Row(txPending, b))
    {
      devFees, totalTx := map[], 0;
      var row := Row(txPending, b);
      var left := row;
      while left != map[]
        invariant left.Keys <= row.Keys && forall pid <- left :: left[pid] == row[pid]
        invariant totalTx + SumMap(left) == SumMap(row)
        invariant devFees == DevFees(row - left.Keys, ratio)
        decreases |left|
      {
        var pid :| pid in left;
        SumRemove(left, pid);
        DevFeesStep(row, left, pid, ratio);
        var amount := left[pid];
        if amount > 0 {
          totalTx := totalTx + amount;
          devFees := devFees[pid := At(devFees, pid) + amount * ratio / 10000];
        }
        left := left - {pid};
      }
    }

    method SumPositive(row: map<string, int>) returns (sum: int)
      requires forall k <- row :: row[k] > 0
      ensures sum == SumMap(row)
    {
      sum := 0;
      var left := row;
      while left != map[]
        invariant left.Keys <= row.Keys && forall k <- left :: left[k] == row[k]
        invariant sum + SumMap(left) == SumMap(row)
        decreases |left|
      {
        var k :| k in left;
        SumRemove(left, k);
        if left[k] > 0 {
          sum := sum + left[k];
        }
        left := left - {k};
      }
    }

    method OtherSponsors(b: string) returns (others: seq<string>)
      requires Proper(ledger)
      ensures Distinct(others) && forall s :: s in others <==> s in Column(ledger, b) && s != b
    {
      others := [];
      var left := ledger.Keys;
      while left != {}
        invariant left <= ledger.Keys
        invariant Distinct(others)
        invariant forall s :: s in others <==> s in Column(ledger, b) && s != b && s !in left
        decreases |left|
      {
        var s :| s in left;
        left := left - {s};
        if s != b && Cell(ledger, s, b) > 0 {
          assert s in Column(ledger, b);
          others := others + [s];
        }
      }
    }

    method SettlementOrder(b: string) returns (order: seq<string>)
      requires Proper(ledger)
      ensures IsOrder(Column(ledger, b), b, order)
    {
      order := [];
      if b in ledger && b in ledger[b] && ledger[b][b] > 0 {
        order := [b];
      }
      var others := OtherSponsors(b);
      SortSorts(others);
      SelfThenOthers(Column(ledger, b), b, SortStrings(others));
      order := order + SortStrings(others);
    }

    method DeductFrom(s: string, b: string, remaining: int, ghost t: Table, ghost charge: int,
                      ghost done: set<string>)
      returns (left: int)
      requires ledger == Partly(t, b, charge, done) && s in Column(t, b) && s !in done && Proper(t)
      requires remaining == Max(0, charge - SumMap(Earlier(Column(t, b), b, s)))
      modifies this`ledger
      ensures ledger == Partly(t, b, charge, done + {s})
      ensures left == remaining - Taken(Column(t, b), b, charge, s)
    {
      hide SumMap;
      left := remaining;
      PartlyStep(t, b, charge, done, s);
      assert ledger[s] == t[s];
      var bal := ledger[s][b];
      if bal > 0 {
        var toDeduct := if bal >= remaining then remaining else bal;
        Reduce(s, b, toDeduct);
        left := left - toDeduct;
      }
    }

    // Takes the charge from the sponsors in order; what is left over is returned.
    method Deduct(order: seq<string>, b: string, charge: int) returns (remaining: int)
      requires Proper(ledger) && charge >= 0 && IsOrder(Column(ledger, b), b, order)
      modifies this`ledger
      ensures ledger == Drained(old(ledger), b, charge)
      ensures remaining == Max(0, charge - SumMap(Column(old(ledger), b)))
    {
      hide SumMap, Paid, Column, Partly, Drained, Earlier, Elements;
      ghost var t, column := ledger, Column(ledger, b);
      ColumnPositive(t, b);
      NothingPaidYet(t, b, charge, order);
      PaidEnds(column, b, order, 0);
      remaining := charge;
      var i := 0;
      while i < |order| && remaining != 0
        invariant 0 <= i <= |order|
        invariant remaining == Max(0, charge - Paid(column, order, i))
        invariant ledger == Partly(t, b, charge, Elements(order[..i]))
      {
        PaidStep(column, b, order, i);
        remaining := DeductFrom(order[i], b, remaining, t, charge, Elements(order[..i]));
        i := i + 1;
      }
      RestPaysNothing(t, b, charge, order, i);
      PaidEnds(column, b, order, i);
    }

    method PendingCharges(b: string, ratio: int)
      returns (devFees: map<string, int>, totalTx: int, totalSpawn: int, totalResidency: int)
      requires Inv(View()) && ValidRatio(ratio)
      ensures devFees == DevFees(Row(txPending, b), ratio)
      ensures totalTx + totalSpawn + totalResidency == Pending(View(), b)
      ensures totalTx >= 0 && totalSpawn >= 0 && totalResidency >= 0
    {
      hide SumMap;
      devFees, totalTx := CollectDevFees(b, ratio);
      totalSpawn := SumPositive(Row(spawnPending, b));
      totalResidency := 0;
      if b in residencyPending && residencyPending[b] > 0 {
        totalResidency := residencyPending[b];
      }
      RowSum(txPending, b);
      RowSum(spawnPending, b);
    }

    method Charge(b: string, totalCharge: int) returns (remaining: int)
      requires Inv(View()) && 0 <= totalCharge <= Balance(View(), b)
      modifies this`ledger, this`txPending, this`spawnPending, this`residencyPending
      ensures remaining == 0
      ensures View() == Discharged(old(View()), b, totalCharge)
    {
      var order := SettlementOrder(b);
      remaining := Deduct(order, b, totalCharge);
      if remaining == 0 {
        txPending := txPending - {b};
        spawnPending := spawnPending - {b};
        residencyPending := residencyPending - {b};
      }
    }

    method SettleTxFee(b: string, ratio: int) returns (out: Outcome)
      requires Inv(View())
      modifies this
      ensures (View(), out) == Settlement(old(View()), b, ratio)
    {
      hide SumMap;
      if ratio < 0 || ratio > 10000 { return InvalidRatio; }
      var devFees, totalTx, totalSpawn, totalResidency := PendingCharges(b, ratio);
      if totalTx == 0 && totalSpawn == 0 && totalResidency == 0 { return NothingPending; }
      var totalCharge := totalTx + totalSpawn + totalResidency;
      var totalBal := TotalBal(b);
      if totalBal < totalCharge { return Insufficient; }
      var totalDev := SumValues(devFees);
      var nodeFee := totalTx - totalDev + totalSpawn + totalResidency;
      assert nodeFee == totalCharge - SumMap(DevFees(Row(txPending, b), ratio));
      ghost var v := View();
      assert Settlement(v, b, ratio) == (Discharged(v, b, totalCharge), Settled(nodeFee, devFees));
      var remaining := Charge(b, totalCharge);
      out := if remaining != 0 then Internal else Settled(nodeFee, devFees);
    }

    // Adds one table's rows to the totals by beneficiary, in any order.
    method AddPending(t: Table, totals: map<string, int>) returns (out: map<string, int>)
      requires Proper(t)
      ensures out == Added(totals, RowSums(t))
    {
      hide SumMap, Added;
      out := totals;
      var left := t.Keys;
      ghost var sums := RowSums(t);
      assert sums.Keys == t.Keys;
      AddedNone(totals, sums);
      while left != {}
        invariant left <= t.Keys
        invariant out == Added(totals, sums - left)
        decreases |left|
      {
        var b :| b in left;
        var sum := SumPositive(t[b]);
        assert Row(t, b) == t[b];
        RowSum(t, b);
        AddedOne(totals, sums, left, b);
        left := left - {b};
        if sum != 0 {
          out := out[b := At(out, b) + sum];
        }
      }
    }

    method AllPending() returns (out: map<string, int>)
      requires Inv(View())
      ensures out == AllPendingOf(View())
    {
      hide SumMap, Added, RowSums, AllPendingOf;
      out := AddPending(txPending, map[]);
      out := AddPending(spawnPending, out);
      ghost var totals := out;
      AddedNone(totals, residencyPending);
      var left := residencyPending.Keys;
      while left != {}
        invariant left <= residencyPending.Keys
        invariant out == Added(totals, residencyPending - left)
        decreases |left|
      {
        var b :| b in left;
        AddedOne(totals, residencyPending, left, b);
        left := left - {b};
        if residencyPending[b] != 0 {
          out := out[b := At(out, b) + residencyPending[b]];
        }
      }
      AddedUp(View());
    }

    method IsExecuted(txHash: string) returns (done: bool)
      ensures done == (txHash in executed)
    {
      done := txHash in executed;
    }

    method MarkExecuted(txHash: string) returns (out: Outcome)
      modifies this`executed
      ensures executed == old(executed) + {txHash}
      ensures out == if txHash in old(executed) then AlreadyExecuted else Done
    {
      if txHash in executed { return AlreadyExecuted; }
      executed := executed + {txHash};
      out := Done;
    }
  }
}
