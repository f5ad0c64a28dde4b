/**
 * The books of the payment store as values, and what every operation of the store does to them.
 * Each operation is one atomic step.
 */
module PayLedger {
  import opened Sums

  // A two-level table: sponsor and beneficiary, or beneficiary and process.
  type Table = map<string, map<string, int>>

  function Row(t: Table, row: string): map<string, int> {
    if row in t then t[row] else map[]
  }

  function Cell(t: Table, row: string, column: string): int {
    At(Row(t, row), column)
  }

  function Column(t: Table, column: string): map<string, int> {
    map row | row in t && column in t[row] :: t[row][column]
  }

  // No zero cell and no empty row is ever kept.
  predicate Proper(t: Table) {
    forall row <- t :: t[row] != map[] && forall column <- t[row] :: t[row][column] > 0
  }

  // Sets one cell; a cell that becomes zero is dropped, and so is a row that becomes empty.
  function Put(t: Table, row: string, column: string, amount: int): Table {
    var cells := if amount == 0 then Row(t, row) - {column} else Row(t, row)[column := amount];
    if cells == map[] then t - {row} else t[row := cells]
  }

  datatype Books = Books(ledger: Table, tx: Table, spawn: Table, residency: map<string, int>, executed: set<string>)

  const EMPTY_BOOKS := Books(map[], map[], map[], map[], {})

  ghost function Balance(v: Books, beneficiary: string): int {
    SumMap(Column(v.ledger, beneficiary))
  }

  ghost function Pending(v: Books, beneficiary: string): int {
    SumMap(Row(v.tx, beneficiary)) + SumMap(Row(v.spawn, beneficiary)) + At(v.residency, beneficiary)
  }

  // Every beneficiary with something pending, with how much.
  ghost function AllPendingOf(v: Books): map<string, int> {
    map b | b in v.tx.Keys + v.spawn.Keys + v.residency.Keys :: Pending(v, b)
  }

  // ------------------------------------------------------------------ settlement

  // Who pays first: the beneficiary itself, then the sponsors by name.
  predicate Precedes(beneficiary: string, a: string, b: string) {
    a != b && (a == beneficiary || (b != beneficiary && Less(a, b)))
  }

  function Earlier(column: map<string, int>, beneficiary: string, sponsor: string): map<string, int> {
    map s | s in column && Precedes(beneficiary, s, sponsor) :: column[s]
  }

  function Min(a: int, b: int): int { if a < b then a else b }

  function Max(a: int, b: int): int { if a < b then b else a }

  // What a sponsor pays of a charge: what those before it could not, up to its own balance.
  ghost function Taken(column: map<string, int>, beneficiary: string, charge: int, sponsor: string): int
    requires sponsor in column
  {
    Min(column[sponsor], Max(0, charge - SumMap(Earlier(column, beneficiary, sponsor))))
  }

  ghost function AllTaken(column: map<string, int>, beneficiary: string, charge: int): map<string, int> {
    map s | s in column :: Taken(column, beneficiary, charge, s)
  }

  ghost function RowLeft(t: Table, beneficiary: string, charge: int, sponsor: string): map<string, int>
    requires sponsor in t
  {
    if beneficiary !in t[sponsor] then t[sponsor] else
    var left := t[sponsor][beneficiary] - Taken(Column(t, beneficiary), beneficiary, charge, sponsor);
    if left == 0 then t[sponsor] - {beneficiary} else t[sponsor][beneficiary := left]
  }

  ghost function Drained(t: Table, beneficiary: string, charge: int): Table {
    map s | s in t && RowLeft(t, beneficiary, charge, s) != map[] :: RowLeft(t, beneficiary, charge, s)
  }

  function ValidRatio(ratio: int): bool { 0 <= ratio <= 10000 }

  // The developers' part of each process's transaction fees, in basis points, rounded down.
  function DevFees(row: map<string, int>, ratio: int): map<string, int> {
    map pid | pid in row && row[pid] > 0 :: row[pid] * ratio / 10000
  }

  // -------------------------------------------------------------------- operations

  datatype Op =
    | Deposit(sponsor: string, beneficiary: string, amount: int)
    | Withdraw(sponsor: string, beneficiary: string, amount: int)
    | UseOnce(beneficiary: string, pid: string, fee: int)
    | SpawnFee(beneficiary: string, pid: string, fee: int)
    | ResidencyFee(pid: string, fee: int)
    | SettleTxFee(beneficiary: string, ratio: int)
    | NoticeOfDeposit(txHash: string, sponsor: string, beneficiary: string, amount: int)

  datatype Outcome =
    | Done
    | NothingPending
    | Settled(nodeFee: int, devFees: map<string, int>)
    | InvalidAmount
    | InvalidRatio
    | Insufficient
    | PendingLocked
    | AlreadyExecuted
    | Internal
  {
    predicate Failed() { !Done? && !NothingPending? && !Settled? }
  }

  ghost predicate Covers(v: Books, beneficiary: string, delta: int) {
    beneficiary != "" && delta > 0 && Balance(v, beneficiary) - Pending(v, beneficiary) >= delta
  }

  function Deposited(v: Books, sponsor: string, beneficiary: string, amount: int): (Books, Outcome) {
    if amount <= 0 then (v, InvalidAmount) else
    (v.(ledger := Put(v.ledger, sponsor, beneficiary, Cell(v.ledger, sponsor, beneficiary) + amount)), Done)
  }

  ghost function Withdrawn(v: Books, sponsor: string, beneficiary: string, amount: int): (Books, Outcome) {
    var cell := Cell(v.ledger, sponsor, beneficiary);
    if amount <= 0 then (v, InvalidAmount)
    else if cell < amount then (v, Insufficient)
    else if Balance(v, beneficiary) - Pending(v, beneficiary) < amount then (v, PendingLocked)
    else (v.(ledger := Put(v.ledger, sponsor, beneficiary, cell - amount)), Done)
  }

  function Accrued(t: Table, beneficiary: string, pid: string, fee: int): Table {
    t[beneficiary := Row(t, beneficiary)[pid := Cell(t, beneficiary, pid) + fee]]
  }

  ghost function Discharged(v: Books, beneficiary: string, charge: int): Books {
    v.(ledger := Drained(v.ledger, beneficiary, charge), tx := v.tx - {beneficiary},
       spawn := v.spawn - {beneficiary}, residency := v.residency - {beneficiary})
  }

  ghost function Settlement(v: Books, beneficiary: string, ratio: int): (Books, Outcome) {
    var charge := Pending(v, beneficiary);
    var dev := DevFees(Row(v.tx, beneficiary), ratio);
    if !ValidRatio(ratio) then (v, InvalidRatio)
    else if charge == 0 then (v, NothingPending)
    else if Balance(v, beneficiary) < charge then (v, Insufficient)
    else (Discharged(v, beneficiary, charge), Settled(charge - SumMap(dev), dev))
  }

  ghost function Next(v: Books, op: Op): (Books, Outcome) {
    match op
    case Deposit(s, b, amount) => Deposited(v, s, b, amount)
    case Withdraw(s, b, amount) => Withdrawn(v, s, b, amount)
    case UseOnce(b, pid, fee) =>
      if fee <= 0 then (v, InvalidAmount)
      else if !Covers(v, b, fee) then (v, Insufficient)
      else (v.(tx := Accrued(v.tx, b, pid, fee)), Done)
    case SpawnFee(b, pid, fee) =>
      if fee <= 0 then (v, InvalidAmount)
      else if !Covers(v, b, fee) then (v, Insufficient)
      else (v.(spawn := Accrued(v.spawn, b, pid, fee)), Done)
    case ResidencyFee(pid, fee) =>
      if fee <= 0 then (v, InvalidAmount)
      else if !Covers(v, pid, fee) then (v, Insufficient)
      else (v.(residency := v.residency[pid := At(v.residency, pid) + fee]), Done)
    case SettleTxFee(b, ratio) => Settlement(v, b, ratio)
    case NoticeOfDeposit(txHash, s, b, amount) =>
      if txHash in v.executed then (v, AlreadyExecuted)
      else Deposited(v.(executed := v.executed + {txHash}), s, b, amount)
  }

  ghost function Run(v: Books, ops: seq<Op>): Books
    decreases ops
  {
    if ops == [] then v else Run(Next(v, ops[0]).0, ops[1..])
  }

  // --------------------------------------------------------------------- invariant

  ghost predicate Inv(v: Books) {
    && Proper(v.ledger) && Proper(v.tx) && Proper(v.spawn)
    && (forall pid <- v.residency :: v.residency[pid] > 0)
    && (forall b :: Pending(v, b) <= Balance(v, b))
  }

  lemma PutCells(t: Table, row: string, column: string, amount: int, r: string, c: string)
    ensures Cell(Put(t, row, column, amount), r, c) == if r == row && c == column then amount else Cell(t, r, c)
  {
  }

  lemma PutIsProper(t: Table, row: string, column: string, amount: int)
    requires Proper(t) && amount >= 0
    ensures Proper(Put(t, row, column, amount))
  {
  }

  lemma PutColumns(t: Table, row: string, column: string, amount: int, c: string)
    ensures SumMap(Column(Put(t, row, column, amount), c))
      == SumMap(Column(t, c)) + if c == column then amount - Cell(t, row, column) else 0
  {
    hide SumMap;
    var before, after := Column(t, c), Column(Put(t, row, column, amount), c);
    if c != column {
      assert after == before;
    } else if amount == 0 {
      assert after == before - {row};
      SumDrop(before, row);
    } else {
      assert column in Row(t, row)[column := amount];
      assert after == before[row := amount];
      SumUpdate(before, row, amount);
    }
  }

  lemma AccruedSum(t: Table, beneficiary: string, pid: string, fee: int, b: string)
    ensures SumMap(Row(Accrued(t, beneficiary, pid, fee), b))
      == SumMap(Row(t, b)) + if b == beneficiary then fee else 0
  {
    if b == beneficiary {
      SumUpdate(Row(t, b), pid, Cell(t, b, pid) + fee);
    }
  }

  lemma PendingNonNegative(v: Books, b: string)
    requires Proper(v.tx) && Proper(v.spawn) && forall pid <- v.residency :: v.residency[pid] > 0
    ensures Pending(v, b) >= 0
    ensures Pending(v, b) == 0 <==> b !in v.tx && b !in v.spawn && b !in v.residency
  {
    RowSum(v.tx, b);
    RowSum(v.spawn, b);
  }

  lemma RowSum(t: Table, b: string)
    requires Proper(t)
    ensures SumMap(Row(t, b)) >= 0
    ensures SumMap(Row(t, b)) == 0 <==> b !in t
  {
    SumNonNegative(Row(t, b));
    if b in t {
      var pid :| pid in t[b];
      assert Row(t, b)[pid] > 0;
    }
  }

  // --------------------------------------------------------------- the settlement

  lemma PrecedesIsTotal(b: string, x: string, y: string)
    ensures Precedes(b, x, y) || Precedes(b, y, x) || x == y
    ensures !(Precedes(b, x, y) && Precedes(b, y, x)) && !Precedes(b, x, x)
  {
    LessTotal(x, y);
  }

  lemma PrecedesIsTransitive(b: string, x: string, y: string, z: string)
    requires Precedes(b, x, y) && Precedes(b, y, z)
    ensures Precedes(b, x, z)
  {
    if x != b {
      LessTransitive(x, y, z);
      LessTotal(x, z);
    }
  }

  // Whatever a sponsor pays, all before it have paid all they had: a prefix of the order is
  // drained, at most one sponsor pays a part, and the rest pay nothing.
  lemma PrefixIsDrained(column: map<string, int>, b: string, charge: int, s: string, t: string)
    requires forall k <- column :: column[k] > 0
    requires s in column && t in column && Precedes(b, s, t)
    requires Taken(column, b, charge, t) > 0
    ensures Taken(column, b, charge, s) == column[s]
  {
    hide SumMap;
    var before := Earlier(column, b, s).Keys;
    assert Only(column, before) == Earlier(column, b, s);
    var after := Earlier(column, b, t).Keys;
    assert Only(column, after) == Earlier(column, b, t);
    PrecedesIsTotal(b, s, s);
    SumOnlyAdd(column, before, s);
    forall k | k in before + {s}
      ensures k in after
    {
      if k != s { PrecedesIsTransitive(b, k, s, t); }
    }
    SumOnlyGrows(column, before + {s}, after);
  }

  lemma {:induction false} LastExists(column: map<string, int>, b: string) returns (last: string)
    requires column != map[]
    ensures last in column && forall s <- column :: s == last || Precedes(b, s, last)
    decreases column
  {
    last :| last in column;
    var rest := column - {last};
    if rest == map[] {
      forall s | s in column
        ensures s == last
      {
        assert s != last ==> s in rest;
      }
    } else {
      var later := LastExists(rest, b);
      PrecedesIsTotal(b, last, later);
      if Precedes(b, last, later) {
        last := later;
      } else {
        forall s | s in column && s != last
          ensures Precedes(b, s, last)
        {
          assert s in rest;
          if s != later { PrecedesIsTransitive(b, s, later, last); }
        }
      }
    }
  }

  lemma LastPaysTheRest(column: map<string, int>, b: string, charge: int, last: string)
    requires last in column && forall s <- column :: s == last || Precedes(b, s, last)
    ensures AllTaken(column, b, charge) - {last} == AllTaken(column - {last}, b, charge)
    ensures Taken(column, b, charge, last) == Min(column[last], Max(0, charge - SumMap(column - {last})))
  {
    hide SumMap;
    var rest := column - {last};
    assert Earlier(column, b, last) == rest by { PrecedesIsTotal(b, last, last); }
    forall s | s in rest
      ensures Taken(rest, b, charge, s) == Taken(column, b, charge, s)
    {
      PrecedesIsTotal(b, s, last);
      assert Earlier(rest, b, s) == Earlier(column, b, s);
    }
  }

  // All together the sponsors pay the charge, or all they have.
  lemma {:induction false} TakenSum(column: map<string, int>, b: string, charge: int)
    requires charge >= 0 && forall k <- column :: column[k] > 0
    ensures SumMap(AllTaken(column, b, charge)) == Min(charge, SumMap(column))
    decreases column
  {
    hide SumMap;
    if column == map[] {
      SumEmpty(column);
      SumEmpty(AllTaken(column, b, charge));
    } else {
      var last := LastExists(column, b);
      SumNonNegative(column - {last});
      LastPaysTheRest(column, b, charge, last);
      SumRemove(AllTaken(column, b, charge), last);
      SumRemove(column, last);
      TakenSum(column - {last}, b, charge);
    }
  }

  lemma TakenBounds(column: map<string, int>, b: string, charge: int, s: string)
    requires s in column && column[s] > 0
    ensures 0 <= Taken(column, b, charge, s) <= column[s]
  {
  }

  lemma DrainedCells(t: Table, b: string, charge: int, s: string, c: string)
    requires Proper(t)
    ensures Proper(Drained(t, b, charge))
    ensures Cell(Drained(t, b, charge), s, c)
      == Cell(t, s, c) - if c == b && s in Column(t, b) then Taken(Column(t, b), b, charge, s) else 0
  {
    forall s | s in t && b in t[s]
      ensures 0 <= Taken(Column(t, b), b, charge, s) <= t[s][b]
    {
      TakenBounds(Column(t, b), b, charge, s);
    }
  }

  lemma ColumnCells(t: Table, c: string)
    ensures forall s :: At(Column(t, c), s) == Cell(t, s, c)
  {
  }

  // The ledger goes down by exactly the charge, and only in the beneficiary's column.
  lemma DrainedColumns(t: Table, b: string, charge: int, c: string)
    requires Proper(t) && 0 <= charge <= SumMap(Column(t, b))
    ensures SumMap(Column(Drained(t, b, charge), c)) == SumMap(Column(t, c)) - if c == b then charge else 0
  {
    if c == b {
      DrainedColumn(t, b, charge);
    } else {
      OtherColumns(t, b, charge, c);
    }
  }

  lemma OtherColumns(t: Table, b: string, charge: int, c: string)
    requires Proper(t) && c != b
    ensures Column(Drained(t, b, charge), c) == Column(t, c)
  {
    forall s | s in t && c in t[s]
      ensures c in RowLeft(t, b, charge, s) && RowLeft(t, b, charge, s)[c] == t[s][c]
    {
    }
  }

  lemma ColumnPositive(t: Table, c: string)
    requires Proper(t)
    ensures forall s <- Column(t, c) :: Column(t, c)[s] > 0
  {
  }

  lemma DrainedColumn(t: Table, b: string, charge: int)
    requires Proper(t) && 0 <= charge <= SumMap(Column(t, b))
    ensures SumMap(Column(Drained(t, b, charge), b)) == SumMap(Column(t, b)) - charge
  {
    hide SumMap;
    var before, after := Column(t, b), Column(Drained(t, b, charge), b);
    var taken := AllTaken(before, b, charge);
    ColumnPositive(t, b);
    TakenSum(before, b, charge);
    forall s | s in before
      ensures At(after, s) == before[s] - taken[s]
    {
      DrainedCells(t, b, charge, s, b);
      ColumnCells(t, b);
      ColumnCells(Drained(t, b, charge), b);
    }
    ColumnLeft(before, taken, after);
  }

  lemma {:induction false} ColumnLeft(before: map<string, int>, taken: map<string, int>, after: map<string, int>)
    requires before.Keys == taken.Keys && after.Keys <= before.Keys
    requires forall s <- before :: At(after, s) == before[s] - taken[s]
    ensures SumMap(after) == SumMap(before) - SumMap(taken)
    decreases before
  {
    if before == map[] {
      assert after == map[] && taken == map[];
    } else {
      var s :| s in before;
      assert s in taken;
      SumRemove(before, s);
      SumRemove(taken, s);
      SumDrop(after, s);
      ColumnLeft(before - {s}, taken - {s}, after - {s});
    }
  }

  // ---------------------------------------------------------------- over every run

  lemma PendingElsewhere(v: Books, w: Books, b: string, c: string)
    requires w.tx == v.tx - {b} && w.spawn == v.spawn - {b} && w.residency == v.residency - {b}
    ensures Pending(w, c) == if c == b then 0 else Pending(v, c)
  {
  }

  lemma SettlementKeepsInv(v: Books, b: string, ratio: int)
    requires Inv(v)
    ensures Inv(Settlement(v, b, ratio).0)
  {
    var w := Settlement(v, b, ratio).0;
    if Settlement(v, b, ratio).1.Settled? {
      DrainingKeepsInv(v, b, w);
    }
  }

  lemma DrainingKeepsInv(v: Books, b: string, w: Books)
    requires Inv(v)
    requires w.ledger == Drained(v.ledger, b, Pending(v, b))
    requires w.tx == v.tx - {b} && w.spawn == v.spawn - {b} && w.residency == v.residency - {b}
    ensures Inv(w)
  {
    hide SumMap;
    var charge := Pending(v, b);
    PendingNonNegative(v, b);
    assert charge <= Balance(v, b);
    DrainedCells(v.ledger, b, charge, b, b);
    forall c
      ensures Pending(w, c) <= Balance(w, c)
    {
      DrainedColumns(v.ledger, b, charge, c);
      PendingElsewhere(v, w, b, c);
      assert Pending(v, c) <= Balance(v, c);
    }
  }

  lemma LedgerStepKeepsInv(v: Books, s: string, b: string, change: int, w: Books)
    requires Inv(v) && Cell(v.ledger, s, b) + change >= 0 && Pending(v, b) <= Balance(v, b) + change
    requires w == v.(ledger := Put(v.ledger, s, b, Cell(v.ledger, s, b) + change), executed := w.executed)
    ensures Inv(w)
  {
    hide SumMap;
    PutIsProper(v.ledger, s, b, Cell(v.ledger, s, b) + change);
    forall c
      ensures Pending(w, c) <= Balance(w, c)
    {
      PutColumns(v.ledger, s, b, Cell(v.ledger, s, b) + change, c);
      assert Pending(w, c) == Pending(v, c) && Pending(v, c) <= Balance(v, c);
    }
  }

  lemma AccruedKeepsProper(t: Table, b: string, pid: string, fee: int)
    requires Proper(t) && fee > 0
    ensures Proper(Accrued(t, b, pid, fee))
  {
    assert pid in Row(Accrued(t, b, pid, fee), b);
  }

  lemma AccrualKeepsInv(v: Books, op: Op)
    requires Inv(v) && (op.UseOnce? || op.SpawnFee? || op.ResidencyFee?)
    ensures Inv(Next(v, op).0)
  {
    hide SumMap;
    var w := Next(v, op).0;
    if w != v {
      var b := if op.ResidencyFee? then op.pid else op.beneficiary;
      if op.UseOnce? {
        AccruedKeepsProper(v.tx, b, op.pid, op.fee);
      } else if op.SpawnFee? {
        AccruedKeepsProper(v.spawn, b, op.pid, op.fee);
      }
      forall c
        ensures Pending(w, c) <= Balance(w, c)
      {
        assert Pending(v, c) <= Balance(v, c);
        PendingAfterAccrual(v, op, c);
      }
    }
  }

  lemma PendingAfterAccrual(v: Books, op: Op, c: string)
    requires op.UseOnce? || op.SpawnFee? || op.ResidencyFee?
    requires !Next(v, op).1.Failed()
    ensures Pending(Next(v, op).0, c)
      == Pending(v, c) + if c == (if op.ResidencyFee? then op.pid else op.beneficiary) then op.fee else 0
  {
    hide SumMap;
    if op.UseOnce? {
      AccruedSum(v.tx, op.beneficiary, op.pid, op.fee, c);
    } else if op.SpawnFee? {
      AccruedSum(v.spawn, op.beneficiary, op.pid, op.fee, c);
    }
  }

  lemma ExecutedKeepsInv(v: Books, w: Books)
    requires Inv(v) && w == v.(executed := w.executed)
    ensures Inv(w)
  {
    hide SumMap;
    forall c
      ensures Pending(w, c) <= Balance(w, c)
    {
      assert Pending(v, c) <= Balance(v, c);
    }
  }

  lemma InvStep(v: Books, op: Op)
    requires Inv(v)
    ensures Inv(Next(v, op).0)
  {
    hide SumMap, Put, Accrued, Settlement, Pending, Balance, Proper, Cell;
    match op
    case Deposit(s, b, amount) =>
      if amount > 0 {
        CellNonNegative(v.ledger, s, b);
        assert Pending(v, b) <= Balance(v, b);
        LedgerStepKeepsInv(v, s, b, amount, Next(v, op).0);
      }
    case Withdraw(s, b, amount) =>
      if !Next(v, op).1.Failed() {
        LedgerStepKeepsInv(v, s, b, -amount, Next(v, op).0);
      }
    case SettleTxFee(b, ratio) =>
      SettlementKeepsInv(v, b, ratio);
    case NoticeOfDeposit(txHash, s, b, amount) =>
      var w := Next(v, op).0;
      if amount > 0 && txHash !in v.executed {
        CellNonNegative(v.ledger, s, b);
        assert Pending(v, b) <= Balance(v, b);
        LedgerStepKeepsInv(v, s, b, amount, w);
      } else {
        ExecutedKeepsInv(v, w);
      }
    case _ =>
      AccrualKeepsInv(v, op);
  }

  lemma CellNonNegative(t: Table, s: string, b: string)
    requires Proper(t)
    ensures Cell(t, s, b) >= 0
  {
  }

  lemma {:induction false} InvRun(v: Books, ops: seq<Op>)
    requires Inv(v)
    ensures Inv(Run(v, ops))
    decreases ops
  {
    if ops != [] {
      InvStep(v, ops[0]);
      InvRun(Next(v, ops[0]).0, ops[1..]);
    }
  }

  // After any run from empty books every beneficiary's pending fees are covered by its balance,
  // so a settlement with a valid ratio can neither find it short nor leave a remainder.
  lemma ReachableIsSolvent(ops: seq<Op>, b: string, ratio: int)
    ensures 0 <= Pending(Run(EMPTY_BOOKS, ops), b) <= Balance(Run(EMPTY_BOOKS, ops), b)
    ensures Settlement(Run(EMPTY_BOOKS, ops), b, ratio).1.Failed() <==> !ValidRatio(ratio)
  {
    hide SumMap;
    forall c
      ensures Pending(EMPTY_BOOKS, c) == Balance(EMPTY_BOOKS, c) == 0
    {
      SumEmpty(Column(EMPTY_BOOKS.ledger, c));
      SumEmpty(Row(EMPTY_BOOKS.tx, c));
    }
    InvRun(EMPTY_BOOKS, ops);
    PendingNonNegative(Run(EMPTY_BOOKS, ops), b);
  }

  // A failing operation changes nothing, except that a notice of deposit with a bad amount uses
  // up its transaction hash.
  lemma FailureChangesNothing(v: Books, op: Op)
    requires Next(v, op).1.Failed()
    ensures Next(v, op).0 == v
      <==> !(op.NoticeOfDeposit? && op.txHash !in v.executed)
    ensures Next(v, op).0 == v.(executed := Next(v, op).0.executed)
  {
  }

  // --------------------------------------------------------------------- the fees

  lemma RoundedDown(amount: int, ratio: int)
    requires amount > 0 && ratio >= 0
    ensures 0 <= amount * ratio - 10000 * (amount * ratio / 10000) <= 9999
    ensures ratio <= 10000 ==> 0 <= amount * ratio / 10000 <= amount
  {
    var product := amount * ratio;
    assert product >= 0;
    if ratio <= 10000 {
      assert product <= amount * 10000;
    }
  }

  // A sum of amounts and the fees taken from it, of so many processes.
  predicate Shared(sum: int, fees: int, count: nat, ratio: int) {
    0 <= fees <= sum && 0 <= sum * ratio - 10000 * fees <= 9999 * count
  }

  lemma {:induction false} FeesOfRow(row: map<string, int>, ratio: int)
    requires ValidRatio(ratio) && forall pid <- row :: row[pid] > 0
    ensures Shared(SumMap(row), SumMap(DevFees(row, ratio)), |row|, ratio)
    decreases row
  {
    if row == map[] {
      assert DevFees(row, ratio) == map[];
    } else {
      var pid :| pid in row;
      FeesOfRow(row - {pid}, ratio);
      SplitRow(row, pid, ratio);
      OneMoreFee(row[pid], SumMap(row - {pid}), SumMap(DevFees(row - {pid}, ratio)), |row - {pid}|, ratio);
    }
  }

  lemma SplitRow(row: map<string, int>, pid: string, ratio: int)
    requires pid in row && forall p <- row :: row[p] > 0
    ensures SumMap(row) == row[pid] + SumMap(row - {pid})
    ensures SumMap(DevFees(row, ratio)) == row[pid] * ratio / 10000 + SumMap(DevFees(row - {pid}, ratio))
    ensures |row| == |row - {pid}| + 1
  {
    hide SumMap;
    var rest := row - {pid};
    SumRemove(row, pid);
    SumRemove(DevFees(row, ratio), pid);
    assert DevFees(row, ratio) - {pid} == DevFees(rest, ratio);
    assert row.Keys == rest.Keys + {pid};
    assert |row.Keys| == |row| && |rest.Keys| == |rest|;
  }

  lemma OneMoreFee(amount: int, sum: int, fees: int, count: nat, ratio: int)
    requires amount > 0 && ValidRatio(ratio) && Shared(sum, fees, count, ratio)
    ensures Shared(amount + sum, amount * ratio / 10000 + fees, count + 1, ratio)
  {
    RoundedDown(amount, ratio);
    assert (amount + sum) * ratio == amount * ratio + sum * ratio;
  }

  // What a settlement pays out is what it charges: the node's fee and the developers' fees
  // together are the pending total, and rounding leaves the node less than one unit a process.
  lemma FeesAreTheCharge(v: Books, b: string, ratio: int)
    requires Inv(v) && Settlement(v, b, ratio).1.Settled?
    ensures var out := Settlement(v, b, ratio).1;
      && out.nodeFee >= 0
      && out.nodeFee + SumMap(out.devFees) == Pending(v, b)
      && Pending(v, b) == Balance(v, b) - Balance(Settlement(v, b, ratio).0, b)
      && Shared(SumMap(Row(v.tx, b)), SumMap(out.devFees), |Row(v.tx, b)|, ratio)
    ensures forall c :: c != b ==> Column(Settlement(v, b, ratio).0.ledger, c) == Column(v.ledger, c)
    ensures forall c :: Pending(Settlement(v, b, ratio).0, c) == if c == b then 0 else Pending(v, c)
  {
    hide SumMap;
    PendingNonNegative(v, b);
    FeesOfRow(Row(v.tx, b), ratio);
    DrainedColumns(v.ledger, b, Pending(v, b), b);
    RowSum(v.spawn, b);
    var w := Settlement(v, b, ratio).0;
    forall c | c != b
      ensures Column(w.ledger, c) == Column(v.ledger, c)
    {
      OtherColumns(v.ledger, b, Pending(v, b), c);
    }
    forall c
      ensures Pending(w, c) == if c == b then 0 else Pending(v, c)
    {
      PendingElsewhere(v, w, b, c);
    }
  }
}
