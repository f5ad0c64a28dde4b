/** What every operation does to the cells of the payment store's books, and what a balance and a pending total
    add up to over a run. */
module PayEffects {
  import opened Sums
  import opened PayLedger

  // Tables that differ at one cell only, by d.
  ghost predicate Changed(t: Table, u: Table, row: string, column: string, d: int) {
    forall r, c :: Cell(u, r, c) == Cell(t, r, c) + if r == row && c == column then d else 0
  }

  // A deposit of a positive amount raises exactly its cell. A notice does so when its hash is new, and uses the
  // hash up in any case.
  lemma DepositRaises(v: Books, s: string, b: string, amount: int, txHash: string)
    ensures var (w, out) := Next(v, Deposit(s, b, amount));
      && (out.Done? <==> amount > 0) && w == v.(ledger := w.ledger)
      && Changed(v.ledger, w.ledger, s, b, if amount > 0 then amount else 0)
      && (!out.Done? ==> w == v && out == InvalidAmount)
    ensures var (w, out) := Next(v, NoticeOfDeposit(txHash, s, b, amount));
      && (out.Done? <==> txHash !in v.executed && amount > 0)
      && w == v.(ledger := w.ledger, executed := v.executed + {txHash})
      && Changed(v.ledger, w.ledger, s, b, if out.Done? then amount else 0)
      && (!out.Done? ==> out == if txHash in v.executed then AlreadyExecuted else InvalidAmount)
  {
    hide Put, Cell;
    forall r, c
      ensures Cell(Put(v.ledger, s, b, Cell(v.ledger, s, b) + amount), r, c)
           == Cell(v.ledger, r, c) + if r == s && c == b then amount else 0
    {
      PutCells(v.ledger, s, b, Cell(v.ledger, s, b) + amount, r, c);
    }
    assert txHash in v.executed ==> v.executed + {txHash} == v.executed;
  }

  // A withdrawal is done exactly when its amount is positive, in its cell, and not needed for what is pending. Then
  // it lowers exactly that cell.
  lemma WithdrawLowers(v: Books, s: string, b: string, amount: int)
    ensures var (w, out) := Next(v, Withdraw(s, b, amount));
      && (out.Done? <==> 0 < amount <= Cell(v.ledger, s, b) && amount <= Balance(v, b) - Pending(v, b))
      && w == v.(ledger := w.ledger)
      && Changed(v.ledger, w.ledger, s, b, if out.Done? then -amount else 0)
      && (!out.Done? ==> out == if amount <= 0 then InvalidAmount
                                else if Cell(v.ledger, s, b) < amount then Insufficient else PendingLocked)
  {
    hide Put, Cell, SumMap;
    forall r, c
      ensures Cell(Put(v.ledger, s, b, Cell(v.ledger, s, b) - amount), r, c)
           == Cell(v.ledger, r, c) - if r == s && c == b then amount else 0
    {
      PutCells(v.ledger, s, b, Cell(v.ledger, s, b) - amount, r, c);
    }
  }

  // A fee is taken exactly when it is positive and the beneficiary is named and covers it. It is noted for that
  // beneficiary, and under the process where there is one, in the table of its kind and in no other.
  lemma FeesAccrue(v: Books, b: string, pid: string, fee: int)
    ensures var (w, out) := Next(v, UseOnce(b, pid, fee));
      && out == Answer(v, b, fee) && w == v.(tx := w.tx)
      && Changed(v.tx, w.tx, b, pid, if out.Done? then fee else 0) && (!out.Done? ==> w == v)
    ensures var (w, out) := Next(v, SpawnFee(b, pid, fee));
      && out == Answer(v, b, fee) && w == v.(spawn := w.spawn)
      && Changed(v.spawn, w.spawn, b, pid, if out.Done? then fee else 0) && (!out.Done? ==> w == v)
    ensures var (w, out) := Next(v, ResidencyFee(b, fee));
      && out == Answer(v, b, fee) && w == v.(residency := w.residency) && (!out.Done? ==> w == v)
      && forall x :: At(w.residency, x) == At(v.residency, x) + if out.Done? && x == b then fee else 0
  {
    hide SumMap;
    AccruedCells(v.tx, b, pid, fee);
    AccruedCells(v.spawn, b, pid, fee);
  }

  ghost function Answer(v: Books, b: string, fee: int): Outcome {
    if fee <= 0 then InvalidAmount
    else if b == "" || Balance(v, b) - Pending(v, b) < fee then Insufficient
    else Done
  }

  lemma AccruedCells(t: Table, b: string, pid: string, fee: int)
    ensures Changed(t, Accrued(t, b, pid, fee), b, pid, fee)
  {
  }

  // On covered books a settlement is made exactly when the ratio is one and something is pending. It pays every
  // process its share of the transaction fees noted for it, rounded down, and leaves nothing noted for the
  // beneficiary; what is noted for others stays.
  lemma SettlementShares(v: Books, b: string, ratio: int, pid: string)
    requires Inv(v)
    ensures var (w, out) := Next(v, SettleTxFee(b, ratio));
      && (out.Settled? <==> 0 <= ratio <= 10000 && Pending(v, b) != 0)
      && (out.Settled? ==>
            && w.executed == v.executed
            && (forall x :: Cell(w.tx, x, pid) == if x == b then 0 else Cell(v.tx, x, pid))
            && (forall x :: Cell(w.spawn, x, pid) == if x == b then 0 else Cell(v.spawn, x, pid))
            && (forall x :: At(w.residency, x) == if x == b then 0 else At(v.residency, x))
            && var fee, noted := At(out.devFees, pid), Cell(v.tx, b, pid);
               10000 * fee <= noted * ratio < 10000 * (fee + 1))
      && (!out.Settled? ==> w == v && out == if 0 <= ratio <= 10000 then NothingPending else InvalidRatio)
  {
    hide SumMap;
    assert Pending(v, b) <= Balance(v, b);
    PendingNonNegative(v, b);
    var noted := Cell(v.tx, b, pid);
    if noted > 0 && 0 <= ratio <= 10000 { RoundedDown(noted, ratio); }
  }

  // Who pays for it: first the beneficiary's own deposit, as far as it goes; then the sponsors by name, each only
  // when everyone before has nothing left. No cell of another beneficiary changes. (The cells fall by the charge in
  // all: FeesAreTheCharge.)
  lemma OwnDepositFirst(v: Books, b: string, ratio: int, s: string, c: string)
    requires Inv(v)
    ensures var (w, out) := Next(v, SettleTxFee(b, ratio));
      var before, after := Cell(v.ledger, s, c), Cell(w.ledger, s, c);
      && (c != b || !out.Settled? ==> after == before)
      && 0 <= after <= before
      && (c == s == b && out.Settled? ==> after == Max(0, before - Pending(v, b)))
      && (c == b != s && after < before ==>
            && Cell(w.ledger, b, b) == 0
            && forall o :: Less(o, s) ==> Cell(w.ledger, o, b) == 0)
  {
    hide SumMap, Discharged, Less;
    var w := Next(v, SettleTxFee(b, ratio)).0;
    assert Pending(v, b) <= Balance(v, b);
    PendingNonNegative(v, b);
    if Next(v, SettleTxFee(b, ratio)).1.Settled? {
      SettledCells(v, b, s, c);
      if s == b == c && b in Column(v.ledger, b) {
        OwnShare(Column(v.ledger, b), b, Pending(v, b));
      }
      if s != b == c && Cell(w.ledger, s, b) < Cell(v.ledger, s, b) {
        forall o | o == b || Less(o, s)
          ensures Cell(w.ledger, o, b) == 0
        {
          EarlierHasNothingLeft(v, b, s, o);
        }
      }
    }
  }

  lemma SettledCells(v: Books, b: string, s: string, c: string)
    requires Inv(v) && 0 <= Pending(v, b)
    ensures var w, taken := Discharged(v, b, Pending(v, b)), Column(v.ledger, b);
      && Cell(w.ledger, s, c)
         == Cell(v.ledger, s, c) - (if c == b && s in taken then Taken(taken, b, Pending(v, b), s) else 0)
      && 0 <= Cell(w.ledger, s, c) <= Cell(v.ledger, s, c)
      && (s in taken <==> Cell(v.ledger, s, b) > 0) && (s in taken ==> taken[s] == Cell(v.ledger, s, b))
  {
    hide SumMap, Drained, Taken;
    DrainedCells(v.ledger, b, Pending(v, b), s, c);
    if c == b && s in Column(v.ledger, b) { TakenBounds(Column(v.ledger, b), b, Pending(v, b), s); }
  }

  lemma OwnShare(column: map<string, int>, b: string, charge: int)
    requires charge >= 0 && b in column && column[b] > 0
    ensures column[b] - Taken(column, b, charge, b) == Max(0, column[b] - charge)
  {
    assert Earlier(column, b, b) == map[];
    SumEmpty(Earlier(column, b, b));
  }

  lemma EarlierHasNothingLeft(v: Books, b: string, s: string, o: string)
    requires Inv(v) && 0 <= Pending(v, b) && s != b && (o == b || Less(o, s))
    requires Cell(Discharged(v, b, Pending(v, b)).ledger, s, b) < Cell(v.ledger, s, b)
    ensures Cell(Discharged(v, b, Pending(v, b)).ledger, o, b) == 0
  {
    hide Discharged, Cell, Taken, Less;
    SettledCells(v, b, s, b);
    SettledCells(v, b, o, b);
    if o in Column(v.ledger, b) {
      LessTotal(s, s);
      PrefixIsDrained(Column(v.ledger, b), b, Pending(v, b), o, s);
    }
  }

  // ------------------------------------------------------------------------------- over a run

  // What an operation brings to a beneficiary's balance, and to its pending total.
  ghost function Brings(v: Books, op: Op, b: string): int {
    var out := Next(v, op).1;
    match op
    case Deposit(_, x, amount) => if out.Done? && x == b then amount else 0
    case NoticeOfDeposit(_, _, x, amount) => if out.Done? && x == b then amount else 0
    case Withdraw(_, x, amount) => if out.Done? && x == b then -amount else 0
    case SettleTxFee(x, _) => if out.Settled? && x == b then -(out.nodeFee + SumMap(out.devFees)) else 0
    case _ => 0
  }

  ghost function Notes(v: Books, op: Op, b: string): int {
    var out := Next(v, op).1;
    match op
    case UseOnce(x, _, fee) => if out.Done? && x == b then fee else 0
    case SpawnFee(x, _, fee) => if out.Done? && x == b then fee else 0
    case ResidencyFee(x, fee) => if out.Done? && x == b then fee else 0
    case SettleTxFee(x, _) => if out.Settled? && x == b then -(out.nodeFee + SumMap(out.devFees)) else 0
    case _ => 0
  }

  ghost function Brought(v: Books, ops: seq<Op>, b: string): int
    decreases ops
  {
    if ops == [] then 0 else Brings(v, ops[0], b) + Brought(Next(v, ops[0]).0, ops[1..], b)
  }

  ghost function Noted(v: Books, ops: seq<Op>, b: string): int
    decreases ops
  {
    if ops == [] then 0 else Notes(v, ops[0], b) + Noted(Next(v, ops[0]).0, ops[1..], b)
  }

  lemma LedgerOpBrings(v: Books, op: Op, b: string)
    requires op.Deposit? || op.NoticeOfDeposit? || op.Withdraw?
    ensures Balance(Next(v, op).0, b) == Balance(v, b) + Brings(v, op, b)
    ensures Pending(Next(v, op).0, b) == Pending(v, b) + Notes(v, op, b)
  {
    hide SumMap, Put, Cell;
    match op
    case Deposit(s, x, amount) => PutColumns(v.ledger, s, x, Cell(v.ledger, s, x) + amount, b);
    case NoticeOfDeposit(_, s, x, amount) => PutColumns(v.ledger, s, x, Cell(v.ledger, s, x) + amount, b);
    case Withdraw(s, x, amount) => PutColumns(v.ledger, s, x, Cell(v.ledger, s, x) - amount, b);
  }

  lemma FeeOpBrings(v: Books, op: Op, b: string)
    requires op.UseOnce? || op.SpawnFee? || op.ResidencyFee?
    ensures Balance(Next(v, op).0, b) == Balance(v, b) + Brings(v, op, b)
    ensures Pending(Next(v, op).0, b) == Pending(v, b) + Notes(v, op, b)
  {
    hide SumMap, Accrued, Covers;
    match op
    case UseOnce(x, pid, fee) => AccruedSum(v.tx, x, pid, fee, b);
    case SpawnFee(x, pid, fee) => AccruedSum(v.spawn, x, pid, fee, b);
    case ResidencyFee(x, fee) =>
  }

  lemma OpBrings(v: Books, op: Op, b: string)
    requires Inv(v)
    ensures Balance(Next(v, op).0, b) == Balance(v, b) + Brings(v, op, b)
    ensures Pending(Next(v, op).0, b) == Pending(v, b) + Notes(v, op, b)
  {
    hide *;
    if op.SettleTxFee? {
      SettlementBrings(v, op.beneficiary, op.ratio, b);
    } else if op.UseOnce? || op.SpawnFee? || op.ResidencyFee? {
      FeeOpBrings(v, op, b);
    } else {
      LedgerOpBrings(v, op, b);
    }
  }

  lemma SettlementBrings(v: Books, x: string, ratio: int, b: string)
    requires Inv(v)
    ensures Balance(Next(v, SettleTxFee(x, ratio)).0, b) == Balance(v, b) + Brings(v, SettleTxFee(x, ratio), b)
    ensures Pending(Next(v, SettleTxFee(x, ratio)).0, b) == Pending(v, b) + Notes(v, SettleTxFee(x, ratio), b)
  {
    hide SumMap, DevFees, Discharged, Inv, Drained;
    if Settlement(v, x, ratio).1.Settled? {
      FeesAreTheCharge(v, x, ratio);
    }
  }

  // Over any run from empty books a balance is what was deposited for the beneficiary, less what was withdrawn and
  // what its settlements paid out; and what is pending is the fees taken, less what its settlements paid out.
  lemma {:induction false} BalanceAddsUp(v: Books, ops: seq<Op>, b: string)
    requires Inv(v)
    ensures Balance(Run(v, ops), b) == Balance(v, b) + Brought(v, ops, b)
    ensures Pending(Run(v, ops), b) == Pending(v, b) + Noted(v, ops, b)
    decreases ops
  {
    hide Next, Brings, Notes, Inv, Balance, Pending;
    if ops != [] {
      OpBrings(v, ops[0], b);
      InvStep(v, ops[0]);
      BalanceAddsUp(Next(v, ops[0]).0, ops[1..], b);
    }
  }

  lemma BalanceFromEmpty(ops: seq<Op>, b: string)
    ensures Balance(Run(EMPTY_BOOKS, ops), b) == Brought(EMPTY_BOOKS, ops, b)
    ensures Pending(Run(EMPTY_BOOKS, ops), b) == Noted(EMPTY_BOOKS, ops, b)
  {
    hide Next;
    EmptyBooks();
    BalanceAddsUp(EMPTY_BOOKS, ops, b);
  }

  lemma EmptyBooks()
    ensures Inv(EMPTY_BOOKS) && forall b :: Balance(EMPTY_BOOKS, b) == Pending(EMPTY_BOOKS, b) == 0
  {
    hide SumMap;
    forall b
      ensures Balance(EMPTY_BOOKS, b) == Pending(EMPTY_BOOKS, b) == 0
    {
      SumEmpty(Column(EMPTY_BOOKS.ledger, b));
      SumEmpty(Row(EMPTY_BOOKS.tx, b));
    }
  }
}
