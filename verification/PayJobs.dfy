/** The jobs above the store: settling everything that is pending, and taking in deposits. */
module PayJobs {
  import opened Sums
  import opened PayLedger
  import opened PayStore

  // The books once the beneficiaries in `done` have been settled.
  ghost predicate SettledSome(v: Books, w: Books, done: set<string>) {
    && w.tx == v.tx - done && w.spawn == v.spawn - done && w.residency == v.residency - done
    && w.executed == v.executed && Proper(w.ledger)
    && forall s, b :: Cell(w.ledger, s, b) == CellAfter(v, done, s, b)
  }

  ghost function CellAfter(v: Books, done: set<string>, s: string, b: string): int {
    var column := Column(v.ledger, b);
    Cell(v.ledger, s, b) - if b in done && s in column then Taken(column, b, Pending(v, b), s) else 0
  }

  ghost function Charges(v: Books, done: set<string>): map<string, int> {
    map b | b in done :: Pending(v, b)
  }

  ghost function NodeFees(v: Books, ratio: int, done: set<string>): map<string, int> {
    map b | b in done :: Pending(v, b) - SumMap(DevFees(Row(v.tx, b), ratio))
  }

  // What each beneficiary owes the developer of one process.
  ghost function FeesTo(v: Books, ratio: int, done: set<string>, pid: string): map<string, int> {
    map b | b in done :: At(DevFees(Row(v.tx, b), ratio), pid)
  }

  // Cells and properness leave only one table.
  lemma CellsDetermine(t: Table, u: Table)
    requires Proper(t) && Proper(u) && forall s, b :: Cell(t, s, b) == Cell(u, s, b)
    ensures t == u
  {
    forall s
      ensures Row(t, s) == Row(u, s) && (s in t <==> s in u)
    {
      RowsDetermine(Row(t, s), Row(u, s), t, u, s);
    }
  }

  lemma RowsDetermine(r: map<string, int>, q: map<string, int>, t: Table, u: Table, s: string)
    requires Proper(t) && Proper(u) && r == Row(t, s) && q == Row(u, s)
    requires forall b :: Cell(t, s, b) == Cell(u, s, b)
    ensures r == q && (s in t <==> s in u)
  {
    forall b
      ensures (b in r <==> b in q) && At(r, b) == At(q, b)
    {
      assert Cell(t, s, b) == Cell(u, s, b);
    }
    assert r == q;
  }

  lemma SameColumn(t: Table, u: Table, b: string)
    requires Proper(t) && Proper(u) && forall s :: Cell(t, s, b) == Cell(u, s, b)
    ensures Column(t, b) == Column(u, b)
  {
    forall s
      ensures (s in Column(t, b) <==> s in Column(u, b)) && At(Column(t, b), s) == At(Column(u, b), s)
    {
      assert Cell(t, s, b) == Cell(u, s, b);
    }
  }

  lemma SettleOneMore(v: Books, w: Books, done: set<string>, b: string)
    requires Inv(v) && SettledSome(v, w, done) && b !in done
    ensures Pending(w, b) == Pending(v, b) && Row(w.tx, b) == Row(v.tx, b)
    ensures Column(w.ledger, b) == Column(v.ledger, b)
    ensures SettledSome(v, Discharged(w, b, Pending(w, b)), done + {b})
  {
    hide SumMap;
    assert Row(w.tx, b) == Row(v.tx, b) && Row(w.spawn, b) == Row(v.spawn, b);
    assert Pending(w, b) == Pending(v, b);
    forall s
      ensures Cell(w.ledger, s, b) == Cell(v.ledger, s, b)
    {
      assert Cell(w.ledger, s, b) == CellAfter(v, done, s, b);
    }
    SameColumn(w.ledger, v.ledger, b);
    DischargeOneMore(v, w, done, b);
  }

  lemma DischargeOneMore(v: Books, w: Books, done: set<string>, b: string)
    requires SettledSome(v, w, done) && b !in done
    requires Pending(w, b) == Pending(v, b) && Column(w.ledger, b) == Column(v.ledger, b)
    ensures SettledSome(v, Discharged(w, b, Pending(w, b)), done + {b})
  {
    hide SumMap, Taken, Drained, Column, Pending;
    var x := Discharged(w, b, Pending(w, b));
    forall s, c
      ensures Cell(x.ledger, s, c) == CellAfter(v, done + {b}, s, c) && Proper(x.ledger)
    {
      DrainedCells(w.ledger, b, Pending(w, b), s, c);
      assert Cell(w.ledger, s, c) == CellAfter(v, done, s, c);
    }
    assert Proper(x.ledger) by { DrainedCells(w.ledger, b, Pending(w, b), b, b); }
  }

  method AddFees(totals: map<string, int>, fees: map<string, int>) returns (out: map<string, int>)
    requires forall pid <- fees :: fees[pid] >= 0
    ensures forall pid :: At(out, pid) == At(totals, pid) + At(fees, pid)
    ensures SumMap(out) == SumMap(totals) + SumMap(fees)
    ensures (forall pid <- totals :: totals[pid] > 0) ==> out == MergedFees(totals, fees)
  {
    hide SumMap, MergedFees;
    out := totals;
    var left := fees;
    while left != map[]
      invariant left.Keys <= fees.Keys && forall pid <- left :: left[pid] == fees[pid]
      invariant forall pid :: At(out, pid) == At(totals, pid) + if pid in left then 0 else At(fees, pid)
      invariant SumMap(out) + SumMap(left) == SumMap(totals) + SumMap(fees)
      invariant (forall pid <- totals :: totals[pid] > 0) ==> forall pid <- out :: out[pid] > 0
      decreases |left|
    {
      var pid :| pid in left;
      SumDrop(left, pid);
      if left[pid] != 0 {
        SumUpdate(out, pid, At(out, pid) + left[pid]);
        out := out[pid := At(out, pid) + left[pid]];
      }
      left := left - {pid};
    }
    SumEmpty(left);
    if forall pid <- totals :: totals[pid] > 0 { MergedIs(totals, fees, out); }
  }

  // Totals and fees per process put together, without the processes that get nothing.
  function MergedFees(totals: map<string, int>, fees: map<string, int>): map<string, int> {
    map pid | pid in totals.Keys + fees.Keys && At(totals, pid) + At(fees, pid) != 0 :: At(totals, pid) + At(fees, pid)
  }

  lemma MergedIs(totals: map<string, int>, fees: map<string, int>, out: map<string, int>)
    requires forall pid :: At(out, pid) == At(totals, pid) + At(fees, pid)
    requires forall pid <- out :: out[pid] > 0
    ensures out == MergedFees(totals, fees)
  {
    var merged := MergedFees(totals, fees);
    forall pid
      ensures (pid in out <==> pid in merged) && At(out, pid) == At(merged, pid)
    {
      assert At(out, pid) == At(totals, pid) + At(fees, pid);
    }
  }

  lemma MergedAt(totals: map<string, int>, fees: map<string, int>)
    ensures forall pid :: At(MergedFees(totals, fees), pid) == At(totals, pid) + At(fees, pid)
  {
  }

  lemma {:induction false} MergedSum(totals: map<string, int>, fees: map<string, int>)
    requires (forall pid <- totals :: totals[pid] > 0) && (forall pid <- fees :: fees[pid] >= 0)
    ensures SumMap(MergedFees(totals, fees)) == SumMap(totals) + SumMap(fees)
    ensures forall pid <- MergedFees(totals, fees) :: MergedFees(totals, fees)[pid] > 0
    decreases |fees|
  {
    hide SumMap, MergedFees;
    if fees == map[] {
      SumEmpty(fees);
      MergedIs(totals, fees, totals);
    } else {
      var pid :| pid in fees;
      var more := if fees[pid] == 0 then totals else totals[pid := At(totals, pid) + fees[pid]];
      SumDrop(fees, pid);
      SumUpdate(totals, pid, At(totals, pid) + fees[pid]);
      MergedSum(more, fees - {pid});
      MergedAt(more, fees - {pid});
      MergedIs(totals, fees, MergedFees(more, fees - {pid}));
    }
  }

  // The totals once the beneficiaries in `done` have been settled.
  ghost predicate Totals(v: Books, ratio: int, done: set<string>, nodeFee: int, devFees: map<string, int>) {
    && nodeFee == SumMap(NodeFees(v, ratio, done))
    && (forall pid :: At(devFees, pid) == SumMap(FeesTo(v, ratio, done, pid)))
    && (forall pid <- devFees :: devFees[pid] > 0)
    && nodeFee + SumMap(devFees) == SumMap(Charges(v, done))
  }

  lemma NoTotals(v: Books, ratio: int)
    ensures Totals(v, ratio, {}, 0, map[])
  {
    SumEmpty(NodeFees(v, ratio, {}));
    SumEmpty(Charges(v, {}));
    SumEmpty<string>(map[]);
    forall pid
      ensures SumMap(FeesTo(v, ratio, {}, pid)) == 0
    {
      SumEmpty(FeesTo(v, ratio, {}, pid));
    }
  }

  lemma TotalsOneMore(v: Books, ratio: int, done: set<string>, b: string,
                      nodeFee: int, devFees: map<string, int>, more: map<string, int>)
    requires Totals(v, ratio, done, nodeFee, devFees) && b !in done
    requires forall pid :: At(more, pid) == At(devFees, pid) + At(DevFees(Row(v.tx, b), ratio), pid)
    requires SumMap(more) == SumMap(devFees) + SumMap(DevFees(Row(v.tx, b), ratio))
    requires forall pid <- more :: more[pid] > 0
    ensures Totals(v, ratio, done + {b}, nodeFee + Pending(v, b) - SumMap(DevFees(Row(v.tx, b), ratio)), more)
  {
    hide *;
    var fees := DevFees(Row(v.tx, b), ratio);
    TotalsAre(v, ratio, done, nodeFee, devFees);
    FeeSumsGrow(v, ratio, done, b);
    FeesOneMore(v, ratio, done, b, devFees, more);
    TotalsAre(v, ratio, done + {b}, nodeFee + Pending(v, b) - SumMap(fees), more);
  }

  lemma TotalsAre(v: Books, ratio: int, done: set<string>, nodeFee: int, devFees: map<string, int>)
    ensures Totals(v, ratio, done, nodeFee, devFees) <==>
      && nodeFee == SumMap(NodeFees(v, ratio, done))
      && (forall pid :: At(devFees, pid) == SumMap(FeesTo(v, ratio, done, pid)))
      && (forall pid <- devFees :: devFees[pid] > 0)
      && nodeFee + SumMap(devFees) == SumMap(Charges(v, done))
  {
    hide SumMap, NodeFees, FeesTo, Charges, At;
  }

  lemma FeesOneMore(v: Books, ratio: int, done: set<string>, b: string, devFees: map<string, int>, more: map<string, int>)
    requires b !in done && forall pid :: At(devFees, pid) == SumMap(FeesTo(v, ratio, done, pid))
    requires forall pid :: At(more, pid) == At(devFees, pid) + At(DevFees(Row(v.tx, b), ratio), pid)
    ensures forall pid :: At(more, pid) == SumMap(FeesTo(v, ratio, done + {b}, pid))
  {
    hide SumMap, DevFees, FeesTo, At, Row;
    forall pid
      ensures At(more, pid) == SumMap(FeesTo(v, ratio, done + {b}, pid))
    {
      OwedOneMore(v, ratio, done, b, pid);
      assert At(devFees, pid) == SumMap(FeesTo(v, ratio, done, pid));
    }
  }

  lemma FeeSumsGrow(v: Books, ratio: int, done: set<string>, b: string)
    requires b !in done
    ensures SumMap(NodeFees(v, ratio, done + {b}))
      == SumMap(NodeFees(v, ratio, done)) + Pending(v, b) - SumMap(DevFees(Row(v.tx, b), ratio))
    ensures SumMap(Charges(v, done + {b})) == SumMap(Charges(v, done)) + Pending(v, b)
  {
    hide SumMap, Pending, DevFees;
    var fee := Pending(v, b) - SumMap(DevFees(Row(v.tx, b), ratio));
    assert NodeFees(v, ratio, done + {b}) == NodeFees(v, ratio, done)[b := fee];
    SumUpdate(NodeFees(v, ratio, done), b, fee);
    assert Charges(v, done + {b}) == Charges(v, done)[b := Pending(v, b)];
    SumUpdate(Charges(v, done), b, Pending(v, b));
  }

  lemma OwedOneMore(v: Books, ratio: int, done: set<string>, b: string, pid: string)
    requires b !in done
    ensures SumMap(FeesTo(v, ratio, done + {b}, pid))
      == SumMap(FeesTo(v, ratio, done, pid)) + At(DevFees(Row(v.tx, b), ratio), pid)
  {
    hide SumMap, DevFees;
    var owed := At(DevFees(Row(v.tx, b), ratio), pid);
    assert FeesTo(v, ratio, done + {b}, pid) == FeesTo(v, ratio, done, pid)[b := owed];
    SumUpdate(FeesTo(v, ratio, done, pid), b, owed);
  }

  lemma DevFeesNonNegative(v: Books, b: string, ratio: int)
    requires ValidRatio(ratio)
    ensures forall pid <- DevFees(Row(v.tx, b), ratio) :: DevFees(Row(v.tx, b), ratio)[pid] >= 0
  {
    forall pid | pid in DevFees(Row(v.tx, b), ratio)
      ensures DevFees(Row(v.tx, b), ratio)[pid] >= 0
    {
      RoundedDown(Row(v.tx, b)[pid], ratio);
    }
  }

  // -------------------------------------------------------------- settling all of them, among other calls

  // One turn of the loop: what other callers do to the books before it, and whom it settles.
  datatype Round = Round(meanwhile: seq<Op>, beneficiary: string)

  // The books when the last of some rounds comes to its settlement.
  ghost function BeforeLast(v: Books, ratio: int, rounds: seq<Round>): Books
    requires rounds != []
    decreases |rounds|, 0
  {
    Run(AfterRounds(v, ratio, rounds[..|rounds| - 1]), rounds[|rounds| - 1].meanwhile)
  }

  ghost function AfterRounds(v: Books, ratio: int, rounds: seq<Round>): Books
    decreases |rounds|, 1
  {
    if rounds == [] then v
    else Settlement(BeforeLast(v, ratio, rounds), rounds[|rounds| - 1].beneficiary, ratio).0
  }

  ghost function LastOutcome(v: Books, ratio: int, rounds: seq<Round>): Outcome
    requires rounds != []
  {
    Settlement(BeforeLast(v, ratio, rounds), rounds[|rounds| - 1].beneficiary, ratio).1
  }

  // What the settlements of some rounds pay out to the node and to each process, and what they charge.
  ghost function NodeTotal(v: Books, ratio: int, rounds: seq<Round>): int
    decreases |rounds|
  {
    if rounds == [] then 0 else
    NodeTotal(v, ratio, rounds[..|rounds| - 1])
    + match LastOutcome(v, ratio, rounds) case Settled(nodeFee, _) => nodeFee case _ => 0
  }

  ghost function DevTotal(v: Books, ratio: int, rounds: seq<Round>): map<string, int>
    decreases |rounds|
  {
    if rounds == [] then map[] else
    var before := DevTotal(v, ratio, rounds[..|rounds| - 1]);
    match LastOutcome(v, ratio, rounds) case Settled(_, devFees) => MergedFees(before, devFees) case _ => before
  }

  // What is pending for each beneficiary at the moment it is settled.
  ghost function Charged(v: Books, ratio: int, rounds: seq<Round>): int
    decreases |rounds|
  {
    if rounds == [] then 0 else
    Charged(v, ratio, rounds[..|rounds| - 1])
    + Pending(BeforeLast(v, ratio, rounds), rounds[|rounds| - 1].beneficiary)
  }

  lemma InvOfRounds(v: Books, ratio: int, rounds: seq<Round>)
    requires Inv(v)
    ensures Inv(AfterRounds(v, ratio, rounds))
    ensures rounds != [] ==> Inv(BeforeLast(v, ratio, rounds))
    decreases |rounds|
  {
    hide Inv, Settlement;
    if rounds != [] {
      InvOfRounds(v, ratio, rounds[..|rounds| - 1]);
      InvRun(AfterRounds(v, ratio, rounds[..|rounds| - 1]), rounds[|rounds| - 1].meanwhile);
      SettlementKeepsInv(BeforeLast(v, ratio, rounds), rounds[|rounds| - 1].beneficiary, ratio);
    }
  }

  // Whatever others do in between, no settlement fails, each leaves nothing pending for its beneficiary, and
  // what is paid out to the node and the developers together is what was charged.
  lemma {:induction false} InterruptedAddsUp(v: Books, ratio: int, rounds: seq<Round>)
    requires Inv(v) && ValidRatio(ratio)
    ensures rounds != [] ==> !LastOutcome(v, ratio, rounds).Failed()
    ensures rounds != [] ==> Pending(AfterRounds(v, ratio, rounds), rounds[|rounds| - 1].beneficiary) == 0
    ensures NodeTotal(v, ratio, rounds) + SumMap(DevTotal(v, ratio, rounds)) == Charged(v, ratio, rounds)
    ensures forall pid <- DevTotal(v, ratio, rounds) :: DevTotal(v, ratio, rounds)[pid] > 0
    decreases |rounds|
  {
    hide SumMap, Pending, Inv, MergedFees, DevFees, Discharged, Balance;
    if rounds == [] {
      SumEmpty<string>(map[]);
    } else {
      var w, b := BeforeLast(v, ratio, rounds), rounds[|rounds| - 1].beneficiary;
      InterruptedAddsUp(v, ratio, rounds[..|rounds| - 1]);
      InvOfRounds(v, ratio, rounds);
      IsCovered(w, b);
      if Pending(w, b) != 0 {
        FeesAreTheCharge(w, b, ratio);
        DevFeesNonNegative(w, b, ratio);
        MergedSum(DevTotal(v, ratio, rounds[..|rounds| - 1]), DevFees(Row(w.tx, b), ratio));
      }
    }
  }

  lemma IsCovered(w: Books, b: string)
    requires Inv(w)
    ensures Pending(w, b) <= Balance(w, b)
  {
  }

  ghost predicate Undisturbed(rounds: seq<Round>) {
    Apart(rounds) && forall i :: 0 <= i < |rounds| ==> rounds[i].meanwhile == []
  }

  // Nobody is settled twice.
  ghost predicate Apart(rounds: seq<Round>) {
    forall i, j :: 0 <= i < j < |rounds| ==> rounds[i].beneficiary != rounds[j].beneficiary
  }

  ghost function Settlers(rounds: seq<Round>): set<string> {
    set i | 0 <= i < |rounds| :: rounds[i].beneficiary
  }

  // When nobody comes in between, every cell is what its beneficiary's settlement leaves, and the totals are
  // the sums over all beneficiaries.
  lemma {:induction false} UndisturbedSettlesAll(v: Books, ratio: int, rounds: seq<Round>)
    requires Inv(v) && ValidRatio(ratio) && Undisturbed(rounds) && Settlers(rounds) <= AllPendingOf(v).Keys
    ensures SettledSome(v, AfterRounds(v, ratio, rounds), Settlers(rounds))
    ensures Totals(v, ratio, Settlers(rounds), NodeTotal(v, ratio, rounds), DevTotal(v, ratio, rounds))
    ensures Settlers(rounds) == AllPendingOf(v).Keys ==>
      var w := AfterRounds(v, ratio, rounds); w.tx == map[] && w.spawn == map[] && w.residency == map[]
    decreases |rounds|
  {
    hide SumMap, Pending, DevFees, Balance, Totals, SettledSome, Inv, AllPendingOf, Discharged, MergedFees;
    if rounds == [] {
      NoTotals(v, ratio);
      NoneSettled(v);
      NoRounds(v, ratio);
    } else {
      var before, b := rounds[..|rounds| - 1], rounds[|rounds| - 1].beneficiary;
      var w := AfterRounds(v, ratio, before);
      LastSettler(rounds);
      UndisturbedSettlesAll(v, ratio, before);
      InvOfRounds(v, ratio, before);
      assert BeforeLast(v, ratio, rounds) == w;
      SettleOneMore(v, w, Settlers(before), b);
      IsSettled(v, w, b, ratio);
      MergeOneMore(v, ratio, before, b);
    }
    if Settlers(rounds) == AllPendingOf(v).Keys { AllSettled(v, AfterRounds(v, ratio, rounds)); }
  }

  lemma NoRounds(v: Books, ratio: int)
    ensures AfterRounds(v, ratio, []) == v && NodeTotal(v, ratio, []) == 0 && DevTotal(v, ratio, []) == map[]
    ensures Settlers([]) == {} && Apart([])
  {
  }

  lemma LastSettler(rounds: seq<Round>)
    requires rounds != [] && Undisturbed(rounds)
    ensures var before, b := rounds[..|rounds| - 1], rounds[|rounds| - 1].beneficiary;
      Undisturbed(before) && b !in Settlers(before) && Settlers(rounds) == Settlers(before) + {b}
  {
    var before, b := rounds[..|rounds| - 1], rounds[|rounds| - 1].beneficiary;
    assert rounds[|rounds| - 1].beneficiary in Settlers(rounds);
    forall x | x in Settlers(before) + {b}
      ensures x in Settlers(rounds)
    {
      if x != b {
        var i :| 0 <= i < |before| && before[i].beneficiary == x;
        assert rounds[i].beneficiary == x;
      }
    }
  }

  lemma MergeOneMore(v: Books, ratio: int, before: seq<Round>, b: string)
    requires ValidRatio(ratio) && b !in Settlers(before)
    requires Totals(v, ratio, Settlers(before), NodeTotal(v, ratio, before), DevTotal(v, ratio, before))
    ensures var fees := DevFees(Row(v.tx, b), ratio);
      Totals(v, ratio, Settlers(before) + {b}, NodeTotal(v, ratio, before) + Pending(v, b) - SumMap(fees),
             MergedFees(DevTotal(v, ratio, before), fees))
  {
    hide SumMap, Pending, DevFees, NodeTotal, DevTotal, Settlers, MergedFees, Totals;
    var totals, fees := DevTotal(v, ratio, before), DevFees(Row(v.tx, b), ratio);
    DevFeesNonNegative(v, b, ratio);
    TotalsAre(v, ratio, Settlers(before), NodeTotal(v, ratio, before), totals);
    MergedSum(totals, fees);
    MergedAt(totals, fees);
    TotalsOneMore(v, ratio, Settlers(before), b, NodeTotal(v, ratio, before), totals, MergedFees(totals, fees));
  }

  method Perform(db: Pay, op: Op)
    requires Inv(db.View())
    modifies db
    ensures db.View() == Next(old(db.View()), op).0 && Inv(db.View())
  {
    hide SumMap, Inv;
    InvStep(db.View(), op);
    match op {
      case Deposit(s, b, amount) => var _ := db.Deposit(s, b, amount);
      case Withdraw(s, b, amount) => var _ := db.Withdraw(s, b, amount);
      case UseOnce(b, pid, fee) => var _ := db.UseOnce(b, pid, fee);
      case SpawnFee(b, pid, fee) => var _ := db.SpawnFee(b, pid, fee);
      case ResidencyFee(pid, fee) => var _ := db.ResidencyFee(pid, fee);
      case SettleTxFee(b, ratio) => var _ := db.SettleTxFee(b, ratio);
      case NoticeOfDeposit(txHash, s, b, amount) => var _ := HandleDeposit(db, txHash, s, b, amount);
    }
  }

  method PerformAll(db: Pay, ops: seq<Op>)
    requires Inv(db.View())
    modifies db
    ensures db.View() == Run(old(db.View()), ops) && Inv(db.View())
  {
    hide Inv, Next;
    for k := 0 to |ops|
      invariant Inv(db.View()) && Run(db.View(), ops[k..]) == Run(old(db.View()), ops)
    {
      assert ops[k..][1..] == ops[k + 1..];
      Perform(db, ops[k]);
    }
  }

  // Settles every beneficiary that has something pending at the start, in any order. What other callers do just
  // before a beneficiary's turn is given by `meanwhile`.
  method SettleAll(db: Pay, ratio: int, meanwhile: string -> seq<Op>)
    returns (totalNodeFee: int, totalDevFees: map<string, int>, ghost rounds: seq<Round>)
    requires Inv(db.View())
    modifies db
    ensures Inv(db.View()) && db.View() == AfterRounds(old(db.View()), ratio, rounds)
    ensures totalNodeFee == NodeTotal(old(db.View()), ratio, rounds)
    ensures totalDevFees == DevTotal(old(db.View()), ratio, rounds)
    ensures forall i :: 0 <= i < |rounds| ==> rounds[i].meanwhile == meanwhile(rounds[i].beneficiary)
    ensures Apart(rounds) && Settlers(rounds) == AllPendingOf(old(db.View())).Keys
  {
    hide SumMap, Pending, Inv, AllPendingOf, AfterRounds, NodeTotal, DevTotal, Settlers, Apart;
    totalNodeFee, totalDevFees, rounds := 0, map[], [];
    ghost var v := db.View();
    var all := db.AllPending();
    var left := all.Keys;
    NoRounds(v, ratio);
    while left != {}
      invariant Settlers(rounds) + left == all.Keys && Settlers(rounds) !! left && Inv(db.View())
      invariant forall i :: 0 <= i < |rounds| ==> rounds[i].meanwhile == meanwhile(rounds[i].beneficiary)
      invariant Apart(rounds)
      invariant db.View() == AfterRounds(v, ratio, rounds)
      invariant totalNodeFee == NodeTotal(v, ratio, rounds) && totalDevFees == DevTotal(v, ratio, rounds)
      invariant forall pid <- totalDevFees :: totalDevFees[pid] > 0
      decreases |left|
    {
      var b :| b in left;
      totalNodeFee, totalDevFees := SettleOne(db, b, ratio, meanwhile(b), v, rounds, totalNodeFee, totalDevFees);
      MoreSettlers(rounds, Round(meanwhile(b), b));
      rounds := rounds + [Round(meanwhile(b), b)];
      left := left - {b};
    }
  }

  lemma MoreSettlers(rounds: seq<Round>, r: Round)
    ensures Settlers(rounds + [r]) == Settlers(rounds) + {r.beneficiary}
    ensures Apart(rounds) && r.beneficiary !in Settlers(rounds) ==> Apart(rounds + [r])
  {
    var more := rounds + [r];
    assert more[|rounds|] == r;
    forall x | x in Settlers(rounds) + {r.beneficiary}
      ensures x in Settlers(more)
    {
      if x in Settlers(rounds) {
        var i :| 0 <= i < |rounds| && rounds[i].beneficiary == x;
        assert more[i].beneficiary == x;
      }
    }
  }

  lemma NoneSettled(v: Books)
    requires Inv(v)
    ensures SettledSome(v, v, {})
  {
  }

  // Settling all of them leaves no table.
  lemma AllSettled(v: Books, w: Books)
    requires SettledSome(v, w, AllPendingOf(v).Keys)
    ensures w.tx == map[] && w.spawn == map[] && w.residency == map[]
  {
  }

  // One round of the settlement loop.
  method SettleOne(db: Pay, b: string, ratio: int, meanwhile: seq<Op>, ghost v: Books, ghost rounds: seq<Round>,
                   nodeFee: int, devFees: map<string, int>)
    returns (totalNodeFee: int, totalDevFees: map<string, int>)
    requires Inv(db.View()) && db.View() == AfterRounds(v, ratio, rounds)
    requires nodeFee == NodeTotal(v, ratio, rounds) && devFees == DevTotal(v, ratio, rounds)
    requires forall pid <- devFees :: devFees[pid] > 0
    modifies db
    ensures Inv(db.View()) && db.View() == AfterRounds(v, ratio, rounds + [Round(meanwhile, b)])
    ensures totalNodeFee == NodeTotal(v, ratio, rounds + [Round(meanwhile, b)])
    ensures totalDevFees == DevTotal(v, ratio, rounds + [Round(meanwhile, b)])
    ensures forall pid <- totalDevFees :: totalDevFees[pid] > 0
  {
    hide SumMap, Pending, DevFees, Balance, Inv, Discharged, MergedFees;
    ghost var more := rounds + [Round(meanwhile, b)];
    assert more[..|rounds|] == rounds && more[|rounds|] == Round(meanwhile, b);
    totalNodeFee, totalDevFees := nodeFee, devFees;
    PerformAll(db, meanwhile);
    ghost var w := db.View();
    assert w == BeforeLast(v, ratio, more);
    SettlementKeepsInv(w, b, ratio);
    var out := db.SettleTxFee(b, ratio);
    if out.Settled? {
      DevFeesNonNegative(w, b, ratio);
      totalNodeFee := totalNodeFee + out.nodeFee;
      totalDevFees := AddFees(totalDevFees, out.devFees);
      MergedSum(devFees, out.devFees);
    }
  }

  lemma IsPositive(v: Books, w: Books, b: string)
    requires Inv(v) && Inv(w) && b in AllPendingOf(v)
    ensures Pending(v, b) > 0 && Pending(w, b) <= Balance(w, b)
  {
    PendingNonNegative(v, b);
  }

  lemma IsSettled(v: Books, w: Books, b: string, ratio: int)
    requires Inv(v) && Inv(w) && b in AllPendingOf(v) && ValidRatio(ratio)
    requires Pending(w, b) == Pending(v, b) && Row(w.tx, b) == Row(v.tx, b)
    ensures var fees := DevFees(Row(v.tx, b), ratio);
      Settlement(w, b, ratio) == (Discharged(w, b, Pending(w, b)), Settled(Pending(v, b) - SumMap(fees), fees))
  {
    hide SumMap, Pending, Balance, DevFees, Discharged, Inv, AllPendingOf, Row;
    IsPositive(v, w, b);
  }

  // ---------------------------------------------------------------------- deposits

  method HandleDeposit(db: Pay, txHash: string, sponsor: string, b: string, qty: int) returns (out: Outcome)
    requires Inv(db.View())
    modifies db
    ensures (db.View(), out) == Next(old(db.View()), NoticeOfDeposit(txHash, sponsor, b, qty))
  {
    hide SumMap;
    var executed := db.IsExecuted(txHash);
    if executed { return AlreadyExecuted; }
    ghost var w := db.View().(executed := db.View().executed + {txHash});
    var marked := db.MarkExecuted(txHash);
    assert db.View() == w;
    assert Inv(db.View()) by {
      forall c
        ensures Pending(w, c) <= Balance(w, c)
      {
        assert Pending(old(db.View()), c) <= Balance(old(db.View()), c);
      }
    }
    out := db.Deposit(sponsor, b, qty);
  }

  // What the i-th notice credits: its amount, if it is positive and no earlier notice used its hash.
  function Credit(executed: set<string>, notices: seq<Op>, i: nat, s: string, b: string): int
    requires i < |notices| && forall k :: 0 <= k < |notices| ==> notices[k].NoticeOfDeposit?
  {
    var n := notices[i];
    if n.sponsor == s && n.beneficiary == b && n.amount > 0 && n.txHash !in executed
       && forall k :: 0 <= k < i ==> notices[k].txHash != n.txHash
    then n.amount else 0
  }

  function Credits(executed: set<string>, notices: seq<Op>, upTo: nat, s: string, b: string): int
    requires upTo <= |notices| && forall k :: 0 <= k < |notices| ==> notices[k].NoticeOfDeposit?
  {
    if upTo == 0 then 0
    else Credits(executed, notices, upTo - 1, s, b) + Credit(executed, notices, upTo - 1, s, b)
  }

  lemma {:induction false} RunOneMore(v: Books, ops: seq<Op>, op: Op)
    ensures Run(v, ops + [op]) == Next(Run(v, ops), op).0
    decreases ops
  {
    hide Next;
    if ops == [] {
      assert ops + [op] == [op] && [op][1..] == [];
      assert Run(v, [op]) == Run(Next(v, op).0, [op][1..]);
    } else {
      assert (ops + [op])[1..] == ops[1..] + [op];
      RunOneMore(Next(v, ops[0]).0, ops[1..], op);
    }
  }

  lemma {:induction false} ExecutedAfter(v: Books, notices: seq<Op>, upTo: nat)
    requires upTo <= |notices| && forall k :: 0 <= k < |notices| ==> notices[k].NoticeOfDeposit?
    ensures Run(v, notices[..upTo]).executed
      == v.executed + set k | 0 <= k < upTo :: notices[k].txHash
  {
    hide Next;
    if upTo == 0 {
      assert notices[..0] == [];
    } else {
      var i := upTo - 1;
      ExecutedAfter(v, notices, i);
      RunOneMore(v, notices[..i], notices[i]);
      assert notices[..upTo] == notices[..i] + [notices[i]];
      NoticeCell(Run(v, notices[..i]), notices[i], "", "");
    }
  }

  // A transaction hash is credited at most once, by the first notice that carries it. A first
  // notice with a bad amount uses the hash up, so no later one is credited for it either.
  lemma {:induction false} CreditedOnce(v: Books, notices: seq<Op>, upTo: nat, s: string, b: string)
    requires upTo <= |notices| && forall k :: 0 <= k < |notices| ==> notices[k].NoticeOfDeposit?
    ensures Cell(Run(v, notices[..upTo]).ledger, s, b)
      == Cell(v.ledger, s, b) + Credits(v.executed, notices, upTo, s, b)
  {
    hide Next, Cell;
    if upTo == 0 {
      assert notices[..0] == [];
    } else {
      var i := upTo - 1;
      CreditedOnce(v, notices, i, s, b);
      RunOneMore(v, notices[..i], notices[i]);
      assert notices[..upTo] == notices[..i] + [notices[i]];
      ExecutedAfter(v, notices, i);
      NoticeCell(Run(v, notices[..i]), notices[i], s, b);
    }
  }

  lemma NoticeCell(v: Books, n: Op, s: string, b: string)
    requires n.NoticeOfDeposit?
    ensures Next(v, n).0.executed == v.executed + {n.txHash}
    ensures Cell(Next(v, n).0.ledger, s, b) == Cell(v.ledger, s, b)
      + if n.txHash !in v.executed && n.amount > 0 && n.sponsor == s && n.beneficiary == b then n.amount else 0
  {
    PutCells(v.ledger, n.sponsor, n.beneficiary, Cell(v.ledger, n.sponsor, n.beneficiary) + n.amount, s, b);
  }
}
