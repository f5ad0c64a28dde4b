/** The registry's contents as values: nodes, who is registered, and the two process indexes. */
module RegistryState {
  import opened Options

  datatype Info = Info(accId: string, name: string, role: string, desc: string, url: string)

  // `index` keeps, for every process, only the accounts its entries stand under. What those entries
  // say about a node is nowhere read.
  datatype State = State(
    tokenPid: string,
    mainIndex: string,
    nodes: map<string, Info>,
    registered: map<string, bool>,
    processes: map<string, set<string>>,
    index: map<string, set<string>>)

  const ROLE_MAIN := "main"
  const ROLE_FOLLOWER := "follower"

  function Initial(tokenPid: string, main: Info): (s: State)
    ensures Inv(s)
  {
    State(tokenPid, main.accId, map[main.accId := main], map[main.accId := true], map[main.accId := {}], map[])
  }

  // The same accounts in all the tables, and indexes that are each other's inverse.
  ghost predicate Inv(s: State) {
    && s.registered.Keys == s.nodes.Keys == s.processes.Keys
    && (forall a <- s.nodes :: s.nodes[a].accId == a)
    && forall a, p :: p in ProcessesOf(s, a) <==> a in AccountsOf(s, p)
  }

  function ProcessesOf(s: State, accId: string): set<string> {
    if accId in s.processes then s.processes[accId] else {}
  }

  function AccountsOf(s: State, pid: string): set<string> {
    if pid in s.index then s.index[pid] else {}
  }

  lemma AccountKeys(s: State, a: string)
    requires Inv(s)
    ensures a in s.nodes <==> a in s.registered
    ensures a in s.nodes <==> a in s.processes
    ensures a in s.nodes ==> s.nodes[a].accId == a
  {
  }

  // -------------------------------------------------------------------- operations

  datatype Op =
    | Register(node: Info)
    | Unregister(accId: string)
    | RegisterProcess(accId: string, pid: string)
    | UnregisterProcess(accId: string, pid: string)

  // A node registered before keeps its object and its processes, and gets the new details; only a
  // new account can become the main node.
  function Registered(s: State, node: Info): State
    requires Inv(s)
  {
    var s' := s.(nodes := s.nodes[node.accId := node], registered := s.registered[node.accId := true]);
    if node.accId in s.registered then s' else
    s'.(processes := s.processes[node.accId := {}],
        mainIndex := if node.role == ROLE_MAIN then node.accId else s.mainIndex)
  }

  function Enabled(s: State, op: Op): bool {
    match op
    case RegisterProcess(a, _) => a in s.nodes
    case UnregisterProcess(a, _) => a in s.processes
    case _ => true
  }

  function Next(s: State, op: Op): State
    requires Inv(s)
  {
    match op
    case Register(node) => Registered(s, node)
    case Unregister(a) => if a in s.nodes then s.(registered := s.registered[a := false]) else s
    case RegisterProcess(a, p) =>
      if a !in s.nodes then s else
      s.(processes := s.processes[a := s.processes[a] + {p}], index := s.index[p := AccountsOf(s, p) + {a}])
    case UnregisterProcess(a, p) =>
      if a !in s.processes then s else
      s.(processes := s.processes[a := s.processes[a] - {p}],
         index := if p in s.index then s.index[p := s.index[p] - {a}] else s.index)
  }

  // ----------------------------------------------------------------------- queries

  function GetNode(s: State, accId: string): Option<Info> {
    if accId in s.registered && s.registered[accId] && accId in s.nodes then Some(s.nodes[accId]) else None
  }

  function GetNodes(s: State): map<string, Info> {
    map a | a in s.nodes && a in s.registered && s.registered[a] :: s.nodes[a]
  }

  function NodesByProcess(s: State, pid: string): map<string, Info> {
    map a | a in AccountsOf(s, pid) && GetNode(s, a).Some? :: GetNode(s, a).value
  }

  // --------------------------------------------------------------------- invariant

  lemma NextProcesses(s: State, op: Op, a: string)
    requires Inv(s)
    ensures ProcessesOf(Next(s, op), a) ==
      if op.RegisterProcess? && op.accId == a && Enabled(s, op) then ProcessesOf(s, a) + {op.pid}
      else if op.UnregisterProcess? && op.accId == a then ProcessesOf(s, a) - {op.pid}
      else ProcessesOf(s, a)
  {
  }

  lemma NextAccounts(s: State, op: Op, p: string)
    requires Inv(s)
    ensures AccountsOf(Next(s, op), p) ==
      if op.RegisterProcess? && op.pid == p && Enabled(s, op) then AccountsOf(s, p) + {op.accId}
      else if op.UnregisterProcess? && op.pid == p then AccountsOf(s, p) - {op.accId}
      else AccountsOf(s, p)
  {
    if op.UnregisterProcess? && op.pid == p && op.accId !in s.processes {
      assert p !in ProcessesOf(s, op.accId);
    }
  }

  lemma InvStep(s: State, op: Op)
    requires Inv(s)
    ensures Inv(Next(s, op))
  {
    var t := Next(s, op);
    forall a, p
      ensures p in ProcessesOf(t, a) <==> a in AccountsOf(t, p)
    {
      NextProcesses(s, op, a);
      NextAccounts(s, op, p);
      assert p in ProcessesOf(s, a) <==> a in AccountsOf(s, p);
    }
  }

  function Run(s: State, ops: seq<Op>): (t: State)
    requires Inv(s)
    ensures Inv(t)
    decreases ops
  {
    if ops == [] then s else
    assert Inv(Next(s, ops[0])) by { InvStep(s, ops[0]); }
    Run(Next(s, ops[0]), ops[1..])
  }

  // After any run a process's query lists exactly the registered accounts that have the process, and
  // says of each what GetNode says.
  lemma ByProcessIsExact(tokenPid: string, main: Info, ops: seq<Op>, pid: string, a: string)
    ensures var s := Run(Initial(tokenPid, main), ops);
      && (a in NodesByProcess(s, pid) <==> GetNode(s, a).Some? && pid in ProcessesOf(s, a))
      && (a in NodesByProcess(s, pid) ==>
        NodesByProcess(s, pid)[a].accId == a && Some(NodesByProcess(s, pid)[a]) == GetNode(s, a))
  {
    var s := Run(Initial(tokenPid, main), ops);
    assert pid in ProcessesOf(s, a) <==> a in AccountsOf(s, pid);
  }

  // Unregistering hides a node from every query and keeps its processes; registering it again brings
  // back exactly these, for the account itself and in every process's list.
  lemma UnregisterThenRegister(s: State, node: Info, pid: string)
    requires Inv(s) && node.accId in s.nodes
    ensures var gone := Next(s, Unregister(node.accId));
      && Inv(gone) && GetNode(gone, node.accId).None? && node.accId !in NodesByProcess(gone, pid)
      && var back := Next(gone, Register(node));
      && Inv(back) && GetNode(back, node.accId) == Some(node)
      && back.processes == s.processes && back.index == s.index
      && (node.accId in NodesByProcess(back, pid) <==> pid in ProcessesOf(s, node.accId))
      && (forall b :: b != node.accId ==> GetNode(back, b) == GetNode(s, b))
  {
    var gone := Next(s, Unregister(node.accId));
    InvStep(s, Unregister(node.accId));
    InvStep(gone, Register(node));
    assert pid in ProcessesOf(s, node.accId) <==> node.accId in AccountsOf(s, pid);
  }

  // Whether and how the last of a run's registrations and unregistrations left an account.
  function LastWord(ops: seq<Op>, accId: string, before: Option<Info>): Option<Info>
    decreases ops
  {
    if ops == [] then before else
    LastWord(ops[1..], accId, Said(ops[0], accId, before))
  }

  function Said(op: Op, accId: string, before: Option<Info>): Option<Info> {
    if op.Register? && op.node.accId == accId then Some(op.node)
    else if op.Unregister? && op.accId == accId then None
    else before
  }

  lemma {:induction false} NodeIsLastWord(s: State, ops: seq<Op>, accId: string)
    requires Inv(s)
    ensures GetNode(Run(s, ops), accId) == LastWord(ops, accId, GetNode(s, accId))
    decreases ops
  {
    if ops != [] {
      InvStep(s, ops[0]);
      assert GetNode(Next(s, ops[0]), accId) == Said(ops[0], accId, GetNode(s, accId));
      NodeIsLastWord(Next(s, ops[0]), ops[1..], accId);
    }
  }
}
