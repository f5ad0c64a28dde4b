/** What every request to the registry process does to what its queries answer, and when it is refused. */
module RegistryEffects {
  import opened Options
  import opened AccIds
  import opened RegistryState
  import opened RegistryVm

  // A process speaks for itself under an account that is registered.
  predicate SpeaksForItself(s: State, from: string, params: Params) {
    && "Pid" in params && params["Pid"] == from
    && "Acc-Id" in params && GetNode(s, params["Acc-Id"]).Some?
  }

  // Why a process is refused, in the order of the checks.
  function ProcessRefused(s: State, from: string, params: Params): Error {
    if "Pid" !in params then MissingParam
    else if params["Pid"] != from then Unauthorized
    else if "Acc-Id" !in params then MissingParam
    else NodeNotFound
  }

  // The same answers to all queries but for one account and process, whose being listed is as said.
  ghost predicate OnlyListed(s: State, t: State, account: string, pid: string, listed: bool) {
    && t.tokenPid == s.tokenPid && t.mainIndex == s.mainIndex
    && (forall a :: GetNode(t, a) == GetNode(s, a)) && GetNodes(t) == GetNodes(s)
    && (forall a, p :: p in ProcessesOf(t, a) <==> if a == account && p == pid then listed else p in ProcessesOf(s, a))
    && (forall a, p :: a in NodesByProcess(t, p) <==>
          if a == account && p == pid then listed else a in NodesByProcess(s, p))
    && forall p, a <- NodesByProcess(t, p) :: Some(NodesByProcess(t, p)[a]) == GetNode(t, a)
  }

  // RegisterProcess puts the process on the account's list and the account on the process's, and nothing else.
  lemma ProcessIsListed(s: State, check: IdCheck, from: string, params: Params)
    requires Inv(s)
    ensures var t, r := Applied(s, check, from, "RegisterProcess", params), Request(s, check, from, "RegisterProcess", params);
      if SpeaksForItself(s, from, params) then r.Ok? && OnlyListed(s, t, params["Acc-Id"], from, true)
      else t == s && r == Err(ProcessRefused(s, from, params))
  {
    if SpeaksForItself(s, from, params) {
      ListsChange(s, Op.RegisterProcess(params["Acc-Id"], from), params["Acc-Id"], from, true);
    }
  }

  // UnregisterProcess takes it off both.
  lemma ProcessIsUnlisted(s: State, check: IdCheck, from: string, params: Params)
    requires Inv(s)
    ensures var t, r := Applied(s, check, from, "UnregisterProcess", params), Request(s, check, from, "UnregisterProcess", params);
      if SpeaksForItself(s, from, params) then r.Ok? && OnlyListed(s, t, params["Acc-Id"], from, false)
      else t == s && r == Err(ProcessRefused(s, from, params))
  {
    if SpeaksForItself(s, from, params) {
      ListsChange(s, Op.UnregisterProcess(params["Acc-Id"], from), params["Acc-Id"], from, false);
    }
  }

  lemma ListsChange(s: State, op: Op, account: string, pid: string, listed: bool)
    requires Inv(s) && GetNode(s, account).Some?
    requires op == if listed then Op.RegisterProcess(account, pid) else Op.UnregisterProcess(account, pid)
    ensures OnlyListed(s, Next(s, op), account, pid, listed)
  {
    var t := Next(s, op);
    forall a, p
      ensures p in ProcessesOf(t, a) <==> if a == account && p == pid then listed else p in ProcessesOf(s, a)
      ensures a in NodesByProcess(t, p) <==>
        if a == account && p == pid then listed else a in NodesByProcess(s, p)
    {
      NextProcesses(s, op, a);
      NextAccounts(s, op, p);
    }
  }

  // The node that a registration describes; every node comes as a follower.
  predicate Describes(check: IdCheck, params: Params, node: Info) {
    && "Acc-Id" in params && check(params["Acc-Id"]) == Some(node.accId)
    && "Name" in params && node.name == params["Name"] && "Desc" in params && node.desc == params["Desc"]
    && "URL" in params && node.url == params["URL"] && node.role == "follower"
  }

  // The same answers to all queries but for one account, of which GetNode says what is given. The lists of
  // processes stay.
  ghost predicate OnlyNode(s: State, t: State, account: string, node: Option<Info>) {
    && t.tokenPid == s.tokenPid && t.mainIndex == s.mainIndex
    && (forall a :: GetNode(t, a) == if a == account then node else GetNode(s, a))
    && (forall a :: a in GetNodes(t) <==> GetNode(t, a).Some?)
    && (forall a <- GetNodes(t) :: Some(GetNodes(t)[a]) == GetNode(t, a))
    && (forall a :: ProcessesOf(t, a) == ProcessesOf(s, a))
    && forall a, p :: a in NodesByProcess(t, p) <==> GetNode(t, a).Some? && p in ProcessesOf(t, a)
  }

  // Register, from the token process, makes GetNode answer with the details given.
  lemma NodeIsRegistered(s: State, check: IdCheck, from: string, params: Params, node: Info)
    requires Inv(s)
    ensures var t, r := Applied(s, check, from, "Register", params), Request(s, check, from, "Register", params);
      && (from == s.tokenPid && Describes(check, params, node) ==> r.Ok? && OnlyNode(s, t, node.accId, Some(node)))
      && (r.Ok? <==> from == s.tokenPid && exists n :: Describes(check, params, n))
      && (r.Err? ==> t == s)
      && (from != s.tokenPid ==> r == Err(Unauthorized))
  {
    var r := Request(s, check, from, "Register", params);
    if r.Ok? {
      assert Describes(check, params, r.value.node);
      InvStep(s, r.value);
      ListsStay(s, r.value);
      if Describes(check, params, node) { assert r.value.node == node; }
    } else if from == s.tokenPid {
      assert forall n :: !Describes(check, params, n);
    }
  }

  // Unregister, from the token process, makes it answer nothing for the account named.
  lemma NodeIsUnregistered(s: State, check: IdCheck, from: string, params: Params)
    requires Inv(s)
    ensures var t, r := Applied(s, check, from, "Unregister", params), Request(s, check, from, "Unregister", params);
      if from == s.tokenPid && "Acc-Id" in params then r.Ok? && OnlyNode(s, t, params["Acc-Id"], None)
      else t == s && r == Err(if from != s.tokenPid then Unauthorized else MissingParam)
  {
    var r := Request(s, check, from, "Unregister", params);
    if r.Ok? {
      InvStep(s, r.value);
      ListsStay(s, r.value);
    }
  }

  lemma ListsStay(s: State, op: Op)
    requires Inv(s) && (op.Register? || op.Unregister?)
    ensures var t := Next(s, op);
      (forall a :: ProcessesOf(t, a) == ProcessesOf(s, a)) && forall p :: AccountsOf(t, p) == AccountsOf(s, p)
  {
    forall a ensures ProcessesOf(Next(s, op), a) == ProcessesOf(s, a) { NextProcesses(s, op, a); }
    forall p ensures AccountsOf(Next(s, op), p) == AccountsOf(s, p) { NextAccounts(s, op, p); }
  }

  // No other action does anything, and a new registry knows its main node only.
  lemma OthersAreRefused(s: State, check: IdCheck, from: string, action: string, params: Params)
    requires Inv(s) && action !in {"Register", "Unregister", "RegisterProcess", "UnregisterProcess"}
    ensures Applied(s, check, from, action, params) == s
    ensures Request(s, check, from, action, params) == Err(InvalidAction)
  {
  }

  lemma StartsWithMain(tokenPid: string, main: Info, a: string, p: string)
    ensures var s := Initial(tokenPid, main);
      && GetNode(s, a) == (if a == main.accId then Some(main) else None) && GetNodes(s) == map[main.accId := main]
      && ProcessesOf(s, a) == {} && NodesByProcess(s, p) == map[] && s.mainIndex == main.accId && s.tokenPid == tokenPid
  {
  }
}
