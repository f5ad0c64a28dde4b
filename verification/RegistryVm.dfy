/** Account identifiers: a partial check that brings an identifier to its canonical form. */
module AccIds {
  import opened Options

  type IdCheck = string -> Option<string>

  // What is canonical is left alone.
  ghost predicate Idempotent(check: IdCheck) {
    check("") == None && forall id :: check(id).Some? ==> check(check(id).value) == check(id)
  }

  ghost predicate Canonical(check: IdCheck, id: string) {
    check(id) == Some(id)
  }
}

/** The registry process: who may ask for what. */
module RegistryVm {
  import opened Options
  import opened AccIds
  import opened RegistryState
  import RegistryStore

  type Params = map<string, string>

  datatype Error = MissingParam | Unauthorized | NodeNotFound | InvalidAction | InvalidAccid

  datatype Result<T> = Ok(value: T) | Err(error: Error)

  // The node that a registration or a stake describes.
  function Decode(check: IdCheck, params: Params): Result<Info> {
    if "Acc-Id" !in params then Err(MissingParam) else
    var id := check(params["Acc-Id"]);
    if id.None? then Err(InvalidAccid)
    else if "Name" !in params || "Desc" !in params || "URL" !in params then Err(MissingParam)
    else Ok(Info(id.value, params["Name"], ROLE_FOLLOWER, params["Desc"], params["URL"]))
  }

  function AuthProc(s: State, from: string, params: Params): Result<(string, string)> {
    if "Pid" !in params then Err(MissingParam)
    else if params["Pid"] != from then Err(Unauthorized)
    else if "Acc-Id" !in params then Err(MissingParam)
    else if GetNode(s, params["Acc-Id"]).None? then Err(NodeNotFound)
    else Ok((params["Pid"], params["Acc-Id"]))
  }

  // The operation on the store that a request comes to.
  function Request(s: State, check: IdCheck, from: string, action: string, params: Params): Result<Op> {
    match action
    case "Register" =>
      if from != s.tokenPid then Err(Unauthorized) else
      (match Decode(check, params)
       case Ok(node) => Ok(Register(node))
       case Err(e) => Err(e))
    case "Unregister" =>
      if from != s.tokenPid then Err(Unauthorized)
      else if "Acc-Id" !in params then Err(MissingParam)
      else Ok(Unregister(params["Acc-Id"]))
    case "RegisterProcess" =>
      (match AuthProc(s, from, params)
       case Ok((pid, accId)) => Ok(RegisterProcess(accId, pid))
       case Err(e) => Err(e))
    case "UnregisterProcess" =>
      (match AuthProc(s, from, params)
       case Ok((pid, accId)) => Ok(UnregisterProcess(accId, pid))
       case Err(e) => Err(e))
    case _ => Err(InvalidAction)
  }

  function Applied(s: State, check: IdCheck, from: string, action: string, params: Params): (t: State)
    requires Inv(s)
    ensures Inv(t)
  {
    var r := Request(s, check, from, action, params);
    if r.Err? then s else
    assert Inv(Next(s, r.value)) by { InvStep(s, r.value); }
    Next(s, r.value)
  }

  // Only the token process changes who is registered and how; only a process itself changes whether it
  // is listed for an account, and only while the account is registered.
  lemma Authority(s: State, check: IdCheck, from: string, action: string, params: Params, a: string, p: string)
    requires Inv(s)
    ensures var t := Applied(s, check, from, action, params);
      && (GetNode(t, a) != GetNode(s, a) ==> from == s.tokenPid)
      && ((p in ProcessesOf(t, a)) != (p in ProcessesOf(s, a)) ==> from == p && GetNode(s, a).Some?)
      && (Request(s, check, from, action, params).Err? ==> t == s)
      && t.tokenPid == s.tokenPid
  {
    hide Inv, Decode;
    var r := Request(s, check, from, action, params);
    if r.Ok? {
      NextProcesses(s, r.value, a);
    }
  }

  // An authorised request never fails in the store.
  lemma RequestsAreEnabled(s: State, check: IdCheck, from: string, action: string, params: Params)
    requires Inv(s) && Request(s, check, from, action, params).Ok?
    ensures Enabled(s, Request(s, check, from, action, params).value)
  {
  }

  method Apply(db: RegistryStore.Registry, check: IdCheck, from: string, action: string, params: Params)
    returns (error: Option<Error>)
    requires db.Valid()
    modifies db, db.nodes.Values
    ensures db.Valid() && db.View() == Applied(old(db.View()), check, from, action, params)
    ensures error == match Request(old(db.View()), check, from, action, params)
                     case Ok(_) => None
                     case Err(e) => Some(e)
    ensures fresh(db.nodes.Values - old(db.nodes.Values))
  {
    hide Inv, RegistryStore.Infos, RegistryStore.Accounts, Next;
    match action {
    case "Register" =>
      if from != db.tokenPid { return Some(Unauthorized); }
      var node := Decode(check, params);
      if node.Err? { return Some(node.error); }
      db.Register(node.value);
    case "Unregister" =>
      if from != db.tokenPid { return Some(Unauthorized); }
      if "Acc-Id" !in params { return Some(MissingParam); }
      db.Unregister(params["Acc-Id"]);
    case "RegisterProcess" =>
      var auth := Authorise(db, from, params);
      if auth.Err? { return Some(auth.error); }
      var _ := db.RegisterProcess(auth.value.1, auth.value.0);
    case "UnregisterProcess" =>
      var auth := Authorise(db, from, params);
      if auth.Err? { return Some(auth.error); }
      var _ := db.UnregisterProcess(auth.value.1, auth.value.0);
    case _ =>
      return Some(InvalidAction);
    }
    error := None;
  }

  method Authorise(db: RegistryStore.Registry, from: string, params: Params) returns (r: Result<(string, string)>)
    requires db.Valid()
    ensures r == AuthProc(db.View(), from, params)
  {
    if "Pid" !in params { return Err(MissingParam); }
    var pid := params["Pid"];
    if pid != from { return Err(Unauthorized); }
    if "Acc-Id" !in params { return Err(MissingParam); }
    var node := db.GetNode(params["Acc-Id"]);
    r := if node.None? then Err(NodeNotFound) else Ok((pid, params["Acc-Id"]));
  }
}
