/** The registry store: node objects shared between two maps until a checkpoint is restored. */
module RegistryStore {
  import opened Options
  import opened RegistryState

  class Node {
    const accId: string
    var name: string
    var role: string
    var desc: string
    var url: string

    constructor (info: Info)
      ensures this.Details() == info
    {
      accId, name, role, desc, url := info.accId, info.name, info.role, info.desc, info.url;
    }

    function Details(): Info
      reads this
    {
      Info(accId, name, role, desc, url)
    }
  }

  // What a checkpoint writes: the details of every node under both maps, no references.
  datatype Snapshot = Snapshot(
    tokenPid: string,
    mainIndex: string,
    index: map<string, map<string, Info>>,
    processes: map<string, set<string>>,
    registered: map<string, bool>,
    nodes: map<string, Info>)

  // Lists every entry of a map once, in some order.
  ghost predicate Lists(list: seq<Info>, m: map<string, Info>) {
    && (forall i :: 0 <= i < |list| ==> list[i].accId in m && m[list[i].accId] == list[i])
    && (forall i, j :: 0 <= i < j < |list| ==> list[i].accId != list[j].accId)
    && forall a <- m :: m[a] in list
  }

  function Infos(nodes: map<string, Node>): map<string, Info>
    reads nodes.Values
  {
    map a | a in nodes :: nodes[a].Details()
  }

  lemma InfosAt(nodes: map<string, Node>, a: string)
    ensures a in Infos(nodes) <==> a in nodes
  {
  }

  function Accounts(index: map<string, map<string, Node>>): map<string, set<string>> {
    map p | p in index :: index[p].Keys
  }

  lemma AccountsUpdate(index: map<string, map<string, Node>>, p: string, row: map<string, Node>)
    ensures Accounts(index[p := row]) == Accounts(index)[p := row.Keys]
  {
  }

  lemma AccountsAt(index: map<string, map<string, Node>>, p: string)
    ensures p in Accounts(index) <==> p in index
    ensures p in index ==> Accounts(index)[p] == index[p].Keys
  {
  }

  lemma ListsOneMore(list: seq<Info>, m: map<string, Info>, left: set<string>, a: string)
    requires Lists(list, m - left) && a in left && (a in m ==> m[a].accId == a)
    ensures Lists(if a in m then list + [m[a]] else list, m - (left - {a}))
  {
    if a in m {
      var more := list + [m[a]];
      forall b | b in m - (left - {a})
        ensures m[b] in more
      {
        if b != a {
          assert b in m - left && (m - left)[b] in list;
        } else {
          assert more[|list|] == m[a];
        }
      }
    } else {
      assert m - (left - {a}) == m - left;
    }
  }

  class Registry {
    var tokenPid: string
    var mainIndex: string
    var processToNodeIndex: map<string, map<string, Node>>
    var accidToProcesses: map<string, set<string>>
    var registered: map<string, bool>
    var nodes: map<string, Node>

    ghost function View(): State
      reads this, nodes.Values
    {
      State(tokenPid, mainIndex, Infos(nodes), registered, accidToProcesses, Accounts(processToNodeIndex))
    }

    ghost predicate Valid()
      reads this, nodes.Values
    {
      Inv(View()) && forall a <- nodes :: nodes[a].accId == a
    }

    // The process index points at the very objects the node map does.
    ghost predicate Shares()
      reads this
    {
      forall p <- processToNodeIndex :: forall a <- processToNodeIndex[p] ::
        a in nodes && processToNodeIndex[p][a] == nodes[a]
    }

    constructor (tokenPid: string, main: Info)
      ensures Valid() && Shares() && View() == Initial(tokenPid, main) && fresh(nodes.Values)
    {
      this.tokenPid := tokenPid;
      mainIndex := main.accId;
      processToNodeIndex := map[];
      accidToProcesses := map[main.accId := {}];
      registered := map[main.accId := true];
      var node := new Node(main);
      nodes := map[main.accId := node];
    }

    method Register(node: Info)
      requires Valid()
      modifies this, nodes.Values
      ensures Valid() && View() == Next(old(View()), Op.Register(node))
      ensures processToNodeIndex == old(processToNodeIndex) && (old(Shares()) ==> Shares())
      ensures fresh(nodes.Values - old(nodes.Values))
    {
      hide Inv, Accounts, Infos;
      AccountKeys(View(), node.accId);
      InvStep(View(), Op.Register(node));
      InfosAt(nodes, node.accId);
      if node.accId in registered {
        UpdateNode(node);
      } else {
        AddNode(node);
      }
    }

    method UpdateNode(node: Info)
      requires node.accId in nodes && forall a <- nodes :: nodes[a].accId == a
      modifies this`registered, nodes.Values
      ensures registered == old(registered)[node.accId := true]
      ensures Infos(nodes) == old(Infos(nodes))[node.accId := node]
    {
      var n := nodes[node.accId];
      n.name := node.name;
      n.role := node.role;
      n.desc := node.desc;
      n.url := node.url;
      registered := registered[node.accId := true];
    }

    method AddNode(node: Info)
      requires node.accId !in nodes && forall a <- nodes :: nodes[a].accId == a
      modifies this
      ensures tokenPid == old(tokenPid) && processToNodeIndex == old(processToNodeIndex)
      ensures accidToProcesses == old(accidToProcesses)[node.accId := {}]
      ensures registered == old(registered)[node.accId := true]
      ensures mainIndex == if node.role == ROLE_MAIN then node.accId else old(mainIndex)
      ensures Infos(nodes) == old(Infos(nodes))[node.accId := node]
      ensures forall a <- nodes :: nodes[a].accId == a
      ensures fresh(nodes.Values - old(nodes.Values)) && old(nodes).Keys <= nodes.Keys
      ensures forall a <- old(nodes) :: nodes[a] == old(nodes)[a]
    {
      accidToProcesses := accidToProcesses[node.accId := {}];
      if node.role == ROLE_MAIN {
        mainIndex := node.accId;
      }
      var n := new Node(node);
      nodes := nodes[node.accId := n];
      registered := registered[node.accId := true];
    }

    method Unregister(accId: string)
      requires Valid()
      modifies this`registered
      ensures Valid() && View() == Next(old(View()), Op.Unregister(accId))
      ensures old(Shares()) ==> Shares()
    {
      hide Inv, Accounts;
      InvStep(View(), Op.Unregister(accId));
      if accId !in nodes { return; }
      registered := registered[accId := false];
    }

    method RegisterProcess(accId: string, pid: string) returns (ok: bool)
      requires Valid()
      modifies this`accidToProcesses, this`processToNodeIndex
      ensures ok == Enabled(old(View()), Op.RegisterProcess(accId, pid))
      ensures Valid() && View() == Next(old(View()), Op.RegisterProcess(accId, pid))
      ensures old(Shares()) ==> Shares()
    {
      hide Inv, Accounts, Infos;
      AccountKeys(View(), accId);
      InfosAt(nodes, accId);
      InvStep(View(), Op.RegisterProcess(accId, pid));
      if accId !in nodes { return false; }
      var node := nodes[accId];
      if accId !in accidToProcesses { return false; }
      accidToProcesses := accidToProcesses[accId := accidToProcesses[accId] + {pid}];
      var row := map[node.accId := node];
      if pid in processToNodeIndex {
        row := processToNodeIndex[pid][accId := node];
      }
      AccountsUpdate(processToNodeIndex, pid, row);
      AccountsAt(processToNodeIndex, pid);
      processToNodeIndex := processToNodeIndex[pid := row];
      ok := true;
      assert row.Keys == AccountsOf(old(View()), pid) + {accId};
    }

    method UnregisterProcess(accId: string, pid: string) returns (ok: bool)
      requires Valid()
      modifies this`accidToProcesses, this`processToNodeIndex
      ensures ok == Enabled(old(View()), Op.UnregisterProcess(accId, pid))
      ensures Valid() && View() == Next(old(View()), Op.UnregisterProcess(accId, pid))
      ensures old(Shares()) ==> Shares()
    {
      hide Inv, Accounts, Infos;
      InvStep(View(), Op.UnregisterProcess(accId, pid));
      AccountsAt(processToNodeIndex, pid);
      if accId !in accidToProcesses { return false; }
      accidToProcesses := accidToProcesses[accId := accidToProcesses[accId] - {pid}];
      ok := true;
      if pid !in processToNodeIndex { return; }
      var row := processToNodeIndex[pid] - {accId};
      AccountsUpdate(processToNodeIndex, pid, row);
      processToNodeIndex := processToNodeIndex[pid := row];
    }

    method GetNode(accId: string) returns (r: Option<Info>)
      requires Valid()
      ensures r == RegistryState.GetNode(View(), accId)
    {
      if accId !in registered || !registered[accId] { return None; }
      if accId !in nodes { return None; }
      r := Some(nodes[accId].Details());
    }

    method GetNodes() returns (out: map<string, Info>)
      requires Valid()
      ensures out == RegistryState.GetNodes(View())
    {
      out := map[];
      var left := nodes.Keys;
      while left != {}
        invariant left <= nodes.Keys
        invariant out == map a | a in RegistryState.GetNodes(View()) && a !in left :: View().nodes[a]
        decreases |left|
      {
        var a :| a in left;
        if a in registered && registered[a] {
          out := out[a := nodes[a].Details()];
        }
        left := left - {a};
      }
    }

    method GetProcesses(accId: string) returns (out: seq<string>)
      requires Valid()
      ensures |out| == |ProcessesOf(View(), accId)| && forall p :: p in out <==> p in ProcessesOf(View(), accId)
    {
      out := [];
      if accId !in accidToProcesses || accidToProcesses[accId] == {} { return; }
      var left := accidToProcesses[accId];
      while left != {}
        invariant left <= accidToProcesses[accId]
        invariant |out| + |left| == |accidToProcesses[accId]|
        invariant forall p :: p in out <==> p in accidToProcesses[accId] && p !in left
        decreases |left|
      {
        var p :| p in left;
        out := out + [p];
        left := left - {p};
      }
    }

    // Reads the node map, not the node objects in the process index.
    method GetNodesByProcess(pid: string) returns (out: seq<Info>)
      requires Valid()
      ensures Lists(out, NodesByProcess(View(), pid))
    {
      out := [];
      if pid !in processToNodeIndex || processToNodeIndex[pid] == map[] { return; }
      var left := processToNodeIndex[pid].Keys;
      ghost var wanted := NodesByProcess(View(), pid);
      while left != {}
        invariant left <= processToNodeIndex[pid].Keys
        invariant Lists(out, wanted - left)
        decreases |left|
      {
        var a :| a in left;
        ListsOneMore(out, wanted, left, a);
        if a in registered && registered[a] && a in nodes {
          out := out + [nodes[a].Details()];
        }
        left := left - {a};
      }
      assert wanted - {} == wanted;
    }

    method Checkpoint() returns (data: Snapshot)
      requires Valid()
      ensures StateOf(data) == View()
      ensures data.index == map p | p in processToNodeIndex :: Infos(processToNodeIndex[p])
    {
      data := Snapshot(
        tokenPid, mainIndex, map p | p in processToNodeIndex :: Infos(processToNodeIndex[p]),
        accidToProcesses, registered, Infos(nodes));
      forall p | p in processToNodeIndex
        ensures data.index[p].Keys == processToNodeIndex[p].Keys
      {
      }
      SameAccounts(processToNodeIndex, data.index);
    }

    method Adopt(data: Snapshot, index: map<string, map<string, Node>>, restored: map<string, Node>)
      modifies this
      ensures tokenPid == data.tokenPid && mainIndex == data.mainIndex
      ensures accidToProcesses == data.processes && registered == data.registered
      ensures processToNodeIndex == index && nodes == restored
    {
      tokenPid := data.tokenPid;
      mainIndex := data.mainIndex;
      processToNodeIndex := index;
      accidToProcesses := data.processes;
      registered := data.registered;
      nodes := restored;
    }

    // Node objects are made anew, separately for the node map and for every index entry.
    method Restore(data: Snapshot)
      requires Inv(StateOf(data))
      modifies this
      ensures Valid() && View() == StateOf(data)
      ensures forall a <- nodes :: fresh(nodes[a])
      ensures IndexHolds(processToNodeIndex, data.index)
      ensures forall p <- processToNodeIndex :: processToNodeIndex[p].Values !! nodes.Values
    {
      hide Inv, Infos, Accounts, AccountsIn, IndexHolds;
      AccountsOfSnapshot(data);
      var restored := NodesOf(data.nodes);
      ghost var before := restored.Values;
      var index := RestoreIndex(data.index, before);
      Adopt(data, index, restored);
      SameAccounts(index, data.index);
    }
  }

  // The process index has its entries' details from a snapshot.
  ghost predicate IndexHolds(index: map<string, map<string, Node>>, data: map<string, map<string, Info>>)
    reads set p, a | p in index && a in index[p] :: index[p][a]
  {
    index.Keys == data.Keys && forall p <- index :: Infos(index[p]) == data[p]
  }

  lemma SameAccounts(index: map<string, map<string, Node>>, data: map<string, map<string, Info>>)
    requires index.Keys == data.Keys && forall p <- index :: index[p].Keys == data[p].Keys
    ensures Accounts(index) == AccountsIn(data)
  {
  }

  lemma AccountsOfSnapshot(data: Snapshot)
    requires Inv(StateOf(data))
    ensures forall a <- data.nodes :: data.nodes[a].accId == a
  {
  }

  method RestoreIndex(data: map<string, map<string, Info>>, ghost before: set<Node>)
    returns (index: map<string, map<string, Node>>)
    ensures index.Keys == data.Keys && forall p <- index :: index[p].Keys == data[p].Keys
    ensures IndexHolds(index, data) && forall p <- index :: index[p].Values !! before
  {
    hide Infos;
    index := map[];
    var left := data.Keys;
    while left != {}
      invariant left <= data.Keys && index.Keys == data.Keys - left
      invariant forall p <- index :: index[p].Keys == data[p].Keys
      invariant forall p <- index :: Infos(index[p]) == data[p] && index[p].Values !! before
      decreases |left|
    {
      var p :| p in left;
      var row := NodesOf(data[p]);
      index := index[p := row];
      left := left - {p};
    }
  }

  method NodesOf(m: map<string, Info>) returns (out: map<string, Node>)
    ensures Infos(out) == m && out.Keys == m.Keys
    ensures forall a <- out :: fresh(out[a]) && out[a].accId == m[a].accId
  {
    out := map[];
    var left := m.Keys;
    while left != {}
      invariant left <= m.Keys && out.Keys == m.Keys - left
      invariant forall a <- out :: fresh(out[a]) && out[a].Details() == m[a]
      decreases |left|
    {
      var a :| a in left;
      var n := new Node(m[a]);
      out := out[a := n];
      left := left - {a};
    }
  }

  function AccountsIn(index: map<string, map<string, Info>>): map<string, set<string>> {
    map p | p in index :: index[p].Keys
  }

  ghost function StateOf(data: Snapshot): State {
    State(data.tokenPid, data.mainIndex, data.nodes, data.registered, data.processes, AccountsIn(data.index))
  }

  method Do(r: Registry, op: Op)
    requires r.Valid()
    modifies r, r.nodes.Values
    ensures r.Valid() && r.View() == Next(old(r.View()), op)
    ensures fresh(r.nodes.Values - old(r.nodes.Values))
  {
    hide Inv, Accounts, Infos, Next;
    match op
    case Register(node) => r.Register(node);
    case Unregister(a) => r.Unregister(a);
    case RegisterProcess(a, p) => var _ := r.RegisterProcess(a, p);
    case UnregisterProcess(a, p) => var _ := r.UnregisterProcess(a, p);
  }

  method Drive(r: Registry, ops: seq<Op>)
    requires r.Valid()
    modifies r, r.nodes.Values
    ensures r.Valid() && r.View() == Run(old(r.View()), ops)
    ensures fresh(r.nodes.Values - old(r.nodes.Values))
    decreases |ops|
  {
    hide Inv, Accounts, Infos, Next;
    if ops == [] { return; }
    Do(r, ops[0]);
    Drive(r, ops[1..]);
  }

  // A registry restored from a checkpoint and the registry it was taken of, driven by the same further
  // operations, answer every query alike.
  method RestoredAnswersAlike(original: Registry, restored: Registry, ops: seq<Op>)
    requires original.Valid() && original != restored
    modifies original, original.nodes.Values, restored
    ensures original.Valid() && restored.Valid()
    ensures original.View() == restored.View() == Run(old(original.View()), ops)
  {
    hide Inv, Accounts, Infos, Next, Run, StateOf;
    var data := original.Checkpoint();
    restored.Restore(data);
    assert restored.nodes.Values !! original.nodes.Values;
    ghost var s := restored.View();
    Drive(original, ops);
    assert restored.View() == s && restored.nodes.Values !! original.nodes.Values;
    ghost var t := original.View();
    Drive(restored, ops);
    assert original.View() == t;
  }

  // The objects in a restored process index go stale: details registered later reach the node map only.
  method IndexGoesStale(r: Registry, data: Snapshot, node: Info, pid: string)
    requires Inv(StateOf(data)) && node.accId in data.nodes && pid in data.index && node.accId in data.index[pid]
    requires data.index[pid][node.accId].url != node.url
    modifies r
    ensures r.Valid() && RegistryState.GetNode(r.View(), node.accId) == Some(node)
    ensures IndexHolds(r.processToNodeIndex, data.index) && !r.Shares()
  {
    hide Inv, Accounts, Next, StateOf, RegistryState.GetNode, Infos;
    r.Restore(data);
    r.Register(node);
    RegisteredNode(StateOf(data), node);
    StaleEntry(r, data.index, node, pid);
  }

  lemma StaleEntry(r: Registry, data: map<string, map<string, Info>>, node: Info, pid: string)
    requires pid in data && node.accId in data[pid] && data[pid][node.accId].url != node.url
    requires IndexHolds(r.processToNodeIndex, data)
    requires RegistryState.GetNode(r.View(), node.accId) == Some(node)
    ensures !r.Shares()
  {
    assert Infos(r.processToNodeIndex[pid]) == data[pid];
  }

  lemma RegisteredNode(s: State, node: Info)
    requires Inv(s)
    ensures RegistryState.GetNode(Next(s, Op.Register(node)), node.accId) == Some(node)
  {
  }
}
