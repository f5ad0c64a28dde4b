/** Stakes in the token process against registrations in the registry process, across the messages between them. */
module StakeRegistration {
  import opened Options
  import opened AccIds
  import opened Tags
  import opened Sums
  import opened TokenState
  import opened TokenCache
  import RegistryState
  import RegistryVm

  // What the way to the receiver adds to a message.
  datatype Post = Post(pid: string, sequence: string, pushedFor: string, time: string, data: string)

  function Received(post: Post, own: seq<Tag>): Option<Message> {
    DecodeMessage(Stamped(post.time, MessageEnvelope(post.pid, post.sequence, post.pushedFor, own)), post.data)
  }

  // The registry's state once it has applied a notice; a message it cannot read changes nothing.
  function Delivered(r: RegistryState.State, check: IdCheck, post: Post, notice: Notice): (t: RegistryState.State)
    requires RegistryState.Inv(r)
    ensures RegistryState.Inv(t)
  {
    var m := Received(post, notice.tags);
    if m.None? then r else
    var params := ParamsOf(m.value.tags);
    if params.None? then r else
    RegistryVm.Applied(r, check, m.value.fromProcess, m.value.action, params.value)
  }

  // -------------------------------------------------------------------- one notice

  // A parameter arrives exactly when its tag was set and not empty, with the value it had.
  lemma ParamArrives(post: Post, own: seq<Tag>, n: string)
    requires NoDuplicates(own) && n != "SDK-Timestamp" && n != "Data" && MessageTag(Tag(n, "x"))
    ensures var m := Received(post, own);
      m.Some? && ParamsOf(m.value.tags).Some?
      && var params := ParamsOf(m.value.tags).value;
      (n in params <==> Lookup(own, n) != "") && (n in params ==> params[n] == Lookup(own, n))
  {
    EmittedMessageDecodes(post.pid, post.sequence, post.pushedFor, own, post.time, post.data);
    var tags := Received(post, own).value.tags;
    if n in Names(tags) {
      var t :| t in tags && t.name == n;
      ReceivedTag(post, own, t);
      LookupIn(own, t);
      LookupIn(tags, t);
    }
    if Lookup(own, n) != "" {
      LookupFound(own, n);
      var t := Tag(n, Lookup(own, n));
      EmittedTags(post.pid, post.sequence, post.pushedFor, own, post.time, post.data, t);
      assert t.name in Names(tags);
    }
  }

  lemma ReceivedTag(post: Post, own: seq<Tag>, t: Tag)
    requires NoDuplicates(own) && Received(post, own).Some? && t in Received(post, own).value.tags
    requires t.name != "Data" && t.name != "SDK-Timestamp"
    ensures t in own && MessageTag(t)
  {
    EmittedTags(post.pid, post.sequence, post.pushedFor, own, post.time, post.data, t);
  }

  lemma RegisterTagsRead(from: string, node: RegistryState.Info)
    ensures var own := RegisterTags(from, node);
      && NoDuplicates(own) && Lookup(own, "Action") == "Register" && Lookup(own, "Acc-Id") == from
      && Lookup(own, "Name") == node.name && Lookup(own, "Desc") == node.desc && Lookup(own, "URL") == node.url
  {
    var own := RegisterTags(from, node);
    assert own[0] in own && own[1] in own && own[2] in own && own[4] in own && own[5] in own;
    LookupIn(own, own[0]);
    LookupIn(own, own[1]);
    LookupIn(own, own[2]);
    LookupIn(own, own[4]);
    LookupIn(own, own[5]);
  }

  function UnregisterTags(from: string): seq<Tag> {
    [Tag("Action", "Unregister"), Tag("Acc-Id", from)]
  }

  lemma UnregisterTagsRead(from: string)
    ensures var own := UnregisterTags(from);
      NoDuplicates(own) && Lookup(own, "Action") == "Unregister" && Lookup(own, "Acc-Id") == from
  {
    var own := UnregisterTags(from);
    assert own[0] in own && own[1] in own;
    LookupIn(own, own[0]);
    LookupIn(own, own[1]);
  }

  // A name, a description and a URL are all there; an empty one does not survive as a tag.
  predicate Effective(node: RegistryState.Info) {
    node.name != "" && node.desc != "" && node.url != ""
  }

  lemma Arrival(post: Post, own: seq<Tag>)
    requires NoDuplicates(own)
    ensures var m := Received(post, own);
      m.Some? && m.value.fromProcess == post.pid && m.value.action == Lookup(own, "Action")
      && ParamsOf(m.value.tags).Some?
  {
    EmittedMessageDecodes(post.pid, post.sequence, post.pushedFor, own, post.time, post.data);
  }

  lemma RegisterRequest(r: RegistryState.State, check: IdCheck, post: Post, from: string, node: RegistryState.Info)
    requires RegistryState.Inv(r) && r.tokenPid == post.pid && Canonical(check, from) && Idempotent(check)
    ensures var m := Received(post, RegisterTags(from, node));
      m.Some? && ParamsOf(m.value.tags).Some? && m.value.fromProcess == post.pid && m.value.action == "Register"
      && RegistryVm.Request(r, check, post.pid, "Register", ParamsOf(m.value.tags).value) ==
        if Effective(node) then
          RegistryVm.Ok(RegistryState.Register(
            RegistryState.Info(from, node.name, RegistryState.ROLE_FOLLOWER, node.desc, node.url)))
        else RegistryVm.Err(RegistryVm.MissingParam)
  {
    hide Lookup, NoDuplicates, Received, RegisterTags, ParamsOf;
    var own := RegisterTags(from, node);
    RegisterTagsRead(from, node);
    Arrival(post, own);
    ParamArrives(post, own, "Acc-Id");
    ParamArrives(post, own, "Name");
    ParamArrives(post, own, "Desc");
    ParamArrives(post, own, "URL");
  }

  lemma UnregisterRequest(r: RegistryState.State, check: IdCheck, post: Post, from: string)
    requires r.tokenPid == post.pid && Canonical(check, from) && Idempotent(check)
    ensures var m := Received(post, UnregisterTags(from));
      m.Some? && ParamsOf(m.value.tags).Some? && m.value.fromProcess == post.pid && m.value.action == "Unregister"
      && RegistryVm.Request(r, check, post.pid, "Unregister", ParamsOf(m.value.tags).value)
        == RegistryVm.Ok(RegistryState.Unregister(from))
  {
    hide Lookup, NoDuplicates, Received, UnregisterTags, ParamsOf;
    UnregisterTagsRead(from);
    Arrival(post, UnregisterTags(from));
    ParamArrives(post, UnregisterTags(from), "Acc-Id");
  }

  // What a delivered notice leaves of every account's registration.
  lemma DeliveredNotice(s: State, r: RegistryState.State, check: IdCheck, post: Post, from: string, registry: string,
                        node: RegistryState.Info, a: string)
    requires RegistryState.Inv(r) && r.tokenPid == post.pid && Canonical(check, from) && Idempotent(check)
    ensures var t := Delivered(r, check, post, NodeNotice(s, from, registry, node));
      && t.tokenPid == r.tokenPid
      && RegistryState.GetNode(t, a) ==
        if a != from then RegistryState.GetNode(r, a)
        else if At(s.stakes, from) < s.info.minAmount then None
        else if Effective(node) then
          Some(RegistryState.Info(from, node.name, RegistryState.ROLE_FOLLOWER, node.desc, node.url))
        else RegistryState.GetNode(r, a)
  {
    hide Received, ParamsOf, RegistryVm.Request, RegisterTags, RegistryState.Inv, RegistryState.Next, Effective;
    if At(s.stakes, from) < s.info.minAmount {
      assert NodeNotice(s, from, registry, node).tags == UnregisterTags(from);
      UnregisterRequest(r, check, post, from);
      NodeAfter(r, RegistryState.Unregister(from), a);
    } else {
      RegisterRequest(r, check, post, from, node);
      NodeAfter(r, RegistryState.Register(
        RegistryState.Info(from, node.name, RegistryState.ROLE_FOLLOWER, node.desc, node.url)), a);
    }
  }

  lemma NodeAfter(r: RegistryState.State, op: RegistryState.Op, a: string)
    requires RegistryState.Inv(r)
    ensures RegistryState.Next(r, op).tokenPid == r.tokenPid
    ensures RegistryState.GetNode(RegistryState.Next(r, op), a)
      == RegistryState.Said(op, a, RegistryState.GetNode(r, a))
  {
  }

  // ------------------------------------------------------------------------- runs

  datatype Pair = Pair(token: State, registry: RegistryState.State)

  // An action together with how its notice reaches the registry.
  datatype Step = Step(call: Call, post: Post)

  predicate Staking(c: Call) {
    c.action == "Stake" || c.action == "Unstake"
  }

  predicate Succeeds(s: State, env: Env, c: Call) {
    Staking(c) && After(s, env, c).1.Ok?
  }

  // The notice to the registry is the second message of a successful stake or unstake.
  function NoticeOf(s: State, env: Env, c: Call): Notice
    requires Succeeds(s, env, c)
  {
    After(s, env, c).1.value.messages[1]
  }

  function NodeOf(env: Env, c: Call): RegistryVm.Result<RegistryState.Info> {
    RegistryVm.Decode(env.check, c.params)
  }

  function Next(p: Pair, env: Env, step: Step): (q: Pair)
    requires RegistryState.Inv(p.registry)
    ensures RegistryState.Inv(q.registry)
  {
    var t := After(p.token, env, step.call).0;
    if !Succeeds(p.token, env, step.call) then Pair(t, p.registry) else
    Pair(t, Delivered(p.registry, env.check, step.post, NoticeOf(p.token, env, step.call)))
  }

  function Run(p: Pair, env: Env, steps: seq<Step>): (q: Pair)
    requires RegistryState.Inv(p.registry)
    ensures RegistryState.Inv(q.registry)
    decreases |steps|
  {
    if steps == [] then p else Next(Run(p, env, steps[..|steps| - 1]), env, steps[|steps| - 1])
  }

  ghost predicate Agree(p: Pair, a: string) {
    RegistryState.GetNode(p.registry, a).Some? <==> At(p.token.stakes, a) >= p.token.info.minAmount
  }

  lemma NoticeFrom(s: State, env: Env, c: Call)
    requires Succeeds(s, env, c) && Idempotent(env.check)
    ensures NodeOf(env, c).Ok? && Canonical(env.check, c.from) && "Registry" in c.params
    ensures NoticeOf(s, env, c) == NodeNotice(After(s, env, c).0, c.from, c.params["Registry"], NodeOf(env, c).value)
  {
    StakerIsCanonical(env, c.from, c.params);
  }

  lemma OthersKeepStake(s: State, env: Env, c: Call, a: string)
    requires !Succeeds(s, env, c) || a != c.from
    ensures At(After(s, env, c).0.stakes, a) == At(s.stakes, a)
    ensures After(s, env, c).0.info == s.info
  {
    hide BalanceReply, InfoReply, StakeReply, TransferReply, StakeRequest, ParseAmount;
  }

  // A successful stake or unstake leaves stake and registration in agreement exactly when the stake is
  // below the minimum, or the details are all non-empty, or the account was registered already.
  lemma LastActionDecides(p: Pair, env: Env, step: Step)
    requires RegistryState.Inv(p.registry) && Idempotent(env.check) && p.registry.tokenPid == step.post.pid
    requires Succeeds(p.token, env, step.call)
    ensures NodeOf(env, step.call).Ok?
    ensures var a := step.call.from; var q := Next(p, env, step);
      Agree(q, a) <==>
        || At(q.token.stakes, a) < q.token.info.minAmount
        || Effective(NodeOf(env, step.call).value)
        || RegistryState.GetNode(p.registry, a).Some?
  {
    hide NodeNotice, Delivered, Effective, After;
    var c := step.call;
    NoticeFrom(p.token, env, c);
    DeliveredNotice(After(p.token, env, c).0, p.registry, env.check, step.post, c.from, c.params["Registry"],
                    NodeOf(env, c).value, c.from);
  }

  lemma OthersKeepAgreement(p: Pair, env: Env, step: Step, a: string)
    requires RegistryState.Inv(p.registry) && Idempotent(env.check) && p.registry.tokenPid == step.post.pid
    requires !Succeeds(p.token, env, step.call) || a != step.call.from
    ensures Agree(Next(p, env, step), a) <==> Agree(p, a)
    ensures Next(p, env, step).registry.tokenPid == p.registry.tokenPid
  {
    hide NodeNotice, Delivered, Effective, After;
    var c := step.call;
    OthersKeepStake(p.token, env, c, a);
    if Succeeds(p.token, env, c) {
      NoticeFrom(p.token, env, c);
      DeliveredNotice(After(p.token, env, c).0, p.registry, env.check, step.post, c.from, c.params["Registry"],
                      NodeOf(env, c).value, a);
    }
  }

  lemma TokenPidStays(p: Pair, env: Env, step: Step)
    requires RegistryState.Inv(p.registry) && Idempotent(env.check) && p.registry.tokenPid == step.post.pid
    ensures Next(p, env, step).registry.tokenPid == p.registry.tokenPid
  {
    hide NodeNotice, Delivered, Effective, After;
    var c := step.call;
    if Succeeds(p.token, env, c) {
      NoticeFrom(p.token, env, c);
      DeliveredNotice(After(p.token, env, c).0, p.registry, env.check, step.post, c.from, c.params["Registry"],
                      NodeOf(env, c).value, c.from);
    }
  }

  ghost predicate Posted(p: Pair, steps: seq<Step>) {
    forall i :: 0 <= i < |steps| ==> steps[i].post.pid == p.registry.tokenPid
  }

  // The i-th step of a run is a successful stake or unstake.
  ghost predicate SucceedsAt(p: Pair, env: Env, steps: seq<Step>, i: nat)
    requires RegistryState.Inv(p.registry) && i < |steps|
  {
    Succeeds(Run(p, env, steps[..i]).token, env, steps[i].call)
  }

  lemma {:induction false} TokenPidOfRun(p: Pair, env: Env, steps: seq<Step>)
    requires RegistryState.Inv(p.registry) && Idempotent(env.check) && Posted(p, steps)
    ensures Run(p, env, steps).registry.tokenPid == p.registry.tokenPid
    decreases |steps|
  {
    hide Next;
    if steps != [] {
      var n := |steps| - 1;
      TokenPidOfRun(p, env, steps[..n]);
      TokenPidStays(Run(p, env, steps[..n]), env, steps[n]);
    }
  }

  lemma RunStep(p: Pair, env: Env, steps: seq<Step>, i: nat)
    requires RegistryState.Inv(p.registry) && i < |steps|
    ensures var before := steps[..|steps| - 1];
      Run(p, env, steps) == Next(Run(p, env, before), env, steps[|steps| - 1])
      && (SucceedsAt(p, env, steps, |steps| - 1) == Succeeds(Run(p, env, before).token, env, steps[|steps| - 1].call))
      && (i < |before| ==> SucceedsAt(p, env, before, i) == SucceedsAt(p, env, steps, i))
  {
    hide Next, Succeeds;
    assert i < |steps| - 1 ==> steps[..|steps| - 1][..i] == steps[..i];
  }

  // After any run in which every successful stake and unstake gives non-empty details, and whose notices
  // have been applied at the registry in order, an account with at least one such action is registered
  // exactly when it stakes the minimum.
  lemma {:induction false} StakedMeansRegistered(p: Pair, env: Env, steps: seq<Step>, a: string)
    requires RegistryState.Inv(p.registry) && Idempotent(env.check) && Posted(p, steps)
    requires forall i :: 0 <= i < |steps| && SucceedsAt(p, env, steps, i) ==>
      NodeOf(env, steps[i].call).Ok? && Effective(NodeOf(env, steps[i].call).value)
    requires exists i :: 0 <= i < |steps| && SucceedsAt(p, env, steps, i) && steps[i].call.from == a
    ensures Agree(Run(p, env, steps), a)
    decreases |steps|
  {
    hide Next, Succeeds, Agree, Effective, Run, SucceedsAt;
    var n := |steps| - 1;
    var before := steps[..n];
    TokenPidOfRun(p, env, before);
    forall i | 0 <= i < |steps| {
      RunStep(p, env, steps, i);
    }
    if SucceedsAt(p, env, steps, n) && steps[n].call.from == a {
      LastIsEffective(p, env, steps);
    } else {
      StakedMeansRegistered(p, env, before, a);
      OthersKeepAgreement(Run(p, env, before), env, steps[n], a);
    }
  }

  lemma LastIsEffective(p: Pair, env: Env, steps: seq<Step>)
    requires RegistryState.Inv(p.registry) && Idempotent(env.check) && Posted(p, steps) && steps != []
    requires var c := steps[|steps| - 1].call;
      SucceedsAt(p, env, steps, |steps| - 1) && NodeOf(env, c).Ok? && Effective(NodeOf(env, c).value)
    ensures Agree(Run(p, env, steps), steps[|steps| - 1].call.from)
  {
    hide Next, Succeeds, Agree, Effective, Run, SucceedsAt;
    var n := |steps| - 1;
    TokenPidOfRun(p, env, steps[..n]);
    RunStep(p, env, steps, n);
    LastActionDecides(Run(p, env, steps[..n]), env, steps[n]);
  }

  // The genesis account adds nothing to its stake, which is well above the minimum: that registers it
  // under any name but the empty one.
  lemma EmptyNameIsLost(env: Env, info: Details, a: string, main: RegistryState.Info, post: Post, name: string)
    requires Idempotent(env.check) && Canonical(env.check, a) && main.accId != a
    requires info.minAmount == STAKE_MIN_AMOUNT
    ensures var params := map["Registry" := "r", "Acc-Id" := a, "Name" := name, "Desc" := "d", "URL" := "u",
                              "Quantity" := "0"];
      var step := Step(Call(a, "Stake", params, []), post);
      var p := Pair(Genesis(info, a), RegistryState.Initial(post.pid, main));
      Succeeds(p.token, env, step.call) && (Agree(Next(p, env, step), a) <==> name != "")
  {
    var params := map["Registry" := "r", "Acc-Id" := a, "Name" := name, "Desc" := "d", "URL" := "u",
                      "Quantity" := "0"];
    var step := Step(Call(a, "Stake", params, []), post);
    var p := Pair(Genesis(info, a), RegistryState.Initial(post.pid, main));
    hide NodeNotice, BalanceCache, StakeCache, Delivered;
    ZeroParses();
    assert StakeRequest(env, a, params).Ok?;
    LastActionDecides(p, env, step);
    ZeroStake(p.token, env, a, params);
  }

  // Staking nothing changes nothing.
  lemma ZeroStake(s: State, env: Env, a: string, params: Params)
    requires StakeRequest(env, a, params).Ok? && StakeRequest(env, a, params).value.3 == 0
    ensures After(s, env, Call(a, "Stake", params, [])).0 == s
  {
    hide StakeRequest, NodeNotice, BalanceCache;
  }

  lemma ZeroParses()
    ensures ParseAmount("0") == Ok(0)
  {
  }
}
