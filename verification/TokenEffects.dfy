/** What every request does to the token's ledgers, account by account, and whom it answers with what. */
module TokenEffects {
  import opened Options
  import opened Numerals
  import opened Sums
  import opened Tags
  import opened AccIds
  import opened TokenState

  // An amount written out in decimals, with an optional sign, and not negative.
  predicate Amount(params: Params, q: int) {
    "Quantity" in params && ParseInt(params["Quantity"]) == Some(q) && q >= 0
  }

  // What staking and unstaking ask of a request apart from the amount: a registry to tell, and the sender's own
  // account with its details.
  predicate DescribesNode(check: IdCheck, from: string, params: Params) {
    && "Registry" in params && "Acc-Id" in params && check(params["Acc-Id"]) == Some(from)
    && "Name" in params && "Desc" in params && "URL" in params
  }

  // Two ledgers that differ at one account only, by d.
  ghost predicate Moved(m: map<string, int>, n: map<string, int>, account: string, d: int) {
    forall a :: At(n, a) == At(m, a) + if a == account then d else 0
  }

  // The answers to the sender and to the registry. The registry is told to register the account exactly when
  // its stake reaches the minimum.
  ghost predicate TellsBoth(ms: seq<Notice>, from: string, params: Params, action: string, verb: string, stake: int,
                            info: Details)
    requires "Registry" in params && "Quantity" in params && "Name" in params && "Desc" in params && "URL" in params
  {
    && |ms| == 2
    && ms[0].target == from && ms[0].data == "You " + verb + " " + params["Quantity"]
    && ms[0].tags == [Tag("Ticker", info.ticker), Tag("Action", action), Tag("Quantity", params["Quantity"])]
    && ms[1].target == params["Registry"] && ms[1].data == ""
    && ms[1].tags ==
       if stake < info.minAmount then [Tag("Action", "Unregister"), Tag("Acc-Id", from)]
       else [Tag("Action", "Register"), Tag("Acc-Id", from), Tag("Name", params["Name"]), Tag("Role", "follower"),
             Tag("Desc", params["Desc"]), Tag("URL", params["URL"])]
  }

  // A stake of q succeeds exactly when the request describes the sender's node and q is at most its balance. Then q
  // goes from its balance to its stake.
  lemma StakeMoves(s: State, env: Env, from: string, params: Params, extra: seq<Tag>)
    requires Inv(s, env.check)
    ensures var (t, r) := Applied(s, env, from, "Stake", params, extra);
      && (r.Ok? <==> DescribesNode(env.check, from, params) && exists q :: Amount(params, q) && q <= At(s.balances, from))
      && (forall q :: r.Ok? && Amount(params, q) ==>
            && Moved(s.balances, t.balances, from, -q) && Moved(s.stakes, t.stakes, from, q)
            && TellsBoth(r.value.messages, from, params, "Stake-Notice", "staked", At(s.stakes, from) + q, s.info))
      && (forall q :: DescribesNode(env.check, from, params) && Amount(params, q) && q > At(s.balances, from) ==>
            r == Err(InsufficientBalance))
      && (r.Err? ==> t == s)
  {
    hide BalanceCache, StakeCache, SumMap, ParseInt, FullCache, Staked, Inv;
    RequestIs(env, from, params);
    AmountsMove(s, env.check, from);
  }

  // An unstake of q succeeds exactly when the request describes the sender's node and q is at most its stake. Then
  // q goes from its stake to its balance.
  lemma UnstakeMoves(s: State, env: Env, from: string, params: Params, extra: seq<Tag>)
    requires Inv(s, env.check)
    ensures var (t, r) := Applied(s, env, from, "Unstake", params, extra);
      && (r.Ok? <==> DescribesNode(env.check, from, params) && exists q :: Amount(params, q) && q <= At(s.stakes, from))
      && (forall q :: r.Ok? && Amount(params, q) ==>
            && Moved(s.balances, t.balances, from, q) && Moved(s.stakes, t.stakes, from, -q)
            && TellsBoth(r.value.messages, from, params, "Unstake-Notice", "unstaked", At(s.stakes, from) - q, s.info))
      && (forall q :: DescribesNode(env.check, from, params) && Amount(params, q) && q > At(s.stakes, from) ==>
            r == Err(InsufficientStake))
      && (r.Err? ==> t == s)
  {
    hide BalanceCache, StakeCache, SumMap, ParseInt, FullCache, Unstaked, Inv;
    RequestIs(env, from, params);
    AmountsMove(s, env.check, from);
  }

  // Between one account's balance and its stake.
  lemma AmountsMove(s: State, check: IdCheck, from: string)
    requires Inv(s, check)
    ensures forall q :: q >= 0 ==>
      var r := Staked(s, from, q);
      if q <= At(s.balances, from) then
        r.Ok? && r.value == s.(balances := r.value.balances, stakes := r.value.stakes)
        && Moved(s.balances, r.value.balances, from, -q) && Moved(s.stakes, r.value.stakes, from, q)
      else r == Err(InsufficientBalance)
    ensures forall q :: q >= 0 ==>
      var r := Unstaked(s, from, q);
      if q <= At(s.stakes, from) then
        r.Ok? && r.value == s.(balances := r.value.balances, stakes := r.value.stakes)
        && Moved(s.balances, r.value.balances, from, q) && Moved(s.stakes, r.value.stakes, from, -q)
      else r == Err(InsufficientStake)
  {
    hide SumMap;
  }

  // What a request to stake is read as.
  lemma RequestIs(env: Env, from: string, params: Params)
    ensures var r := StakeRequest(env, from, params);
      && (r.Ok? <==> DescribesNode(env.check, from, params) && exists q :: Amount(params, q))
      && (r.Ok? ==>
            && Amount(params, r.value.3) && r.value.0 == params["Registry"] && r.value.2 == params["Quantity"]
            && r.value.1.accId == from && r.value.1.name == params["Name"] && r.value.1.role == "follower"
            && r.value.1.desc == params["Desc"] && r.value.1.url == params["URL"])
  {
    hide ParseInt;
    if "Quantity" in params && ParseInt(params["Quantity"]).Some? && ParseInt(params["Quantity"]).value >= 0 {
      assert Amount(params, ParseInt(params["Quantity"]).value);
    }
  }

  // A transfer of q succeeds exactly when the recipient is an account and q is at most the sender's balance. Then q
  // goes from the sender to the recipient's canonical account; to itself it changes nothing. Both are told.
  lemma TransferMoves(s: State, env: Env, from: string, params: Params, extra: seq<Tag>)
    requires Inv(s, env.check)
    ensures var (t, r) := Applied(s, env, from, "Transfer", params, extra);
      && (r.Ok? <==> "Recipient" in params && env.check(params["Recipient"]).Some?
                     && exists q :: Amount(params, q) && q <= At(s.balances, from))
      && (forall q :: r.Ok? && Amount(params, q) ==>
            var to := env.check(params["Recipient"]).value;
            && (forall a :: At(t.balances, a) ==
                  At(s.balances, a) - (if a == from then q else 0) + if a == to then q else 0)
            && t.stakes == s.stakes
            && TellsBothSides(r.value.messages, from, params, s.info, extra))
      && ("Recipient" in params && env.check(params["Recipient"]).Some? ==>
            forall q :: Amount(params, q) && q > At(s.balances, from) ==> r == Err(InsufficientBalance))
      && (r.Err? ==> t == s)
  {
    hide BalanceCache, SumMap, ParseInt, FullCache;
    if "Quantity" in params && ParseInt(params["Quantity"]).Some? && ParseInt(params["Quantity"]).value >= 0 {
      assert Amount(params, ParseInt(params["Quantity"]).value);
    }
  }

  // The sender is told of a debit, the recipient it named of a credit, each with the request's own tags.
  ghost predicate TellsBothSides(ms: seq<Notice>, from: string, params: Params, info: Details, extra: seq<Tag>)
    requires "Recipient" in params && "Quantity" in params
  {
    var to, qty := params["Recipient"], params["Quantity"];
    && |ms| == 2
    && ms[0].target == from && ms[0].data == "You transferred " + qty + " to " + to
    && ms[0].tags == [Tag("Ticker", info.ticker), Tag("Action", "Debit-Notice"), Tag("Recipient", to),
                      Tag("Quantity", qty)] + extra
    && ms[1].target == to && ms[1].data == "You received " + qty + " from " + from
    && ms[1].tags == [Tag("Ticker", info.ticker), Tag("Action", "Credit-Notice"), Tag("Sender", from),
                      Tag("Quantity", qty)] + extra
  }

  // Questions change nothing but the flag that the whole cache has been given out, and are answered to whoever
  // asks: a balance is that of the recipient, else the target, else the sender.
  lemma QuestionsAnswer(s: State, env: Env, from: string, params: Params, extra: seq<Tag>)
    ensures var (t, r) := Applied(s, env, from, "Balance", params, extra);
      var asked := if "Recipient" in params then params["Recipient"]
                   else if "Target" in params then params["Target"] else from;
      && t == s
      && r == match env.check(asked)
              case None => Err(InvalidAccount)
              case Some(id) =>
                var bal := Decimal(At(s.balances, id));
                Ok(Reply([Notice(from, bal, [Tag("Balance", bal), Tag("Ticker", s.info.ticker), Tag("Account", asked)])],
                         map[]))
    ensures var (t, r) := Applied(s, env, from, "Total-Supply", params, extra);
      t == s && r == Ok(Reply([Notice(from, Decimal(s.totalSupply),
                                      [Tag("Action", "Total-Supply"), Tag("Ticker", s.info.ticker)])], map[]))
    ensures var (t, r) := Applied(s, env, from, "Balances", params, extra);
      t == s && exists m: map<string, string> ::
        && r == Ok(Reply([Notice(from, env.json(m), [Tag("Ticker", s.info.ticker)])], map[]))
        && m.Keys == s.balances.Keys && forall a <- m :: m[a] == Decimal(s.balances[a])
    ensures var (t, r) := Applied(s, env, from, "Info", params, extra);
      t == s.(initialCache := true) && r.Ok? && |r.value.messages| == 1
      && r.value.messages[0] == Notice(from, "", [
           Tag("Name", s.info.name), Tag("Ticker", s.info.ticker), Tag("Logo", s.info.logo),
           Tag("Denomination", Decimal(s.info.decimals)), Tag("Decimals", Decimal(s.info.decimals))])
      && (s.initialCache ==> r.value.cache == map[])
  {
    hide Decimal, FullCache;
    var m := map a | a in s.balances :: Decimal(s.balances[a]);
    assert m.Keys == s.balances.Keys;
    assert Applied(s, env, from, "Balances", params, extra).1
        == Ok(Reply([Notice(from, env.json(m), [Tag("Ticker", s.info.ticker)])], map[]));
  }

  // No other action does anything.
  lemma OthersDoNothing(s: State, env: Env, from: string, action: string, params: Params, extra: seq<Tag>)
    requires action !in {"Info", "Total-Supply", "Balance", "Balances", "Transfer", "Stake", "Unstake"}
    ensures var (t, r) := Applied(s, env, from, action, params, extra);
      t == s && r == if action == "Slash" then Ok(Reply([], map[])) else Err(InvalidAction)
  {
  }
}
