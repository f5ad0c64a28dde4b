/** The token process: the ledgers updated in place, and the dispatch on a request's action. */
module TokenVm {
  import opened Options
  import opened Numerals
  import opened Sums
  import opened Tags
  import opened AccIds
  import opened TokenState
  import RegistryState
  import RegistryVm

  class Token {
    const env: Env
    var info: Details
    var totalSupply: int
    var balances: map<string, int>
    var stakes: map<string, int>
    var initialCache: bool

    ghost function View(): State
      reads this
    {
      State(info, totalSupply, balances, stakes, initialCache)
    }

    // The supply is what the given ledgers hold.
    constructor (env: Env, info: Details, balances: map<string, int>, stakes: map<string, int>)
      ensures this.env == env
      ensures View() == State(info, SumMap(balances) + SumMap(stakes), balances, stakes, false)
    {
      this.env, this.info, this.balances, this.stakes := env, info, balances, stakes;
      initialCache, totalSupply := false, 0;
      new;
      var b := SumValues(balances);
      var s := SumValues(stakes);
      totalSupply := b + s;
    }

    // ------------------------------------------------------------------- ledgers

    method Increase(accId: string, amount: int)
      modifies this`balances
      ensures balances == Add(old(balances), accId, amount)
    {
      if amount == 0 { return; }
      balances := balances[accId := At(balances, accId) + amount];
    }

    method Decrease(accId: string, amount: int) returns (error: Option<Error>)
      modifies this`balances
      ensures match Sub(old(balances), accId, amount)
              case Some(m) => balances == m && error == None
              case None => balances == old(balances) && error == Some(InsufficientBalance)
    {
      if amount == 0 { return None; }
      if At(balances, accId) < amount { return Some(InsufficientBalance); }
      balances := balances[accId := At(balances, accId) - amount];
      error := None;
    }

    method IncreaseStake(accId: string, amount: int)
      modifies this`stakes
      ensures stakes == Add(old(stakes), accId, amount)
    {
      if amount == 0 { return; }
      stakes := stakes[accId := At(stakes, accId) + amount];
    }

    method DecreaseStake(accId: string, amount: int) returns (error: Option<Error>)
      modifies this`stakes
      ensures match Sub(old(stakes), accId, amount)
              case Some(m) => stakes == m && error == None
              case None => stakes == old(stakes) && error == Some(InsufficientStake)
    {
      if amount == 0 { return None; }
      if At(stakes, accId) < amount { return Some(InsufficientStake); }
      stakes := stakes[accId := At(stakes, accId) - amount];
      error := None;
    }

    method Transfer(from: string, to: string, amount: int) returns (error: Option<Error>)
      modifies this`balances
      ensures match Transferred(old(View()), env, from, to, amount)
              case Ok(t) => View() == t && error == None
              case Err(e) => View() == old(View()) && error == Some(e)
    {
      var id := env.check(to);
      if id.None? { return Some(InvalidAccount); }
      error := Decrease(from, amount);
      if error.Some? { return; }
      Increase(id.value, amount);
    }

    method Stake(from: string, amount: int) returns (error: Option<Error>)
      modifies this`balances, this`stakes
      ensures match Staked(old(View()), from, amount)
              case Ok(t) => View() == t && error == None
              case Err(e) => View() == old(View()) && error == Some(e)
    {
      error := Decrease(from, amount);
      if error.Some? { return; }
      IncreaseStake(from, amount);
    }

    method Unstake(from: string, amount: int) returns (error: Option<Error>)
      modifies this`balances, this`stakes
      ensures match Unstaked(old(View()), from, amount)
              case Ok(t) => View() == t && error == None
              case Err(e) => View() == old(View()) && error == Some(e)
    {
      error := DecreaseStake(from, amount);
      if error.Some? { return; }
      Increase(from, amount);
    }

    // --------------------------------------------------------------------- cache

    method CacheChangeBalance(accounts: seq<string>) returns (cache: map<string, string>)
      ensures cache == BalanceCache(View(), env.check, accounts)
    {
      cache := map[];
      for i := 0 to |accounts|
        invariant cache == BalanceCache(View(), env.check, accounts[..i])
      {
        assert accounts[..i + 1][..i] == accounts[..i];
        var accId := CanonicalOr(env.check, accounts[i]);
        cache := cache[BalanceKey(accId) := Decimal(At(balances, accId))];
      }
      assert accounts[..|accounts|] == accounts;
    }

    // One ledger's entries, taken in any order.
    method CacheLedger(prefix: string, m: map<string, int>) returns (cache: map<string, string>)
      ensures cache == LedgerCache(prefix, m)
    {
      cache := map[];
      var left := m.Keys;
      while left != {}
        invariant left <= m.Keys
        invariant cache == LedgerCache(prefix, m - left)
        decreases |left|
      {
        var a :| a in left;
        LedgerCacheStep(prefix, m, left, a);
        cache := cache[prefix + a := Decimal(m[a])];
        left := left - {a};
      }
      assert m - {} == m;
    }

    method InitCache() returns (cache: map<string, string>)
      modifies this`initialCache
      ensures initialCache
      ensures cache == if old(initialCache) then map[] else FullCache(old(View()), env.json)
    {
      hide LedgerCache, Decimal;
      if initialCache { return map[]; }
      var b := CacheLedger("balances:", balances);
      var s := CacheLedger("stakes:", stakes);
      cache := b + s + map["total-supply" := Decimal(totalSupply)]
        + map["info" := env.json(map["Name" := info.name, "Ticker" := info.ticker, "Logo" := info.logo,
                                     "Denomination" := Decimal(info.decimals), "Decimals" := Decimal(info.decimals)])];
      initialCache := true;
    }

    // ------------------------------------------------------------------- handlers

    method HandleInfo(from: string) returns (r: Result<Reply>)
      modifies this`initialCache
      ensures View() == old(View()).(initialCache := true)
      ensures r == Ok(InfoReply(old(View()), env, from))
    {
      hide FullCache;
      var decimals := Decimal(info.decimals);
      var cache := InitCache();
      r := Ok(Reply([Notice(from, "", [
        Tag("Name", info.name), Tag("Ticker", info.ticker), Tag("Logo", info.logo),
        Tag("Denomination", decimals), Tag("Decimals", decimals)])], cache));
    }

    method HandleBalanceOf(from: string, params: Params) returns (r: Result<Reply>)
      ensures r == BalanceReply(View(), env, from, Asked(from, params))
    {
      var accId := from;
      if "Recipient" in params {
        accId := params["Recipient"];
      } else if "Target" in params {
        accId := params["Target"];
      }
      var id := env.check(accId);
      if id.None? { return Err(InvalidAccount); }
      var bal := Decimal(At(balances, id.value));
      r := Ok(Reply([Notice(from, bal,
        [Tag("Balance", bal), Tag("Ticker", info.ticker), Tag("Account", accId)])], map[]));
    }

    method HandleBalances(from: string) returns (r: Result<Reply>)
      ensures r == Applied(View(), env, from, "Balances", map[], []).1
    {
      var out: map<string, string> := map[];
      var left := balances.Keys;
      while left != {}
        invariant left <= balances.Keys
        invariant out == map a | a in balances && a !in left :: Decimal(balances[a])
        decreases |left|
      {
        var a :| a in left;
        out := out[a := Decimal(balances[a])];
        left := left - {a};
      }
      assert out == map a | a in balances :: Decimal(balances[a]);
      r := Ok(Reply([Notice(from, env.json(out), [Tag("Ticker", info.ticker)])], map[]));
    }

    method ForwardedTags(params: Params) returns (extra: seq<Tag>)
      ensures Forwards(extra, params)
    {
      extra := [];
      var left := params.Keys;
      while left != {}
        invariant left <= params.Keys && NoDuplicates(extra)
        invariant forall t :: t in extra <==>
          t.name in params && t.name !in left && "X-" <= t.name && t.value == params[t.name]
        decreases |left|
      {
        var key :| key in left;
        left := left - {key};
        if "X-" <= key {
          assert forall i :: 0 <= i < |extra| ==> extra[i] in extra;
          extra := extra + [Tag(key, params[key])];
        }
      }
    }

    method HandleTransfer(from: string, params: Params) returns (r: Result<Reply>, extra: seq<Tag>)
      modifies this`balances
      ensures (View(), r) == TokenState.Transfer(old(View()), env, from, params, extra)
      ensures Forwards(extra, params)
    {
      hide BalanceCache, Forwards;
      extra := ForwardedTags(params);
      if "Recipient" !in params { return Err(MissingRecipient), extra; }
      var recipient := params["Recipient"];
      if "Quantity" !in params { return Err(MissingQuantity), extra; }
      var qty := params["Quantity"];
      var amount := ParseAmount(qty);
      if amount.Err? { return Err(amount.error), extra; }
      var error := Transfer(from, recipient, amount.value);
      if error.Some? { return Err(error.value), extra; }
      var debit := Notice(from, "You transferred " + qty + " to " + recipient,
        [Tag("Ticker", info.ticker), Tag("Action", "Debit-Notice"), Tag("Recipient", recipient),
         Tag("Quantity", qty)] + extra);
      var credit := Notice(recipient, "You received " + qty + " from " + from,
        [Tag("Ticker", info.ticker), Tag("Action", "Credit-Notice"), Tag("Sender", from),
         Tag("Quantity", qty)] + extra);
      var cache := CacheChangeBalance([from, recipient]);
      r := Ok(Reply([debit, credit], cache));
    }

    method HandleStake(from: string, params: Params) returns (r: Result<Reply>)
      modifies this`balances, this`stakes
      ensures (View(), r) == TokenState.Stake(old(View()), env, from, params)
    {
      hide BalanceCache, NodeNotice;
      var request := StakeRequest(env, from, params);
      if request.Err? { return Err(request.error); }
      var (registry, node, qty, amount) := request.value;
      var error := Stake(from, amount);
      if error.Some? { return Err(error.value); }
      var nodeNotice := GenNodeNotice(from, registry, node);
      var stakeNotice := Notice(from, "You staked " + qty,
        [Tag("Ticker", info.ticker), Tag("Action", "Stake-Notice"), Tag("Quantity", qty)]);
      assert stakeNotice == StakeNotice(View(), from, "staked", "Stake-Notice", qty);
      var cache := CacheChangeBalance([from]);
      r := Ok(Reply([stakeNotice, nodeNotice], cache + CacheChangeStake(from)));
    }

    method HandleUnstake(from: string, params: Params) returns (r: Result<Reply>)
      modifies this`balances, this`stakes
      ensures (View(), r) == TokenState.Unstake(old(View()), env, from, params)
    {
      hide BalanceCache, NodeNotice;
      var request := StakeRequest(env, from, params);
      if request.Err? { return Err(request.error); }
      var (registry, node, qty, amount) := request.value;
      var error := Unstake(from, amount);
      if error.Some? { return Err(error.value); }
      var nodeNotice := GenNodeNotice(from, registry, node);
      var unstakeNotice := Notice(from, "You unstaked " + qty,
        [Tag("Ticker", info.ticker), Tag("Action", "Unstake-Notice"), Tag("Quantity", qty)]);
      assert unstakeNotice == StakeNotice(View(), from, "unstaked", "Unstake-Notice", qty);
      var cache := CacheChangeBalance([from]);
      r := Ok(Reply([unstakeNotice, nodeNotice], cache + CacheChangeStake(from)));
    }

    function CacheChangeStake(accId: string): map<string, string>
      reads this
    {
      map[StakeKey(accId) := Decimal(At(stakes, accId))]
    }

    method GenNodeNotice(from: string, registry: string, node: RegistryState.Info) returns (msg: Notice)
      ensures msg == NodeNotice(View(), from, registry, node)
    {
      msg := Notice(registry, "", [Tag("Action", "Unregister"), Tag("Acc-Id", from)]);
      if At(stakes, from) < info.minAmount { return; }
      msg := Notice(registry, "",
        [Tag("Action", "Register"), Tag("Acc-Id", from), Tag("Name", node.name), Tag("Role", node.role),
         Tag("Desc", node.desc), Tag("URL", node.url)]);
    }

    // `extra` is the order in which a transfer met the request's own tags.
    method Apply(from: string, action: string, params: Params) returns (r: Result<Reply>, extra: seq<Tag>)
      modifies this
      ensures (View(), r) == Applied(old(View()), env, from, action, params, extra)
      ensures action == "Transfer" ==> Forwards(extra, params)
    {
      hide InfoReply, BalanceReply, Asked, TokenState.Transfer, TokenState.Stake, TokenState.Unstake, Forwards;
      extra := [];
      match action
      case "Info" => r := HandleInfo(from);
      case "Total-Supply" =>
        r := Ok(Reply([Notice(from, Decimal(totalSupply),
          [Tag("Action", "Total-Supply"), Tag("Ticker", info.ticker)])], map[]));
      case "Balance" => r := HandleBalanceOf(from, params);
      case "Balances" => r := HandleBalances(from);
      case "Transfer" => r, extra := HandleTransfer(from, params);
      case "Stake" => r := HandleStake(from, params);
      case "Unstake" => r := HandleUnstake(from, params);
      case "Slash" => r := Ok(Reply([], map[]));
      case _ => r := Err(InvalidAction);
    }
  }

  lemma LedgerCacheStep(prefix: string, m: map<string, int>, left: set<string>, a: string)
    requires a in left && left <= m.Keys
    ensures LedgerCache(prefix, m - (left - {a})) == LedgerCache(prefix, m - left)[prefix + a := Decimal(m[a])]
  {
    hide Decimal;
    var after, before := LedgerCache(prefix, m - (left - {a})), LedgerCache(prefix, m - left);
    forall k
      ensures k in after <==> k == prefix + a || k in before
    {
      if k in after && k != prefix + a {
        var b :| b in m - (left - {a}) && k == prefix + b;
        assert b in m - left;
      }
    }
    forall k | k in after
      ensures after[k] == before[prefix + a := Decimal(m[a])][k]
    {
      var b :| b in m - (left - {a}) && k == prefix + b;
      assert k[|prefix|..] == b;
      if k == prefix + a { assert (prefix + a)[|prefix|..] == a; }
    }
  }
}
