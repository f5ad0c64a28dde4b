/** The view a client builds by folding the caches of a run of token actions. */
module TokenCache {
  import opened Options
  import opened Numerals
  import opened Sums
  import opened Tags
  import opened AccIds
  import opened TokenState

  datatype Call = Call(from: string, action: string, params: Params, extra: seq<Tag>)

  function After(s: State, env: Env, c: Call): (State, Result<Reply>) {
    Applied(s, env, c.from, c.action, c.params, c.extra)
  }

  function Run(s: State, env: Env, calls: seq<Call>): State {
    if calls == [] then s else After(Run(s, env, calls[..|calls| - 1]), env, calls[|calls| - 1]).0
  }

  // The cache of each call that was saved, over what was there. A call's cache is saved with its result: not
  // when the call is run in DryRun mode only, and not when the node stops before it comes to the result.
  function ViewOf(s: State, env: Env, calls: seq<Call>, saved: set<nat>): map<string, string> {
    if calls == [] then map[] else
    var before, last := calls[..|calls| - 1], |calls| - 1;
    ViewOf(s, env, before, saved)
    + if last in saved then CacheOf(After(Run(s, env, before), env, calls[last]).1) else map[]
  }

  // What a key stands for in a state, if it is a key at all.
  function Meaning(s: State, json: Json, k: string): Option<string> {
    if k == "total-supply" then Some(Decimal(s.totalSupply))
    else if k == "info" then Some(InfoText(s, json))
    else if "balances:" <= k then Some(Decimal(At(s.balances, k[9..])))
    else if "stakes:" <= k then Some(Decimal(At(s.stakes, k[7..])))
    else None
  }

  // Every entry of the view is current.
  ghost predicate Current(view: map<string, string>, s: State, json: Json) {
    forall k <- view :: Meaning(s, json, k) == Some(view[k])
  }

  // The view has every account of either ledger.
  ghost predicate CoversAll(view: map<string, string>, s: State) {
    && (forall a <- s.balances :: BalanceKey(a) in view)
    && (forall a <- s.stakes :: StakeKey(a) in view)
    && "total-supply" in view && "info" in view
  }

  lemma MeaningOfAccounts(s: State, json: Json, a: string)
    ensures Meaning(s, json, BalanceKey(a)) == Some(Decimal(At(s.balances, a)))
    ensures Meaning(s, json, StakeKey(a)) == Some(Decimal(At(s.stakes, a)))
  {
    assert BalanceKey(a)[9..] == a && StakeKey(a)[7..] == a;
    assert BalanceKey(a)[0] == 'b' && StakeKey(a)[0] == 's';
    assert "total-supply"[0] == 't' && "info"[0] == 'i';
  }

  lemma LedgerCacheEntry(prefix: string, m: map<string, int>, k: string)
    requires k in LedgerCache(prefix, m)
    ensures prefix <= k && k[|prefix|..] in m && LedgerCache(prefix, m)[k] == Decimal(m[k[|prefix|..]])
  {
    var a :| a in m && k == prefix + a;
    assert k[|prefix|..] == a;
  }

  lemma FullCacheIsCurrent(s: State, json: Json)
    ensures Current(FullCache(s, json), s, json) && CoversAll(FullCache(s, json), s)
  {
    hide FullCache, Meaning, CoversAll;
    forall k | k in FullCache(s, json)
      ensures Meaning(s, json, k) == Some(FullCache(s, json)[k])
    {
      FullCacheEntry(s, json, k);
    }
    FullCacheCovers(s, json);
  }

  lemma FullCacheCovers(s: State, json: Json)
    ensures CoversAll(FullCache(s, json), s)
  {
    hide Decimal, InfoText;
  }

  lemma FullCacheEntry(s: State, json: Json, k: string)
    requires k in FullCache(s, json)
    ensures Meaning(s, json, k) == Some(FullCache(s, json)[k])
  {
    hide Decimal, InfoText;
    var b, t := LedgerCache("balances:", s.balances), LedgerCache("stakes:", s.stakes);
    if k != "total-supply" && k != "info" {
      if k in t {
        LedgerCacheEntry("stakes:", s.stakes, k);
        MeaningOfAccounts(s, json, k[7..]);
        assert k == StakeKey(k[7..]);
      } else {
        LedgerCacheEntry("balances:", s.balances, k);
      }
    }
  }

  lemma {:induction false} BalanceCacheEntry(s: State, json: Json, check: IdCheck, accounts: seq<string>, k: string)
    requires k in BalanceCache(s, check, accounts)
    ensures Meaning(s, json, k) == Some(BalanceCache(s, check, accounts)[k])
    decreases |accounts|
  {
    var n := |accounts| - 1;
    var last := CanonicalOr(check, accounts[n]);
    if k == BalanceKey(last) {
      MeaningOfAccounts(s, json, last);
    } else {
      BalanceCacheEntry(s, json, check, accounts[..n], k);
    }
  }

  lemma StakeCacheEntry(s: State, json: Json, accId: string)
    ensures Current(StakeCache(s, accId), s, json)
  {
    MeaningOfAccounts(s, json, accId);
  }

  // What an action changes it caches, and all it caches is current after it.
  ghost predicate Reports(s: State, t: State, json: Json, cache: map<string, string>) {
    && Current(cache, t, json)
    && (forall k :: Meaning(t, json, k) == Meaning(s, json, k) || k in cache)
    && (forall a <- t.balances :: a in s.balances || BalanceKey(a) in cache)
    && (forall a <- t.stakes :: a in s.stakes || StakeKey(a) in cache)
  }

  // Two states whose ledgers differ at most at one account each.
  lemma MeaningElsewhere(s: State, t: State, json: Json, k: string, changed: set<string>, staked: set<string>)
    requires t.info == s.info && t.totalSupply == s.totalSupply
    requires forall a :: a !in changed ==> At(t.balances, a) == At(s.balances, a)
    requires forall a :: a !in staked ==> At(t.stakes, a) == At(s.stakes, a)
    requires Meaning(t, json, k) != Meaning(s, json, k)
    ensures (exists a <- changed :: k == BalanceKey(a)) || exists a <- staked :: k == StakeKey(a)
  {
    if "balances:" <= k {
      assert k == BalanceKey(k[9..]);
    } else {
      assert k == StakeKey(k[7..]);
    }
  }

  lemma TwoAccounts(s: State, check: IdCheck, a: string, b: string)
    ensures BalanceKey(CanonicalOr(check, a)) in BalanceCache(s, check, [a, b])
    ensures BalanceKey(CanonicalOr(check, b)) in BalanceCache(s, check, [a, b])
    ensures BalanceKey(CanonicalOr(check, a)) in BalanceCache(s, check, [a])
  {
    assert [a, b][..1] == [a] && [a][..0] == [];
    assert BalanceKey(CanonicalOr(check, a)) in BalanceCache(s, check, [a]);
    assert BalanceKey(CanonicalOr(check, a)) in BalanceCache(s, check, [a, b][..1]);
  }

  lemma TransferReports(s: State, env: Env, from: string, to: string, amount: int, json: Json)
    requires Inv(s, env.check) && Idempotent(env.check) && amount >= 0
    requires Transferred(s, env, from, to, amount).Ok?
    ensures var t := Transferred(s, env, from, to, amount).value;
      Reports(s, t, json, BalanceCache(t, env.check, [from, to]))
  {
    hide SumMap, Meaning;
    var t := Transferred(s, env, from, to, amount).value;
    var cache := BalanceCache(t, env.check, [from, to]);
    TwoAccounts(t, env.check, from, to);
    if amount > 0 { PayerIsCanonical(s.balances, env.check, from, amount); }
    forall k | k in cache
      ensures Meaning(t, json, k) == Some(cache[k])
    {
      BalanceCacheEntry(t, json, env.check, [from, to], k);
    }
    var changed := if amount == 0 then {} else {from, env.check(to).value};
    forall k
      ensures Meaning(t, json, k) == Meaning(s, json, k) || k in cache
    {
      if Meaning(t, json, k) != Meaning(s, json, k) {
        MeaningElsewhere(s, t, json, k, changed, {});
      }
    }
  }

  lemma StakeReports(s: State, t: State, check: IdCheck, from: string, json: Json)
    requires Canonical(check, from) && t.info == s.info && t.totalSupply == s.totalSupply
    requires forall a :: a != from ==> At(t.balances, a) == At(s.balances, a) && At(t.stakes, a) == At(s.stakes, a)
    requires t.balances.Keys <= s.balances.Keys + {from} && t.stakes.Keys <= s.stakes.Keys + {from}
    ensures Reports(s, t, json, BalanceCache(t, check, [from]) + StakeCache(t, from))
  {
    hide SumMap, Meaning;
    var cache := BalanceCache(t, check, [from]) + StakeCache(t, from);
    TwoAccounts(t, check, from, from);
    StakeCacheEntry(t, json, from);
    forall k | k in cache
      ensures Meaning(t, json, k) == Some(cache[k])
    {
      if k !in StakeCache(t, from) { BalanceCacheEntry(t, json, check, [from], k); }
    }
    forall k
      ensures Meaning(t, json, k) == Meaning(s, json, k) || k in cache
    {
      if Meaning(t, json, k) != Meaning(s, json, k) {
        MeaningElsewhere(s, t, json, k, {from}, {from});
      }
    }
  }

  lemma InfoReports(s: State, env: Env, from: string)
    ensures var t := s.(initialCache := true);
      Reports(s, t, env.json, InfoReply(s, env, from).cache)
      && (!s.initialCache ==> CoversAll(InfoReply(s, env, from).cache, t))
  {
    hide FullCache, Meaning, InfoText, Decimal;
    FullCacheIsCurrent(s, env.json);
    SameMeaning(s, s.(initialCache := true), env.json);
  }

  lemma TransferStepReports(s: State, env: Env, from: string, params: Params, extra: seq<Tag>)
    requires Inv(s, env.check) && Idempotent(env.check)
    ensures var (t, r) := Transfer(s, env, from, params, extra); Reports(s, t, env.json, CacheOf(r))
  {
    hide SumMap, BalanceCache, Meaning, ParseAmount, Transferred;
    if Transfer(s, env, from, params, extra).1.Ok? {
      TransferReports(s, env, from, params["Recipient"], ParseAmount(params["Quantity"]).value, env.json);
    }
  }

  lemma StakeStepReports(s: State, env: Env, from: string, params: Params)
    requires Inv(s, env.check) && Idempotent(env.check)
    ensures var (t, r) := Stake(s, env, from, params); Reports(s, t, env.json, CacheOf(r))
    ensures var (t, r) := Unstake(s, env, from, params); Reports(s, t, env.json, CacheOf(r))
  {
    hide SumMap, BalanceCache, StakeCache, Meaning, NodeNotice, StakeRequest;
    if Stake(s, env, from, params).1.Ok? {
      StakerIsCanonical(env, from, params);
      StakeReports(s, Stake(s, env, from, params).0, env.check, from, env.json);
    }
    if Unstake(s, env, from, params).1.Ok? {
      StakerIsCanonical(env, from, params);
      StakeReports(s, Unstake(s, env, from, params).0, env.check, from, env.json);
    }
  }

  lemma StepReports(s: State, env: Env, c: Call)
    requires Inv(s, env.check) && Idempotent(env.check)
    ensures var (t, r) := After(s, env, c);
      Reports(s, t, env.json, CacheOf(r))
      && (t.initialCache && !s.initialCache ==> CoversAll(CacheOf(r), t))
  {
    hide Transfer, Stake, Unstake, InfoReply, CoversAll, TokenState.Inv, Meaning, Reports;
    InfoReports(s, env, c.from);
    TransferStepReports(s, env, c.from, c.params, c.extra);
    StakeStepReports(s, env, c.from, c.params);
    InitialCacheStep(s, env, c);
    NothingReports(s, env.json);
  }

  lemma NothingReports(s: State, json: Json)
    ensures Reports(s, s, json, map[])
  {
  }

  lemma InitialCacheStep(s: State, env: Env, c: Call)
    ensures c.action != "Info" ==> After(s, env, c).0.initialCache == s.initialCache
  {
    FailureChangesNothing(s, env, c.from, c.action, c.params, c.extra);
  }

  lemma SameMeaning(s: State, t: State, json: Json)
    requires t == s.(initialCache := t.initialCache)
    ensures forall k :: Meaning(t, json, k) == Meaning(s, json, k)
  {
  }

  // The view is current, and complete once Info has been asked.
  ghost predicate Faithful(view: map<string, string>, s: State, env: Env) {
    Current(view, s, env.json) && (s.initialCache ==> CoversAll(view, s))
  }

  lemma ViewStep(view: map<string, string>, s: State, env: Env, c: Call)
    requires Inv(s, env.check) && Faithful(view, s, env) && Idempotent(env.check)
    ensures var (t, r) := After(s, env, c); Inv(t, env.check) && Faithful(view + CacheOf(r), t, env)
  {
    hide SumMap, After, Meaning, CacheOf, TokenState.Inv;
    StepReports(s, env, c);
    StepKeepsInv(s, env, c);
  }

  lemma StepKeepsInv(s: State, env: Env, c: Call)
    requires Inv(s, env.check) && Idempotent(env.check)
    ensures Inv(After(s, env, c).0, env.check)
  {
    InvStep(s, env, c.from, c.action, c.params, c.extra);
  }

  lemma {:induction false} InvAfter(s: State, env: Env, calls: seq<Call>)
    requires Inv(s, env.check) && Idempotent(env.check)
    ensures Inv(Run(s, env, calls), env.check)
    decreases |calls|
  {
    hide After, TokenState.Inv;
    if calls != [] {
      InvAfter(s, env, calls[..|calls| - 1]);
      StepKeepsInv(Run(s, env, calls[..|calls| - 1]), env, calls[|calls| - 1]);
    }
  }

  lemma {:induction false} ViewRun(s: State, env: Env, calls: seq<Call>, saved: set<nat>)
    requires Inv(s, env.check) && !s.initialCache && Idempotent(env.check)
    requires forall i :: 0 <= i < |calls| ==> i in saved
    ensures Faithful(ViewOf(s, env, calls, saved), Run(s, env, calls), env)
    decreases |calls|
  {
    hide SumMap, After, Meaning, CacheOf, TokenState.Inv;
    if calls != [] {
      var before := calls[..|calls| - 1];
      ViewRun(s, env, before, saved);
      InvAfter(s, env, before);
      ViewStep(ViewOf(s, env, before, saved), Run(s, env, before), env, calls[|calls| - 1]);
    }
  }

  lemma {:induction false} CacheIsInitialAfterInfo(s: State, env: Env, calls: seq<Call>)
    ensures Run(s, env, calls).initialCache <==> s.initialCache || exists i :: 0 <= i < |calls| && calls[i].action == "Info"
    ensures Run(s, env, calls).totalSupply == s.totalSupply
    decreases |calls|
  {
    if calls != [] {
      var n := |calls| - 1;
      CacheIsInitialAfterInfo(s, env, calls[..n]);
      var c := calls[n];
      FailureChangesNothing(Run(s, env, calls[..n]), env, c.from, c.action, c.params, c.extra);
    }
  }

  // Over any run from genesis: balances and stakes add up to the supply and none is negative.
  lemma SupplyIsConserved(info: Details, accId: string, env: Env, calls: seq<Call>)
    requires Canonical(env.check, accId) && Idempotent(env.check)
    ensures var s := Run(Genesis(info, accId), env, calls);
      && SumMap(s.balances) + SumMap(s.stakes) == s.totalSupply == GENESIS_BALANCE + GENESIS_STAKE
      && forall a :: At(s.balances, a) >= 0 && At(s.stakes, a) >= 0
  {
    GenesisInv(info, accId, env.check);
    InvAfter(Genesis(info, accId), env, calls);
    CacheIsInitialAfterInfo(Genesis(info, accId), env, calls);
  }

  lemma GenesisInv(info: Details, accId: string, check: IdCheck)
    requires Canonical(check, accId)
    ensures Inv(Genesis(info, accId), check)
  {
    var none: map<string, int> := map[];
    SumUpdate(none, accId, GENESIS_BALANCE);
    SumUpdate(none, accId, GENESIS_STAKE);
    assert none[accId := GENESIS_BALANCE] == map[accId := GENESIS_BALANCE];
    assert none[accId := GENESIS_STAKE] == map[accId := GENESIS_STAKE];
  }

  // Over any run from genesis whose caches are all saved: the view is current, and once Info has been asked
  // it has every account.
  lemma FoldedCacheIsCurrent(info: Details, accId: string, env: Env, calls: seq<Call>, saved: set<nat>)
    requires Canonical(env.check, accId) && Idempotent(env.check)
    requires forall i :: 0 <= i < |calls| ==> i in saved
    ensures var s := Run(Genesis(info, accId), env, calls);
      && Current(ViewOf(Genesis(info, accId), env, calls, saved), s, env.json)
      && ((exists i :: 0 <= i < |calls| && calls[i].action == "Info") ==>
            CoversAll(ViewOf(Genesis(info, accId), env, calls, saved), s))
  {
    GenesisInv(info, accId, env.check);
    ViewRun(Genesis(info, accId), env, calls, saved);
    CacheIsInitialAfterInfo(Genesis(info, accId), env, calls);
  }

  // ---------------------------------------------------------------- when caches are not saved

  // A call that nobody needs to hear of: after the first Info it changes nothing, before it nothing that is in
  // the view, and it is not the first Info itself.
  ghost predicate Unnoticed(view: map<string, string>, s: State, env: Env, c: Call) {
    var t := After(s, env, c).0;
    && (c.action == "Info" ==> s.initialCache)
    && forall k :: k in view || s.initialCache ==> Meaning(t, env.json, k) == Meaning(s, env.json, k)
  }

  lemma CoveredKeys(view: map<string, string>, s: State, json: Json, k: string)
    requires CoversAll(view, s) && k !in view
    ensures Meaning(s, json, k) == if "balances:" <= k || "stakes:" <= k then Some(Decimal(0)) else None
  {
    if "balances:" <= k {
      assert k == BalanceKey(k[9..]);
    } else if "stakes:" <= k {
      assert k == StakeKey(k[7..]);
    }
  }

  // No account appears with nothing in it.
  lemma NewAccounts(s: State, env: Env, c: Call)
    ensures var t := After(s, env, c).0;
      && (forall a <- t.balances :: a in s.balances || t.balances[a] != 0)
      && (forall a <- t.stakes :: a in s.stakes || t.stakes[a] != 0)
  {
    hide BalanceCache, StakeCache, FullCache, NodeNotice;
  }

  lemma NothingNew(view: map<string, string>, s: State, env: Env, c: Call)
    requires CoversAll(view, s) && forall k :: Meaning(After(s, env, c).0, env.json, k) == Meaning(s, env.json, k)
    ensures CoversAll(view, After(s, env, c).0)
  {
    hide After, Meaning;
    var t := After(s, env, c).0;
    NewAccounts(s, env, c);
    forall a | a in t.balances
      ensures BalanceKey(a) in view
    {
      MeaningOfAccounts(s, env.json, a);
      MeaningOfAccounts(t, env.json, a);
      DecimalRoundTrip(At(s.balances, a));
      DecimalRoundTrip(At(t.balances, a));
    }
    forall a | a in t.stakes
      ensures StakeKey(a) in view
    {
      MeaningOfAccounts(s, env.json, a);
      MeaningOfAccounts(t, env.json, a);
      DecimalRoundTrip(At(s.stakes, a));
      DecimalRoundTrip(At(t.stakes, a));
    }
  }

  // A call whose cache is lost leaves the view faithful exactly when nobody needs to hear of it.
  lemma UnsavedStep(view: map<string, string>, s: State, env: Env, c: Call)
    requires Faithful(view, s, env) && (!s.initialCache ==> "info" !in view)
    ensures var t := After(s, env, c).0;
      Faithful(view, t, env) <==> Unnoticed(view, s, env, c)
  {
    hide After, Meaning, CoversAll;
    var t := After(s, env, c).0;
    InitialCacheStep(s, env, c);
    InfoSetsCache(s, env, c);
    if Faithful(view, t, env) {
      if t.initialCache { InfoIsCovered(view, t); }
      forall k | k in view || s.initialCache
        ensures Meaning(t, env.json, k) == Meaning(s, env.json, k)
      {
        if k !in view {
          CoveredKeys(view, s, env.json, k);
          CoveredKeys(view, t, env.json, k);
        }
      }
    } else if Unnoticed(view, s, env, c) && s.initialCache {
      NothingNew(view, s, env, c);
    }
  }

  lemma InfoIsCovered(view: map<string, string>, s: State)
    requires CoversAll(view, s)
    ensures "info" in view
  {
  }

  lemma InfoSetsCache(s: State, env: Env, c: Call)
    ensures s.initialCache || c.action == "Info" ==> After(s, env, c).0.initialCache
  {
    hide FullCache, BalanceCache, StakeCache, NodeNotice;
  }

  // Before the first Info nothing but single accounts is cached.
  lemma {:induction false} NoInfoYet(s: State, env: Env, calls: seq<Call>, saved: set<nat>)
    requires !Run(s, env, calls).initialCache
    ensures "info" !in ViewOf(s, env, calls, saved)
    decreases |calls|
  {
    hide After, CacheOf;
    if calls != [] {
      var before := calls[..|calls| - 1];
      InfoSetsCache(Run(s, env, before), env, calls[|calls| - 1]);
      NoInfoYet(s, env, before, saved);
      NoInfoCached(Run(s, env, before), env, calls[|calls| - 1]);
    }
  }

  lemma NoInfoCached(s: State, env: Env, c: Call)
    requires c.action != "Info"
    ensures "info" !in CacheOf(After(s, env, c).1)
  {
    hide NodeNotice, BalanceCache;
    assert "info"[0] == 'i' && forall a :: StakeKey(a)[0] == 's';
    forall t, accounts
      ensures "info" !in BalanceCache(t, env.check, accounts)
    {
      NoInfoInBalances(t, env.check, accounts);
    }
  }

  lemma {:induction false} NoInfoInBalances(s: State, check: IdCheck, accounts: seq<string>)
    ensures "info" !in BalanceCache(s, check, accounts)
    decreases |accounts|
  {
    if accounts != [] {
      NoInfoInBalances(s, check, accounts[..|accounts| - 1]);
      assert "info"[0] == 'i' && BalanceKey(CanonicalOr(check, accounts[|accounts| - 1]))[0] == 'b';
    }
  }

  ghost predicate FaithfulAfter(g: State, env: Env, calls: seq<Call>, saved: set<nat>, n: nat)
    requires n <= |calls|
  {
    Faithful(ViewOf(g, env, calls[..n], saved), Run(g, env, calls[..n]), env)
  }

  // The i-th call's cache is saved, or nobody needs to hear of it.
  ghost predicate SavedOrUnnoticed(g: State, env: Env, calls: seq<Call>, saved: set<nat>, i: nat)
    requires i < |calls|
  {
    i in saved || Unnoticed(ViewOf(g, env, calls[..i], saved), Run(g, env, calls[..i]), env, calls[i])
  }

  lemma FaithfulStep(g: State, env: Env, calls: seq<Call>, saved: set<nat>, n: nat)
    requires Inv(g, env.check) && !g.initialCache && Idempotent(env.check)
    requires n < |calls| && FaithfulAfter(g, env, calls, saved, n)
    ensures FaithfulAfter(g, env, calls, saved, n + 1) <==> SavedOrUnnoticed(g, env, calls, saved, n)
  {
    hide SumMap, After, CacheOf, TokenState.Inv, Faithful, Unnoticed;
    assert calls[..n + 1][..n] == calls[..n];
    var view, s := ViewOf(g, env, calls[..n], saved), Run(g, env, calls[..n]);
    InvAfter(g, env, calls[..n]);
    if n in saved {
      ViewStep(view, s, env, calls[n]);
    } else {
      if !s.initialCache { NoInfoYet(g, env, calls[..n], saved); }
      UnsavedStep(view, s, env, calls[n]);
      assert view + map[] == view;
    }
  }

  // From genesis, the view is faithful at every moment up to n exactly when nobody needs to hear of any call
  // before n whose cache was lost.
  lemma {:induction false} AlwaysFaithfulIff(info: Details, accId: string, env: Env, calls: seq<Call>, saved: set<nat>, n: nat)
    requires Canonical(env.check, accId) && Idempotent(env.check) && n <= |calls|
    ensures (forall m :: 0 <= m <= n ==> FaithfulAfter(Genesis(info, accId), env, calls, saved, m))
      <==> forall i :: 0 <= i < n ==> SavedOrUnnoticed(Genesis(info, accId), env, calls, saved, i)
    decreases n
  {
    hide FaithfulAfter, SavedOrUnnoticed, TokenState.Inv;
    GenesisInv(info, accId, env.check);
    var g := Genesis(info, accId);
    if n == 0 {
      FaithfulFromStart(g, env, calls, saved);
    } else {
      AlwaysFaithfulIff(info, accId, env, calls, saved, n - 1);
      if FaithfulAfter(g, env, calls, saved, n - 1) {
        FaithfulStep(g, env, calls, saved, n - 1);
      }
    }
  }

  lemma FaithfulFromStart(g: State, env: Env, calls: seq<Call>, saved: set<nat>)
    requires !g.initialCache
    ensures FaithfulAfter(g, env, calls, saved, 0)
  {
    assert calls[..0] == [];
  }

  // The view is asked for, then one unit is sent while nothing is saved: the view keeps the old balance.
  lemma LostCacheGoesStale(info: Details, accId: string, env: Env, to: string)
    requires Canonical(env.check, accId) && Canonical(env.check, to) && to != accId && Idempotent(env.check)
    ensures var calls := [Call(accId, "Info", map[], []),
                          Call(accId, "Transfer", map["Recipient" := to, "Quantity" := Decimal(1)], [])];
      && FaithfulAfter(Genesis(info, accId), env, calls, {0}, 1)
      && !FaithfulAfter(Genesis(info, accId), env, calls, {0}, 2)
  {
    hide FaithfulAfter, FullCache, BalanceCache, Meaning, Decimal, ParseInt;
    var g, pay := Genesis(info, accId), map["Recipient" := to, "Quantity" := Decimal(1)];
    var calls := [Call(accId, "Info", map[], []), Call(accId, "Transfer", pay, [])];
    GenesisInv(info, accId, env.check);
    FaithfulFromStart(g, env, calls, {0});
    FaithfulStep(g, env, calls, {0}, 0);
    FaithfulStep(g, env, calls, {0}, 1);
    assert calls[..1] == [calls[0]] && calls[..1][..0] == [];
    var s := g.(initialCache := true);
    assert Run(g, env, calls[..1]) == s;
    DecimalRoundTrip(1);
    var t := After(s, env, calls[1]).0;
    assert At(t.balances, accId) == GENESIS_BALANCE - 1;
    MeaningOfAccounts(s, env.json, accId);
    MeaningOfAccounts(t, env.json, accId);
    DecimalRoundTrip(GENESIS_BALANCE);
    DecimalRoundTrip(GENESIS_BALANCE - 1);
  }
}
