/** The token process as values: what each action does to the ledgers, and what it sends and caches. */
module TokenState {
  import opened Options
  import opened Numerals
  import opened Sums
  import opened Tags
  import opened AccIds
  import RegistryState
  import RegistryVm

  datatype Details = Details(id: string, name: string, ticker: string, decimals: int, logo: string, minAmount: int)

  datatype State = State(
    info: Details, totalSupply: int, balances: map<string, int>, stakes: map<string, int>, initialCache: bool)

  datatype Error =
    | MissingRecipient
    | MissingQuantity
    | InvalidQuantityFormat
    | NegativeQuantity
    | InsufficientBalance
    | InsufficientStake
    | Unauthorized
    | InvalidAction
    | InvalidAccount
    | BadNode(why: RegistryVm.Error)

  datatype Result<T> = Ok(value: T) | Err(error: Error)

  datatype Notice = Notice(target: string, data: string, tags: seq<Tag>)

  datatype Reply = Reply(messages: seq<Notice>, cache: map<string, string>)

  type Params = map<string, string>

  // How a table of strings is written as JSON text.
  type Json = map<string, string> -> string

  datatype Env = Env(check: IdCheck, json: Json)

  const STAKE_MIN_AMOUNT := 1000000000000
  const GENESIS_BALANCE := 20000000000000000000
  const GENESIS_STAKE := 1000000000000000000

  function Genesis(info: Details, accId: string): State {
    State(info, GENESIS_BALANCE + GENESIS_STAKE, map[accId := GENESIS_BALANCE], map[accId := GENESIS_STAKE], false)
  }

  // --------------------------------------------------------------------- ledgers

  function Add(m: map<string, int>, accId: string, amount: int): map<string, int> {
    if amount == 0 then m else m[accId := At(m, accId) + amount]
  }

  function Sub(m: map<string, int>, accId: string, amount: int): Option<map<string, int>> {
    if amount == 0 then Some(m)
    else if At(m, accId) < amount then None
    else Some(m[accId := At(m, accId) - amount])
  }

  function ParseAmount(qty: string): (r: Result<int>)
    ensures r.Ok? ==> r.value >= 0
  {
    var n := ParseInt(qty);
    if n.None? then Err(InvalidQuantityFormat)
    else if n.value < 0 then Err(NegativeQuantity)
    else Ok(n.value)
  }

  function Transferred(s: State, env: Env, from: string, to: string, amount: int): Result<State> {
    var id := env.check(to);
    if id.None? then Err(InvalidAccount) else
    var left := Sub(s.balances, from, amount);
    if left.None? then Err(InsufficientBalance)
    else Ok(s.(balances := Add(left.value, id.value, amount)))
  }

  function Staked(s: State, from: string, amount: int): Result<State> {
    var left := Sub(s.balances, from, amount);
    if left.None? then Err(InsufficientBalance)
    else Ok(s.(balances := left.value, stakes := Add(s.stakes, from, amount)))
  }

  function Unstaked(s: State, from: string, amount: int): Result<State> {
    var left := Sub(s.stakes, from, amount);
    if left.None? then Err(InsufficientStake)
    else Ok(s.(stakes := left.value, balances := Add(s.balances, from, amount)))
  }

  // ----------------------------------------------------------------------- cache

  function BalanceKey(accId: string): string { "balances:" + accId }

  function StakeKey(accId: string): string { "stakes:" + accId }

  function CanonicalOr(check: IdCheck, id: string): string {
    match check(id)
    case Some(c) => c
    case None => ""
  }

  // Later accounts overwrite earlier ones, with the same value.
  function BalanceCache(s: State, check: IdCheck, accounts: seq<string>): map<string, string> {
    if accounts == [] then map[] else
    var last := CanonicalOr(check, accounts[|accounts| - 1]);
    BalanceCache(s, check, accounts[..|accounts| - 1])[BalanceKey(last) := Decimal(At(s.balances, last))]
  }

  function StakeCache(s: State, accId: string): map<string, string> {
    map[StakeKey(accId) := Decimal(At(s.stakes, accId))]
  }

  function InfoText(s: State, json: Json): string {
    json(map["Name" := s.info.name, "Ticker" := s.info.ticker, "Logo" := s.info.logo,
             "Denomination" := Decimal(s.info.decimals), "Decimals" := Decimal(s.info.decimals)])
  }

  // All entries of a ledger, under a prefix.
  function LedgerCache(prefix: string, m: map<string, int>): map<string, string> {
    map key | key in (set a | a in m.Keys :: prefix + a) ::
      Decimal(At(m, if |prefix| <= |key| then key[|prefix|..] else ""))
  }

  function FullCache(s: State, json: Json): map<string, string> {
    LedgerCache("balances:", s.balances) + LedgerCache("stakes:", s.stakes)
    + map["total-supply" := Decimal(s.totalSupply)] + map["info" := InfoText(s, json)]
  }

  // --------------------------------------------------------------------- actions

  function StakeRequest(env: Env, from: string, params: Params): Result<(string, RegistryState.Info, string, int)> {
    if "Registry" !in params then Err(MissingQuantity) else
    match RegistryVm.Decode(env.check, params)
    case Err(e) => Err(BadNode(e))
    case Ok(node) =>
      if from != node.accId then Err(Unauthorized)
      else if "Quantity" !in params then Err(MissingQuantity)
      else
        match ParseAmount(params["Quantity"])
        case Err(e) => Err(e)
        case Ok(amount) => Ok((params["Registry"], node, params["Quantity"], amount))
  }

  // Register while the stake reaches the minimum, else Unregister.
  function NodeNotice(s: State, from: string, registry: string, node: RegistryState.Info): Notice {
    if At(s.stakes, from) < s.info.minAmount
    then Notice(registry, "", [Tag("Action", "Unregister"), Tag("Acc-Id", from)])
    else Notice(registry, "", RegisterTags(from, node))
  }

  function RegisterTags(from: string, node: RegistryState.Info): seq<Tag> {
    [Tag("Action", "Register"), Tag("Acc-Id", from), Tag("Name", node.name), Tag("Role", node.role),
     Tag("Desc", node.desc), Tag("URL", node.url)]
  }

  function StakeNotice(s: State, from: string, verb: string, action: string, qty: string): Notice {
    Notice(from, "You " + verb + " " + qty,
      [Tag("Ticker", s.info.ticker), Tag("Action", action), Tag("Quantity", qty)])
  }

  // Tags of the request that go on to both sides of a transfer, in whatever order the map gives them.
  ghost predicate Forwards(extra: seq<Tag>, params: Params) {
    && (forall t :: t in extra <==> t.name in params && "X-" <= t.name && t.value == params[t.name])
    && NoDuplicates(extra)
  }

  function TransferReply(s: State, env: Env, from: string, recipient: string, qty: string, extra: seq<Tag>): Reply {
    var debit := Notice(from, "You transferred " + qty + " to " + recipient,
      [Tag("Ticker", s.info.ticker), Tag("Action", "Debit-Notice"), Tag("Recipient", recipient),
       Tag("Quantity", qty)] + extra);
    var credit := Notice(recipient, "You received " + qty + " from " + from,
      [Tag("Ticker", s.info.ticker), Tag("Action", "Credit-Notice"), Tag("Sender", from),
       Tag("Quantity", qty)] + extra);
    Reply([debit, credit], BalanceCache(s, env.check, [from, recipient]))
  }

  function Transfer(s: State, env: Env, from: string, params: Params, extra: seq<Tag>): (State, Result<Reply>) {
    if "Recipient" !in params then (s, Err(MissingRecipient))
    else if "Quantity" !in params then (s, Err(MissingQuantity))
    else
      match ParseAmount(params["Quantity"])
      case Err(e) => (s, Err(e))
      case Ok(amount) =>
        match Transferred(s, env, from, params["Recipient"], amount)
        case Err(e) => (s, Err(e))
        case Ok(t) => (t, Ok(TransferReply(t, env, from, params["Recipient"], params["Quantity"], extra)))
  }

  function StakeReply(s: State, env: Env, from: string, registry: string, node: RegistryState.Info,
                      notice: Notice): Reply {
    Reply([notice, NodeNotice(s, from, registry, node)],
      BalanceCache(s, env.check, [from]) + StakeCache(s, from))
  }

  function Stake(s: State, env: Env, from: string, params: Params): (State, Result<Reply>) {
    match StakeRequest(env, from, params)
    case Err(e) => (s, Err(e))
    case Ok((registry, node, qty, amount)) =>
      match Staked(s, from, amount)
      case Err(e) => (s, Err(e))
      case Ok(t) =>
        (t, Ok(StakeReply(t, env, from, registry, node, StakeNotice(t, from, "staked", "Stake-Notice", qty))))
  }

  function Unstake(s: State, env: Env, from: string, params: Params): (State, Result<Reply>) {
    match StakeRequest(env, from, params)
    case Err(e) => (s, Err(e))
    case Ok((registry, node, qty, amount)) =>
      match Unstaked(s, from, amount)
      case Err(e) => (s, Err(e))
      case Ok(t) =>
        (t, Ok(StakeReply(t, env, from, registry, node, StakeNotice(t, from, "unstaked", "Unstake-Notice", qty))))
  }

  function InfoReply(s: State, env: Env, from: string): Reply {
    Reply([Notice(from, "", [
      Tag("Name", s.info.name), Tag("Ticker", s.info.ticker), Tag("Logo", s.info.logo),
      Tag("Denomination", Decimal(s.info.decimals)), Tag("Decimals", Decimal(s.info.decimals))])],
      if s.initialCache then map[] else FullCache(s, env.json))
  }

  function Asked(from: string, params: Params): string {
    if "Recipient" in params then params["Recipient"]
    else if "Target" in params then params["Target"]
    else from
  }

  function BalanceReply(s: State, env: Env, from: string, accId: string): Result<Reply> {
    var id := env.check(accId);
    if id.None? then Err(InvalidAccount) else
    var bal := Decimal(At(s.balances, id.value));
    Ok(Reply([Notice(from, bal,
      [Tag("Balance", bal), Tag("Ticker", s.info.ticker), Tag("Account", accId)])], map[]))
  }

  function Applied(s: State, env: Env, from: string, action: string, params: Params, extra: seq<Tag>)
    : (State, Result<Reply>)
  {
    match action
    case "Info" => (s.(initialCache := true), Ok(InfoReply(s, env, from)))
    case "Total-Supply" =>
      (s, Ok(Reply([Notice(from, Decimal(s.totalSupply),
        [Tag("Action", "Total-Supply"), Tag("Ticker", s.info.ticker)])], map[])))
    case "Balance" => (s, BalanceReply(s, env, from, Asked(from, params)))
    case "Balances" =>
      (s, Ok(Reply([Notice(from, env.json(map a | a in s.balances :: Decimal(s.balances[a])),
        [Tag("Ticker", s.info.ticker)])], map[])))
    case "Transfer" => Transfer(s, env, from, params, extra)
    case "Stake" => Stake(s, env, from, params)
    case "Unstake" => Unstake(s, env, from, params)
    case "Slash" => (s, Ok(Reply([], map[])))
    case _ => (s, Err(InvalidAction))
  }

  function CacheOf(r: Result<Reply>): map<string, string> {
    match r
    case Ok(reply) => reply.cache
    case Err(_) => map[]
  }

  // ----------------------------------------------------------------- conservation

  ghost predicate Inv(s: State, check: IdCheck) {
    && (forall a <- s.balances :: s.balances[a] >= 0 && Canonical(check, a))
    && (forall a <- s.stakes :: s.stakes[a] >= 0 && Canonical(check, a))
    && SumMap(s.balances) + SumMap(s.stakes) == s.totalSupply
  }

  lemma AddSum(m: map<string, int>, accId: string, amount: int)
    ensures SumMap(Add(m, accId, amount)) == SumMap(m) + amount
  {
    if amount != 0 {
      SumUpdate(m, accId, At(m, accId) + amount);
    }
  }

  lemma SubSum(m: map<string, int>, accId: string, amount: int)
    ensures Sub(m, accId, amount).Some? ==> SumMap(Sub(m, accId, amount).value) == SumMap(m) - amount
  {
    if amount != 0 {
      SumUpdate(m, accId, At(m, accId) - amount);
    }
  }

  // Only an account in the ledger can pay anything, and all accounts there are canonical.
  lemma PayerIsCanonical(m: map<string, int>, check: IdCheck, accId: string, amount: int)
    requires forall a <- m :: m[a] >= 0 && Canonical(check, a)
    requires amount > 0 && Sub(m, accId, amount).Some?
    ensures Canonical(check, accId)
  {
  }

  lemma StakerIsCanonical(env: Env, from: string, params: Params)
    requires Idempotent(env.check) && StakeRequest(env, from, params).Ok?
    ensures Canonical(env.check, from) && StakeRequest(env, from, params).value.3 >= 0
  {
  }

  lemma InvStep(s: State, env: Env, from: string, action: string, params: Params, extra: seq<Tag>)
    requires Inv(s, env.check) && Idempotent(env.check)
    ensures Inv(Applied(s, env, from, action, params, extra).0, env.check)
  {
    hide Transfer, Stake, Unstake, BalanceReply, InfoReply;
    TransferStep(s, env, from, params, extra);
    StakeStep(s, env, from, params);
  }

  lemma TransferStep(s: State, env: Env, from: string, params: Params, extra: seq<Tag>)
    requires Inv(s, env.check) && Idempotent(env.check)
    ensures Inv(Transfer(s, env, from, params, extra).0, env.check)
  {
    hide Inv, Transferred, TransferReply;
    if Transfer(s, env, from, params, extra).1.Ok? {
      TransferKeepsInv(s, env, from, params["Recipient"], ParseAmount(params["Quantity"]).value);
    }
  }

  lemma StakeStep(s: State, env: Env, from: string, params: Params)
    requires Inv(s, env.check) && Idempotent(env.check)
    ensures Inv(Stake(s, env, from, params).0, env.check) && Inv(Unstake(s, env, from, params).0, env.check)
  {
    hide Inv, StakeRequest, Staked, Unstaked, StakeReply, Idempotent;
    if StakeRequest(env, from, params).Ok? {
      StakerIsCanonical(env, from, params);
      StakeKeepsInv(s, env.check, from, StakeRequest(env, from, params).value.3);
    }
  }

  lemma TransferKeepsInv(s: State, env: Env, from: string, to: string, amount: int)
    requires Inv(s, env.check) && Idempotent(env.check) && amount >= 0
    ensures var t := Transferred(s, env, from, to, amount); t.Ok? ==> Inv(t.value, env.check)
  {
    hide SumMap;
    var left := Sub(s.balances, from, amount);
    if left.Some? && env.check(to).Some? {
      SubSum(s.balances, from, amount);
      AddSum(left.value, env.check(to).value, amount);
      if amount > 0 { PayerIsCanonical(s.balances, env.check, from, amount); }
    }
  }

  lemma StakeKeepsInv(s: State, check: IdCheck, from: string, amount: int)
    requires Inv(s, check) && amount >= 0 && Canonical(check, from)
    ensures Staked(s, from, amount).Ok? ==> Inv(Staked(s, from, amount).value, check)
    ensures Unstaked(s, from, amount).Ok? ==> Inv(Unstaked(s, from, amount).value, check)
  {
    hide SumMap;
    SubSum(s.balances, from, amount);
    AddSum(s.stakes, from, amount);
    SubSum(s.stakes, from, amount);
    AddSum(s.balances, from, amount);
  }

  // A failing action changes nothing and caches nothing; of the others only Info touches anything but
  // the ledgers.
  lemma FailureChangesNothing(s: State, env: Env, from: string, action: string, params: Params, extra: seq<Tag>)
    ensures var (t, r) := Applied(s, env, from, action, params, extra);
      && (r.Err? ==> t == s)
      && t.info == s.info && t.totalSupply == s.totalSupply
      && t.initialCache == (s.initialCache || action == "Info")
  {
  }
}
