/** The store of a node's logs, the assignment of nonces, and a follower that copies one log. */
module Log {
  import opened Options
  import opened Numerals

  // What an item decodes to: a spawn naming its scheduler, a message, an assignment, or nothing known.
  datatype Content =
    | Spawn(scheduler: string)
    | Message
    | Assignment(process: string, message: string, nonce: string)
    | Unknown

  // An item whose signature has been checked, with the account that signed it.
  datatype Item = Item(id: string, signer: string, target: string, content: Content)

  datatype Store = Store(
    nonces: map<string, string>, messages: map<string, seq<Item>>, assignments: map<string, seq<Item>>,
    index: map<string, string>)

  const EMPTY := Store(map[], map[], map[], map[])

  function List(lists: map<string, seq<Item>>, pid: string): seq<Item> {
    if pid in lists then lists[pid] else []
  }

  // LINDEX: a negative index counts from the end.
  function At(list: seq<Item>, i: int): Option<Item> {
    if 0 <= i < |list| then Some(list[i])
    else if 0 <= |list| + i < |list| then Some(list[|list| + i])
    else None
  }

  // The first and the second of a text's parts between colons.
  function FirstPart(s: string): string {
    if s == [] || s[0] == ':' then [] else [s[0]] + FirstPart(s[1..])
  }

  function AfterColon(s: string): string {
    if s == [] then [] else if s[0] == ':' then s[1..] else AfterColon(s[1..])
  }

  function IndexEntry(pid: string, nonce: int): string {
    pid + ":" + Decimal(nonce)
  }

  // The nonce of a process without a log is -1. A nonce that does not parse is an error.
  function NonceOf(s: Store, pid: string): Option<int> {
    if pid in s.nonces then ParseInt(s.nonces[pid]) else Some(-1)
  }

  function MessageByNonce(s: Store, pid: string, nonce: int): Option<Item> {
    At(List(s.messages, pid), nonce)
  }

  function AssignByNonce(s: Store, pid: string, nonce: int): Option<Item> {
    At(List(s.assignments, pid), nonce)
  }

  // An index entry whose number does not parse finds nothing.
  function MessageOf(s: Store, id: string): Option<Item> {
    if id !in s.index then None else
    var n := ParseInt(FirstPart(AfterColon(s.index[id])));
    if n.None? then None else MessageByNonce(s, FirstPart(s.index[id]), n.value)
  }

  function Committed(s: Store, pid: string, nonce: int, msg: Item, assign: Item): Store {
    Store(s.nonces[pid := Decimal(nonce)],
          s.messages[pid := List(s.messages, pid) + [msg]],
          s.assignments[pid := List(s.assignments, pid) + [assign]],
          s.index[msg.id := IndexEntry(pid, nonce)])
  }

  function SignAssign(scheduler: string, pid: string, id: string, nonce: int, assignId: string): Item {
    Item(assignId, scheduler, "", Assignment(pid, id, Decimal(nonce)))
  }

  datatype Outcome = DuplicateItem | BadNonce | Assigned(assign: Item)

  // assignment: `assignId` is the id that signing yields.
  function Assign(s: Store, scheduler: string, pid: string, item: Item, assignId: string): (Store, Outcome) {
    if MessageOf(s, item.id).Some? then (s, DuplicateItem) else
    var n := NonceOf(s, pid);
    if n.None? then (s, BadNonce) else
    var assign := SignAssign(scheduler, pid, item.id, n.value + 1, assignId);
    (Committed(s, pid, n.value + 1, item, assign), Assigned(assign))
  }

  // ----------------------------------------------------------------------- the index

  predicate NoColon(s: string) {
    forall k :: 0 <= k < |s| ==> s[k] != ':'
  }

  lemma {:induction false} FirstPartOf(a: string, b: string)
    requires NoColon(a)
    ensures FirstPart(a + ":" + b) == a && AfterColon(a + ":" + b) == b
  {
    if a == [] {
      assert a + ":" + b == ":" + b && (":" + b)[1..] == b;
    } else {
      assert (a + ":" + b)[1..] == a[1..] + ":" + b;
      FirstPartOf(a[1..], b);
      assert a == [a[0]] + a[1..];
    }
  }

  lemma {:induction false} FirstPartWhole(s: string)
    requires NoColon(s)
    ensures FirstPart(s) == s
  {
    if s != [] {
      FirstPartWhole(s[1..]);
      assert s == [s[0]] + s[1..];
    }
  }

  lemma {:induction false} FirstPartHasNone(s: string)
    ensures NoColon(FirstPart(s))
  {
    if s != [] && s[0] != ':' {
      FirstPartHasNone(s[1..]);
    }
  }

  lemma DecimalHasNoColon(n: int)
    ensures NoColon(Decimal(n))
  {
    if n < 0 { assert AllDigits(NatText(-n)); }
  }

  // The index finds the process again exactly when the process's id has no colon.
  lemma IndexFinds(pid: string, nonce: int)
    ensures FirstPart(IndexEntry(pid, nonce)) == pid <==> NoColon(pid)
    ensures NoColon(pid) ==> ParseInt(FirstPart(AfterColon(IndexEntry(pid, nonce)))) == Some(nonce)
  {
    FirstPartHasNone(IndexEntry(pid, nonce));
    if NoColon(pid) {
      FirstPartOf(pid, Decimal(nonce));
      DecimalHasNoColon(nonce);
      FirstPartWhole(Decimal(nonce));
      DecimalRoundTrip(nonce);
    }
  }

  lemma IndexDistinguishes(pid: string, i: int, other: string, j: int)
    requires NoColon(pid) && NoColon(other) && IndexEntry(pid, i) == IndexEntry(other, j)
    ensures pid == other && i == j
  {
    IndexFinds(pid, i);
    IndexFinds(other, j);
  }

  // ---------------------------------------------------------------------- invariant

  // The lists of one process: assignment i binds message i at nonce i, the index leads back to it, and
  // the first message is the spawn.
  ghost predicate Bound(m: seq<Item>, a: seq<Item>, index: map<string, string>, scheduler: string, pid: string) {
    && |m| == |a| > 0
    && (forall i :: 0 <= i < |a| ==> a[i].signer == scheduler && a[i].content == Assignment(pid, m[i].id, Decimal(i)))
    && (forall i :: 0 <= i < |m| ==> m[i].id in index && index[m[i].id] == IndexEntry(pid, i))
    && m[0].id == pid && m[0].content == Spawn(scheduler)
    && forall i :: 0 < i < |m| ==> m[i].target == pid && m[i].content == Message
  }

  ghost predicate Logged(s: Store, id: string) {
    exists pid, i :: pid in s.messages && 0 <= i < |s.messages[pid]| && s.messages[pid][i].id == id
  }

  ghost predicate Inv(s: Store, scheduler: string) {
    && s.nonces.Keys == s.messages.Keys == s.assignments.Keys
    && (forall pid <- s.messages :: NoColon(pid) && Bound(s.messages[pid], s.assignments[pid], s.index, scheduler, pid)
          && s.nonces[pid] == Decimal(|s.messages[pid]| - 1))
    && forall id <- s.index :: Logged(s, id)
  }

  lemma IndexedIsFound(s: Store, scheduler: string, pid: string, i: nat)
    requires Inv(s, scheduler) && pid in s.messages && i < |s.messages[pid]|
    ensures MessageOf(s, s.messages[pid][i].id) == Some(s.messages[pid][i])
  {
    hide Decimal, ParseInt, FirstPart, AfterColon, IndexEntry, Logged, NoColon;
    IndexFinds(pid, i);
  }

  lemma NotFoundIsNew(s: Store, scheduler: string, id: string)
    requires Inv(s, scheduler)
    ensures MessageOf(s, id).None? <==> id !in s.index
  {
    if id in s.index {
      assert Logged(s, id);
      var pid, i :| pid in s.messages && 0 <= i < |s.messages[pid]| && s.messages[pid][i].id == id;
      IndexedIsFound(s, scheduler, pid, i);
    }
  }

  lemma NonceIsLength(s: Store, scheduler: string, pid: string)
    requires Inv(s, scheduler)
    ensures NonceOf(s, pid) == Some(|List(s.messages, pid)| - 1)
  {
    if pid in s.messages {
      DecimalRoundTrip(|s.messages[pid]| - 1);
    }
  }

  // What a node takes in: a spawn that names it as scheduler, or a message to a process it has.
  predicate Accepts(s: Store, scheduler: string, item: Item) {
    if item.content.Spawn? then item.content.scheduler == scheduler && NoColon(item.id)
    else item.content.Message? && item.target in s.messages
  }

  function PidOf(item: Item): string {
    if item.content.Spawn? then item.id else item.target
  }

  datatype Request = Request(item: Item, assignId: string)

  function Next(s: Store, scheduler: string, r: Request): Store {
    if Accepts(s, scheduler, r.item) then Assign(s, scheduler, PidOf(r.item), r.item, r.assignId).0 else s
  }

  function Run(s: Store, scheduler: string, rs: seq<Request>): Store {
    if rs == [] then s else Next(Run(s, scheduler, rs[..|rs| - 1]), scheduler, rs[|rs| - 1])
  }

  lemma BoundKeeps(m: seq<Item>, a: seq<Item>, index: map<string, string>, scheduler: string, pid: string,
                   id: string, entry: string)
    requires Bound(m, a, index, scheduler, pid) && id !in index
    ensures Bound(m, a, index[id := entry], scheduler, pid)
  {
    hide Decimal, IndexEntry;
  }

  lemma BoundGrows(m: seq<Item>, a: seq<Item>, index: map<string, string>, scheduler: string, pid: string,
                   item: Item, assignId: string)
    requires Bound(m, a, index, scheduler, pid) && item.id !in index
    requires item.content == Message && item.target == pid
    ensures Bound(m + [item], a + [SignAssign(scheduler, pid, item.id, |m|, assignId)],
                  index[item.id := IndexEntry(pid, |m|)], scheduler, pid)
  {
    hide Decimal, IndexEntry;
  }

  lemma BoundStarts(index: map<string, string>, scheduler: string, item: Item, assignId: string)
    requires item.content == Spawn(scheduler)
    ensures Bound([item], [SignAssign(scheduler, item.id, item.id, 0, assignId)],
                  index[item.id := IndexEntry(item.id, 0)], scheduler, item.id)
  {
    hide Decimal, IndexEntry;
  }

  lemma CommittedBound(s: Store, scheduler: string, item: Item, assignId: string, pid: string)
    requires Inv(s, scheduler) && Accepts(s, scheduler, item) && item.id !in s.index
    ensures var n := |List(s.messages, PidOf(item))|;
      var t := Committed(s, PidOf(item), n, item, SignAssign(scheduler, PidOf(item), item.id, n, assignId));
      pid in t.messages ==> pid in t.assignments && Bound(t.messages[pid], t.assignments[pid], t.index, scheduler, pid)
  {
    hide Bound, Decimal, IndexEntry, Logged, NoColon, SignAssign, Inv, Accepts;
    var p, n := PidOf(item), |List(s.messages, PidOf(item))|;
    CommittedCases(s, scheduler, item, pid);
    if pid != p {
      if pid in s.messages {
        BoundKeeps(s.messages[pid], s.assignments[pid], s.index, scheduler, pid, item.id, IndexEntry(p, n));
      }
    } else if p in s.messages {
      BoundGrows(s.messages[p], s.assignments[p], s.index, scheduler, p, item, assignId);
    } else {
      BoundStarts(s.index, scheduler, item, assignId);
      var a := SignAssign(scheduler, p, item.id, 0, assignId);
      assert List(s.messages, p) + [item] == [item] && List(s.assignments, p) + [a] == [a];
    }
  }

  lemma FirstIsIndexed(s: Store, scheduler: string, pid: string)
    requires Inv(s, scheduler)
    ensures pid in s.messages ==> pid in s.index
  {
    if pid in s.messages {
      assert s.messages[pid][0].id in s.index;
    }
  }

  lemma CommittedCases(s: Store, scheduler: string, item: Item, pid: string)
    requires Inv(s, scheduler) && Accepts(s, scheduler, item) && item.id !in s.index
    ensures pid in s.messages <==> pid in s.assignments
    ensures pid in s.messages ==> Bound(s.messages[pid], s.assignments[pid], s.index, scheduler, pid)
    ensures PidOf(item) in s.messages ==> item.content == Message && item.target == PidOf(item)
    ensures PidOf(item) !in s.messages ==> item.content == Spawn(scheduler) && item.id == PidOf(item)
  {
    FirstIsIndexed(s, scheduler, item.id);
  }

  lemma CommittedLogged(s: Store, scheduler: string, item: Item, assign: Item, pid: string, id: string)
    requires Inv(s, scheduler)
    ensures var t := Committed(s, pid, |List(s.messages, pid)|, item, assign);
      id in t.index ==> Logged(t, id)
  {
    hide Decimal, IndexEntry, Bound, NoColon;
    var n := |List(s.messages, pid)|;
    var t := Committed(s, pid, n, item, assign);
    if id == item.id {
      assert t.messages[pid][n].id == id;
    } else if id in s.index {
      assert Logged(s, id);
      var q, i :| q in s.messages && 0 <= i < |s.messages[q]| && s.messages[q][i].id == id;
      assert q in t.messages && i < |t.messages[q]| && t.messages[q][i] == s.messages[q][i];
    }
  }

  lemma InvStep(s: Store, scheduler: string, r: Request)
    requires Inv(s, scheduler)
    ensures Inv(Next(s, scheduler, r), scheduler)
  {
    hide Decimal, IndexEntry, MessageOf, NonceOf, Bound, Logged, NoColon;
    var p, n := PidOf(r.item), |List(s.messages, PidOf(r.item))|;
    NotFoundIsNew(s, scheduler, r.item.id);
    NonceIsLength(s, scheduler, p);
    if Accepts(s, scheduler, r.item) && r.item.id !in s.index {
      var assign := SignAssign(scheduler, p, r.item.id, n, r.assignId);
      var t := Committed(s, p, n, r.item, assign);
      assert t == Next(s, scheduler, r);
      forall pid | pid in t.messages
        ensures pid in t.assignments && Bound(t.messages[pid], t.assignments[pid], t.index, scheduler, pid)
      {
        CommittedBound(s, scheduler, r.item, r.assignId, pid);
      }
      forall id | id in t.index
        ensures Logged(t, id)
      {
        CommittedLogged(s, scheduler, r.item, assign, p, id);
      }
    }
  }

  lemma {:induction false} InvRun(s: Store, scheduler: string, rs: seq<Request>)
    requires Inv(s, scheduler)
    ensures Inv(Run(s, scheduler, rs), scheduler)
    decreases |rs|
  {
    hide Inv, Next;
    if rs != [] {
      InvRun(s, scheduler, rs[..|rs| - 1]);
      InvStep(Run(s, scheduler, rs[..|rs| - 1]), scheduler, rs[|rs| - 1]);
    }
  }

  lemma EmptyInv(scheduler: string)
    ensures Inv(EMPTY, scheduler)
  {
  }

  // After any requests: the stored nonce of a process is its log's length less one; entry i of the
  // assignments binds entry i of the messages at nonce i; and an id leads back to the item it was
  // committed with.
  lemma LogIsFaithful(scheduler: string, rs: seq<Request>, pid: string, i: nat)
    ensures var s := Run(EMPTY, scheduler, rs); var m := List(s.messages, pid);
      && NonceOf(s, pid) == Some(|m| - 1)
      && (i < |m| ==>
            && MessageByNonce(s, pid, i) == Some(m[i])
            && AssignByNonce(s, pid, i).Some? && AssignByNonce(s, pid, i).value.signer == scheduler
            && AssignByNonce(s, pid, i).value.content == Assignment(pid, m[i].id, Decimal(i))
            && MessageOf(s, m[i].id) == Some(m[i]))
  {
    hide Inv, Run;
    EmptyInv(scheduler);
    InvRun(EMPTY, scheduler, rs);
    var s := Run(EMPTY, scheduler, rs);
    if i < |List(s.messages, pid)| {
      EntryIsBound(s, scheduler, pid, i);
    }
    NonceIsLength(s, scheduler, pid);
  }

  lemma EntryIsBound(s: Store, scheduler: string, pid: string, i: nat)
    requires Inv(s, scheduler) && i < |List(s.messages, pid)|
    ensures var m := List(s.messages, pid);
      && MessageByNonce(s, pid, i) == Some(m[i])
      && AssignByNonce(s, pid, i).Some? && AssignByNonce(s, pid, i).value.signer == scheduler
      && AssignByNonce(s, pid, i).value.content == Assignment(pid, m[i].id, Decimal(i))
      && MessageOf(s, m[i].id) == Some(m[i])
  {
    hide MessageOf, Decimal, IndexEntry, Logged, NoColon;
    IndexedIsFound(s, scheduler, pid, i);
  }

  // No id is logged twice, in one log or in two.
  lemma LoggedOnce(scheduler: string, rs: seq<Request>, pid: string, i: nat, other: string, j: nat)
    requires var s := Run(EMPTY, scheduler, rs);
      i < |List(s.messages, pid)| && j < |List(s.messages, other)|
      && s.messages[pid][i].id == s.messages[other][j].id
    ensures pid == other && i == j
  {
    hide IndexEntry;
    EmptyInv(scheduler);
    InvRun(EMPTY, scheduler, rs);
    var s := Run(EMPTY, scheduler, rs);
    assert s.index[s.messages[pid][i].id] == IndexEntry(pid, i);
    assert s.index[s.messages[other][j].id] == IndexEntry(other, j);
    IndexDistinguishes(pid, i, other, j);
  }

  // -------------------------------------------------------------------------- a follower

  // forkScheduler: the scheduler a verified spawn names, if it is the spawn of this process.
  function ForkScheduler(pid: string, spawn: Item): Option<string> {
    if spawn.id != pid || !spawn.content.Spawn? || spawn.content.scheduler == "" then None
    else Some(spawn.content.scheduler)
  }

  // verifyForkItem
  predicate Verifies(pid: string, nonce: nat, scheduler: string, msg: Item, assign: Item) {
    && assign.content.Assignment? && assign.signer == scheduler
    && assign.content.process == pid && assign.content.message == msg.id
    && assign.content.nonce == Decimal(nonce)
    && ((nonce == 0 && msg.id == pid && msg.content.Spawn?)
        || (nonce != 0 && msg.target == pid && msg.content.Message?))
  }

  // What signatures and ids are for: an assignment that the scheduler signed is one of those in its
  // store, and an item with the id of a logged message is that message.
  ghost predicate Genuine(s: Store, scheduler: string, msg: Item, assign: Item) {
    && (assign.content.Assignment? && assign.signer == scheduler ==>
          exists p, i :: InLog(s, p, i) && s.assignments[p][i] == assign)
    && forall p, i :: InLog(s, p, i) && s.messages[p][i].id == msg.id ==> s.messages[p][i] == msg
  }

  ghost predicate InLog(s: Store, p: string, i: int) {
    p in s.messages && p in s.assignments && 0 <= i < |s.messages[p]| && i < |s.assignments[p]|
  }

  // Of all genuine items a follower takes exactly those at its position in the scheduler's own log.
  lemma VerifiesIffInLog(s: Store, scheduler: string, pid: string, nonce: nat, msg: Item, assign: Item)
    requires Inv(s, scheduler) && Genuine(s, scheduler, msg, assign)
    ensures Verifies(pid, nonce, scheduler, msg, assign) <==>
      InLog(s, pid, nonce) && s.messages[pid][nonce] == msg && s.assignments[pid][nonce] == assign
  {
    hide Inv, IndexEntry, Decimal, NoColon, Logged, Bound;
    if Verifies(pid, nonce, scheduler, msg, assign) {
      var p, i :| InLog(s, p, i) && s.assignments[p][i] == assign;
      EntryIs(s, scheduler, p, i);
      DecimalRoundTrip(i);
      DecimalRoundTrip(nonce);
    } else if InLog(s, pid, nonce) {
      EntryIs(s, scheduler, pid, nonce);
    }
  }

  lemma EntryIs(s: Store, scheduler: string, p: string, i: nat)
    requires Inv(s, scheduler) && InLog(s, p, i)
    ensures s.assignments[p][i].signer == scheduler
    ensures s.assignments[p][i].content == Assignment(p, s.messages[p][i].id, Decimal(i))
    ensures i == 0 ==> s.messages[p][i].id == p && s.messages[p][i].content == Spawn(scheduler)
    ensures i != 0 ==> s.messages[p][i].target == p && s.messages[p][i].content == Message
  {
    hide IndexEntry, Decimal, NoColon, Logged;
    assert Bound(s.messages[p], s.assignments[p], s.index, scheduler, p);
  }

  // The scheduler that the follower reads off the spawn is the one whose log this is.
  lemma ForkSchedulerIsRight(s: Store, scheduler: string, pid: string, spawn: Item)
    requires Inv(s, scheduler) && InLog(s, pid, 0)
    requires s.messages[pid][0].id == spawn.id ==> s.messages[pid][0] == spawn
    ensures ForkScheduler(pid, spawn) == if spawn.id == pid && scheduler != "" then Some(scheduler) else None
  {
    hide Inv;
    EntryIs(s, scheduler, pid, 0);
  }

  // One round of the follower: what the source it asks answered, and whether applying the item succeeded.
  datatype Fetch = Fetch(spawn: Option<Item>, msg: Option<Item>, assign: Option<Item>, handled: bool)

  // The scheduler is empty until it has been read off the spawn.
  datatype Follower = Follower(scheduler: string, nonce: nat, log: seq<Item>)

  // The loop starts at the spawn, or after the checkpoint if one could be restored.
  function Started(restored: Option<nat>): Follower {
    Follower("", if restored.Some? then restored.value + 1 else 0, [])
  }

  function Learned(f: Follower, pid: string, fetch: Fetch): Follower {
    if f.scheduler != "" || fetch.spawn.None? then f else
    match ForkScheduler(pid, fetch.spawn.value)
    case Some(scheduler) => f.(scheduler := scheduler)
    case None => f
  }

  function Followed(f: Follower, pid: string, fetch: Fetch): Follower {
    var g := Learned(f, pid, fetch);
    if g.scheduler != "" && fetch.msg.Some? && fetch.assign.Some?
       && Verifies(pid, g.nonce, g.scheduler, fetch.msg.value, fetch.assign.value) && fetch.handled
    then g.(nonce := g.nonce + 1, log := g.log + [fetch.msg.value]) else g
  }

  // Whatever a source answers, it cannot forge a signature or an id.
  ghost predicate GenuineFetch(s: Store, scheduler: string, pid: string, fetch: Fetch)
    requires InLog(s, pid, 0)
  {
    && (fetch.spawn.Some? && fetch.spawn.value.id == s.messages[pid][0].id ==> fetch.spawn.value == s.messages[pid][0])
    && (fetch.msg.Some? && fetch.assign.Some? ==> Genuine(s, scheduler, fetch.msg.value, fetch.assign.value))
  }

  // Events in whatever order: the scheduler takes a request, or the follower makes a round.
  datatype Event = Serve(request: Request) | Round(fetch: Fetch)

  datatype Both = Both(store: Store, follower: Follower)

  function Step(b: Both, pid: string, scheduler: string, e: Event): Both {
    match e
    case Serve(r) => b.(store := Next(b.store, scheduler, r))
    case Round(fetch) => b.(follower := Followed(b.follower, pid, fetch))
  }

  // A run in which whatever is fetched is genuine at that moment.
  ghost predicate GenuineRun(b: Both, pid: string, scheduler: string, events: seq<Event>)
    decreases |events|
  {
    events == [] ||
    ((events[0].Round? ==> InLog(b.store, pid, 0) && GenuineFetch(b.store, scheduler, pid, events[0].fetch))
     && GenuineRun(Step(b, pid, scheduler, events[0]), pid, scheduler, events[1..]))
  }

  function Joint(b: Both, pid: string, scheduler: string, events: seq<Event>): Both
    decreases |events|
  {
    if events == [] then b else Joint(Step(b, pid, scheduler, events[0]), pid, scheduler, events[1..])
  }

  // From `start` on the follower has what the scheduler logged there.
  ghost predicate HoldsPiece(s: Store, f: Follower, pid: string, scheduler: string, start: nat) {
    && (f.scheduler == "" || f.scheduler == scheduler)
    && f.nonce == start + |f.log|
    && (f.log != [] ==>
          f.nonce <= |List(s.messages, pid)| && List(s.messages, pid)[start..f.nonce] == f.log)
  }

  lemma LogOnlyGrows(s: Store, scheduler: string, r: Request, pid: string)
    requires Inv(s, scheduler)
    ensures List(s.messages, pid) <= List(Next(s, scheduler, r).messages, pid)
  {
    hide Inv;
  }

  lemma LearnedIsRight(s: Store, f: Follower, pid: string, scheduler: string, fetch: Fetch)
    requires Inv(s, scheduler) && InLog(s, pid, 0) && GenuineFetch(s, scheduler, pid, fetch)
    requires f.scheduler == "" || f.scheduler == scheduler
    ensures Learned(f, pid, fetch) == f || Learned(f, pid, fetch) == f.(scheduler := scheduler)
  {
    hide Inv, Genuine, ForkScheduler;
    if fetch.spawn.Some? {
      ForkSchedulerIsRight(s, scheduler, pid, fetch.spawn.value);
    }
  }

  lemma RoundKeepsPiece(s: Store, f: Follower, pid: string, scheduler: string, start: nat, fetch: Fetch)
    requires Inv(s, scheduler) && HoldsPiece(s, f, pid, scheduler, start)
    requires InLog(s, pid, 0) && GenuineFetch(s, scheduler, pid, fetch)
    ensures HoldsPiece(s, Followed(f, pid, fetch), pid, scheduler, start)
  {
    hide Inv, Genuine, Verifies, Learned;
    LearnedIsRight(s, f, pid, scheduler, fetch);
    var g := Learned(f, pid, fetch);
    if fetch.msg.Some? && fetch.assign.Some? && g.scheduler != "" {
      VerifiesIffInLog(s, scheduler, pid, g.nonce, fetch.msg.value, fetch.assign.value);
    }
  }

  lemma PieceStep(b: Both, pid: string, scheduler: string, start: nat, e: Event)
    requires Inv(b.store, scheduler) && HoldsPiece(b.store, b.follower, pid, scheduler, start)
    requires e.Round? ==> InLog(b.store, pid, 0) && GenuineFetch(b.store, scheduler, pid, e.fetch)
    ensures var c := Step(b, pid, scheduler, e);
      Inv(c.store, scheduler) && HoldsPiece(c.store, c.follower, pid, scheduler, start)
  {
    hide Inv, GenuineFetch, Followed, Next;
    match e
    case Serve(r) =>
      InvStep(b.store, scheduler, r);
      LogOnlyGrows(b.store, scheduler, r, pid);
    case Round(fetch) =>
      RoundKeepsPiece(b.store, b.follower, pid, scheduler, start, fetch);
  }

  // A follower that starts at a position, whoever it fetches from, at every moment holds a contiguous
  // piece of the scheduler's log from that position on.
  lemma {:induction false} FollowerHoldsPiece(b: Both, pid: string, scheduler: string, start: nat, events: seq<Event>)
    requires Inv(b.store, scheduler) && HoldsPiece(b.store, b.follower, pid, scheduler, start)
    requires GenuineRun(b, pid, scheduler, events)
    ensures var c := Joint(b, pid, scheduler, events); HoldsPiece(c.store, c.follower, pid, scheduler, start)
    decreases |events|
  {
    hide Inv, GenuineFetch, HoldsPiece, Step;
    if events != [] {
      PieceStep(b, pid, scheduler, start, events[0]);
      FollowerHoldsPiece(Step(b, pid, scheduler, events[0]), pid, scheduler, start, events[1..]);
    }
  }

  // With a colon in a process's id the index misleads: the same spawn is logged a second time.
  lemma ColonLogsTwice(scheduler: string, first: string, second: string)
    ensures var item := Item("a:b", "", "", Spawn(scheduler));
      var s := Assign(EMPTY, scheduler, "a:b", item, first).0;
      var t := Assign(s, scheduler, "a:b", item, second).0;
      List(t.messages, "a:b") == [item, item]
  {
    var item := Item("a:b", "", "", Spawn(scheduler));
    var s := Assign(EMPTY, scheduler, "a:b", item, first).0;
    var entry := s.index["a:b"];
    assert entry == "a" + ":" + "b:0" && "b:0" == "b" + ":" + "0";
    FirstPartOf("a", "b:0");
    FirstPartOf("b", "0");
    assert FirstPart(AfterColon(entry)) == "b" && ParseInt("b") == None;
    assert MessageOf(s, item.id) == None;
    assert s.nonces["a:b"] == "0";
    DecimalRoundTrip(0);
  }
}
