/** What a request leaves in the logs, and when a follower's round takes the next item. */
module LogEffects {
  import opened Options
  import opened Numerals
  import opened Log
  import opened LogStore

  // A request that a node takes in is refused exactly when its id is logged already. Otherwise it is appended to
  // its process's log under an assignment that the scheduler signs, for the next nonce; it is found again by its
  // id, and no other log changes.
  lemma RequestIsLogged(s: Store, scheduler: string, item: Item, assignId: string)
    requires Inv(s, scheduler) && Accepts(s, scheduler, item)
    ensures var pid := if item.content.Message? then item.target else item.id;
      var (t, out) := Assign(s, scheduler, pid, item, assignId);
      var n := |List(s.messages, pid)|;
      && t == Next(s, scheduler, Request(item, assignId))
      && (out.DuplicateItem? <==> Logged(s, item.id)) && (out.DuplicateItem? ==> t == s)
      && (!out.DuplicateItem? ==>
            var a := Item(assignId, scheduler, "", Content.Assignment(pid, item.id, Decimal(n)));
            && out == Assigned(a)
            && NonceOf(t, pid) == Some(n) && MessageOf(t, item.id) == Some(item)
            && List(t.messages, pid) == List(s.messages, pid) + [item]
            && List(t.assignments, pid) == List(s.assignments, pid) + [a]
            && forall p :: p != pid ==>
                 List(t.messages, p) == List(s.messages, p) && List(t.assignments, p) == List(s.assignments, p)
                 && NonceOf(t, p) == NonceOf(s, p))
  {
    hide MessageOf, NonceOf, Inv, NoColon, Decimal, IndexEntry;
    var r := Request(item, assignId);
    var pid, t := PidOf(item), Next(s, scheduler, r);
    InvStep(s, scheduler, r);
    LoggedIsFound(s, scheduler, item.id);
    NonceIsLength(s, scheduler, pid);
    NonceIsLength(t, scheduler, pid);
    if !Logged(s, item.id) {
      var n := |List(s.messages, pid)|;
      assert List(t.messages, pid)[n] == item;
      EntryIsBound(t, scheduler, pid, n);
      forall p | p != pid
        ensures NonceOf(t, p) == NonceOf(s, p)
      {
        NonceIsLength(s, scheduler, p);
        NonceIsLength(t, scheduler, p);
      }
    }
  }

  lemma LoggedIsFound(s: Store, scheduler: string, id: string)
    requires Inv(s, scheduler)
    ensures Logged(s, id) <==> MessageOf(s, id).Some?
  {
    hide MessageOf, NoColon, Decimal, IndexEntry;
    NotFoundIsNew(s, scheduler, id);
  }

  // What a node refuses leaves its logs alone.
  lemma RefusedIsNotLogged(s: Store, scheduler: string, item: Item, assignId: string)
    requires !Accepts(s, scheduler, item)
    ensures Next(s, scheduler, Request(item, assignId)) == s
    ensures item.content.Spawn? && NoColon(item.id) ==> item.content.scheduler != scheduler
    ensures item.content.Message? ==> item.target !in s.messages
  {
  }

  // A negative position counts back from the latest entry.
  lemma FromTheEnd(scheduler: string, rs: seq<Request>, pid: string, i: int)
    ensures var s := Run(EMPTY, scheduler, rs);
      && NonceOf(s, pid).Some?
      && var n := NonceOf(s, pid).value;
         if 0 <= i <= n then
           && MessageByNonce(s, pid, i - n - 1) == MessageByNonce(s, pid, i) && MessageByNonce(s, pid, i).Some?
           && AssignByNonce(s, pid, i - n - 1) == AssignByNonce(s, pid, i) && AssignByNonce(s, pid, i).Some?
         else
           (i < -n - 1 || i > n) ==> MessageByNonce(s, pid, i).None? && AssignByNonce(s, pid, i).None?
  {
    hide Run, Inv, NonceOf;
    EmptyInv(scheduler);
    InvRun(EMPTY, scheduler, rs);
    var s := Run(EMPTY, scheduler, rs);
    NonceIsLength(s, scheduler, pid);
    ListsMatch(s, scheduler, pid);
  }

  lemma ListsMatch(s: Store, scheduler: string, pid: string)
    requires Inv(s, scheduler)
    ensures |List(s.messages, pid)| == |List(s.assignments, pid)|
  {
    hide NoColon, Decimal, IndexEntry, Logged;
  }

  // A follower's round takes the next item of the log exactly when it is served it with its assignment, applies
  // it, and knows the scheduler or is served the spawn. It takes that item and no other; otherwise it stays where
  // it is and asks again.
  lemma RoundAdvancesIff(s: Store, f: Follower, pid: string, scheduler: string, fetch: Fetch)
    requires Inv(s, scheduler) && InLog(s, pid, 0) && scheduler != "" && GenuineFetch(s, scheduler, pid, fetch)
    requires f.scheduler == "" || f.scheduler == scheduler
    ensures var g := Followed(f, pid, fetch);
      var spawned := fetch.spawn.Some? && fetch.spawn.value.id == pid;
      && g.scheduler == (if spawned then scheduler else f.scheduler)
      && (if (f.scheduler == scheduler || spawned) && fetch.handled && InLog(s, pid, f.nonce)
             && fetch.msg == Some(s.messages[pid][f.nonce]) && fetch.assign == Some(s.assignments[pid][f.nonce])
          then g.nonce == f.nonce + 1 && g.log == f.log + [s.messages[pid][f.nonce]]
          else g.nonce == f.nonce && g.log == f.log)
  {
    hide Inv, Genuine, Verifies;
    EntryIs(s, scheduler, pid, 0);
    if fetch.spawn.Some? {
      ForkSchedulerIsRight(s, scheduler, pid, fetch.spawn.value);
    }
    if fetch.msg.Some? && fetch.assign.Some? {
      VerifiesIffInLog(s, scheduler, pid, f.nonce, fetch.msg.value, fetch.assign.value);
    }
  }

  // What an honest source serves at a position.
  ghost function Honest(s: Store, pid: string, nonce: nat): Fetch
    requires InLog(s, pid, 0) && InLog(s, pid, nonce)
  {
    Fetch(Some(s.messages[pid][0]), Some(s.messages[pid][nonce]), Some(s.assignments[pid][nonce]), true)
  }

  lemma HonestIsGenuine(s: Store, scheduler: string, pid: string, nonce: nat)
    requires Inv(s, scheduler) && InLog(s, pid, 0) && InLog(s, pid, nonce)
    ensures GenuineFetch(s, scheduler, pid, Honest(s, pid, nonce))
  {
    hide NoColon, Decimal, Bound;
    var msg := s.messages[pid][nonce];
    forall p, i | InLog(s, p, i) && s.messages[p][i].id == msg.id
      ensures s.messages[p][i] == msg
    {
      IndexedIsFound(s, scheduler, p, i);
      IndexedIsFound(s, scheduler, pid, nonce);
    }
  }

  // The rounds that a source serves honestly from a position to the end.
  ghost function HonestFrom(s: Store, pid: string, nonce: nat): seq<Fetch>
    requires InLog(s, pid, 0)
    decreases |s.messages[pid]| - nonce
  {
    if !InLog(s, pid, nonce) then [] else [Honest(s, pid, nonce)] + HonestFrom(s, pid, nonce + 1)
  }

  // Served honestly, a follower ends with all that is logged.
  lemma {:induction false} FollowerCatchesUp(s: Store, f: Follower, pid: string, scheduler: string)
    requires Inv(s, scheduler) && InLog(s, pid, 0) && scheduler != "" && (f.scheduler == "" || f.scheduler == scheduler)
    requires f.nonce <= |s.messages[pid]|
    ensures var g := FollowAll(f, pid, HonestFrom(s, pid, f.nonce));
      g.nonce == |s.messages[pid]| && g.log == f.log + s.messages[pid][f.nonce..]
    decreases |s.messages[pid]| - f.nonce
  {
    hide Inv, Followed, GenuineFetch;
    ListsMatch(s, scheduler, pid);
    if f.nonce < |s.messages[pid]| {
      var now := Honest(s, pid, f.nonce);
      HonestIsGenuine(s, scheduler, pid, f.nonce);
      HonestNamesSpawn(s, scheduler, pid, f.nonce);
      RoundAdvancesIff(s, f, pid, scheduler, now);
      FollowerCatchesUp(s, Followed(f, pid, now), pid, scheduler);
      assert HonestFrom(s, pid, f.nonce)[1..] == HonestFrom(s, pid, f.nonce + 1);
    }
  }

  lemma HonestNamesSpawn(s: Store, scheduler: string, pid: string, nonce: nat)
    requires Inv(s, scheduler) && InLog(s, pid, 0) && InLog(s, pid, nonce)
    ensures Honest(s, pid, nonce).spawn.value.id == pid
  {
    hide Inv;
    EntryIs(s, scheduler, pid, 0);
  }
}
