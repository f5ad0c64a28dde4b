/** The log store updated in place, the assignment of nonces over it, and the follower's loop. */
module LogStore {
  import opened Options
  import opened Numerals
  import opened Log

  class Rdb {
    var nonces: map<string, string>
    var messages: map<string, seq<Item>>
    var assignments: map<string, seq<Item>>
    var index: map<string, string>

    function View(): Store
      reads this
    {
      Store(nonces, messages, assignments, index)
    }

    constructor ()
      ensures View() == EMPTY
    {
      nonces, messages, assignments, index := map[], map[], map[], map[];
    }

    // One pipeline: the nonce, the two lists and the index together.
    method Commit(pid: string, nonce: int, msg: Item, assign: Item)
      modifies this
      ensures View() == Committed(old(View()), pid, nonce, msg, assign)
    {
      nonces := nonces[pid := Decimal(nonce)];
      messages := messages[pid := List(messages, pid) + [msg]];
      assignments := assignments[pid := List(assignments, pid) + [assign]];
      index := index[msg.id := pid + ":" + Decimal(nonce)];
    }

    method GetNonce(pid: string) returns (nonce: Option<int>)
      ensures nonce == NonceOf(View(), pid)
    {
      if pid !in nonces { return Some(-1); }
      nonce := ParseInt(nonces[pid]);
    }

    method GetMessage(id: string) returns (msg: Option<Item>)
      ensures msg == MessageOf(View(), id)
    {
      if id !in index { return None; }
      var pid := FirstPart(index[id]);
      var nonce := ParseInt(FirstPart(AfterColon(index[id])));
      if nonce.None? { return None; }
      msg := GetMessageByNonce(pid, nonce.value);
    }

    method GetMessageByNonce(pid: string, nonce: int) returns (msg: Option<Item>)
      ensures msg == MessageByNonce(View(), pid, nonce)
    {
      msg := At(List(messages, pid), nonce);
    }

    method GetAssignByNonce(pid: string, nonce: int) returns (assign: Option<Item>)
      ensures assign == AssignByNonce(View(), pid, nonce)
    {
      assign := At(List(assignments, pid), nonce);
    }
  }

  // The node's part: look for a duplicate, take the next nonce, sign, commit.
  method Assignment(db: Rdb, scheduler: string, pid: string, item: Item, assignId: string) returns (out: Outcome)
    modifies db
    ensures (db.View(), out) == Assign(old(db.View()), scheduler, pid, item, assignId)
  {
    var msg := db.GetMessage(item.id);
    if msg.Some? { return DuplicateItem; }
    var nonce := db.GetNonce(pid);
    if nonce.None? { return BadNonce; }
    var assign := SignAssign(scheduler, pid, item.id, nonce.value + 1, assignId);
    db.Commit(pid, nonce.value + 1, item, assign);
    out := Assigned(assign);
  }

  // The follower's rounds among the events of a run.
  function RoundsOf(events: seq<Event>): seq<Fetch> {
    if events == [] then [] else
    (if events[0].Round? then [events[0].fetch] else []) + RoundsOf(events[1..])
  }

  function FollowAll(f: Follower, pid: string, rounds: seq<Fetch>): Follower
    decreases |rounds|
  {
    if rounds == [] then f else FollowAll(Followed(f, pid, rounds[0]), pid, rounds[1..])
  }

  // What a run leaves of the follower are its own rounds, whatever the scheduler logs in between.
  lemma {:induction false} FollowerSeesItsRounds(b: Both, pid: string, scheduler: string, events: seq<Event>)
    ensures Joint(b, pid, scheduler, events).follower == FollowAll(b.follower, pid, RoundsOf(events))
    decreases |events|
  {
    hide Followed, Next;
    if events != [] {
      FollowerSeesItsRounds(Step(b, pid, scheduler, events[0]), pid, scheduler, events[1..]);
      if events[0].Round? {
        assert RoundsOf(events)[1..] == RoundsOf(events[1..]);
      } else {
        assert RoundsOf(events) == RoundsOf(events[1..]);
      }
    }
  }

  lemma {:induction false} FollowAllSnoc(f: Follower, pid: string, rounds: seq<Fetch>, n: nat)
    requires n < |rounds|
    ensures FollowAll(f, pid, rounds[..n + 1]) == Followed(FollowAll(f, pid, rounds[..n]), pid, rounds[n])
    decreases n
  {
    hide Followed;
    var first := rounds[..n + 1];
    if n == 0 {
      assert first[1..] == [];
    } else {
      FollowAllSnoc(Followed(f, pid, rounds[0]), pid, rounds[1..], n - 1);
      assert first[1..] == rounds[1..][..n] && rounds[..n][1..] == rounds[1..][..n - 1];
    }
  }

  // The follower's loop for as many rounds as it is let run, among any events at the scheduler: it always
  // holds a contiguous piece of the scheduler's log, from where it started. A bad round is repeated.
  method RunForkProcess(pid: string, restored: Option<nat>, rounds: seq<Fetch>,
                        ghost store: Store, ghost truth: string, ghost events: seq<Event>)
    returns (scheduler: string, nonce: nat, log: seq<Item>)
    requires rounds == RoundsOf(events) && Inv(store, truth)
    requires GenuineRun(Both(store, Started(restored)), pid, truth, events)
    ensures Follower(scheduler, nonce, log) == FollowAll(Started(restored), pid, rounds)
    ensures HoldsPiece(Joint(Both(store, Started(restored)), pid, truth, events).store,
                       Follower(scheduler, nonce, log), pid, truth, Started(restored).nonce)
  {
    hide Inv, GenuineRun, Joint, HoldsPiece, Verifies;
    nonce := 0;
    if restored.Some? {
      nonce := restored.value + 1;
    }
    scheduler, log := "", [];
    for i := 0 to |rounds|
      invariant Follower(scheduler, nonce, log) == FollowAll(Started(restored), pid, rounds[..i])
    {
      FollowAllSnoc(Started(restored), pid, rounds, i);
      var r := rounds[i];
      if scheduler == "" {
        if r.spawn.None? { continue; }
        var named := ForkScheduler(pid, r.spawn.value);
        if named.None? { continue; }
        scheduler := named.value;
      }
      if r.msg.None? || r.assign.None? { continue; }
      if !Verifies(pid, nonce, scheduler, r.msg.value, r.assign.value) { continue; }
      if !r.handled { continue; }
      nonce, log := nonce + 1, log + [r.msg.value];
    }
    assert rounds[..|rounds|] == rounds;
    FollowerSeesItsRounds(Both(store, Started(restored)), pid, truth, events);
    StartsWithNothing(store, restored, pid, truth);
    FollowerHoldsPiece(Both(store, Started(restored)), pid, truth, Started(restored).nonce, events);
  }

  lemma StartsWithNothing(store: Store, restored: Option<nat>, pid: string, truth: string)
    ensures HoldsPiece(store, Started(restored), pid, truth, Started(restored).nonce)
  {
  }
}
