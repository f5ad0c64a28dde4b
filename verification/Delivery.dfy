/** One sender's queue to one target: pushing, sending with any number of retries and crashes, copies in
    flight, and what the target logs, runs, loses and rebuilds (node/outbox.go). */
module Delivery {
  import opened Options

  datatype Item = Item(id: string, sequence: int)

  // Where the sending loop stands with the head of the queue. After Confirmed it has seen the assignment.
  datatype Phase = Idle | Waiting(item: Item) | Confirmed(item: Item)

  // `pushed` is everything ever pushed and `committed` how much of it has been popped; `copies` are the
  // items that may still, any number of times, reach the target; `logged` is what the target logged. Of
  // these `pending` are still to be run by the loop that logged them, `saved` have their result stored,
  // and `covered` lie before the target's stored checkpoint.
  datatype State = State(
    pushed: seq<Item>, committed: nat, phase: Phase, copies: set<Item>, logged: seq<Item>,
    pending: set<Item>, saved: set<Item>, covered: set<Item>)

  const EMPTY := State([], 0, Idle, {}, [], {}, {}, {})

  // Whether the target's scheduler is this node, or another one asked over the network; whether that one is
  // ever started to rebuild its results from its log; and whether a checkpoint it has stored can always be
  // restored. Without the checkpoint it rebuilds from the spawn.
  datatype Where = Local | Remote(rebuilds: bool, keeps: bool)

  datatype Action =
    | Push(item: Item)
    | Peek
    | Send
    | Assign(item: Item)
    | Execute(item: Item)     // a logged item is run and its result saved
    | Lose(item: Item)        // its execution is lost: a crash, or a stop that drops the task
    | Checkpoint(item: Item)  // run or recovered without saving, it is covered by a stored checkpoint
    | Forget                  // the stored checkpoint is gone, or cannot be restored
    | Rebuild(item: Item)     // replayed from behind the checkpoint, which saves its result
    | Confirm
    | Commit
    | GiveUp

  predicate Enabled(s: State, place: Where, a: Action) {
    match a
    case Push(item) => forall k :: 0 <= k < |s.pushed| ==> s.pushed[k].id != item.id
    case Peek => s.phase.Idle? && s.committed < |s.pushed|
    case Send => s.phase.Waiting?
    case Assign(item) => item in s.copies
    case Execute(item) => item in s.pending
    case Lose(item) => item in s.pending
    case Checkpoint(item) => item in s.logged && item !in s.pending
    case Forget => place.Remote? && !place.keeps
    case Rebuild(item) => place.Remote? && place.rebuilds && item in s.logged && item !in s.covered
    // Another node finds an item's assignment by the result saved for the item, not in its log.
    case Confirm => place.Remote? && s.phase.Waiting? && s.phase.item in s.saved
    case Commit => s.phase.Confirmed? && s.committed < |s.pushed|
    case GiveUp => true
  }

  // The target refuses an item it has logged. On this node the waiting loop gets the outcome: a success
  // lets it commit, a refusal ends it.
  function Next(s: State, place: Where, a: Action): State
    requires Enabled(s, place, a)
  {
    match a
    case Push(item) => s.(pushed := s.pushed + [item])
    case Peek => s.(phase := Waiting(s.pushed[s.committed]))
    case Send => s.(copies := s.copies + {s.phase.item})
    case Assign(item) =>
      var waits := place.Local? && s.phase == Waiting(item);
      if item in s.logged then (if waits then s.(phase := Idle) else s)
      else s.(logged := s.logged + [item], pending := s.pending + {item},
              phase := if waits then Confirmed(item) else s.phase)
    case Execute(item) => s.(pending := s.pending - {item}, saved := s.saved + {item})
    case Lose(item) => s.(pending := s.pending - {item})
    case Checkpoint(item) => s.(covered := s.covered + {item})
    case Forget => s.(covered := {})
    case Rebuild(item) => s.(pending := s.pending - {item}, saved := s.saved + {item})
    case Confirm => s.(phase := Confirmed(s.phase.item))
    case Commit => s.(committed := s.committed + 1, phase := Idle)
    case GiveUp => s.(phase := Idle)
  }

  predicate CanRun(s: State, place: Where, run: seq<Action>)
    decreases |run|
  {
    run == [] || (Enabled(s, place, run[0]) && CanRun(Next(s, place, run[0]), place, run[1..]))
  }

  function Run(s: State, place: Where, run: seq<Action>): State
    requires CanRun(s, place, run)
    decreases |run|
  {
    if run == [] then s else Run(Next(s, place, run[0]), place, run[1..])
  }

  // -------------------------------------------------------------------- invariant

  ghost predicate WasSent(s: State, item: Item) {
    exists k :: 0 <= k <= s.committed && k < |s.pushed| && s.pushed[k] == item
  }

  ghost predicate Inv(s: State) {
    && s.committed <= |s.logged| <= s.committed + 1
    && |s.logged| <= |s.pushed|
    && s.logged == s.pushed[..|s.logged|]
    && (forall i, j :: 0 <= i < j < |s.pushed| ==> s.pushed[i].id != s.pushed[j].id)
    && (forall c <- s.copies :: WasSent(s, c))
    && (!s.phase.Idle? ==> s.committed < |s.pushed| && s.phase.item == s.pushed[s.committed])
    && (s.phase.Confirmed? ==> |s.logged| == s.committed + 1)
    && (forall c <- s.pending + s.saved + s.covered :: c in s.logged)
  }

  lemma AssignedOnce(s: State, k: nat)
    requires Inv(s) && k < |s.pushed|
    ensures s.pushed[k] in s.logged <==> k < |s.logged|
  {
    if k < |s.logged| {
      assert s.logged[k] == s.pushed[k];
    }
  }

  lemma PushKeepsInv(s: State, item: Item)
    requires Inv(s) && Enabled(s, Local, Push(item))
    ensures Inv(s.(pushed := s.pushed + [item]))
  {
    var t := s.(pushed := s.pushed + [item]);
    assert t.pushed[..|s.logged|] == s.pushed[..|s.logged|];
    forall c | c in t.copies
      ensures WasSent(t, c)
    {
      assert WasSent(s, c);
      var k :| 0 <= k <= s.committed && k < |s.pushed| && s.pushed[k] == c;
      assert t.pushed[k] == c;
    }
  }

  lemma SentAt(s: State, item: Item)
    requires Inv(s) && item in s.copies
    ensures exists k :: 0 <= k <= s.committed && k < |s.pushed| && s.pushed[k] == item
  {
    assert WasSent(s, item);
  }

  lemma SameSent(s: State, t: State)
    requires t.committed == s.committed && t.pushed == s.pushed
    ensures forall c :: WasSent(t, c) <==> WasSent(s, c)
  {
  }

  lemma AssignKeepsInv(s: State, place: Where, item: Item)
    requires Inv(s) && item in s.copies
    ensures Inv(Next(s, place, Assign(item)))
  {
    hide WasSent;
    var t := Next(s, place, Assign(item));
    SentAt(s, item);
    var k :| 0 <= k <= s.committed && k < |s.pushed| && s.pushed[k] == item;
    AssignedOnce(s, k);
    if item !in s.logged {
      assert t.logged == s.pushed[..|s.logged| + 1];
    }
    SameSent(s, t);
  }

  lemma CommitKeepsInv(s: State, place: Where)
    requires Inv(s) && Enabled(s, place, Commit)
    ensures Inv(Next(s, place, Commit))
  {
    var t := Next(s, place, Commit);
    forall c | c in t.copies
      ensures WasSent(t, c)
    {
      assert WasSent(s, c);
    }
  }

  lemma InvStep(s: State, place: Where, a: Action)
    requires Inv(s) && Enabled(s, place, a)
    ensures Inv(Next(s, place, a))
  {
    hide WasSent;
    match a
    case Push(item) => PushKeepsInv(s, item);
    case Assign(item) => AssignKeepsInv(s, place, item);
    case Commit => CommitKeepsInv(s, place);
    case Confirm =>
      AssignedOnce(s, s.committed);
      SameSent(s, Next(s, place, a));
    case Send =>
      HeadWasSent(s);
      SameSent(s, Next(s, place, a));
    case _ =>
      SameSent(s, Next(s, place, a));
  }

  lemma HeadWasSent(s: State)
    requires s.committed < |s.pushed|
    ensures WasSent(s, s.pushed[s.committed])
  {
  }

  lemma {:induction false} InvRun(s: State, place: Where, run: seq<Action>)
    requires Inv(s) && CanRun(s, place, run)
    ensures Inv(Run(s, place, run))
    decreases |run|
  {
    if run != [] {
      InvStep(s, place, run[0]);
      InvRun(Next(s, place, run[0]), place, run[1..]);
    }
  }

  // Each item's number is above those of all earlier items.
  predicate Rises(items: seq<Item>) {
    forall i, j :: 0 <= i < j < |items| ==> items[i].sequence < items[j].sequence
  }

  // Under any retries, crashes and duplicated copies, what the target has logged of the queue is a prefix
  // of what was pushed, at most one item ahead of what was committed, each once. Its numbers rise exactly
  // when they were pushed so.
  lemma DeliveredInOrder(place: Where, run: seq<Action>)
    requires CanRun(EMPTY, place, run)
    ensures var s := Run(EMPTY, place, run);
      && s.logged <= s.pushed && s.committed <= |s.logged| <= s.committed + 1
      && (forall i, j :: 0 <= i < j < |s.logged| ==> s.logged[i].id != s.logged[j].id)
      && (Rises(s.logged) <==> Rises(s.pushed[..|s.logged|]))
  {
    InvRun(EMPTY, place, run);
  }

  // ---------------------------------------------------------------- when it gets stuck

  ghost predicate HeadLogged(s: State)
    requires s.committed < |s.pushed|
  {
    s.pushed[s.committed] in s.logged
  }

  // The head was logged and nothing is left that could tell the loop. On this node only the loop that was
  // waiting is told. Of another node one can learn it from a result that is saved, or will be once the
  // item is run or replayed.
  ghost predicate Stuck(s: State, place: Where) {
    && s.committed < |s.pushed| && !s.phase.Confirmed?
    && var head := s.pushed[s.committed];
       head in s.logged
       && (place.Remote? ==> head !in s.saved && head !in s.pending && (place.rebuilds ==> place.keeps && head in s.covered))
  }

  lemma StuckStep(s: State, place: Where, a: Action)
    requires Inv(s) && Stuck(s, place) && Enabled(s, place, a)
    ensures Stuck(Next(s, place, a), place)
    ensures Next(s, place, a).committed == s.committed && Next(s, place, a).logged == s.logged
  {
    if a.Assign? {
      assert WasSent(s, a.item);
      var k :| 0 <= k <= s.committed && k < |s.pushed| && s.pushed[k] == a.item;
      AssignedOnce(s, k);
      AssignedOnce(s, s.committed);
    }
  }

  lemma {:induction false} StuckForever(s: State, place: Where, run: seq<Action>)
    requires Inv(s) && Stuck(s, place) && CanRun(s, place, run)
    ensures Run(s, place, run).committed == s.committed && Run(s, place, run).logged == s.logged
    decreases |run|
  {
    hide Inv, Stuck, Next, Enabled;
    if run != [] {
      InvStep(s, place, run[0]);
      StuckStep(s, place, run[0]);
      StuckForever(Next(s, place, run[0]), place, run[1..]);
    }
  }

  ghost predicate CanCommit(s: State, place: Where) {
    exists run: seq<Action> :: CanRun(s, place, run) && Run(s, place, run).committed > s.committed
  }

  lemma CommitsNow(s: State, place: Where)
    requires Enabled(s, place, Commit)
    ensures CanCommit(s, place)
  {
    assert [Commit][1..] == [];
    assert CanRun(s, place, [Commit]) && Run(s, place, [Commit]) == Next(s, place, Commit);
  }

  lemma CommitsAfter(s: State, place: Where, a: Action)
    requires Enabled(s, place, a) && CanCommit(Next(s, place, a), place)
    requires Next(s, place, a).committed == s.committed
    ensures CanCommit(s, place)
  {
    var t := Next(s, place, a);
    var run: seq<Action> :| CanRun(t, place, run) && Run(t, place, run).committed > t.committed;
    assert ([a] + run)[1..] == run;
    assert CanRun(s, place, [a] + run) && Run(s, place, [a] + run) == Run(t, place, run);
  }

  // Another node's loop commits once the result of the item it waits for is saved.
  lemma CommitsOnceSaved(s: State, place: Where)
    requires place.Remote? && s.phase.Waiting? && s.phase.item in s.saved && s.committed < |s.pushed|
    ensures CanCommit(s, place)
  {
    hide CanCommit;
    CommitsNow(Next(s, place, Confirm), place);
    CommitsAfter(s, place, Confirm);
  }

  lemma CommitsOncePending(s: State, place: Where)
    requires place.Remote? && s.phase.Waiting? && s.phase.item in s.pending && s.committed < |s.pushed|
    ensures CanCommit(s, place)
  {
    hide CanCommit;
    CommitsOnceSaved(Next(s, place, Execute(s.phase.item)), place);
    CommitsAfter(s, place, Execute(s.phase.item));
  }

  lemma CommitsOnceRebuilt(s: State, place: Where)
    requires place.Remote? && place.rebuilds && s.phase.Waiting? && s.committed < |s.pushed|
    requires s.phase.item in s.logged && s.phase.item !in s.covered
    ensures CanCommit(s, place)
  {
    hide CanCommit;
    CommitsOnceSaved(Next(s, place, Rebuild(s.phase.item)), place);
    CommitsAfter(s, place, Rebuild(s.phase.item));
  }

  lemma CommitsOnceLogged(s: State, place: Where)
    requires s.committed < |s.pushed| && s.phase == Waiting(s.pushed[s.committed]) && HeadLogged(s)
    requires !Stuck(s, place)
    ensures CanCommit(s, place)
  {
    hide CanCommit;
    var head := s.pushed[s.committed];
    if head in s.saved {
      CommitsOnceSaved(s, place);
    } else if head in s.pending {
      CommitsOncePending(s, place);
    } else if head !in s.covered {
      CommitsOnceRebuilt(s, place);
    } else {
      CommitsOnceRebuilt(Next(s, place, Forget), place);
      CommitsAfter(s, place, Forget);
    }
  }

  lemma CommitsOnceSent(s: State, place: Where)
    requires s.committed < |s.pushed| && s.phase == Waiting(s.pushed[s.committed]) && !HeadLogged(s)
    ensures CanCommit(s, place)
  {
    hide CanCommit;
    var head := s.pushed[s.committed];
    var sent := Next(s, place, Send);
    var logged := Next(sent, place, Assign(head));
    if place.Local? {
      CommitsNow(logged, place);
    } else {
      CommitsOncePending(logged, place);
    }
    CommitsAfter(sent, place, Assign(head));
    CommitsAfter(s, place, Send);
  }

  lemma WakesUp(s: State, place: Where)
    requires s.committed < |s.pushed| && !Stuck(s, place)
    ensures CanCommit(s, place)
  {
    hide CanCommit;
    if s.phase.Confirmed? {
      CommitsNow(s, place);
    } else {
      var idle := Next(s, place, GiveUp);
      var waiting := Next(idle, place, Peek);
      if HeadLogged(s) {
        CommitsOnceLogged(waiting, place);
      } else {
        CommitsOnceSent(waiting, place);
      }
      CommitsAfter(idle, place, Peek);
      CommitsAfter(s, place, GiveUp);
    }
  }

  // A queue with something in it can move on exactly when its head is not logged, or the loop has seen the
  // assignment; or, at another node only, when the head's result is saved, or is still to be saved: the
  // item waits to be run, or the node will rebuild and no checkpoint covers the item, or none that lasts.
  // A retry of a logged item is refused as a duplicate, and the refusal is not a commit.
  lemma MovesOnUnlessStuck(s: State, place: Where)
    requires Inv(s) && s.committed < |s.pushed|
    ensures var head := s.pushed[s.committed];
      CanCommit(s, place) <==>
        || head !in s.logged
        || s.phase.Confirmed?
        || (place.Remote? && (head in s.saved || head in s.pending || (place.rebuilds && (head !in s.covered || !place.keeps))))
  {
    if Stuck(s, place) {
      forall run: seq<Action> | CanRun(s, place, run)
        ensures Run(s, place, run).committed == s.committed
      {
        StuckForever(s, place, run);
      }
    } else {
      WakesUp(s, place);
    }
  }

  // Four steps every queue can take: push, look, send, and the target logs.
  lemma LogsFirst(item: Item, place: Where)
    ensures var t := State([item], 0, if place.Local? then Confirmed(item) else Waiting(item),
                           {item}, [item], {item}, {}, {});
      && CanRun(EMPTY, place, [Push(item), Peek, Send, Assign(item)])
      && Run(EMPTY, place, [Push(item), Peek, Send, Assign(item)]) == t
  {
    var one := Next(EMPTY, place, Push(item));
    assert one == EMPTY.(pushed := [item]);
    Cons(Next(Next(one, place, Peek), place, Send), place, Assign(item), []);
    Cons(Next(one, place, Peek), place, Send, [Assign(item)]);
    Cons(one, place, Peek, [Send, Assign(item)]);
    Cons(EMPTY, place, Push(item), [Peek, Send, Assign(item)]);
  }

  // Two items of any numbers go through a queue.
  lemma TwoDelivered(a: Item, b: Item) returns (run: seq<Action>)
    requires a.id != b.id
    ensures CanRun(EMPTY, Local, run) && Run(EMPTY, Local, run).logged == [a, b] == Run(EMPTY, Local, run).pushed
  {
    hide CanRun, Run;
    var first := [Push(a), Peek, Send, Assign(a)];
    LogsFirst(a, Local);
    var s := Run(EMPTY, Local, first);
    assert s == State([a], 0, Confirmed(a), {a}, [a], {a}, {}, {});
    var t := Next(s, Local, Commit);
    var u := Next(t, Local, Push(b));
    var v := Next(u, Local, Peek);
    var w := Next(v, Local, Send);
    var x := Next(w, Local, Assign(b));
    assert u.pushed == [a, b] && v.phase == Waiting(b) && b in w.copies && x.logged == [a, b];
    Nothing(x);
    Cons(w, Local, Assign(b), []);
    Cons(v, Local, Send, [Assign(b)] + []);
    Cons(u, Local, Peek, [Send] + ([Assign(b)] + []));
    Cons(t, Local, Push(b), [Peek] + ([Send] + ([Assign(b)] + [])));
    Cons(s, Local, Commit, [Push(b)] + ([Peek] + ([Send] + ([Assign(b)] + []))));
    run := first + ([Commit] + ([Push(b)] + ([Peek] + ([Send] + ([Assign(b)] + [])))));
    RunAppend(EMPTY, Local, first, [Commit] + ([Push(b)] + ([Peek] + ([Send] + ([Assign(b)] + [])))));
  }

  lemma Nothing(s: State)
    ensures CanRun(s, Local, []) && Run(s, Local, []) == s
  {
  }

  // The sender stops between the target's log and its own commit: on one node that is all it takes.
  lemma CrashLeavesQueueStuck(item: Item)
    ensures var run := [Push(item), Peek, Send, Assign(item)] + [GiveUp];
      CanRun(EMPTY, Local, run) && !CanCommit(Run(EMPTY, Local, run), Local)
  {
    hide CanCommit;
    LogsFirst(item, Local);
    var logged := Run(EMPTY, Local, [Push(item), Peek, Send, Assign(item)]);
    Cons(logged, Local, GiveUp, []);
    RunAppend(EMPTY, Local, [Push(item), Peek, Send, Assign(item)], [GiveUp]);
    InvRun(EMPTY, Local, [Push(item), Peek, Send, Assign(item)] + [GiveUp]);
    MovesOnUnlessStuck(logged.(phase := Idle), Local);
  }

  // Another node logs the item and stops before it has run it. Its recovery runs the item and saves no
  // result: unless the node is ever started to rebuild, the queue is stuck though nobody refused anything.
  lemma RemoteLostResultLeavesQueueStuck(item: Item, keeps: bool)
    ensures var run := [Push(item), Peek, Send, Assign(item)] + [Lose(item)];
      CanRun(EMPTY, Remote(false, keeps), run)
      && !CanCommit(Run(EMPTY, Remote(false, keeps), run), Remote(false, keeps))
  {
    hide CanCommit;
    var place := Remote(false, keeps);
    LogsFirst(item, place);
    var logged := Run(EMPTY, place, [Push(item), Peek, Send, Assign(item)]);
    Cons(logged, place, Lose(item), []);
    RunAppend(EMPTY, place, [Push(item), Peek, Send, Assign(item)], [Lose(item)]);
    InvRun(EMPTY, place, [Push(item), Peek, Send, Assign(item)] + [Lose(item)]);
    var lost := logged.(pending := {});
    assert Next(logged, place, Lose(item)) == lost;
    MovesOnUnlessStuck(lost, place);
  }

  // Nor does a rebuild help once a checkpoint has been stored after that recovery, as long as it is there.
  lemma CheckpointLeavesQueueStuck(item: Item)
    ensures var run := [Push(item), Peek, Send, Assign(item)] + [Lose(item), Checkpoint(item)];
      CanRun(EMPTY, Remote(true, true), run) && !CanCommit(Run(EMPTY, Remote(true, true), run), Remote(true, true))
  {
    hide CanCommit;
    var place := Remote(true, true);
    LogsFirst(item, place);
    var logged := Run(EMPTY, place, [Push(item), Peek, Send, Assign(item)]);
    var lost := logged.(pending := {});
    assert Next(logged, place, Lose(item)) == lost;
    assert Next(lost, place, Checkpoint(item)) == lost.(covered := {item});
    Cons(lost, place, Checkpoint(item), []);
    Cons(logged, place, Lose(item), [Checkpoint(item)]);
    RunAppend(EMPTY, place, [Push(item), Peek, Send, Assign(item)], [Lose(item), Checkpoint(item)]);
    InvRun(EMPTY, place, [Push(item), Peek, Send, Assign(item)] + [Lose(item), Checkpoint(item)]);
    MovesOnUnlessStuck(lost.(covered := {item}), place);
  }

  lemma Cons(s: State, place: Where, a: Action, rest: seq<Action>)
    requires Enabled(s, place, a) && CanRun(Next(s, place, a), place, rest)
    ensures CanRun(s, place, [a] + rest) && Run(s, place, [a] + rest) == Run(Next(s, place, a), place, rest)
  {
    assert ([a] + rest)[1..] == rest;
  }

  lemma {:induction false} RunAppend(s: State, place: Where, first: seq<Action>, rest: seq<Action>)
    requires CanRun(s, place, first) && CanRun(Run(s, place, first), place, rest)
    ensures CanRun(s, place, first + rest)
    ensures Run(s, place, first + rest) == Run(Run(s, place, first), place, rest)
    decreases |first|
  {
    hide Next, Enabled;
    if first == [] {
      assert first + rest == rest;
    } else {
      RunAppend(Next(s, place, first[0]), place, first[1..], rest);
      assert (first + rest)[1..] == first[1..] + rest;
    }
  }

  // -------------------------------------------------------------------- the sending loop

  // How an attempt to have the head assigned ends: no node was found to ask, the retries were used up,
  // or the assignment was seen.
  datatype Reply = NoNode | Failed | InLog

  // One attempt, with what the network, the target and the pushing side did meanwhile. A retry is one more
  // Send.
  datatype Attempt = Attempt(reply: Reply, meanwhile: seq<Action>)

  predicate Elsewhere(a: Action) {
    a.Push? || a.Send? || a.Assign? || a.Execute? || a.Lose? || a.Checkpoint? || a.Forget? || a.Rebuild?
  }

  // The items pushed meanwhile, in order.
  function Pushes(run: seq<Action>): seq<Item> {
    if run == [] then []
    else Pushes(run[..|run| - 1]) + if run[|run| - 1].Push? then [run[|run| - 1].item] else []
  }

  // What an attempt does meanwhile. Without a node to ask there is none.
  function Meanwhile(x: Attempt): seq<Action> { if x.reply.NoNode? then [] else x.meanwhile }

  // The steps of an attempt: look at the head, ask, and commit or give up.
  function Steps(place: Where, x: Attempt): seq<Action> {
    [Peek] + (Meanwhile(x) + Ending(place, x.reply))
  }

  function Ending(place: Where, reply: Reply): seq<Action> {
    if !reply.InLog? then [GiveUp] else if place.Local? then [Commit] else [Confirm, Commit]
  }

  // The steps of some attempts, one after the other.
  function AllSteps(place: Where, xs: seq<Attempt>): seq<Action> {
    if xs == [] then [] else AllSteps(place, xs[..|xs| - 1]) + Steps(place, xs[|xs| - 1])
  }

  // An attempt is told of an assignment only when there is one to tell of: at this node when the loop was
  // the one waiting, at another when the result is saved.
  ghost predicate Happens(s: State, place: Where, x: Attempt) {
    && (forall i :: 0 <= i < |x.meanwhile| ==> Elsewhere(x.meanwhile[i]))
    && CanRun(s, place, Steps(place, x))
  }

  // What may happen to a loop that sends as long as it succeeds, an attempt for every item at least.
  ghost predicate CanHappen(s: State, place: Where, xs: seq<Attempt>)
    decreases |xs|
  {
    s.committed >= |s.pushed| ||
    (xs != [] && Happens(s, place, xs[0])
     && (xs[0].reply.InLog? ==> CanHappen(Run(s, place, Steps(place, xs[0])), place, xs[1..])))
  }

  lemma {:induction false} ElsewhereOnlyPushes(s: State, place: Where, run: seq<Action>)
    requires CanRun(s, place, run) && forall i :: 0 <= i < |run| ==> Elsewhere(run[i])
    ensures Run(s, place, run).pushed == s.pushed + Pushes(run) && Run(s, place, run).committed == s.committed
    decreases |run|
  {
    if run != [] {
      var front, last := run[..|run| - 1], run[|run| - 1];
      assert front + [last] == run;
      RunSplits(s, place, front, [last]);
      ElsewhereOnlyPushes(s, place, front);
      RunOne(Run(s, place, front), place, last);
      assert Elsewhere(last);
    }
  }

  lemma {:induction false} RunSplits(s: State, place: Where, first: seq<Action>, rest: seq<Action>)
    requires CanRun(s, place, first + rest)
    ensures CanRun(s, place, first) && CanRun(Run(s, place, first), place, rest)
    ensures Run(s, place, first + rest) == Run(Run(s, place, first), place, rest)
    decreases |first|
  {
    hide Next, Enabled;
    if first == [] {
      assert first + rest == rest;
    } else {
      assert (first + rest)[0] == first[0] && (first + rest)[1..] == first[1..] + rest;
      RunSplits(Next(s, place, first[0]), place, first[1..], rest);
    }
  }

  // An attempt commits exactly one item or none, and leaves the loop idle. Nothing is pushed but by others.
  lemma AttemptCommits(s: State, place: Where, x: Attempt)
    requires s.phase.Idle? && Happens(s, place, x)
    ensures var t := Run(s, place, Steps(place, x));
      && s.committed < |s.pushed| && t.pushed == s.pushed + Pushes(Meanwhile(x)) && t.phase.Idle?
      && t.committed == s.committed + if x.reply.InLog? then 1 else 0
  {
    var meanwhile, last := Meanwhile(x), Ending(place, x.reply);
    hide CanRun, Run, Pushes;
    RunSplits(s, place, [Peek], meanwhile + last);
    RunOne(s, place, Peek);
    var peeked := Next(s, place, Peek);
    RunSplits(peeked, place, meanwhile, last);
    var t := Run(peeked, place, meanwhile);
    ElsewhereOnlyPushes(peeked, place, meanwhile);
    if last == [Confirm, Commit] {
      assert last == [Confirm] + [Commit];
      RunSplits(t, place, [Confirm], [Commit]);
      RunOne(t, place, Confirm);
      RunOne(Next(t, place, Confirm), place, Commit);
    } else {
      RunOne(t, place, last[0]);
    }
  }

  lemma RunOne(s: State, place: Where, a: Action)
    requires CanRun(s, place, [a])
    ensures Enabled(s, place, a) && Run(s, place, [a]) == Next(s, place, a)
  {
    assert [a][1..] == [];
  }

  ghost predicate SameElsewhere(before: map<string, seq<Item>>, after: map<string, seq<Item>>, key: string) {
    after - {key} == before - {key}
  }

  // The store's queues and the set of queues being sent.
  class Outbox {
    var queues: map<string, seq<Item>>
    var sending: set<string>

    function Queue(pid: string, target: string): seq<Item>
      reads this
    {
      var key := pid + ":" + target;
      if key in queues then queues[key] else []
    }

    constructor ()
      ensures queues == map[] && sending == {}
    {
      queues, sending := map[], {};
    }

    method PushOutbox(pid: string, target: string, item: Item)
      modifies this`queues
      ensures queues == old(queues)[pid + ":" + target := old(Queue(pid, target)) + [item]]
    {
      queues := queues[pid + ":" + target := Queue(pid, target) + [item]];
    }

    method PeekOutbox(pid: string, target: string) returns (item: Option<Item>)
      ensures item == if Queue(pid, target) == [] then None else Some(Queue(pid, target)[0])
    {
      var q := Queue(pid, target);
      item := if q == [] then None else Some(q[0]);
    }

    // A list that becomes empty is no longer there.
    method CommitOutbox(pid: string, target: string) returns (ok: bool)
      modifies this`queues
      ensures ok <==> old(Queue(pid, target)) != []
      ensures !ok ==> queues == old(queues)
      ensures ok ==> Queue(pid, target) == old(Queue(pid, target))[1..]
      ensures SameElsewhere(old(queues), queues, pid + ":" + target)
    {
      var key := pid + ":" + target;
      var q := Queue(pid, target);
      if q == [] { return false; }
      queues := if |q| == 1 then queues - {key} else queues[key := q[1..]];
      ok := true;
    }

    method PushAll(pid: string, target: string, run: seq<Action>)
      modifies this`queues
      ensures Queue(pid, target) == old(Queue(pid, target)) + Pushes(run)
      ensures SameElsewhere(old(queues), queues, pid + ":" + target)
    {
      for k := 0 to |run|
        invariant Queue(pid, target) == old(Queue(pid, target)) + Pushes(run[..k])
        invariant SameElsewhere(old(queues), queues, pid + ":" + target)
      {
        assert run[..k + 1][..k] == run[..k];
        if run[k].Push? { PushOutbox(pid, target, run[k].item); }
      }
      assert run[..|run|] == run;
    }

    // The loop's effect on the store is that of a run of the state machine, whatever happens meanwhile: it
    // sends from the head up to the first attempt that is not told of an assignment, or everything, with what
    // is pushed on the way.
    method TrySend(pid: string, target: string, xs: seq<Attempt>, ghost place: Where, ghost s: State)
      returns (sent: nat, ghost tried: nat)
      requires pid + target !in sending ==>
        s.phase.Idle? && s.committed <= |s.pushed| && Queue(pid, target) == s.pushed[s.committed..]
        && CanHappen(s, place, xs)
      modifies this
      ensures sending == old(sending) && sent <= tried <= |xs|
      ensures pid + target in old(sending) ==> queues == old(queues) && tried == 0
      ensures pid + target !in old(sending) ==>
        && CanRun(s, place, AllSteps(place, xs[..tried]))
        && var t := Run(s, place, AllSteps(place, xs[..tried]));
           t.phase.Idle? && t.committed == s.committed + sent <= |t.pushed|
           && Queue(pid, target) == t.pushed[t.committed..]
           && (forall k :: 0 <= k < sent ==> xs[k].reply.InLog?)
           && (if tried == sent then t.committed == |t.pushed| else tried == sent + 1 && !xs[sent].reply.InLog?)
      ensures SameElsewhere(old(queues), queues, pid + ":" + target)
    {
      hide CanRun, Run, Happens, Enabled, Next, AllSteps, Steps, Pushes, Meanwhile;
      sent, tried := 0, 0;
      if pid + target in sending { return; }
      sending := sending + {pid + target};
      ghost var t := s;
      RunNothing(s, place, xs);
      while true
        invariant sending == old(sending) + {pid + target} && sent == tried <= |xs|
        invariant CanRun(s, place, AllSteps(place, xs[..tried])) && Run(s, place, AllSteps(place, xs[..tried])) == t
        invariant t.phase.Idle? && t.committed == s.committed + sent <= |t.pushed|
        invariant Queue(pid, target) == t.pushed[t.committed..] && CanHappen(t, place, xs[sent..])
        invariant forall k :: 0 <= k < sent ==> xs[k].reply.InLog?
        invariant SameElsewhere(old(queues), queues, pid + ":" + target)
        decreases |xs| - sent
      {
        var item := PeekOutbox(pid, target);
        if item.None? { break; }
        var x := xs[sent];
        assert xs[sent..][0] == x && xs[sent..][1..] == xs[sent + 1..];
        AttemptCommits(t, place, x);
        OneMoreAttempt(s, place, xs, tried);
        TailGrows(t.pushed, Pushes(Meanwhile(x)), t.committed);
        t := Run(t, place, Steps(place, x));
        tried := tried + 1;
        PushAll(pid, target, Meanwhile(x));
        if !x.reply.InLog? { break; }
        var ok := CommitOutbox(pid, target);
        if !ok { break; }
        sent := sent + 1;
      }
      sending := sending - {pid + target};
    }
  }

  lemma TailGrows<T>(s: seq<T>, more: seq<T>, n: nat)
    requires n < |s|
    ensures (s + more)[n..] == s[n..] + more && (s + more)[n + 1..] == (s[n..] + more)[1..]
  {
  }

  lemma RunNothing(s: State, place: Where, xs: seq<Attempt>)
    ensures CanRun(s, place, AllSteps(place, xs[..0])) && Run(s, place, AllSteps(place, xs[..0])) == s
  {
  }

  lemma OneMoreAttempt(s: State, place: Where, xs: seq<Attempt>, n: nat)
    requires n < |xs| && CanRun(s, place, AllSteps(place, xs[..n]))
    requires Happens(Run(s, place, AllSteps(place, xs[..n])), place, xs[n])
    ensures var t := Run(s, place, AllSteps(place, xs[..n]));
      && CanRun(t, place, Steps(place, xs[n])) && CanRun(s, place, AllSteps(place, xs[..n + 1]))
      && Run(s, place, AllSteps(place, xs[..n + 1])) == Run(t, place, Steps(place, xs[n]))
  {
    hide CanRun, Run, Steps;
    assert xs[..n + 1][..n] == xs[..n];
    RunAppend(s, place, AllSteps(place, xs[..n]), Steps(place, xs[n]));
  }
}
