/** One wait for an assignment at this node, and the loop that hands out all assignment results
    (node/outbox.go's tryGetLocalAssign, node/node.go's handlers, node/channel.go's runAssignmentChan). */
module AssignWaiter {
  import opened Options

  const MAX_TRIES: nat := 9  // len(TryAssignSleepTime)

  datatype Outcome = Assigned | Duplicate | Failed

  // The waiting function: about to try, in its select, or on its way out. There it first takes the handlers'
  // lock, and finds no handler to remove because it compares two addresses that are never equal; then it
  // closes `closed`, and then `resultChan`.
  datatype Phase = Trying | Waiting | Ending | Removed | Flagged | Closed

  // The loop, with regard to this wait's handler. From Entered on it holds the handlers' lock for reading.
  datatype Loop = Away | Entered(result: Outcome) | Passed(result: Outcome)

  // `requests` are copies of the item that were taken in and not yet assigned or refused; `late` says that a
  // result has passed the handler's check after the removal.
  datatype State = State(
    phase: Phase, tries: nat, requests: nat, logged: bool, channel: Option<Outcome>, loop: Loop,
    panicked: bool, late: bool)

  const START := State(Trying, 0, 0, false, None, Away, false, false)

  datatype Action =
    | Submit                 // a copy of the item comes from elsewhere
    | Handle(taken: bool)
    | GiveUp
    | Timeout
    | Take
    | Arrive(fails: bool)    // the next request is answered and the loop calls the handler
    | Check
    | Deliver
    | Remove
    | CloseFlag
    | CloseResult

  predicate Enabled(s: State, a: Action) {
    !s.panicked &&
    match a
    case Submit => true
    case Handle(_) => s.phase.Trying? && s.tries < MAX_TRIES
    case GiveUp => s.phase.Trying? && s.tries == MAX_TRIES
    case Timeout => s.phase.Waiting?
    case Take => s.phase.Waiting? && s.channel.Some?
    case Arrive(_) => s.loop.Away? && s.requests > 0
    case Check => s.loop.Entered?
    // A send waits while the one slot is taken, but a send on the closed channel does not: it panics.
    case Deliver => s.loop.Passed? && (s.phase.Closed? || s.channel.None?)
    case Remove => s.phase.Ending? && s.loop.Away?
    case CloseFlag => s.phase.Removed?
    case CloseResult => s.phase.Flagged?
  }

  function Next(s: State, a: Action): State
    requires Enabled(s, a)
  {
    match a
    case Submit => s.(requests := s.requests + 1)
    case Handle(taken) =>
      if taken then s.(phase := Waiting, tries := s.tries + 1, requests := s.requests + 1)
      else s.(tries := s.tries + 1)
    case GiveUp => s.(phase := Ending)
    case Timeout => s.(phase := Trying)
    case Take => s.(channel := None, phase := if s.channel.value.Failed? then Trying else Ending)
    case Arrive(fails) =>
      s.(requests := s.requests - 1, logged := s.logged || !fails,
         loop := Entered(if s.logged then Duplicate else if fails then Failed else Assigned))
    case Check =>
      if s.phase.Flagged? || s.phase.Closed? then s.(loop := Away)
      else s.(loop := Passed(s.loop.result), late := s.late || s.phase.Removed?)
    case Deliver =>
      if s.phase.Closed? then s.(panicked := true)
      else s.(loop := Away, channel := Some(s.loop.result))
    case Remove => s.(phase := Removed)
    case CloseFlag => s.(phase := Flagged)
    case CloseResult => s.(phase := Closed)
  }

  predicate CanRun(s: State, run: seq<Action>)
    decreases |run|
  {
    run == [] || (Enabled(s, run[0]) && CanRun(Next(s, run[0]), run[1..]))
  }

  function Run(s: State, run: seq<Action>): State
    requires CanRun(s, run)
    decreases |run|
  {
    if run == [] then s else Run(Next(s, run[0]), run[1..])
  }

  // -------------------------------------------------------------------- invariant

  // After the removal only a late result can be between the check and the send.
  predicate Inv(s: State) {
    && s.tries <= MAX_TRIES
    && (s.phase.Waiting? ==> s.tries > 0)
    && ((s.phase.Removed? || s.phase.Flagged? || s.phase.Closed?) && s.loop.Passed? ==> s.late)
    && (s.late ==> s.phase.Removed? || s.phase.Flagged? || s.phase.Closed?)
    && (s.panicked ==> s.phase.Closed? && s.late)
  }

  lemma {:induction false} InvRun(s: State, run: seq<Action>)
    requires Inv(s) && CanRun(s, run)
    ensures Inv(Run(s, run))
    decreases |run|
  {
    if run != [] {
      InvRun(Next(s, run[0]), run[1..]);
    }
  }

  // A panic takes a result that passes the handler's check after the removal and is sent after the close.
  lemma PanicNeedsLateResult(run: seq<Action>)
    requires CanRun(START, run) && Run(START, run).panicked
    ensures Run(START, run).late && Run(START, run).phase.Closed?
  {
    InvRun(START, run);
  }

  // ------------------------------------------------------------------ what can still happen

  // The waiting function is in its select, or can be again.
  predicate Receives(s: State) {
    s.phase.Waiting? || (s.phase.Trying? && s.tries < MAX_TRIES)
  }

  // The way out waits for the loop to give the lock back, and the loop waits for room in a channel that
  // nobody reads any more.
  predicate Blocked(s: State) {
    (s.phase.Trying? || s.phase.Ending?) && !Receives(s) && !s.loop.Away? && s.channel.Some?
  }

  // What the loop holds can only be sent once the channel is closed.
  predicate Doomed(s: State) {
    s.loop.Passed? && (s.phase.Closed? || ((s.phase.Removed? || s.phase.Flagged?) && s.channel.Some?))
  }

  // Between the closes or after them, the loop is not in front of the send.
  predicate Past(s: State) {
    (s.phase.Flagged? || s.phase.Closed?) && !s.loop.Passed?
  }

  // The loop comes back, to hand out the next result of whatever item.
  ghost predicate LoopReturns(s: State) {
    exists run: seq<Action> :: CanRun(s, run) && Run(s, run).loop.Away? && !Run(s, run).panicked
  }

  ghost predicate CanPanic(s: State) {
    exists run: seq<Action> :: CanRun(s, run) && Run(s, run).panicked
  }

  lemma {:induction false} BlockedForever(s: State, run: seq<Action>)
    requires Blocked(s) && !s.panicked && CanRun(s, run)
    ensures Blocked(Run(s, run)) && !Run(s, run).panicked
    decreases |run|
  {
    if run != [] {
      BlockedForever(Next(s, run[0]), run[1..]);
    }
  }

  lemma {:induction false} DoomedForever(s: State, run: seq<Action>)
    requires Inv(s) && (Doomed(s) || s.panicked) && CanRun(s, run)
    ensures Doomed(Run(s, run)) || Run(s, run).panicked
    decreases |run|
  {
    if run != [] {
      DoomedForever(Next(s, run[0]), run[1..]);
    }
  }

  lemma {:induction false} PastForever(s: State, run: seq<Action>)
    requires Past(s) && !s.panicked && CanRun(s, run)
    ensures Past(Run(s, run)) && !Run(s, run).panicked
    decreases |run|
  {
    if run != [] {
      PastForever(Next(s, run[0]), run[1..]);
    }
  }

  lemma Cons(s: State, a: Action, run: seq<Action>)
    requires Enabled(s, a) && CanRun(Next(s, a), run)
    ensures CanRun(s, [a] + run) && Run(s, [a] + run) == Run(Next(s, a), run)
  {
    assert ([a] + run)[1..] == run;
  }

  lemma ReturnsAfter(s: State, a: Action)
    requires Enabled(s, a) && LoopReturns(Next(s, a))
    ensures LoopReturns(s)
  {
    var run: seq<Action> :| CanRun(Next(s, a), run) && Run(Next(s, a), run).loop.Away? && !Run(Next(s, a), run).panicked;
    Cons(s, a, run);
  }

  lemma PanicsAfter(s: State, a: Action)
    requires Enabled(s, a) && CanPanic(Next(s, a))
    ensures CanPanic(s)
  {
    var run: seq<Action> :| CanRun(Next(s, a), run) && Run(Next(s, a), run).panicked;
    Cons(s, a, run);
  }

  lemma StayHere(s: State)
    ensures CanRun(s, []) && Run(s, []) == s
  {
  }

  function StepsToReturn(s: State): nat {
    match s.loop
    case Away => 0
    case Passed(_) => if s.channel.None? then 1 else if s.phase.Waiting? then 2 else 3
    case Entered(_) => 4
  }

  // The loop can come back unless it is blocked or doomed.
  lemma {:induction false} Returns(s: State)
    requires Inv(s) && !s.panicked && !Blocked(s) && !Doomed(s)
    ensures LoopReturns(s)
    decreases if s.phase.Removed? then 1 else 0, StepsToReturn(s)
  {
    hide LoopReturns;
    if s.loop.Away? {
      IsBack(s);
    } else {
      var a := if s.loop.Entered? then (if s.phase.Removed? then CloseFlag else Check)
               else if s.channel.None? then Deliver
               else if s.phase.Waiting? then Take else Handle(true);
      Returns(Next(s, a));
      ReturnsAfter(s, a);
    }
  }

  lemma IsBack(s: State)
    requires s.loop.Away? && !s.panicked
    ensures LoopReturns(s)
  {
    StayHere(s);
  }

  function StepsToPanic(s: State): nat {
    if Receives(s) && !s.loop.Away? && s.channel.Some? then (if s.phase.Trying? then 101 else 100) else
    match s.phase
    case Waiting => 60
    case Trying => 40 + MAX_TRIES - Least(s.tries, MAX_TRIES)
    case Ending => 30 + (if s.loop.Entered? then 2 else if s.loop.Passed? then 1 else 0)
    case Removed => 10 + (if s.loop.Passed? then 0 else if s.loop.Entered? then 1 else if s.requests > 0 then 2 else 3)
    case Flagged => 2
    case Closed => 1
  }

  function Least(a: nat, b: nat): nat { if a < b then a else b }

  // Unless it is blocked, or past the closes, a further copy of the item brings the node down.
  lemma {:induction false} Panics(s: State)
    requires Inv(s) && !s.panicked && !Blocked(s) && !Past(s)
    ensures CanPanic(s)
    decreases StepsToPanic(s)
  {
    hide CanPanic;
    var a := TowardsPanic(s);
    if Next(s, a).panicked {
      Panicked(Next(s, a));
    } else {
      Panics(Next(s, a));
    }
    PanicsAfter(s, a);
  }

  lemma Panicked(s: State)
    requires s.panicked
    ensures CanPanic(s)
  {
    StayHere(s);
  }

  function TowardsPanic(s: State): (a: Action)
    requires Inv(s) && !s.panicked && !Blocked(s) && !Past(s)
    ensures Enabled(s, a)
  {
    match s.phase
    case Waiting => if s.channel.Some? then Take else Timeout
    case Trying => if s.tries == MAX_TRIES then GiveUp else Handle(!s.loop.Away? && s.channel.Some?)
    case Ending => if s.loop.Away? then Remove else if s.loop.Entered? then Check else Deliver
    case Removed =>
      if s.loop.Passed? then CloseFlag else if s.loop.Entered? then Check
      else if s.requests > 0 then Arrive(false) else Submit
    case Flagged => CloseResult
    case Closed => Deliver
  }

  // At any moment of any run: the loop can come back exactly when it is not blocked and not doomed, and the
  // node can still panic exactly when it is not blocked and the wait not past its closes.
  lemma WhatCanHappen(run: seq<Action>)
    requires CanRun(START, run) && !Run(START, run).panicked
    ensures var s := Run(START, run);
      && (LoopReturns(s) <==> !Blocked(s) && !Doomed(s))
      && (CanPanic(s) <==> !Blocked(s) && !Past(s))
  {
    hide Blocked, Doomed, Past;
    var s := Run(START, run);
    InvRun(START, run);
    if Blocked(s) || Doomed(s) { NoReturn(s); } else { Returns(s); }
    if Blocked(s) || Past(s) { NoPanic(s); } else { Panics(s); }
  }

  lemma NoReturn(s: State)
    requires Inv(s) && !s.panicked && (Blocked(s) || Doomed(s))
    ensures !LoopReturns(s)
  {
    forall run: seq<Action> | CanRun(s, run)
      ensures !(Run(s, run).loop.Away? && !Run(s, run).panicked)
    {
      if Blocked(s) { BlockedForever(s, run); } else { DoomedForever(s, run); }
    }
  }

  lemma NoPanic(s: State)
    requires !s.panicked && (Blocked(s) || Past(s))
    ensures !CanPanic(s)
  {
    forall run: seq<Action> | CanRun(s, run)
      ensures !Run(s, run).panicked
    {
      if Blocked(s) { BlockedForever(s, run); } else { PastForever(s, run); }
    }
  }

  // ---------------------------------------------------------------------- both do happen

  lemma FromStart() returns (run: seq<Action>, s: State)
    ensures run == [] && s == START && CanRun(START, run) && Run(START, run) == s
  {
    run, s := [], START;
  }

  lemma OneMore(run: seq<Action>, s: State, a: Action) returns (more: seq<Action>, t: State)
    requires CanRun(START, run) && Run(START, run) == s && Enabled(s, a)
    ensures more == run + [a] && t == Next(s, a) && CanRun(START, more) && Run(START, more) == t
  {
    RunSnoc(START, run, a);
    more, t := run + [a], Next(s, a);
  }

  lemma {:induction false} RunSnoc(s: State, run: seq<Action>, a: Action)
    requires CanRun(s, run) && Enabled(Run(s, run), a)
    ensures CanRun(s, run + [a]) && Run(s, run + [a]) == Next(Run(s, run), a)
    decreases |run|
  {
    hide Next, Enabled;
    if run == [] {
      assert run + [a] == [a] && [a][1..] == [];
      StayHere(Next(s, a));
    } else {
      assert (run + [a])[1..] == run[1..] + [a];
      RunSnoc(Next(s, run[0]), run[1..], a);
    }
  }

  // The wait's own second try is answered between the removal and the close.
  const WAITS: seq<Action> := [Handle(true), Timeout, Handle(true), Arrive(false), Check, Deliver, Take, Remove]
  const PANICKING: seq<Action> := WAITS + [Arrive(false), Check, CloseFlag, CloseResult, Deliver]

  lemma WaitsOnce() returns (run: seq<Action>, s: State)
    ensures run == WAITS && s == State(Removed, 2, 1, true, None, Away, false, false)
    ensures CanRun(START, run) && Run(START, run) == s
  {
    hide CanRun, Run;
    run, s := FromStart();
    run, s := OneMore(run, s, Handle(true));
    run, s := OneMore(run, s, Timeout);
    run, s := OneMore(run, s, Handle(true));
    run, s := OneMore(run, s, Arrive(false));
    run, s := OneMore(run, s, Check);
    run, s := OneMore(run, s, Deliver);
    run, s := OneMore(run, s, Take);
    run, s := OneMore(run, s, Remove);
  }

  lemma OwnRetryPanics()
    ensures CanRun(START, PANICKING) && Run(START, PANICKING).panicked
  {
    hide CanRun, Run;
    var run, s := WaitsOnce();
    run, s := OneMore(run, s, Arrive(false));
    run, s := OneMore(run, s, Check);
    run, s := OneMore(run, s, CloseFlag);
    run, s := OneMore(run, s, CloseResult);
    run, s := OneMore(run, s, Deliver);
    assert run == PANICKING;
  }

  // Three of its own tries are answered at once: the first answer ends the wait, the second fills the channel,
  // and with the third the loop stops for good.
  const ANSWERED: seq<Action> :=
    [Handle(true), Timeout, Handle(true), Timeout, Handle(true), Arrive(false), Check, Deliver]
  const BLOCKING: seq<Action> := ANSWERED + [Take, Arrive(false), Check, Deliver, Arrive(false)]

  lemma AnsweredOnce() returns (run: seq<Action>, s: State)
    ensures run == ANSWERED && s == State(Waiting, 3, 2, true, Some(Assigned), Away, false, false)
    ensures CanRun(START, run) && Run(START, run) == s
  {
    hide CanRun, Run;
    run, s := FromStart();
    run, s := OneMore(run, s, Handle(true));
    run, s := OneMore(run, s, Timeout);
    run, s := OneMore(run, s, Handle(true));
    run, s := OneMore(run, s, Timeout);
    run, s := OneMore(run, s, Handle(true));
    run, s := OneMore(run, s, Arrive(false));
    run, s := OneMore(run, s, Check);
    run, s := OneMore(run, s, Deliver);
  }

  lemma OwnRetriesBlock()
    ensures CanRun(START, BLOCKING) && Blocked(Run(START, BLOCKING)) && !LoopReturns(Run(START, BLOCKING))
  {
    hide CanRun, Run, LoopReturns;
    var run, s := AnsweredOnce();
    run, s := OneMore(run, s, Take);
    run, s := OneMore(run, s, Arrive(false));
    run, s := OneMore(run, s, Check);
    run, s := OneMore(run, s, Deliver);
    run, s := OneMore(run, s, Arrive(false));
    assert run == BLOCKING;
    WhatCanHappen(BLOCKING);
  }
}
