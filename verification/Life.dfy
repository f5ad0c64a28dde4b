/** A process's whole life: live runs cut short by stops and crashes, and a recovery after each. */
module Life {
  import opened Options
  import opened Numerals
  import opened Tags
  import opened Execution
  import opened Recovery
  import Acceptance
  import Delivery

  // Run handles entries live, up to an entry of the log. What they send goes into a channel, and of it the
  // first `handled` are taken out before the node stops: all of it when it stops gracefully, any part when
  // it crashes. Restart starts the process again when that many entries are logged, more perhaps than were
  // run, from the checkpoint taken after `cut` of them if any.
  datatype Stage = Run(upTo: nat, handled: nat) | Restart(upTo: nat, cut: Option<nat>, mode: Mode)

  function Done(stages: seq<Stage>): nat {
    if stages == [] then 0 else stages[|stages| - 1].upTo
  }

  predicate IsLife(log: seq<LogItem>, stages: seq<Stage>)
    decreases |stages|
  {
    stages == [] ||
    var before, last := stages[..|stages| - 1], stages[|stages| - 1];
    && IsLife(log, before) && Done(before) <= last.upTo <= |log|
    && (last.Run? ==> before == [] || before[|before| - 1].Restart?)
    && (last.Restart? ==>
          last.upTo > 0 && !last.mode.ModeApply? && (last.cut.Some? ==> last.cut.value <= Done(before)))
  }

  function SnapAt<S>(host: Host<S>, log: seq<LogItem>, cut: Option<nat>): Option<Snapshot>
    requires cut.Some? ==> cut.value <= |log|
  {
    if cut.None? || Live(host, log, cut.value).instance.None? then None
    else Some(CheckpointOf(host.machine, Live(host, log, cut.value).instance.value))
  }

  // The node's runOutboxChan: of what it takes out of the channel it stores, and later sends, all that has an
  // account for its target.
  function Stored(known: string -> bool, outs: seq<Outbox>): seq<Outbox> {
    if outs == [] then []
    else Stored(known, outs[..|outs| - 1]) + if known(outs[|outs| - 1].to) then [outs[|outs| - 1]] else []
  }

  // The process at the end of a life. Its outbox is what was stored of all that it sent.
  function Lived<S>(host: Host<S>, known: string -> bool, log: seq<LogItem>, stages: seq<Stage>): World<S>
    requires IsLife(log, stages)
    decreases |stages|
  {
    if stages == [] then Fresh(false) else
    var before := stages[..|stages| - 1];
    Continued(host, known, log, Lived(host, known, log, before), Done(before), stages[|stages| - 1])
  }

  function Continued<S>(host: Host<S>, known: string -> bool, log: seq<LogItem>, w: World<S>, done: nat, stage: Stage): World<S>
    requires stage.upTo <= |log|
    requires stage.Restart? && stage.cut.Some? ==> stage.cut.value <= |log|
  {
    match stage
    case Run(n, handled) =>
      var t := Replayed(host, w.(outbox := []), log, done, n, ModeApply);
      t.(outbox := w.outbox + Stored(known, First(t.outbox, handled)))
    case Restart(n, cut, mode) =>
      var r := Recovered(host, Fresh(false), log[..n], SnapAt(host, log, cut), mode);
      r.(outbox := w.outbox + r.outbox, results := w.results + r.results)
  }

  function First<T>(s: seq<T>, n: nat): seq<T> { if n < |s| then s[..n] else s }

  // How many numbers the first n entries use up.
  function Used<S>(host: Host<S>, log: seq<LogItem>, n: nat): nat
    requires n <= |log|
  {
    |Live(host, log, n).outbox|
  }

  // What entry k sends when it is run live, by itself.
  function SentAt<S>(host: Host<S>, log: seq<LogItem>, k: nat): seq<Outbox>
    requires k < |log|
  {
    Handled(host, Live(host, log, k).(outbox := []), log[k], k, ModeApply, |log| - 1).outbox
  }

  // Number k was sent live, taken out of the channel, and had an account for its target.
  predicate WasStored<S>(host: Host<S>, known: string -> bool, log: seq<LogItem>, stages: seq<Stage>, k: nat)
    requires IsLife(log, stages)
    decreases |stages|
  {
    stages != [] &&
    var before, last := stages[..|stages| - 1], stages[|stages| - 1];
    || WasStored(host, known, log, before, k)
    || (last.Run? && Used(host, log, Done(before)) <= k < TakenTo(host, log, stages)
        && known(Live(host, log, last.upTo).outbox[k].to))
  }

  // The numbers from .. to - 1 whose targets have an account.
  function Known(known: string -> bool, outs: seq<Outbox>, from: nat, end: nat): (ns: seq<nat>)
    requires end <= |outs|
    decreases end
  {
    if end <= from then []
    else Known(known, outs, from, end - 1) + if known(outs[end - 1].to) then [end - 1] else []
  }

  // The numbers stored, in order.
  function Numbers<S>(host: Host<S>, known: string -> bool, log: seq<LogItem>, stages: seq<Stage>): seq<nat>
    requires IsLife(log, stages)
    decreases |stages|
  {
    if stages == [] then [] else
    var before, last := stages[..|stages| - 1], stages[|stages| - 1];
    Numbers(host, known, log, before)
    + if last.Run? then Known(known, Live(host, log, last.upTo).outbox, Used(host, log, Done(before)), TakenTo(host, log, stages))
      else []
  }

  // The number up to which the run at the end of a life has had its messages taken out.
  function TakenTo<S>(host: Host<S>, log: seq<LogItem>, stages: seq<Stage>): (to: nat)
    requires IsLife(log, stages) && stages != [] && stages[|stages| - 1].Run?
    ensures to <= Used(host, log, Done(stages))
  {
    var last := stages[|stages| - 1];
    var to := Used(host, log, Done(stages[..|stages| - 1])) + last.handled;
    if to < Used(host, log, last.upTo) then to else Used(host, log, last.upTo)
  }

  // --------------------------------------------------------- what the history has no part in

  // An entry sends the same whatever was sent before it.
  lemma HandledAdds<S>(host: Host<S>, w: World<S>, v: World<S>, item: LogItem, nonce: int, bound: int)
    returns (outs: seq<Outbox>)
    requires w.instance == v.instance
    ensures var t, u := Handled(host, w, item, nonce, ModeApply, bound), Handled(host, v, item, nonce, ModeApply, bound);
      t.instance == u.instance && t.outbox == w.outbox + outs && u.outbox == v.outbox + outs
  {
    hide RunTurn, Flush, SpawnResult;
    outs := [];
    match item
    case MessageItem(meta) =>
      if w.instance.Some? {
        outs := RunTurn(host.machine, host.cryptor, w.instance.value,
                        meta.(nonce := nonce, mode := ModeApply, recoveryMaxNonce := bound)).outs;
      }
    case SpawnItem(meta, p) =>
      if w.instance.None? && CanSpawn(host, item) {
        var m := meta.(nonce := 0, mode := ModeApply, recoveryMaxNonce := bound);
        outs := Flush(-1, SpawnResult(m, p, host.registryId, host.order(m.params))).outs;
      }
    case _ =>
  }

  lemma {:induction false} ReplayedAdds<S>(host: Host<S>, w: World<S>, v: World<S>, log: seq<LogItem>, from: nat, to: nat)
    returns (outs: seq<Outbox>)
    requires w.instance == v.instance && to <= |log|
    ensures var t, u := Replayed(host, w, log, from, to, ModeApply), Replayed(host, v, log, from, to, ModeApply);
      t.instance == u.instance && t.outbox == w.outbox + outs && u.outbox == v.outbox + outs
    decreases if from < to then to - from else 0
  {
    hide Handled;
    outs := [];
    if from < to && !log[from].Unreadable? {
      var first := HandledAdds(host, w, v, log[from], from, |log| - 1);
      var rest := ReplayedAdds(host, Handled(host, w, log[from], from, ModeApply, |log| - 1),
                               Handled(host, v, log[from], from, ModeApply, |log| - 1), log, from + 1, to);
      outs := first + rest;
    }
  }

  // Running on from `done` sends what the live run sends from there on.
  lemma RunAdds<S>(host: Host<S>, log: seq<LogItem>, w: World<S>, done: nat, n: nat)
    requires done <= n <= |log| && Readable(log, 0, |log|) && w.instance == Live(host, log, done).instance
    ensures Used(host, log, done) <= Used(host, log, n)
    ensures Live(host, log, n).outbox[..Used(host, log, done)] == Live(host, log, done).outbox
    ensures var t := Replayed(host, w, log, done, n, ModeApply);
      t.instance == Live(host, log, n).instance
      && t.outbox == w.outbox + Live(host, log, n).outbox[Used(host, log, done)..]
  {
    hide Handled, Replayed;
    ReplayedSplit(host, Fresh(false), log, 0, done, n, ModeApply);
    var outs := ReplayedAdds(host, w, Live(host, log, done), log, done, n);
  }

  // The bound at which a recovery would release its lock does not matter to a live run.
  lemma HandledBound<S(!new)>(host: Host<S>, w: World<S>, v: World<S>, item: LogItem, nonce: int, b: int, c: int)
    requires IgnoresMode(host.machine) && w.instance == v.instance && w.outbox == v.outbox
    ensures var t, u := Handled(host, w, item, nonce, ModeApply, b), Handled(host, v, item, nonce, ModeApply, c);
      t.instance == u.instance && t.outbox == u.outbox
  {
    hide Flush, CallVm;
    if item.MessageItem? && w.instance.Some? {
      var m := item.meta.(nonce := nonce);
      CallVmMode(host.machine, host.cryptor, w.instance.value, m, ModeApply, c, b);
    }
  }

  lemma {:induction false} LiveOfPrefix<S(!new)>(host: Host<S>, log: seq<LogItem>, n: nat, m: nat)
    requires IgnoresMode(host.machine) && m <= n <= |log| && Readable(log, 0, |log|)
    ensures Live(host, log[..n], m).instance == Live(host, log, m).instance
    ensures Live(host, log[..n], m).outbox == Live(host, log, m).outbox
    decreases m
  {
    hide Handled, IgnoresMode;
    if m > 0 {
      LiveOfPrefix(host, log, n, m - 1);
      ReplayedSnoc(host, Fresh(false), log, 0, m - 1, ModeApply);
      ReplayedSnoc(host, Fresh(false), log[..n], 0, m - 1, ModeApply);
      HandledBound(host, Live(host, log[..n], m - 1), Live(host, log, m - 1), log[m - 1], m - 1,
                   |log[..n]| - 1, |log| - 1);
    }
  }

  // A restart recovers the instance of the live run of all that is logged, and sends nothing.
  lemma RestartRecovers<S(!new)>(host: Host<S>, log: seq<LogItem>, n: nat, cut: Option<nat>, mode: Mode)
    requires IgnoresMode(host.machine) && Restorable(host.machine) && WellShaped(log) && Readable(log, 0, |log|)
    requires 0 < n <= |log| && !mode.ModeApply? && (cut.Some? ==> cut.value <= n)
    ensures var r := Recovered(host, Fresh(false), log[..n], SnapAt(host, log, cut), mode);
      r.instance == Live(host, log, n).instance && r.outbox == []
  {
    hide Live, Recovered, IgnoresMode, Restorable;
    LiveOfPrefix(host, log, n, n);
    var c := if cut.Some? then cut.value else 0;
    LiveOfPrefix(host, log, n, c);
    RecoveryReachesLive(host, log[..n], c, SnapAt(host, log, cut), mode);
  }

  lemma LivePrefix<S>(host: Host<S>, log: seq<LogItem>, m: nat, n: nat)
    requires m <= n <= |log| && Readable(log, 0, |log|)
    ensures Live(host, log, m).outbox <= Live(host, log, n).outbox
  {
    hide Live;
    RunAdds(host, log, Live(host, log, m), m, n);
  }

  // ----------------------------------------------------------------------- a life and its numbers

  lemma {:induction false} KnownIs(known: string -> bool, outs: seq<Outbox>, from: nat, end: nat)
    requires end <= |outs|
    ensures var ns := Known(known, outs, from, end);
      && (forall i, j :: 0 <= i < j < |ns| ==> ns[i] < ns[j])
      && (forall k :: k in ns <==> from <= k < end && known(outs[k].to))
    decreases end
  {
    if from < end {
      KnownIs(known, outs, from, end - 1);
      var front, last := Known(known, outs, from, end - 1), if known(outs[end - 1].to) then [end - 1] else [];
      OneMore(front, last, end - 1);
    }
  }

  lemma OneMore(front: seq<nat>, last: seq<nat>, k: nat)
    requires (last == [] || last == [k]) && (forall i, j :: 0 <= i < j < |front| ==> front[i] < front[j])
    requires forall x <- front :: x < k
    ensures forall i, j :: 0 <= i < j < |front + last| ==> (front + last)[i] < (front + last)[j]
    ensures forall x :: x in front + last <==> x in front || x in last
  {
    assert forall i :: 0 <= i < |front| ==> front[i] in front;
  }

  // Storing part of what was sent keeps the items under these numbers.
  lemma {:induction false} StoredIsKnown(known: string -> bool, outs: seq<Outbox>, from: nat, end: nat)
    requires from <= end <= |outs|
    ensures var ns, s := Known(known, outs, from, end), Stored(known, outs[from..end]);
      |s| == |ns| && forall i :: 0 <= i < |ns| ==> ns[i] < |outs| && s[i] == outs[ns[i]]
    decreases end
  {
    if from < end {
      StoredIsKnown(known, outs, from, end - 1);
      assert outs[from..end][..end - from - 1] == outs[from..end - 1];
    }
  }

  // The items of a sequence at increasing positions.
  ghost predicate Picks<T>(picked: seq<T>, ns: seq<nat>, all: seq<T>) {
    && |picked| == |ns|
    && (forall i :: 0 <= i < |ns| ==> ns[i] < |all| && picked[i] == all[ns[i]])
    && (forall i, j :: 0 <= i < j < |ns| ==> ns[i] < ns[j])
  }

  lemma PickMore<T>(p: seq<T>, ns: seq<nat>, short: seq<T>, q: seq<T>, ms: seq<nat>, long: seq<T>)
    requires Picks(p, ns, short) && Picks(q, ms, long) && short <= long
    requires forall i :: 0 <= i < |ms| ==> |short| <= ms[i]
    ensures Picks(p + q, ns + ms, long)
  {
  }

  // However often a process is stopped and recovered, at the end it is where one live run of its whole
  // log would be. What was stored of all it sent is, in order and under its numbers, what that run sends of
  // the entries first run live, as far as it was taken out of the channel and had an account for a target.
  lemma {:induction false} LifeIsLive<S(!new)>(host: Host<S>, known: string -> bool, log: seq<LogItem>, stages: seq<Stage>)
    requires IgnoresMode(host.machine) && Restorable(host.machine) && WellShaped(log) && Readable(log, 0, |log|)
    requires IsLife(log, stages)
    ensures var w, live := Lived(host, known, log, stages), Live(host, log, Done(stages));
      w.instance == live.instance && Picks(w.outbox, Numbers(host, known, log, stages), live.outbox)
    ensures forall k :: k in Numbers(host, known, log, stages) <==> WasStored(host, known, log, stages, k)
    decreases |stages|
  {
    hide Live, Recovered, IgnoresMode, Restorable, Replayed, SnapAt, Picks, Known, TakenTo;
    if stages == [] {
      LiveOfNothing(host, log);
      NothingPicked<Outbox>([]);
    } else {
      var before, last := stages[..|stages| - 1], stages[|stages| - 1];
      LifeIsLive(host, known, log, before);
      if last.Restart? {
        var w, ns := Lived(host, known, log, before), Numbers(host, known, log, before);
        RestartRecovers(host, log, last.upTo, last.cut, last.mode);
        LivePrefix(host, log, Done(before), last.upTo);
        NothingPicked<Outbox>(Live(host, log, last.upTo).outbox);
        PickMore(w.outbox, ns, Live(host, log, Done(before)).outbox, [], [], Live(host, log, last.upTo).outbox);
      } else {
        RunPicks(host, known, log, stages);
      }
    }
  }

  lemma NothingPicked<T>(all: seq<T>)
    ensures Picks([], [], all)
  {
  }

  lemma RunPicks<S>(host: Host<S>, known: string -> bool, log: seq<LogItem>, stages: seq<Stage>)
    requires WellShaped(log) && Readable(log, 0, |log|)
    requires stages != [] && IsLife(log, stages) && stages[|stages| - 1].Run?
    requires var before := stages[..|stages| - 1];
      var w, live := Lived(host, known, log, before), Live(host, log, Done(before));
      && w.instance == live.instance && Picks(w.outbox, Numbers(host, known, log, before), live.outbox)
      && forall k :: k in Numbers(host, known, log, before) <==> WasStored(host, known, log, before, k)
    ensures var w, live := Lived(host, known, log, stages), Live(host, log, Done(stages));
      w.instance == live.instance && Picks(w.outbox, Numbers(host, known, log, stages), live.outbox)
    ensures forall k :: k in Numbers(host, known, log, stages) <==> WasStored(host, known, log, stages, k)
  {
    hide Live, Replayed, Known, Stored;
    var before, last := stages[..|stages| - 1], stages[|stages| - 1];
    var w, ns := Lived(host, known, log, before), Numbers(host, known, log, before);
    var short, long := Live(host, log, Done(before)).outbox, Live(host, log, last.upTo).outbox;
    var to := TakenTo(host, log, stages);
    RunTakes(host, log, w, Done(before), last.upTo, last.handled);
    StoredIsKnown(known, long, |short|, to);
    KnownIs(known, long, |short|, to);
    PickMore(w.outbox, ns, short, Stored(known, long[|short|..to]), Known(known, long, |short|, to), long);
  }

  // A run from `done` on ends where the live run does, and what is taken out of its channel is the front of
  // what the live run sends on the way.
  lemma RunTakes<S>(host: Host<S>, log: seq<LogItem>, w: World<S>, done: nat, n: nat, handled: nat)
    requires done <= n <= |log| && Readable(log, 0, |log|) && w.instance == Live(host, log, done).instance
    ensures Live(host, log, done).outbox <= Live(host, log, n).outbox
    ensures var t, from, to := Replayed(host, w.(outbox := []), log, done, n, ModeApply),
                               Used(host, log, done), Used(host, log, n);
      t.instance == Live(host, log, n).instance && t.outbox == Live(host, log, n).outbox[from..]
      && First(t.outbox, handled) == Live(host, log, n).outbox[from..if from + handled < to then from + handled else to]
  {
    hide Live, Replayed;
    RunAdds(host, log, w.(outbox := []), done, n);
    FirstIs(Live(host, log, n).outbox, Used(host, log, done), handled);
  }

  lemma FirstIs<T>(s: seq<T>, from: nat, n: nat)
    requires from <= |s|
    ensures First([] + s[from..], n) == s[from..if from + n < |s| then from + n else |s|]
  {
  }

  // ------------------------------------------------------------------------ when nothing is missing

  // Every run's messages were all taken out of the channel and had accounts for their targets, and no entry
  // that a restart was the first to run sends anything.
  ghost predicate NothingLost<S>(host: Host<S>, known: string -> bool, log: seq<LogItem>, stages: seq<Stage>)
    requires IsLife(log, stages)
    decreases |stages|
  {
    stages == [] ||
    var before, last := stages[..|stages| - 1], stages[|stages| - 1];
    && NothingLost(host, known, log, before)
    && match last
       case Run(n, handled) =>
         && |SentBetween(host, log, Done(before), n)| <= handled
         && forall o <- SentBetween(host, log, Done(before), n) :: known(o.to)
       case Restart(n, _, _) => forall k :: Done(before) <= k < n ==> SentAt(host, log, k) == []
  }

  // What entries from .. to - 1 send, one after the other.
  function SentBetween<S>(host: Host<S>, log: seq<LogItem>, from: nat, end: nat): seq<Outbox>
    requires from <= end <= |log|
    decreases end
  {
    if from == end then [] else SentBetween(host, log, from, end - 1) + SentAt(host, log, end - 1)
  }

  lemma {:induction false} LiveSends<S>(host: Host<S>, log: seq<LogItem>, from: nat, end: nat)
    requires from <= end <= |log| && Readable(log, 0, |log|)
    ensures Live(host, log, end).outbox == Live(host, log, from).outbox + SentBetween(host, log, from, end)
    decreases end
  {
    hide Live, SentAt;
    if from < end {
      LiveSends(host, log, from, end - 1);
      EntrySends(host, log, end - 1);
    }
  }

  lemma EntrySends<S>(host: Host<S>, log: seq<LogItem>, k: nat)
    requires k < |log| && Readable(log, 0, |log|)
    ensures Live(host, log, k + 1).outbox == Live(host, log, k).outbox + SentAt(host, log, k)
  {
    hide Live, Handled;
    var w := Live(host, log, k);
    Acceptance.LiveStepIs(host, log, k + 1);
    var outs := HandledAdds(host, w, w.(outbox := []), log[k], k, |log| - 1);
  }

  lemma {:induction false} NothingSent<S>(host: Host<S>, log: seq<LogItem>, from: nat, end: nat)
    requires from <= end <= |log|
    ensures SentBetween(host, log, from, end) == [] <==> forall k :: from <= k < end ==> SentAt(host, log, k) == []
    decreases end
  {
    hide SentAt;
    if from < end {
      NothingSent(host, log, from, end - 1);
    }
  }

  lemma {:induction false} StoredAll(known: string -> bool, outs: seq<Outbox>)
    ensures |Stored(known, outs)| <= |outs|
    ensures |Stored(known, outs)| == |outs| <==> forall o <- outs :: known(o.to)
    ensures |Stored(known, outs)| == |outs| ==> Stored(known, outs) == outs
    decreases |outs|
  {
    if outs != [] {
      StoredAll(known, outs[..|outs| - 1]);
      AllSnoc(outs, (o: Outbox) => known(o.to));
    }
  }

  lemma StoredFirst(known: string -> bool, outs: seq<Outbox>, handled: nat)
    ensures var s := Stored(known, First(outs, handled));
      |s| <= |outs| && (|s| == |outs| <==> s == outs) && (s == outs <==> |outs| <= handled && forall o <- outs :: known(o.to))
  {
    StoredAll(known, First(outs, handled));
  }

  // A life leaves in the store all that one live run of its log sends exactly when nothing was lost in a
  // channel, no target was unknown, and the entries first run in a recovery send nothing.
  lemma {:induction false} CompleteIffNothingLost<S(!new)>(
    host: Host<S>, known: string -> bool, log: seq<LogItem>, stages: seq<Stage>)
    requires IgnoresMode(host.machine) && Restorable(host.machine) && WellShaped(log) && Readable(log, 0, |log|)
    requires IsLife(log, stages)
    ensures |Lived(host, known, log, stages).outbox| <= Used(host, log, Done(stages))
    ensures Lived(host, known, log, stages).outbox == Live(host, log, Done(stages)).outbox
      <==> NothingLost(host, known, log, stages)
    decreases |stages|
  {
    hide Live, Recovered, IgnoresMode, Restorable, Replayed, SnapAt, Stored, First, SentBetween, SentAt;
    if stages == [] {
      LiveOfNothing(host, log);
    } else {
      var before, last := stages[..|stages| - 1], stages[|stages| - 1];
      CompleteIffNothingLost(host, known, log, before);
      LifeIsLive(host, known, log, before);
      LiveSends(host, log, Done(before), last.upTo);
      var w, earlier, more := Lived(host, known, log, before), Live(host, log, Done(before)).outbox,
                              SentBetween(host, log, Done(before), last.upTo);
      if last.Restart? {
        RestartRecovers(host, log, last.upTo, last.cut, last.mode);
        NothingSent(host, log, Done(before), last.upTo);
        BothOrNeither(w.outbox, [], earlier, more);
      } else {
        RunTakes(host, log, w, Done(before), last.upTo, last.handled);
        TailIs(earlier, more);
        StoredFirst(known, more, last.handled);
        BothOrNeither(w.outbox, Stored(known, First(more, last.handled)), earlier, more);
      }
    }
  }

  lemma TailIs<T>(a: seq<T>, b: seq<T>)
    ensures (a + b)[|a|..] == b
  {
  }

  lemma BothOrNeither<T>(a: seq<T>, b: seq<T>, c: seq<T>, d: seq<T>)
    requires |a| <= |c| && |b| <= |d|
    ensures |a + b| <= |c + d|
    ensures a + b == c + d <==> a == c && b == d
  {
    if a + b == c + d {
      assert a == (a + b)[..|a|] && b == (a + b)[|a|..];
      assert c == (c + d)[..|c|] && d == (c + d)[|c|..];
    }
  }

  // An entry sends nothing exactly when the VM refuses it, or every message it returns
  // repeats a tag's name and no spawn it returns decodes.
  lemma SilentIff<S>(host: Host<S>, log: seq<LogItem>, k: nat)
    requires k < |log| && log[k].MessageItem?
    ensures SentAt(host, log, k) == [] <==>
      !Acceptance.Accepts(host, log, k) ||
      var m := Acceptance.EntryMeta(log, k);
      var r := host.machine.apply(Live(host, log, k).instance.value.state, Sender(m),
                                  m.(params := Decrypted(host.cryptor, m.params))).1;
      (forall x <- r.messages :: !NoDuplicates(x.tags)) && (forall x <- r.spawns :: ProcessOf(x.tags).None?)
  {
    hide Live, NoDuplicates, ProcessOf, Decrypted;
    var vm := Live(host, log, k).instance;
    if vm.Some? {
      var (after, r) := CallVm(host.machine, host.cryptor, vm.value, Acceptance.EntryMeta(log, k));
      NoMessages(after.sequence, r.messages, r.fromProcess, r.pushedFor);
      NoSpawns(SendMessages(after.sequence, r.messages, r.fromProcess, r.pushedFor, ModeApply).sequence,
               r.spawns, r.fromProcess, r.pushedFor);
    }
  }

  lemma AllSnoc<T>(s: seq<T>, p: T -> bool)
    requires s != []
    ensures (forall x <- s :: p(x)) <==> (forall x <- s[..|s| - 1] :: p(x)) && p(s[|s| - 1])
  {
    assert s == s[..|s| - 1] + [s[|s| - 1]];
  }

  lemma {:induction false} NoMessages(sequence: int, ms: seq<ResMessage>, pid: string, pushedFor: string)
    ensures SendMessages(sequence, ms, pid, pushedFor, ModeApply).outs == [] <==> forall x <- ms :: !NoDuplicates(x.tags)
    decreases |ms|
  {
    hide NoDuplicates, MessageOut;
    if ms != [] {
      NoMessages(sequence, ms[..|ms| - 1], pid, pushedFor);
      AllSnoc(ms, (x: ResMessage) => !NoDuplicates(x.tags));
    }
  }

  lemma {:induction false} NoSpawns(sequence: int, ss: seq<ResSpawn>, pid: string, pushedFor: string)
    ensures SendSpawns(sequence, ss, pid, pushedFor, ModeApply).outs == [] <==> forall x <- ss :: ProcessOf(x.tags).None?
    decreases |ss|
  {
    hide ProcessOf, SpawnOut;
    if ss != [] {
      NoSpawns(sequence, ss[..|ss| - 1], pid, pushedFor);
      AllSnoc(ss, (x: ResSpawn) => ProcessOf(x.tags).None?);
    }
  }

  // The i-th thing a life stores carries its number of the live run, and the Pushed-For of its entry.
  lemma LifeIsNumbered<S(!new)>(host: Host<S>, known: string -> bool, log: seq<LogItem>, stages: seq<Stage>,
                                pid: string, i: nat)
    returns (j: nat)
    requires IgnoresMode(host.machine) && Restorable(host.machine) && WellShaped(log) && Readable(log, 0, |log|)
    requires IsLife(log, stages) && LogOf(log, pid) && i < |Lived(host, known, log, stages).outbox|
    ensures var ns := Numbers(host, known, log, stages);
      && i < |ns| && j < |log| && SentBy(host, log, j, ns[i])
      && NumberedOut(Lived(host, known, log, stages).outbox[i], ns[i], pid, Origin(log[j]))
  {
    hide Live, Lived, Numbers, WasStored, IgnoresMode, Restorable, NumberedOut, SentBy;
    LifeIsLive(host, known, log, stages);
    j := SequencesAreConsecutive(host, log, Done(stages), pid, Numbers(host, known, log, stages)[i]);
  }

  // ------------------------------------------------------------------------------ into the queues

  // A stored message that its receiver reads as number n.
  ghost predicate Carries(o: Outbox, n: int) {
    exists time, data :: IsReadAs(o, n, time, data)
  }

  ghost predicate IsReadAs(o: Outbox, n: int, time: string, data: string) {
    var m := DecodeMessage(Stamped(time, o.tags), data);
    m.Some? && ParseInt(m.value.sequence) == Some(n)
  }

  // The items of the queue to a target: the messages stored for it, in order and with their numbers.
  ghost predicate QueueOf(items: seq<Delivery.Item>, stored: seq<Outbox>, target: string, at: seq<nat>) {
    && |at| == |items|
    && (forall i, j :: 0 <= i < j < |at| ==> at[i] < at[j])
    && (forall k :: k in at <==> 0 <= k < |stored| && !stored[k].isProcess && stored[k].to == target)
    && forall j :: 0 <= j < |at| ==> at[j] < |stored| && Carries(stored[at[j]], items[j].sequence)
  }

  // Whatever a life loses, its queues have rising numbers: what it stores is what one live run sends, in
  // order. The life begins with its spawn logged.
  lemma LifeFillsRisingQueues<S(!new)>(host: Host<S>, known: string -> bool, log: seq<LogItem>, stages: seq<Stage>,
                                       pid: string, items: seq<Delivery.Item>, target: string, at: seq<nat>)
    requires IgnoresMode(host.machine) && Restorable(host.machine) && WellShaped(log) && Readable(log, 0, |log|)
    requires IsLife(log, stages) && LogOf(log, pid)
    requires QueueOf(items, Lived(host, known, log, stages).outbox, target, at)
    ensures Delivery.Rises(items)
  {
    hide Live, Lived, Numbers, WasStored, IgnoresMode, Restorable, Carries;
    var stored, ns := Lived(host, known, log, stages).outbox, Numbers(host, known, log, stages);
    LifeIsLive(host, known, log, stages);
    forall j | 0 <= j < |at|
      ensures items[j].sequence == ns[at[j]]
    {
      assert at[j] in at;
      var e := LifeIsNumbered(host, known, log, stages, pid, at[j]);
      CarriesItsNumber(stored[at[j]], ns[at[j]], pid, Origin(log[e]), items[j].sequence);
    }
  }

  // From end to end: what one process's life stores for another, and its queue delivers, the other's VM accepts
  // exactly when it exists and was handed everything logged before.
  lemma LifeIsAccepted<S(!new), T>(
    host: Host<S>, known: string -> bool, log: seq<LogItem>, stages: seq<Stage>, pid: string, q: Delivery.State,
    target: string, stored: seq<nat>, other: Host<T>, inbox: seq<LogItem>, at: seq<nat>, j: nat)
    requires IgnoresMode(host.machine) && Restorable(host.machine) && WellShaped(log) && Readable(log, 0, |log|)
    requires IsLife(log, stages) && LogOf(log, pid) && pid != ""
    requires QueueOf(q.pushed, Lived(host, known, log, stages).outbox, target, stored)
    requires WellShaped(inbox) && Readable(inbox, 0, |inbox|) && Delivery.Inv(q)
    requires Acceptance.StandsAt(inbox, pid, q.logged, at) && j < |at|
    ensures Acceptance.Accepts(other, inbox, at[j]) <==>
      CanSpawn(other, inbox[0]) && Acceptance.AllMessages(inbox, at[j])
  {
    hide Live, Lived, QueueOf, IgnoresMode, Restorable, Acceptance.Accepts;
    LifeFillsRisingQueues(host, known, log, stages, pid, q.pushed, target, stored);
    Acceptance.RisingQueueIsAccepted(other, inbox, pid, q, at, j);
  }

  lemma CarriesItsNumber(o: Outbox, k: nat, pid: string, pushedFor: string, n: int)
    requires NumberedOut(o, k, pid, pushedFor) && !o.isProcess && Carries(o, n)
    ensures n == k
  {
    hide NumberedOut, DecodeMessage, Stamped, ParseInt, ParamsOf;
    var time, data :| IsReadAs(o, n, time, data);
    NumberedDecodes(o, k, pid, pushedFor, time, data);
  }

  // ------------------------------------------------------------------------ numbers sent twice

  // A spawn is run before it is logged. A node that stops in between has nothing to recover, and the spawn,
  // sent again, is run again: what the first attempt stored goes out once more under the same numbers.
  lemma UnloggedSpawnSendsAgain<S(!new)>(host: Host<S>, known: string -> bool, log: seq<LogItem>, stages: seq<Stage>,
                                         bound: int, handled: nat, k: nat)
    requires IgnoresMode(host.machine) && Restorable(host.machine) && WellShaped(log) && Readable(log, 0, |log|)
    requires IsLife(log, stages) && Done(stages) > 0 && WasStored(host, known, log, stages, k)
    requires var attempt := Handled(host, Fresh(false), log[0], 0, ModeApply, bound).outbox;
      k < |attempt| && k < handled && known(attempt[k].to)
    ensures var attempt := Handled(host, Fresh(false), log[0], 0, ModeApply, bound).outbox;
      attempt[k] in Stored(known, First(attempt, handled)) && attempt[k] in Lived(host, known, log, stages).outbox
  {
    hide Live, Lived, Numbers, WasStored, IgnoresMode, Restorable, Handled;
    var attempt := Handled(host, Fresh(false), log[0], 0, ModeApply, bound).outbox;
    LiveOfNothing(host, log);
    Acceptance.LiveStepIs(host, log, 1);
    HandledBound(host, Fresh(false), Fresh(false), log[0], 0, bound, |log| - 1);
    LivePrefix(host, log, 1, Done(stages));
    LifeIsLive(host, known, log, stages);
    var ns := Numbers(host, known, log, stages);
    var i :| 0 <= i < |ns| && ns[i] == k;
    assert Lived(host, known, log, stages).outbox[i] == attempt[k];
    StoredHolds(known, First(attempt, handled), k);
  }

  lemma {:induction false} StoredHolds(known: string -> bool, outs: seq<Outbox>, k: nat)
    requires k < |outs| && known(outs[k].to)
    ensures outs[k] in Stored(known, outs)
    decreases |outs|
  {
    if k < |outs| - 1 {
      StoredHolds(known, outs[..|outs| - 1], k);
    }
  }

  // ---------------------------------------------------------------------- logged during a recovery

  // Entry n is logged when a recovery has already read that the last nonce is n - 1, and the VM, not there or
  // not yet so far, does not take it. Then it takes nothing that comes after, until the next restart.
  lemma LateEntryBlocks<S(!new)>(host: Host<S>, log: seq<LogItem>, n: nat, cut: Option<nat>, mode: Mode, m: nat)
    requires IgnoresMode(host.machine) && Restorable(host.machine) && WellShaped(log) && Readable(log, 0, |log|)
    requires 0 < n < m <= |log| && !mode.ModeApply? && (cut.Some? ==> cut.value <= n)
    ensures var r := Recovered(host, Fresh(false), log[..n], SnapAt(host, log, cut), mode);
      var t := Replayed(host, r, log, n + 1, m, ModeApply);
      t.instance == r.instance && t.outbox == r.outbox
  {
    hide Live, Recovered, IgnoresMode, Restorable, Replayed;
    RestartRecovers(host, log, n, cut, mode);
    Acceptance.KeepsUp(host, log, n);
    TooFarAhead(host, Recovered(host, Fresh(false), log[..n], SnapAt(host, log, cut), mode), log, n + 1, m);
  }

  lemma {:induction false} TooFarAhead<S>(host: Host<S>, w: World<S>, log: seq<LogItem>, from: nat, m: nat)
    requires WellShaped(log) && 0 < from <= m <= |log| && (w.instance.Some? ==> w.instance.value.nonce + 1 < from)
    ensures var t := Replayed(host, w, log, from, m, ModeApply); t.instance == w.instance && t.outbox == w.outbox
    decreases m - from
  {
    hide Handled;
    if from < m {
      Refuses(host, w, log[from], from, |log| - 1);
      TooFarAhead(host, Handled(host, w, log[from], from, ModeApply, |log| - 1), log, from + 1, m);
    }
  }

  lemma Refuses<S>(host: Host<S>, w: World<S>, item: LogItem, nonce: nat, bound: int)
    requires !item.SpawnItem? && (w.instance.Some? ==> w.instance.value.nonce + 1 < nonce)
    ensures var t := Handled(host, w, item, nonce, ModeApply, bound); t.instance == w.instance && t.outbox == w.outbox
  {
    hide Decrypted;
  }

  // -------------------------------------------------------------------- lives with something missing

  // A VM that answers every message with one of its own.
  const ECHO: Machine<()> := Machine(
    _ => Some(()), (_, _, _) => ((), Result([ResMessage("", "friend", "", [])], [], "", "")), _ => "", (_, _) => Some(()))

  const HOME: Host<()> := Host(ECHO, NoCryptor, "", _ => [])

  const SPAWN := SpawnItem(NO_ENV.origin, NO_ENV.process)
  const HELLO := MessageItem(NO_ENV.origin)

  // The spawn sends nothing, the message is number 0.
  lemma EchoSendsOne()
    ensures Live(HOME, [SPAWN, HELLO], 1).outbox == []
    ensures var outs := SentAt(HOME, [SPAWN, HELLO], 1); |outs| == 1 && outs[0].to == "friend"
  {
    hide RunTurn;
    var log := [SPAWN, HELLO];
    LiveOfNothing(HOME, log);
    Acceptance.LiveStepIs(HOME, log, 1);
    EchoSpawns();
    EchoAnswers(Live(HOME, log, 1).(outbox := []), log);
  }

  lemma EchoSpawns()
    ensures var w := Handled(HOME, Fresh(false), SPAWN, 0, ModeApply, 1);
      w.instance.Some? && w.instance.value.nonce == 0 && w.outbox == []
  {
    assert SpawnResult(NO_ENV.origin, NO_ENV.process, "", []).messages == [];
  }

  lemma EchoRecovers()
    ensures IgnoresMode(ECHO) && Restorable(ECHO) && WellShaped([SPAWN, HELLO]) && Readable([SPAWN, HELLO], 0, 2)
  {
    forall s, t
      ensures ECHO.restore(t, ECHO.checkpoint(s)) == Some(s)
    {
      match s
      case () =>
    }
  }

  lemma EchoAnswers(w: World<()>, log: seq<LogItem>)
    requires log == [SPAWN, HELLO] && w.instance.Some? && w.instance.value.nonce == 0 && w.outbox == []
    ensures var outs := Handled(HOME, w, HELLO, 1, ModeApply, 1).outbox; |outs| == 1 && outs[0].to == "friend"
  {
    hide MessageEnvelope;
    var ms := [ResMessage("", "friend", "", [])];
    assert ms[..0] == [];
    forall sequence: int, pid: string, pushedFor: string
      ensures |SendMessages(sequence, ms, pid, pushedFor, ModeApply).outs| == 1
      ensures SendMessages(sequence, ms, pid, pushedFor, ModeApply).outs[0].to == "friend"
    {
      assert SendMessages(sequence, ms[..0], pid, pushedFor, ModeApply) == Sending(sequence, [], []);
    }
  }

  // The node stops when the message is logged and not yet run: the recovery runs it and sends nothing.
  lemma SkippedEntryIsMissing(handled: nat)
    ensures var log, stages := [SPAWN, HELLO], [Run(1, handled), Restart(2, None, ModeDryRun)];
      IsLife(log, stages) && Lived(HOME, _ => true, log, stages).outbox != Live(HOME, log, 2).outbox
  {
    hide Lived, Live, SentAt;
    EchoSendsOne();
    EchoRecovers();
    var log, stages := [SPAWN, HELLO], [Run(1, handled), Restart(2, None, ModeDryRun)];
    assert stages[..1] == [Run(1, handled)] && stages[..1][..0] == [];
    assert IsLife(log, []) && IsLife(log, stages[..1]);
    CompleteIffNothingLost(HOME, _ => true, log, stages);
  }

  // The node crashes when the message has been run and its answer is still in the channel.
  lemma CrashLosesEmission()
    ensures var log, stages := [SPAWN, HELLO], [Run(2, 0), Restart(2, None, ModeDryRun)];
      IsLife(log, stages) && Lived(HOME, _ => true, log, stages).outbox != Live(HOME, log, 2).outbox
  {
    hide Lived, Live, SentAt;
    EchoSendsOne();
    EchoRecovers();
    var log, stages := [SPAWN, HELLO], [Run(2, 0), Restart(2, None, ModeDryRun)];
    assert stages[..1] == [Run(2, 0)] && stages[..1][..0] == [];
    RunLoses(_ => true, 0);
    CompleteIffNothingLost(HOME, _ => true, log, stages);
  }

  // Nothing stops, and the answer goes to nobody's account.
  lemma UnknownTargetIsMissing()
    ensures var log, stages := [SPAWN, HELLO], [Run(2, 1)];
      IsLife(log, stages) && Lived(HOME, _ => false, log, stages).outbox != Live(HOME, log, 2).outbox
  {
    hide Lived, Live, SentAt;
    EchoSendsOne();
    EchoRecovers();
    var log, stages := [SPAWN, HELLO], [Run(2, 1)];
    RunLoses(_ => false, 1);
    assert stages[..0] == [];
    CompleteIffNothingLost(HOME, _ => false, log, stages);
  }

  lemma RunLoses(known: string -> bool, handled: nat)
    requires handled == 0 || !known("friend")
    ensures IsLife([SPAWN, HELLO], [Run(2, handled)]) && !NothingLost(HOME, known, [SPAWN, HELLO], [Run(2, handled)])
  {
    hide SentAt;
    EchoSendsOne();
    EchoRecovers();
    var log, stages := [SPAWN, HELLO], [Run(2, handled)];
    assert stages[..0] == [];
    var outs := SentBetween(HOME, log, 0, 2);
    assert outs == SentBetween(HOME, log, 0, 1) + SentAt(HOME, log, 1);
    assert outs[|outs| - 1] in outs && outs[|outs| - 1].to == "friend";
  }

  // A spawn that sees a registry sends it one message. Run twice, it stores number 0 twice.
  lemma SpawnRegistersTwice()
    ensures var host, log, stages := HOME.(registryId := "registry"), [SPAWN], [Run(1, 1)];
      var attempt := Handled(host, Fresh(false), SPAWN, 0, ModeApply, 0).outbox;
      && IsLife(log, stages) && |attempt| == 1
      && attempt[0] in Stored(_ => true, First(attempt, 1)) && attempt[0] in Lived(host, _ => true, log, stages).outbox
  {
    hide Lived, Live, Stored, First;
    var host, log, stages := HOME.(registryId := "registry"), [SPAWN], [Run(1, 1)];
    var attempt := Handled(host, Fresh(false), SPAWN, 0, ModeApply, 0).outbox;
    EchoRecovers();
    SpawnSendsOne(host);
    LiveOfNothing(host, log);
    Acceptance.LiveStepIs(host, log, 1);
    assert stages[..0] == [];
    assert WasStored(host, _ => true, log, stages, 0);
    UnloggedSpawnSendsAgain(host, _ => true, log, stages, 0, 1, 0);
  }

  lemma SpawnSendsOne(host: Host<()>)
    requires host == HOME.(registryId := "registry")
    ensures |Handled(host, Fresh(false), SPAWN, 0, ModeApply, 0).outbox| == 1
  {
    hide MessageEnvelope;
    var r := SpawnResult(NO_ENV.origin, NO_ENV.process, "registry", []);
    var register := ResMessage("", "registry", "",
                               [Tag("Action", "RegisterProcess"), Tag("Pid", ""), Tag("Acc-Id", "")]);
    assert r.messages == [register] && r.spawns == [] && r.messages[..0] == [];
    assert NoDuplicates(register.tags);
    assert |SendMessages(-1, r.messages, r.fromProcess, r.pushedFor, ModeApply).outs| == 1;
  }
}
