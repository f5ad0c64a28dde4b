/** Running a log live, cutting it at a checkpoint, and recovering it
    (node/recovery.go, vmm/manage.go, node/handle.go's HandleMode). */
module Recovery {
  import opened Options
  import opened Numerals
  import opened Tags
  import opened Execution

  // What the store yields at one nonce. An unreadable entry ends a recovery; one whose item does not
  // decode, or whose parameters do not parse, is logged and passed over.
  datatype LogItem =
    | Unreadable
    | Unparsed
    | SpawnItem(meta: Meta, process: Process)
    | MessageItem(meta: Meta)

  // HandleMode: a spawn always runs at nonce 0, a message at its assignment's nonce.
  function Handled<S>(host: Host<S>, w: World<S>, item: LogItem, nonce: int, mode: Mode, maxNonce: int): World<S> {
    match item
    case Unreadable => w
    case Unparsed => w
    case SpawnItem(meta, p) => Spawned(host, w, meta.(nonce := 0, mode := mode, recoveryMaxNonce := maxNonce), p)
    case MessageItem(meta) =>
      Applied(host.machine, host.cryptor, w, meta.(nonce := nonce, mode := mode, recoveryMaxNonce := maxNonce))
  }

  // Entries from .. to - 1, in order, up to the first unreadable one.
  function Replayed<S>(host: Host<S>, w: World<S>, log: seq<LogItem>, from: nat, to: nat, mode: Mode): World<S>
    requires to <= |log|
    decreases if from < to then to - from else 0
  {
    if from >= to || log[from].Unreadable? then w
    else Replayed(host, Handled(host, w, log[from], from, mode, |log| - 1), log, from + 1, to, mode)
  }

  function Fresh<S>(recovering: bool): World<S> { World(None, recovering, [], []) }

  // The live run of the first n entries.
  function Live<S>(host: Host<S>, log: seq<LogItem>, n: nat): World<S>
    requires n <= |log|
  {
    Replayed(host, Fresh(false), log, 0, n, ModeApply)
  }

  // Where a recovery starts: after the checkpoint if it can be restored, else from the spawn.
  function RecoveryStart<S>(machine: Machine<S>, w: World<S>, snap: Option<Snapshot>): (World<S>, nat) {
    var r := if snap.Some? then Restored(machine, w, snap.value) else None;
    if r.Some? then (r.value, snap.value.nonce + 1) else (w, 0)
  }

  // recoveryProcess: a checkpoint already at the last nonce releases the lock at once.
  function Recovered<S>(host: Host<S>, w: World<S>, log: seq<LogItem>, snap: Option<Snapshot>, mode: Mode): World<S> {
    if w.recovering then w else
    var (start, begin) := RecoveryStart(host.machine, w.(recovering := true), snap);
    if begin == |log| && begin > 0 then start.(recovering := false)
    else Replayed(host, start, log, begin, |log|, mode)
  }

  // Entry 0 is the spawn, the others are not: what the scheduler's log looks like.
  predicate WellShaped(log: seq<LogItem>) {
    && log != [] && !log[0].MessageItem?
    && forall k :: 0 < k < |log| ==> !log[k].SpawnItem?
  }

  predicate Readable(log: seq<LogItem>, from: nat, to: nat)
    requires to <= |log|
  {
    forall k :: from <= k < to ==> !log[k].Unreadable?
  }

  // ------------------------------------------------------------- what the mode changes

  // The VM looks neither at the mode nor at the recovery bound.
  ghost predicate IgnoresMode<S(!new)>(machine: Machine<S>) {
    forall s, from, meta: Meta, mode, bound ::
      machine.apply(s, from, meta.(mode := mode, recoveryMaxNonce := bound)) == machine.apply(s, from, meta)
  }

  lemma {:induction false} SendMessagesMode(sequence: int, ms: seq<ResMessage>, pid: string, pushedFor: string, mode: Mode)
    ensures var a := SendMessages(sequence, ms, pid, pushedFor, ModeApply);
            var b := SendMessages(sequence, ms, pid, pushedFor, mode);
            a.sequence == b.sequence && a.stamped == b.stamped && (!mode.ModeApply? ==> b.outs == [])
    decreases |ms|
  {
    if ms != [] {
      SendMessagesMode(sequence, ms[..|ms| - 1], pid, pushedFor, mode);
    }
  }

  lemma {:induction false} SendSpawnsMode(sequence: int, ss: seq<ResSpawn>, pid: string, pushedFor: string, mode: Mode)
    ensures var a := SendSpawns(sequence, ss, pid, pushedFor, ModeApply);
            var b := SendSpawns(sequence, ss, pid, pushedFor, mode);
            a.sequence == b.sequence && a.stamped == b.stamped && (!mode.ModeApply? ==> b.outs == [])
    decreases |ss|
  {
    if ss != [] {
      SendSpawnsMode(sequence, ss[..|ss| - 1], pid, pushedFor, mode);
    }
  }

  lemma FlushMode(sequence: int, r: VmmResult, mode: Mode)
    ensures var a := Flush(sequence, r.(mode := ModeApply));
            var b := Flush(sequence, r.(mode := mode));
            a.sequence == b.sequence && a.result.(mode := mode) == b.result && (!mode.ModeApply? ==> b.outs == [])
  {
    SendMessagesMode(sequence, r.messages, r.fromProcess, r.pushedFor, mode);
    var n := SendMessages(sequence, r.messages, r.fromProcess, r.pushedFor, ModeApply).sequence;
    SendSpawnsMode(n, r.spawns, r.fromProcess, r.pushedFor, mode);
  }

  // The mode changes only what is emitted: state, nonce, sequence, received sequences and the result agree.
  lemma ModeOnlyEmits<S(!new)>(machine: Machine<S>, c: Cryptor, vm: Vm<S>, meta: Meta, mode: Mode, bound: int, liveBound: int)
    requires IgnoresMode(machine)
    ensures var live := RunTurn(machine, c, vm, meta.(mode := ModeApply, recoveryMaxNonce := liveBound));
            var other := RunTurn(machine, c, vm, meta.(mode := mode, recoveryMaxNonce := bound));
            live.vm == other.vm && live.result.(mode := mode) == other.result && (!mode.ModeApply? ==> other.outs == [])
  {
    var m1 := meta.(mode := ModeApply, recoveryMaxNonce := liveBound);
    var m2 := meta.(mode := mode, recoveryMaxNonce := bound);
    CallVmMode(machine, c, vm, meta, mode, bound, liveBound);
    var (after, r) := CallVm(machine, c, vm, m1);
    FlushMode(after.sequence, r, mode);
    assert r.(mode := ModeApply) == r;
  }

  lemma CallVmMode<S(!new)>(machine: Machine<S>, c: Cryptor, vm: Vm<S>, meta: Meta, mode: Mode, bound: int, liveBound: int)
    requires IgnoresMode(machine)
    ensures var (a, r1) := CallVm(machine, c, vm, meta.(mode := ModeApply, recoveryMaxNonce := liveBound));
            var (b, r2) := CallVm(machine, c, vm, meta.(mode := mode, recoveryMaxNonce := bound));
            a == b && r1.(mode := mode) == r2 && r1.mode == ModeApply
  {
    var m := meta.(params := Decrypted(c, meta.params));
    var from := Sender(meta);
    assert machine.apply(vm.state, from, m.(mode := ModeApply, recoveryMaxNonce := liveBound)) == machine.apply(vm.state, from, m);
    assert machine.apply(vm.state, from, m.(mode := mode, recoveryMaxNonce := bound)) == machine.apply(vm.state, from, m);
    assert meta.(mode := ModeApply, recoveryMaxNonce := liveBound).(params := Decrypted(c, meta.params)) ==
           m.(mode := ModeApply, recoveryMaxNonce := liveBound);
    assert meta.(mode := mode, recoveryMaxNonce := bound).(params := Decrypted(c, meta.params)) ==
           m.(mode := mode, recoveryMaxNonce := bound);
  }

  // ------------------------------------------------------------ replaying piece by piece

  lemma {:induction false} ReplayedSnoc<S>(host: Host<S>, w: World<S>, log: seq<LogItem>, from: nat, to: nat, mode: Mode)
    requires from <= to < |log| && Readable(log, from, to + 1)
    ensures Replayed(host, w, log, from, to + 1, mode) ==
            Handled(host, Replayed(host, w, log, from, to, mode), log[to], to, mode, |log| - 1)
    decreases if from < to then to - from else 0
  {
    hide Handled;
    if from < to {
      ReplayedSnoc(host, Handled(host, w, log[from], from, mode, |log| - 1), log, from + 1, to, mode);
    }
  }

  lemma {:induction false} ReplayedSplit<S>(host: Host<S>, w: World<S>, log: seq<LogItem>, from: nat, mid: nat, to: nat, mode: Mode)
    requires from <= mid <= to <= |log| && Readable(log, from, mid)
    ensures Replayed(host, w, log, from, to, mode) ==
            Replayed(host, Replayed(host, w, log, from, mid, mode), log, mid, to, mode)
    decreases if from < mid then mid - from else 0
  {
    hide Handled;
    if from < mid {
      ReplayedSplit(host, Handled(host, w, log[from], from, mode, |log| - 1), log, from + 1, mid, to, mode);
    }
  }

  lemma SpawnedMode<S>(host: Host<S>, w: World<S>, live: World<S>, meta: Meta, p: Process, mode: Mode)
    requires w.instance == live.instance
    ensures Spawned(host, w, meta.(mode := mode), p).instance == Spawned(host, live, meta.(mode := ModeApply), p).instance
    ensures !mode.ModeApply? ==> Spawned(host, w, meta.(mode := mode), p).outbox == w.outbox
  {
    hide Flush, Forwarded;
    var r := SpawnResult(meta.(mode := ModeApply), p, host.registryId, host.order(meta.params));
    FlushMode(-1, r, mode);
    assert r.(mode := ModeApply) == r;
    assert r.(mode := mode) == SpawnResult(meta.(mode := mode), p, host.registryId, host.order(meta.params));
  }

  lemma HandledMode<S(!new)>(host: Host<S>, w: World<S>, live: World<S>, item: LogItem, nonce: int, mode: Mode, bound: int)
    requires IgnoresMode(host.machine) && w.instance == live.instance
    ensures Handled(host, w, item, nonce, mode, bound).instance == Handled(host, live, item, nonce, ModeApply, bound).instance
    ensures !mode.ModeApply? ==> Handled(host, w, item, nonce, mode, bound).outbox == w.outbox
  {
    hide RunTurn, Spawned, IgnoresMode;
    match item
    case MessageItem(meta) =>
      if w.instance.Some? {
        ModeOnlyEmits(host.machine, host.cryptor, w.instance.value, meta.(nonce := nonce), mode, bound, bound);
      }
    case SpawnItem(meta, p) =>
      SpawnedMode(host, w, live, meta.(nonce := 0, recoveryMaxNonce := bound), p, mode);
    case _ =>
  }

  lemma ReplayedStepMode<S(!new)>(
    host: Host<S>, w: World<S>, live: World<S>, log: seq<LogItem>, from: nat, to: nat, mode: Mode)
    returns (w1: World<S>, live1: World<S>)
    requires IgnoresMode(host.machine) && w.instance == live.instance
    requires from < to <= |log| && !log[from].Unreadable?
    ensures w1.instance == live1.instance && (!mode.ModeApply? ==> w1.outbox == w.outbox)
    ensures Replayed(host, w, log, from, to, mode) == Replayed(host, w1, log, from + 1, to, mode)
    ensures Replayed(host, live, log, from, to, ModeApply) == Replayed(host, live1, log, from + 1, to, ModeApply)
  {
    hide Handled, IgnoresMode;
    HandledMode(host, w, live, log[from], from, mode, |log| - 1);
    w1 := Handled(host, w, log[from], from, mode, |log| - 1);
    live1 := Handled(host, live, log[from], from, ModeApply, |log| - 1);
  }

  lemma {:induction false} ReplayedMode<S(!new)>(
    host: Host<S>, w: World<S>, live: World<S>, log: seq<LogItem>, from: nat, to: nat, mode: Mode)
    requires IgnoresMode(host.machine) && w.instance == live.instance && to <= |log|
    ensures Replayed(host, w, log, from, to, mode).instance == Replayed(host, live, log, from, to, ModeApply).instance
    ensures !mode.ModeApply? ==> Replayed(host, w, log, from, to, mode).outbox == w.outbox
    decreases if from < to then to - from else 0
  {
    hide Handled, IgnoresMode;
    if from < to && !log[from].Unreadable? {
      var w1, live1 := ReplayedStepMode(host, w, live, log, from, to, mode);
      ReplayedMode(host, w1, live1, log, from + 1, to, mode);
    }
  }

  // -------------------------------------------------- a checkpoint and a replay make a live run

  // A message whose nonce is not the next one leaves the instance as it is.
  lemma WrongNonceKeeps<S>(machine: Machine<S>, c: Cryptor, vm: Vm<S>, meta: Meta)
    requires meta.nonce != vm.nonce + 1
    ensures RunTurn(machine, c, vm, meta).vm == vm
  {
  }

  lemma NextNonce<S>(machine: Machine<S>, c: Cryptor, vm: Vm<S>, meta: Meta)
    ensures RunTurn(machine, c, vm, meta).vm.nonce == if meta.nonce == vm.nonce + 1 then vm.nonce + 1 else vm.nonce
  {
  }

  // After n entries the instance has taken a nonce below n, and the entries after its nonce, replayed, do
  // nothing to it: either there are none, or the log got ahead of the VM and it refuses them all.
  lemma {:induction false} LiveIsStable<S>(host: Host<S>, log: seq<LogItem>, n: nat, w: World<S>)
    requires WellShaped(log) && n <= |log| && Readable(log, 0, n)
    requires w.instance.Some? && w.instance == Live(host, log, n).instance
    ensures w.instance.value.nonce < n
    ensures Replayed(host, w, log, w.instance.value.nonce + 1, n, ModeApply).instance == w.instance
    decreases n
  {
    hide Handled;
    if n > 0 {
      var before := Live(host, log, n - 1);
      ReplayedSnoc(host, Fresh(false), log, 0, n - 1, ModeApply);
      if before.instance.None? {
        EmptyUntilSpawn(host, log, n - 1);
      } else {
        var vm := before.instance.value;
        var u := w.(instance := before.instance);
        LiveIsStable(host, log, n - 1, u);
        StableStep(host, log, n - 1, before, u, w);
      }
    }
  }

  // Without an instance only entry 0 can have made one.
  lemma EmptyUntilSpawn<S>(host: Host<S>, log: seq<LogItem>, n: nat)
    requires WellShaped(log) && n < |log| && Readable(log, 0, n + 1)
    requires Live(host, log, n).instance.None? && Live(host, log, n + 1).instance.Some?
    ensures n == 0 && Live(host, log, n + 1).instance.value.nonce == 0
  {
    ReplayedSnoc(host, Fresh(false), log, 0, n, ModeApply);
  }

  lemma StableStep<S>(host: Host<S>, log: seq<LogItem>, n: nat, before: World<S>, u: World<S>, w: World<S>)
    requires WellShaped(log) && n < |log| && Readable(log, 0, n + 1)
    requires before.instance.Some? && u.instance == before.instance && u.instance.value.nonce < n
    requires w.instance == Handled(host, before, log[n], n, ModeApply, |log| - 1).instance && u == w.(instance := before.instance)
    requires Replayed(host, u, log, u.instance.value.nonce + 1, n, ModeApply).instance == u.instance
    ensures w.instance.Some? && w.instance.value.nonce < n + 1
    ensures Replayed(host, w, log, w.instance.value.nonce + 1, n + 1, ModeApply).instance == w.instance
  {
    hide RunTurn, Spawned;
    var e := u.instance.value.nonce;
    if log[n].MessageItem? && e + 1 == n {
      NextNonce(host.machine, host.cryptor, before.instance.value,
                log[n].meta.(nonce := n, mode := ModeApply, recoveryMaxNonce := |log| - 1));
    } else {
      if log[n].MessageItem? {
        WrongNonceKeeps(host.machine, host.cryptor, before.instance.value,
                        log[n].meta.(nonce := n, mode := ModeApply, recoveryMaxNonce := |log| - 1));
        var x := Replayed(host, u, log, e + 1, n, ModeApply);
        WrongNonceKeeps(host.machine, host.cryptor, x.instance.value,
                        log[n].meta.(nonce := n, mode := ModeApply, recoveryMaxNonce := |log| - 1));
      }
      assert w == u;
      ReplayedSnoc(host, u, log, e + 1, n, ModeApply);
    }
  }

  // A VM comes back from its own checkpoint as it was, into whatever fresh VM it is restored.
  ghost predicate Restorable<S(!new)>(machine: Machine<S>) {
    forall s, t :: machine.restore(t, machine.checkpoint(s)) == Some(s)
  }

  // Where an instance is published, the VM factory makes a VM from its environment.
  predicate CanRespawn<S>(host: Host<S>, w: World<S>) {
    w.instance.Some? ==> host.machine.spawn(w.instance.value.env).Some?
  }

  lemma HandledCanRespawn<S>(host: Host<S>, w: World<S>, item: LogItem, nonce: int, mode: Mode, bound: int)
    requires CanRespawn(host, w)
    ensures CanRespawn(host, Handled(host, w, item, nonce, mode, bound))
  {
    hide Flush, SpawnResult, Checked;
  }

  lemma {:induction false} LiveCanRespawn<S>(host: Host<S>, log: seq<LogItem>, n: nat)
    requires n <= |log| && Readable(log, 0, n)
    ensures CanRespawn(host, Live(host, log, n))
    decreases n
  {
    hide Handled;
    if n > 0 {
      LiveCanRespawn(host, log, n - 1);
      ReplayedSnoc(host, Fresh(false), log, 0, n - 1, ModeApply);
      HandledCanRespawn(host, Live(host, log, n - 1), log[n - 1], n - 1, ModeApply, |log| - 1);
    }
  }

  // Restoring the checkpoint of any prefix and replaying the rest ends in the state of the live run of the
  // whole log, and so does replaying from the spawn; nothing is sent on the way.
  lemma RecoveryReachesLive<S(!new)>(host: Host<S>, log: seq<LogItem>, cut: nat, snap: Option<Snapshot>, mode: Mode)
    requires IgnoresMode(host.machine) && Restorable(host.machine)
    requires WellShaped(log) && cut <= |log| && Readable(log, 0, |log|) && !mode.ModeApply?
    requires snap.Some? ==> var at := Live(host, log, cut).instance;
               at.Some? && snap.value == CheckpointOf(host.machine, at.value)
    ensures Recovered(host, Fresh(false), log, snap, mode).instance == Live(host, log, |log|).instance
    ensures Recovered(host, Fresh(false), log, snap, mode).outbox == []
  {
    hide Handled, Replayed;
    var start, begin := RecoveryStart(host.machine, Fresh(true), snap).0, RecoveryStart(host.machine, Fresh(true), snap).1;
    if snap.None? {
      ReplayedMode(host, start, Fresh(false), log, 0, |log|, mode);
    } else {
      var at := Live(host, log, cut);
      LiveCanRespawn(host, log, cut);
      assert start.instance == at.instance && begin == at.instance.value.nonce + 1;
      LiveIsStable(host, log, cut, start);
      // the entries up to the cut do nothing to the restored instance, the ones after it what they did live
      var caughtUp := Replayed(host, start, log, begin, cut, ModeApply);
      ReplayedSplit(host, Fresh(false), log, 0, cut, |log|, ModeApply);
      ReplayedSplit(host, start, log, begin, cut, |log|, ModeApply);
      ReplayedMode(host, caughtUp, at, log, cut, |log|, ModeApply);
      ReplayedMode(host, start, start, log, begin, |log|, mode);
    }
  }

  // --------------------------------------------------------------------- the recovery lock

  predicate CanSpawn<S>(host: Host<S>, item: LogItem) {
    item.SpawnItem? && host.machine.spawn(EnvOf(item.meta.(nonce := 0), item.process)).Some?
  }

  lemma HandledLock<S>(host: Host<S>, w: World<S>, log: seq<LogItem>, k: nat, mode: Mode)
    requires WellShaped(log) && k < |log| && !mode.ModeApply?
    ensures var t := Handled(host, w, log[k], k, mode, |log| - 1);
            && t.instance.Some? == (w.instance.Some? || CanSpawn(host, log[k]))
            && t.recovering == (w.recovering && !Releases(host, w, log, k))
  {
  }

  // The entry that gives the lock back: the last one, if it reaches the instance's task loop.
  predicate Releases<S>(host: Host<S>, w: World<S>, log: seq<LogItem>, k: nat)
    requires k < |log|
  {
    k == |log| - 1 &&
    match log[k]
    case MessageItem(_) => w.instance.Some?
    case SpawnItem(_, _) => w.instance.None? && CanSpawn(host, log[k])
    case _ => false
  }

  // The lock is held at every entry before the last.
  lemma {:induction false} LockIsHeld<S>(host: Host<S>, w: World<S>, log: seq<LogItem>, from: nat, to: nat, mode: Mode)
    requires WellShaped(log) && !mode.ModeApply? && w.recovering && to < |log|
    ensures Replayed(host, w, log, from, to, mode).recovering
    decreases if from < to then to - from else 0
  {
    if from < to && !log[from].Unreadable? {
      HandledLock(host, w, log, from, mode);
      LockIsHeld(host, Handled(host, w, log[from], from, mode, |log| - 1), log, from + 1, to, mode);
    }
  }

  lemma {:induction false} InstanceStays<S>(host: Host<S>, w: World<S>, log: seq<LogItem>, from: nat, to: nat, mode: Mode)
    requires WellShaped(log) && !mode.ModeApply? && from <= to <= |log| && Readable(log, from, to)
    ensures Replayed(host, w, log, from, to, mode).instance.Some? ==
            (w.instance.Some? || (from == 0 < to && CanSpawn(host, log[0])))
    decreases if from < to then to - from else 0
  {
    if from < to {
      HandledLock(host, w, log, from, mode);
      InstanceStays(host, Handled(host, w, log[from], from, mode, |log| - 1), log, from + 1, to, mode);
    }
  }

  // A recovery ends with the lock released exactly when the checkpoint was already at the last nonce, or all
  // entries from its start can be read, the last one decodes, and there is an instance to run it (for a log
  // that is only the spawn: the spawn succeeds). A checkpoint beyond the last nonce leaves the lock held.
  lemma LockIsReleased<S>(host: Host<S>, log: seq<LogItem>, snap: Option<Snapshot>, mode: Mode)
    requires WellShaped(log) && !mode.ModeApply?
    ensures var (start, begin) := RecoveryStart(host.machine, Fresh(true), snap);
            var last := |log| - 1;
            var spawns := begin == 0 && CanSpawn(host, log[0]);
            !Recovered(host, Fresh(false), log, snap, mode).recovering <==>
              || begin == |log|
              || (begin < |log| && Readable(log, begin, |log|)
                  && (if log[last].MessageItem? then begin > 0 || spawns else last == 0 && spawns))
  {
    var (start, begin) := RecoveryStart(host.machine, Fresh(true), snap);
    assert start.recovering && (start.instance.Some? <==> begin > 0);
    if begin < |log| {
      if Readable(log, begin, |log|) {
        var last := |log| - 1;
        var w := Replayed(host, start, log, begin, last, mode);
        ReplayedSnoc(host, start, log, begin, last, mode);
        LockIsHeld(host, start, log, begin, last, mode);
        InstanceStays(host, start, log, begin, last, mode);
        HandledLock(host, w, log, last, mode);
      } else {
        StopsAtUnreadable(host, start, log, begin, mode);
      }
    }
  }

  lemma {:induction false} StopsAtUnreadable<S>(host: Host<S>, w: World<S>, log: seq<LogItem>, from: nat, mode: Mode)
    requires WellShaped(log) && !mode.ModeApply? && w.recovering && from < |log| && !Readable(log, from, |log|)
    ensures Replayed(host, w, log, from, |log|, mode).recovering
    decreases |log| - from
  {
    if !log[from].Unreadable? {
      HandledLock(host, w, log, from, mode);
      StopsAtUnreadable(host, Handled(host, w, log[from], from, mode, |log| - 1), log, from + 1, mode);
    }
  }

  // ----------------------------------------------------------------- sequence numbers sent out

  // The Pushed-For of all that an entry sends: the one it came with, or its own id.
  function Origin(item: LogItem): string {
    match item
    case MessageItem(meta) => if meta.pushedFor != "" then meta.pushedFor else meta.itemId
    case SpawnItem(meta, _) => if meta.pushedFor != "" then meta.pushedFor else meta.itemId
    case _ => ""
  }

  // What goes out as number k of a process: a message or a spawn with the VMM's envelope on the VM's tags.
  ghost predicate NumberedOut(o: Outbox, k: nat, pid: string, pushedFor: string) {
    && o.from == pid
    && if o.isProcess
       then exists p: Process :: NoDuplicates(p.tags) && o.tags == ProcessEnvelope(pid, Decimal(k), pushedFor, p)
       else exists own :: NoDuplicates(own) && o.tags == MessageEnvelope(pid, Decimal(k), pushedFor, own)
  }

  // Number first + k stands at position k.
  ghost predicate Consecutive(outs: seq<Outbox>, first: int, pid: string, pushedFor: string) {
    forall k :: 0 <= k < |outs| ==> NumberedAt(outs[k], first + k, pid, pushedFor)
  }

  ghost predicate NumberedAt(o: Outbox, k: int, pid: string, pushedFor: string) {
    k >= 0 && NumberedOut(o, k, pid, pushedFor)
  }

  lemma {:induction false} MessagesNumbered(sequence: int, ms: seq<ResMessage>, pid: string, pushedFor: string)
    requires sequence >= -1
    ensures var b := SendMessages(sequence, ms, pid, pushedFor, ModeApply);
            b.sequence == sequence + |b.outs| && Consecutive(b.outs, sequence + 1, pid, pushedFor)
    decreases |ms|
  {
    hide MessageEnvelope, NoDuplicates, Decimal;
    if ms != [] {
      var m := ms[|ms| - 1];
      MessagesNumbered(sequence, ms[..|ms| - 1], pid, pushedFor);
      var b := SendMessages(sequence, ms[..|ms| - 1], pid, pushedFor, ModeApply);
      if NoDuplicates(m.tags) {
        var o := MessageOut(m.(sequence := Decimal(b.sequence + 1)), pid, pushedFor);
        assert NumberedOut(o, b.sequence + 1, pid, pushedFor);
      }
    }
  }

  lemma {:induction false} SpawnsNumbered(sequence: int, ss: seq<ResSpawn>, pid: string, pushedFor: string)
    requires sequence >= -1
    ensures var b := SendSpawns(sequence, ss, pid, pushedFor, ModeApply);
            b.sequence == sequence + |b.outs| && Consecutive(b.outs, sequence + 1, pid, pushedFor)
    decreases |ss|
  {
    hide ProcessEnvelope, Decimal, ProcessOf, SpawnOut, NumberedOut;
    if ss != [] {
      var s := ss[|ss| - 1];
      SpawnsNumbered(sequence, ss[..|ss| - 1], pid, pushedFor);
      var b := SendSpawns(sequence, ss[..|ss| - 1], pid, pushedFor, ModeApply);
      if ProcessOf(s.tags).Some? {
        SpawnIsNumbered(s, b.sequence + 1, pid, pushedFor);
      }
    }
  }

  lemma SpawnIsNumbered(s: ResSpawn, k: nat, pid: string, pushedFor: string)
    requires ProcessOf(s.tags).Some?
    ensures NumberedOut(SpawnOut(s.(sequence := Decimal(k)), ProcessOf(s.tags).value, pid, pushedFor), k, pid, pushedFor)
  {
    hide ProcessEnvelope, Decimal, NoDuplicates;
    var p := ProcessOf(s.tags).value;
    KeepNoDuplicates(s.tags, ProcessTag);
    assert NoDuplicates(p.tags);
  }

  lemma ConsecutiveJoin(a: seq<Outbox>, b: seq<Outbox>, first: int, pid: string, pushedFor: string)
    requires Consecutive(a, first, pid, pushedFor) && Consecutive(b, first + |a|, pid, pushedFor)
    ensures Consecutive(a + b, first, pid, pushedFor)
  {
    hide NumberedAt;
    forall k | 0 <= k < |a + b|
      ensures NumberedAt((a + b)[k], first + k, pid, pushedFor)
    {
      if k >= |a| {
        assert (a + b)[k] == b[k - |a|];
        assert NumberedAt(b[k - |a|], first + |a| + (k - |a|), pid, pushedFor);
      }
    }
  }

  lemma FlushNumbered(sequence: int, r: VmmResult)
    requires sequence >= -1 && r.mode.ModeApply?
    ensures var f := Flush(sequence, r);
            f.sequence == sequence + |f.outs| && Consecutive(f.outs, sequence + 1, r.fromProcess, r.pushedFor)
  {
    hide SendMessages, SendSpawns, Consecutive;
    MessagesNumbered(sequence, r.messages, r.fromProcess, r.pushedFor);
    var b := SendMessages(sequence, r.messages, r.fromProcess, r.pushedFor, ModeApply);
    SpawnsNumbered(b.sequence, r.spawns, r.fromProcess, r.pushedFor);
    ConsecutiveJoin(b.outs, SendSpawns(b.sequence, r.spawns, r.fromProcess, r.pushedFor, r.mode).outs,
                    sequence + 1, r.fromProcess, r.pushedFor);
  }

  predicate LogOf(log: seq<LogItem>, pid: string) {
    forall k :: 0 <= k < |log| ==>
      (log[k].MessageItem? ==> log[k].meta.pid == pid) && (log[k].SpawnItem? ==> log[k].meta.pid == pid)
  }

  // The last number used is that of the last thing sent.
  predicate Counted<S>(w: World<S>) {
    if w.instance.Some? then w.instance.value.sequence == |w.outbox| - 1 else w.outbox == []
  }

  // Number k of a process is sent by entry j of its log.
  predicate SentBy<S>(host: Host<S>, log: seq<LogItem>, j: nat, k: nat) {
    j < |log| && |Live(host, log, j).outbox| <= k < |Live(host, log, j + 1).outbox|
  }

  lemma {:induction false} LiveIsCounted<S>(host: Host<S>, log: seq<LogItem>, n: nat, pid: string)
    requires n <= |log| && Readable(log, 0, n) && LogOf(log, pid)
    ensures Counted(Live(host, log, n))
    decreases n
  {
    hide Handled, Consecutive;
    if n > 0 {
      LiveIsCounted(host, log, n - 1, pid);
      ReplayedSnoc(host, Fresh(false), log, 0, n - 1, ModeApply);
      NumberedStep(host, Live(host, log, n - 1), log[n - 1], n - 1, |log| - 1, pid);
    }
  }

  // What one more entry sends comes after what was sent, numbered on, with the entry's Pushed-For.
  lemma LiveStep<S>(host: Host<S>, log: seq<LogItem>, n: nat, pid: string)
    requires n < |log| && Readable(log, 0, n + 1) && LogOf(log, pid)
    ensures var w, t := Live(host, log, n), Live(host, log, n + 1);
            w.outbox <= t.outbox && Consecutive(t.outbox[|w.outbox|..], |w.outbox|, pid, Origin(log[n]))
  {
    hide Handled, Consecutive;
    LiveIsCounted(host, log, n, pid);
    ReplayedSnoc(host, Fresh(false), log, 0, n, ModeApply);
    NumberedStep(host, Live(host, log, n), log[n], n, |log| - 1, pid);
  }

  // Over the whole live run a process sends 0, 1, 2, ... without a gap or a repetition; number k carries
  // the Pushed-For of the entry that sends it.
  lemma {:induction false} SequencesAreConsecutive<S>(host: Host<S>, log: seq<LogItem>, n: nat, pid: string, k: nat)
    returns (j: nat)
    requires n <= |log| && Readable(log, 0, n) && LogOf(log, pid) && k < |Live(host, log, n).outbox|
    ensures j < n && SentBy(host, log, j, k)
    ensures NumberedOut(Live(host, log, n).outbox[k], k, pid, Origin(log[j]))
    decreases n
  {
    hide Handled, NumberedOut, Live;
    LiveOfNothing(host, log);
    j := n - 1;
    var before := Live(host, log, n - 1).outbox;
    LiveStep(host, log, n - 1, pid);
    if k < |before| {
      j := SequencesAreConsecutive(host, log, n - 1, pid, k);
    } else {
      assert Live(host, log, n).outbox[|before|..][k - |before|] == Live(host, log, n).outbox[k];
    }
  }

  lemma LiveOfNothing<S>(host: Host<S>, log: seq<LogItem>)
    ensures Live(host, log, 0) == Fresh(false)
  {
  }

  lemma NumberedStep<S>(host: Host<S>, w: World<S>, item: LogItem, nonce: nat, bound: int, pid: string)
    requires Counted(w)
    requires (item.MessageItem? ==> item.meta.pid == pid) && (item.SpawnItem? ==> item.meta.pid == pid)
    ensures var t := Handled(host, w, item, nonce, ModeApply, bound);
            && w.outbox <= t.outbox && Counted(t)
            && Consecutive(t.outbox[|w.outbox|..], |w.outbox|, pid, Origin(item))
  {
    hide Consecutive, Applied, Spawned;
    match item
    case MessageItem(meta) =>
      MessageNumbered(host, w, meta.(nonce := nonce, mode := ModeApply, recoveryMaxNonce := bound));
    case SpawnItem(meta, p) =>
      SpawnNumbered(host, w, meta.(nonce := 0, mode := ModeApply, recoveryMaxNonce := bound), p);
    case _ =>
      NothingNumbered(w.outbox, pid, Origin(item));
  }

  lemma NothingNumbered(outs: seq<Outbox>, pid: string, pushedFor: string)
    ensures Consecutive(outs[|outs|..], |outs|, pid, pushedFor)
  {
  }

  lemma MessageNumbered<S>(host: Host<S>, w: World<S>, meta: Meta)
    requires Counted(w) && meta.mode.ModeApply?
    ensures var t := Applied(host.machine, host.cryptor, w, meta);
            && w.outbox <= t.outbox && Counted(t)
            && Consecutive(t.outbox[|w.outbox|..], |w.outbox|, meta.pid, Origin(MessageItem(meta)))
  {
    hide Consecutive, Flush;
    if w.instance.Some? {
      var (after, r) := CallVm(host.machine, host.cryptor, w.instance.value, meta);
      FlushNumbered(after.sequence, r);
      assert (w.outbox + Flush(after.sequence, r).outs)[|w.outbox|..] == Flush(after.sequence, r).outs;
    } else {
      NothingNumbered(w.outbox, meta.pid, Origin(MessageItem(meta)));
    }
  }

  lemma SpawnNumbered<S>(host: Host<S>, w: World<S>, meta: Meta, p: Process)
    requires Counted(w) && meta.mode.ModeApply?
    ensures var t := Spawned(host, w, meta, p);
            && w.outbox <= t.outbox && Counted(t)
            && Consecutive(t.outbox[|w.outbox|..], |w.outbox|, meta.pid, Origin(SpawnItem(meta, p)))
  {
    hide Consecutive, Flush, Forwarded;
    var r := SpawnResult(meta, p, host.registryId, host.order(meta.params));
    FlushNumbered(-1, r);
    NothingNumbered(w.outbox, meta.pid, Origin(SpawnItem(meta, p)));
    assert (w.outbox + Flush(-1, r).outs)[|w.outbox|..] == Flush(-1, r).outs;
  }

  // Number k of a process arrives as number k of that process, with the Pushed-For of the entry that sent
  // it, whatever tags the VM gave it.
  lemma SentIsReceived<S>(host: Host<S>, log: seq<LogItem>, pid: string, j: nat, k: nat, time: string, data: string)
    requires Readable(log, 0, |log|) && LogOf(log, pid)
    requires k < |Live(host, log, |log|).outbox| && SentBy(host, log, j, k)
    ensures var o := Live(host, log, |log|).outbox[k];
            if o.isProcess then
              var p := ProcessOf(Stamped(time, o.tags));
              && p.Some? && p.value.fromProcess == pid && p.value.pushedFor == Origin(log[j])
              && ParamsOf(p.value.tags).Some?
            else
              var m := DecodeMessage(Stamped(time, o.tags), data);
              && m.Some? && m.value.fromProcess == pid && m.value.pushedFor == Origin(log[j])
              && ParseInt(m.value.sequence) == Some(k) && ParamsOf(m.value.tags).Some?
  {
    hide Live, Readable, LogOf, NumberedOut, ParseInt, DecodeMessage, ProcessOf, Stamped, ParamsOf;
    var i := SequencesAreConsecutive(host, log, |log|, pid, k);
    SentByOne(host, log, pid, i, j, k);
    NumberedDecodes(Live(host, log, |log|).outbox[k], k, pid, Origin(log[j]), time, data);
  }

  // Only one entry sends a given number.
  lemma SentByOne<S>(host: Host<S>, log: seq<LogItem>, pid: string, i: nat, j: nat, k: nat)
    requires Readable(log, 0, |log|) && LogOf(log, pid) && SentBy(host, log, i, k) && SentBy(host, log, j, k)
    ensures i == j
  {
    hide Live;
    if i < j {
      OutboxGrows(host, log, pid, i + 1, j);
    } else if j < i {
      OutboxGrows(host, log, pid, j + 1, i);
    }
  }

  lemma {:induction false} OutboxGrows<S>(host: Host<S>, log: seq<LogItem>, pid: string, m: nat, n: nat)
    requires m <= n <= |log| && Readable(log, 0, n) && LogOf(log, pid)
    ensures Live(host, log, m).outbox <= Live(host, log, n).outbox
    decreases n - m
  {
    hide Live, Consecutive;
    if m < n {
      OutboxGrows(host, log, pid, m, n - 1);
      LiveStep(host, log, n - 1, pid);
    }
  }

  lemma NumberedDecodes(o: Outbox, k: nat, pid: string, pushedFor: string, time: string, data: string)
    requires NumberedOut(o, k, pid, pushedFor)
    ensures if o.isProcess then
              var p := ProcessOf(Stamped(time, o.tags));
              p.Some? && p.value.fromProcess == pid && p.value.pushedFor == pushedFor && ParamsOf(p.value.tags).Some?
            else
              var m := DecodeMessage(Stamped(time, o.tags), data);
              && m.Some? && m.value.fromProcess == pid && m.value.pushedFor == pushedFor
              && ParseInt(m.value.sequence) == Some(k) && ParamsOf(m.value.tags).Some?
  {
    hide MessageEnvelope, ProcessEnvelope, Stamped, DecodeMessage, ProcessOf, ParamsOf, Decimal, NoDuplicates;
    DecimalRoundTrip(k);
    if o.isProcess {
      var p: Process :| NoDuplicates(p.tags) && o.tags == ProcessEnvelope(pid, Decimal(k), pushedFor, p);
      EmittedProcessDecodes(pid, Decimal(k), pushedFor, p, time);
    } else {
      var own :| NoDuplicates(own) && o.tags == MessageEnvelope(pid, Decimal(k), pushedFor, own);
      EmittedMessageDecodes(pid, Decimal(k), pushedFor, own, time, data);
    }
  }

  // ----------------------------------------------------------------------- the loop itself

  method HandleMode<S>(runner: Runner<S>, host: Host<S>, item: LogItem, nonce: nat, mode: Mode, maxNonce: int)
    requires host.machine == runner.machine && host.cryptor == runner.cryptor
    modifies runner
    ensures runner.View() == Handled(host, old(runner.View()), item, nonce, mode, maxNonce)
  {
    match item {
      case SpawnItem(meta, p) =>
        runner.Spawn(host, meta.(nonce := 0, mode := mode, recoveryMaxNonce := maxNonce), p);
      case MessageItem(meta) =>
        runner.Apply(meta.(nonce := nonce, mode := mode, recoveryMaxNonce := maxNonce));
      case _ =>
    }
  }

  // The loop of recoveryProcess.
  method ReplayLog<S>(runner: Runner<S>, host: Host<S>, log: seq<LogItem>, begin: nat, mode: Mode)
    requires host.machine == runner.machine && host.cryptor == runner.cryptor
    modifies runner
    ensures runner.View() == Replayed(host, old(runner.View()), log, begin, |log|, mode)
  {
    hide Handled;
    var maxNonce := |log| - 1;
    var nonce := begin;
    while nonce <= maxNonce
      invariant nonce >= begin
      invariant Replayed(host, runner.View(), log, nonce, |log|, mode) ==
                Replayed(host, old(runner.View()), log, begin, |log|, mode)
      decreases |log| - nonce
    {
      if log[nonce].Unreadable? { return; }
      HandleMode(runner, host, log[nonce], nonce, mode, maxNonce);
      nonce := nonce + 1;
    }
  }

  method RecoveryProcess<S>(runner: Runner<S>, host: Host<S>, log: seq<LogItem>, snap: Option<Snapshot>, mode: Mode)
    requires host.machine == runner.machine && host.cryptor == runner.cryptor
    modifies runner
    ensures runner.View() == Recovered(host, old(runner.View()), log, snap, mode)
  {
    if runner.recovering { return; }
    runner.recovering := true;
    var begin := 0;
    if snap.Some? {
      var restored := runner.Restore(snap.value);
      if restored {
        if snap.value.nonce == |log| - 1 {
          runner.recovering := false;
          return;
        }
        begin := snap.value.nonce + 1;
      }
    }
    ReplayLog(runner, host, log, begin, mode);
  }
}
