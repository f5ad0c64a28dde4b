/** What a recovery makes of a process that sees another registry than it saw when it was spawned
    (vmm/spawn.go's genSpawnResult, node/recovery.go). */
module SpawnRegistry {
  import opened Options
  import opened Tags
  import opened Execution
  import opened Recovery
  import Acceptance

  // Two instances that differ only in how far they have numbered what they send.
  ghost predicate Shifted<S>(a: Option<Vm<S>>, b: Option<Vm<S>>, d: int) {
    a.Some? && b.Some? && b.value == a.value.(sequence := a.value.sequence + d)
  }

  lemma {:induction false} MessagesShift(sequence: int, d: int, ms: seq<ResMessage>, pid: string, pushedFor: string, mode: Mode)
    ensures SendMessages(sequence + d, ms, pid, pushedFor, mode).sequence
         == SendMessages(sequence, ms, pid, pushedFor, mode).sequence + d
    decreases |ms|
  {
    if ms != [] {
      MessagesShift(sequence, d, ms[..|ms| - 1], pid, pushedFor, mode);
    }
  }

  lemma {:induction false} SpawnsShift(sequence: int, d: int, ss: seq<ResSpawn>, pid: string, pushedFor: string, mode: Mode)
    ensures SendSpawns(sequence + d, ss, pid, pushedFor, mode).sequence
         == SendSpawns(sequence, ss, pid, pushedFor, mode).sequence + d
    decreases |ss|
  {
    if ss != [] {
      SpawnsShift(sequence, d, ss[..|ss| - 1], pid, pushedFor, mode);
    }
  }

  lemma FlushShift(sequence: int, d: int, r: VmmResult)
    ensures Flush(sequence + d, r).sequence == Flush(sequence, r).sequence + d
  {
    hide SendMessages, SendSpawns;
    MessagesShift(sequence, d, r.messages, r.fromProcess, r.pushedFor, r.mode);
    SpawnsShift(SendMessages(sequence, r.messages, r.fromProcess, r.pushedFor, r.mode).sequence, d,
                r.spawns, r.fromProcess, r.pushedFor, r.mode);
  }

  lemma TurnShift<S>(machine: Machine<S>, c: Cryptor, a: Vm<S>, b: Vm<S>, meta: Meta, d: int)
    requires Shifted(Some(a), Some(b), d)
    ensures Shifted(Some(RunTurn(machine, c, a, meta).vm), Some(RunTurn(machine, c, b, meta).vm), d)
  {
    hide Flush, Decrypted;
    var (after, r) := CallVm(machine, c, a, meta);
    FlushShift(after.sequence, d, r);
  }

  // How many messages a new process sends to the registry it sees.
  function Registers(registryId: string): int { if registryId == "" then 0 else 1 }

  lemma SpawnCounts(meta: Meta, p: Process, registryId: string, order: seq<string>)
    ensures Flush(-1, SpawnResult(meta, p, registryId, order)).sequence
         == Flush(-1, SpawnResult(meta, p, "", order)).sequence + Registers(registryId)
  {
    hide Forwarded;
    if registryId != "" {
      var one, both := SpawnResult(meta, p, "", order).messages, SpawnResult(meta, p, registryId, order).messages;
      var register := ResMessage("", registryId, "",
                                 [Tag("Action", "RegisterProcess"), Tag("Pid", meta.pid), Tag("Acc-Id", p.scheduler)]);
      assert both == [register] + one;
      var r := SpawnResult(meta, p, registryId, order);
      RegisterIsNumbered(register, one, r.fromProcess, r.pushedFor, r.mode);
    }
  }

  lemma RegisterIsNumbered(register: ResMessage, one: seq<ResMessage>, pid: string, pushedFor: string, mode: Mode)
    requires NoDuplicates(register.tags) && |one| <= 1
    ensures SendMessages(-1, [register] + one, pid, pushedFor, mode).sequence
         == SendMessages(-1, one, pid, pushedFor, mode).sequence + 1
  {
    hide NoDuplicates;
    var all := [register] + one;
    assert [register][..0] == [];
    assert SendMessages(-1, [register], pid, pushedFor, mode).sequence == 0;
    if one == [] {
      assert all == [register];
    } else {
      assert all[..1] == [register] && one[..0] == [];
      assert all[1] == one[0];
    }
  }

  lemma {:induction false} LiveShift<S>(host: Host<S>, registryId: string, log: seq<LogItem>, n: nat)
    requires WellShaped(log) && 0 < n <= |log| && Readable(log, 0, n) && CanSpawn(host, log[0])
    ensures Shifted(Live(host, log, n).instance, Live(host.(registryId := registryId), log, n).instance,
                    Registers(registryId) - Registers(host.registryId))
    decreases n
  {
    hide Live, RunTurn, Flush, SpawnResult;
    var other := host.(registryId := registryId);
    Acceptance.LiveStepIs(host, log, n);
    Acceptance.LiveStepIs(other, log, n);
    if n == 1 {
      LiveOfNothing(host, log);
      LiveOfNothing(other, log);
      var m := log[0].meta.(nonce := 0, mode := ModeApply, recoveryMaxNonce := |log| - 1);
      SpawnCounts(m, log[0].process, host.registryId, host.order(m.params));
      SpawnCounts(m, log[0].process, registryId, host.order(m.params));
    } else {
      LiveShift(host, registryId, log, n - 1);
      if log[n - 1].MessageItem? {
        TurnShift(host.machine, host.cryptor, Live(host, log, n - 1).instance.value,
                  Live(other, log, n - 1).instance.value, Acceptance.EntryMeta(log, n - 1),
                  Registers(registryId) - Registers(host.registryId));
      }
    }
  }

  // Recovered from its spawn, a process is what it was exactly when it sees a registry if and only if it saw
  // one at its spawn. Otherwise all its later messages are numbered one too high or one too low.
  lemma RecoveryNeedsRegistry<S(!new)>(host: Host<S>, registryId: string, log: seq<LogItem>, mode: Mode)
    requires IgnoresMode(host.machine) && Restorable(host.machine)
    requires WellShaped(log) && Readable(log, 0, |log|) && !mode.ModeApply? && CanSpawn(host, log[0])
    ensures var r := Recovered(host.(registryId := registryId), Fresh(false), log, None, mode).instance;
      && Shifted(Live(host, log, |log|).instance, r, Registers(registryId) - Registers(host.registryId))
      && (r == Live(host, log, |log|).instance <==> (registryId == "" <==> host.registryId == ""))
  {
    hide Live, Recovered, IgnoresMode, Restorable;
    LiveShift(host, registryId, log, |log|);
    RecoveryReachesLive(host.(registryId := registryId), log, 0, None, mode);
  }
}
