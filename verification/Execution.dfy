/** What one process does with the messages of its log: checks, decryption, the VM call,
    sequence numbering and emission (vmm/apply.go, vmm/outbox.go, vmm/spawn.go). */
module Execution {
  import opened Options
  import opened Numerals
  import opened Tags

  datatype Mode = ModeApply | ModeReplay | ModeDryRun

  datatype Meta = Meta(
    itemId: string, pid: string, accId: string, action: string, fromProcess: string, pushedFor: string,
    sequence: int, nonce: int, timestamp: int, params: map<string, string>, data: string,
    mode: Mode, recoveryMaxNonce: int)

  datatype ResMessage = ResMessage(sequence: string, target: string, data: string, tags: seq<Tag>)
  datatype ResSpawn = ResSpawn(sequence: string, data: string, tags: seq<Tag>)

  datatype Result = Result(messages: seq<ResMessage>, spawns: seq<ResSpawn>, data: string, error: string)

  datatype VmmResult = VmmResult(
    nonce: int, timestamp: int, itemId: string, fromProcess: string, pushedFor: string,
    messages: seq<ResMessage>, spawns: seq<ResSpawn>, data: string, mode: Mode, error: string)

  datatype Outbox = Outbox(isProcess: bool, to: string, from: string, data: string, tags: seq<Tag>)

  // What a process was spawned with: the spawn's item and its process, which names the module. The mode and
  // bound of the moment are no part of it, as they are none of a checkpoint's text.
  datatype Env = Env(origin: Meta, process: Process)

  function EnvOf(meta: Meta, p: Process): Env {
    Env(meta.(mode := ModeApply, recoveryMaxNonce := 0), p)
  }

  // A user VM: deterministic functions of its environment and state. NoCryptor is a node without a
  // decryption key.
  datatype Machine<!S> = Machine(
    spawn: Env -> Option<S>,
    apply: (S, string, Meta) -> (S, Result),
    checkpoint: S -> string,
    restore: (S, string) -> Option<S>)

  datatype Cryptor = NoCryptor | Cryptor(decrypt: string -> Option<string>)

  // A running instance: the VM, the part of its environment that moves, and the part that does not.
  datatype Vm<+S> = Vm(state: S, nonce: nat, sequence: int, received: map<string, int>, env: Env)

  // ---------------------------------------------------------------------- decryption

  const PREFIX := "Encrypted-"
  const DECRYPT_FAILED := "err_decrypt_param_failed"

  predicate IsEncrypted(key: string) { PREFIX <= key }

  function PlainKey(key: string): string
    requires IsEncrypted(key)
  {
    key[|PREFIX|..]
  }

  function PlainValue(c: Cryptor, value: string): string
    requires c.Cryptor?
  {
    match c.decrypt(value) case Some(plain) => plain case None => DECRYPT_FAILED
  }

  // A plain parameter is never overwritten; every other name K gets what Encrypted-K decrypts to.
  function Decrypted(c: Cryptor, params: map<string, string>): map<string, string> {
    if c.NoCryptor? then params
    else params + map k | k in PlainKeys(params) :: PlainValue(c, params[PREFIX + k])
  }

  function PlainKeys(params: map<string, string>): (keys: set<string>)
    ensures forall k :: k in keys <==> k !in params && PREFIX + k in params
  {
    assert forall k :: PREFIX + k in params ==> PlainKey(PREFIX + k) == k;
    assert forall e :: IsEncrypted(e) ==> PREFIX + PlainKey(e) == e;
    set e | e in params && IsEncrypted(e) && PlainKey(e) !in params :: PlainKey(e)
  }

  // decryptParams ranges over a map: whatever order that takes, the outcome is the same.
  method DecryptParams(c: Cryptor, params: map<string, string>) returns (r: map<string, string>)
    ensures r == Decrypted(c, params)
  {
    r := params;
    if params == map[] || c.NoCryptor? { return; }
    var decrypted: map<string, string> := map[];
    var left := params.Keys;
    while left != {}
      invariant left <= params.Keys
      invariant forall k :: k in decrypted <==>
                  k !in params && PREFIX + k in params && PREFIX + k !in left
      invariant forall k <- decrypted :: decrypted[k] == PlainValue(c, params[PREFIX + k])
    {
      var key :| key in left;
      left := left - {key};
      if IsEncrypted(key) {
        assert PREFIX + PlainKey(key) == key;
        if PlainKey(key) !in params {
          decrypted := decrypted[PlainKey(key) := PlainValue(c, params[key])];
        }
      }
    }
    assert forall k :: k in PlainKeys(params) ==> PREFIX + k in params;
    r := params + decrypted;
  }

  // ------------------------------------------------------------------------- checks

  datatype Check = Accepted(from: string) | InvalidNonce | SequenceTooLow

  function Sender(meta: Meta): string {
    if meta.fromProcess != "" then meta.fromProcess else meta.accId
  }

  function Checked<S>(vm: Vm<S>, meta: Meta): Check {
    if meta.nonce != vm.nonce + 1 then InvalidNonce
    else if meta.fromProcess != "" && meta.fromProcess in vm.received
            && vm.received[meta.fromProcess] >= meta.sequence then SequenceTooLow
    else Accepted(Sender(meta))
  }

  // A wrong nonce changes nothing; a low sequence still uses up the nonce.
  function AfterCheck<S>(vm: Vm<S>, meta: Meta): Vm<S> {
    match Checked(vm, meta)
    case InvalidNonce => vm
    case SequenceTooLow => vm.(nonce := meta.nonce)
    case Accepted(from) =>
      vm.(nonce := meta.nonce,
          received := if meta.fromProcess != "" then vm.received[from := meta.sequence] else vm.received)
  }

  // ------------------------------------------------------------------------ sending

  // What numbering a list of results leaves: the last number used, the results, what goes out.
  datatype Sending<+M> = Sending(sequence: int, stamped: seq<M>, outs: seq<Outbox>)

  function MessageOut(m: ResMessage, pid: string, pushedFor: string): Outbox {
    Outbox(false, m.target, pid, m.data, MessageEnvelope(pid, m.sequence, pushedFor, m.tags))
  }

  function SpawnOut(s: ResSpawn, p: Process, pid: string, pushedFor: string): Outbox {
    Outbox(true, p.scheduler, pid, s.data, ProcessEnvelope(pid, s.sequence, pushedFor, p))
  }

  // Results whose tags do not parse are skipped and use no number; only Apply mode sends.
  function SendMessage(b: Sending<ResMessage>, m: ResMessage, pid: string, pushedFor: string, mode: Mode)
    : Sending<ResMessage>
  {
    if !NoDuplicates(m.tags) then b.(stamped := b.stamped + [m]) else
    var n := m.(sequence := Decimal(b.sequence + 1));
    Sending(b.sequence + 1, b.stamped + [n], b.outs + if mode.ModeApply? then [MessageOut(n, pid, pushedFor)] else [])
  }

  function SendMessages(sequence: int, ms: seq<ResMessage>, pid: string, pushedFor: string, mode: Mode)
    : Sending<ResMessage>
  {
    if ms == [] then Sending(sequence, [], [])
    else SendMessage(SendMessages(sequence, ms[..|ms| - 1], pid, pushedFor, mode), ms[|ms| - 1], pid, pushedFor, mode)
  }

  function SendSpawn(b: Sending<ResSpawn>, s: ResSpawn, pid: string, pushedFor: string, mode: Mode): Sending<ResSpawn> {
    var p := ProcessOf(s.tags);
    if p.None? then b.(stamped := b.stamped + [s]) else
    var n := s.(sequence := Decimal(b.sequence + 1));
    Sending(b.sequence + 1, b.stamped + [n],
            b.outs + if mode.ModeApply? then [SpawnOut(n, p.value, pid, pushedFor)] else [])
  }

  function SendSpawns(sequence: int, ss: seq<ResSpawn>, pid: string, pushedFor: string, mode: Mode): Sending<ResSpawn> {
    if ss == [] then Sending(sequence, [], [])
    else SendSpawn(SendSpawns(sequence, ss[..|ss| - 1], pid, pushedFor, mode), ss[|ss| - 1], pid, pushedFor, mode)
  }

  lemma SendMessageShift(b: Sending<ResMessage>, m: ResMessage, pid: string, pushedFor: string, mode: Mode)
    ensures var x := SendMessage(Sending(b.sequence, [], []), m, pid, pushedFor, mode);
            SendMessage(b, m, pid, pushedFor, mode) == Sending(x.sequence, b.stamped + x.stamped, b.outs + x.outs)
  {
  }

  lemma SendMessagesSnoc(sequence: int, ms: seq<ResMessage>, k: nat, r: VmmResult)
    requires k < |ms|
    ensures var b := SendMessages(sequence, ms[..k], r.fromProcess, r.pushedFor, r.mode);
            var x := SendMessage(Sending(b.sequence, [], []), ms[k], r.fromProcess, r.pushedFor, r.mode);
            SendMessages(sequence, ms[..k + 1], r.fromProcess, r.pushedFor, r.mode) ==
            Sending(x.sequence, b.stamped + x.stamped, b.outs + x.outs)
  {
    assert ms[..k + 1][..k] == ms[..k];
    SendMessageShift(SendMessages(sequence, ms[..k], r.fromProcess, r.pushedFor, r.mode), ms[k],
                 r.fromProcess, r.pushedFor, r.mode);
  }

  lemma SendSpawnShift(b: Sending<ResSpawn>, m: ResSpawn, pid: string, pushedFor: string, mode: Mode)
    ensures var x := SendSpawn(Sending(b.sequence, [], []), m, pid, pushedFor, mode);
            SendSpawn(b, m, pid, pushedFor, mode) == Sending(x.sequence, b.stamped + x.stamped, b.outs + x.outs)
  {
  }

  lemma SendSpawnsSnoc(sequence: int, ms: seq<ResSpawn>, k: nat, r: VmmResult)
    requires k < |ms|
    ensures var b := SendSpawns(sequence, ms[..k], r.fromProcess, r.pushedFor, r.mode);
            var x := SendSpawn(Sending(b.sequence, [], []), ms[k], r.fromProcess, r.pushedFor, r.mode);
            SendSpawns(sequence, ms[..k + 1], r.fromProcess, r.pushedFor, r.mode) ==
            Sending(x.sequence, b.stamped + x.stamped, b.outs + x.outs)
  {
    assert ms[..k + 1][..k] == ms[..k];
    SendSpawnShift(SendSpawns(sequence, ms[..k], r.fromProcess, r.pushedFor, r.mode), ms[k],
                 r.fromProcess, r.pushedFor, r.mode);
  }

  // The whole outbox step: messages first, then spawns, then the result itself.
  datatype Flushed = Flushed(sequence: int, outs: seq<Outbox>, result: VmmResult)

  function Flush(sequence: int, r: VmmResult): Flushed {
    var ms := SendMessages(sequence, r.messages, r.fromProcess, r.pushedFor, r.mode);
    var ss := SendSpawns(ms.sequence, r.spawns, r.fromProcess, r.pushedFor, r.mode);
    Flushed(ss.sequence, ms.outs + ss.outs, r.(messages := ms.stamped, spawns := ss.stamped))
  }

  // ---------------------------------------------------------------------- one message

  function EmptyResult(meta: Meta): VmmResult {
    VmmResult(meta.nonce, meta.timestamp, meta.itemId, meta.pid,
              if meta.pushedFor != "" then meta.pushedFor else meta.itemId, [], [], "", meta.mode, "")
  }

  datatype Turn<+S> = Turn(vm: Vm<S>, outs: seq<Outbox>, result: VmmResult)

  function CallVm<S>(machine: Machine<S>, c: Cryptor, vm: Vm<S>, meta: Meta): (Vm<S>, VmmResult) {
    var checked := AfterCheck(vm, meta);
    var empty := EmptyResult(meta);
    match Checked(vm, meta)
    case InvalidNonce => (checked, empty.(error := "err_invalid_nonce"))
    case SequenceTooLow => (checked, empty.(error := "err_sequence_too_low"))
    case Accepted(from) =>
      var (state, res) := machine.apply(vm.state, from, meta.(params := Decrypted(c, meta.params)));
      (checked.(state := state),
       empty.(messages := res.messages, spawns := res.spawns, data := res.data, error := res.error))
  }

  // apply with its deferred outbox.
  function RunTurn<S>(machine: Machine<S>, c: Cryptor, vm: Vm<S>, meta: Meta): Turn<S> {
    var (after, result) := CallVm(machine, c, vm, meta);
    var f := Flush(after.sequence, result);
    Turn(after.(sequence := f.sequence), f.outs, f.result)
  }

  // --------------------------------------------------------------- one process, its manager

  // The instance if it is published, the recovery lock, and the two channels' histories.
  datatype World<+S> = World(instance: Option<Vm<S>>, recovering: bool, outbox: seq<Outbox>, results: seq<VmmResult>)

  predicate Unlocks(meta: Meta) {
    !meta.mode.ModeApply? && meta.nonce == meta.recoveryMaxNonce
  }

  function Applied<S>(machine: Machine<S>, c: Cryptor, w: World<S>, meta: Meta): World<S> {
    if w.instance.None? then w else
    var t := RunTurn(machine, c, w.instance.value, meta);
    World(Some(t.vm), w.recovering && !Unlocks(meta), w.outbox + t.outs, w.results + [t.result])
  }

  // The messages a new process sends: to the registry visible now, and to its parent.
  function SpawnResult(meta: Meta, p: Process, registryId: string, forwarded: seq<string>): VmmResult {
    var register := if registryId == "" then [] else
      [ResMessage("", registryId, "",
                  [Tag("Action", "RegisterProcess"), Tag("Pid", meta.pid), Tag("Acc-Id", p.scheduler)])];
    var reference := Lookup(p.tags, "Reference");
    var spawned := if meta.fromProcess == "" then [] else
      [ResMessage("", meta.fromProcess, "",
                  [Tag("Action", "Spawned"), Tag("Process", meta.pid),
                   Tag("Reference", if reference == "" then "0" else reference)] + Forwarded(meta.params, forwarded))];
    EmptyResult(meta).(nonce := 0, messages := register + spawned)
  }

  // The X- parameters, in the order the map happens to yield its keys.
  function Forwarded(params: map<string, string>, order: seq<string>): seq<Tag> {
    if order == [] then []
    else (if order[0] in params && "X-" <= order[0] then [Tag(order[0], params[order[0]])] else [])
         + Forwarded(params, order[1..])
  }

  // What a process is hosted by. The registry id is the one visible when the process spawns.
  datatype Host<!S> = Host(machine: Machine<S>, cryptor: Cryptor, registryId: string, order: map<string, string> -> seq<string>)

  // Spawn of a process that is not published; a failed VM spawn leaves nothing behind.
  function Spawned<S>(host: Host<S>, w: World<S>, meta: Meta, p: Process): World<S> {
    if w.instance.Some? then w else
    match host.machine.spawn(EnvOf(meta, p))
    case None => w
    case Some(state) =>
      var f := Flush(-1, SpawnResult(meta, p, host.registryId, host.order(meta.params)));
      World(Some(Vm(state, 0, f.sequence, map[], EnvOf(meta, p))), w.recovering && !Unlocks(meta),
            w.outbox + f.outs, w.results + [f.result])
  }

  // ----------------------------------------------------------------------- checkpoints

  datatype Snapshot = Snapshot(data: string, nonce: nat, sequence: int, received: map<string, int>, env: Env)

  function CheckpointOf<S>(machine: Machine<S>, vm: Vm<S>): Snapshot {
    Snapshot(machine.checkpoint(vm.state), vm.nonce, vm.sequence, vm.received, vm.env)
  }

  // Restore: into a VM freshly spawned from the snapshot's environment when none is published.
  function Restored<S>(machine: Machine<S>, w: World<S>, snap: Snapshot): Option<World<S>> {
    var base := if w.instance.Some? then Some(w.instance.value.state) else machine.spawn(snap.env);
    if base.None? then None else
    match machine.restore(base.value, snap.data)
    case None => None
    case Some(state) => Some(w.(instance := Some(Vm(state, snap.nonce, snap.sequence, snap.received, snap.env))))
  }

  // ------------------------------------------------------------------ the same, imperative

  // The environment of no process, before the first spawn or restore.
  const NO_ENV := Env(Meta("", "", "", "", "", "", 0, 0, 0, map[], "", ModeApply, 0),
                      Process(Base("", "", ""), "", "", "", "", []))

  class Runner<S> {
    const machine: Machine<S>
    const cryptor: Cryptor
    var vm: Option<S>                  // instance.Vm, when the instance is published
    var nonce: nat                     // instance.Env
    var sequence: int
    var receivedSeq: map<string, int>
    var env: Env
    var recovering: bool
    var outboxChan: seq<Outbox>
    var resultChan: seq<VmmResult>

    constructor (machine: Machine<S>, cryptor: Cryptor)
      ensures this.machine == machine && this.cryptor == cryptor && View() == World(None, false, [], [])
    {
      this.machine, this.cryptor := machine, cryptor;
      vm, nonce, sequence, receivedSeq, env := None, 0, -1, map[], NO_ENV;
      recovering, outboxChan, resultChan := false, [], [];
    }

    function Instance(): Vm<S>
      requires vm.Some?
      reads this
    {
      Vm(vm.value, nonce, sequence, receivedSeq, env)
    }

    function View(): World<S>
      reads this
    {
      World(if vm.None? then None else Some(Instance()), recovering, outboxChan, resultChan)
    }

    method ApplyCheck(meta: Meta) returns (check: Check)
      requires vm.Some?
      modifies this`nonce, this`receivedSeq
      ensures check == Checked(old(Instance()), meta) && Instance() == AfterCheck(old(Instance()), meta)
    {
      if meta.nonce != nonce + 1 { return InvalidNonce; }
      nonce := meta.nonce;
      var from := meta.accId;
      if meta.fromProcess != "" {
        from := meta.fromProcess;
        if from in receivedSeq && receivedSeq[from] >= meta.sequence { return SequenceTooLow; }
        receivedSeq := receivedSeq[from := meta.sequence];
      }
      return Accepted(from);
    }

    // The first loop of outbox: number a message and, in Apply mode, send it.
    method SendMessageOut(msg: ResMessage, r: VmmResult) returns (n: ResMessage)
      modifies this`sequence, this`outboxChan
      ensures var b := SendMessage(Sending(old(sequence), [], []), msg, r.fromProcess, r.pushedFor, r.mode);
              sequence == b.sequence && [n] == b.stamped && outboxChan == old(outboxChan) + b.outs
    {
      n := msg;
      var parsed := TagsToMessage(msg.tags);
      if parsed.None? { return; }
      sequence := sequence + 1;
      n := msg.(sequence := Decimal(sequence));
      if r.mode.ModeApply? {
        outboxChan := outboxChan + [MessageOut(n, r.fromProcess, r.pushedFor)];
      }
    }

    method SendMessagesOut(r: VmmResult) returns (messages: seq<ResMessage>)
      modifies this`sequence, this`outboxChan
      ensures var b := SendMessages(old(sequence), r.messages, r.fromProcess, r.pushedFor, r.mode);
              sequence == b.sequence && messages == b.stamped && outboxChan == old(outboxChan) + b.outs
    {
      messages := [];
      for k := 0 to |r.messages|
        invariant var b := SendMessages(old(sequence), r.messages[..k], r.fromProcess, r.pushedFor, r.mode);
                  sequence == b.sequence && messages == b.stamped && outboxChan == old(outboxChan) + b.outs
      {
        SendMessagesSnoc(old(sequence), r.messages, k, r);
        var n := SendMessageOut(r.messages[k], r);
        messages := messages + [n];
      }
      assert r.messages[..|r.messages|] == r.messages;
    }

    // The second loop: spawns, numbered on from the messages.
    method SendSpawnOut(spawn: ResSpawn, r: VmmResult) returns (n: ResSpawn)
      modifies this`sequence, this`outboxChan
      ensures var b := SendSpawn(Sending(old(sequence), [], []), spawn, r.fromProcess, r.pushedFor, r.mode);
              sequence == b.sequence && [n] == b.stamped && outboxChan == old(outboxChan) + b.outs
    {
      n := spawn;
      var parsed := TagsToProcess(spawn.tags);
      if parsed.None? { return; }
      sequence := sequence + 1;
      n := spawn.(sequence := Decimal(sequence));
      if r.mode.ModeApply? {
        outboxChan := outboxChan + [SpawnOut(n, parsed.value, r.fromProcess, r.pushedFor)];
      }
    }

    method SendSpawnsOut(r: VmmResult) returns (spawns: seq<ResSpawn>)
      modifies this`sequence, this`outboxChan
      ensures var b := SendSpawns(old(sequence), r.spawns, r.fromProcess, r.pushedFor, r.mode);
              sequence == b.sequence && spawns == b.stamped && outboxChan == old(outboxChan) + b.outs
    {
      spawns := [];
      for k := 0 to |r.spawns|
        invariant var b := SendSpawns(old(sequence), r.spawns[..k], r.fromProcess, r.pushedFor, r.mode);
                  sequence == b.sequence && spawns == b.stamped && outboxChan == old(outboxChan) + b.outs
      {
        SendSpawnsSnoc(old(sequence), r.spawns, k, r);
        var n := SendSpawnOut(r.spawns[k], r);
        spawns := spawns + [n];
      }
      assert r.spawns[..|r.spawns|] == r.spawns;
    }

    // outbox: messages, spawns, then the result itself.
    method SendOut(r: VmmResult)
      modifies this`sequence, this`outboxChan, this`resultChan
      ensures var f := Flush(old(sequence), r);
              sequence == f.sequence && outboxChan == old(outboxChan) + f.outs && resultChan == old(resultChan) + [f.result]
    {
      var messages := SendMessagesOut(r);
      var spawns := SendSpawnsOut(r);
      resultChan := resultChan + [r.(messages := messages, spawns := spawns)];
    }

    // Vmm.Apply on the published instance, run by its loop; without one the message is only logged.
    method Apply(meta: Meta)
      modifies this
      ensures View() == Applied(machine, cryptor, old(View()), meta)
    {
      hide Flush, Decrypted;
      if vm.None? { return; }
      var result := EmptyResult(meta);
      var check := ApplyCheck(meta);
      match check {
        case InvalidNonce => result := result.(error := "err_invalid_nonce");
        case SequenceTooLow => result := result.(error := "err_sequence_too_low");
        case Accepted(from) =>
          var params := DecryptParams(cryptor, meta.params);
          var (state, res) := machine.apply(vm.value, from, meta.(params := params));
          vm := Some(state);
          result := result.(messages := res.messages, spawns := res.spawns, data := res.data, error := res.error);
      }
      SendOut(result);
      if !meta.mode.ModeApply? && meta.nonce == meta.recoveryMaxNonce {
        recovering := false;
      }
    }

    method Spawn(host: Host<S>, meta: Meta, p: Process)
      requires host.machine == machine && host.cryptor == cryptor
      modifies this
      ensures View() == Spawned(host, old(View()), meta, p)
    {
      hide Flush, SpawnResult;
      if vm.Some? { return; }
      var created := machine.spawn(EnvOf(meta, p));
      if created.None? { return; }
      vm, nonce, sequence, receivedSeq, env := created, 0, -1, map[], EnvOf(meta, p);
      SendOut(SpawnResult(meta, p, host.registryId, host.order(meta.params)));
      if !meta.mode.ModeApply? && meta.nonce == meta.recoveryMaxNonce {
        recovering := false;
      }
    }

    method Checkpoint() returns (snap: Option<Snapshot>)
      ensures snap == if vm.None? then None else Some(CheckpointOf(machine, Instance()))
    {
      if vm.None? { return None; }
      return Some(Snapshot(machine.checkpoint(vm.value), nonce, sequence, receivedSeq, env));
    }

    method Restore(snap: Snapshot) returns (ok: bool)
      modifies this`vm, this`nonce, this`sequence, this`receivedSeq, this`env
      ensures var r := Restored(machine, old(View()), snap);
              ok == r.Some? && View() == if ok then r.value else old(View())
    {
      var base := vm;
      if base.None? {
        base := machine.spawn(snap.env);
        if base.None? { return false; }
      }
      var restored := machine.restore(base.value, snap.data);
      if restored.None? { return false; }
      vm, nonce, sequence, receivedSeq, env := restored, snap.nonce, snap.sequence, snap.received, snap.env;
      return true;
    }
  }
}
