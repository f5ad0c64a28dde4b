/** Which messages of its log a process's VM accepts, whatever the log holds
    (node/message.go, node/channel.go, vmm/apply.go). */
module Acceptance {
  import opened Options
  import opened Numerals
  import opened Tags
  import opened Execution
  import opened Recovery
  import Delivery

  // What applyMessage makes of a decoded message. The message is in the log by then.
  function EntryOf(m: Message, itemId: string, pid: string, accId: string, timestamp: int, data: string): LogItem {
    var params := ParamsOf(m.tags);
    var sequence := if m.sequence == "" then Some(0) else ParseInt64(m.sequence);
    if params.None? || sequence.None? then Unparsed
    else MessageItem(Meta(itemId, pid, accId, m.action, m.fromProcess, m.pushedFor, sequence.value, 0, timestamp,
                          params.value, data, ModeApply, 0))
  }

  // A message that decodes, and so is logged, is passed over exactly when its Sequence is no integer of 64 bits.
  lemma PassedOverIff(tags: seq<Tag>, body: string, itemId: string, pid: string, accId: string, timestamp: int, data: string)
    requires DecodeMessage(tags, body).Some?
    ensures EntryOf(DecodeMessage(tags, body).value, itemId, pid, accId, timestamp, data) == Unparsed
      <==> Lookup(tags, "Sequence") != "" && ParseInt64(Lookup(tags, "Sequence")).None?
  {
    hide ParseInt64, ParamsOf;
    var kept := Keep(tags, MessageTag);
    KeepNoDuplicates(tags, MessageTag);
    DataParam(kept, body);
  }

  // Two such messages: a From-Process is not needed.
  lemma BadSequenceIsLogged(sequence: string, body: string, itemId: string, pid: string, accId: string, timestamp: int, data: string)
    requires sequence == "x" || sequence == Decimal(MAX_INT64 + 1)
    ensures var m := DecodeMessage([Tag("Type", "Message"), Tag("Sequence", sequence)], body);
      m.Some? && EntryOf(m.value, itemId, pid, accId, timestamp, data) == Unparsed
  {
    hide Decimal;
    DecimalRoundTrip(MAX_INT64 + 1);
    EmptyIsNoNumber();
    NoNumber();
    PassedOverIff([Tag("Type", "Message"), Tag("Sequence", sequence)], body, itemId, pid, accId, timestamp, data);
  }

  lemma NoNumber()
    ensures ParseInt("x").None?
  {
    assert "x"[0] == 'x';
  }

  // Every entry of the log between the spawn and entry n is a message that was handed to the VM.
  predicate AllMessages(log: seq<LogItem>, n: nat)
    requires n <= |log|
  {
    forall i :: 0 < i < n ==> log[i].MessageItem?
  }

  lemma LiveStepIs<S>(host: Host<S>, log: seq<LogItem>, n: nat)
    requires 0 < n <= |log| && Readable(log, 0, n)
    ensures Live(host, log, n) == Handled(host, Live(host, log, n - 1), log[n - 1], n - 1, ModeApply, |log| - 1)
  {
    hide Handled;
    ReplayedSnoc(host, Fresh(false), log, 0, n - 1, ModeApply);
  }

  lemma TurnChecks<S>(machine: Machine<S>, c: Cryptor, vm: Vm<S>, meta: Meta)
    ensures RunTurn(machine, c, vm, meta).vm.nonce == AfterCheck(vm, meta).nonce
    ensures RunTurn(machine, c, vm, meta).vm.received == AfterCheck(vm, meta).received
  {
    hide Flush;
  }

  // The VM is there when the spawn succeeded, and keeps up with the log as long as it is handed everything.
  lemma {:induction false} KeepsUp<S>(host: Host<S>, log: seq<LogItem>, n: nat)
    requires WellShaped(log) && 0 < n <= |log| && Readable(log, 0, n)
    ensures var vm := Live(host, log, n).instance;
      && (vm.Some? <==> CanSpawn(host, log[0]))
      && (vm.Some? ==> vm.value.nonce < n && (vm.value.nonce == n - 1 <==> AllMessages(log, n)))
    decreases n
  {
    hide RunTurn, Flush, SpawnResult, Live;
    LiveStepIs(host, log, n);
    if n == 1 {
      LiveOfNothing(host, log);
    } else {
      KeepsUp(host, log, n - 1);
      var before := Live(host, log, n - 1);
      if before.instance.Some? && log[n - 1].MessageItem? {
        TurnChecks(host.machine, host.cryptor, before.instance.value, EntryMeta(log, n - 1));
      }
    }
  }

  // What the VM is handed for entry k.
  function EntryMeta(log: seq<LogItem>, k: nat): Meta
    requires k < |log| && log[k].MessageItem?
  {
    log[k].meta.(nonce := k, mode := ModeApply, recoveryMaxNonce := |log| - 1)
  }

  predicate From(log: seq<LogItem>, i: nat, source: string)
    requires i < |log|
  {
    log[i].MessageItem? && log[i].meta.fromProcess == source
  }

  // The highest sequence from a source among the entries before n.
  ghost predicate Highest(log: seq<LogItem>, n: nat, source: string, received: map<string, int>)
    requires n <= |log|
  {
    && (forall i :: 0 < i < n && From(log, i, source) ==>
          source in received && received[source] >= log[i].meta.sequence)
    && (source in received ==>
          exists i :: 0 < i < n && From(log, i, source) && received[source] == log[i].meta.sequence)
  }

  lemma {:induction false} ReceivedIsHighest<S>(host: Host<S>, log: seq<LogItem>, n: nat, source: string)
    requires WellShaped(log) && 0 < n <= |log| && Readable(log, 0, n) && AllMessages(log, n) && source != ""
    requires CanSpawn(host, log[0])
    ensures var vm := Live(host, log, n).instance; vm.Some? && Highest(log, n, source, vm.value.received)
    decreases n
  {
    hide RunTurn, Flush, SpawnResult, Live;
    KeepsUp(host, log, n);
    LiveStepIs(host, log, n);
    if n == 1 {
      LiveOfNothing(host, log);
    } else {
      ReceivedIsHighest(host, log, n - 1, source);
      KeepsUp(host, log, n - 1);
      TurnChecks(host.machine, host.cryptor, Live(host, log, n - 1).instance.value, EntryMeta(log, n - 1));
    }
  }

  // The VM takes in the message at k when the live run comes to it.
  predicate Accepts<S>(host: Host<S>, log: seq<LogItem>, k: nat)
    requires k < |log| && log[k].MessageItem?
  {
    var vm := Live(host, log, k).instance;
    vm.Some? && Checked(vm.value, EntryMeta(log, k)).Accepted?
  }

  // A message is accepted exactly when the process was spawned, everything logged before it was handed to
  // the VM, and its sequence is above all earlier ones from its process. One entry that was logged and
  // passed over is enough for every later message to be refused for its nonce.
  lemma AcceptedIffHigher<S>(host: Host<S>, log: seq<LogItem>, k: nat)
    requires WellShaped(log) && 0 < k < |log| && Readable(log, 0, k) && log[k].MessageItem?
    ensures Accepts(host, log, k) <==>
      && CanSpawn(host, log[0]) && AllMessages(log, k)
      && var m := log[k].meta;
         (m.fromProcess != "" ==>
            forall i :: 0 < i < k && From(log, i, m.fromProcess) ==> log[i].meta.sequence < m.sequence)
    ensures var vm := Live(host, log, k).instance;
      vm.Some? ==> (Checked(vm.value, EntryMeta(log, k)).InvalidNonce? <==> !AllMessages(log, k))
  {
    hide Live;
    KeepsUp(host, log, k);
    if CanSpawn(host, log[0]) && AllMessages(log, k) && log[k].meta.fromProcess != "" {
      ReceivedIsHighest(host, log, k, log[k].meta.fromProcess);
    }
  }

  // In any log at all: what is accepted from a process has increasing sequences, so none is accepted twice.
  lemma AcceptedOnce<S>(host: Host<S>, log: seq<LogItem>, i: nat, k: nat)
    requires WellShaped(log) && 0 < i < k < |log| && Readable(log, 0, k)
    requires log[i].MessageItem? && log[k].MessageItem?
    requires log[k].meta.fromProcess != "" && log[i].meta.fromProcess == log[k].meta.fromProcess
    requires Accepts(host, log, i) && Accepts(host, log, k)
    ensures log[i].meta.sequence < log[k].meta.sequence
  {
    hide Accepts;
    AcceptedIffHigher(host, log, k);
    assert From(log, i, log[k].meta.fromProcess);
  }

  // One message with a bad Sequence, from anybody, and the next message is refused; without it, it is not.
  lemma OneBadMessageBlocks<S>(host: Host<S>, spawn: LogItem, meta: Meta)
    requires CanSpawn(host, spawn)
    ensures Accepts(host, [spawn, MessageItem(meta)], 1)
    ensures !Accepts(host, [spawn, Unparsed, MessageItem(meta)], 2)
  {
    hide Accepts;
    AcceptedIffHigher(host, [spawn, MessageItem(meta)], 1);
    AcceptedIffHigher(host, [spawn, Unparsed, MessageItem(meta)], 2);
    assert [spawn, Unparsed, MessageItem(meta)][1] == Unparsed;
  }

  // ------------------------------------------------------------------ what a queue delivered

  // The messages a queue delivered, as they stand among everything else in the target's log: the j-th at
  // position at[j].
  ghost predicate StandsAt(log: seq<LogItem>, source: string, items: seq<Delivery.Item>, at: seq<nat>) {
    && |at| == |items|
    && (forall i, j :: 0 <= i < j < |at| ==> at[i] < at[j])
    && (forall j :: 0 <= j < |at| ==> 0 < at[j] < |log|)
    && (forall k :: 0 < k < |log| && From(log, k, source) ==> k in at)
    && forall j :: 0 <= j < |at| ==> From(log, at[j], source) && log[at[j]].meta.sequence == items[j].sequence
  }

  // Delivery and acceptance together: the target's VM accepts a delivered message of a queue exactly when it
  // exists, was handed everything logged before, and the message's number is above those of the queue's
  // earlier messages.
  lemma DeliveredIsAccepted<S>(host: Host<S>, log: seq<LogItem>, source: string, s: Delivery.State, at: seq<nat>, j: nat)
    requires WellShaped(log) && Readable(log, 0, |log|) && source != ""
    requires Delivery.Inv(s) && StandsAt(log, source, s.logged, at) && j < |at|
    ensures Accepts(host, log, at[j]) <==>
      && CanSpawn(host, log[0]) && AllMessages(log, at[j])
      && forall h :: 0 <= h < j ==> s.pushed[h].sequence < s.pushed[j].sequence
  {
    hide Accepts, CanSpawn, AllMessages;
    AcceptedIffHigher(host, log, at[j]);
    assert forall h :: 0 <= h < |at| ==> s.logged[h] == s.pushed[h];
    if forall h :: 0 <= h < j ==> s.pushed[h].sequence < s.pushed[j].sequence {
      forall i | 0 < i < at[j] && From(log, i, source)
        ensures log[i].meta.sequence < log[at[j]].meta.sequence
      {
        var h :| 0 <= h < |at| && at[h] == i;
        assert h < j;
      }
    } else {
      var h :| 0 <= h < j && s.pushed[h].sequence >= s.pushed[j].sequence;
      assert From(log, at[h], source);
    }
  }

  // A queue whose numbers rise has all its messages accepted that a VM is there to accept.
  lemma RisingQueueIsAccepted<S>(host: Host<S>, log: seq<LogItem>, source: string, s: Delivery.State, at: seq<nat>, j: nat)
    requires WellShaped(log) && Readable(log, 0, |log|) && source != ""
    requires Delivery.Inv(s) && Delivery.Rises(s.pushed) && StandsAt(log, source, s.logged, at) && j < |at|
    ensures Accepts(host, log, at[j]) <==> CanSpawn(host, log[0]) && AllMessages(log, at[j])
  {
    hide Accepts, CanSpawn, AllMessages;
    DeliveredIsAccepted(host, log, source, s, at, j);
  }

  // A number pushed twice: both items are delivered, and the VM refuses the second.
  lemma RepeatedNumberIsRefused<S>(host: Host<S>, spawn: LogItem, m: Meta, n: Meta, a: Delivery.Item, b: Delivery.Item)
    returns (run: seq<Delivery.Action>)
    requires CanSpawn(host, spawn) && m.fromProcess == n.fromProcess != "" && a.id != b.id
    requires a.sequence == b.sequence == m.sequence == n.sequence
    ensures Delivery.CanRun(Delivery.EMPTY, Delivery.Local, run)
    ensures var log := [spawn, MessageItem(m), MessageItem(n)];
      && StandsAt(log, m.fromProcess, Delivery.Run(Delivery.EMPTY, Delivery.Local, run).logged, [1, 2])
      && AllMessages(log, 2) && Accepts(host, log, 1) && !Accepts(host, log, 2)
  {
    hide Accepts, Delivery.CanRun, Delivery.Run;
    run := Delivery.TwoDelivered(a, b);
    var s := Delivery.Run(Delivery.EMPTY, Delivery.Local, run);
    Delivery.InvRun(Delivery.EMPTY, Delivery.Local, run);
    var log := [spawn, MessageItem(m), MessageItem(n)];
    DeliveredIsAccepted(host, log, m.fromProcess, s, [1, 2], 0);
    DeliveredIsAccepted(host, log, m.fromProcess, s, [1, 2], 1);
  }

  lemma EmptyIsNoNumber()
    ensures ParseInt("").None?
  {
  }
}
