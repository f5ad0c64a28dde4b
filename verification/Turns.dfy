/** What one log entry does to its process and what it makes the process send, in terms of what the VM
    answers (vmm/apply.go, vmm/outbox.go, vmm/spawn.go). */
module Turns {
  import opened Options
  import opened Numerals
  import opened Tags
  import opened Execution
  import opened Recovery
  import Acceptance

  // ------------------------------------------------------------------------- what the VM is handed

  // The parameters that the VM sees, name by name: a plain one as it came; under a name that came encrypted
  // only, what it decrypts to, or the failure text.
  ghost predicate Plain(c: Cryptor, params: map<string, string>, p: map<string, string>) {
    && (forall n :: n in p <==> n in params || (c.Cryptor? && "Encrypted-" + n in params))
    && forall n <- p ::
         p[n] == if n in params then params[n]
                 else match c.decrypt(params["Encrypted-" + n])
                      case Some(text) => text
                      case None => "err_decrypt_param_failed"
  }

  lemma DecryptedIsPlain(c: Cryptor, params: map<string, string>)
    ensures Plain(c, params, Decrypted(c, params))
  {
    assert PREFIX == "Encrypted-";
  }

  lemma PlainIsDecrypted(c: Cryptor, params: map<string, string>, p: map<string, string>)
    requires Plain(c, params, p)
    ensures p == Decrypted(c, params)
  {
    DecryptedIsPlain(c, params);
    var q := Decrypted(c, params);
    assert forall n :: n in p <==> n in q;
  }

  // The message at k as its VM gets it.
  function Given(log: seq<LogItem>, k: nat, p: map<string, string>): Meta
    requires k < |log| && log[k].MessageItem?
  {
    log[k].meta.(params := p, nonce := k, mode := ModeApply, recoveryMaxNonce := |log| - 1)
  }

  // What the VM makes of the message at k in the live run: its new state and its answer.
  function Answer<S>(host: Host<S>, log: seq<LogItem>, k: nat, p: map<string, string>): (S, Result)
    requires k < |log| && log[k].MessageItem? && Live(host, log, k).instance.Some?
  {
    var m := log[k].meta;
    host.machine.apply(Live(host, log, k).instance.value.state,
                       if m.fromProcess != "" then m.fromProcess else m.accId, Given(log, k, p))
  }

  // ------------------------------------------------------------------------------ the new state

  // An accepted message leaves the state that the VM computes from the state before, the sender, and the
  // message with its parameters decrypted. Any other leaves the state alone. The environment never changes.
  lemma StateMoves<S>(host: Host<S>, log: seq<LogItem>, k: nat, p: map<string, string>)
    requires k < |log| && log[k].MessageItem? && Readable(log, 0, k + 1) && Plain(host.cryptor, log[k].meta.params, p)
    ensures var before, after := Live(host, log, k).instance, Live(host, log, k + 1).instance;
      && (after.Some? <==> before.Some?)
      && (before.Some? ==>
            && after.value.env == before.value.env
            && after.value.state == (if Acceptance.Accepts(host, log, k) then Answer(host, log, k, p).0
                                     else before.value.state))
  {
    hide Live, Decrypted, Flush;
    PlainIsDecrypted(host.cryptor, log[k].meta.params, p);
    Acceptance.LiveStepIs(host, log, k + 1);
  }

  // What is reported of the message at k.
  lemma ResultIsReported<S>(host: Host<S>, log: seq<LogItem>, k: nat, p: map<string, string>)
    requires k < |log| && log[k].MessageItem? && Readable(log, 0, k + 1) && Plain(host.cryptor, log[k].meta.params, p)
    requires Live(host, log, k).instance.Some?
    ensures var m, results := log[k].meta, Live(host, log, k + 1).results;
      && |results| == |Live(host, log, k).results| + 1 && Live(host, log, k).results <= results
      && var r := results[|results| - 1];
      && r.nonce == k && r.timestamp == m.timestamp && r.itemId == m.itemId && r.fromProcess == m.pid
      && r.mode == ModeApply && r.pushedFor == (if m.pushedFor != "" then m.pushedFor else m.itemId)
      && var vm := Live(host, log, k).instance.value;
         if Acceptance.Accepts(host, log, k) then
           var a := Answer(host, log, k, p).1;
           && r.data == a.data && r.error == a.error
           && SameButNumbers(r.messages, a.messages) && SameSpawnsButNumbers(r.spawns, a.spawns)
         else
           r.data == "" && r.messages == [] && r.spawns == [] && r.error == if k != vm.nonce + 1 then "err_invalid_nonce" else "err_sequence_too_low"
  {
    hide Live, Decrypted, Flush;
    PlainIsDecrypted(host.cryptor, log[k].meta.params, p);
    Acceptance.LiveStepIs(host, log, k + 1);
    var (after, r) := CallVm(host.machine, host.cryptor, Live(host, log, k).instance.value, Acceptance.EntryMeta(log, k));
    FlushReports(after.sequence, r);
  }

  // The messages as the VM gave them, but for the numbers they were given.
  ghost predicate SameButNumbers(a: seq<ResMessage>, b: seq<ResMessage>) {
    |a| == |b| && forall i :: 0 <= i < |a| ==> a[i] == b[i].(sequence := a[i].sequence)
  }

  ghost predicate SameSpawnsButNumbers(a: seq<ResSpawn>, b: seq<ResSpawn>) {
    |a| == |b| && forall i :: 0 <= i < |a| ==> a[i] == b[i].(sequence := a[i].sequence)
  }

  lemma FlushReports(sequence: int, r: VmmResult)
    ensures var t := Flush(sequence, r).result;
      && t == r.(messages := t.messages, spawns := t.spawns)
      && SameButNumbers(t.messages, r.messages) && SameSpawnsButNumbers(t.spawns, r.spawns)
  {
    hide SendMessages, SendSpawns;
    MessagesReported(sequence, r.messages, r.fromProcess, r.pushedFor, r.mode);
    SpawnsReported(SendMessages(sequence, r.messages, r.fromProcess, r.pushedFor, r.mode).sequence, r.spawns,
                   r.fromProcess, r.pushedFor, r.mode);
  }

  lemma {:induction false} MessagesReported(sequence: int, ms: seq<ResMessage>, pid: string, pushedFor: string, mode: Mode)
    ensures SameButNumbers(SendMessages(sequence, ms, pid, pushedFor, mode).stamped, ms)
    decreases |ms|
  {
    hide NoDuplicates, MessageOut, Decimal;
    if ms != [] {
      MessagesReported(sequence, ms[..|ms| - 1], pid, pushedFor, mode);
    }
  }

  lemma {:induction false} SpawnsReported(sequence: int, ss: seq<ResSpawn>, pid: string, pushedFor: string, mode: Mode)
    ensures SameSpawnsButNumbers(SendSpawns(sequence, ss, pid, pushedFor, mode).stamped, ss)
    decreases |ss|
  {
    hide NoDuplicates, SpawnOut, Decimal, ReadProcess;
    if ss != [] {
      SpawnsReported(sequence, ss[..|ss| - 1], pid, pushedFor, mode);
    }
  }

  // ---------------------------------------------------------------------- what goes out, and arrives

  // Tags that a receiver reads as a message's own.
  predicate Carried(t: Tag) {
    t.value != "" && t.name !in {
      "Action", "From-Process", "Pushed-For", "Sequence", "Data-Protocol", "Variant", "Type", "From-Module", "From",
      "Owner", "Anchor", "Target", "Data", "Tags", "Read-Only"}
  }

  predicate CarriedBySpawn(t: Tag) {
    t.value != "" && t.name !in {
      "Module", "Scheduler", "From-Process", "Pushed-For", "Data-Protocol", "Variant", "Type", "From-Module", "From",
      "Owner", "Anchor", "Target", "Data", "Tags", "Read-Only"}
  }

  // What goes out for message m of a VM, as number n: to its target, with its data, and read by any receiver
  // with m's action, m's own tags and the sender's envelope.
  ghost predicate GoesOut(o: Outbox, m: ResMessage, n: int, pid: string, pushedFor: string) {
    && !o.isProcess && o.to == m.target && o.from == pid && o.data == m.data
    && forall time, body :: ReadAs(o.tags, m.tags, n, pid, pushedFor, time, body)
  }

  ghost predicate ReadAs(tags: seq<Tag>, own: seq<Tag>, n: int, pid: string, pushedFor: string, time: string, body: string) {
    var r := DecodeMessage(Stamped(time, tags), body);
    && r.Some? && r.value.base == MESSAGE_BASE
    && r.value.fromProcess == pid && r.value.pushedFor == pushedFor && ParseInt(r.value.sequence) == Some(n)
    && r.value.action == Lookup(own, "Action")
    && NoDuplicates(r.value.tags)
    && forall t :: t in r.value.tags <==>
         t == Tag("Data", body)
         || (Carried(t) && (t == Tag("SDK-Timestamp", time) || (t in own && t.name != "SDK-Timestamp")))
  }

  // What goes out for spawn s of a VM, to the scheduler it names.
  ghost predicate SpawnGoesOut(o: Outbox, s: ResSpawn, n: int, pid: string, pushedFor: string) {
    && o.isProcess && o.to == Lookup(s.tags, "Scheduler") && o.from == pid && o.data == s.data
    && forall time :: SpawnReadAs(o.tags, s.tags, n, pid, pushedFor, time)
  }

  ghost predicate SpawnReadAs(tags: seq<Tag>, own: seq<Tag>, n: int, pid: string, pushedFor: string, time: string) {
    var r := ProcessOf(Stamped(time, tags));
    && r.Some? && r.value.base == PROCESS_BASE
    && r.value.fromProcess == pid && r.value.pushedFor == pushedFor
    && r.value.modul == Lookup(own, "Module") && r.value.scheduler == Lookup(own, "Scheduler")
    && ParamsOf(r.value.tags).Some?
    && forall t :: t in r.value.tags <==>
         CarriedBySpawn(t)
         && (t == Tag("SDK-Timestamp", time) || t == Tag("Sequence", Decimal(n))
             || (t in own && t.name != "SDK-Timestamp" && t.name != "Sequence"))
  }

  lemma MessageGoesOut(m: ResMessage, n: nat, pid: string, pushedFor: string)
    requires NoDuplicates(m.tags)
    ensures GoesOut(MessageOut(m.(sequence := Decimal(n)), pid, pushedFor), m, n, pid, pushedFor)
  {
    hide ReadAs, Decimal, MessageEnvelope;
    forall time, body
      ensures ReadAs(MessageEnvelope(pid, Decimal(n), pushedFor, m.tags), m.tags, n, pid, pushedFor, time, body)
    {
      MessageReadAs(m.tags, n, pid, pushedFor, time, body);
    }
  }

  lemma MessageReadAs(own: seq<Tag>, n: nat, pid: string, pushedFor: string, time: string, body: string)
    requires NoDuplicates(own)
    ensures ReadAs(MessageEnvelope(pid, Decimal(n), pushedFor, own), own, n, pid, pushedFor, time, body)
  {
    hide MessageEnvelope, Stamped, Decimal, ParseInt, NoDuplicates, Lookup;
    var tags := MessageEnvelope(pid, Decimal(n), pushedFor, own);
    DecimalRoundTrip(n);
    EmittedMessageDecodes(pid, Decimal(n), pushedFor, own, time, body);
    var r := DecodeMessage(Stamped(time, tags), body).value;
    ParamsHaveNoDuplicates(r.tags);
    forall t
      ensures t in r.tags <==>
        t == Tag("Data", body) || (Carried(t) && (t == Tag("SDK-Timestamp", time) || (t in own && t.name != "SDK-Timestamp")))
    {
      CarriedIsOwn(t);
      if MessageTag(t) {
        EmittedTags(pid, Decimal(n), pushedFor, own, time, body, t);
      }
    }
  }

  lemma ParamsHaveNoDuplicates(tags: seq<Tag>)
    requires ParamsOf(tags).Some?
    ensures NoDuplicates(tags)
  {
  }

  lemma CarriedIsOwn(t: Tag)
    ensures Carried(t) <==> MessageTag(t)
    ensures CarriedBySpawn(t) <==> ProcessTag(t)
  {
  }

  lemma SpawnGoesOutIs(s: ResSpawn, n: nat, pid: string, pushedFor: string)
    requires ProcessOf(s.tags).Some?
    ensures SpawnGoesOut(SpawnOut(s.(sequence := Decimal(n)), ProcessOf(s.tags).value, pid, pushedFor), s, n, pid, pushedFor)
  {
    hide SpawnReadAs, Decimal, ProcessEnvelope;
    var p := ProcessOf(s.tags).value;
    forall time
      ensures SpawnReadAs(ProcessEnvelope(pid, Decimal(n), pushedFor, p), s.tags, n, pid, pushedFor, time)
    {
      SpawnTagsReadAs(s.tags, p, n, pid, pushedFor, time);
    }
  }

  lemma SpawnTagsReadAs(own: seq<Tag>, p: Process, n: nat, pid: string, pushedFor: string, time: string)
    requires ProcessOf(own) == Some(p)
    ensures SpawnReadAs(ProcessEnvelope(pid, Decimal(n), pushedFor, p), own, n, pid, pushedFor, time)
  {
    hide ProcessEnvelope, Stamped, Decimal, NoDuplicates, Lookup;
    KeepNoDuplicates(own, ProcessTag);
    EmittedProcessDecodes(pid, Decimal(n), pushedFor, p, time);
    var r := ProcessOf(Stamped(time, ProcessEnvelope(pid, Decimal(n), pushedFor, p))).value;
    forall t
      ensures t in r.tags <==>
        CarriedBySpawn(t)
        && (t == Tag("SDK-Timestamp", time) || t == Tag("Sequence", Decimal(n))
            || (t in own && t.name != "SDK-Timestamp" && t.name != "Sequence"))
    {
      CarriedIsOwn(t);
      if ProcessTag(t) { EmittedProcessTags(pid, n, pushedFor, own, p, time, t); }
    }
  }

  lemma EmittedProcessTags(pid: string, n: nat, pushedFor: string, own: seq<Tag>, p: Process, time: string, t: Tag)
    requires ProcessOf(own) == Some(p) && ProcessTag(t)
    ensures t in Stamped(time, ProcessEnvelope(pid, Decimal(n), pushedFor, p)) <==>
      t == Tag("SDK-Timestamp", time) || t == Tag("Sequence", Decimal(n))
      || (t in own && t.name != "SDK-Timestamp" && t.name != "Sequence")
  {
    hide Decimal, NoDuplicates, Lookup;
    var h, head := ProcessEnvelopeHead(pid, Decimal(n), pushedFor, p.modul, p.scheduler);
    InThrough(Tag("SDK-Timestamp", time), h, p.tags, t);
    HeadTag(pid, Decimal(n), pushedFor, p.modul, p.scheduler, t);
  }

  // Of the head of a spawn only the number is a tag that is carried.
  lemma HeadTag(pid: string, sequence: string, pushedFor: string, modul: string, scheduler: string, t: Tag)
    requires ProcessTag(t)
    ensures var h := Envelope(pid, sequence, pushedFor) + ProcessHead(modul, scheduler);
      && (t in h <==> t == Tag("Sequence", sequence)) && (t.name in Names(h) <==> t.name == "Sequence")
  {
    var h := Envelope(pid, sequence, pushedFor) + ProcessHead(modul, scheduler);
    assert h == [Tag("From-Process", pid), Tag("Sequence", sequence), Tag("Pushed-For", pushedFor),
                 Tag("Data-Protocol", PROCESS_BASE.dataProtocol), Tag("Variant", PROCESS_BASE.variant),
                 Tag("Type", PROCESS_BASE.kind), Tag("Module", modul), Tag("Scheduler", scheduler)];
    assert h[1] in h;
  }

  // The messages of an answer that can be sent: those that name no tag twice, in their order.
  function Sendable(ms: seq<ResMessage>): seq<ResMessage> {
    if ms == [] then []
    else Sendable(ms[..|ms| - 1]) + if NoDuplicates(ms[|ms| - 1].tags) then [ms[|ms| - 1]] else []
  }

  function SendableSpawns(ss: seq<ResSpawn>): seq<ResSpawn> {
    if ss == [] then []
    else SendableSpawns(ss[..|ss| - 1]) + if NoDuplicates(ss[|ss| - 1].tags) then [ss[|ss| - 1]] else []
  }

  ghost predicate AllGoOut(outs: seq<Outbox>, ms: seq<ResMessage>, first: int, pid: string, pushedFor: string) {
    |outs| == |ms| && forall i :: 0 <= i < |ms| ==> GoesOut(outs[i], ms[i], first + i, pid, pushedFor)
  }

  ghost predicate AllSpawnsGoOut(outs: seq<Outbox>, ss: seq<ResSpawn>, first: int, pid: string, pushedFor: string) {
    |outs| == |ss| && forall i :: 0 <= i < |ss| ==> SpawnGoesOut(outs[i], ss[i], first + i, pid, pushedFor)
  }

  lemma {:induction false} MessagesGoOut(sequence: int, ms: seq<ResMessage>, pid: string, pushedFor: string)
    requires sequence >= -1
    ensures var b := SendMessages(sequence, ms, pid, pushedFor, ModeApply);
      && AllGoOut(b.outs, Sendable(ms), sequence + 1, pid, pushedFor)
      && b.sequence == sequence + |Sendable(ms)|
    decreases |ms|
  {
    hide GoesOut, NoDuplicates, MessageOut, Decimal;
    if ms != [] {
      var m := ms[|ms| - 1];
      MessagesGoOut(sequence, ms[..|ms| - 1], pid, pushedFor);
      if NoDuplicates(m.tags) {
        MessageGoesOut(m, SendMessages(sequence, ms[..|ms| - 1], pid, pushedFor, ModeApply).sequence + 1, pid, pushedFor);
      }
    }
  }

  lemma {:induction false} SpawnsGoOut(sequence: int, ss: seq<ResSpawn>, pid: string, pushedFor: string)
    requires sequence >= -1
    ensures var b := SendSpawns(sequence, ss, pid, pushedFor, ModeApply);
      && AllSpawnsGoOut(b.outs, SendableSpawns(ss), sequence + 1, pid, pushedFor)
      && b.sequence == sequence + |SendableSpawns(ss)|
    decreases |ss|
  {
    hide SpawnGoesOut, NoDuplicates, SpawnOut, Decimal, ReadProcess;
    if ss != [] {
      var s := ss[|ss| - 1];
      SpawnsGoOut(sequence, ss[..|ss| - 1], pid, pushedFor);
      if NoDuplicates(s.tags) {
        SpawnGoesOutIs(s, SendSpawns(sequence, ss[..|ss| - 1], pid, pushedFor, ModeApply).sequence + 1, pid, pushedFor);
      }
    }
  }

  // What an answer sends: its messages, then its spawns, numbered on.
  ghost predicate Sends(outs: seq<Outbox>, ms: seq<ResMessage>, ss: seq<ResSpawn>, first: int, pid: string, pushedFor: string) {
    && |outs| == |Sendable(ms)| + |SendableSpawns(ss)|
    && AllGoOut(outs[..|Sendable(ms)|], Sendable(ms), first, pid, pushedFor)
    && AllSpawnsGoOut(outs[|Sendable(ms)|..], SendableSpawns(ss), first + |Sendable(ms)|, pid, pushedFor)
  }

  lemma FlushSends(sequence: int, r: VmmResult)
    requires sequence >= -1 && r.mode.ModeApply?
    ensures Sends(Flush(sequence, r).outs, r.messages, r.spawns, sequence + 1, r.fromProcess, r.pushedFor)
  {
    hide SendMessages, SendSpawns, GoesOut, SpawnGoesOut;
    MessagesGoOut(sequence, r.messages, r.fromProcess, r.pushedFor);
    var b := SendMessages(sequence, r.messages, r.fromProcess, r.pushedFor, ModeApply);
    SpawnsGoOut(b.sequence, r.spawns, r.fromProcess, r.pushedFor);
    var c := SendSpawns(b.sequence, r.spawns, r.fromProcess, r.pushedFor, ModeApply);
    assert (b.outs + c.outs)[..|b.outs|] == b.outs && (b.outs + c.outs)[|b.outs|..] == c.outs;
  }

  // An accepted message makes its process send exactly what the VM answers. Any other sends nothing.
  lemma AnswerIsSent<S>(host: Host<S>, log: seq<LogItem>, k: nat, pid: string, p: map<string, string>)
    requires k < |log| && log[k].MessageItem? && Readable(log, 0, k + 1) && LogOf(log, pid)
    requires Plain(host.cryptor, log[k].meta.params, p)
    ensures var before, after := Live(host, log, k).outbox, Live(host, log, k + 1).outbox;
      before <= after && var outs := after[|before|..];
      if Acceptance.Accepts(host, log, k) then
        var a := Answer(host, log, k, p).1;
        Sends(outs, a.messages, a.spawns, |before|, pid, Origin(log[k]))
      else outs == []
  {
    hide Live, Decrypted, Flush, Sends;
    PlainIsDecrypted(host.cryptor, log[k].meta.params, p);
    Acceptance.LiveStepIs(host, log, k + 1);
    LiveIsCounted(host, log, k, pid);
    var w := Live(host, log, k);
    if w.instance.Some? {
      var (after, r) := CallVm(host.machine, host.cryptor, w.instance.value, Acceptance.EntryMeta(log, k));
      FlushSends(after.sequence, r);
      NothingSends(after.sequence, r);
      Tail(w.outbox, Flush(after.sequence, r).outs);
    }
  }

  lemma Tail<T>(a: seq<T>, b: seq<T>)
    ensures a <= a + b && (a + b)[|a|..] == b && a[|a|..] == []
  {
  }

  lemma NothingSends(sequence: int, r: VmmResult)
    ensures r.messages == [] && r.spawns == [] ==> Flush(sequence, r).outs == []
  {
  }

  // Number k of a process, sent by the message at j, is what the VM answered there: its i-th message that can be
  // sent, or behind these its spawn.
  lemma SentIsAnswer<S>(host: Host<S>, log: seq<LogItem>, pid: string, j: nat, k: nat, p: map<string, string>)
    requires Readable(log, 0, |log|) && LogOf(log, pid) && SentBy(host, log, j, k) && log[j].MessageItem?
    requires Plain(host.cryptor, log[j].meta.params, p)
    ensures Acceptance.Accepts(host, log, j) && k < |Live(host, log, |log|).outbox|
    ensures var o, a, i := Live(host, log, |log|).outbox[k], Answer(host, log, j, p).1, k - |Live(host, log, j).outbox|;
      var ms, ss := Sendable(a.messages), SendableSpawns(a.spawns);
      && i < |ms| + |ss|
      && (if i < |ms| then GoesOut(o, ms[i], k, pid, Origin(log[j]))
          else SpawnGoesOut(o, ss[i - |ms|], k, pid, Origin(log[j])))
  {
    hide Live, Answer, GoesOut, SpawnGoesOut, Acceptance.Accepts;
    AnswerIsSent(host, log, j, pid, p);
    OutboxGrows(host, log, pid, j + 1, |log|);
    var before, after := Live(host, log, j).outbox, Live(host, log, j + 1).outbox;
    assert after[|before|..][k - |before|] == after[k];
  }

  // ------------------------------------------------------------------------- and is handed on

  // The parameters of a message with these own tags, name by name.
  ghost predicate Carries(params: map<string, string>, own: seq<Tag>, time: string, body: string) {
    forall t: Tag :: t.name in params && params[t.name] == t.value <==>
      t == Tag("Data", body)
      || (Carried(t) && (t == Tag("SDK-Timestamp", time) || (t in own && t.name != "SDK-Timestamp")))
  }

  lemma ParamsAre(tags: seq<Tag>)
    requires NoDuplicates(tags)
    ensures ParamsOf(tags).Some?
    ensures var p := ParamsOf(tags).value; forall t: Tag :: t in tags <==> t.name in p && p[t.name] == t.value
  {
    var p := ParamsOf(tags).value;
    forall t: Tag
      ensures t in tags <==> t.name in p && p[t.name] == t.value
    {
      if t in tags {
        LookupIn(tags, t);
      } else if t.name in p {
        var x :| x in tags && x.name == t.name;
        LookupIn(tags, x);
      }
    }
  }

  // A message that went out is handed to its receiver's VM exactly when its number has 64 bits, with its action,
  // its own tags and its data for parameters, and under its process's name, number and Pushed-For.
  lemma GoesOutIsHanded(o: Outbox, m: ResMessage, n: nat, pid: string, pushedFor: string, time: string, body: string,
                        itemId: string, target: string, accId: string, timestamp: int, data: string)
    requires GoesOut(o, m, n, pid, pushedFor)
    ensures var r := DecodeMessage(Stamped(time, o.tags), body);
      r.Some? && var e := Acceptance.EntryOf(r.value, itemId, target, accId, timestamp, data);
      && (e.MessageItem? <==> n <= MAX_INT64) && (e.MessageItem? || e.Unparsed?)
      && (e.MessageItem? ==>
            && e.meta == Meta(itemId, target, accId, Lookup(m.tags, "Action"), pid, pushedFor, n, 0, timestamp,
                              e.meta.params, data, ModeApply, 0)
            && Carries(e.meta.params, m.tags, time, body))
  {
    hide ParseInt, Stamped, Lookup, ParamsOf, DecodeMessage, NoDuplicates;
    assert ReadAs(o.tags, m.tags, n, pid, pushedFor, time, body);
    var r := DecodeMessage(Stamped(time, o.tags), body).value;
    Acceptance.EmptyIsNoNumber();
    ParamsAre(r.tags);
  }

  lemma AcceptsHasVm<S>(host: Host<S>, log: seq<LogItem>, j: nat)
    requires j < |log| && log[j].MessageItem? && Acceptance.Accepts(host, log, j)
    ensures Live(host, log, j).instance.Some?
  {
  }

  // So whatever message the VM answers to the message at j reaches its receiver's VM.
  lemma SentIsHanded<S>(host: Host<S>, log: seq<LogItem>, pid: string, j: nat, k: nat, p: map<string, string>,
                        time: string, body: string, itemId: string, target: string, accId: string, timestamp: int,
                        data: string)
    requires Readable(log, 0, |log|) && LogOf(log, pid) && SentBy(host, log, j, k) && log[j].MessageItem?
    requires Plain(host.cryptor, log[j].meta.params, p) && k < |Live(host, log, |log|).outbox|
    requires !Live(host, log, |log|).outbox[k].isProcess
    ensures Acceptance.Accepts(host, log, j)
    ensures var o, ms, i := Live(host, log, |log|).outbox[k], Sendable(Answer(host, log, j, p).1.messages),
                            k - |Live(host, log, j).outbox|;
      && i < |ms| && o.to == ms[i].target && o.data == ms[i].data
      && var r := DecodeMessage(Stamped(time, o.tags), body);
      r.Some? && var e := Acceptance.EntryOf(r.value, itemId, target, accId, timestamp, data);
      && (e.MessageItem? <==> k <= MAX_INT64) && (e.MessageItem? || e.Unparsed?)
      && (e.MessageItem? ==>
            && e.meta == Meta(itemId, target, accId, Lookup(ms[i].tags, "Action"), pid, Origin(log[j]), k, 0, timestamp,
                              e.meta.params, data, ModeApply, 0)
            && Carries(e.meta.params, ms[i].tags, time, body))
  {
    hide Live, Answer, Acceptance.Accepts, ReadAs, SpawnReadAs, Acceptance.EntryOf, DecodeMessage, Carries;
    SentIsAnswer(host, log, pid, j, k, p);
    AcceptsHasVm(host, log, j);
    var ms, i := Sendable(Answer(host, log, j, p).1.messages), k - |Live(host, log, j).outbox|;
    GoesOutIsHanded(Live(host, log, |log|).outbox[k], ms[i], k, pid, Origin(log[j]), time, body,
                    itemId, target, accId, timestamp, data);
  }

  // ----------------------------------------------------------------------------------- the spawn

  // A process's first message, to the registry it sees.
  function Announcement(registryId: string, pid: string, scheduler: string): seq<ResMessage> {
    if registryId == "" then [] else
    [ResMessage("", registryId, "",
                [Tag("Action", "RegisterProcess"), Tag("Pid", pid), Tag("Acc-Id", scheduler)])]
  }

  // The tags of its message to the process that spawned it: the reference, and the X- parameters.
  ghost predicate TellsParent(tags: seq<Tag>, pid: string, reference: string, params: map<string, string>) {
    && NoDuplicates(tags)
    && forall t :: t in tags <==>
         t == Tag("Action", "Spawned") || t == Tag("Process", pid)
         || t == Tag("Reference", if reference == "" then "0" else reference)
         || ("X-" <= t.name && t.name in params && params[t.name] == t.value)
  }

  // A map's keys, each once, in some order.
  ghost predicate Listing(order: seq<string>, params: map<string, string>) {
    && (forall n :: n in order <==> n in params)
    && forall i, j :: 0 <= i < j < |order| ==> order[i] != order[j]
  }

  lemma {:induction false} ForwardedIs(params: map<string, string>, order: seq<string>)
    requires (forall n <- order :: n in params) && forall i, j :: 0 <= i < j < |order| ==> order[i] != order[j]
    ensures var f := Forwarded(params, order);
      && NoDuplicates(f)
      && forall t :: t in f <==> "X-" <= t.name && t.name in order && params[t.name] == t.value
  {
    if order != [] {
      ForwardedIs(params, order[1..]);
      var head, rest := (if "X-" <= order[0] then [Tag(order[0], params[order[0]])] else []), Forwarded(params, order[1..]);
      assert Forwarded(params, order) == head + rest;
      forall i | 0 <= i < |rest|
        ensures rest[i].name != order[0]
      {
        assert rest[i] in rest;
      }
    }
  }

  lemma JoinParent(first: seq<Tag>, f: seq<Tag>)
    requires NoDuplicates(first) && NoDuplicates(f)
    requires forall i, j :: 0 <= i < |first| && 0 <= j < |f| ==> first[i].name != f[j].name
    ensures NoDuplicates(first + f) && forall t :: t in first + f <==> t in first || t in f
  {
  }

  lemma ParentIsTold(pid: string, reference: string, params: map<string, string>, order: seq<string>)
    requires Listing(order, params)
    ensures TellsParent([Tag("Action", "Spawned"), Tag("Process", pid),
                         Tag("Reference", if reference == "" then "0" else reference)] + Forwarded(params, order),
                        pid, reference, params)
  {
    ForwardedIs(params, order);
    var f := Forwarded(params, order);
    var first := [Tag("Action", "Spawned"), Tag("Process", pid), Tag("Reference", if reference == "" then "0" else reference)];
    forall i | 0 <= i < |f|
      ensures f[i].name[0] == 'X'
    {
      assert f[i] in f;
    }
    assert "Action"[0] == 'A' && "Process"[0] == 'P' && "Reference"[0] == 'R';
    JoinParent(first, f);
  }

  // A spawned process starts with what its factory makes of its item and process, at nonce 0, with nothing
  // received. It tells the registry it sees that it runs on its scheduler, and its parent that it is there.
  lemma SpawnStarts<S>(host: Host<S>, log: seq<LogItem>, pid: string) returns (parent: seq<Tag>)
    requires log != [] && log[0].SpawnItem? && Readable(log, 0, 1) && LogOf(log, pid)
    requires Listing(host.order(log[0].meta.params), log[0].meta.params)
    ensures var w, m, q := Live(host, log, 1), log[0].meta, log[0].process;
      var env := Env(m.(nonce := 0, mode := ModeApply, recoveryMaxNonce := 0), q);
      var made := host.machine.spawn(env);
      && (w.instance.Some? <==> made.Some?)
      && (made.Some? ==>
            && w.instance.value.state == made.value && w.instance.value.nonce == 0
            && w.instance.value.received == map[] && w.instance.value.env == env
            && TellsParent(parent, pid, Lookup(q.tags, "Reference"), m.params)
            && Sends(w.outbox,
                     Announcement(host.registryId, pid, q.scheduler)
                     + (if m.fromProcess == "" then [] else [ResMessage("", m.fromProcess, "", parent)]),
                     [], 0, pid, Origin(log[0])))
      && (made.None? ==> w.outbox == [])
  {
    hide Live, Flush, Sends, Forwarded, TellsParent, Lookup, Listing;
    var m, q := log[0].meta.(nonce := 0, mode := ModeApply, recoveryMaxNonce := |log| - 1), log[0].process;
    var order := host.order(m.params);
    var reference := Lookup(q.tags, "Reference");
    parent := [Tag("Action", "Spawned"), Tag("Process", pid),
               Tag("Reference", if reference == "" then "0" else reference)] + Forwarded(m.params, order);
    ParentIsTold(pid, reference, m.params, order);
    Acceptance.LiveStepIs(host, log, 1);
    LiveOfNothing(host, log);
    var r := SpawnResult(m, q, host.registryId, order);
    assert r.messages == Announcement(host.registryId, pid, q.scheduler)
                         + (if m.fromProcess == "" then [] else [ResMessage("", m.fromProcess, "", parent)]);
    FlushSends(-1, r);
    assert [] + Flush(-1, r).outs == Flush(-1, r).outs;
  }
}
