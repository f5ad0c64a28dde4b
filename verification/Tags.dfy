/** Tag lists and the records they encode (utils/tags.go, utils/item.go). */
module Tags {
  import opened Options

  datatype Tag = Tag(name: string, value: string)

  datatype Base = Base(dataProtocol: string, variant: string, kind: string)

  datatype Message = Message(
    base: Base, action: string, fromProcess: string, pushedFor: string, sequence: string, tags: seq<Tag>)

  datatype Process = Process(
    base: Base, modul: string, scheduler: string, fromProcess: string, pushedFor: string, tags: seq<Tag>)

  const MESSAGE_BASE := Base("hymx", "v0.1.0", "Message")
  const PROCESS_BASE := Base("hymx", "v0.1.0", "Process")

  const NON_EXTRACTABLE: set<string> := {
    "Data-Protocol", "Variant", "From-Process", "From-Module", "Type", "From",
    "Owner", "Anchor", "Target", "Data", "Tags", "Read-Only"}

  // ------------------------------------------------------------- reading a tag list

  function Names(tags: seq<Tag>): set<string> {
    set t <- tags :: t.name
  }

  predicate NoDuplicates(tags: seq<Tag>) {
    forall i, j :: 0 <= i < j < |tags| ==> tags[i].name != tags[j].name
  }

  // GetTagsValue: the first value under a name, or the empty string.
  function Lookup(tags: seq<Tag>, name: string): string {
    if tags == [] then "" else if tags[0].name == name then tags[0].value else Lookup(tags[1..], name)
  }

  function Keep(tags: seq<Tag>, p: Tag -> bool): (r: seq<Tag>)
    ensures forall t :: t in r <==> t in tags && p(t)
  {
    if tags == [] then [] else (if p(tags[0]) then [tags[0]] else []) + Keep(tags[1..], p)
  }

  // MergeTags: tags of the second list come in unless the first list has their name.
  function Merged(tags1: seq<Tag>, tags2: seq<Tag>): seq<Tag> {
    tags1 + Keep(tags2, (t: Tag) => t.name !in Names(tags1))
  }

  function BaseTags(b: Base): seq<Tag> {
    [Tag("Data-Protocol", b.dataProtocol), Tag("Variant", b.variant), Tag("Type", b.kind)]
  }

  function BaseOf(tags: seq<Tag>): Base {
    Base(Lookup(tags, "Data-Protocol"), Lookup(tags, "Variant"), Lookup(tags, "Type"))
  }

  // What a message keeps as its own tags.
  predicate MessageTag(t: Tag) {
    t.name !in {"Action", "From-Process", "Pushed-For", "Sequence"} && t.name !in NON_EXTRACTABLE && t.value != ""
  }

  predicate ProcessTag(t: Tag) {
    t.name !in {"Module", "Scheduler", "From-Process", "Pushed-For"} && t.name !in NON_EXTRACTABLE && t.value != ""
  }

  // TagsToMessage: refuses a duplicate name, and has nothing else to refuse.
  function MessageOf(tags: seq<Tag>): Option<Message> {
    if !NoDuplicates(tags) then None else
    Some(ReadMessage(BaseOf(tags), tags))
  }

  function ProcessOf(tags: seq<Tag>): Option<Process> {
    if !NoDuplicates(tags) then None else
    Some(ReadProcess(BaseOf(tags), tags))
  }

  // TagsToParams
  function ParamsOf(tags: seq<Tag>): Option<map<string, string>> {
    if NoDuplicates(tags) then Some(ReadParams(tags)) else None
  }

  // DecodeItemToMessage: the decoded data of the item becomes one more tag.
  function DecodeMessage(tags: seq<Tag>, data: string): Option<Message> {
    var m := MessageOf(tags);
    if m.None? then None else Some(m.value.(tags := m.value.tags + [Tag("Data", data)]))
  }

  // --------------------------------------------------------------- the loops that read

  method CheckDuplicateTag(tags: seq<Tag>) returns (ok: bool)
    ensures ok <==> NoDuplicates(tags)
  {
    var seen: set<string> := {};
    for k := 0 to |tags|
      invariant NoDuplicates(tags[..k]) && seen == Names(tags[..k])
    {
      assert tags[..k + 1] == tags[..k] + [tags[k]];
      if tags[k].name in seen {
        var j :| 0 <= j < k && tags[j].name == tags[k].name;
        return false;
      }
      seen := seen + {tags[k].name};
    }
    assert tags[..|tags|] == tags;
    return true;
  }

  lemma {:induction false} KeepAppend(a: seq<Tag>, b: seq<Tag>, p: Tag -> bool)
    ensures Keep(a + b, p) == Keep(a, p) + Keep(b, p)
  {
    if a == [] {
      assert a + b == b;
    } else {
      assert (a + b)[1..] == a[1..] + b;
      KeepAppend(a[1..], b, p);
    }
  }

  lemma {:induction false} LookupAppend(a: seq<Tag>, b: seq<Tag>, name: string)
    ensures Lookup(a + b, name) == if name in Names(a) then Lookup(a, name) else Lookup(b, name)
  {
    if a == [] {
      assert a + b == b;
    } else {
      assert (a + b)[1..] == a[1..] + b;
      LookupAppend(a[1..], b, name);
      assert Names(a) == {a[0].name} + Names(a[1..]);
    }
  }

  lemma {:induction false} LookupMissing(tags: seq<Tag>, name: string)
    requires name !in Names(tags)
    ensures Lookup(tags, name) == ""
  {
    if tags != [] {
      assert tags[0] in tags;
      assert forall t <- tags[1..] :: t in tags;
      LookupMissing(tags[1..], name);
    }
  }

  method MergeTags(tags1: seq<Tag>, tags2: seq<Tag>) returns (r: seq<Tag>)
    ensures r == Merged(tags1, tags2)
  {
    var names := set t <- tags1 :: t.name;
    var p := (t: Tag) => t.name !in Names(tags1);
    r := tags1;
    for k := 0 to |tags2|
      invariant r == tags1 + Keep(tags2[..k], p)
    {
      assert tags2[..k + 1] == tags2[..k] + [tags2[k]];
      KeepAppend(tags2[..k], [tags2[k]], p);
      if tags2[k].name !in names {
        r := r + [tags2[k]];
      }
    }
    assert tags2[..|tags2|] == tags2;
  }

  lemma {:induction false} LookupIn(tags: seq<Tag>, t: Tag)
    requires NoDuplicates(tags) && t in tags
    ensures Lookup(tags, t.name) == t.value
  {
    if tags[0] != t {
      var i :| 0 <= i < |tags| && tags[i] == t;
      assert tags[i].name != tags[0].name;
      assert tags[1..][i - 1] == t;
      LookupIn(tags[1..], t);
    }
  }

  lemma {:induction false} LookupFound(tags: seq<Tag>, n: string)
    requires Lookup(tags, n) != ""
    ensures Tag(n, Lookup(tags, n)) in tags
  {
    if tags[0].name != n {
      LookupFound(tags[1..], n);
    }
  }

  lemma LookupSnoc(tags: seq<Tag>, k: nat, name: string)
    requires k < |tags| && NoDuplicates(tags)
    ensures Lookup(tags[..k + 1], name) == if tags[k].name == name then tags[k].value else Lookup(tags[..k], name)
  {
    assert tags[..k + 1] == tags[..k] + [tags[k]];
    LookupAppend(tags[..k], [tags[k]], name);
    if name !in Names(tags[..k]) {
      LookupMissing(tags[..k], name);
    }
  }

  lemma KeepSnoc(tags: seq<Tag>, k: nat, p: Tag -> bool)
    requires k < |tags|
    ensures Keep(tags[..k + 1], p) == Keep(tags[..k], p) + if p(tags[k]) then [tags[k]] else []
  {
    assert tags[..k + 1] == tags[..k] + [tags[k]];
    KeepAppend(tags[..k], [tags[k]], p);
  }

  // What a tag adds to a base, to a message, to a process: the switch of each loop.
  function AddToBase(b: Base, t: Tag): Base {
    match t.name
    case "Data-Protocol" => b.(dataProtocol := t.value)
    case "Variant" => b.(variant := t.value)
    case "Type" => b.(kind := t.value)
    case _ => b
  }

  function AddToMessage(m: Message, t: Tag): Message {
    match t.name
    case "Action" => m.(action := t.value)
    case "From-Process" => m.(fromProcess := t.value)
    case "Pushed-For" => m.(pushedFor := t.value)
    case "Sequence" => m.(sequence := t.value)
    case _ => if t.name in NON_EXTRACTABLE || t.value == "" then m else m.(tags := m.tags + [t])
  }

  function AddToProcess(p: Process, t: Tag): Process {
    match t.name
    case "Module" => p.(modul := t.value)
    case "Scheduler" => p.(scheduler := t.value)
    case "From-Process" => p.(fromProcess := t.value)
    case "Pushed-For" => p.(pushedFor := t.value)
    case _ => if t.name in NON_EXTRACTABLE || t.value == "" then p else p.(tags := p.tags + [t])
  }

  function ReadMessage(b: Base, tags: seq<Tag>): Message {
    Message(b, Lookup(tags, "Action"), Lookup(tags, "From-Process"), Lookup(tags, "Pushed-For"),
            Lookup(tags, "Sequence"), Keep(tags, MessageTag))
  }

  function ReadProcess(b: Base, tags: seq<Tag>): Process {
    Process(b, Lookup(tags, "Module"), Lookup(tags, "Scheduler"), Lookup(tags, "From-Process"),
            Lookup(tags, "Pushed-For"), Keep(tags, ProcessTag))
  }

  // The last value under a name, or the empty string.
  function LastValue(tags: seq<Tag>, name: string): string {
    if tags == [] then ""
    else if tags[|tags| - 1].name == name then tags[|tags| - 1].value
    else LastValue(tags[..|tags| - 1], name)
  }

  // Without duplicates the last value is the first.
  lemma {:induction false} LastIsFirst(tags: seq<Tag>, name: string)
    requires NoDuplicates(tags)
    ensures LastValue(tags, name) == Lookup(tags, name)
  {
    if tags != [] {
      var n := |tags| - 1;
      LookupSnoc(tags, n, name);
      assert tags[..n + 1] == tags;
      LastIsFirst(tags[..n], name);
    }
  }

  lemma MessageSnoc(b: Base, tags: seq<Tag>, k: nat)
    requires k < |tags| && NoDuplicates(tags)
    ensures ReadMessage(b, tags[..k + 1]) == AddToMessage(ReadMessage(b, tags[..k]), tags[k])
  {
    LookupSnoc(tags, k, "Action");
    LookupSnoc(tags, k, "From-Process");
    LookupSnoc(tags, k, "Pushed-For");
    LookupSnoc(tags, k, "Sequence");
    KeepSnoc(tags, k, MessageTag);
  }

  lemma ProcessSnoc(b: Base, tags: seq<Tag>, k: nat)
    requires k < |tags| && NoDuplicates(tags)
    ensures ReadProcess(b, tags[..k + 1]) == AddToProcess(ReadProcess(b, tags[..k]), tags[k])
  {
    LookupSnoc(tags, k, "Module");
    LookupSnoc(tags, k, "Scheduler");
    LookupSnoc(tags, k, "From-Process");
    LookupSnoc(tags, k, "Pushed-For");
    KeepSnoc(tags, k, ProcessTag);
  }

  // A repeated name counts with its last value.
  method TagsToBase(tags: seq<Tag>) returns (b: Base)
    ensures b == Base(LastValue(tags, "Data-Protocol"), LastValue(tags, "Variant"), LastValue(tags, "Type"))
    ensures NoDuplicates(tags) ==> b == BaseOf(tags)
  {
    b := Base("", "", "");
    for k := 0 to |tags|
      invariant b.dataProtocol == LastValue(tags[..k], "Data-Protocol")
      invariant b.variant == LastValue(tags[..k], "Variant")
      invariant b.kind == LastValue(tags[..k], "Type")
    {
      assert tags[..k + 1][..k] == tags[..k];
      b := AddToBase(b, tags[k]);
    }
    assert tags[..|tags|] == tags;
    if NoDuplicates(tags) {
      LastIsFirst(tags, "Data-Protocol");
      LastIsFirst(tags, "Variant");
      LastIsFirst(tags, "Type");
    }
  }

  method TagsToMessage(tags: seq<Tag>) returns (r: Option<Message>)
    ensures r == MessageOf(tags)
  {
    var ok := CheckDuplicateTag(tags);
    if !ok { return None; }
    var b := TagsToBase(tags);
    var m := Message(b, "", "", "", "", []);
    for k := 0 to |tags|
      invariant m == ReadMessage(b, tags[..k])
    {
      MessageSnoc(b, tags, k);
      m := AddToMessage(m, tags[k]);
    }
    assert tags[..|tags|] == tags;
    return Some(m);
  }

  method TagsToProcess(tags: seq<Tag>) returns (r: Option<Process>)
    ensures r == ProcessOf(tags)
  {
    var ok := CheckDuplicateTag(tags);
    if !ok { return None; }
    var b := TagsToBase(tags);
    var p := Process(b, "", "", "", "", []);
    for k := 0 to |tags|
      invariant p == ReadProcess(b, tags[..k])
    {
      ProcessSnoc(b, tags, k);
      p := AddToProcess(p, tags[k]);
    }
    assert tags[..|tags|] == tags;
    return Some(p);
  }

  function ReadParams(tags: seq<Tag>): map<string, string> {
    map n | n in Names(tags) :: Lookup(tags, n)
  }

  lemma ParamsSnoc(tags: seq<Tag>, k: nat)
    requires k < |tags| && NoDuplicates(tags)
    ensures ReadParams(tags[..k + 1]) == ReadParams(tags[..k])[tags[k].name := tags[k].value]
  {
    assert tags[..k + 1] == tags[..k] + [tags[k]];
    assert Names(tags[..k + 1]) == Names(tags[..k]) + {tags[k].name};
    var after, before := ReadParams(tags[..k + 1]), ReadParams(tags[..k]);
    forall n | n in after
      ensures after[n] == before[tags[k].name := tags[k].value][n]
    {
      LookupSnoc(tags, k, n);
    }
  }

  method TagsToParams(tags: seq<Tag>) returns (r: Option<map<string, string>>)
    ensures r == ParamsOf(tags)
  {
    var ok := CheckDuplicateTag(tags);
    if !ok { return None; }
    var params: map<string, string> := map[];
    for k := 0 to |tags|
      invariant params == ReadParams(tags[..k])
    {
      ParamsSnoc(tags, k);
      params := params[tags[k].name := tags[k].value];
    }
    assert tags[..|tags|] == tags;
    return Some(params);
  }

  // ------------------------------------------------------------------ merging tag lists

  lemma {:induction false} KeepNoDuplicates(tags: seq<Tag>, p: Tag -> bool)
    requires NoDuplicates(tags)
    ensures NoDuplicates(Keep(tags, p))
  {
    if tags != [] {
      KeepNoDuplicates(tags[1..], p);
      var r := Keep(tags[1..], p);
      assert forall j :: 0 <= j < |r| ==> r[j] in tags[1..];
    }
  }

  // A merge has no duplicate names exactly when neither what it keeps of the one list nor of the other has;
  // a name that occurs twice in the second list and not in the first survives twice.
  lemma MergedNoDuplicates(tags1: seq<Tag>, tags2: seq<Tag>)
    ensures NoDuplicates(Merged(tags1, tags2)) <==>
            NoDuplicates(tags1) && NoDuplicates(Keep(tags2, (t: Tag) => t.name !in Names(tags1)))
  {
    var kept := Keep(tags2, (t: Tag) => t.name !in Names(tags1));
    var m := tags1 + kept;
    if NoDuplicates(m) {
      assert forall i :: 0 <= i < |kept| ==> kept[i] == m[|tags1| + i];
      assert forall i :: 0 <= i < |tags1| ==> tags1[i] == m[i];
    }
    assert forall i :: 0 <= i < |tags1| ==> tags1[i].name in Names(tags1);
    assert forall i :: 0 <= i < |kept| ==> kept[i] in kept;
    if NoDuplicates(tags1) && NoDuplicates(kept) {
      forall i, j | 0 <= i < j < |m|
        ensures m[i].name != m[j].name
      {
        if i < |tags1| <= j {
          assert m[j] == kept[j - |tags1|];
        }
      }
    }
  }

  lemma MergeKeepsDuplicates()
    ensures var twice := [Tag("X", "1"), Tag("X", "2")]; !NoDuplicates(Merged([], twice))
  {
    var twice := [Tag("X", "1"), Tag("X", "2")];
    var p := (t: Tag) => t.name !in Names([]);
    assert Keep(twice[1..], p) == [twice[1]];
    assert Merged([], twice) == twice;
    assert twice[0].name == twice[1].name;
  }

  lemma {:induction false} LookupKeep(tags: seq<Tag>, p: Tag -> bool, name: string)
    requires forall t <- tags :: t.name == name ==> p(t)
    ensures Lookup(Keep(tags, p), name) == Lookup(tags, name)
  {
    if tags != [] {
      assert forall t <- tags[1..] :: t in tags;
      LookupKeep(tags[1..], p, name);
      assert Keep([tags[0]], p) == if p(tags[0]) then [tags[0]] else [];
      LookupAppend(if p(tags[0]) then [tags[0]] else [], Keep(tags[1..], p), name);
    }
  }

  lemma LookupMerged(tags1: seq<Tag>, tags2: seq<Tag>, name: string)
    ensures Lookup(Merged(tags1, tags2), name) ==
            if name in Names(tags1) then Lookup(tags1, name) else Lookup(tags2, name)
    ensures Names(Merged(tags1, tags2)) == Names(tags1) + Names(tags2)
  {
    var p := (t: Tag) => t.name !in Names(tags1);
    LookupAppend(tags1, Keep(tags2, p), name);
    if name !in Names(tags1) {
      LookupKeep(tags2, p, name);
    }
    forall n | n in Names(tags2)
      ensures n in Names(Merged(tags1, tags2))
    {
      var t :| t in tags2 && t.name == n;
      if p(t) {
        assert t in Keep(tags2, p);
      }
    }
  }

  // -------------------------------------------------------------- what the VMM sends out

  // Tags the VMM sets itself, in front of everything the VM produced.
  function Envelope(pid: string, sequence: string, pushedFor: string): seq<Tag> {
    [Tag("From-Process", pid), Tag("Sequence", sequence), Tag("Pushed-For", pushedFor)]
  }

  // The envelope and the protocol's own tags share no name, so merging them is putting them together
  // (HeadIsMerged).
  function MessageEnvelope(pid: string, sequence: string, pushedFor: string, own: seq<Tag>): seq<Tag> {
    Merged(Envelope(pid, sequence, pushedFor) + BaseTags(MESSAGE_BASE), own)
  }

  function ProcessEnvelope(pid: string, sequence: string, pushedFor: string, p: Process): seq<Tag> {
    Merged(Envelope(pid, sequence, pushedFor) + ProcessHead(p.modul, p.scheduler), p.tags)
  }

  function ProcessHead(modul: string, scheduler: string): seq<Tag> {
    BaseTags(PROCESS_BASE) + [Tag("Module", modul), Tag("Scheduler", scheduler)]
  }

  // The node adds its own time stamp before it signs.
  function Stamped(time: string, tags: seq<Tag>): seq<Tag> {
    Merged([Tag("SDK-Timestamp", time)], tags)
  }

  lemma MergeLists(tags1: seq<Tag>, tags2: seq<Tag>)
    requires NoDuplicates(tags1) && NoDuplicates(tags2)
    ensures NoDuplicates(Merged(tags1, tags2))
  {
    KeepNoDuplicates(tags2, (t: Tag) => t.name !in Names(tags1));
    MergedNoDuplicates(tags1, tags2);
  }

  const ENVELOPE_NAMES: set<string> := {"From-Process", "Sequence", "Pushed-For"}
  const BASE_NAMES: set<string> := {"Data-Protocol", "Variant", "Type"}

  // h says what the envelope says, and otherwise what head says.
  ghost predicate HeadOf(h: seq<Tag>, pid: string, sequence: string, pushedFor: string, head: seq<Tag>) {
    && NoDuplicates(h) && Names(h) == ENVELOPE_NAMES + Names(head)
    && Lookup(h, "From-Process") == pid && Lookup(h, "Sequence") == sequence && Lookup(h, "Pushed-For") == pushedFor
    && forall n <- Names(head) :: Lookup(h, n) == Lookup(head, n)
  }

  lemma HeadNamesDisjoint()
    ensures BASE_NAMES !! ENVELOPE_NAMES && (BASE_NAMES + {"Module", "Scheduler"}) !! ENVELOPE_NAMES
  {
  }

  lemma EnvelopeTags(pid: string, sequence: string, pushedFor: string)
    ensures var e := Envelope(pid, sequence, pushedFor);
            NoDuplicates(e) && Names(e) == ENVELOPE_NAMES && Lookup(e, "From-Process") == pid
            && Lookup(e, "Sequence") == sequence && Lookup(e, "Pushed-For") == pushedFor
  {
    var e := Envelope(pid, sequence, pushedFor);
    assert e[1..] == [e[1], e[2]] && [e[1], e[2]][1..] == [e[2]];
    assert Lookup(e, "Pushed-For") == Lookup([e[2]], "Pushed-For");
    assert e[0] in e && e[1] in e && e[2] in e;
  }

  lemma {:induction false} KeepAll(tags: seq<Tag>, p: Tag -> bool)
    requires forall t <- tags :: p(t)
    ensures Keep(tags, p) == tags
  {
    if tags != [] {
      assert tags[0] in tags && forall t <- tags[1..] :: t in tags;
      KeepAll(tags[1..], p);
      assert tags == [tags[0]] + tags[1..];
    }
  }

  lemma MergeDisjoint(tags1: seq<Tag>, tags2: seq<Tag>)
    requires Names(tags1) !! Names(tags2)
    ensures Merged(tags1, tags2) == tags1 + tags2
  {
    assert forall t <- tags2 :: t.name in Names(tags2);
    KeepAll(tags2, (t: Tag) => t.name !in Names(tags1));
  }

  // What the program builds with MergeTags is what the envelopes are made of.
  lemma HeadIsMerged(pid: string, sequence: string, pushedFor: string, modul: string, scheduler: string)
    ensures Merged(Envelope(pid, sequence, pushedFor), BaseTags(MESSAGE_BASE)) ==
            Envelope(pid, sequence, pushedFor) + BaseTags(MESSAGE_BASE)
    ensures Merged(Envelope(pid, sequence, pushedFor), ProcessHead(modul, scheduler)) ==
            Envelope(pid, sequence, pushedFor) + ProcessHead(modul, scheduler)
  {
    EnvelopeTags(pid, sequence, pushedFor);
    BaseTagsRead(MESSAGE_BASE);
    ProcessHeadRead(modul, scheduler);
    HeadNamesDisjoint();
    MergeDisjoint(Envelope(pid, sequence, pushedFor), BaseTags(MESSAGE_BASE));
    MergeDisjoint(Envelope(pid, sequence, pushedFor), ProcessHead(modul, scheduler));
  }

  lemma EnvelopeHead(pid: string, sequence: string, pushedFor: string, head: seq<Tag>)
    requires NoDuplicates(head) && Names(head) !! ENVELOPE_NAMES
    ensures HeadOf(Envelope(pid, sequence, pushedFor) + head, pid, sequence, pushedFor, head)
  {
    var e := Envelope(pid, sequence, pushedFor);
    EnvelopeTags(pid, sequence, pushedFor);
    MergeDisjoint(e, head);
    MergeLists(e, head);
    forall n {
      LookupMerged(e, head, n);
    }
  }

  lemma BaseTagsRead(b: Base)
    ensures var t := BaseTags(b); NoDuplicates(t) && BaseOf(t) == b && Names(t) == BASE_NAMES
  {
    var t := BaseTags(b);
    assert t[1..] == [t[1], t[2]] && [t[1], t[2]][1..] == [t[2]];
    assert Lookup(t, "Data-Protocol") == b.dataProtocol;
    assert Lookup(t, "Variant") == Lookup([t[1], t[2]], "Variant") == b.variant;
    assert Lookup(t, "Type") == Lookup([t[1], t[2]], "Type") == Lookup([t[2]], "Type") == b.kind;
    assert t[0] in t && t[1] in t && t[2] in t;
  }

  // What the outer merges leave of a head and of the tags merged under it.
  lemma LookupThrough(stamp: Tag, h: seq<Tag>, own: seq<Tag>, n: string)
    requires n != stamp.name
    ensures Lookup(Merged([stamp], Merged(h, own)), n) == if n in Names(h) then Lookup(h, n) else Lookup(own, n)
  {
    LookupMerged([stamp], Merged(h, own), n);
    LookupMerged(h, own, n);
  }

  lemma NoDuplicatesThrough(stamp: Tag, h: seq<Tag>, own: seq<Tag>)
    requires NoDuplicates(h) && NoDuplicates(own)
    ensures NoDuplicates(Merged([stamp], Merged(h, own)))
  {
    MergeLists(h, own);
    MergeLists([stamp], Merged(h, own));
  }

  // The record fields survive the outer merges, for any head.
  lemma FieldsThrough(stamp: Tag, h: seq<Tag>, own: seq<Tag>, pid: string, sequence: string, pushedFor: string, head: seq<Tag>)
    requires HeadOf(h, pid, sequence, pushedFor, head) && NoDuplicates(own)
    requires stamp.name == "SDK-Timestamp" && BASE_NAMES <= Names(head)
    ensures var s := Merged([stamp], Merged(h, own));
            NoDuplicates(s) && Lookup(s, "From-Process") == pid && Lookup(s, "Sequence") == sequence
            && Lookup(s, "Pushed-For") == pushedFor && BaseOf(s) == BaseOf(head)
  {
    NoDuplicatesThrough(stamp, h, own);
    LookupThrough(stamp, h, own, "From-Process");
    LookupThrough(stamp, h, own, "Sequence");
    LookupThrough(stamp, h, own, "Pushed-For");
    LookupThrough(stamp, h, own, "Data-Protocol");
    LookupThrough(stamp, h, own, "Variant");
    LookupThrough(stamp, h, own, "Type");
  }

  lemma ParamsOfKept(s: seq<Tag>, data: string)
    requires NoDuplicates(s)
    ensures var p := ParamsOf(Keep(s, MessageTag) + [Tag("Data", data)]);
            p.Some? && "Data" in p.value && p.value["Data"] == data
  {
    KeepNoDuplicates(s, MessageTag);
    DataParam(Keep(s, MessageTag), data);
  }

  lemma ActionThrough(stamp: Tag, h: seq<Tag>, own: seq<Tag>)
    requires Names(h) == ENVELOPE_NAMES + BASE_NAMES && stamp.name == "SDK-Timestamp"
    ensures Lookup(Merged([stamp], Merged(h, own)), "Action") == Lookup(own, "Action")
  {
    LookupThrough(stamp, h, own, "Action");
  }

  // What the receiver makes of a tag list without duplicates.
  lemma DecodeRead(s: seq<Tag>, data: string)
    requires NoDuplicates(s)
    ensures var m := DecodeMessage(s, data);
            && m.Some? && m.value.base == BaseOf(s) && m.value.action == Lookup(s, "Action")
            && m.value.fromProcess == Lookup(s, "From-Process") && m.value.sequence == Lookup(s, "Sequence")
            && m.value.pushedFor == Lookup(s, "Pushed-For")
            && ParamsOf(m.value.tags).Some? && "Data" in ParamsOf(m.value.tags).value
            && ParamsOf(m.value.tags).value["Data"] == data
  {
    ParamsOfKept(s, data);
  }

  lemma MessageDecodesFrom(stamp: Tag, h: seq<Tag>, own: seq<Tag>, pid: string, sequence: string, pushedFor: string,
                           head: seq<Tag>, data: string)
    requires HeadOf(h, pid, sequence, pushedFor, head) && NoDuplicates(own)
    requires stamp.name == "SDK-Timestamp" && BASE_NAMES == Names(head)
    ensures var m := DecodeMessage(Merged([stamp], Merged(h, own)), data);
            && m.Some? && m.value.base == BaseOf(head)
            && m.value.fromProcess == pid && m.value.sequence == sequence && m.value.pushedFor == pushedFor
            && m.value.action == Lookup(own, "Action")
            && ParamsOf(m.value.tags).Some? && "Data" in ParamsOf(m.value.tags).value
            && ParamsOf(m.value.tags).value["Data"] == data
  {
    FieldsThrough(stamp, h, own, pid, sequence, pushedFor, head);
    ActionThrough(stamp, h, own);
    DecodeRead(Merged([stamp], Merged(h, own)), data);
  }

  lemma MessageHead(pid: string, sequence: string, pushedFor: string) returns (h: seq<Tag>, head: seq<Tag>)
    ensures head == BaseTags(MESSAGE_BASE) && h == Envelope(pid, sequence, pushedFor) + head
    ensures HeadOf(h, pid, sequence, pushedFor, head) && BASE_NAMES == Names(head) && BaseOf(head) == MESSAGE_BASE
  {
    head := BaseTags(MESSAGE_BASE);
    h := Envelope(pid, sequence, pushedFor) + head;
    BaseTagsRead(MESSAGE_BASE);
    HeadNamesDisjoint();
    EnvelopeHead(pid, sequence, pushedFor, head);
  }

  // Whatever tags a VM puts on a message, short of naming one twice, the receiver decodes the message as one
  // of this process, with the sequence and the origin the VMM set, and its parameters never fail to parse.
  lemma EmittedMessageDecodes(pid: string, sequence: string, pushedFor: string, own: seq<Tag>, time: string, data: string)
    requires NoDuplicates(own)
    ensures var m := DecodeMessage(Stamped(time, MessageEnvelope(pid, sequence, pushedFor, own)), data);
            && m.Some? && m.value.base == MESSAGE_BASE
            && m.value.fromProcess == pid && m.value.sequence == sequence && m.value.pushedFor == pushedFor
            && m.value.action == Lookup(own, "Action")
            && ParamsOf(m.value.tags).Some? && "Data" in ParamsOf(m.value.tags).value
            && ParamsOf(m.value.tags).value["Data"] == data
  {
    var h, head := MessageHead(pid, sequence, pushedFor);
    MessageDecodesFrom(Tag("SDK-Timestamp", time), h, own, pid, sequence, pushedFor, head, data);
  }

  lemma DataParam(tags: seq<Tag>, data: string)
    requires NoDuplicates(tags) && forall t <- tags :: MessageTag(t)
    ensures var p := ParamsOf(tags + [Tag("Data", data)]); p.Some? && "Data" in p.value && p.value["Data"] == data
  {
    var all := tags + [Tag("Data", data)];
    forall i, j | 0 <= i < j < |all|
      ensures all[i].name != all[j].name
    {
      assert MessageTag(all[i]);
    }
    assert all[|tags|] in all;
    LookupAppend(tags, [Tag("Data", data)], "Data");
  }

  lemma InThrough(stamp: Tag, h: seq<Tag>, own: seq<Tag>, t: Tag)
    ensures t in Merged([stamp], Merged(h, own)) <==>
            t == stamp || (t.name != stamp.name && (t in h || (t in own && t.name !in Names(h))))
  {
    assert Names([stamp]) == {stamp.name};
  }

  lemma HeadIsNotKept(h: seq<Tag>, t: Tag)
    requires Names(h) == ENVELOPE_NAMES + BASE_NAMES && MessageTag(t)
    ensures t !in h && t.name !in Names(h)
  {
    assert forall x <- h :: x.name in Names(h);
  }

  lemma TagsFrom(stamp: Tag, h: seq<Tag>, own: seq<Tag>, t: Tag)
    requires Names(h) == ENVELOPE_NAMES + BASE_NAMES && MessageTag(t)
    ensures t in Keep(Merged([stamp], Merged(h, own)), MessageTag) <==> t == stamp || (t in own && t.name != stamp.name)
  {
    InThrough(stamp, h, own, t);
    HeadIsNotKept(h, t);
  }

  // Every tag of its own that a message may carry arrives, unless it has the time stamp's name; what the
  // receiver sees beyond these is the data and the time stamp.
  lemma EmittedTags(pid: string, sequence: string, pushedFor: string, own: seq<Tag>, time: string, data: string, t: Tag)
    requires NoDuplicates(own) && MessageTag(t)
    ensures var m := DecodeMessage(Stamped(time, MessageEnvelope(pid, sequence, pushedFor, own)), data);
            m.Some? && (t in m.value.tags <==>
              t == Tag("SDK-Timestamp", time) || (t in own && t.name != "SDK-Timestamp"))
  {
    var h, head := MessageHead(pid, sequence, pushedFor);
    var stamp := Tag("SDK-Timestamp", time);
    NoDuplicatesThrough(stamp, h, own);
    TagsFrom(stamp, h, own, t);
  }

  lemma NamesAppend(a: seq<Tag>, b: seq<Tag>)
    ensures Names(a + b) == Names(a) + Names(b)
  {
    forall n | n in Names(a) + Names(b)
      ensures n in Names(a + b)
    {
      var t :| t in a + b && t.name == n;
    }
  }

  lemma ModuleTags(modul: string, scheduler: string)
    ensures var y := [Tag("Module", modul), Tag("Scheduler", scheduler)];
            NoDuplicates(y) && Names(y) == {"Module", "Scheduler"}
            && Lookup(y, "Module") == modul && Lookup(y, "Scheduler") == scheduler
  {
    var y := [Tag("Module", modul), Tag("Scheduler", scheduler)];
    assert y[1..] == [y[1]];
    assert y[0] in y && y[1] in y;
  }

  lemma ProcessHeadRead(modul: string, scheduler: string)
    ensures var b := ProcessHead(modul, scheduler);
            NoDuplicates(b) && BaseOf(b) == PROCESS_BASE && Names(b) == BASE_NAMES + {"Module", "Scheduler"}
            && Lookup(b, "Module") == modul && Lookup(b, "Scheduler") == scheduler
  {
    var x, y := BaseTags(PROCESS_BASE), [Tag("Module", modul), Tag("Scheduler", scheduler)];
    BaseTagsRead(PROCESS_BASE);
    ModuleTags(modul, scheduler);
    NamesAppend(x, y);
    AppendReads(x, y);
  }

  lemma AppendNoDuplicates(x: seq<Tag>, y: seq<Tag>)
    requires NoDuplicates(x) && NoDuplicates(y) && Names(x) !! Names(y)
    ensures NoDuplicates(x + y)
  {
    assert forall i :: 0 <= i < |x| ==> x[i].name in Names(x);
    assert forall i :: 0 <= i < |y| ==> y[i].name in Names(y);
  }

  lemma AppendReads(x: seq<Tag>, y: seq<Tag>)
    requires NoDuplicates(x) && NoDuplicates(y) && Names(x) == BASE_NAMES && Names(y) == {"Module", "Scheduler"}
    ensures NoDuplicates(x + y) && BaseOf(x + y) == BaseOf(x)
    ensures Lookup(x + y, "Module") == Lookup(y, "Module") && Lookup(x + y, "Scheduler") == Lookup(y, "Scheduler")
  {
    hide Lookup, Names;
    AppendNoDuplicates(x, y);
    LookupAppend(x, y, "Data-Protocol");
    LookupAppend(x, y, "Variant");
    LookupAppend(x, y, "Type");
    LookupAppend(x, y, "Module");
    LookupAppend(x, y, "Scheduler");
  }

  lemma ProcessDecodesFrom(stamp: Tag, h: seq<Tag>, own: seq<Tag>, pid: string, sequence: string, pushedFor: string,
                           head: seq<Tag>)
    requires HeadOf(h, pid, sequence, pushedFor, head) && NoDuplicates(own)
    requires stamp.name == "SDK-Timestamp" && Names(head) == BASE_NAMES + {"Module", "Scheduler"}
    ensures var r := ProcessOf(Merged([stamp], Merged(h, own)));
            && r.Some? && r.value.base == BaseOf(head)
            && r.value.fromProcess == pid && r.value.pushedFor == pushedFor
            && r.value.modul == Lookup(head, "Module") && r.value.scheduler == Lookup(head, "Scheduler")
            && ParamsOf(r.value.tags).Some?
  {
    FieldsThrough(stamp, h, own, pid, sequence, pushedFor, head);
    LookupThrough(stamp, h, own, "Module");
    LookupThrough(stamp, h, own, "Scheduler");
    KeepNoDuplicates(Merged([stamp], Merged(h, own)), ProcessTag);
  }

  lemma ProcessEnvelopeHead(pid: string, sequence: string, pushedFor: string, modul: string, scheduler: string)
    returns (h: seq<Tag>, head: seq<Tag>)
    ensures head == ProcessHead(modul, scheduler) && h == Envelope(pid, sequence, pushedFor) + head
    ensures HeadOf(h, pid, sequence, pushedFor, head) && Names(head) == BASE_NAMES + {"Module", "Scheduler"}
    ensures BaseOf(head) == PROCESS_BASE && Lookup(head, "Module") == modul && Lookup(head, "Scheduler") == scheduler
  {
    head := ProcessHead(modul, scheduler);
    h := Envelope(pid, sequence, pushedFor) + head;
    ProcessHeadRead(modul, scheduler);
    HeadNamesDisjoint();
    EnvelopeHead(pid, sequence, pushedFor, head);
  }

  // The same for a spawn: module, scheduler, origin and sender arrive as the VMM set them.
  lemma EmittedProcessDecodes(pid: string, sequence: string, pushedFor: string, p: Process, time: string)
    requires NoDuplicates(p.tags)
    ensures var r := ProcessOf(Stamped(time, ProcessEnvelope(pid, sequence, pushedFor, p)));
            && r.Some? && r.value.base == PROCESS_BASE
            && r.value.fromProcess == pid && r.value.pushedFor == pushedFor
            && r.value.modul == p.modul && r.value.scheduler == p.scheduler
            && ParamsOf(r.value.tags).Some?
  {
    var h, head := ProcessEnvelopeHead(pid, sequence, pushedFor, p.modul, p.scheduler);
    ProcessDecodesFrom(Tag("SDK-Timestamp", time), h, p.tags, pid, sequence, pushedFor, head);
  }
}
