/** The byte reader and the scanning loops of node/spawn.go, as they are written there:
    one position that only moves forward but for one unread byte. */
module ModuleJsonReader {
  import opened Options
  import opened JsonGrammar
  import opened ModuleName
  import opened ModuleJson

  const TAGS_LIMIT: nat := 1048576  // 1 << 20

  lemma ScanStringStep(s: seq<byte>)
    ensures s == [] ==> ScanString(s) == None
    ensures s != [] && s[0] == QUOTE ==> ScanString(s) == Some(s[1..])
    ensures s != [] && s[0] != QUOTE ==>
      ScanString(s) == if CharWidth(s) == 0 then None else ScanString(s[CharWidth(s)..])
  {
  }

  lemma CharStep(s: seq<byte>)
    ensures s != [] && s[0] < 0x20 ==> CharWidth(s) == 0
    ensures s != [] && s[0] >= 0x20 && s[0] != BACKSLASH ==> CharWidth(s) == 1
    ensures s != [] && s[0] == BACKSLASH ==> s == [BACKSLASH] + s[1..]
    ensures CharWidth(s) <= |s|
  {
  }

  lemma DropTwice(data: seq<byte>, at: nat, width: nat)
    requires at + width <= |data|
    ensures data[at..][width..] == data[at + width..]
  {
  }

  // A captured text without its quotes is what lies before the closing one.
  lemma KeyBetweenQuotes(data: seq<byte>, start: nat, end: nat, raw: seq<byte>)
    requires start < end <= |data| && raw == [QUOTE] + data[start..end]
    ensures raw[1..|raw| - 1] == data[start..][..|data[start..]| - |data[end..]| - 1]
  {
  }

  class Reader {
    const data: seq<byte>
    var pos: nat

    constructor (data: seq<byte>)
      ensures this.data == data && Valid() && Rest() == data
    {
      this.data, pos := data, 0;
    }

    ghost predicate Valid()
      reads this
    {
      pos <= |data|
    }

    // The bytes still unread.
    function Rest(): seq<byte>
      requires Valid()
      reads this
    {
      data[pos..]
    }

    // None is the end of the input or a read error.
    method ReadByte() returns (c: Option<byte>)
      requires Valid()
      modifies this
      ensures Valid()
      ensures old(Rest()) == [] ==> c == None && Rest() == []
      ensures old(Rest()) != [] ==> c == Some(old(Rest())[0]) && Rest() == old(Rest())[1..] && pos == old(pos) + 1
    {
      if pos == |data| { return None; }
      c := Some(data[pos]);
      pos := pos + 1;
    }

    method UnreadByte()
      requires Valid() && pos > 0
      modifies this
      ensures Valid() && pos == old(pos) - 1 && Rest() == [data[pos]] + old(Rest())
    {
      pos := pos - 1;
    }

    method JsonNonSpace() returns (c: Option<byte>)
      requires Valid()
      modifies this
      ensures Valid() && pos >= old(pos)
      ensures var t := SkipSpace(old(Rest()));
              if t == [] then c == None
              else c == Some(t[0]) && Rest() == t[1..] && pos > old(pos) && data[pos - 1] == t[0]
    {
      while true
        invariant Valid() && pos >= old(pos)
        invariant SkipSpace(Rest()) == SkipSpace(old(Rest()))
        decreases |data| - pos
      {
        c := ReadByte();
        if c.None? || !IsSpace(c.value) { return; }
      }
    }

    // A byte is read and, when the text is captured, appended to what was captured since start.
    method ReadCaptured(capture: bool, soFar: seq<byte>, ghost start: nat) returns (c: Option<byte>, raw: seq<byte>)
      requires Valid() && start <= pos && (capture ==> soFar == [QUOTE] + data[start..pos])
      modifies this
      ensures Valid()
      ensures old(Rest()) == [] ==> c == None && pos == old(pos)
      ensures old(Rest()) != [] ==> c == Some(old(Rest())[0]) && pos == old(pos) + 1 && Rest() == old(Rest())[1..]
      ensures capture ==> raw == [QUOTE] + data[start..pos]
    {
      raw := soFar;
      c := ReadByte();
      if c.Some? && capture {
        raw := raw + [c.value];
        assert data[start..pos] == data[start..pos - 1] + [c.value];
      }
    }

    // The four hex digits of a Unicode escape.
    method ScanHex(capture: bool, soFar: seq<byte>, ghost start: nat) returns (ok: bool, raw: seq<byte>)
      requires Valid() && start <= pos && (capture ==> soFar == [QUOTE] + data[start..pos])
      modifies this
      ensures Valid() && pos >= old(pos)
      ensures var s := old(Rest()); ok <==> |s| >= 4 && IsHex(s[0]) && IsHex(s[1]) && IsHex(s[2]) && IsHex(s[3])
      ensures ok ==> pos == old(pos) + 4
      ensures capture ==> raw == [QUOTE] + data[start..pos]
    {
      raw := soFar;
      ghost var s := Rest();
      var i := 0;
      while i < 4
        invariant 0 <= i <= 4 && Valid() && pos == old(pos) + i
        invariant forall k :: 0 <= k < i ==> IsHex(s[k])
        invariant capture ==> raw == [QUOTE] + data[start..pos]
      {
        var h;
        h, raw := ReadCaptured(capture, raw, start);
        if h.None? || !IsHex(h.value) { return false, raw; }
        i := i + 1;
      }
      return true, raw;
    }

    // What follows a backslash.
    method ScanEscape(capture: bool, soFar: seq<byte>, ghost start: nat) returns (ok: bool, raw: seq<byte>)
      requires Valid() && start <= pos && (capture ==> soFar == [QUOTE] + data[start..pos])
      modifies this
      ensures Valid() && pos >= old(pos)
      ensures ok <==> CharWidth([BACKSLASH] + old(Rest())) > 0
      ensures ok ==> pos == old(pos) + CharWidth([BACKSLASH] + old(Rest())) - 1
      ensures capture ==> raw == [QUOTE] + data[start..pos]
    {
      ghost var here := [BACKSLASH] + Rest();
      var escape;
      escape, raw := ReadCaptured(capture, soFar, start);
      if escape.None? { return false, raw; }
      if IsEscape(escape.value) { return true, raw; }
      if escape.value != LOWER_U { return false, raw; }
      assert Rest() == here[2..];
      ok, raw := ScanHex(capture, raw, start);
    }

    // moduleJSONString, just after the opening quote. A captured text keeps both quotes and is bounded.
    method ModuleJsonString(capture: bool) returns (ok: bool, raw: seq<byte>)
      requires Valid()
      modifies this
      ensures Valid() && pos >= old(pos)
      ensures var r := ScanString(old(Rest()));
              && (ok <==> r.Some? && (capture ==> |old(Rest())| - |r.value| + 1 <= MAX_KEY))
              && (ok ==> Rest() == r.value)
      ensures ok && capture ==> raw == [QUOTE] + data[old(pos)..pos]
    {
      hide ScanString, CharWidth;
      ghost var start, want := pos, ScanString(Rest());
      raw := if capture then [QUOTE] else [];
      while true
        invariant Valid() && start <= pos
        invariant ScanString(Rest()) == want
        invariant capture ==> raw == [QUOTE] + data[start..pos]
        decreases |data| - pos
      {
        ghost var here, at := Rest(), pos;
        ScanStringStep(here);
        CharStep(here);
        var c;
        c, raw := ReadCaptured(capture, raw, start);
        if c.None? { return false, raw; }
        if capture && |raw| > MAX_KEY { return false, raw; }
        if c.value == QUOTE { return true, raw; }
        if c.value < 0x20 { return false, raw; }
        ghost var width := CharWidth(here);
        assert want == if width == 0 then None else ScanString(here[width..]);
        if c.value == BACKSLASH {
          var valid;
          valid, raw := ScanEscape(capture, raw, start);
          if !valid { return false, raw; }
        }
        DropTwice(data, at, width);
      }
    }

    // The number or literal that starts with first; its delimiter is put back.
    method SkipScalar(first: byte) returns (ok: bool)
      requires Valid()
      modifies this
      ensures Valid() && pos >= old(pos)
      ensures var r := ScanScalar([first], old(Rest())); (ok <==> r.Some?) && (ok ==> Rest() == r.value)
    {
      var raw := [first];
      while true
        invariant Valid() && old(pos) <= pos && ScanScalar(raw, Rest()) == ScanScalar([first], old(Rest()))
        decreases |data| - pos
      {
        ghost var here := Rest();
        var c := ReadByte();
        if c.None? { return false; }
        if IsDelimiter(c.value) {
          UnreadByte();
          assert Rest() == here;
          return ValidScalar(raw);
        }
        raw := raw + [c.value];
        if |raw| > MAX_SCALAR { return false; }
      }
    }

    // A nested field name and the colon after it.
    method SkipFieldName() returns (ok: bool)
      requires Valid()
      modifies this
      ensures Valid() && pos >= old(pos)
      ensures var r := SkipKey(old(Rest())); (ok <==> r.Some?) && (ok ==> Rest() == r.value && pos > old(pos))
    {
      var c := JsonNonSpace();
      if c != Some(QUOTE) { return false; }
      var valid, _ := ModuleJsonString(false);
      if !valid { return false; }
      c := JsonNonSpace();
      return c == Some(COLON);
    }

    method SkipModuleJsonValue(depth: nat) returns (ok: bool)
      requires Valid()
      modifies this
      ensures Valid() && pos >= old(pos)
      ensures var r := SkipValue(old(Rest()), depth); (ok <==> r.Some?) && (ok ==> Rest() == r.value)
      decreases |data| - pos, 1
    {
      if depth > MAX_DEPTH { return false; }
      var c := JsonNonSpace();
      if c.None? { return false; }
      if c.value == QUOTE {
        var valid, _ := ModuleJsonString(false);
        return valid;
      }
      if c.value != OPEN_OBJECT && c.value != OPEN_ARRAY {
        ok := SkipScalar(c.value);
        return;
      }
      var named := c.value == OPEN_OBJECT;
      ghost var u := SkipSpace(Rest());
      c := JsonNonSpace();
      if c.None? { return false; }
      if c.value == Closing(named) { return true; }
      UnreadByte();
      assert Rest() == u;
      ok := SkipModuleJsonMembers(named, depth);
    }

    // The loop over the members of a non-empty object or array.
    method SkipModuleJsonMembers(named: bool, depth: nat) returns (ok: bool)
      requires Valid() && depth <= MAX_DEPTH
      modifies this
      ensures Valid() && pos >= old(pos)
      ensures var r := SkipMembers(old(Rest()), named, depth); (ok <==> r.Some?) && (ok ==> Rest() == r.value)
      decreases |data| - pos, 2
    {
      while true
        invariant Valid() && old(pos) <= pos
        invariant SkipMembers(Rest(), named, depth) == SkipMembers(old(Rest()), named, depth)
        decreases |data| - pos
      {
        if named {
          var valid := SkipFieldName();
          if !valid { return false; }
        }
        var skipped := SkipModuleJsonValue(depth + 1);
        if !skipped { return false; }
        var c := JsonNonSpace();
        if c.None? { return false; }
        if c.value == Closing(named) { return true; }
        if c.value != COMMA { return false; }
      }
    }

    // One field name with its colon, bounded and captured without its quotes.
    method ReadFieldName() returns (ok: bool, key: seq<byte>)
      requires Valid()
      modifies this
      ensures Valid() && pos >= old(pos)
      ensures var r := ReadLabel(old(Rest())); (ok <==> r.Some?) && (ok ==> r == Some((key, Rest())) && pos > old(pos))
    {
      var c := JsonNonSpace();
      if c != Some(QUOTE) { return false, []; }
      hide ScanString;
      ghost var start := pos;
      var valid, raw := ModuleJsonString(true);
      if !valid { return false, []; }
      key := raw[1..|raw| - 1];
      KeyBetweenQuotes(data, start, pos, raw);
      c := JsonNonSpace();
      return c == Some(COLON), key;
    }

    // readModuleTags: the tag decoder gets at most TAGS_LIMIT bytes from after the colon of the field whose
    // name folds to "tags".
    method ReadModuleTags<T>(decode: seq<byte> -> Option<T>) returns (tags: Option<T>)
      requires Valid()
      modifies this
      ensures Valid()
      ensures var r := ReadTags(old(Rest()), NamesTags);
              tags == if r.None? then None
                      else decode(if |r.value| <= TAGS_LIMIT then r.value else r.value[..TAGS_LIMIT])
    {
      ghost var want := ReadTags(Rest(), NamesTags);
      var c := JsonNonSpace();
      if c != Some(OPEN_OBJECT) { return None; }
      while true
        invariant Valid() && ReadFields(Rest(), NamesTags) == want
        decreases |data| - pos
      {
        var valid, key := ReadFieldName();
        if !valid { return None; }
        if NamesTags(key) {
          var rest := data[pos..];
          return decode(if |rest| <= TAGS_LIMIT then rest else rest[..TAGS_LIMIT]);
        }
        valid := SkipModuleJsonValue(0);
        if !valid { return None; }
        c := JsonNonSpace();
        if c != Some(COMMA) { return None; }
      }
    }
  }
}
