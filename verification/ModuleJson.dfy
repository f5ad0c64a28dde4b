/** What the streaming scanner of node/spawn.go computes, on the bytes still unread:
    each function returns the bytes left after what it consumed, or None on an error. */
module ModuleJson {
  import opened Options
  import opened JsonGrammar

  const MAX_DEPTH: nat := 128
  const MAX_SCALAR: nat := 128
  const MAX_KEY: nat := 65536  // 64 << 10, both quotes included

  predicate IsDelimiter(b: byte) {
    IsSpace(b) || b == COMMA || b == CLOSE_OBJECT || b == CLOSE_ARRAY
  }

  function SkipSpace(s: seq<byte>): (r: seq<byte>)
    ensures |r| <= |s|
    ensures r != [] ==> !IsSpace(r[0])
  {
    if s != [] && IsSpace(s[0]) then SkipSpace(s[1..]) else s
  }

  // What one string character takes: 0 marks an error or the end of input.
  function CharWidth(s: seq<byte>): nat {
    if s == [] || s[0] < 0x20 then 0
    else if s[0] != BACKSLASH then 1
    else if |s| < 2 then 0
    else if IsEscape(s[1]) then 2
    else if s[1] == LOWER_U && |s| >= 6 && IsHex(s[2]) && IsHex(s[3]) && IsHex(s[4]) && IsHex(s[5]) then 6
    else 0
  }

  // From just after an opening quote to just after the closing one.
  function ScanString(s: seq<byte>): (r: Option<seq<byte>>)
    ensures r.Some? ==> |r.value| < |s|
    decreases |s|
  {
    if s != [] && s[0] == QUOTE then Some(s[1..])
    else if CharWidth(s) == 0 then None
    else ScanString(s[CharWidth(s)..])
  }

  // ---- json.Valid on a text that holds no white space and starts none of the other values

  function SkipDigits(s: seq<byte>): (r: seq<byte>)
    ensures |r| <= |s|
    ensures r != [] ==> !IsDigit(r[0])
  {
    if s != [] && IsDigit(s[0]) then SkipDigits(s[1..]) else s
  }

  predicate ValidExponent(s: seq<byte>) {
    s == [] ||
    ((s[0] == 0x65 || s[0] == 0x45) &&
     var t := if |s| > 1 && (s[1] == PLUS || s[1] == MINUS) then s[2..] else s[1..];
     t != [] && IsDigit(t[0]) && SkipDigits(t) == [])
  }

  predicate ValidFraction(s: seq<byte>) {
    if s != [] && s[0] == DOT
    then |s| > 1 && IsDigit(s[1]) && ValidExponent(SkipDigits(s[1..]))
    else ValidExponent(s)
  }

  predicate ValidNumber(s: seq<byte>) {
    var t := if s != [] && s[0] == MINUS then s[1..] else s;
    t != [] && IsDigit(t[0]) && ValidFraction(if t[0] == ZERO then t[1..] else SkipDigits(t))
  }

  predicate ValidScalar(raw: seq<byte>) {
    raw == TRUE || raw == FALSE || raw == NULL || ValidNumber(raw)
  }

  // The rest of a scalar whose first bytes are raw; the delimiter stays unread.
  function ScanScalar(raw: seq<byte>, s: seq<byte>): (r: Option<seq<byte>>)
    ensures r.Some? ==> |r.value| <= |s|
    decreases |s|
  {
    if s == [] then None
    else if IsDelimiter(s[0]) then (if ValidScalar(raw) then Some(s) else None)
    else if |raw| + 1 > MAX_SCALAR then None
    else ScanScalar(raw + [s[0]], s[1..])
  }

  function SkipValue(s: seq<byte>, depth: nat): (r: Option<seq<byte>>)
    ensures r.Some? ==> |r.value| < |s|
    decreases |s|, 0
  {
    if depth > MAX_DEPTH then None else
    var t := SkipSpace(s);
    if t == [] then None
    else if t[0] == QUOTE then ScanString(t[1..])
    else if t[0] == OPEN_OBJECT || t[0] == OPEN_ARRAY then
      var named := t[0] == OPEN_OBJECT;
      var u := SkipSpace(t[1..]);
      if u == [] then None
      else if u[0] == Closing(named) then Some(u[1..])
      else SkipMembers(u, named, depth)
    else ScanScalar([t[0]], t[1..])
  }

  // A nested field name and its colon.
  function SkipKey(s: seq<byte>): (r: Option<seq<byte>>)
    ensures r.Some? ==> |r.value| < |s|
  {
    var t := SkipSpace(s);
    if t == [] || t[0] != QUOTE then None else
    var k := ScanString(t[1..]);
    if k.None? then None else
    var u := SkipSpace(k.value);
    if u == [] || u[0] != COLON then None else Some(u[1..])
  }

  function SkipMembers(s: seq<byte>, named: bool, depth: nat): (r: Option<seq<byte>>)
    ensures r.Some? ==> |r.value| < |s|
    decreases |s|, 1
  {
    var k := if named then SkipKey(s) else Some(s);
    if k.None? then None else
    var v := SkipValue(k.value, depth + 1);
    if v.None? then None else
    var t := SkipSpace(v.value);
    if t == [] then None
    else if t[0] == Closing(named) then Some(t[1..])
    else if t[0] == COMMA then SkipMembers(t[1..], named, depth)
    else None
  }

  // The raw name between the quotes and what follows the closing one.
  function ScanKey(s: seq<byte>): (r: Option<(seq<byte>, seq<byte>)>)
    ensures r.Some? ==> |r.value.1| < |s|
  {
    var k := ScanString(s);
    if k.None? || |s| - |k.value| + 1 > MAX_KEY then None
    else Some((s[..|s| - |k.value| - 1], k.value))
  }

  // readModuleTags, up to the hand-over to the tag decoder: the bytes after the colon of the tags field.
  function ReadTags(s: seq<byte>, isTags: seq<byte> -> bool): Option<seq<byte>> {
    var t := SkipSpace(s);
    if t == [] || t[0] != OPEN_OBJECT then None else ReadFields(t[1..], isTags)
  }

  // A top-level field name, bounded, and what follows its colon.
  function ReadLabel(s: seq<byte>): (r: Option<(seq<byte>, seq<byte>)>)
    ensures r.Some? ==> |r.value.1| < |s|
  {
    var t := SkipSpace(s);
    if t == [] || t[0] != QUOTE then None else
    var k := ScanKey(t[1..]);
    if k.None? then None else
    var u := SkipSpace(k.value.1);
    if u == [] || u[0] != COLON then None else Some((k.value.0, u[1..]))
  }

  function ReadFields(s: seq<byte>, isTags: seq<byte> -> bool): Option<seq<byte>>
    decreases |s|
  {
    var k := ReadLabel(s);
    if k.None? then None
    else if isTags(k.value.0) then Some(k.value.1)
    else
      var v := SkipValue(k.value.1, 0);
      if v.None? then None else
      var w := SkipSpace(v.value);
      if w == [] || w[0] != COMMA then None else ReadFields(w[1..], isTags)
  }
}
