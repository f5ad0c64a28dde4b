/** The scanner accepts exactly the grammar, and stops right after what it accepted. */
module ModuleJsonCorrect {
  import opened Options
  import opened JsonGrammar
  import opened ModuleName
  import opened ModuleJson

  // ------------------------------------------------------------ space and strings

  lemma {:induction false} SkipSpaceOver(gap: seq<byte>, t: seq<byte>)
    requires Spaces(gap) && (t != [] ==> !IsSpace(t[0]))
    ensures SkipSpace(gap + t) == t
  {
    if gap == [] {
      assert gap + t == t;
    } else {
      SkipSpaceOver(gap[1..], t);
      assert (gap + t)[1..] == gap[1..] + t;
    }
  }

  lemma {:induction false} SkipSpaceSplits(s: seq<byte>) returns (gap: seq<byte>)
    ensures Spaces(gap) && s == gap + SkipSpace(s)
  {
    if s != [] && IsSpace(s[0]) {
      var g := SkipSpaceSplits(s[1..]);
      gap := [s[0]] + g;
      assert s == [s[0]] + s[1..];
    } else {
      gap := [];
    }
  }

  lemma CharWidthOf(c: Char, t: seq<byte>)
    requires CharOk(c)
    ensures CharWidth(CharBytes(c) + t) == |CharBytes(c)|
    ensures (CharBytes(c) + t)[0] != QUOTE
  {
  }

  lemma CharAt(s: seq<byte>) returns (c: Char)
    requires CharWidth(s) > 0 && s[0] != QUOTE
    ensures CharOk(c) && |CharBytes(c)| == CharWidth(s) && s == CharBytes(c) + s[CharWidth(s)..]
  {
    c := if CharWidth(s) == 1 then Plain(s[0])
         else if CharWidth(s) == 2 then Escaped(s[1])
         else Unicode(s[2], s[3], s[4], s[5]);
    assert s[..CharWidth(s)] == CharBytes(c);
  }

  lemma {:induction false} ScanStringOver(cs: seq<Char>, rest: seq<byte>)
    requires CharsOk(cs)
    ensures ScanString(Body(cs) + [QUOTE] + rest) == Some(rest)
  {
    var s := Body(cs) + [QUOTE] + rest;
    if cs == [] {
      assert s[1..] == rest;
    } else {
      var t := Body(cs[1..]) + [QUOTE] + rest;
      assert s == CharBytes(cs[0]) + t;
      CharWidthOf(cs[0], t);
      assert s[|CharBytes(cs[0])|..] == t;
      ScanStringOver(cs[1..], rest);
    }
  }

  lemma BodyCons(c: Char, more: seq<Char>)
    ensures Body([c] + more) == CharBytes(c) + Body(more)
  {
    assert ([c] + more)[1..] == more;
  }

  lemma JoinRight(a: seq<byte>, b: seq<byte>, c: seq<byte>, d: seq<byte>)
    ensures a + (b + c + d) == (a + b) + c + d
  {
  }

  lemma {:induction false} ScanStringSplits(s: seq<byte>) returns (cs: seq<Char>)
    requires ScanString(s).Some?
    ensures CharsOk(cs) && s == Body(cs) + [QUOTE] + ScanString(s).value
    decreases |s|
  {
    if s[0] == QUOTE {
      cs := [];
      assert s == [QUOTE] + s[1..];
    } else {
      var c := CharAt(s);
      var t := s[CharWidth(s)..];
      var more := ScanStringSplits(t);
      cs := [c] + more;
      BodyCons(c, more);
      JoinRight(CharBytes(c), Body(more), [QUOTE], ScanString(t).value);
    }
  }

  // --------------------------------------------------------------------- scalars

  lemma {:induction false} SkipDigitsOver(ds: seq<byte>, t: seq<byte>)
    requires (ds == [] || Digits(ds)) && (t != [] ==> !IsDigit(t[0]))
    ensures SkipDigits(ds + t) == t
  {
    if ds == [] {
      assert ds + t == t;
    } else {
      SkipDigitsOver(ds[1..], t);
      assert (ds + t)[1..] == ds[1..] + t;
    }
  }

  lemma {:induction false} SkipDigitsSplits(s: seq<byte>) returns (ds: seq<byte>)
    ensures (ds == [] || Digits(ds)) && s == ds + SkipDigits(s)
    ensures s != [] && IsDigit(s[0]) ==> ds != [] && ds[0] == s[0]
  {
    if s != [] && IsDigit(s[0]) {
      var d := SkipDigitsSplits(s[1..]);
      ds := [s[0]] + d;
      assert s == [s[0]] + s[1..];
    } else {
      ds := [];
    }
  }

  lemma ValidExponentOver(e: Exponent)
    requires ExponentOk(e)
    ensures ValidExponent(ExponentBytes(e))
    ensures ExponentBytes(e) != [] ==> !IsDigit(ExponentBytes(e)[0]) && ExponentBytes(e)[0] != DOT
  {
    if e.Exponent? {
      var s := ExponentBytes(e);
      SkipDigitsOver(e.digits, []);
      assert e.digits + [] == e.digits;
      assert s[1..] == e.sign + e.digits;
      if e.sign != [] {
        assert s[2..] == e.digits;
      }
    }
  }

  lemma ExponentAt(s: seq<byte>) returns (e: Exponent)
    requires ValidExponent(s)
    ensures ExponentOk(e) && ExponentBytes(e) == s
  {
    if s == [] {
      e := NoExponent;
    } else {
      var sign := if |s| > 1 && (s[1] == PLUS || s[1] == MINUS) then [s[1]] else [];
      var t := s[1 + |sign|..];
      var ds := SkipDigitsSplits(t);
      e := Exponent(s[0], sign, ds);
      assert s == [s[0]] + sign + t;
    }
  }

  lemma ValidFractionOver(frac: seq<byte>, e: Exponent)
    requires (frac == [] || Digits(frac)) && ExponentOk(e)
    ensures var s := (if frac == [] then [] else [DOT] + frac) + ExponentBytes(e);
            ValidFraction(s) && (s != [] ==> !IsDigit(s[0]))
  {
    var x := ExponentBytes(e);
    ValidExponentOver(e);
    if frac == [] {
      assert [] + x == x;
    } else {
      SkipDigitsOver(frac, x);
      FractionJoin(frac, x);
    }
  }

  lemma FractionJoin(frac: seq<byte>, x: seq<byte>)
    ensures ([DOT] + frac + x)[1..] == frac + x
  {
  }

  lemma FractionAt(s: seq<byte>) returns (frac: seq<byte>, e: Exponent)
    requires ValidFraction(s)
    ensures (frac == [] || Digits(frac)) && ExponentOk(e)
    ensures s == (if frac == [] then [] else [DOT] + frac) + ExponentBytes(e)
  {
    if s != [] && s[0] == DOT {
      frac := SkipDigitsSplits(s[1..]);
      e := ExponentAt(SkipDigits(s[1..]));
      assert s == [DOT] + s[1..];
    } else {
      frac := [];
      e := ExponentAt(s);
    }
  }

  lemma ValidNumberOver(minus: bool, whole: seq<byte>, f: seq<byte>)
    requires Digits(whole) && (whole[0] == ZERO ==> whole == [ZERO])
    requires ValidFraction(f) && (f != [] ==> !IsDigit(f[0]))
    ensures ValidNumber((if minus then [MINUS] else []) + (whole + f))
  {
    var t := whole + f;
    var raw := (if minus then [MINUS] else []) + t;
    assert (if minus then raw[1..] else raw) == t;
    SkipDigitsOver(whole, f);
    if whole[0] == ZERO {
      assert t[1..] == f;
    }
  }

  lemma WholeAt(t: seq<byte>) returns (whole: seq<byte>, f: seq<byte>)
    requires t != [] && IsDigit(t[0]) && ValidFraction(if t[0] == ZERO then t[1..] else SkipDigits(t))
    ensures Digits(whole) && (whole[0] == ZERO ==> whole == [ZERO])
    ensures t == whole + f && ValidFraction(f)
  {
    if t[0] == ZERO {
      whole, f := [ZERO], t[1..];
    } else {
      whole := SkipDigitsSplits(t);
      f := SkipDigits(t);
    }
  }

  lemma NumberBytes(minus: bool, whole: seq<byte>, frac: seq<byte>, e: Exponent)
    ensures ScalarBytes(Number(minus, whole, frac, e)) ==
            (if minus then [MINUS] else []) + (whole + ((if frac == [] then [] else [DOT] + frac) + ExponentBytes(e)))
  {
    hide ExponentBytes;
    SumJoin(if minus then [MINUS] else [], whole, if frac == [] then [] else [DOT] + frac, ExponentBytes(e));
  }

  lemma SumJoin(a: seq<byte>, b: seq<byte>, c: seq<byte>, d: seq<byte>)
    ensures a + b + c + d == a + (b + (c + d))
  {
  }

  // json.Valid on a scalar is the number and literal grammar, both ways.
  lemma ValidScalarOver(s: Scalar)
    requires ScalarOk(s)
    ensures ValidScalar(ScalarBytes(s))
  {
    if s.Number? {
      var f := (if s.frac == [] then [] else [DOT] + s.frac) + ExponentBytes(s.exp);
      ValidFractionOver(s.frac, s.exp);
      ValidNumberOver(s.minus, s.whole, f);
      NumberBytes(s.minus, s.whole, s.frac, s.exp);
    }
  }

  lemma ScalarAt(raw: seq<byte>) returns (s: Scalar)
    requires ValidScalar(raw)
    ensures ScalarOk(s) && ScalarBytes(s) == raw
  {
    if raw == TRUE || raw == FALSE || raw == NULL {
      s := Literal(raw);
    } else {
      var minus := raw[0] == MINUS;
      var whole, f := WholeAt(if minus then raw[1..] else raw);
      var frac, e := FractionAt(f);
      s := Number(minus, whole, frac, e);
      NumberBytes(minus, whole, frac, e);
      assert raw == (if minus then [MINUS] else []) + (whole + f);
    }
  }

  // What a scalar is written with: no delimiter anywhere, and a first byte that starts nothing else.
  predicate ScalarByte(b: byte) {
    IsDigit(b) || b == MINUS || b == PLUS || b == DOT || 0x61 <= b <= 0x7A || b == 0x45
  }

  lemma ScalarBytesOnly(s: Scalar)
    requires ScalarOk(s)
    ensures ScalarBytes(s) != [] && AllScalarBytes(ScalarBytes(s))
  {
    if s.Number? {
      AllScalarJoin(if s.minus then [MINUS] else [], s.whole);
      AllScalarJoin((if s.minus then [MINUS] else []) + s.whole, if s.frac == [] then [] else [DOT] + s.frac);
      AllScalarJoin((if s.minus then [MINUS] else []) + s.whole + (if s.frac == [] then [] else [DOT] + s.frac),
                    ExponentBytes(s.exp));
    }
  }

  predicate AllScalarBytes(s: seq<byte>) { forall k :: 0 <= k < |s| ==> ScalarByte(s[k]) }

  lemma AllScalarJoin(a: seq<byte>, b: seq<byte>)
    requires AllScalarBytes(a) && AllScalarBytes(b)
    ensures AllScalarBytes(a + b)
  {
  }

  lemma {:induction false} ScanScalarOver(raw: seq<byte>, tail: seq<byte>, rest: seq<byte>)
    requires (forall k :: 0 <= k < |tail| ==> !IsDelimiter(tail[k])) && |raw| + |tail| <= MAX_SCALAR
    requires ValidScalar(raw + tail) && rest != [] && IsDelimiter(rest[0])
    ensures ScanScalar(raw, tail + rest) == Some(rest)
    decreases |tail|
  {
    if tail == [] {
      assert raw + tail == raw && tail + rest == rest;
    } else {
      assert (tail + rest)[1..] == tail[1..] + rest;
      assert raw + tail == (raw + [tail[0]]) + tail[1..];
      ScanScalarOver(raw + [tail[0]], tail[1..], rest);
    }
  }

  lemma JoinOne(a: seq<byte>, b: byte, c: seq<byte>)
    ensures a + ([b] + c) == (a + [b]) + c
  {
  }

  lemma HeadJoin(s: seq<byte>, more: seq<byte>, rest: seq<byte>)
    requires s != [] && s[1..] == more + rest
    ensures s == ([s[0]] + more) + rest
  {
    assert s == [s[0]] + s[1..];
  }

  lemma {:induction false} ScanScalarSplits(raw: seq<byte>, s: seq<byte>) returns (tail: seq<byte>)
    requires ScanScalar(raw, s).Some? && |raw| <= MAX_SCALAR
    ensures var rest := ScanScalar(raw, s).value; s == tail + rest && rest != [] && IsDelimiter(rest[0])
    ensures ValidScalar(raw + tail) && |raw + tail| <= MAX_SCALAR
    decreases |s|
  {
    hide ValidScalar, IsDelimiter;
    if IsDelimiter(s[0]) {
      tail := [];
      assert raw + tail == raw;
    } else {
      var more := ScanScalarSplits(raw + [s[0]], s[1..]);
      tail := [s[0]] + more;
      JoinOne(raw, s[0], more);
      HeadJoin(s, more, ScanScalar(raw, s).value);
    }
  }

  // ---------------------------------------------------------------------- values

  // White space, then one well-formed value that fits under the depth limit; a scalar must be delimited.
  ghost predicate IsValue(s: seq<byte>, rest: seq<byte>, depth: nat) {
    exists gap, v :: Spaces(gap) && Fits(v, depth) && Delimited(v, rest) && s == gap + JsonBytes(v) + rest
  }

  predicate Fits(v: Json, depth: nat) {
    JsonOk(v, MAX_SCALAR) && depth + Depth(v) <= MAX_DEPTH
  }

  predicate Delimited(v: Json, rest: seq<byte>) {
    v.JsonScalar? ==> rest != [] && IsDelimiter(rest[0])
  }

  lemma ValueHead(v: Json)
    requires JsonOk(v, MAX_SCALAR)
    ensures JsonBytes(v) != []
    ensures var b := JsonBytes(v)[0];
            && !IsSpace(b) && b != CLOSE_OBJECT && b != CLOSE_ARRAY
            && (b == QUOTE <==> v.JsonString?)
            && (b == OPEN_OBJECT || b == OPEN_ARRAY <==> v.JsonEmpty? || v.JsonNest?)
  {
    if v.JsonScalar? {
      ScalarBytesOnly(v.scalar);
    }
  }

  lemma SkipSpaceTwice(s: seq<byte>, named: bool, depth: nat)
    ensures SkipSpace(SkipSpace(s)) == SkipSpace(s)
    ensures SkipKey(SkipSpace(s)) == SkipKey(s)
    ensures SkipValue(SkipSpace(s), depth) == SkipValue(s, depth)
    ensures SkipMembers(SkipSpace(s), named, depth) == SkipMembers(s, named, depth)
  {
    var t := SkipSpace(s);
    assert SkipSpace(t) == t;
    SkipValueIgnoresSpace(s, t, depth);
    SkipValueIgnoresSpace(s, t, depth + 1);
  }

  lemma SkipValueIgnoresSpace(s: seq<byte>, t: seq<byte>, depth: nat)
    requires SkipSpace(s) == SkipSpace(t)
    ensures SkipValue(s, depth) == SkipValue(t, depth)
  {
  }

  lemma SkipKeyOver(l: Label, t: seq<byte>)
    requires LabelOk(l)
    ensures SkipKey(LabelBytes(l) + t) == Some(t)
  {
    var afterKey := l.mid + ([COLON] + t);
    var quoted := [QUOTE] + (Body(l.chars) + [QUOTE] + afterKey);
    assert LabelBytes(l) + t == l.lead + quoted;
    SkipSpaceOver(l.lead, quoted);
    assert quoted[1..] == Body(l.chars) + [QUOTE] + afterKey;
    ScanStringOver(l.chars, afterKey);
    SkipSpaceOver(l.mid, [COLON] + t);
    assert ([COLON] + t)[1..] == t;
  }

  lemma SkipScalarOver(sc: Scalar, rest: seq<byte>)
    requires ScalarOk(sc) && |ScalarBytes(sc)| <= MAX_SCALAR && rest != [] && IsDelimiter(rest[0])
    ensures var b := ScalarBytes(sc); b != [] && ScanScalar([b[0]], b[1..] + rest) == Some(rest)
  {
    var b := ScalarBytes(sc);
    ScalarBytesOnly(sc);
    ValidScalarOver(sc);
    assert [b[0]] + b[1..] == b;
    ScanScalarOver([b[0]], b[1..], rest);
  }

  // A text that does not start with white space is read from its first byte.
  lemma SkipSpaceStays(t: seq<byte>)
    requires t != [] && !IsSpace(t[0])
    ensures SkipSpace(t) == t
  {
  }

  lemma SkipStringValue(cs: seq<Char>, rest: seq<byte>, depth: nat)
    requires CharsOk(cs) && depth <= MAX_DEPTH
    ensures SkipValue(Quoted(cs) + rest, depth) == Some(rest)
  {
    var t := Quoted(cs) + rest;
    SkipSpaceStays(t);
    assert t[1..] == Body(cs) + [QUOTE] + rest;
    ScanStringOver(cs, rest);
  }

  lemma SkipScalarValue(sc: Scalar, rest: seq<byte>, depth: nat)
    requires ScalarOk(sc) && |ScalarBytes(sc)| <= MAX_SCALAR && rest != [] && IsDelimiter(rest[0])
    requires depth <= MAX_DEPTH
    ensures SkipValue(ScalarBytes(sc) + rest, depth) == Some(rest)
  {
    hide ScalarBytes, ScalarOk, ScanScalar, ScanString, SkipMembers;
    var t := ScalarBytes(sc) + rest;
    ValueHead(JsonScalar(sc));
    SkipSpaceStays(t);
    SkipScalarOver(sc, rest);
    assert t[1..] == ScalarBytes(sc)[1..] + rest;
  }

  lemma SkipEmptyValue(named: bool, g: seq<byte>, rest: seq<byte>, depth: nat)
    requires Spaces(g) && depth <= MAX_DEPTH
    ensures SkipValue([Opening(named)] + g + [Closing(named)] + rest, depth) == Some(rest)
  {
    var t := [Opening(named)] + g + [Closing(named)] + rest;
    SkipSpaceStays(t);
    assert t[1..] == g + ([Closing(named)] + rest);
    SkipSpaceOver(g, [Closing(named)] + rest);
  }

  lemma SkipNestValue(named: bool, u: seq<byte>, rest: seq<byte>, depth: nat)
    requires SkipSpace(u) != [] && SkipSpace(u)[0] != Closing(named) && depth <= MAX_DEPTH
    requires SkipMembers(u, named, depth) == Some(rest)
    ensures SkipValue([Opening(named)] + u, depth) == Some(rest)
  {
    var t := [Opening(named)] + u;
    SkipSpaceStays(t);
    assert t[1..] == u;
    SkipSpaceTwice(u, named, depth);
  }

  lemma Join3(a: seq<byte>, b: seq<byte>, c: seq<byte>)
    ensures (a + b) + c == a + (b + c)
  {
  }

  lemma {:induction false} SkipValueOver(gap: seq<byte>, v: Json, rest: seq<byte>, depth: nat)
    requires Spaces(gap) && Fits(v, depth) && Delimited(v, rest)
    ensures SkipValue(gap + JsonBytes(v) + rest, depth) == Some(rest)
    decreases v, 2
  {
    var t := JsonBytes(v) + rest;
    match v {
      case JsonString(cs) =>
        SkipStringValue(cs, rest, depth);
      case JsonScalar(sc) =>
        SkipScalarValue(sc, rest, depth);
      case JsonEmpty(named, g) =>
        SkipEmptyValue(named, g, rest, depth);
      case JsonNest(named, ms) =>
        SkipNestOver(named, ms, rest, depth);
    }
    ValueHead(v);
    Join3(gap, JsonBytes(v), rest);
    SkipSpaceOver(gap, t);
    SkipSpaceStays(t);
    SkipValueIgnoresSpace(gap + t, t, depth);
  }

  lemma {:induction false} SkipNestOver(named: bool, ms: Members, rest: seq<byte>, depth: nat)
    requires MembersOk(named, ms, MAX_SCALAR) && depth + 1 + MembersDepth(ms) <= MAX_DEPTH
    ensures SkipValue(JsonBytes(JsonNest(named, ms)) + rest, depth) == Some(rest)
    decreases ms, 5
  {
    var body := MembersBytes(named, ms);
    var close := [Closing(named)];
    SkipMembersOver(named, ms, rest, depth);
    MembersHead(named, ms, close + rest);
    Join3(body, close, rest);
    SkipNestValue(named, body + close + rest, rest, depth);
    NestJoin([Opening(named)], body, close, rest);
  }

  lemma NestJoin(o: seq<byte>, body: seq<byte>, c: seq<byte>, rest: seq<byte>)
    ensures (o + body + c) + rest == o + (body + c + rest)
  {
  }

  lemma KeyHead(l: Label, t: seq<byte>)
    requires Spaces(l.lead)
    ensures var u := SkipSpace(LabelBytes(l) + t); u != [] && u[0] == QUOTE
  {
    var u := Quoted(l.chars) + (l.mid + [COLON] + t);
    assert LabelBytes(l) + t == l.lead + u;
    SkipSpaceOver(l.lead, u);
  }

  // What follows the first member of a list.
  function AfterMember(named: bool, ms: Members): seq<byte> {
    if ms.More? then [COMMA] + MembersBytes(named, ms.rest) else []
  }

  lemma MembersSplit(named: bool, ms: Members, t: seq<byte>)
    ensures MembersBytes(named, ms) + t == MemberBytes(named, ms.member) + (AfterMember(named, ms) + t)
  {
    Join3(MemberBytes(named, ms.member), AfterMember(named, ms), t);
  }

  lemma MemberSplit(named: bool, m: Member, t: seq<byte>)
    ensures MemberBytes(named, m) + t ==
            (if named then LabelBytes(m.name) + (m.pre + (JsonBytes(m.value) + (m.post + t)))
             else m.pre + (JsonBytes(m.value) + (m.post + t)))
  {
    MemberJoin(if named then LabelBytes(m.name) else [], m.pre, JsonBytes(m.value), m.post, t);
  }

  lemma MemberJoin(k: seq<byte>, a: seq<byte>, b: seq<byte>, c: seq<byte>, t: seq<byte>)
    ensures (k + a + b + c) + t == k + (a + (b + (c + t)))
    ensures k == [] ==> (k + a + b + c) + t == a + (b + (c + t))
  {
  }

  lemma MemberHead(named: bool, m: Member, t: seq<byte>)
    requires MemberOk(named, m, MAX_SCALAR)
    ensures var u := SkipSpace(MemberBytes(named, m) + t); u != [] && u[0] != Closing(named)
  {
    MemberSplit(named, m, t);
    ValueHead(m.value);
    if named {
      KeyHead(m.name, m.pre + (JsonBytes(m.value) + (m.post + t)));
    } else {
      SkipSpaceOver(m.pre, JsonBytes(m.value) + (m.post + t));
    }
  }

  // The first byte of a member list that is not white space does not close the list.
  lemma MembersHead(named: bool, ms: Members, t: seq<byte>)
    requires MembersOk(named, ms, MAX_SCALAR)
    ensures var u := SkipSpace(MembersBytes(named, ms) + t); u != [] && u[0] != Closing(named)
  {
    MembersSplit(named, ms, t);
    MemberHead(named, ms.member, AfterMember(named, ms) + t);
  }

  lemma {:induction false} SkipMemberOver(named: bool, m: Member, t: seq<byte>, depth: nat)
    requires MemberOk(named, m, MAX_SCALAR) && depth + 1 + Depth(m.value) <= MAX_DEPTH
    requires t != [] && (t[0] == COMMA || t[0] == Closing(named))
    ensures var k := if named then SkipKey(MemberBytes(named, m) + t) else Some(MemberBytes(named, m) + t);
            k.Some? && SkipValue(k.value, depth + 1) == Some(m.post + t)
    ensures SkipSpace(m.post + t) == t
    decreases m, 3
  {
    MemberSplit(named, m, t);
    if named {
      SkipKeyOver(m.name, m.pre + (JsonBytes(m.value) + (m.post + t)));
    }
    Join3(m.pre, JsonBytes(m.value), m.post + t);
    SkipValueOver(m.pre, m.value, m.post + t, depth + 1);
    SkipSpaceOver(m.post, t);
  }

  lemma SkipMembersUnfold(named: bool, m: Member, t: seq<byte>, depth: nat)
    requires MemberOk(named, m, MAX_SCALAR) && depth + 1 + Depth(m.value) <= MAX_DEPTH
    requires t != [] && (t[0] == COMMA || t[0] == Closing(named))
    requires var k := if named then SkipKey(MemberBytes(named, m) + t) else Some(MemberBytes(named, m) + t);
             k.Some? && SkipValue(k.value, depth + 1) == Some(m.post + t)
    requires SkipSpace(m.post + t) == t
    ensures SkipMembers(MemberBytes(named, m) + t, named, depth) ==
            if t[0] == Closing(named) then Some(t[1..]) else SkipMembers(t[1..], named, depth)
  {
  }

  lemma {:induction false} SkipMembersOver(named: bool, ms: Members, rest: seq<byte>, depth: nat)
    requires MembersOk(named, ms, MAX_SCALAR) && depth + 1 + MembersDepth(ms) <= MAX_DEPTH
    ensures SkipMembers(MembersBytes(named, ms) + [Closing(named)] + rest, named, depth) == Some(rest)
    decreases ms, 4
  {
    var m := ms.member;
    var t := AfterMember(named, ms) + ([Closing(named)] + rest);
    MembersSplit(named, ms, [Closing(named)] + rest);
    Join3(MembersBytes(named, ms), [Closing(named)], rest);
    SkipMemberOver(named, m, t, depth);
    SkipMembersUnfold(named, m, t, depth);
    if ms.More? {
      SkipMembersOver(named, ms.rest, rest, depth);
      AfterComma(MembersBytes(named, ms.rest), [Closing(named)], rest);
    } else {
      AfterClose([Closing(named)], rest);
    }
  }

  lemma AfterComma(body: seq<byte>, c: seq<byte>, rest: seq<byte>)
    ensures (([COMMA] + body) + (c + rest))[1..] == body + c + rest
  {
  }

  lemma AfterClose(c: seq<byte>, rest: seq<byte>)
    requires |c| == 1
    ensures ([] + (c + rest))[1..] == rest
  {
  }

  // -------------------------------------------------------- what was skipped parses

  lemma SkipKeySplits(s: seq<byte>) returns (l: Label)
    requires SkipKey(s).Some?
    ensures LabelOk(l) && s == LabelBytes(l) + SkipKey(s).value
  {
    var lead := SkipSpaceSplits(s);
    var t := SkipSpace(s);
    var chars := ScanStringSplits(t[1..]);
    var after := ScanString(t[1..]).value;
    var mid := SkipSpaceSplits(after);
    var u := SkipSpace(after);
    l := Label(lead, chars, mid);
    LabelJoin(lead, Body(chars), mid, t, after, u);
  }

  lemma LabelJoin(lead: seq<byte>, body: seq<byte>, mid: seq<byte>, t: seq<byte>, after: seq<byte>, u: seq<byte>)
    requires t != [] && t[0] == QUOTE && t[1..] == body + [QUOTE] + after
    requires after == mid + u && u != [] && u[0] == COLON
    ensures lead + t == (lead + ([QUOTE] + body + [QUOTE]) + mid + [COLON]) + u[1..]
  {
    assert u == [COLON] + u[1..];
    assert t == [QUOTE] + (body + [QUOTE] + (mid + ([COLON] + u[1..])));
  }

  lemma ScalarValueSplits(t: seq<byte>) returns (v: Json)
    requires t != [] && ScanScalar([t[0]], t[1..]).Some?
    ensures var rest := ScanScalar([t[0]], t[1..]).value; t == JsonBytes(v) + rest && Delimited(v, rest)
    ensures v.JsonScalar? && JsonOk(v, MAX_SCALAR)
  {
    var tail := ScanScalarSplits([t[0]], t[1..]);
    var sc := ScalarAt([t[0]] + tail);
    v := JsonScalar(sc);
    assert t == [t[0]] + t[1..];
    Join3([t[0]], tail, ScanScalar([t[0]], t[1..]).value);
  }

  lemma {:induction false} SkipValueSplits(s: seq<byte>, depth: nat) returns (gap: seq<byte>, v: Json)
    requires SkipValue(s, depth).Some?
    ensures Spaces(gap) && Fits(v, depth) && Delimited(v, SkipValue(s, depth).value)
    ensures s == gap + JsonBytes(v) + SkipValue(s, depth).value
    decreases |s|, 0
  {
    gap := SkipSpaceSplits(s);
    var t := SkipSpace(s);
    var rest := SkipValue(s, depth).value;
    assert t == [t[0]] + t[1..];
    if t[0] == QUOTE {
      var chars := ScanStringSplits(t[1..]);
      v := JsonString(chars);
      StringJoin(Body(chars), rest);
    } else if t[0] == OPEN_OBJECT || t[0] == OPEN_ARRAY {
      v := SkipNestSplits(t, depth);
    } else {
      v := ScalarValueSplits(t);
    }
    Join3(gap, JsonBytes(v), rest);
  }

  lemma StringJoin(body: seq<byte>, rest: seq<byte>)
    ensures [QUOTE] + (body + [QUOTE] + rest) == ([QUOTE] + body + [QUOTE]) + rest
  {
  }

  lemma {:induction false} SkipNestSplits(t: seq<byte>, depth: nat) returns (v: Json)
    requires t != [] && (t[0] == OPEN_OBJECT || t[0] == OPEN_ARRAY) && SkipValue(t, depth).Some?
    ensures Fits(v, depth) && !v.JsonScalar? && t == JsonBytes(v) + SkipValue(t, depth).value
    decreases |t| - 1, 3
  {
    var named := t[0] == OPEN_OBJECT;
    var rest := SkipValue(t, depth).value;
    SkipSpaceStays(t);
    var gap := SkipSpaceSplits(t[1..]);
    var u := SkipSpace(t[1..]);
    if u[0] == Closing(named) {
      v := JsonEmpty(named, gap);
      EmptyJoin(t, gap, u, rest);
    } else {
      var ms := SkipMembersSplits(u, named, depth);
      var led := LeadMembers(named, ms, gap);
      v := JsonNest(named, led);
      LedJoin(t, gap, MembersBytes(named, ms), [Closing(named)], rest);
    }
  }

  lemma EmptyJoin(t: seq<byte>, gap: seq<byte>, u: seq<byte>, rest: seq<byte>)
    requires t != [] && t[1..] == gap + u && u != [] && u[1..] == rest
    ensures t == ([t[0]] + gap + [u[0]]) + rest
  {
    assert u == [u[0]] + rest;
  }

  lemma LedJoin(t: seq<byte>, gap: seq<byte>, body: seq<byte>, c: seq<byte>, rest: seq<byte>)
    requires t != [] && t[1..] == gap + (body + (c + rest))
    ensures t == ([t[0]] + (gap + body) + c) + rest
  {
    assert t == [t[0]] + t[1..];
  }

  // White space in front of a member list belongs to its first member.
  lemma LeadMembers(named: bool, ms: Members, gap: seq<byte>) returns (r: Members)
    requires MembersOk(named, ms, MAX_SCALAR) && Spaces(gap)
    ensures MembersOk(named, r, MAX_SCALAR) && MembersDepth(r) == MembersDepth(ms)
    ensures MembersBytes(named, r) == gap + MembersBytes(named, ms)
  {
    var m := ms.member;
    var n := if named then m.(name := m.name.(lead := gap + m.name.lead)) else m.(pre := gap + m.pre);
    r := if ms.More? then More(n, ms.rest) else Last(n);
    LeadMember(named, m, n, gap);
    Join3(gap, MemberBytes(named, m), AfterMember(named, ms));
  }

  lemma LeadMember(named: bool, m: Member, n: Member, gap: seq<byte>)
    requires n == if named then m.(name := m.name.(lead := gap + m.name.lead)) else m.(pre := gap + m.pre)
    ensures MemberBytes(named, n) == gap + MemberBytes(named, m)
  {
    hide JsonBytes, LabelBytes;
    if named {
      LeadLabel(m.name, gap);
      LeadJoin(gap, LabelBytes(m.name), m.pre, JsonBytes(m.value), m.post);
    } else {
      LeadNothing(gap, m.pre, JsonBytes(m.value), m.post);
    }
  }

  lemma LeadLabel(l: Label, gap: seq<byte>)
    ensures LabelBytes(l.(lead := gap + l.lead)) == gap + LabelBytes(l)
  {
    hide Quoted;
    LeadJoin(gap, l.lead, Quoted(l.chars), l.mid, [COLON]);
  }

  lemma LeadJoin(gap: seq<byte>, a: seq<byte>, b: seq<byte>, c: seq<byte>, d: seq<byte>)
    ensures (gap + a) + b + c + d == gap + (a + b + c + d)
  {
  }

  lemma LeadNothing(gap: seq<byte>, a: seq<byte>, b: seq<byte>, c: seq<byte>)
    ensures [] + (gap + a) + b + c == gap + ([] + a + b + c)
  {
  }

  lemma {:induction false} SkipMemberSplits(s: seq<byte>, named: bool, depth: nat) returns (m: Member, t: seq<byte>)
    requires SkipMembers(s, named, depth).Some?
    ensures MemberOk(named, m, MAX_SCALAR) && depth + 1 + Depth(m.value) <= MAX_DEPTH
    ensures s == MemberBytes(named, m) + t && t != [] && |t| < |s|
    ensures SkipMembers(s, named, depth) ==
            if t[0] == Closing(named) then Some(t[1..])
            else if t[0] == COMMA then SkipMembers(t[1..], named, depth) else None
    decreases |s|, 1
  {
    var name, k := BLANK, s;
    if named {
      name := SkipKeySplits(s);
      k := SkipKey(s).value;
    }
    var pre, value := SkipValueSplits(k, depth + 1);
    var after := SkipValue(k, depth + 1).value;
    var post := SkipSpaceSplits(after);
    t := SkipSpace(after);
    m := Member(name, pre, value, post);
    Join3(pre, JsonBytes(value), after);
    MemberSplit(named, m, t);
  }

  lemma {:induction false} SkipMembersSplits(s: seq<byte>, named: bool, depth: nat) returns (ms: Members)
    requires SkipMembers(s, named, depth).Some?
    ensures MembersOk(named, ms, MAX_SCALAR) && depth + 1 + MembersDepth(ms) <= MAX_DEPTH
    ensures s == MembersBytes(named, ms) + ([Closing(named)] + SkipMembers(s, named, depth).value)
    decreases |s|, 2
  {
    var m, t := SkipMemberSplits(s, named, depth);
    var rest := SkipMembers(s, named, depth).value;
    var close := [Closing(named)];
    if t[0] == Closing(named) {
      ms := Last(m);
      LastJoin(MemberBytes(named, m), t, close, rest);
    } else {
      var more := SkipMembersSplits(t[1..], named, depth);
      ms := More(m, more);
      MoreJoin(MemberBytes(named, m), t, MembersBytes(named, more), close, rest);
    }
  }

  lemma LastJoin(m: seq<byte>, t: seq<byte>, close: seq<byte>, rest: seq<byte>)
    requires t != [] && close == [t[0]] && t[1..] == rest
    ensures m + t == (m + []) + (close + rest)
  {
  }

  lemma MoreJoin(m: seq<byte>, t: seq<byte>, body: seq<byte>, close: seq<byte>, rest: seq<byte>)
    requires t != [] && t[0] == COMMA && t[1..] == body + (close + rest)
    ensures m + t == (m + ([COMMA] + body)) + (close + rest)
  {
    assert t == [COMMA] + t[1..];
  }

  // The skipper succeeds on exactly white space and one JSON value, and stops right after it.
  lemma SkipValueExact(s: seq<byte>, rest: seq<byte>, depth: nat)
    ensures SkipValue(s, depth) == Some(rest) <==> IsValue(s, rest, depth)
  {
    if SkipValue(s, depth) == Some(rest) {
      var gap, v := SkipValueSplits(s, depth);
    }
    if IsValue(s, rest, depth) {
      var gap, v :| Spaces(gap) && Fits(v, depth) && Delimited(v, rest) && s == gap + JsonBytes(v) + rest;
      SkipValueOver(gap, v, rest, depth);
    }
  }

  // Hence the text and the depth allowed determine where the value ends.
  lemma ValueEndIsUnique(s: seq<byte>, rest: seq<byte>, other: seq<byte>, depth: nat)
    requires IsValue(s, rest, depth) && IsValue(s, other, depth)
    ensures rest == other
  {
    SkipValueExact(s, rest, depth);
    SkipValueExact(s, other, depth);
  }

  // --------------------------------------------------------------- the module file

  // A field that readModuleTags passes over: not tags, with a name and a value inside the limits.
  predicate PassedOver(f: Member, isTags: seq<byte> -> bool) {
    && MemberOk(true, f, MAX_SCALAR) && Depth(f.value) <= MAX_DEPTH
    && |Body(f.name.chars)| + 2 <= MAX_KEY && !isTags(Body(f.name.chars))
  }

  predicate TagsLabel(l: Label, isTags: seq<byte> -> bool) {
    LabelOk(l) && |Body(l.chars)| + 2 <= MAX_KEY && isTags(Body(l.chars))
  }

  function FieldsBytes(fs: seq<Member>): seq<byte> {
    if fs == [] then [] else MemberBytes(true, fs[0]) + [COMMA] + FieldsBytes(fs[1..])
  }

  // The file is an object whose first field named tags is followed by rest, after the fields fs.
  ghost predicate TagsAt(s: seq<byte>, rest: seq<byte>, isTags: seq<byte> -> bool) {
    exists gap, fs, l :: Spaces(gap) && (forall f <- fs :: PassedOver(f, isTags)) && TagsLabel(l, isTags)
      && s == gap + [OPEN_OBJECT] + FieldsBytes(fs) + LabelBytes(l) + rest
  }

  lemma ScanKeyOver(chars: seq<Char>, rest: seq<byte>)
    requires CharsOk(chars) && |Body(chars)| + 2 <= MAX_KEY
    ensures ScanKey(Body(chars) + [QUOTE] + rest) == Some((Body(chars), rest))
  {
    ScanStringOver(chars, rest);
    var s := Body(chars) + [QUOTE] + rest;
    assert s[..|s| - |rest| - 1] == Body(chars);
  }

  // One field name, read as readModuleTags reads it.
  lemma FieldLabelOver(l: Label, t: seq<byte>, isTags: seq<byte> -> bool)
    requires LabelOk(l) && |Body(l.chars)| + 2 <= MAX_KEY
    ensures ReadFields(LabelBytes(l) + t, isTags) ==
            if isTags(Body(l.chars)) then Some(t) else AfterField(SkipValue(t, 0), isTags)
  {
    var afterKey := l.mid + ([COLON] + t);
    var quoted := [QUOTE] + (Body(l.chars) + [QUOTE] + afterKey);
    LabelJoin(l.lead, Body(l.chars), l.mid, quoted, afterKey, [COLON] + t);
    assert ([COLON] + t)[1..] == t;
    assert quoted[1..] == Body(l.chars) + [QUOTE] + afterKey;
    SkipSpaceOver(l.lead, quoted);
    ScanKeyOver(l.chars, afterKey);
    SkipSpaceOver(l.mid, [COLON] + t);
  }

  // What readModuleTags does after the value of a field it passes over.
  function AfterField(v: Option<seq<byte>>, isTags: seq<byte> -> bool): Option<seq<byte>> {
    if v.None? then None else
    var w := SkipSpace(v.value);
    if w == [] || w[0] != COMMA then None else ReadFields(w[1..], isTags)
  }

  lemma FieldOver(f: Member, t: seq<byte>, isTags: seq<byte> -> bool)
    requires PassedOver(f, isTags)
    ensures ReadFields(MemberBytes(true, f) + ([COMMA] + t), isTags) == ReadFields(t, isTags)
  {
    MemberSplit(true, f, [COMMA] + t);
    var after := f.post + ([COMMA] + t);
    FieldLabelOver(f.name, f.pre + (JsonBytes(f.value) + after), isTags);
    Join3(f.pre, JsonBytes(f.value), after);
    SkipValueOver(f.pre, f.value, after, 0);
    SkipSpaceOver(f.post, [COMMA] + t);
    assert ([COMMA] + t)[1..] == t;
  }

  lemma {:induction false} FieldsOver(fs: seq<Member>, t: seq<byte>, isTags: seq<byte> -> bool)
    requires forall f <- fs :: PassedOver(f, isTags)
    ensures ReadFields(FieldsBytes(fs) + t, isTags) == ReadFields(t, isTags)
  {
    if fs == [] {
      assert FieldsBytes(fs) + t == t;
    } else {
      FieldsOver(fs[1..], t, isTags);
      FieldOver(fs[0], FieldsBytes(fs[1..]) + t, isTags);
      FieldsJoin(MemberBytes(true, fs[0]), FieldsBytes(fs[1..]), t);
    }
  }

  lemma FieldsJoin(a: seq<byte>, b: seq<byte>, t: seq<byte>)
    ensures (a + [COMMA] + b) + t == a + ([COMMA] + (b + t))
  {
  }

  // If ReadFields finds tags, what it passed over were fields.
  lemma {:induction false} FieldsSplit(s: seq<byte>, isTags: seq<byte> -> bool) returns (fs: seq<Member>, l: Label)
    requires ReadFields(s, isTags).Some?
    ensures (forall f <- fs :: PassedOver(f, isTags)) && TagsLabel(l, isTags)
    ensures s == FieldsBytes(fs) + (LabelBytes(l) + ReadFields(s, isTags).value)
    decreases |s|
  {
    var name, u := FieldLabelSplit(s, isTags);
    FieldLabelOver(name, u, isTags);
    if isTags(Body(name.chars)) {
      fs, l := [], name;
      assert [] + s == s;
    } else {
      var pre, value := SkipValueSplits(u, 0);
      var after := SkipValue(u, 0).value;
      var post := SkipSpaceSplits(after);
      var t := SkipSpace(after);
      var f := Member(name, pre, value, post);
      Join3(pre, JsonBytes(value), after);
      MemberSplit(true, f, t);
      assert t == [COMMA] + t[1..];
      var more;
      more, l := FieldsSplit(t[1..], isTags);
      fs := [f] + more;
      assert fs[1..] == more;
      FieldsJoin(MemberBytes(true, f), FieldsBytes(more), LabelBytes(l) + ReadFields(s, isTags).value);
    }
  }

  lemma FieldLabelSplit(s: seq<byte>, isTags: seq<byte> -> bool) returns (l: Label, u: seq<byte>)
    requires ReadFields(s, isTags).Some?
    ensures LabelOk(l) && |Body(l.chars)| + 2 <= MAX_KEY && s == LabelBytes(l) + u && |u| < |s|
  {
    var lead := SkipSpaceSplits(s);
    var t := SkipSpace(s);
    var chars := ScanStringSplits(t[1..]);
    var after := ScanString(t[1..]).value;
    var mid := SkipSpaceSplits(after);
    var colon := SkipSpace(after);
    l, u := Label(lead, chars, mid), colon[1..];
    LabelJoin(lead, Body(chars), mid, t, after, colon);
  }

  // The tag decoder is started exactly when the file opens an object that has a field named tags after
  // fields inside the limits, and it is given what follows the colon of the first such field.
  lemma ReadTagsExact(s: seq<byte>, rest: seq<byte>, isTags: seq<byte> -> bool)
    ensures ReadTags(s, isTags) == Some(rest) <==> TagsAt(s, rest, isTags)
  {
    if ReadTags(s, isTags) == Some(rest) {
      var gap := SkipSpaceSplits(s);
      var t := SkipSpace(s);
      var fs, l := FieldsSplit(t[1..], isTags);
      FileJoin(gap, FieldsBytes(fs), LabelBytes(l), rest);
      assert t == [OPEN_OBJECT] + t[1..];
    }
    if TagsAt(s, rest, isTags) {
      var gap, fs, l :| Spaces(gap) && (forall f <- fs :: PassedOver(f, isTags)) && TagsLabel(l, isTags)
        && s == gap + [OPEN_OBJECT] + FieldsBytes(fs) + LabelBytes(l) + rest;
      var t := FieldsBytes(fs) + (LabelBytes(l) + rest);
      FileJoin(gap, FieldsBytes(fs), LabelBytes(l), rest);
      SkipSpaceOver(gap, [OPEN_OBJECT] + t);
      assert ([OPEN_OBJECT] + t)[1..] == t;
      FieldsOver(fs, LabelBytes(l) + rest, isTags);
      FieldLabelOver(l, rest, isTags);
    }
  }

  ghost predicate OtherField(f: Member) {
    && MemberOk(true, f, MAX_SCALAR) && Depth(f.value) <= MAX_DEPTH
    && |Body(f.name.chars)| + 2 <= MAX_KEY && !SpellsTags(Body(f.name.chars))
  }

  ghost predicate SpelledLabel(l: Label) {
    LabelOk(l) && |Body(l.chars)| + 2 <= MAX_KEY && SpellsTags(Body(l.chars))
  }

  // The first field spelled tags, in any case and with any of its letters escaped, is followed by rest.
  ghost predicate TagsFieldAt(s: seq<byte>, rest: seq<byte>) {
    exists gap, fs, l :: Spaces(gap) && (forall f <- fs :: OtherField(f)) && SpelledLabel(l)
      && s == gap + [OPEN_OBJECT] + FieldsBytes(fs) + LabelBytes(l) + rest
  }

  // With the names unescaped and folded: the decoder is started, on rest, exactly when the file is an
  // object whose first field spelled tags follows fields inside the limits and is followed by rest.
  lemma TagsFieldExact(s: seq<byte>, rest: seq<byte>)
    ensures ReadTags(s, NamesTags) == Some(rest) <==> TagsFieldAt(s, rest)
  {
    ReadTagsExact(s, rest, NamesTags);
    hide ReadTags, NamesTags, SpellsTags, MemberOk, Depth, LabelOk;
    forall f: Member
      ensures PassedOver(f, NamesTags) <==> OtherField(f)
    {
      NamesTagsExact(Body(f.name.chars));
    }
    forall l: Label
      ensures TagsLabel(l, NamesTags) <==> SpelledLabel(l)
    {
      NamesTagsExact(Body(l.chars));
    }
    hide PassedOver, OtherField, TagsLabel, SpelledLabel, FieldsBytes, LabelBytes, Spaces;
  }

  lemma FileJoin(gap: seq<byte>, fields: seq<byte>, l: seq<byte>, rest: seq<byte>)
    ensures gap + [OPEN_OBJECT] + fields + l + rest == gap + ([OPEN_OBJECT] + (fields + (l + rest)))
  {
  }
}
