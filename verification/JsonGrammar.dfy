/** JSON texts as RFC 8259, sections 2 to 7, writes them: concrete syntax trees,
    what makes a tree well formed, and the bytes it stands for. Nothing here scans. */
module JsonGrammar {

  type byte = b: int | 0 <= b < 256

  const QUOTE: byte := 0x22
  const PLUS: byte := 0x2B
  const COMMA: byte := 0x2C
  const MINUS: byte := 0x2D
  const DOT: byte := 0x2E
  const ZERO: byte := 0x30
  const NINE: byte := 0x39
  const COLON: byte := 0x3A
  const OPEN_ARRAY: byte := 0x5B
  const BACKSLASH: byte := 0x5C
  const CLOSE_ARRAY: byte := 0x5D
  const LOWER_U: byte := 0x75
  const OPEN_OBJECT: byte := 0x7B
  const CLOSE_OBJECT: byte := 0x7D

  const TRUE: seq<byte> := [0x74, 0x72, 0x75, 0x65]
  const FALSE: seq<byte> := [0x66, 0x61, 0x6C, 0x73, 0x65]
  const NULL: seq<byte> := [0x6E, 0x75, 0x6C, 0x6C]

  predicate IsSpace(b: byte) { b == 0x20 || b == 0x09 || b == 0x0D || b == 0x0A }
  predicate IsDigit(b: byte) { ZERO <= b <= NINE }
  predicate IsHex(b: byte) { IsDigit(b) || 0x61 <= b <= 0x66 || 0x41 <= b <= 0x46 }

  // The two-character escapes: quote, backslash, slash, b, f, n, r, t.
  predicate IsEscape(b: byte) {
    b == QUOTE || b == BACKSLASH || b == 0x2F || b == 0x62 || b == 0x66 || b == 0x6E || b == 0x72 || b == 0x74
  }

  predicate Spaces(s: seq<byte>) { forall k :: 0 <= k < |s| ==> IsSpace(s[k]) }
  predicate Digits(s: seq<byte>) { s != [] && forall k :: 0 <= k < |s| ==> IsDigit(s[k]) }

  // ------------------------------------------------------------------- strings

  // Section 7. Bytes from 0x20 up stand for themselves; UTF-8 validity is not asked for.
  datatype Char = Plain(b: byte) | Escaped(b: byte) | Unicode(h1: byte, h2: byte, h3: byte, h4: byte)

  predicate CharOk(c: Char) {
    match c
    case Plain(b) => b >= 0x20 && b != QUOTE && b != BACKSLASH
    case Escaped(b) => IsEscape(b)
    case Unicode(h1, h2, h3, h4) => IsHex(h1) && IsHex(h2) && IsHex(h3) && IsHex(h4)
  }

  function CharBytes(c: Char): seq<byte> {
    match c
    case Plain(b) => [b]
    case Escaped(b) => [BACKSLASH, b]
    case Unicode(h1, h2, h3, h4) => [BACKSLASH, LOWER_U, h1, h2, h3, h4]
  }

  function Body(cs: seq<Char>): seq<byte> {
    if cs == [] then [] else CharBytes(cs[0]) + Body(cs[1..])
  }

  predicate CharsOk(cs: seq<Char>) { forall c <- cs :: CharOk(c) }

  // ------------------------------------------------------------------- scalars

  datatype Exponent = NoExponent | Exponent(letter: byte, sign: seq<byte>, digits: seq<byte>)

  // Section 6 for numbers, section 3 for the literal names.
  datatype Scalar =
    | Literal(text: seq<byte>)
    | Number(minus: bool, whole: seq<byte>, frac: seq<byte>, exp: Exponent)  // frac == [] when absent

  predicate ExponentOk(e: Exponent) {
    e.Exponent? ==>
      (e.letter == 0x65 || e.letter == 0x45)
      && (e.sign == [] || e.sign == [PLUS] || e.sign == [MINUS])
      && Digits(e.digits)
  }

  function ExponentBytes(e: Exponent): seq<byte> {
    if e.NoExponent? then [] else [e.letter] + e.sign + e.digits
  }

  predicate ScalarOk(s: Scalar) {
    match s
    case Literal(text) => text == TRUE || text == FALSE || text == NULL
    case Number(_, whole, frac, exp) =>
      && Digits(whole) && (whole[0] == ZERO ==> whole == [ZERO])
      && (frac == [] || Digits(frac))
      && ExponentOk(exp)
  }

  function ScalarBytes(s: Scalar): seq<byte> {
    match s
    case Literal(text) => text
    case Number(minus, whole, frac, exp) =>
      (if minus then [MINUS] else []) + whole + (if frac == [] then [] else [DOT] + frac) + ExponentBytes(exp)
  }

  // -------------------------------------------------------------------- values

  datatype Json =
    | JsonString(chars: seq<Char>)
    | JsonScalar(scalar: Scalar)
    | JsonEmpty(named: bool, gap: seq<byte>)
    | JsonNest(named: bool, members: Members)

  datatype Members = Last(member: Member) | More(member: Member, rest: Members)

  // A field name with its colon, and the white space about them.
  datatype Label = Label(lead: seq<byte>, chars: seq<Char>, mid: seq<byte>)

  // Object members have a label; array elements leave it blank.
  datatype Member = Member(name: Label, pre: seq<byte>, value: Json, post: seq<byte>)

  const BLANK := Label([], [], [])

  function Opening(named: bool): byte { if named then OPEN_OBJECT else OPEN_ARRAY }
  function Closing(named: bool): byte { if named then CLOSE_OBJECT else CLOSE_ARRAY }

  predicate LabelOk(l: Label) {
    Spaces(l.lead) && CharsOk(l.chars) && Spaces(l.mid)
  }

  predicate JsonOk(v: Json, scalarLimit: nat)
    decreases v
  {
    match v
    case JsonString(chars) => CharsOk(chars)
    case JsonScalar(s) => ScalarOk(s) && |ScalarBytes(s)| <= scalarLimit
    case JsonEmpty(_, gap) => Spaces(gap)
    case JsonNest(named, members) => MembersOk(named, members, scalarLimit)
  }

  predicate MembersOk(named: bool, ms: Members, scalarLimit: nat)
    decreases ms
  {
    MemberOk(named, ms.member, scalarLimit) && (ms.More? ==> MembersOk(named, ms.rest, scalarLimit))
  }

  predicate MemberOk(named: bool, m: Member, scalarLimit: nat)
    decreases m
  {
    && LabelOk(m.name) && (!named ==> m.name == BLANK)
    && Spaces(m.pre) && Spaces(m.post)
    && JsonOk(m.value, scalarLimit)
  }

  function Quoted(cs: seq<Char>): seq<byte> { [QUOTE] + Body(cs) + [QUOTE] }

  function LabelBytes(l: Label): seq<byte> { l.lead + Quoted(l.chars) + l.mid + [COLON] }

  function JsonBytes(v: Json): seq<byte>
    decreases v
  {
    match v
    case JsonString(chars) => Quoted(chars)
    case JsonScalar(s) => ScalarBytes(s)
    case JsonEmpty(named, gap) => [Opening(named)] + gap + [Closing(named)]
    case JsonNest(named, members) => [Opening(named)] + MembersBytes(named, members) + [Closing(named)]
  }

  function MembersBytes(named: bool, ms: Members): seq<byte>
    decreases ms
  {
    MemberBytes(named, ms.member) + (if ms.More? then [COMMA] + MembersBytes(named, ms.rest) else [])
  }

  function MemberBytes(named: bool, m: Member): seq<byte>
    decreases m
  {
    (if named then LabelBytes(m.name) else []) + m.pre + JsonBytes(m.value) + m.post
  }

  // How many levels of values lie below a value.
  function Depth(v: Json): nat {
    if v.JsonNest? then 1 + MembersDepth(v.members) else 0
  }

  function MembersDepth(ms: Members): nat {
    var d := Depth(ms.member.value);
    if ms.Last? then d else
    var r := MembersDepth(ms.rest);
    if d < r then r else d
  }
}
