/** What the text of a JSON string stands for, and which field names fold to "tags". */
module ModuleName {
  import opened JsonGrammar

  const REPLACEMENT := 0xFFFD

  function HexValue(h: byte): nat
    requires IsHex(h)
  {
    if IsDigit(h) then h - ZERO else if h >= 0x61 then h - 0x61 + 10 else h - 0x41 + 10
  }

  // A \u escape at the start of a text.
  predicate StartsUnicode(s: seq<byte>) {
    |s| >= 6 && s[0] == BACKSLASH && s[1] == LOWER_U && IsHex(s[2]) && IsHex(s[3]) && IsHex(s[4]) && IsHex(s[5])
  }

  function UnicodeValue(s: seq<byte>): nat
    requires StartsUnicode(s)
  {
    4096 * HexValue(s[2]) + 256 * HexValue(s[3]) + 16 * HexValue(s[4]) + HexValue(s[5])
  }

  // The two-character escapes.
  function EscapeValue(b: byte): int {
    match b
    case 0x22 => b
    case 0x5C => b
    case 0x2F => b
    case 0x62 => 0x08
    case 0x66 => 0x0C
    case 0x6E => 0x0A
    case 0x72 => 0x0D
    case 0x74 => 0x09
    case _ => REPLACEMENT
  }

  predicate Continues(s: seq<byte>, k: nat) { k < |s| && 0x80 <= s[k] < 0xC0 }

  // One code point of UTF-8, RFC 3629, with its width; a malformed byte is replaced on its own.
  function Utf8(s: seq<byte>): (r: (int, nat))
    requires s != [] && s[0] >= 0x80
    ensures 0 < r.1 <= |s| && r.0 >= 0x80
  {
    var b := s[0];
    if 0xC2 <= b < 0xE0 && Continues(s, 1) then
      ((b as int - 0xC0) * 64 + (s[1] - 0x80), 2)
    else if 0xE0 <= b < 0xF0 && Continues(s, 1) && Continues(s, 2)
            && (b == 0xE0 ==> s[1] >= 0xA0) && (b == 0xED ==> s[1] < 0xA0) then
      ((b as int - 0xE0) * 4096 + (s[1] as int - 0x80) * 64 + (s[2] - 0x80), 3)
    else if 0xF0 <= b < 0xF5 && Continues(s, 1) && Continues(s, 2) && Continues(s, 3)
            && (b == 0xF0 ==> s[1] >= 0x90) && (b == 0xF4 ==> s[1] < 0x90) then
      ((b as int - 0xF0) * 262144 + (s[1] as int - 0x80) * 4096 + (s[2] as int - 0x80) * 64 + (s[3] - 0x80), 4)
    else (REPLACEMENT, 1)
  }

  // The next code point of a string's text. A pair of surrogates makes one, a lone surrogate is replaced.
  function NextRune(s: seq<byte>): (r: (int, nat))
    requires s != []
    ensures 0 < r.1 <= |s|
  {
    if s[0] == BACKSLASH then
      if StartsUnicode(s) then
        var high := UnicodeValue(s);
        if 0xD800 <= high < 0xE000 then
          if high < 0xDC00 && StartsUnicode(s[6..]) && 0xDC00 <= UnicodeValue(s[6..]) < 0xE000
          then (0x10000 + (high - 0xD800) * 1024 + (UnicodeValue(s[6..]) - 0xDC00), 12)
          else (REPLACEMENT, 6)
        else (high, 6)
      else if |s| >= 2 then (EscapeValue(s[1]), 2) else (REPLACEMENT, 1)
    else if s[0] < 0x80 then (s[0], 1)
    else Utf8(s)
  }

  function Runes(s: seq<byte>): seq<int>
    decreases |s|
  {
    if s == [] then [] else [NextRune(s).0] + Runes(s[NextRune(s).1..])
  }

  const LETTER_T: byte := 0x74
  const LETTER_A: byte := 0x61
  const LETTER_G: byte := 0x67
  const LETTER_S: byte := 0x73
  const LONG_S := 0x17F

  // Simple case folding: of these letters only s has a third form.
  predicate FoldsTo(r: int, lower: byte) {
    r == lower || r == lower as int - 32 || (lower == LETTER_S && r == LONG_S)
  }

  // EqualFold with "tags", of the string that the raw text between the quotes stands for.
  predicate NamesTags(raw: seq<byte>) {
    var rs := Runes(raw);
    |rs| == 4 && FoldsTo(rs[0], LETTER_T) && FoldsTo(rs[1], LETTER_A) && FoldsTo(rs[2], LETTER_G)
    && FoldsTo(rs[3], LETTER_S)
  }

  // ------------------------------------------------------------- the spellings of a letter

  predicate Letter(b: byte) {
    b == LETTER_T || b == LETTER_A || b == LETTER_G || b == LETTER_S
  }

  // All ways to write a letter of the name: itself in either case, the long s, or their \u escapes.
  predicate Spells(w: seq<byte>, lower: byte) {
    || w == [lower]
    || (lower >= 32 && w == [lower - 32])
    || (lower == LETTER_S && w == [0xC5, 0xBF])
    || (|w| == 6 && StartsUnicode(w) && FoldsTo(UnicodeValue(w), lower))
  }

  lemma SpelledIsRead(w: seq<byte>, rest: seq<byte>, lower: byte)
    requires Letter(lower) && Spells(w, lower)
    ensures w != [] && FoldsTo(NextRune(w + rest).0, lower) && NextRune(w + rest).1 == |w|
  {
    if |w| == 6 && StartsUnicode(w) {
      assert StartsUnicode(w + rest) && UnicodeValue(w + rest) == UnicodeValue(w);
    }
  }

  lemma ReadIsSpelled(s: seq<byte>, lower: byte)
    requires s != [] && Letter(lower) && FoldsTo(NextRune(s).0, lower)
    ensures Spells(s[..NextRune(s).1], lower)
  {
    hide Utf8;
    var w := s[..NextRune(s).1];
    if s[0] == BACKSLASH {
      if StartsUnicode(s) {
        assert StartsUnicode(w) && UnicodeValue(w) == UnicodeValue(s);
      }
    } else if s[0] >= 0x80 {
      Utf8IsLongS(s);
    }
  }

  lemma Utf8IsLongS(s: seq<byte>)
    requires s != [] && s[0] >= 0x80
    ensures Utf8(s).0 == LONG_S ==> s[..Utf8(s).1] == [0xC5, 0xBF]
  {
  }

  lemma RunesCons(w: seq<byte>, rest: seq<byte>)
    requires w != [] && NextRune(w + rest).1 == |w|
    ensures Runes(w + rest) == [NextRune(w + rest).0] + Runes(rest)
  {
    assert (w + rest)[|w|..] == rest;
  }

  // The four letters in a row, each in one of its spellings.
  ghost predicate SpellsTags(raw: seq<byte>) {
    exists t, a, g, s ::
      Spells(t, LETTER_T) && Spells(a, LETTER_A) && Spells(g, LETTER_G) && Spells(s, LETTER_S)
      && raw == t + (a + (g + (s + [])))
  }

  // A name folds to "tags" exactly when it is spelled so.
  lemma NamesTagsExact(raw: seq<byte>)
    ensures NamesTags(raw) <==> SpellsTags(raw)
  {
    if NamesTags(raw) {
      var t, r1 := SplitRune(raw, LETTER_T);
      var a, r2 := SplitRune(r1, LETTER_A);
      var g, r3 := SplitRune(r2, LETTER_G);
      var s, r4 := SplitRune(r3, LETTER_S);
      assert r4 == [];
    }
    forall t, a, g, s |
      Spells(t, LETTER_T) && Spells(a, LETTER_A) && Spells(g, LETTER_G) && Spells(s, LETTER_S)
      && raw == t + (a + (g + (s + [])))
      ensures NamesTags(raw)
    {
      FourLetters(t, a, g, s);
    }
  }

  lemma SplitRune(raw: seq<byte>, lower: byte) returns (w: seq<byte>, rest: seq<byte>)
    requires Letter(lower) && Runes(raw) != [] && FoldsTo(Runes(raw)[0], lower)
    ensures raw == w + rest && Spells(w, lower) && Runes(rest) == Runes(raw)[1..]
  {
    hide Spells, NextRune;
    ReadIsSpelled(raw, lower);
    w, rest := raw[..NextRune(raw).1], raw[NextRune(raw).1..];
  }

  lemma FourLetters(t: seq<byte>, a: seq<byte>, g: seq<byte>, s: seq<byte>)
    requires Spells(t, LETTER_T) && Spells(a, LETTER_A) && Spells(g, LETTER_G) && Spells(s, LETTER_S)
    ensures NamesTags(t + (a + (g + (s + []))))
  {
    hide Spells, NextRune, FoldsTo;
    SpelledIsRead(s, [], LETTER_S);
    RunesCons(s, []);
    SpelledIsRead(g, s + [], LETTER_G);
    RunesCons(g, s + []);
    SpelledIsRead(a, g + (s + []), LETTER_A);
    RunesCons(a, g + (s + []));
    SpelledIsRead(t, a + (g + (s + [])), LETTER_T);
    RunesCons(t, a + (g + (s + [])));
  }
}
