/** Order lookup codes: every way a customer may write a code resolves to it, and nothing else does. */
module OrderCode {
  import opened Prelude
  import opened Text

  const ALPHABET := "0123456789ABCDEFGHJKMNPQRSTVWXYZ"
  const CODE_LENGTH := 8

  /** A draw of characters for a new code. */
  predicate Drawn(raw: string) { |raw| == CODE_LENGTH && forall i :: 0 <= i < |raw| ==> raw[i] in ALPHABET }

  /** The code made of a draw. */
  function Code(raw: string): string
    requires |raw| == CODE_LENGTH
  {
    raw[..4] + "-" + raw[4..]
  }

  function UpperChar(c: char): char { if 'a' <= c <= 'z' then (c as int - 32) as char else c }

  function Upper(s: string): string { seq(|s|, i requires 0 <= i < |s| => UpperChar(s[i])) }

  function Cleaned(s: string): string { Replace(Replace(Upper(s), '-', ""), ' ', "") }

  function Normalize(value: string): Option<string> {
    var cleaned := Cleaned(Strip(value));
    if |cleaned| != CODE_LENGTH then None else Some(Code(cleaned))
  }

  /** `s` writes `raw` in any letter case, with spaces and dashes anywhere. */
  predicate Spells(s: string, raw: string) {
    if s == [] then raw == []
    else if s[0] == ' ' || s[0] == '-' then Spells(s[1..], raw)
    else raw != [] && UpperChar(s[0]) == raw[0] && Spells(s[1..], raw[1..])
  }

  /** Where a digit or a capital letter stands in the alphabet. */
  ghost function Place(c: char): int {
    if '0' <= c <= '9' then c as int - '0' as int
    else if 'A' <= c <= 'H' then c as int - 'A' as int + 10
    else if c == 'J' then 18
    else if c == 'K' then 19
    else if c == 'M' then 20
    else if c == 'N' then 21
    else if 'P' <= c <= 'T' then c as int - 'P' as int + 22
    else if 'V' <= c <= 'Z' then c as int - 'V' as int + 27
    else -1
  }

  lemma PlaceOf(i: nat)
    requires i < |ALPHABET|
    ensures Place(ALPHABET[i]) == i
  {
  }

  lemma AtPlace(c: char)
    requires Place(c) >= 0
    ensures Place(c) < |ALPHABET| && ALPHABET[Place(c)] == c
  {
  }

  /** The alphabet is the digits and the capital letters but for I, L, O and U, each once. */
  lemma AlphabetTells(c: char)
    ensures c in ALPHABET <==> '0' <= c <= '9' || ('A' <= c <= 'Z' && c != 'I' && c != 'L' && c != 'O' && c != 'U')
    ensures forall i, j :: 0 <= i < j < |ALPHABET| ==> ALPHABET[i] != ALPHABET[j]
  {
    if c in ALPHABET {
      var i :| 0 <= i < |ALPHABET| && ALPHABET[i] == c;
      PlaceOf(i);
    }
    if Place(c) >= 0 {
      AtPlace(c);
    }
    forall i, j | 0 <= i < j < |ALPHABET| ensures ALPHABET[i] != ALPHABET[j] {
      PlaceOf(i);
      PlaceOf(j);
    }
  }

  /** A code is nine characters: the draw's in order, with a dash after the first four; so codes differ as draws do. */
  lemma CodeTells(raw: string, raw': string)
    requires |raw| == |raw'| == CODE_LENGTH
    ensures |Code(raw)| == 9 && Code(raw)[4] == '-'
    ensures forall i :: 0 <= i < 8 ==> raw[i] == Code(raw)[if i < 4 then i else i + 1]
    ensures Code(raw) == Code(raw') <==> raw == raw'
  {
    if Code(raw) == Code(raw') {
      assert raw == Code(raw)[..4] + Code(raw)[5..] && raw' == Code(raw')[..4] + Code(raw')[5..];
    }
  }

  const SMALL := "abcdefghijklmnopqrstuvwxyz"
  const CAPITAL := "ABCDEFGHIJKLMNOPQRSTUVWXYZ"

  lemma LettersAt(i: nat)
    requires i < 26
    ensures SMALL[i] as int == 'a' as int + i && CAPITAL[i] as int == 'A' as int + i
  {
  }

  /** Upper-casing takes each small letter to the capital one at its place and leaves any other character alone. */
  lemma UpperTells(c: char)
    ensures forall i :: 0 <= i < 26 && SMALL[i] == c ==> UpperChar(c) == CAPITAL[i]
    ensures c !in SMALL ==> UpperChar(c) == c
  {
    forall i | 0 <= i < 26 && SMALL[i] == c ensures UpperChar(c) == CAPITAL[i] {
      LettersAt(i);
    }
    if 'a' <= c <= 'z' {
      LettersAt(c as int - 'a' as int);
    }
  }

  predicate Solid(raw: string) { forall i :: 0 <= i < |raw| ==> raw[i] != ' ' && raw[i] != '-' }

  predicate Letters(raw: string) {
    forall i :: 0 <= i < |raw| ==> raw[i] != ' ' && raw[i] != '-' && !IsSpace(raw[i])
  }

  lemma AlphabetIsLetters(c: char)
    requires c in ALPHABET
    ensures '0' <= c <= '9' || 'A' <= c <= 'Z'
  {
    var i :| 0 <= i < |ALPHABET| && ALPHABET[i] == c;
  }

  lemma DrawnLetters(raw: string)
    requires Drawn(raw)
    ensures Letters(raw)
  {
    forall i | 0 <= i < |raw| ensures raw[i] != ' ' && raw[i] != '-' && !IsSpace(raw[i]) {
      AlphabetIsLetters(raw[i]);
    }
  }

  lemma CleanedConcat(s: string, t: string)
    ensures Cleaned(s + t) == Cleaned(s) + Cleaned(t)
  {
    assert Upper(s + t) == Upper(s) + Upper(t);
    ReplaceConcat(Upper(s), Upper(t), '-', "");
    ReplaceConcat(Replace(Upper(s), '-', ""), Replace(Upper(t), '-', ""), ' ', "");
  }

  lemma CleanedChar(c: char)
    ensures Cleaned([c]) == if c == ' ' || c == '-' then [] else [UpperChar(c)]
  {
    assert Upper([c]) == [UpperChar(c)];
    assert [UpperChar(c)][1..] == [] && Replace([], '-', "") == [] && Replace([], ' ', "") == [];
  }

  lemma {:induction false} SpellsIsCleaned(s: string, raw: string)
    requires Solid(raw)
    ensures Spells(s, raw) <==> Cleaned(s) == raw
  {
    if s == [] {
      assert Upper(s) == [];
    } else {
      assert s == [s[0]] + s[1..];
      CleanedConcat([s[0]], s[1..]);
      CleanedChar(s[0]);
      SpellsIsCleaned(s[1..], raw);
      if raw != [] {
        SpellsIsCleaned(s[1..], raw[1..]);
        assert raw == [raw[0]] + raw[1..];
      }
    }
  }

  /** A lookup resolves to eight characters with a dash exactly when the input, outer white space aside, spells them. */
  lemma NormalizesIffSpelled(value: string, raw: string)
    requires |raw| == CODE_LENGTH && Solid(raw)
    ensures Normalize(value) == Some(Code(raw)) <==> Spells(Strip(value), raw)
  {
    SpellsIsCleaned(Strip(value), raw);
    var cleaned := Cleaned(Strip(value));
    if |cleaned| == CODE_LENGTH {
      CodeTells(cleaned, raw);
    }
  }

  lemma {:induction false} CleanedIsSolid(s: string)
    ensures Solid(Cleaned(s))
  {
    if s == [] {
      assert Upper(s) == [];
    } else {
      assert s == [s[0]] + s[1..];
      CleanedConcat([s[0]], s[1..]);
      CleanedChar(s[0]);
      CleanedIsSolid(s[1..]);
    }
  }

  /** ... and is refused exactly when it spells no eight characters. */
  lemma RefusesIffNothingSpelled(value: string)
    ensures Normalize(value) == None <==> !exists raw :: |raw| == CODE_LENGTH && Solid(raw) && Spells(Strip(value), raw)
  {
    var cleaned := Cleaned(Strip(value));
    CleanedIsSolid(Strip(value));
    if |cleaned| == CODE_LENGTH {
      SpellsIsCleaned(Strip(value), cleaned);
    }
    forall raw | |raw| == CODE_LENGTH && Solid(raw) && Spells(Strip(value), raw) ensures Normalize(value) != None {
      SpellsIsCleaned(Strip(value), raw);
    }
  }

  // ---- white space around a spelling

  lemma {:induction false} BlankSpellsNothing(s: string, raw: string)
    requires Spells(s, raw) && Letters(raw) && raw != []
    ensures exists i :: 0 <= i < |s| && !IsSpace(s[i])
  {
    if s[0] == ' ' || s[0] == '-' {
      BlankSpellsNothing(s[1..], raw);
      var i :| 0 <= i < |s[1..]| && !IsSpace(s[1..][i]);
      assert !IsSpace(s[i + 1]);
    } else {
      assert UpperChar(s[0]) == raw[0] && !IsSpace(s[0]);
    }
  }

  lemma {:induction false} TrimLeftSpells(s: string, raw: string)
    requires Spells(s, raw) && Letters(raw)
    ensures Spells(TrimLeft(s), raw)
  {
    if s != [] && IsSpace(s[0]) {
      assert s[0] == ' ';
      TrimLeftSpells(s[1..], raw);
    }
  }

  /** The last character of a spelling is a space, a dash or no white space. */
  lemma LastIsNotSpace(c: char, before: string, raw: string)
    requires raw == before + Cleaned([c]) && Letters(raw)
    ensures c == ' ' || c == '-' || !IsSpace(c)
  {
    CleanedChar(c);
    if c != ' ' && c != '-' {
      assert raw[|raw| - 1] == UpperChar(c);
    }
  }

  lemma {:induction false} TrimRightSpells(s: string, raw: string)
    requires Spells(s, raw) && Letters(raw)
    ensures Spells(TrimRight(s), raw)
  {
    var n := |s| - 1;
    if s != [] && IsSpace(s[n]) {
      assert s == s[..n] + [s[n]];
      CleanedConcat(s[..n], [s[n]]);
      CleanedChar(s[n]);
      SpellsIsCleaned(s, raw);
      LastIsNotSpace(s[n], Cleaned(s[..n]), raw);
      SpellsIsCleaned(s[..n], raw);
      TrimRightSpells(s[..n], raw);
    }
  }

  /** Any spelling of a code, with any white space around it, resolves to that code. */
  lemma EverySpellingResolves(left: string, s: string, right: string, raw: string)
    requires Drawn(raw) && Spells(s, raw) && Blank(left) && Blank(right)
    ensures Normalize(left + s + right) == Some(Code(raw))
  {
    DrawnLetters(raw);
    BlankSpellsNothing(s, raw);
    StripOuter(left, s, right);
    TrimLeftSpells(s, raw);
    TrimRightSpells(TrimLeft(s), raw);
    NormalizesIffSpelled(left + s + right, raw);
  }

  /** The code itself is one of its spellings. */
  lemma CodeResolves(raw: string)
    requires Drawn(raw)
    ensures Normalize(Code(raw)) == Some(Code(raw))
  {
    DrawnLetters(raw);
    CleanedConcat(raw[..4] + "-", raw[4..]);
    CleanedConcat(raw[..4], "-");
    CleanedChar('-');
    DrawnIsCleaned(raw[..4]);
    DrawnIsCleaned(raw[4..]);
    assert raw[..4] + [] + raw[4..] == raw;
    SpellsIsCleaned(Code(raw), raw);
    EverySpellingResolves([], Code(raw), [], raw);
    assert [] + Code(raw) + [] == Code(raw);
  }

  lemma {:induction false} DrawnIsCleaned(s: string)
    requires forall i :: 0 <= i < |s| ==> s[i] in ALPHABET
    ensures Cleaned(s) == s
  {
    if s == [] {
      assert Upper(s) == [];
    } else {
      assert s == [s[0]] + s[1..];
      CleanedConcat([s[0]], s[1..]);
      CleanedChar(s[0]);
      assert s[0] in ALPHABET;
      DrawnIsCleaned(s[1..]);
    }
  }

  /** Different codes never share a spelling. */
  lemma SpellingsAreDisjoint(s: string, raw: string, raw': string)
    requires Drawn(raw) && Drawn(raw') && Spells(s, raw) && Spells(s, raw')
    ensures Code(raw) == Code(raw')
  {
    DrawnLetters(raw);
    DrawnLetters(raw');
    SpellsIsCleaned(s, raw);
    SpellsIsCleaned(s, raw');
  }
}
