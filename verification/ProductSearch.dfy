/** Product search: an escaped LIKE pattern that must mean plain substring search. */
module ProductSearch {
  import opened Text

  predicate Special(c: char) { c == '\\' || c == '%' || c == '_' }

  // ---- the SQL LIKE predicate with escape character '\', section 8.5 of ISO/IEC 9075-2

  /** Every escape character is followed by a character that needs escaping; anything else is a data exception. */
  predicate WellFormed(p: string) {
    if p == [] then true
    else if p[0] == '\\' then |p| >= 2 && Special(p[1]) && WellFormed(p[2..])
    else WellFormed(p[1..])
  }

  predicate Like(t: string, p: string)
    requires WellFormed(p)
    decreases |p| + |t|
  {
    if p == [] then t == []
    else if p[0] == '\\' then t != [] && t[0] == p[1] && Like(t[1..], p[2..])
    else if p[0] == '%' then Like(t, p[1..]) || (t != [] && Like(t[1..], p))
    else if p[0] == '_' then t != [] && Like(t[1..], p[1..])
    else t != [] && t[0] == p[0] && Like(t[1..], p[1..])
  }

  /** Case folding, character by character; the pattern characters have no case. */
  type Folding = char -> char

  ghost predicate KeepsSpecials(fold: Folding) {
    forall c :: if Special(c) then fold(c) == c else !Special(fold(c))
  }

  function Folded(fold: Folding, s: string): string { seq(|s|, i requires 0 <= i < |s| => fold(s[i])) }

  // ---- the search

  function Escaped(query: string): string {
    Replace(Replace(Replace(query, '\\', "\\\\"), '%', "\\%"), '_', "\\_")
  }

  function Pattern(query: string): string { "%" + Escaped(query) + "%" }

  datatype Product = Product(name: string, sku: string)

  ghost predicate ILike(fold: Folding, t: string, p: string) {
    WellFormed(Folded(fold, p)) && Like(Folded(fold, t), Folded(fold, p))
  }

  /** Whether a search returns a product: a blank query returns nothing. */
  ghost predicate Returned(fold: Folding, query: string, product: Product) {
    var q := Strip(query);
    q != [] && (ILike(fold, product.name, Pattern(q)) || ILike(fold, product.sku, Pattern(q)))
  }

  // ---- the three passes are one

  function EscapedChar(c: char): string { if Special(c) then ['\\', c] else [c] }

  /** Each character escaped on its own. */
  function EscapedEach(query: string): string {
    if query == [] then [] else EscapedChar(query[0]) + EscapedEach(query[1..])
  }

  lemma {:induction false} ThreePassesAreOne(query: string)
    ensures Escaped(query) == EscapedEach(query)
  {
    if query != [] {
      var c, rest := [query[0]], query[1..];
      assert query == c + rest;
      ReplaceConcat(c, rest, '\\', "\\\\");
      ReplaceConcat(Replace(c, '\\', "\\\\"), Replace(rest, '\\', "\\\\"), '%', "\\%");
      ReplaceConcat(Replace(Replace(c, '\\', "\\\\"), '%', "\\%"), Replace(Replace(rest, '\\', "\\\\"), '%', "\\%"),
                    '_', "\\_");
      OneCharacter(query[0]);
      ThreePassesAreOne(rest);
    }
  }

  lemma ReplaceOne(c: char, d: char, with: string)
    ensures Replace([c], d, with) == if c == d then with else [c]
  {
    assert [c][1..] == [] && Replace([], d, with) == [];
  }

  lemma ReplaceTwo(a: char, b: char, d: char, with: string)
    ensures Replace([a, b], d, with) == (if a == d then with else [a]) + (if b == d then with else [b])
  {
    ReplaceOne(b, d, with);
    assert [a, b][1..] == [b];
  }

  lemma OneCharacter(c: char)
    ensures Escaped([c]) == EscapedChar(c)
  {
    ReplaceOne(c, '\\', "\\\\");
    ReplaceOne(c, '%', "\\%");
    ReplaceOne(c, '_', "\\_");
    ReplaceTwo('\\', '\\', '%', "\\%");
    ReplaceTwo('\\', '\\', '_', "\\_");
    ReplaceTwo('\\', '%', '_', "\\_");
  }

  /** Escaping and folding commute. */
  lemma {:induction false} FoldEscaped(fold: Folding, query: string)
    requires KeepsSpecials(fold)
    ensures Folded(fold, EscapedEach(query)) == EscapedEach(Folded(fold, query))
  {
    if query != [] {
      FoldEscaped(fold, query[1..]);
      assert Folded(fold, query)[1..] == Folded(fold, query[1..]);
      assert Folded(fold, EscapedEach(query)) == Folded(fold, EscapedChar(query[0]))
        + Folded(fold, EscapedEach(query[1..]));
      assert Folded(fold, EscapedChar(query[0])) == EscapedChar(fold(query[0]));
    }
  }

  // ---- what the pattern matches

  lemma EscapedCharMatches(c: char, rest: string, t: string)
    requires WellFormed(rest)
    ensures WellFormed(EscapedChar(c) + rest)
    ensures Like(t, EscapedChar(c) + rest) <==> t != [] && t[0] == c && Like(t[1..], rest)
  {
    var p := EscapedChar(c) + rest;
    assert p[|EscapedChar(c)|..] == rest;
  }

  lemma PrefixOfRest(q: string, t: string)
    requires q != [] && t != [] && t[0] == q[0]
    ensures q <= t <==> q[1..] <= t[1..]
    ensures q <= t ==> t[1..][|q[1..]|..] == t[|q|..]
  {
    if q[1..] <= t[1..] {
      assert q == [q[0]] + q[1..] && t == [t[0]] + t[1..];
    }
  }

  lemma EscapedSplit(query: string, rest: string)
    requires query != []
    ensures EscapedEach(query) + rest == EscapedChar(query[0]) + (EscapedEach(query[1..]) + rest)
  {
  }

  lemma {:induction false} EscapedIsWellFormed(query: string, rest: string)
    requires WellFormed(rest)
    ensures WellFormed(EscapedEach(query) + rest)
  {
    if query == [] {
      assert EscapedEach(query) + rest == rest;
    } else {
      EscapedIsWellFormed(query[1..], rest);
      EscapedSplit(query, rest);
      EscapedCharMatches(query[0], EscapedEach(query[1..]) + rest, []);
    }
  }

  /** An escaped string matches only itself, and leaves the rest of the text to the rest of the pattern. */
  lemma {:induction false} EscapedMatchesItself(query: string, rest: string, t: string)
    requires WellFormed(rest)
    ensures WellFormed(EscapedEach(query) + rest)
    ensures Like(t, EscapedEach(query) + rest) <==> query <= t && Like(t[|query|..], rest)
  {
    EscapedIsWellFormed(query, rest);
    if query == [] {
      assert EscapedEach(query) + rest == rest && t[0..] == t;
    } else {
      var tail := EscapedEach(query[1..]) + rest;
      EscapedIsWellFormed(query[1..], rest);
      EscapedSplit(query, rest);
      EscapedCharMatches(query[0], tail, t);
      if t != [] && t[0] == query[0] {
        EscapedMatchesItself(query[1..], rest, t[1..]);
        PrefixOfRest(query, t);
      }
    }
  }

  lemma {:induction false} PercentMatchesAnything(t: string)
    ensures Like(t, "%")
  {
    assert "%"[1..] == [];
    if t != [] {
      PercentMatchesAnything(t[1..]);
    }
  }

  ghost predicate OccursAt(q: string, t: string, i: nat) { i + |q| <= |t| && t[i..i + |q|] == q }

  ghost predicate Occurs(q: string, t: string) { exists i: nat :: OccursAt(q, t, i) }

  /** A string occurs in a text as its prefix or in the rest of it. */
  lemma OccursStep(q: string, t: string)
    ensures Occurs(q, t) <==> q <= t || (t != [] && Occurs(q, t[1..]))
  {
    if q <= t {
      assert OccursAt(q, t, 0);
    } else if t != [] && Occurs(q, t[1..]) {
      var i: nat :| OccursAt(q, t[1..], i);
      assert t[1..][i..i + |q|] == t[i + 1..i + 1 + |q|];
      assert OccursAt(q, t, i + 1);
    } else if Occurs(q, t) {
      var i: nat :| OccursAt(q, t, i);
      assert i > 0 && t[1..][i - 1..i - 1 + |q|] == t[i..i + |q|];
      assert OccursAt(q, t[1..], i - 1);
    }
  }

  lemma {:induction false} PatternMeansOccurs(q: string, t: string)
    ensures WellFormed("%" + EscapedEach(q) + "%")
    ensures Like(t, "%" + EscapedEach(q) + "%") <==> Occurs(q, t)
  {
    var p := EscapedEach(q) + "%";
    assert "%" + EscapedEach(q) + "%" == ['%'] + p;
    EscapedMatchesItself(q, "%", t);
    OccursStep(q, t);
    if q <= t {
      PercentMatchesAnything(t[|q|..]);
    }
    if t != [] {
      PatternMeansOccurs(q, t[1..]);
    }
  }

  /** A search returns exactly the products in whose name or SKU the stripped query occurs, letter case aside,
      whatever pattern characters the query contains; and its pattern never raises. */
  lemma SearchIsSubstringSearch(fold: Folding, query: string, product: Product)
    requires KeepsSpecials(fold)
    ensures WellFormed(Folded(fold, Pattern(Strip(query))))
    ensures var q := Folded(fold, Strip(query));
            Returned(fold, query, product) <==>
            q != [] && (Occurs(q, Folded(fold, product.name)) || Occurs(q, Folded(fold, product.sku)))
  {
    var s := Strip(query);
    var q := Folded(fold, s);
    ThreePassesAreOne(s);
    FoldEscaped(fold, s);
    assert Folded(fold, Pattern(s)) == "%" + EscapedEach(q) + "%";
    PatternMeansOccurs(q, Folded(fold, product.name));
    PatternMeansOccurs(q, Folded(fold, product.sku));
  }
}
