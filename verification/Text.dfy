/** The string operations the services use. */
module Text {

  /** ASCII white space. */
  predicate IsSpace(c: char) { c == ' ' || '\t' <= c <= '\r' || '\U{1C}' <= c <= '\U{1F}' }

  lemma WhiteSpaceCharacters(c: char)
    ensures IsSpace(c) <==> c in " \t\n\U{0B}\U{0C}\r\U{1C}\U{1D}\U{1E}\U{1F}"
  {
  }

  predicate Blank(s: string) { forall i :: 0 <= i < |s| ==> IsSpace(s[i]) }

  function TrimLeft(s: string): string
  {
    if s != [] && IsSpace(s[0]) then TrimLeft(s[1..]) else s
  }

  function TrimRight(s: string): string
  {
    if s != [] && IsSpace(s[|s| - 1]) then TrimRight(s[..|s| - 1]) else s
  }

  function Strip(s: string): string { TrimRight(TrimLeft(s)) }

  /** Every occurrence of a character replaced by a string. */
  function Replace(s: string, c: char, with: string): string {
    if s == [] then [] else (if s[0] == c then with else [s[0]]) + Replace(s[1..], c, with)
  }

  lemma {:induction false} ReplaceConcat(s: string, t: string, c: char, with: string)
    ensures Replace(s + t, c, with) == Replace(s, c, with) + Replace(t, c, with)
  {
    if s == [] {
      assert s + t == t;
    } else {
      assert (s + t)[1..] == s[1..] + t;
      ReplaceConcat(s[1..], t, c, with);
    }
  }

  // ---- white space around a string

  lemma {:induction false} TrimLeftTells(s: string) returns (left: string)
    ensures s == left + TrimLeft(s) && Blank(left) && (TrimLeft(s) != [] ==> !IsSpace(TrimLeft(s)[0]))
  {
    left := [];
    if s != [] && IsSpace(s[0]) {
      var rest := TrimLeftTells(s[1..]);
      left := [s[0]] + rest;
      assert s == [s[0]] + s[1..];
    }
  }

  lemma {:induction false} TrimRightTells(s: string) returns (right: string)
    ensures s == TrimRight(s) + right && Blank(right)
    ensures TrimRight(s) != [] ==> TrimRight(s)[0] == s[0] && !IsSpace(TrimRight(s)[|TrimRight(s)| - 1])
  {
    right := [];
    if s != [] && IsSpace(s[|s| - 1]) {
      var n := |s| - 1;
      var rest := TrimRightTells(s[..n]);
      right := rest + [s[n]];
      assert s == s[..n] + [s[n]];
    }
  }

  /** Stripping takes off all the white space at both ends and nothing else. */
  lemma StripTells(s: string)
    ensures exists left, right :: s == left + Strip(s) + right && Blank(left) && Blank(right)
    ensures Strip(s) != [] ==> !IsSpace(Strip(s)[0]) && !IsSpace(Strip(s)[|Strip(s)| - 1])
  {
    var left := TrimLeftTells(s);
    var right := TrimRightTells(TrimLeft(s));
    assert s == left + Strip(s) + right;
  }

  lemma {:induction false} TrimLeftOuter(left: string, s: string)
    requires Blank(left)
    ensures TrimLeft(left + s) == TrimLeft(s)
  {
    if left == [] {
      assert left + s == s;
    } else {
      assert (left + s)[1..] == left[1..] + s;
      TrimLeftOuter(left[1..], s);
    }
  }

  lemma {:induction false} TrimRightOuter(s: string, right: string)
    requires Blank(right)
    ensures TrimRight(s + right) == TrimRight(s)
  {
    if right == [] {
      assert s + right == s;
    } else {
      assert (s + right)[..|s + right| - 1] == s + right[..|right| - 1];
      TrimRightOuter(s, right[..|right| - 1]);
    }
  }

  lemma {:induction false} TrimLeftInner(s: string, right: string)
    requires exists i :: 0 <= i < |s| && !IsSpace(s[i])
    ensures TrimLeft(s + right) == TrimLeft(s) + right
  {
    if IsSpace(s[0]) {
      var i :| 0 <= i < |s| && !IsSpace(s[i]);
      assert !IsSpace(s[1..][i - 1]);
      assert (s + right)[1..] == s[1..] + right;
      TrimLeftInner(s[1..], right);
    }
  }

  /** Outer white space does not change what a string is stripped to. */
  lemma StripOuter(left: string, s: string, right: string)
    requires Blank(left) && Blank(right) && exists i :: 0 <= i < |s| && !IsSpace(s[i])
    ensures Strip(left + s + right) == Strip(s)
  {
    assert left + s + right == left + (s + right);
    TrimLeftOuter(left, s + right);
    TrimLeftInner(s, right);
    TrimRightOuter(TrimLeft(s), right);
  }
}
