/** The two string operations the services apply to payment-term labels:
    Python's `str.strip()` and `str.upper()`. */
module Text {

  /** The characters `str.strip()` removes that this model knows of: ASCII
      whitespace, the four ASCII separators, NEL and NO-BREAK SPACE. */
  predicate IsSpace(c: char)
  {
    var n := c as int;
    n == 32 || 9 <= n <= 13 || 28 <= n <= 31 || n == 133 || n == 160
  }

  /** Upper-casing of one character, for ASCII and the Latin-1 letters that
      map to a single Latin-1 capital. */
  function UpperChar(c: char): char
  {
    var n := c as int;
    if 97 <= n <= 122 || (224 <= n <= 254 && n != 247) then (n - 32) as char else c
  }

  function TrimStart(s: string): (r: string)
    ensures |r| <= |s| && r == s[|s| - |r|..]
    ensures r == [] || !IsSpace(r[0])
  {
    if s != [] && IsSpace(s[0]) then TrimStart(s[1..]) else s
  }

  function TrimEnd(s: string): (r: string)
    ensures |r| <= |s| && r == s[..|r|]
    ensures r == [] || !IsSpace(r[|r| - 1])
  {
    if s != [] && IsSpace(s[|s| - 1]) then TrimEnd(s[..|s| - 1]) else s
  }

  /** `str.strip()`: the longest slice of `s` that neither starts nor ends
      with a space. */
  function Strip(s: string): (r: string)
  {
    TrimEnd(TrimStart(s))
  }

  /** `str.upper()`, character by character. */
  function Upper(s: string): (r: string)
  {
    seq(|s|, k requires 0 <= k < |s| => UpperChar(s[k]))
  }

  /** The canonical form of a payment-term label: stripped, then upper-cased. */
  function Canonical(s: string): string
  {
    Upper(Strip(s))
  }

  /** A string with no space at either end is its own strip. */
  lemma StripTrimmed(s: string)
    requires s == [] || (!IsSpace(s[0]) && !IsSpace(s[|s| - 1]))
    ensures Strip(s) == s
  {
  }

  /** Strip leaves nothing to strip. */
  lemma {:induction false} StripShape(s: string)
    ensures var r := Strip(s); r == [] || (!IsSpace(r[0]) && !IsSpace(r[|r| - 1]))
  {
    var t := TrimStart(s);
    var r := TrimEnd(t);
    if r != [] {
      assert r[0] == t[0];
    }
  }

  /** Canonicalising a canonical label changes nothing, so every label the
      payment-term normaliser outputs is stripped and upper-cased. */
  lemma CanonicalIdempotent(s: string)
    ensures Canonical(Canonical(s)) == Canonical(s)
  {
    var t := Strip(s);
    var c := Upper(t);
    StripShape(s);
    UpperShape(t);
    StripTrimmed(c);
  }

  /** Upper-casing a character keeps it a space or not, and a second
      upper-casing changes nothing. */
  lemma UpperCharShape(ch: char)
    ensures IsSpace(UpperChar(ch)) == IsSpace(ch)
    ensures UpperChar(UpperChar(ch)) == UpperChar(ch)
  {
  }

  /** Upper-casing keeps the length and the spaces at both ends, and is
      idempotent. */
  lemma UpperShape(t: string)
    ensures |Upper(t)| == |t|
    ensures t != [] ==> IsSpace(Upper(t)[0]) == IsSpace(t[0]) && IsSpace(Upper(t)[|t| - 1]) == IsSpace(t[|t| - 1])
    ensures Upper(Upper(t)) == Upper(t)
  {
    var c := Upper(t);
    if t != [] {
      UpperCharShape(t[0]);
      UpperCharShape(t[|t| - 1]);
    }
    forall k | 0 <= k < |t| ensures Upper(c)[k] == c[k] {
      UpperCharShape(t[k]);
    }
  }

  /** The empty label canonicalises to itself. */
  lemma CanonicalOfEmpty()
    ensures Canonical("") == ""
  {
    assert Strip("") == "";
  }

  /** TrimStart removes spaces only. */
  lemma {:induction false} TrimStartRemovesSpaces(s: string)
    ensures forall k :: 0 <= k < |s| - |TrimStart(s)| ==> IsSpace(s[k])
  {
    if s != [] && IsSpace(s[0]) {
      TrimStartRemovesSpaces(s[1..]);
      assert forall k :: 1 <= k < |s| ==> s[k] == s[1..][k - 1];
    }
  }

  /** A string of spaces only trims to nothing. */
  lemma {:induction false} TrimStartAllSpaces(s: string)
    requires forall k :: 0 <= k < |s| ==> IsSpace(s[k])
    ensures TrimStart(s) == []
  {
    if s != [] {
      TrimStartAllSpaces(s[1..]);
    }
  }

  /** TrimEnd never removes a non-space first character. */
  lemma {:induction false} TrimEndKeepsHead(s: string)
    requires s != [] && !IsSpace(s[0])
    ensures TrimEnd(s) != []
  {
    if IsSpace(s[|s| - 1]) {
      TrimEndKeepsHead(s[..|s| - 1]);
    }
  }

  /** Canonical forms are empty exactly when the label is blank. */
  lemma CanonicalEmpty(s: string)
    ensures Canonical(s) == [] <==> forall k :: 0 <= k < |s| ==> IsSpace(s[k])
  {
    var t := TrimStart(s);
    TrimStartRemovesSpaces(s);
    if forall k :: 0 <= k < |s| ==> IsSpace(s[k]) {
      TrimStartAllSpaces(s);
    }
    if t != [] {
      TrimEndKeepsHead(t);
      assert !IsSpace(s[|s| - |t|]);
    }
  }
}
