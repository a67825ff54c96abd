// The two Python `str` operations that fo.py applies to the text fields of a
// new trade: `strip()` (no argument) and `upper()`.

module PyStr {

  /** The characters Python's `str.isspace()` accepts; `str.strip()` with no
      argument removes exactly these from both ends. */
  predicate IsSpace(c: char) {
    c == ' ' || ('\t' <= c <= '\r') || ('\U{1C}' <= c <= '\U{1F}')
    || c == '\U{85}' || c == '\U{A0}' || c == '\U{1680}'
    || ('\U{2000}' <= c <= '\U{200A}') || c == '\U{2028}' || c == '\U{2029}'
    || c == '\U{202F}' || c == '\U{205F}' || c == '\U{3000}'
  }

  predicate IsLowerAscii(c: char) {
    'a' <= c <= 'z'
  }

  /** True when `s` neither starts nor ends with whitespace. */
  predicate Trimmed(s: string) {
    s == [] || (!IsSpace(s[0]) && !IsSpace(s[|s| - 1]))
  }

  /** `r` sits in `s` at offset `a` with only whitespace around it. */
  predicate InfixAt(s: string, r: string, a: int) {
    0 <= a && a + |r| <= |s| && r == s[a..a + |r|]
    && (forall i :: 0 <= i < a ==> IsSpace(s[i]))
    && (forall i :: a + |r| <= i < |s| ==> IsSpace(s[i]))
  }

  /** Drops the leading whitespace: the result is a suffix of `s` and
      everything dropped is whitespace. */
  function TrimStart(s: string): (r: string)
    ensures |r| <= |s| && r == s[|s| - |r|..]
    ensures forall i :: 0 <= i < |s| - |r| ==> IsSpace(s[i])
    ensures r != [] ==> !IsSpace(r[0])
  {
    if s != [] && IsSpace(s[0]) then TrimStart(s[1..]) else s
  }

  /** Drops the trailing whitespace: the result is a prefix of `s` and
      everything dropped is whitespace. */
  function TrimEnd(s: string): (r: string)
    ensures |r| <= |s| && r == s[..|r|]
    ensures forall i :: |r| <= i < |s| ==> IsSpace(s[i])
    ensures r != [] ==> !IsSpace(r[|r| - 1])
  {
    if s != [] && IsSpace(s[|s| - 1]) then TrimEnd(s[..|s| - 1]) else s
  }

  /** Python's `s.strip()`. */
  function Strip(s: string): (r: string)
    ensures |r| <= |s| && Trimmed(r)
    ensures Trimmed(s) ==> r == s
    ensures r == [] <==> forall i :: 0 <= i < |s| ==> IsSpace(s[i])
  {
    var u := TrimStart(s);
    var r := TrimEnd(u);
    assert r != [] ==> !IsSpace(s[|s| - |u|]) by {
      if r != [] {
        assert r[0] == u[0] == s[|s| - |u|];
      }
    }
    r
  }

  /** What `strip()` returns is the input's own middle: a slice of `s` with
      only whitespace before and after it. */
  lemma StripIsInfix(s: string)
    ensures exists a :: InfixAt(s, Strip(s), a)
  {
    var u := TrimStart(s);
    SuffixSpaces(s, u, |s| - |u|);
    assert InfixAt(s, Strip(s), |s| - |u|);
  }

  /** Whitespace that `TrimEnd` drops from a suffix `u` of `s` is whitespace
      at the same place in `s`. */
  lemma SuffixSpaces(s: string, u: string, a: int)
    requires 0 <= a <= |s| && u == s[a..]
    ensures forall i :: a + |TrimEnd(u)| <= i < |s| ==> IsSpace(s[i])
  {
    forall i | a + |TrimEnd(u)| <= i < |s| ensures IsSpace(s[i]) {
      assert s[i] == u[i - a];
    }
  }

  /** Python's `str.upper()` on an ASCII letter: `a`..`z` become `A`..`Z`,
      every other character is kept. */
  function UpperChar(c: char): char {
    if IsLowerAscii(c) then (c as int - 32) as char else c
  }

  /** Upper-casing neither creates nor removes whitespace. */
  lemma UpperCharKeepsSpace(c: char)
    ensures IsSpace(UpperChar(c)) <==> IsSpace(c)
  {
  }

  /** Python's `s.upper()`, restricted to the ASCII letters. */
  function Upper(s: string): (r: string)
    ensures |r| == |s|
    ensures forall i :: 0 <= i < |r| ==> !IsLowerAscii(r[i])
    ensures forall i :: 0 <= i < |s| && !IsLowerAscii(s[i]) ==> r[i] == s[i]
    ensures forall i :: 0 <= i < |s| && IsLowerAscii(s[i]) ==> r[i] as int == s[i] as int - 32
    ensures forall i :: 0 <= i < |s| ==> r[i] == UpperChar(s[i])
  {
    if s == [] then [] else [UpperChar(s[0])] + Upper(s[1..])
  }

  /** `s.strip().upper()`, the form fo.py stores a trade's symbol in: no
      surrounding whitespace, no lower-case letter, and empty exactly when
      the input was blank. */
  function Normalize(s: string): (r: string)
    ensures Trimmed(r)
    ensures forall i :: 0 <= i < |r| ==> !IsLowerAscii(r[i])
    ensures r == [] <==> forall i :: 0 <= i < |s| ==> IsSpace(s[i])
    ensures |r| == |Strip(s)| && forall i :: 0 <= i < |r| ==> r[i] == UpperChar(Strip(s)[i])
  {
    var t := Strip(s);
    var r := Upper(t);
    assert Trimmed(r) by {
      if r != [] {
        UpperCharKeepsSpace(t[0]);
        UpperCharKeepsSpace(t[|t| - 1]);
      }
    }
    r
  }

  /** `strip().upper()` is idempotent: applied to its own output it changes
      nothing. */
  lemma NormalizeIdempotent(s: string)
    ensures Normalize(Normalize(s)) == Normalize(s)
  {
  }
}
