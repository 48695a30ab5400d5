/** The JavaScript string primitives the contact form relies on: the white-space
    class shared by `String.prototype.trim` and the regular-expression escape `\s`,
    `trim` itself, and `.length`, which counts UTF-16 code units rather than
    characters. */
module JsText {

  /** ECMAScript WhiteSpace and LineTerminator code points: the set `trim()` strips
      and the set `\s` matches. */
  predicate IsWs(c: char) {
    c == '\t' || c == '\n' || c == '\U{000B}' || c == '\U{000C}' || c == '\r' ||
    c == ' ' || c == '\U{00A0}' || c == '\U{1680}' ||
    ('\U{2000}' <= c <= '\U{200A}') ||
    c == '\U{2028}' || c == '\U{2029}' || c == '\U{202F}' || c == '\U{205F}' ||
    c == '\U{3000}' || c == '\U{FEFF}'
  }

  /** Every character of `s` is white space (vacuously true of the empty string). */
  predicate AllWs(s: string) {
    forall i :: 0 <= i < |s| ==> IsWs(s[i])
  }

  /** `s` with its leading white space removed. */
  function TrimStart(s: string): string {
    if s != [] && IsWs(s[0]) then TrimStart(s[1..]) else s
  }

  /** `s` with its trailing white space removed. */
  function TrimEnd(s: string): string {
    if s != [] && IsWs(s[|s| - 1]) then TrimEnd(s[..|s| - 1]) else s
  }

  /** `String.prototype.trim`: strip white space from both ends. */
  function Trim(s: string): string {
    TrimEnd(TrimStart(s))
  }

  /** `TrimStart` keeps a suffix that does not start with white space and cuts
      away only white space. */
  lemma {:induction false} TrimStartSpec(s: string)
    ensures |TrimStart(s)| <= |s| && TrimStart(s) == s[|s| - |TrimStart(s)|..]
    ensures TrimStart(s) == [] || !IsWs(TrimStart(s)[0])
    ensures AllWs(s[..|s| - |TrimStart(s)|])
  {
    var r := TrimStart(s);
    if s != [] && IsWs(s[0]) {
      var u := s[1..];
      TrimStartSpec(u);
      assert u[|u| - |r|..] == s[|s| - |r|..];
      var cut := s[..|s| - |r|];
      forall k | 0 <= k < |cut| ensures IsWs(cut[k]) {
        if k > 0 { assert cut[k] == u[..|u| - |r|][k - 1]; }
      }
    } else {
      assert s[..0] == [];
    }
  }

  /** `TrimEnd` keeps a prefix that does not end with white space and cuts away
      only white space. */
  lemma {:induction false} TrimEndSpec(s: string)
    ensures |TrimEnd(s)| <= |s| && TrimEnd(s) == s[..|TrimEnd(s)|]
    ensures TrimEnd(s) == [] || !IsWs(TrimEnd(s)[|TrimEnd(s)| - 1])
    ensures AllWs(s[|TrimEnd(s)|..])
  {
    var r := TrimEnd(s);
    if s != [] && IsWs(s[|s| - 1]) {
      var u := s[..|s| - 1];
      TrimEndSpec(u);
      assert u[..|r|] == s[..|r|];
      var cut := s[|r|..];
      forall k | 0 <= k < |cut| ensures IsWs(cut[k]) {
        if k < |s| - 1 - |r| { assert cut[k] == u[|r|..][k]; }
      }
    } else {
      assert s[|s|..] == [];
    }
  }

  /** What `trim` returns is the infix of `s` that neither starts nor ends with
      white space, everything cut away on either side being white space. */
  lemma TrimIsStrippedInfix(s: string)
    ensures exists i :: 0 <= i <= |s| - |Trim(s)| && Trim(s) == s[i..i + |Trim(s)|] &&
                        AllWs(s[..i]) && AllWs(s[i + |Trim(s)|..])
    ensures Trim(s) == [] || (!IsWs(Trim(s)[0]) && !IsWs(Trim(s)[|Trim(s)| - 1]))
  {
    var t := TrimStart(s);
    var r := TrimEnd(t);
    TrimStartSpec(s);
    TrimEndSpec(t);
    var i := |s| - |t|;
    assert t == s[i..];
    assert r == t[..|r|];
    assert r == s[i..i + |r|];
    assert s[i + |r|..] == t[|r|..];
    assert AllWs(s[..i]) && AllWs(s[i + |r|..]);
  }

  /** `s.trim() === ''` holds exactly when every character of `s` is white space. */
  lemma TrimEmptyIffAllWs(s: string)
    ensures Trim(s) == [] <==> AllWs(s)
  {
    var t := TrimStart(s);
    TrimStartSpec(s);
    TrimEndSpec(t);
    if t == [] {
      assert s[..|s|] == s;
    } else {
      assert t[0] == s[|s| - |t|] && t[0] == t[0..][0];
    }
  }

  /** The number of UTF-16 code units of a character: two for a code point above
      U+FFFF (a surrogate pair), one otherwise. */
  function CodeUnits(c: char): (n: nat)
    ensures 1 <= n <= 2
    ensures n == 2 <==> c as int > 0xFFFF
  {
    if c as int > 0xFFFF then 2 else 1
  }

  /** JavaScript's `s.length`: the number of UTF-16 code units of `s`. */
  function Utf16Length(s: string): (n: nat)
    decreases |s|
  {
    if s == [] then 0 else Utf16Length(s[..|s| - 1]) + CodeUnits(s[|s| - 1])
  }

  /** `.length` lies between the number of characters and twice that. */
  lemma {:induction false} Utf16LengthBounds(s: string)
    ensures |s| <= Utf16Length(s) <= 2 * |s|
  {
    if s != [] { Utf16LengthBounds(s[..|s| - 1]); }
  }

  /** A string of Basic Multilingual Plane characters has `.length` equal to its
      number of characters. */
  lemma {:induction false} Utf16LengthOfBmp(s: string)
    requires forall i :: 0 <= i < |s| ==> s[i] as int <= 0xFFFF
    ensures Utf16Length(s) == |s|
  {
    if s != [] { Utf16LengthOfBmp(s[..|s| - 1]); }
  }
}
