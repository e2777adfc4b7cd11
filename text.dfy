/**
 * The JavaScript string primitives the core relies on: `trim`, and
 * `toLowerCase` / `toUpperCase` restricted to ASCII letters.
 */
module Text {

  /** ECMAScript WhiteSpace and LineTerminator code points: what `trim` and `parseInt` skip. */
  predicate IsWhitespace(c: char) {
    || c == '\t' || c == '\n' || c == '\U{000B}' || c == '\U{000C}' || c == '\r' || c == ' '
    || c == '\U{00A0}' || c == '\U{1680}' || ('\U{2000}' <= c <= '\U{200A}')
    || c == '\U{2028}' || c == '\U{2029}' || c == '\U{202F}' || c == '\U{205F}'
    || c == '\U{3000}' || c == '\U{FEFF}'
  }

  predicate AllWhitespace(s: string) {
    forall i :: 0 <= i < |s| ==> IsWhitespace(s[i])
  }

  /** Drops leading whitespace; what is dropped is whitespace and what is kept is a suffix of `s`. */
  function TrimStart(s: string): (r: string)
    ensures |r| <= |s| && r == s[|s| - |r|..]
    ensures AllWhitespace(s[..|s| - |r|])
    ensures r == [] || !IsWhitespace(r[0])
  {
    if s != [] && IsWhitespace(s[0]) then TrimStart(s[1..]) else s
  }

  /** Drops trailing whitespace; what is dropped is whitespace and what is kept is a prefix of `s`. */
  function TrimEnd(s: string): (r: string)
    ensures |r| <= |s| && r == s[..|r|]
    ensures AllWhitespace(s[|r|..])
    ensures r == [] || !IsWhitespace(r[|r| - 1])
  {
    if s != [] && IsWhitespace(s[|s| - 1]) then TrimEnd(s[..|s| - 1]) else s
  }

  /** `r` is a slice of `s` with nothing but whitespace before and after it. */
  predicate InnerText(r: string, s: string) {
    exists i :: 0 <= i <= |s| - |r| && r == s[i..i + |r|]
                && AllWhitespace(s[..i]) && AllWhitespace(s[i + |r|..])
  }

  /**
   * `String.prototype.trim`: the result is a slice of `s` with only whitespace
   * around it, and no whitespace is left at either end.
   */
  function Trim(s: string): (r: string)
    ensures |r| <= |s| && InnerText(r, s)
    ensures r == [] || (!IsWhitespace(r[0]) && !IsWhitespace(r[|r| - 1]))
  {
    var t := TrimStart(s);
    var r := TrimEnd(t);
    assert r != [] ==> r[0] == t[0];
    var i := |s| - |t|;
    assert r == s[i..i + |r|];
    assert s[i + |r|..] == t[|r|..];
    r
  }

  /** The JavaScript test `!s.trim()`: the trimmed string is the falsy empty string. */
  predicate IsBlank(s: string) {
    Trim(s) == ""
  }

  /** A string is blank exactly when it consists of whitespace only. */
  lemma BlankIffAllWhitespace(s: string)
    ensures IsBlank(s) <==> AllWhitespace(s)
  {
    if AllWhitespace(s) {
      TrimStartAllWhitespace(s);
    }
    if IsBlank(s) {
      var t := TrimStart(s);
      assert t[0..] == t;
      assert s == s[..|s| - |t|] + t;
    }
  }

  lemma {:induction false} TrimStartAllWhitespace(s: string)
    requires AllWhitespace(s)
    ensures TrimStart(s) == []
    decreases |s|
  {
    if s != [] {
      TrimStartAllWhitespace(s[1..]);
    }
  }

  lemma {:induction false} TrimStartPadded(p: string, s: string)
    requires AllWhitespace(p)
    ensures TrimStart(p + s) == TrimStart(s)
    decreases |p|
  {
    if p != [] {
      assert (p + s)[1..] == p[1..] + s;
      TrimStartPadded(p[1..], s);
    } else {
      assert p + s == s;
    }
  }

  lemma {:induction false} TrimStartAppend(s: string, q: string)
    requires TrimStart(s) != []
    ensures TrimStart(s + q) == TrimStart(s) + q
    decreases |s|
  {
    if IsWhitespace(s[0]) {
      assert (s + q)[1..] == s[1..] + q;
      TrimStartAppend(s[1..], q);
    }
  }

  lemma {:induction false} TrimEndPadded(s: string, q: string)
    requires AllWhitespace(q)
    ensures TrimEnd(s + q) == TrimEnd(s)
    decreases |q|
  {
    if q != [] {
      var q' := q[..|q| - 1];
      assert (s + q)[..|s + q| - 1] == s + q';
      TrimEndPadded(s, q');
    } else {
      assert s + q == s;
    }
  }

  /** Whitespace around a string never changes what `trim` yields. */
  lemma TrimPadded(p: string, s: string, q: string)
    requires AllWhitespace(p) && AllWhitespace(q)
    ensures Trim(p + s + q) == Trim(s)
  {
    assert p + s + q == p + (s + q);
    TrimStartPadded(p, s + q);
    if TrimStart(s) == [] {
      assert AllWhitespace(s) by { assert s[..|s|] == s; }
      assert AllWhitespace(s + q);
      TrimStartAllWhitespace(s + q);
    } else {
      TrimStartAppend(s, q);
      TrimEndPadded(TrimStart(s), q);
    }
  }

  predicate IsAsciiUpper(c: char) { 'A' <= c <= 'Z' }
  predicate IsAsciiLower(c: char) { 'a' <= c <= 'z' }

  function LowerChar(c: char): char {
    if IsAsciiUpper(c) then (c as int + 32) as char else c
  }

  function UpperChar(c: char): char {
    if IsAsciiLower(c) then (c as int - 32) as char else c
  }

  predicate NoLowercase(s: string) {
    forall i :: 0 <= i < |s| ==> !IsAsciiLower(s[i])
  }

  predicate NoUppercase(s: string) {
    forall i :: 0 <= i < |s| ==> !IsAsciiUpper(s[i])
  }

  /**
   * `String.prototype.toLowerCase` on ASCII letters: no upper-case letter is
   * left and every other character stays in place.
   */
  function ToLower(s: string): (r: string)
    ensures |r| == |s| && NoUppercase(r)
    ensures forall i :: 0 <= i < |s| && !IsAsciiUpper(s[i]) ==> r[i] == s[i]
    ensures forall i :: 0 <= i < |s| && IsAsciiUpper(s[i]) ==> r[i] as int == s[i] as int + 32
  {
    seq(|s|, i requires 0 <= i < |s| => LowerChar(s[i]))
  }

  /**
   * `String.prototype.toUpperCase` on ASCII letters: no lower-case letter is
   * left and every other character stays in place.
   */
  function ToUpper(s: string): (r: string)
    ensures |r| == |s| && NoLowercase(r)
    ensures forall i :: 0 <= i < |s| && !IsAsciiLower(s[i]) ==> r[i] == s[i]
    ensures forall i :: 0 <= i < |s| && IsAsciiLower(s[i]) ==> r[i] as int == s[i] as int - 32
  {
    seq(|s|, i requires 0 <= i < |s| => UpperChar(s[i]))
  }

  /** A string without lower-case letters is its own upper-case form: upper-casing is idempotent. */
  lemma UpperFixed(s: string)
    requires NoLowercase(s)
    ensures ToUpper(s) == s
  {
  }

  /** Trimming keeps a string free of lower-case letters. */
  lemma TrimKeepsNoLowercase(s: string)
    requires NoLowercase(s)
    ensures NoLowercase(Trim(s))
  {
    var t := TrimStart(s);
    assert t == s[|s| - |t|..];
    assert NoLowercase(t);
    var r := TrimEnd(t);
    assert r == t[..|r|];
  }

  /** Trimming keeps a string free of upper-case letters. */
  lemma TrimKeepsNoUppercase(s: string)
    requires NoUppercase(s)
    ensures NoUppercase(Trim(s))
  {
    var t := TrimStart(s);
    assert t == s[|s| - |t|..];
    assert NoUppercase(t);
    var r := TrimEnd(t);
    assert r == t[..|r|];
  }

  lemma ToLowerAppend(a: string, b: string)
    ensures ToLower(a + b) == ToLower(a) + ToLower(b)
  {
  }

  lemma ToLowerWhitespace(p: string)
    requires AllWhitespace(p)
    ensures ToLower(p) == p
  {
  }
}
