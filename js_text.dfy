/**
 * The string operations the schemas apply after their checks:
 * `String.prototype.trim`, `toUpperCase` and `toLowerCase`.
 *
 * `trim` removes exactly the ECMAScript WhiteSpace and LineTerminator
 * characters from both ends. Case conversion is modelled character by
 * character over Latin-1 (U+0000 to U+00FF), which covers ASCII and the
 * accented letters of Spanish; every other character is left as it is.
 */
module JsText {

  /** ECMAScript WhiteSpace and LineTerminator: what `trim` removes. */
  predicate IsWhiteSpace(c: char) {
    || c == '\t' || c == '\n' || c == '\U{B}' || c == '\U{C}' || c == '\r' || c == ' '
    || c == '\U{A0}' || c == '\U{1680}' || ('\U{2000}' <= c <= '\U{200A}')
    || c == '\U{2028}' || c == '\U{2029}' || c == '\U{202F}' || c == '\U{205F}'
    || c == '\U{3000}' || c == '\U{FEFF}'
  }

  predicate AllWhiteSpace(s: string) {
    forall i :: 0 <= i < |s| ==> IsWhiteSpace(s[i])
  }

  /** Neither end of `s` is white space. */
  predicate Trimmed(s: string) {
    s == [] || (!IsWhiteSpace(s[0]) && !IsWhiteSpace(s[|s| - 1]))
  }

  /** `s` is `r` with only white space added before (`k` characters) and after it. */
  predicate PaddedBy(s: string, k: nat, r: string) {
    && k + |r| <= |s|
    && s[k..k + |r|] == r
    && AllWhiteSpace(s[..k])
    && AllWhiteSpace(s[k + |r|..])
  }

  function TrimStart(s: string): string {
    if s != [] && IsWhiteSpace(s[0]) then TrimStart(s[1..]) else s
  }

  function TrimEnd(s: string): string {
    if s != [] && IsWhiteSpace(s[|s| - 1]) then TrimEnd(s[..|s| - 1]) else s
  }

  /** `TrimStart` drops the white space at the front and stops at the first other character. */
  lemma {:induction false} TrimStartShape(s: string)
    ensures |TrimStart(s)| <= |s| && TrimStart(s) == s[|s| - |TrimStart(s)|..]
    ensures AllWhiteSpace(s[..|s| - |TrimStart(s)|])
    ensures TrimStart(s) == [] || !IsWhiteSpace(TrimStart(s)[0])
  {
    if s != [] && IsWhiteSpace(s[0]) {
      var u := s[1..];
      TrimStartShape(u);
      var n := |u| - |TrimStart(u)|;
      assert u[n..] == s[n + 1..];
      assert s[..n + 1] == [s[0]] + u[..n];
    }
  }

  /** `TrimEnd` drops the white space at the back and stops at the last other character. */
  lemma {:induction false} TrimEndShape(s: string)
    ensures |TrimEnd(s)| <= |s| && TrimEnd(s) == s[..|TrimEnd(s)|]
    ensures AllWhiteSpace(s[|TrimEnd(s)|..])
    ensures TrimEnd(s) == [] || !IsWhiteSpace(TrimEnd(s)[|TrimEnd(s)| - 1])
  {
    if s != [] && IsWhiteSpace(s[|s| - 1]) {
      var u := s[..|s| - 1];
      TrimEndShape(u);
      var n := |TrimEnd(u)|;
      assert u[..n] == s[..n];
      assert s[n..] == u[n..] + [s[|s| - 1]];
    }
  }

  /** `s.trim()`: `s` without the white space at both of its ends. */
  function Trim(s: string): string {
    TrimEnd(TrimStart(s))
  }

  /** `trim` leaves a string with no white space at its ends, padded by white space to `s`. */
  lemma TrimShape(s: string)
    ensures Trimmed(Trim(s))
    ensures exists k: nat :: PaddedBy(s, k, Trim(s))
  {
    var t := TrimStart(s);
    var r := TrimEnd(t);
    var k := |s| - |t|;
    TrimStartShape(s);
    TrimEndShape(t);
    assert s[k..k + |r|] == r;
    assert s[k + |r|..] == t[|r|..];
    assert PaddedBy(s, k, r);
  }

  /** There is only one way to see `s` as a trimmed string padded with white space. */
  lemma PaddingUnique(s: string, k1: nat, r1: string, k2: nat, r2: string)
    requires PaddedBy(s, k1, r1) && Trimmed(r1)
    requires PaddedBy(s, k2, r2) && Trimmed(r2)
    ensures r1 == r2
  {
  }

  /** `trim` leaves a string without outer white space as it is. */
  lemma TrimOfTrimmed(s: string)
    requires Trimmed(s)
    ensures Trim(s) == s
  {
    TrimShape(s);
    var k: nat :| PaddedBy(s, k, Trim(s));
    assert PaddedBy(s, 0, s);
    PaddingUnique(s, k, Trim(s), 0, s);
  }

  /** `trim` yields "" exactly for the strings made only of white space. */
  lemma TrimEmpty(s: string)
    ensures Trim(s) == [] <==> AllWhiteSpace(s)
  {
    TrimShape(s);
    var k: nat :| PaddedBy(s, k, Trim(s));
    if Trim(s) == [] {
      forall i | 0 <= i < |s| ensures IsWhiteSpace(s[i]) {
        if i < k {
          assert s[..k][i] == s[i];
        } else {
          assert s[k..][i - k] == s[i];
        }
      }
    }
    if AllWhiteSpace(s) {
      assert s[..0] == [] && s[0..] == s;
      assert PaddedBy(s, 0, []);
      PaddingUnique(s, k, Trim(s), 0, []);
    }
  }

  /** `trim` is idempotent. */
  lemma TrimIdempotent(s: string)
    ensures Trim(Trim(s)) == Trim(s)
  {
    TrimShape(s);
    TrimOfTrimmed(Trim(s));
  }

  /** `trim` never lengthens a string. */
  lemma TrimShortens(s: string)
    ensures |Trim(s)| <= |s|
  {
    TrimShape(s);
    var k: nat :| PaddedBy(s, k, Trim(s));
  }

  datatype Case = Upper | Lower

  /**
   * The case mapping of one character: ASCII letters and the Latin-1
   * letters (à to þ and À to Þ, except the signs × and ÷), plus ÿ to Ÿ and
   * µ to Μ when upper-casing. ß, which JavaScript upper-cases to "SS", is
   * left unchanged; characters above U+00FF are left unchanged.
   */
  function ConvertChar(k: Case, c: char): char {
    match k
    case Upper =>
      if 'a' <= c <= 'z' || ('\U{E0}' <= c <= '\U{FE}' && c != '\U{F7}') then (c as int - 32) as char
      else if c == '\U{FF}' then '\U{178}'
      else if c == '\U{B5}' then '\U{39C}'
      else c
    case Lower =>
      if 'A' <= c <= 'Z' || ('\U{C0}' <= c <= '\U{DE}' && c != '\U{D7}') then (c as int + 32) as char
      else c
  }

  /** Case conversion maps each character on its own and keeps the length. */
  function ConvertCase(k: Case, s: string): (r: string)
    ensures |r| == |s|
  {
    if s == [] then [] else [ConvertChar(k, s[0])] + ConvertCase(k, s[1..])
  }

  lemma {:induction false} ConvertCaseAt(k: Case, s: string)
    ensures forall i :: 0 <= i < |s| ==> ConvertCase(k, s)[i] == ConvertChar(k, s[i])
  {
    if s != [] {
      ConvertCaseAt(k, s[1..]);
    }
  }

  function ToUpperCase(s: string): string {
    ConvertCase(Upper, s)
  }

  function ToLowerCase(s: string): string {
    ConvertCase(Lower, s)
  }

  /** The schemas' transform `val.trim().toUpperCase()` (or `.toLowerCase()`). */
  function Normalise(k: Case, s: string): string {
    ConvertCase(k, Trim(s))
  }

  /** Converting twice is converting once. */
  lemma ConvertCaseIdempotent(k: Case, s: string)
    ensures ConvertCase(k, ConvertCase(k, s)) == ConvertCase(k, s)
  {
  }

  /** The case mapping sends white space to itself and nothing else to white space. */
  lemma ConvertCharKeepsWhiteSpace(k: Case, c: char)
    ensures IsWhiteSpace(ConvertChar(k, c)) <==> IsWhiteSpace(c)
    ensures IsWhiteSpace(c) ==> ConvertChar(k, c) == c
  {
  }

  /** Case conversion neither creates nor removes white space. */
  lemma ConvertCaseKeepsWhiteSpace(k: Case, s: string)
    ensures AllWhiteSpace(ConvertCase(k, s)) <==> AllWhiteSpace(s)
    ensures Trimmed(ConvertCase(k, s)) <==> Trimmed(s)
  {
    var c := ConvertCase(k, s);
    ConvertCaseAt(k, s);
    forall i | 0 <= i < |s|
      ensures IsWhiteSpace(c[i]) <==> IsWhiteSpace(s[i])
    {
      ConvertCharKeepsWhiteSpace(k, s[i]);
    }
  }

  /** Converting a slice is slicing the conversion. */
  lemma ConvertCaseSlice(k: Case, s: string, i: nat, j: nat)
    requires i <= j <= |s|
    ensures ConvertCase(k, s)[i..j] == ConvertCase(k, s[i..j])
  {
    ConvertCaseAt(k, s);
    ConvertCaseAt(k, s[i..j]);
  }

  lemma {:induction false} TrimStartConvert(k: Case, s: string)
    ensures TrimStart(ConvertCase(k, s)) == ConvertCase(k, TrimStart(s))
  {
    if s != [] {
      ConvertCharKeepsWhiteSpace(k, s[0]);
      var c := ConvertCase(k, s);
      if IsWhiteSpace(s[0]) {
        assert c[1..] == ConvertCase(k, s[1..]);
        TrimStartConvert(k, s[1..]);
      }
    }
  }

  lemma {:induction false} TrimEndConvert(k: Case, s: string)
    ensures TrimEnd(ConvertCase(k, s)) == ConvertCase(k, TrimEnd(s))
  {
    if s != [] {
      ConvertCharKeepsWhiteSpace(k, s[|s| - 1]);
      var c := ConvertCase(k, s);
      ConvertCaseAt(k, s);
      if IsWhiteSpace(s[|s| - 1]) {
        ConvertCaseSlice(k, s, 0, |s| - 1);
        assert c[0..|s| - 1] == c[..|c| - 1] && s[0..|s| - 1] == s[..|s| - 1];
        TrimEndConvert(k, s[..|s| - 1]);
      }
    }
  }

  /** Trimming and case conversion commute. */
  lemma TrimConvertCommute(k: Case, s: string)
    ensures Trim(ConvertCase(k, s)) == ConvertCase(k, Trim(s))
  {
    TrimStartConvert(k, s);
    TrimEndConvert(k, TrimStart(s));
  }

  /** Normalising a normalised string changes nothing. */
  lemma NormaliseIdempotent(k: Case, s: string)
    ensures Normalise(k, Normalise(k, s)) == Normalise(k, s)
  {
    TrimConvertCommute(k, Trim(s));
    TrimIdempotent(s);
    ConvertCaseIdempotent(k, Trim(s));
  }

  /**
   * The normalised text has no outer white space, is never longer than the
   * input, and is "" exactly for white space.
   */
  lemma NormaliseShape(k: Case, s: string)
    ensures Trimmed(Normalise(k, s))
    ensures |Normalise(k, s)| <= |s|
    ensures Normalise(k, s) == [] <==> AllWhiteSpace(s)
  {
    TrimShape(s);
    ConvertCaseKeepsWhiteSpace(k, Trim(s));
    TrimShortens(s);
    TrimEmpty(s);
  }
}
