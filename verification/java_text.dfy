/** The few java.lang.String operations the services rely on. Trimming,
    blankness and whitespace use the exact character classes of the JDK;
    lower-casing covers the letters of Basic Latin and Latin-1 only. Strings
    are sequences of Unicode scalar values. */
module JavaText {

  import opened Common

  /** String.trim() strips every character whose code is at most U+0020
      (space and all ASCII control characters). */
  predicate IsTrimmable(c: char) {
    c as int <= 0x20
  }

  /** Character.isWhitespace: the Unicode space, line and paragraph separators
      other than the no-break spaces U+00A0, U+2007 and U+202F, plus the
      controls U+0009..U+000D and U+001C..U+001F. */
  predicate IsJavaWhitespace(c: char) {
    var n := c as int;
    || (0x09 <= n <= 0x0D) || (0x1C <= n <= 0x20)
    || n == 0x1680 || (0x2000 <= n <= 0x2006) || (0x2008 <= n <= 0x200A)
    || n == 0x2028 || n == 0x2029 || n == 0x205F || n == 0x3000
  }

  /** String.isBlank(): empty or only whitespace code points. */
  predicate IsBlank(s: string) {
    forall i :: 0 <= i < |s| ==> IsJavaWhitespace(s[i])
  }

  /** The check Spring's Sort.Order constructor makes of a sort property
      (StringUtils.hasText): at least one character that is not whitespace,
      the negation of String.isBlank(). */
  predicate HasText(s: string) {
    !IsBlank(s)
  }

  function TrimStart(s: string): (r: string)
    ensures |r| <= |s| && r == s[|s| - |r|..]
    ensures r == [] || !IsTrimmable(r[0])
    ensures forall i :: 0 <= i < |s| - |r| ==> IsTrimmable(s[i])
  {
    if s != [] && IsTrimmable(s[0]) then TrimStart(s[1..]) else s
  }

  function TrimEnd(s: string): (r: string)
    ensures |r| <= |s| && r == s[..|r|]
    ensures r == [] || !IsTrimmable(r[|r| - 1])
    ensures forall i :: |r| <= i < |s| ==> IsTrimmable(s[i])
  {
    if s != [] && IsTrimmable(s[|s| - 1]) then TrimEnd(s[..|s| - 1]) else s
  }

  /** String.trim(). */
  function Trim(s: string): (r: string)
    ensures r == [] || (!IsTrimmable(r[0]) && !IsTrimmable(r[|r| - 1]))
  {
    TrimEnd(TrimStart(s))
  }

  /** How many characters String.trim() cuts from the front. */
  function TrimOffset(s: string): (k: nat)
    ensures k <= |s|
  {
    |s| - |TrimStart(s)|
  }

  /** The trimmed string is the middle of the original once the trimmable
      characters at both ends are cut away, and it is empty exactly when
      every character was trimmable. */
  lemma {:induction false} TrimIsInfix(s: string)
    ensures TrimOffset(s) + |Trim(s)| <= |s|
    ensures Trim(s) == s[TrimOffset(s)..TrimOffset(s) + |Trim(s)|]
    ensures forall i :: 0 <= i < TrimOffset(s) ==> IsTrimmable(s[i])
    ensures forall i :: TrimOffset(s) + |Trim(s)| <= i < |s| ==> IsTrimmable(s[i])
    ensures Trim(s) == [] <==> (forall i :: 0 <= i < |s| ==> IsTrimmable(s[i]))
  {
    var a := TrimStart(s);
    var k := |s| - |a|;
    var r := TrimEnd(a);
    assert a == s[k..] && r == a[..|r|];
    assert r == s[k..k + |r|];
    TrimEndTail(s, k, r);
    if r != [] {
      assert s[k] == r[0] && !IsTrimmable(s[k]);
    }
  }

  /** The characters after the trimmed middle, which TrimEnd cut from the
      suffix s[k..], are all trimmable. */
  lemma {:induction false} TrimEndTail(s: string, k: nat, r: string)
    requires k <= |s| && r == TrimEnd(s[k..])
    ensures forall i :: k + |r| <= i < |s| ==> IsTrimmable(s[i])
  {
    var a := s[k..];
    forall i | k + |r| <= i < |s| ensures IsTrimmable(s[i]) {
      assert s[i] == a[i - k];
    }
  }

  /** Trimming twice changes nothing more. */
  lemma {:induction false} TrimIdempotent(s: string)
    ensures Trim(Trim(s)) == Trim(s)
  {
    var r := Trim(s);
    if r != [] {
      assert TrimStart(r) == r;
      assert TrimEnd(r) == r;
    }
  }

  /** String.isBlank() and "trim().isEmpty()" are different tests: a NUL
      character is trimmed away but is not whitespace, and the ideographic
      space U+3000 is whitespace but is not trimmed. */
  lemma {:induction false} BlankAndTrimDiffer()
    ensures !IsBlank([0 as char]) && Trim([0 as char]) == []
    ensures IsBlank([0x3000 as char]) && Trim([0x3000 as char]) != []
  {
    assert TrimStart([0 as char]) == [];
  }

  /** Every blank string that consists only of ASCII characters trims to the
      empty string. */
  lemma {:induction false} AsciiBlankTrimsToEmpty(s: string)
    requires IsBlank(s)
    requires forall i :: 0 <= i < |s| ==> s[i] as int < 0x80
    ensures Trim(s) == []
  {
    TrimIsInfix(s);
  }

  /** String.toLowerCase() on the capital letters of Basic Latin (A..Z) and
      Latin-1 (U+00C0..U+00DE except the sign U+00D7), each of which maps to
      the character 0x20 above it; every other character is kept. The JDK
      maps the capitals of the other scripts as well, some of them (U+0130)
      to two characters. */
  function LowerChar(c: char): char {
    var n := c as int;
    if 'A' <= c <= 'Z' || (0xC0 <= n <= 0xDE && n != 0xD7) then (n + 0x20) as char else c
  }

  function ToLowerCase(s: string): (r: string)
    ensures |r| == |s|
    ensures forall i :: 0 <= i < |s| ==> r[i] == LowerChar(s[i])
  {
    if s == [] then [] else [LowerChar(s[0])] + ToLowerCase(s[1..])
  }

  /** Lower-casing is idempotent: no character it produces is a capital it
      would map again. */
  lemma {:induction false} ToLowerCaseIdempotent(s: string)
    ensures ToLowerCase(ToLowerCase(s)) == ToLowerCase(s)
  {
  }

  /** "desc".equalsIgnoreCase(s): the JDK compares char by char, accepting two
      characters when their upper-case forms agree. Besides the ASCII letters
      only U+017F (LATIN SMALL LETTER LONG S) upper-cases to 'S'. */
  predicate IsDescIgnoreCase(s: string) {
    && |s| == 4
    && (s[0] == 'd' || s[0] == 'D')
    && (s[1] == 'e' || s[1] == 'E')
    && (s[2] == 's' || s[2] == 'S' || s[2] as int == 0x017F)
    && (s[3] == 'c' || s[3] == 'C')
  }

  /** The two pieces of s.split(",", 2): the text before the first comma and,
      when there is a comma, everything after it (possibly empty). */
  datatype Split = Split(head: string, tail: Option<string>)

  function SplitFirstComma(s: string): (r: Split)
    ensures ',' !in r.head
    ensures r.tail.None? <==> ',' !in s
    ensures r.tail.None? ==> r.head == s
    ensures r.tail.Some? ==> s == r.head + "," + r.tail.value
  {
    if s == [] then Split([], None)
    else if s[0] == ',' then Split([], Some(s[1..]))
    else
      var rest := SplitFirstComma(s[1..]);
      assert s == [s[0]] + s[1..];
      Split([s[0]] + rest.head, rest.tail)
  }

  /** Splitting "p,d" for a property p without comma gives back p and d. */
  lemma {:induction false} SplitJoined(p: string, d: string)
    requires ',' !in p
    ensures SplitFirstComma(p + "," + d) == Split(p, Some(d))
  {
    if p == [] {
      assert p + "," + d == [','] + d;
    } else {
      assert p + "," + d == [p[0]] + (p[1..] + "," + d);
      SplitJoined(p[1..], d);
    }
  }
}
