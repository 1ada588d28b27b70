/** The handful of Java string operations the front end relies on, written
    out so that their edge cases are explicit: String.trim, the split on a
    single space, StringReader.readUnquotedString, and decimal formatting of
    non-negative ints with left justification ("%-Nd"). */
module Text {

  /** String.trim removes every leading and trailing char whose code is at most U+0020. */
  predicate IsTrimmed(c: char) { c <= ' ' }

  /** The index of the first kept char at or after `i`. */
  function KeptFrom(s: string, i: nat): (k: nat)
    requires i <= |s|
    ensures i <= k <= |s| && (k == |s| || !IsTrimmed(s[k]))
    ensures forall j :: i <= j < k ==> IsTrimmed(s[j])
    decreases |s| - i
  {
    if i == |s| || !IsTrimmed(s[i]) then i else KeptFrom(s, i + 1)
  }

  /** The end of the kept chars in s[lo..hi]. */
  function KeptTo(s: string, lo: nat, hi: nat): (k: nat)
    requires lo <= hi <= |s|
    ensures lo <= k <= hi && (k == lo || !IsTrimmed(s[k - 1]))
    ensures forall j :: k <= j < hi ==> IsTrimmed(s[j])
    decreases hi
  {
    if hi == lo || !IsTrimmed(s[hi - 1]) then hi else KeptTo(s, lo, hi - 1)
  }

  /** Java's String.trim. */
  function Trim(s: string): (r: string)
    ensures |r| <= |s|
    ensures r == [] || (!IsTrimmed(r[0]) && !IsTrimmed(r[|r| - 1]))
    ensures (forall c :: c in s ==> IsTrimmed(c)) <==> r == []
  {
    var lo := KeptFrom(s, 0);
    var hi := KeptTo(s, lo, |s|);
    s[lo..hi]
  }

  /** CommandFunction.shouldConcatenateNextLine: the text ends with a backslash. */
  predicate EndsWithBackslash(s: string) { |s| > 0 && s[|s| - 1] == '\\' }

  /** The pieces of `s` between single spaces, keeping every empty piece. */
  function Fields(s: string): (r: seq<string>)
    ensures |r| >= 1
    ensures ' ' !in s ==> r == [s]
  {
    if s == [] then [""]
    else if s[0] == ' ' then [""] + Fields(s[1..])
    else
      var rest := Fields(s[1..]);
      assert ' ' !in s ==> [s[0]] + s[1..] == s;
      [[s[0]] + rest[0]] + rest[1..]
  }

  function DropTrailingEmpty(xs: seq<string>): (r: seq<string>)
    ensures |r| <= |xs| && r == xs[..|r|]
    ensures r == [] || r[|r| - 1] != ""
  {
    if xs == [] || xs[|xs| - 1] != "" then xs else DropTrailingEmpty(xs[..|xs| - 1])
  }

  /** Java's s.split(" "): without any space the whole string is the only
      piece; otherwise the pieces between spaces with trailing empty ones removed. */
  function Split(s: string): seq<string>
  {
    if ' ' !in s then [s] else DropTrailingEmpty(Fields(s))
  }

  /** s.split(" ", 2)[0]: the text before the first space. */
  function FirstToken(s: string): (r: string)
    ensures ' ' !in r
  {
    FieldsHeadHasNoSpace(s);
    Fields(s)[0]
  }

  lemma FieldsHeadHasNoSpace(s: string)
    ensures ' ' !in Fields(s)[0]
  {
    if s != [] && s[0] != ' ' {
      FieldsHeadHasNoSpace(s[1..]);
    }
  }

  /** Characters brigadier accepts in an unquoted string. */
  predicate IsUnquotedChar(c: char)
  {
    ('0' <= c <= '9') || ('A' <= c <= 'Z') || ('a' <= c <= 'z') || c == '_' || c == '-' || c == '.' || c == '+'
  }

  /** StringReader.readUnquotedString from the start of `s`: the longest prefix of unquoted characters. */
  function ReadUnquoted(s: string): (r: string)
    ensures |r| <= |s| && r == s[..|r|]
    ensures forall c :: c in r ==> IsUnquotedChar(c)
    ensures |r| < |s| ==> !IsUnquotedChar(s[|r|])
  {
    if s == [] || !IsUnquotedChar(s[0]) then "" else [s[0]] + ReadUnquoted(s[1..])
  }

  function DigitChar(d: nat): char
    requires d < 10
  {
    "0123456789"[d]
  }

  /** Integer.toString for a non-negative value. */
  function NatToString(n: nat): (r: string)
    ensures |r| >= 1
    decreases n
  {
    if n < 10 then [DigitChar(n)] else NatToString(n / 10) + [DigitChar(n % 10)]
  }

  /** A larger number never has fewer digits. */
  lemma {:induction false} NatToStringMonotone(a: nat, b: nat)
    requires a <= b
    ensures |NatToString(a)| <= |NatToString(b)|
    decreases b
  {
    if b >= 10 && a >= 10 {
      NatToStringMonotone(a / 10, b / 10);
    }
  }

  function Spaces(n: nat): (r: string)
    ensures |r| == n && forall c :: c in r ==> c == ' '
  {
    if n == 0 then "" else " " + Spaces(n - 1)
  }

  /** String.format("%-" + w + "d", n): the number, then spaces up to width w. */
  function LeftJustify(s: string, w: nat): (r: string)
    ensures |r| == if |s| < w then w else |s|
    ensures r[..|s|] == s
  {
    if |s| < w then s + Spaces(w - |s|) else s
  }
}
