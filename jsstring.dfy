// The JavaScript string operations the editor and the transcription client
// rely on: trim, startsWith, slice (with negative indices), includes,
// ASCII lower-casing, parseInt with radix 16 and decimal rendering of
// non-negative integers.

module JsString {

  /** ECMAScript WhiteSpace and LineTerminator code points, the set that
      `String.prototype.trim` removes. */
  const Whitespace: set<char> := {
    '\U{0009}', '\U{000A}', '\U{000B}', '\U{000C}', '\U{000D}', '\U{0020}', '\U{00A0}',
    '\U{1680}', '\U{2000}', '\U{2001}', '\U{2002}', '\U{2003}', '\U{2004}', '\U{2005}',
    '\U{2006}', '\U{2007}', '\U{2008}', '\U{2009}', '\U{200A}', '\U{2028}', '\U{2029}',
    '\U{202F}', '\U{205F}', '\U{3000}', '\U{FEFF}'
  }

  predicate IsWhitespace(c: char) {
    c in Whitespace
  }

  predicate AllWhitespace(s: string) {
    forall i :: 0 <= i < |s| ==> IsWhitespace(s[i])
  }

  /** `s` without its leading whitespace. */
  function TrimStart(s: string): (r: string)
    ensures |r| <= |s| && r == s[|s| - |r|..]
    ensures r == [] || !IsWhitespace(r[0])
    decreases |s|
  {
    if s != [] && IsWhitespace(s[0]) then TrimStart(s[1..]) else s
  }

  /** `s` without its trailing whitespace. */
  function TrimEnd(s: string): (r: string)
    ensures |r| <= |s| && r == s[..|r|]
    ensures r == [] || !IsWhitespace(r[|r| - 1])
    decreases |s|
  {
    if s != [] && IsWhitespace(s[|s| - 1]) then TrimEnd(s[..|s| - 1]) else s
  }

  /** `String.prototype.trim`. */
  function Trim(s: string): string
  {
    TrimEnd(TrimStart(s))
  }

  /** `s` is the whitespace `TrimStart` removed followed by what it kept. */
  lemma TrimStartSplit(s: string)
    ensures var k := |s| - |TrimStart(s)|;
      AllWhitespace(s[..k]) && s == s[..k] + TrimStart(s)
  {
    var k := |s| - |TrimStart(s)|;
    TrimStartDropsWhitespace(s);
    assert s == s[..k] + s[k..];
  }

  lemma {:induction false} TrimStartDropsWhitespace(s: string)
    ensures forall i :: 0 <= i < |s| - |TrimStart(s)| ==> IsWhitespace(s[i])
    decreases |s|
  {
    if s != [] && IsWhitespace(s[0]) {
      var tail := s[1..];
      TrimStartDropsWhitespace(tail);
      assert TrimStart(s) == TrimStart(tail);
      forall i | 1 <= i < |s| - |TrimStart(s)|
        ensures IsWhitespace(s[i])
      {
        assert s[i] == tail[i - 1];
      }
    }
  }

  /** `s` is what `TrimEnd` kept followed by the whitespace it removed. */
  lemma {:induction false} TrimEndSplit(s: string)
    ensures var r := TrimEnd(s);
      AllWhitespace(s[|r|..]) && s == r + s[|r|..]
    decreases |s|
  {
    if s != [] && IsWhitespace(s[|s| - 1]) {
      var init := s[..|s| - 1];
      TrimEndSplit(init);
      assert s[|TrimEnd(s)|..] == init[|TrimEnd(init)|..] + [s[|s| - 1]];
    }
  }

  /** The trimmed string is a piece of the original with only whitespace cut
      off either side. */
  lemma TrimIsCore(s: string)
    ensures exists pre, post :: s == pre + Trim(s) + post && AllWhitespace(pre) && AllWhitespace(post)
  {
    var t := TrimStart(s);
    TrimStartSplit(s);
    TrimEndSplit(t);
    CoreWitness(s, s[..|s| - |t|], t, TrimEnd(t), t[|TrimEnd(t)|..]);
  }

  lemma CoreWitness(s: string, pre: string, t: string, r: string, post: string)
    requires s == pre + t && t == r + post && AllWhitespace(pre) && AllWhitespace(post)
    ensures exists pre', post' :: s == pre' + r + post' && AllWhitespace(pre') && AllWhitespace(post')
  {
    assert s == pre + r + post;
  }

  /** The trimmed string neither starts nor ends with whitespace. */
  lemma TrimEndsClean(s: string)
    ensures var r := Trim(s); r == [] || (!IsWhitespace(r[0]) && !IsWhitespace(r[|r| - 1]))
  {
    var t := TrimStart(s);
    var r := TrimEnd(t);
    if r != [] {
      assert r[0] == t[0];
    }
  }

  /** Trimming twice is trimming once. */
  lemma TrimIdempotent(s: string)
    ensures Trim(Trim(s)) == Trim(s)
  {
    TrimEndsClean(s);
    TrimOfTrimmed(Trim(s));
  }

  /** A string that starts and ends with no whitespace is its own trim. */
  lemma TrimOfTrimmed(s: string)
    requires s == [] || (!IsWhitespace(s[0]) && !IsWhitespace(s[|s| - 1]))
    ensures Trim(s) == s
  {
  }

  /** `String.prototype.startsWith`. */
  predicate StartsWith(s: string, prefix: string) {
    |prefix| <= |s| && s[..|prefix|] == prefix
  }

  /** One end of `String.prototype.slice`: a negative index counts from the
      end, and the result is clamped to [0, len]. */
  function SliceIndex(i: int, len: nat): (r: nat)
    ensures r <= len
  {
    if i < 0 then (if len + i < 0 then 0 else len + i)
    else if i > len then len else i
  }

  /** `String.prototype.slice(start, end)`: empty when the clamped start is
      not before the clamped end. */
  function Slice(s: string, start: int, end: int): (r: string)
    ensures var from, to := SliceIndex(start, |s|), SliceIndex(end, |s|);
      if from < to then r == s[from..to] else r == []
  {
    var from, to := SliceIndex(start, |s|), SliceIndex(end, |s|);
    if from < to then s[from..to] else []
  }

  /** `slice(a, -b)` on a string of at least a + b characters drops the
      first a and the last b characters. */
  lemma SliceDropsBothEnds(s: string, a: nat, b: nat)
    requires b > 0 && a + b <= |s|
    ensures Slice(s, a, -(b as int)) == s[a..|s| - b]
  {
  }

  /** `String.prototype.includes`. */
  predicate Contains(s: string, sub: string) {
    exists i :: 0 <= i <= |s| - |sub| && StartsWith(s[i..], sub)
  }

  lemma ContainsInMiddle(a: string, sub: string, b: string)
    ensures Contains(a + sub + b, sub)
  {
    var s := a + sub + b;
    assert s[|a|..][..|sub|] == sub;
  }

  /** ASCII letters lowered; every other character kept. */
  function LowerChar(c: char): char {
    if 'A' <= c <= 'Z' then (c as int + 32) as char else c
  }

  /** Lower-casing, restricted to ASCII letters. */
  function ToLowerAscii(s: string): (r: string)
    ensures |r| == |s| && forall i :: 0 <= i < |s| ==> r[i] == LowerChar(s[i])
  {
    seq(|s|, i requires 0 <= i < |s| => LowerChar(s[i]))
  }

  /** The result has no ASCII capital; each capital becomes the letter 32
      code points above it, every other character is kept, lowering twice
      is lowering once, and a string is its own lowering exactly when it
      has no ASCII capital. */
  lemma ToLowerAsciiProperties(s: string)
    ensures var r := ToLowerAscii(s);
      (forall i :: 0 <= i < |r| ==> !('A' <= r[i] <= 'Z')) &&
      (forall i :: 0 <= i < |s| && 'A' <= s[i] <= 'Z' ==> r[i] as int == s[i] as int + 32 && 'a' <= r[i] <= 'z') &&
      (forall i :: 0 <= i < |s| && !('A' <= s[i] <= 'Z') ==> r[i] == s[i]) &&
      ToLowerAscii(r) == r &&
      (r == s <==> forall i :: 0 <= i < |s| ==> !('A' <= s[i] <= 'Z'))
  {
    var r := ToLowerAscii(s);
    if r == s {
      forall i | 0 <= i < |s| ensures !('A' <= s[i] <= 'Z') {
        assert r[i] == s[i];
      }
    }
  }

  /** A JavaScript number that is either an integer or NaN. */
  datatype JsInt = Int(value: int) | NaN

  predicate IsHexDigit(c: char) {
    ('0' <= c <= '9') || ('a' <= c <= 'f') || ('A' <= c <= 'F')
  }

  function HexDigitValue(c: char): (r: nat)
    requires IsHexDigit(c)
    ensures r < 16
  {
    if '0' <= c <= '9' then c as int - '0' as int
    else if 'a' <= c <= 'f' then c as int - 'a' as int + 10
    else c as int - 'A' as int + 10
  }

  /** Length of the longest prefix made of hexadecimal digits. */
  function HexRun(s: string): (n: nat)
    ensures n <= |s|
    ensures forall i :: 0 <= i < n ==> IsHexDigit(s[i])
    ensures n < |s| ==> !IsHexDigit(s[n])
  {
    if s != [] && IsHexDigit(s[0]) then 1 + HexRun(s[1..]) else 0
  }

  /** Value of a string of hexadecimal digits, most significant first. */
  function HexValue(s: string): nat
    requires forall i :: 0 <= i < |s| ==> IsHexDigit(s[i])
  {
    if s == [] then 0 else 16 * HexValue(s[..|s| - 1]) + HexDigitValue(s[|s| - 1])
  }

  /** The number read from the longest run of hexadecimal digits at the
      front of `v`; NaN when there is none. */
  function ReadHex(v: string): (r: JsInt)
    ensures r == NaN <==> v == [] || !IsHexDigit(v[0])
  {
    var n := HexRun(v);
    if n == 0 then NaN else Int(HexValue(v[..n]))
  }

  function Negate(x: JsInt): JsInt {
    match x
    case NaN => NaN
    case Int(v) => Int(-v)
  }

  /** `parseInt(s, 16)`: skip leading whitespace, take an optional sign and
      an optional "0x"/"0X" prefix, then read the longest run of hex digits;
      NaN when that run is empty. */
  function ParseIntHex(s: string): JsInt
  {
    var t := TrimStart(s);
    var negative := t != [] && t[0] == '-';
    var u := if t != [] && (t[0] == '-' || t[0] == '+') then t[1..] else t;
    var v := if |u| >= 2 && u[0] == '0' && (u[1] == 'x' || u[1] == 'X') then u[2..] else u;
    if negative then Negate(ReadHex(v)) else ReadHex(v)
  }

  /** Decimal rendering of a natural number, as `String(n)` gives it. */
  function NatToString(n: nat): (r: string)
    ensures |r| >= 1 && forall i :: 0 <= i < |r| ==> '0' <= r[i] <= '9'
    ensures |r| > 1 ==> r[0] != '0'
  {
    if n < 10 then [Digit(n)] else NatToString(n / 10) + [Digit(n % 10)]
  }

  function Digit(d: nat): char
    requires d < 10
  {
    ('0' as int + d) as char
  }

  /** Reading a string of decimal digits back as a number. */
  function DecimalValue(s: string): nat
    requires forall i :: 0 <= i < |s| ==> '0' <= s[i] <= '9'
  {
    if s == [] then 0 else 10 * DecimalValue(s[..|s| - 1]) + (s[|s| - 1] as int - '0' as int)
  }

  /** The decimal rendering reads back as the same number. */
  lemma {:induction false} NatToStringRoundTrip(n: nat)
    ensures DecimalValue(NatToString(n)) == n
  {
    if n >= 10 {
      NatToStringRoundTrip(n / 10);
      var r := NatToString(n);
      assert r[..|r| - 1] == NatToString(n / 10);
    }
  }
}
