/** The Python string built-ins the importer relies on: str() of an int, the
    `05d` format, str.strip(), str.lower() and os.path.join on POSIX. */
module Text {

  predicate IsDigit(c: char) {
    '0' <= c <= '9'
  }

  function DigitChar(d: nat): (c: char)
    requires d < 10
    ensures IsDigit(c) && c as int - '0' as int == d
  {
    (d + '0' as int) as char
  }

  /** str(n) for a non-negative int: its decimal digits, no leading zero. */
  function NatToString(n: nat): (s: string)
    ensures s != []
    ensures n < 10 <==> |s| == 1
    ensures forall k :: 0 <= k < |s| ==> IsDigit(s[k])
    ensures |s| > 1 ==> s[0] != '0'
    decreases n
  {
    if n < 10 then [DigitChar(n)] else NatToString(n / 10) + [DigitChar(n % 10)]
  }

  /** str(i) for any int: a minus sign before the digits of a negative value. */
  function IntToString(i: int): (s: string)
    ensures s != []
    ensures s[0] == '-' <==> i < 0
  {
    if i < 0 then "-" + NatToString(-i) else NatToString(i)
  }

  predicate AllDigits(s: string) {
    forall k :: 0 <= k < |s| ==> IsDigit(s[k])
  }

  /** The number a string of decimal digits denotes; the partner of NatToString. */
  function DigitsValue(s: string): nat
    requires AllDigits(s)
  {
    if s == [] then 0 else DigitsValue(s[..|s| - 1]) * 10 + (s[|s| - 1] as int - '0' as int)
  }

  lemma {:induction false} NatToStringRoundTrip(n: nat)
    ensures DigitsValue(NatToString(n)) == n
    decreases n
  {
    var s := NatToString(n);
    if n >= 10 {
      assert s[..|s| - 1] == NatToString(n / 10);
      NatToStringRoundTrip(n / 10);
    }
  }

  lemma NatToStringInjective(m: nat, n: nat)
    requires NatToString(m) == NatToString(n)
    ensures m == n
  {
    NatToStringRoundTrip(m);
    NatToStringRoundTrip(n);
  }

  function Zeros(k: nat): (z: string)
    ensures |z| == k && forall i :: 0 <= i < k ==> z[i] == '0'
  {
    if k == 0 then [] else Zeros(k - 1) + "0"
  }

  /** format(s, "0<width>") applied to the digits s: zeros on the left up to width. */
  function ZeroPad(s: string, width: nat): (r: string)
    ensures |r| == if |s| < width then width else |s|
    ensures r[|r| - |s|..] == s
    ensures forall k :: 0 <= k < |r| - |s| ==> r[k] == '0'
  {
    if |s| < width then Zeros(width - |s|) + s else s
  }

  lemma {:induction false} LeadingZerosValue(z: string, s: string)
    requires forall k :: 0 <= k < |z| ==> z[k] == '0'
    requires AllDigits(s)
    ensures AllDigits(z + s) && DigitsValue(z + s) == DigitsValue(s)
    decreases |s|
  {
    if s == [] {
      assert z + s == z;
      ZerosValue(z);
    } else {
      var t := s[..|s| - 1];
      assert (z + s)[..|z + s| - 1] == z + t;
      LeadingZerosValue(z, t);
    }
  }

  lemma {:induction false} ZerosValue(z: string)
    requires forall k :: 0 <= k < |z| ==> z[k] == '0'
    ensures AllDigits(z) && DigitsValue(z) == 0
    decreases |z|
  {
    if z != [] {
      ZerosValue(z[..|z| - 1]);
    }
  }

  /** The `05d`-style padding of a number reads back as that number. */
  lemma PaddedRoundTrip(n: nat, width: nat)
    ensures AllDigits(ZeroPad(NatToString(n), width))
    ensures DigitsValue(ZeroPad(NatToString(n), width)) == n
  {
    var s := NatToString(n);
    var r := ZeroPad(s, width);
    assert r == r[..|r| - |s|] + s;
    LeadingZerosValue(r[..|r| - |s|], s);
    NatToStringRoundTrip(n);
  }

  lemma PrefixCancel(p: string, x: string, y: string)
    requires p + x == p + y
    ensures x == y
  {
    assert x == (p + x)[|p|..];
  }

  lemma SuffixCancel(x: string, y: string, t: string)
    requires x + t == y + t
    ensures x == y
  {
    assert x == (x + t)[..|x|];
    assert |x| == |y|;
  }

  /** Python's str.isspace(): the characters str.strip() removes by default. */
  predicate IsSpace(c: char) {
    || '\t' <= c <= '\r'
    || '\U{1C}' <= c <= ' '
    || c == '\U{85}' || c == '\U{A0}' || c == '\U{1680}'
    || '\U{2000}' <= c <= '\U{200A}'
    || c == '\U{2028}' || c == '\U{2029}' || c == '\U{202F}' || c == '\U{205F}' || c == '\U{3000}'
  }

  /** s.lstrip(): the longest suffix of s that does not start with whitespace. */
  function TrimStart(s: string): (r: string)
    ensures |r| <= |s| && r == s[|s| - |r|..]
    ensures r == [] || !IsSpace(r[0])
    ensures forall k :: 0 <= k < |s| - |r| ==> IsSpace(s[k])
  {
    if s != [] && IsSpace(s[0]) then TrimStart(s[1..]) else s
  }

  /** s.rstrip(): the longest prefix of s that does not end with whitespace. */
  function TrimEnd(s: string): (r: string)
    ensures |r| <= |s| && r == s[..|r|]
    ensures r == [] || !IsSpace(r[|r| - 1])
    ensures forall k :: |r| <= k < |s| ==> IsSpace(s[k])
  {
    if s != [] && IsSpace(s[|s| - 1]) then TrimEnd(s[..|s| - 1]) else s
  }

  /** s.strip(): s without its leading and trailing whitespace. */
  function Strip(s: string): (r: string)
    ensures |r| <= |s|
    ensures r == [] || (!IsSpace(r[0]) && !IsSpace(r[|r| - 1]))
  {
    TrimEnd(TrimStart(s))
  }

  /** strip() removes whitespace only, and only around the text: the result is
      the slice of s at some offset a, with whitespace before and after it. */
  lemma StripSpan(s: string) returns (a: nat)
    ensures a + |Strip(s)| <= |s| && Strip(s) == s[a..a + |Strip(s)|]
    ensures forall k :: 0 <= k < a ==> IsSpace(s[k])
    ensures forall k :: a + |Strip(s)| <= k < |s| ==> IsSpace(s[k])
  {
    var t := TrimStart(s);
    var r := TrimEnd(t);
    a := |s| - |t|;
    assert t == s[a..];
    assert r == t[..|r|];
    forall k | a + |r| <= k < |s|
      ensures IsSpace(s[k])
    {
      assert s[k] == t[k - a] && |r| <= k - a < |t|;
    }
  }

  /** Whitespace written before a text does not survive lstrip(). */
  lemma {:induction false} TrimStartPadding(w: string, s: string)
    requires forall k :: 0 <= k < |w| ==> IsSpace(w[k])
    ensures TrimStart(w + s) == TrimStart(s)
    decreases |w|
  {
    if w != [] {
      assert (w + s)[0] == w[0] && (w + s)[1..] == w[1..] + s;
      TrimStartPadding(w[1..], s);
    } else {
      assert w + s == s;
    }
  }

  /** Whitespace written after a text does not survive rstrip(). */
  lemma {:induction false} TrimEndPadding(s: string, w: string)
    requires forall k :: 0 <= k < |w| ==> IsSpace(w[k])
    ensures TrimEnd(s + w) == TrimEnd(s)
    decreases |w|
  {
    if w != [] {
      var v := w[..|w| - 1];
      assert (s + w)[|s + w| - 1] == w[|w| - 1] && (s + w)[..|s + w| - 1] == s + v;
      TrimEndPadding(s, v);
    } else {
      assert s + w == s;
    }
  }

  /** lstrip() leaves a text that starts with a non-space alone at its end. */
  lemma {:induction false} TrimStartAppend(s: string, w: string)
    requires TrimStart(s) != []
    ensures TrimStart(s + w) == TrimStart(s) + w
    decreases |s|
  {
    assert s != [];
    assert (s + w)[0] == s[0];
    if IsSpace(s[0]) {
      assert (s + w)[1..] == s[1..] + w;
      TrimStartAppend(s[1..], w);
    }
  }

  /** A text that is all whitespace strips to nothing. */
  lemma AllSpaceStrips(w: string)
    requires forall k :: 0 <= k < |w| ==> IsSpace(w[k])
    ensures TrimStart(w) == []
  {
  }

  /** Surrounding whitespace does not change what strip() returns. */
  lemma StripPadding(w1: string, s: string, w2: string)
    requires forall k :: 0 <= k < |w1| ==> IsSpace(w1[k])
    requires forall k :: 0 <= k < |w2| ==> IsSpace(w2[k])
    ensures Strip(w1 + s + w2) == Strip(s)
  {
    assert w1 + s + w2 == w1 + (s + w2);
    TrimStartPadding(w1, s + w2);
    if TrimStart(s) != [] {
      TrimStartAppend(s, w2);
      TrimEndPadding(TrimStart(s), w2);
    } else {
      var t := TrimStart(s);
      assert forall k :: 0 <= k < |s| ==> IsSpace(s[k]);
      assert forall k :: 0 <= k < |s + w2| ==> IsSpace((s + w2)[k]);
      AllSpaceStrips(s + w2);
    }
  }

  predicate IsAsciiUpper(c: char) {
    'A' <= c <= 'Z'
  }

  /** c.lower() for the letters a Turkish spreadsheet header may use: ASCII,
      the Latin-1 capitals, and Ğ, Ş and İ (which lowers to i and a combining dot). */
  function LowerChar(c: char): (r: string)
    ensures r != [] && forall k :: 0 <= k < |r| ==> !IsAsciiUpper(r[k])
  {
    if IsAsciiUpper(c) || ('\U{C0}' <= c <= '\U{DE}' && c != '\U{D7}') then [(c as int + 32) as char]
    else if c == '\U{11E}' || c == '\U{15E}' then [(c as int + 1) as char]
    else if c == '\U{130}' then "i\U{307}"
    else [c]
  }

  /** s.lower(), character by character. */
  function Lower(s: string): (r: string)
    ensures |r| >= |s|
    ensures forall k :: 0 <= k < |r| ==> !IsAsciiUpper(r[k])
  {
    if s == [] then [] else LowerChar(s[0]) + Lower(s[1..])
  }

  /** The ASCII lower-case of one character: A..Z become a..z, the rest stay. */
  function AsciiLower(c: char): (r: char)
    ensures !IsAsciiUpper(r)
    ensures IsAsciiUpper(c) ==> r as int == c as int + 32
    ensures !IsAsciiUpper(c) ==> r == c
  {
    if IsAsciiUpper(c) then (c as int + 32) as char else c
  }

  predicate IsAscii(s: string) {
    forall k :: 0 <= k < |s| ==> s[k] < '\U{80}'
  }

  /** On ASCII text, lower() keeps the length and lower-cases each letter in place. */
  lemma {:induction false} LowerAscii(s: string)
    requires IsAscii(s)
    ensures |Lower(s)| == |s|
    ensures forall k :: 0 <= k < |s| ==> Lower(s)[k] == AsciiLower(s[k])
    decreases |s|
  {
    if s != [] {
      assert LowerChar(s[0]) == [AsciiLower(s[0])];
      LowerAscii(s[1..]);
      forall k | 0 <= k < |s|
        ensures Lower(s)[k] == AsciiLower(s[k])
      {
        if k > 0 {
          assert Lower(s)[k] == Lower(s[1..])[k - 1];
        }
      }
    }
  }

  /** Two ASCII texts that differ only in the case of their letters lower to the same text. */
  lemma LowerCaseInsensitive(s: string, t: string)
    requires IsAscii(s) && IsAscii(t) && |s| == |t|
    requires forall k :: 0 <= k < |s| ==> AsciiLower(s[k]) == AsciiLower(t[k])
    ensures Lower(s) == Lower(t)
  {
    LowerAscii(s);
    LowerAscii(t);
  }

  /** os.path.join(dir, name) on POSIX: an absolute name replaces the directory,
      otherwise a single '/' separates the two unless dir is empty or already ends in one. */
  function PathJoin(dir: string, name: string): (r: string)
    ensures |r| >= |name| && r[|r| - |name|..] == name
    ensures name != [] && name[0] == '/' ==> r == name
    ensures (name == [] || name[0] != '/') ==>
      && |r| >= |dir| && r[..|dir|] == dir
      && (if dir == [] || dir[|dir| - 1] == '/' then |r| == |dir| + |name|
          else |r| == |dir| + 1 + |name| && r[|dir|] == '/')
  {
    if name != [] && name[0] == '/' then name
    else if dir == [] || dir[|dir| - 1] == '/' then dir + name
    else dir + "/" + name
  }

  /** Two names that agree on their first character join onto the same
      directory only when they are equal. */
  lemma PathJoinInjective(dir: string, a: string, b: string)
    requires a != [] && b != [] && a[0] == b[0]
    requires PathJoin(dir, a) == PathJoin(dir, b)
    ensures a == b
  {
    if a[0] != '/' {
      var p := if dir == [] || dir[|dir| - 1] == '/' then dir else dir + "/";
      assert PathJoin(dir, a) == p + a && PathJoin(dir, b) == p + b;
      assert a == (p + a)[|p|..];
    }
  }
}
