/** String helpers standing in for the .NET string members the application
    calls: whitespace tests and trimming, case folding, prefixes, joining and
    the integer parser behind `int.Parse` / `int.TryParse`. */
module Text {
  import opened Wrappers

  /** `char.IsWhiteSpace`: the control characters U+0009..U+000D, the
      space, U+0085, U+00A0 and the Unicode space and separator characters. */
  predicate IsWhiteSpace(c: char) {
    var n := c as int;
    (9 <= n <= 13) || n == 0x20 || n == 0x85 || n == 0xA0 || n == 0x1680
    || (0x2000 <= n <= 0x200A) || n == 0x2028 || n == 0x2029
    || n == 0x202F || n == 0x205F || n == 0x3000
  }

  /** `string.IsNullOrWhiteSpace` on a string that is not null. */
  predicate IsBlank(s: string) {
    forall i :: 0 <= i < |s| ==> IsWhiteSpace(s[i])
  }

  /** The number of whitespace characters at the start of `s`. */
  function LeadingWhite(s: string): (k: nat)
    ensures k <= |s|
    ensures forall i :: 0 <= i < k ==> IsWhiteSpace(s[i])
    ensures k == |s| || !IsWhiteSpace(s[k])
  {
    if s != [] && IsWhiteSpace(s[0]) then
      var k := LeadingWhite(s[1..]);
      assert forall i :: 1 <= i <= k ==> s[i] == s[1..][i - 1];
      k + 1
    else 0
  }

  /** The number of whitespace characters at the end of `s`. */
  function TrailingWhite(s: string): (k: nat)
    ensures k <= |s|
    ensures forall i :: |s| - k <= i < |s| ==> IsWhiteSpace(s[i])
    ensures k == |s| || !IsWhiteSpace(s[|s| - k - 1])
  {
    if s != [] && IsWhiteSpace(s[|s| - 1]) then
      var k := TrailingWhite(s[..|s| - 1]);
      assert forall i :: 0 <= i < |s| - 1 ==> s[i] == s[..|s| - 1][i];
      k + 1
    else 0
  }

  /** Removes leading whitespace. */
  function TrimStart(s: string): (r: string)
    ensures |r| <= |s| && r == s[|s| - |r|..]
    ensures r == [] || !IsWhiteSpace(r[0])
    ensures forall i :: 0 <= i < |s| - |r| ==> IsWhiteSpace(s[i])
  {
    s[LeadingWhite(s)..]
  }

  /** Removes trailing whitespace. */
  function TrimEnd(s: string): (r: string)
    ensures |r| <= |s| && r == s[..|r|]
    ensures r == [] || !IsWhiteSpace(r[|r| - 1])
    ensures forall i :: |r| <= i < |s| ==> IsWhiteSpace(s[i])
  {
    s[..|s| - TrailingWhite(s)]
  }

  /** `string.Trim()`: removes whitespace at both ends. */
  function Trim(s: string): string {
    TrimEnd(TrimStart(s))
  }

  /** A trimmed string is the slice of the original that starts after its
      leading whitespace, with only whitespace after it, and it has no
      whitespace at either end. */
  lemma TrimIsSlice(s: string)
    ensures var a := |s| - |TrimStart(s)|;
      a + |Trim(s)| <= |s| && Trim(s) == s[a..a + |Trim(s)|]
      && (forall i :: 0 <= i < a ==> IsWhiteSpace(s[i]))
      && (forall i :: a + |Trim(s)| <= i < |s| ==> IsWhiteSpace(s[i]))
    ensures Trim(s) == [] || (!IsWhiteSpace(Trim(s)[0]) && !IsWhiteSpace(Trim(s)[|Trim(s)| - 1]))
  {
    TrimKeepsSlice(s);
    TrimDropsTrailingWhite(s);
    TrimLeavesNoWhiteEnds(s);
  }

  lemma TrimKeepsSlice(s: string)
    ensures var a := |s| - |TrimStart(s)|;
      a + |Trim(s)| <= |s| && Trim(s) == s[a..a + |Trim(s)|]
  {
    var t := TrimStart(s);
    var r := TrimEnd(t);
    assert Trim(s) == r;
    PrefixOfSuffix(s, t, r);
  }

  lemma TrimDropsTrailingWhite(s: string)
    ensures forall i :: |s| - |TrimStart(s)| + |Trim(s)| <= i < |s| ==> IsWhiteSpace(s[i])
  {
    var t := TrimStart(s);
    var r := TrimEnd(t);
    assert Trim(s) == r;
    PrefixOfSuffix(s, t, r);
  }

  lemma TrimLeavesNoWhiteEnds(s: string)
    ensures Trim(s) == [] || (!IsWhiteSpace(Trim(s)[0]) && !IsWhiteSpace(Trim(s)[|Trim(s)| - 1]))
  {
    var t := TrimStart(s);
    var r := TrimEnd(t);
    assert Trim(s) == r;
    if r != [] {
      assert r[0] == t[0];
    }
  }

  /** A prefix `r` of the suffix `t` of `s`, where `t` has only whitespace
      after `r`, is a slice of `s` followed in `s` by whitespace only. */
  lemma PrefixOfSuffix(s: string, t: string, r: string)
    requires |t| <= |s| && t == s[|s| - |t|..]
    requires |r| <= |t| && r == t[..|r|]
    requires forall i :: |r| <= i < |t| ==> IsWhiteSpace(t[i])
    ensures var a := |s| - |t|;
      a + |r| <= |s| && r == s[a..a + |r|]
      && forall i :: a + |r| <= i < |s| ==> IsWhiteSpace(s[i])
  {
    var a := |s| - |t|;
    forall i | a + |r| <= i < |s|
      ensures IsWhiteSpace(s[i])
    {
      assert s[i] == t[i - a];
    }
    assert forall i :: 0 <= i < |r| ==> r[i] == s[a + i];
  }

  /** A string with no whitespace at either end is its own trim. */
  lemma TrimmedUnchanged(s: string)
    requires s != [] && !IsWhiteSpace(s[0]) && !IsWhiteSpace(s[|s| - 1])
    ensures TrimStart(s) == s && TrimEnd(s) == s && Trim(s) == s
  {
    assert LeadingWhite(s) == 0;
    assert TrailingWhite(s) == 0;
  }

  /** Trimming leaves nothing exactly when the string is blank. */
  lemma TrimEmptyIffBlank(s: string)
    ensures Trim(s) == [] <==> IsBlank(s)
  {
    TrimIsSlice(s);
  }

  /** Trimming twice is trimming once. */
  lemma TrimIdempotent(s: string)
    ensures Trim(Trim(s)) == Trim(s)
  {
    TrimIsSlice(s);
    var t := Trim(s);
    if t != [] {
      TrimmedUnchanged(t);
    }
  }

  /** ASCII lower-casing of one character. */
  function LowerChar(c: char): char {
    if 'A' <= c <= 'Z' then (c as int + 32) as char else c
  }

  /** `ToLower()` / `ToLowerInvariant()`, restricted to ASCII letters. */
  function ToLower(s: string): (r: string)
    ensures |r| == |s| && forall i :: 0 <= i < |s| ==> r[i] == LowerChar(s[i])
  {
    seq(|s|, i requires 0 <= i < |s| => LowerChar(s[i]))
  }

  /** Lower-casing is idempotent. */
  lemma ToLowerIdempotent(s: string)
    ensures ToLower(ToLower(s)) == ToLower(s)
  {
  }

  /** A string without upper-case ASCII letters is its own lower case. */
  lemma LowerCaseUnchanged(s: string)
    requires forall i :: 0 <= i < |s| ==> !('A' <= s[i] <= 'Z')
    ensures ToLower(s) == s
  {
  }

  /** `StartsWith` with ordinal comparison. */
  predicate StartsWith(s: string, prefix: string) {
    |prefix| <= |s| && s[..|prefix|] == prefix
  }

  /** `Equals(.., StringComparison.OrdinalIgnoreCase)` on ASCII letters. */
  predicate EqualsIgnoreCase(a: string, b: string) {
    ToLower(a) == ToLower(b)
  }

  /** `string.Join(sep, parts)`. */
  function Join(sep: string, parts: seq<string>): string
    decreases |parts|
  {
    if |parts| == 0 then ""
    else if |parts| == 1 then parts[0]
    else Join(sep, parts[..|parts| - 1]) + sep + parts[|parts| - 1]
  }

  /** Joining never drops a character: the result is as long as the parts
      plus one separator between each neighbouring pair. */
  lemma {:induction false} JoinLength(sep: string, parts: seq<string>)
    ensures |parts| > 0 ==>
              |Join(sep, parts)| == SumLengths(parts) + (|parts| - 1) * |sep|
    ensures |parts| == 0 ==> Join(sep, parts) == ""
    decreases |parts|
  {
    if |parts| > 1 {
      JoinLength(sep, parts[..|parts| - 1]);
      SumLengthsSnoc(parts[..|parts| - 1], parts[|parts| - 1]);
      assert parts[..|parts| - 1] + [parts[|parts| - 1]] == parts;
    }
  }

  /** Joining from the front: the first part, a separator, then the join
      of the rest. With `JoinLength` this fixes the contents: every part
      appears in order, with exactly one separator between neighbours. */
  lemma {:induction false} JoinCons(sep: string, a: string, rest: seq<string>)
    requires rest != []
    ensures Join(sep, [a] + rest) == a + sep + Join(sep, rest)
    decreases |rest|
  {
    var ps := [a] + rest;
    if |rest| == 1 {
      assert ps[..1] == [a];
    } else {
      var init := rest[..|rest| - 1];
      assert ps[..|ps| - 1] == [a] + init;
      JoinCons(sep, a, init);
      assert ps[|ps| - 1] == rest[|rest| - 1];
    }
  }

  function SumLengths(parts: seq<string>): nat {
    if parts == [] then 0 else |parts[0]| + SumLengths(parts[1..])
  }

  lemma {:induction false} SumLengthsSnoc(parts: seq<string>, p: string)
    ensures SumLengths(parts + [p]) == SumLengths(parts) + |p|
  {
    if parts != [] {
      assert (parts + [p])[1..] == parts[1..] + [p];
      SumLengthsSnoc(parts[1..], p);
    }
  }

  // ----- Integers: int.Parse / int.TryParse -----

  const MinInt32: int := -0x8000_0000
  const MaxInt32: int := 0x7FFF_FFFF

  predicate IsDigit(c: char) {
    '0' <= c <= '9'
  }

  predicate AllDigits(s: string) {
    forall i :: 0 <= i < |s| ==> IsDigit(s[i])
  }

  function DigitValue(c: char): nat
    requires IsDigit(c)
  {
    c as int - '0' as int
  }

  /** The value of a decimal digit string, most significant digit first. */
  function DigitsValue(s: string): nat
    requires AllDigits(s)
  {
    if s == [] then 0 else DigitsValue(s[..|s| - 1]) * 10 + DigitValue(s[|s| - 1])
  }

  /** The whitespace `NumberStyles.Integer` allows around a number. */
  predicate IsNumberWhite(c: char) {
    c == ' ' || (9 <= c as int <= 13)
  }

  function StripNumberWhiteStart(s: string): (r: string)
    ensures |r| <= |s| && r == s[|s| - |r|..]
    ensures r == [] || !IsNumberWhite(r[0])
  {
    if s != [] && IsNumberWhite(s[0]) then StripNumberWhiteStart(s[1..]) else s
  }

  function StripNumberWhiteEnd(s: string): (r: string)
    ensures |r| <= |s| && r == s[..|r|]
    ensures r == [] || !IsNumberWhite(r[|r| - 1])
  {
    if s != [] && IsNumberWhite(s[|s| - 1]) then StripNumberWhiteEnd(s[..|s| - 1]) else s
  }

  function StripNumberWhite(s: string): string {
    StripNumberWhiteEnd(StripNumberWhiteStart(s))
  }

  /** `int.TryParse(s, out v)` with the default `NumberStyles.Integer`:
      optional surrounding whitespace, an optional sign, one or more ASCII
      digits, and a value that fits a 32-bit signed integer. `None` is the
      failed parse (`int.Parse` throws, `int.TryParse` returns false). */
  function ParseInt32(s: string): (r: Option<int>)
    ensures r.Some? ==> MinInt32 <= r.value <= MaxInt32
  {
    ParseStripped(StripNumberWhite(s))
  }

  /** The parse of the text between the surrounding whitespace: an
      optional sign, then one or more digits, within the 32-bit range. */
  function ParseStripped(t: string): (r: Option<int>)
    ensures r.Some? ==> MinInt32 <= r.value <= MaxInt32
  {
    var signed := |t| > 0 && (t[0] == '-' || t[0] == '+');
    var digits := if signed then t[1..] else t;
    if digits == [] || !AllDigits(digits) then None
    else
      var magnitude: int := DigitsValue(digits);
      var v: int := if signed && t[0] == '-' then -magnitude else magnitude;
      if MinInt32 <= v <= MaxInt32 then Some(v) else None
  }

  function DigitChar(d: nat): char
    requires d < 10
  {
    ('0' as int + d) as char
  }

  /** The decimal rendering of a natural number. */
  function NatToString(n: nat): (r: string)
    ensures |r| > 0
  {
    if n < 10 then [DigitChar(n)] else NatToString(n / 10) + [DigitChar(n % 10)]
  }

  lemma {:induction false} NatToStringDigits(n: nat)
    ensures AllDigits(NatToString(n)) && DigitsValue(NatToString(n)) == n
  {
    if n >= 10 {
      NatToStringDigits(n / 10);
      var s := NatToString(n);
      assert s[..|s| - 1] == NatToString(n / 10);
    }
  }

  /** A digit string in range parses to its value. */
  lemma ParseDigits(s: string)
    requires s != [] && AllDigits(s) && DigitsValue(s) <= MaxInt32
    ensures ParseInt32(s) == Some(DigitsValue(s))
  {
    assert IsDigit(s[0]) && IsDigit(s[|s| - 1]);
    assert !IsNumberWhite(s[0]) && !IsNumberWhite(s[|s| - 1]);
    assert StripNumberWhiteStart(s) == s;
    assert StripNumberWhiteEnd(s) == s;
    var t := StripNumberWhite(s);
    assert t == s;
    assert t[0] != '-' && t[0] != '+';
  }

  /** The parser reads back every rendered 32-bit natural number. */
  lemma ParseNatToString(n: nat)
    requires n <= MaxInt32
    ensures ParseInt32(NatToString(n)) == Some(n)
  {
    NatToStringDigits(n);
    ParseDigits(NatToString(n));
  }

  /** The small restart limits used in examples parse to their values. */
  lemma ParseSmallLimits()
    ensures ParseInt32("2") == Some(2) && ParseInt32("3") == Some(3) && ParseInt32("9") == Some(9)
  {
    ParseNatToString(2);
    ParseNatToString(3);
    ParseNatToString(9);
    assert NatToString(2) == "2" && NatToString(3) == "3" && NatToString(9) == "9";
  }

  predicate AllNumberWhite(s: string) {
    forall i :: 0 <= i < |s| ==> IsNumberWhite(s[i])
  }

  /** What the start strip removes is whitespace. */
  lemma {:induction false} StripStartRemovesWhite(s: string)
    ensures AllNumberWhite(s[..|s| - |StripNumberWhiteStart(s)|])
    decreases |s|
  {
    if s != [] && IsNumberWhite(s[0]) {
      StripStartRemovesWhite(s[1..]);
      var k := |s| - |StripNumberWhiteStart(s)|;
      assert s[..k] == [s[0]] + s[1..][..k - 1];
    }
  }

  /** What the end strip removes is whitespace. */
  lemma {:induction false} StripEndRemovesWhite(s: string)
    ensures AllNumberWhite(s[|StripNumberWhiteEnd(s)|..])
    decreases |s|
  {
    if s != [] && IsNumberWhite(s[|s| - 1]) {
      var p := s[..|s| - 1];
      StripEndRemovesWhite(p);
      var k := |StripNumberWhiteEnd(s)|;
      assert s[k..] == p[k..] + [s[|s| - 1]];
    }
  }

  lemma {:induction false} StripStartAppend(x: string, y: string)
    ensures StripNumberWhiteStart(x + y)
            == if StripNumberWhiteStart(x) == [] then StripNumberWhiteStart(y) else StripNumberWhiteStart(x) + y
    decreases |x|
  {
    if x == [] {
      assert x + y == y;
    } else {
      assert (x + y)[0] == x[0];
      if IsNumberWhite(x[0]) {
        assert (x + y)[1..] == x[1..] + y;
        StripStartAppend(x[1..], y);
      }
    }
  }

  lemma {:induction false} StripEndAppend(x: string, y: string)
    ensures StripNumberWhiteEnd(x + y)
            == if StripNumberWhiteEnd(y) == [] then StripNumberWhiteEnd(x) else x + StripNumberWhiteEnd(y)
    decreases |y|
  {
    if y == [] {
      assert x + y == x;
    } else {
      assert (x + y)[|x + y| - 1] == y[|y| - 1];
      if IsNumberWhite(y[|y| - 1]) {
        assert (x + y)[..|x + y| - 1] == x + y[..|y| - 1];
        StripEndAppend(x, y[..|y| - 1]);
      }
    }
  }

  /** Whitespace alone strips to nothing, from either end. */
  lemma {:induction false} WhiteStripsToEmpty(a: string)
    requires AllNumberWhite(a)
    ensures StripNumberWhiteStart(a) == [] && StripNumberWhiteEnd(a) == []
    decreases |a|
  {
    if a != [] {
      WhiteStripsToEmpty(a[1..]);
      WhiteStripsToEmpty(a[..|a| - 1]);
    }
  }

  lemma StripPadded(a: string, s: string, b: string)
    requires AllNumberWhite(a) && AllNumberWhite(b)
    ensures StripNumberWhite(a + s + b) == StripNumberWhite(s)
  {
    WhiteStripsToEmpty(a);
    WhiteStripsToEmpty(b);
    assert a + s + b == a + (s + b);
    StripStartAppend(a, s + b);
    StripStartAppend(s, b);
    var u := StripNumberWhiteStart(s);
    if u == [] {
      assert StripNumberWhiteStart(b) == [];
    } else {
      StripEndAppend(u, b);
    }
  }

  /** Whitespace around a number does not change what it parses to:
      " 3 " parses like "3". */
  lemma ParsePadded(a: string, s: string, b: string)
    requires AllNumberWhite(a) && AllNumberWhite(b)
    ensures ParseInt32(a + s + b) == ParseInt32(s)
  {
    StripPadded(a, s, b);
  }

  /** A string with no whitespace at either end is left as it is. */
  lemma NoWhiteEnds(s: string)
    requires s != [] && !IsNumberWhite(s[0]) && !IsNumberWhite(s[|s| - 1])
    ensures StripNumberWhite(s) == s
  {
    assert StripNumberWhiteStart(s) == s;
  }

  lemma ParseBareDigits(d: string)
    requires d != [] && AllDigits(d)
    ensures ParseInt32(d) == if DigitsValue(d) <= MaxInt32 then Some(DigitsValue(d)) else None
  {
    assert IsDigit(d[0]) && IsDigit(d[|d| - 1]);
    NoWhiteEnds(d);
    var m := DigitsValue(d);
    assert ParseStripped(d) == if m <= MaxInt32 then Some(m) else None;
  }

  /** The stripped text of a sign and digits is read as the signed value. */
  lemma StrippedSignedDigits(sign: char, d: string)
    requires sign == '-' || sign == '+'
    requires d != [] && AllDigits(d)
    ensures var v: int := if sign == '-' then -(DigitsValue(d) as int) else DigitsValue(d);
      ParseStripped([sign] + d) == if MinInt32 <= v <= MaxInt32 then Some(v) else None
  {
    assert ([sign] + d)[1..] == d;
  }

  lemma ParseSignedDigits(sign: char, d: string)
    requires sign == '-' || sign == '+'
    requires d != [] && AllDigits(d)
    ensures var v: int := if sign == '-' then -(DigitsValue(d) as int) else DigitsValue(d);
      ParseInt32([sign] + d) == if MinInt32 <= v <= MaxInt32 then Some(v) else None
  {
    var s := [sign] + d;
    assert s[|s| - 1] == d[|d| - 1];
    NoWhiteEnds(s);
    StrippedSignedDigits(sign, d);
  }

  /** "-n" parses to -n down to the 32-bit minimum, and "+n" to n. */
  lemma ParseNegative(n: nat)
    requires n <= -MinInt32
    ensures ParseInt32("-" + NatToString(n)) == Some(-(n as int))
    ensures n <= MaxInt32 ==> ParseInt32("+" + NatToString(n)) == Some(n)
  {
    var d := NatToString(n);
    NatToStringDigits(n);
    assert AllDigits(d);
    assert DigitsValue(d) == n;
    ParseSignedDigits('-', d);
    assert ParseInt32(['-'] + d) == Some(-(n as int));
    assert "-" + d == ['-'] + d;
    if n <= MaxInt32 {
      ParseSignedDigits('+', d);
      assert ParseInt32(['+'] + d) == Some(n);
      assert "+" + d == ['+'] + d;
    }
  }

  /** A number outside the 32-bit range does not parse: "2147483648"
      fails, and "-2147483649" fails. */
  lemma ParseOverflow(n: nat)
    requires n > MaxInt32
    ensures ParseInt32(NatToString(n)) == None
    ensures n > -MinInt32 ==> ParseInt32("-" + NatToString(n)) == None
  {
    var d := NatToString(n);
    NatToStringDigits(n);
    assert AllDigits(d);
    assert DigitsValue(d) == n;
    ParseBareDigits(d);
    if n > -MinInt32 {
      ParseSignedDigits('-', d);
      assert ParseInt32(['-'] + d) == None;
      assert "-" + d == ['-'] + d;
    }
  }

  /** A character that is neither a digit, a sign nor whitespace anywhere
      in the string makes the parse fail. */
  lemma ParseRejectsStray(s: string, i: nat)
    requires i < |s| && !IsDigit(s[i]) && !IsNumberWhite(s[i]) && s[i] != '-' && s[i] != '+'
    ensures ParseInt32(s) == None
  {
    var u := StripNumberWhiteStart(s);
    var t := StripNumberWhite(s);
    var k := |s| - |u|;
    assert t == u[..|t|];
    StripStartRemovesWhite(s);
    assert s[..k] == s[..|s| - |u|];
    assert !IsNumberWhite(s[i]);
    assert k <= i;
    assert u[i - k] == s[i];
    StripEndRemovesWhite(u);
    assert u[|t|..] == u[|StripNumberWhiteEnd(u)|..];
    assert i - k < |t|;
    assert t[i - k] == s[i];
    var signed := |t| > 0 && (t[0] == '-' || t[0] == '+');
    var digits := if signed then t[1..] else t;
    if signed {
      assert i - k >= 1;
      assert digits[i - k - 1] == s[i];
    } else {
      assert digits[i - k] == s[i];
    }
  }

  /** A string that parses is not blank. */
  lemma ParsedIsNotBlank(s: string)
    requires ParseInt32(s).Some?
    ensures !IsBlank(s)
  {
    var u := StripNumberWhiteStart(s);
    var t := StripNumberWhite(s);
    var k := |s| - |u|;
    assert t == u[..|t|];
    var i := if |t| > 0 && (t[0] == '-' || t[0] == '+') then 1 else 0;
    assert IsDigit(t[i]);
    assert s[k + i] == u[i] == t[i];
    assert !IsWhiteSpace(s[k + i]);
  }
}
