/**
 * The few JavaScript string operations the core relies on: `trim`, `parseInt(s, 10)`,
 * `split('/')`, `join`, `padStart`, number-to-decimal rendering and upper-casing one character.
 */
module Text {
  import opened Wrappers

  /** The characters JavaScript's `trim` removes: WhiteSpace (TAB, VT, FF, ZWNBSP and the Zs
      category) and LineTerminator (LF, CR, LS, PS). */
  predicate IsWhitespace(c: char) {
    c == '\t' || c == '\n' || c == '\U{0B}' || c == '\U{0C}' || c == '\r' || c == ' '
    || c == '\U{A0}' || c == '\U{1680}' || ('\U{2000}' <= c <= '\U{200A}')
    || c == '\U{2028}' || c == '\U{2029}' || c == '\U{202F}' || c == '\U{205F}'
    || c == '\U{3000}' || c == '\U{FEFF}'
  }

  predicate AllWhitespace(s: string) {
    forall i :: 0 <= i < |s| ==> IsWhitespace(s[i])
  }

  /** `trimStart`: the longest suffix of `s` that does not begin with whitespace. */
  function TrimStart(s: string): (r: string)
    ensures |r| <= |s| && r == s[|s| - |r|..]
    ensures AllWhitespace(s[..|s| - |r|])
    ensures r == [] || !IsWhitespace(r[0])
  {
    if s != [] && IsWhitespace(s[0]) then
      var t := s[1..];
      var r := TrimStart(t);
      assert s[..|s| - |r|] == [s[0]] + t[..|t| - |r|];
      assert r == t[|t| - |r|..] == s[|s| - |r|..];
      r
    else s
  }

  /** `trimEnd`: the longest prefix of `s` that does not end with whitespace. */
  function TrimEnd(s: string): (r: string)
    ensures |r| <= |s| && r == s[..|r|]
    ensures AllWhitespace(s[|r|..])
    ensures r == [] || !IsWhitespace(r[|r| - 1])
  {
    if s != [] && IsWhitespace(s[|s| - 1]) then
      var t := s[..|s| - 1];
      var r := TrimEnd(t);
      assert s[|r|..] == t[|r|..] + [s[|s| - 1]];
      assert r == t[..|r|] == s[..|r|];
      r
    else s
  }

  /** `trim`: `s` without leading and trailing whitespace. */
  function Trim(s: string): (r: string)
    ensures |r| <= |s|
    ensures r == [] || (!IsWhitespace(r[0]) && !IsWhitespace(r[|r| - 1]))
  {
    var t := TrimStart(s);
    var r := TrimEnd(t);
    assert r != [] ==> r[0] == t[0];
    r
  }

  /** How many leading characters `trim` removes. */
  function TrimmedLead(s: string): (i: nat)
    ensures i <= |s|
  {
    |s| - |TrimStart(s)|
  }

  /** What `trim` removes is whitespace on both sides: the result is the part of `s` that
      starts after the leading whitespace, with only whitespace after it. */
  lemma TrimInfix(s: string)
    ensures var r := Trim(s); var i := TrimmedLead(s);
      && i + |r| <= |s| && r == s[i..i + |r|]
      && AllWhitespace(s[..i]) && AllWhitespace(s[i + |r|..])
  {
    var t := TrimStart(s);
    var r := TrimEnd(t);
    var i := |s| - |t|;
    assert Trim(s) == r && TrimmedLead(s) == i;
    assert t == s[i..] && AllWhitespace(s[..i]);
    assert r == t[..|r|] && AllWhitespace(t[|r|..]);
    SuffixSlices(s, i, |r|);
  }

  lemma SuffixSlices(s: string, i: nat, n: nat)
    requires i + n <= |s|
    ensures s[i..][..n] == s[i..i + n] && s[i..][n..] == s[i + n..]
  {
  }

  /** A string is blank after trimming exactly when it is all whitespace. */
  lemma TrimEmptyIffBlank(s: string)
    ensures Trim(s) == [] <==> AllWhitespace(s)
  {
    var t := TrimStart(s);
    var i := |s| - |t|;
    if Trim(s) == [] {
      assert TrimEnd(t) == [] && t[0..] == t;
      assert t == [];
      assert s[..i] == s;
    } else {
      TrimInfix(s);
    }
  }

  /** Trimming twice is trimming once. */
  lemma TrimmedEnds(s: string)
    requires Trim(s) != []
    ensures !IsWhitespace(Trim(s)[0]) && !IsWhitespace(Trim(s)[|Trim(s)| - 1])
  {
  }

  lemma TrimIdempotent(s: string)
    ensures Trim(Trim(s)) == Trim(s)
  {
    var r := Trim(s);
    assert TrimStart(r) == r;
    assert TrimEnd(r) == r;
  }

  predicate IsDigit(c: char) { '0' <= c <= '9' }

  predicate AllDigits(s: string) {
    forall i :: 0 <= i < |s| ==> IsDigit(s[i])
  }

  function DigitChar(d: nat): (c: char)
    requires d < 10
    ensures IsDigit(c)
  {
    ['0', '1', '2', '3', '4', '5', '6', '7', '8', '9'][d]
  }

  function DigitValue(c: char): (d: nat)
    requires IsDigit(c)
    ensures d < 10 && DigitChar(d) == c
  {
    (c as int - '0' as int)
  }

  /** The value of a string of decimal digits, read most significant first. */
  function DigitsValue(s: string): nat
    requires AllDigits(s)
  {
    if s == [] then 0 else DigitsValue(s[..|s| - 1]) * 10 + DigitValue(s[|s| - 1])
  }

  /** `n.toString()` for a non-negative integer: decimal digits without leading zeros. */
  function DecimalString(n: nat): (r: string)
    ensures 1 <= |r| && AllDigits(r)
    ensures r[0] == '0' ==> n == 0
    ensures n < 10 <==> |r| == 1
  {
    if n < 10 then [DigitChar(n)] else DecimalString(n / 10) + [DigitChar(n % 10)]
  }

  /** Reading back a rendered number gives the number. */
  lemma {:induction false} DecimalRoundTrip(n: nat)
    ensures DigitsValue(DecimalString(n)) == n
  {
    var s := DecimalString(n);
    if n < 10 {
      DigitRoundTrip(n);
      assert s == [DigitChar(n)] && s[..0] == [];
    } else {
      var high := DecimalString(n / 10);
      assert s == high + [DigitChar(n % 10)];
      assert s[..|s| - 1] == high && s[|s| - 1] == DigitChar(n % 10);
      DecimalRoundTrip(n / 10);
      DigitRoundTrip(n % 10);
      calc {
        DigitsValue(s);
        DigitsValue(high) * 10 + DigitValue(DigitChar(n % 10));
        (n / 10) * 10 + n % 10;
        n;
      }
    }
  }

  lemma DigitRoundTrip(d: nat)
    requires d < 10
    ensures DigitValue(DigitChar(d)) == d
  {
  }

  /** The longest prefix of `s` made of decimal digits. */
  function LeadingDigits(s: string): (r: string)
    ensures |r| <= |s| && r == s[..|r|] && AllDigits(r)
    ensures |r| < |s| ==> !IsDigit(s[|r|])
  {
    if s != [] && IsDigit(s[0]) then [s[0]] + LeadingDigits(s[1..]) else []
  }

  /** `parseInt(s, 10)`: optional leading whitespace, an optional sign, then at least one digit;
      `None` stands for `NaN`. */
  function ParseInt(s: string): (r: Option<int>)
    ensures AllWhitespace(s) ==> r == None
    ensures r.Some? && r.value < 0 ==> '-' in s
  {
    var t := TrimStart(s);
    assert t != [] ==> t[0] == s[|s| - |t|];
    var negative := t != [] && t[0] == '-';
    var unsigned := if t != [] && (t[0] == '-' || t[0] == '+') then t[1..] else t;
    var digits := LeadingDigits(unsigned);
    var magnitude: int := if digits == [] then 0 else DigitsValue(digits);
    if digits == [] then None
    else if negative then Some(-magnitude)
    else Some(magnitude)
  }

  /** A plain run of digits parses to its value. */
  lemma {:induction false} ParseIntOfDigits(s: string)
    requires AllDigits(s) && s != []
    ensures ParseInt(s) == Some(DigitsValue(s))
  {
    assert !IsWhitespace(s[0]);
    assert TrimStart(s) == s;
    LeadingDigitsOfDigits(s);
  }

  lemma {:induction false} LeadingDigitsOfDigits(s: string)
    requires AllDigits(s)
    ensures LeadingDigits(s) == s
  {
    if s != [] { LeadingDigitsOfDigits(s[1..]); }
  }

  /** `parseInt` reads back what `toString` wrote. */
  lemma ParseIntOfDecimal(n: nat)
    ensures ParseInt(DecimalString(n)) == Some(n)
  {
    ParseIntOfDigits(DecimalString(n));
    DecimalRoundTrip(n);
  }

  /** `s.split(sep)` for a one-character separator. */
  function Split(s: string, sep: char): (r: seq<string>)
    ensures |r| >= 1
    ensures sep !in s ==> r == [s]
    decreases |s|
  {
    if sep !in s then [s]
    else
      var i := FirstIndex(s, sep);
      [s[..i]] + Split(s[i + 1..], sep)
  }

  function FirstIndex(s: string, c: char): (i: nat)
    requires c in s
    ensures i < |s| && s[i] == c && c !in s[..i]
  {
    if s[0] == c then 0 else 1 + FirstIndex(s[1..], c)
  }

  lemma {:induction false} FirstIndexPast(a: string, sep: char, b: string)
    requires sep !in a
    ensures sep in a + [sep] + b && FirstIndex(a + [sep] + b, sep) == |a|
  {
    var s := a + [sep] + b;
    assert s[|a|] == sep;
    if a != [] {
      assert s[1..] == a[1..] + [sep] + b;
      FirstIndexPast(a[1..], sep, b);
    }
  }

  lemma {:induction false} FirstIndexWithin(a: string, sep: char, b: string)
    requires sep in a
    ensures sep in a + [sep] + b && FirstIndex(a + [sep] + b, sep) == FirstIndex(a, sep)
  {
    var s := a + [sep] + b;
    assert s[0] == a[0];
    if a[0] != sep {
      assert s[1..] == a[1..] + [sep] + b;
      FirstIndexWithin(a[1..], sep, b);
    }
  }

  /** Splitting at a separator splits each side independently. */
  lemma {:induction false} SplitAppend(a: string, sep: char, b: string)
    ensures Split(a + [sep] + b, sep) == Split(a, sep) + Split(b, sep)
    decreases |a|
  {
    var s := a + [sep] + b;
    if sep !in a {
      FirstIndexPast(a, sep, b);
      assert s[..|a|] == a && s[|a| + 1..] == b;
      calc {
        Split(s, sep);
        [s[..|a|]] + Split(s[|a| + 1..], sep);
        [a] + Split(b, sep);
        Split(a, sep) + Split(b, sep);
      }
    } else {
      var i := FirstIndex(a, sep);
      var rest := a[i + 1..];
      FirstIndexWithin(a, sep, b);
      assert s[..i] == a[..i];
      assert s[i + 1..] == rest + [sep] + b;
      calc {
        Split(s, sep);
        [a[..i]] + Split(rest + [sep] + b, sep);
        { SplitAppend(rest, sep, b); }
        [a[..i]] + (Split(rest, sep) + Split(b, sep));
        ([a[..i]] + Split(rest, sep)) + Split(b, sep);
        Split(a, sep) + Split(b, sep);
      }
    }
  }

  /** `parts.join(sep)`. */
  function Join(parts: seq<string>, sep: string): (r: string)
    ensures parts == [] ==> r == []
    ensures |parts| == 1 ==> r == parts[0]
    ensures |parts| >= 1 ==> |r| == TotalLength(parts) + |sep| * (|parts| - 1)
  {
    if parts == [] then []
    else if |parts| == 1 then parts[0]
    else parts[0] + sep + Join(parts[1..], sep)
  }

  function TotalLength(parts: seq<string>): nat {
    if parts == [] then 0 else |parts[0]| + TotalLength(parts[1..])
  }

  /** Where part `i` begins in `Join(parts, sep)`: after the earlier parts and one separator
      behind each of them. */
  function PartOffset(parts: seq<string>, sep: string, i: nat): nat
    requires i <= |parts|
  {
    if i == 0 then 0 else |parts[0]| + |sep| + PartOffset(parts[1..], sep, i - 1)
  }

  /** Part `i` sits at its offset in the joined string. */
  lemma {:induction false} JoinPartAt(parts: seq<string>, sep: string, i: nat)
    requires i < |parts|
    ensures PartOffset(parts, sep, i) + |parts[i]| <= |Join(parts, sep)|
    ensures Join(parts, sep)[PartOffset(parts, sep, i)..PartOffset(parts, sep, i) + |parts[i]|] == parts[i]
  {
    if i == 0 {
      JoinStartsWithFirst(parts, sep);
    } else {
      var rest := parts[1..];
      var o := PartOffset(rest, sep, i - 1);
      JoinPartAt(rest, sep, i - 1);
      assert rest[i - 1] == parts[i];
      SliceAfterPrefix(parts[0] + sep, Join(rest, sep), o, |parts[i]|);
    }
  }

  /** The joined string begins with the first part. */
  lemma JoinStartsWithFirst(parts: seq<string>, sep: string)
    requires |parts| >= 1
    ensures |parts[0]| <= |Join(parts, sep)| && Join(parts, sep)[..|parts[0]|] == parts[0]
  {
    if |parts| > 1 {
      var j := Join(parts, sep);
      assert j == parts[0] + (sep + Join(parts[1..], sep));
    }
  }

  /** A slice taken behind a prefix is the slice of what follows the prefix. */
  lemma SliceAfterPrefix(a: string, b: string, k: nat, n: nat)
    requires k + n <= |b|
    ensures (a + b)[|a| + k..|a| + k + n] == b[k..k + n]
  {
    assert (a + b)[|a|..] == b;
    assert (a + b)[|a| + k..|a| + k + n] == (a + b)[|a|..][k..k + n];
  }

  /** The separator follows part `i` when another part comes after it. */
  lemma {:induction false} JoinSepAfter(parts: seq<string>, sep: string, i: nat)
    requires i + 1 < |parts|
    ensures PartOffset(parts, sep, i) + |parts[i]| + |sep| == PartOffset(parts, sep, i + 1)
    ensures PartOffset(parts, sep, i + 1) <= |Join(parts, sep)|
    ensures Join(parts, sep)[PartOffset(parts, sep, i) + |parts[i]|..PartOffset(parts, sep, i + 1)] == sep
  {
    var j := Join(parts, sep);
    var rest := parts[1..];
    var jr := Join(rest, sep);
    var head := |parts[0]| + |sep|;
    assert j == parts[0] + sep + jr;
    if i == 0 {
      assert j[|parts[0]|..head] == sep;
    } else {
      JoinSepAfter(rest, sep, i - 1);
      var o := PartOffset(rest, sep, i - 1);
      var o2 := PartOffset(rest, sep, i);
      assert rest[i - 1] == parts[i];
      SliceAfterPrefix(parts[0] + sep, jr, o + |parts[i]|, |sep|);
    }
  }

  /** The joined string holds every part at its offset, in order, with the separator between
      each part and the next. */
  lemma JoinPlacesParts(parts: seq<string>, sep: string)
    ensures forall i :: 0 <= i < |parts| ==>
      PartOffset(parts, sep, i) + |parts[i]| <= |Join(parts, sep)|
      && Join(parts, sep)[PartOffset(parts, sep, i)..PartOffset(parts, sep, i) + |parts[i]|] == parts[i]
    ensures forall i :: 0 <= i < |parts| - 1 ==>
      PartOffset(parts, sep, i) + |parts[i]| + |sep| == PartOffset(parts, sep, i + 1)
      && Join(parts, sep)[PartOffset(parts, sep, i) + |parts[i]|..PartOffset(parts, sep, i + 1)] == sep
  {
    forall i | 0 <= i < |parts|
      ensures PartOffset(parts, sep, i) + |parts[i]| <= |Join(parts, sep)|
      ensures Join(parts, sep)[PartOffset(parts, sep, i)..PartOffset(parts, sep, i) + |parts[i]|] == parts[i]
    {
      JoinPartAt(parts, sep, i);
    }
    forall i | 0 <= i < |parts| - 1
      ensures PartOffset(parts, sep, i) + |parts[i]| + |sep| == PartOffset(parts, sep, i + 1)
      ensures Join(parts, sep)[PartOffset(parts, sep, i) + |parts[i]|..PartOffset(parts, sep, i + 1)] == sep
    {
      JoinSepAfter(parts, sep, i);
    }
  }

  /** Joining with a one-character separator that occurs in no part, then splitting at it,
      gives the parts back. */
  lemma {:induction false} JoinSplitRoundTrip(parts: seq<string>, c: char)
    requires |parts| >= 1
    requires forall i :: 0 <= i < |parts| ==> c !in parts[i]
    ensures Split(Join(parts, [c]), c) == parts
  {
    if |parts| == 1 {
      assert c !in parts[0];
    } else {
      var rest := parts[1..];
      assert forall i :: 0 <= i < |rest| ==> rest[i] == parts[i + 1];
      JoinSplitRoundTrip(rest, c);
      assert c !in parts[0];
      calc {
        Split(Join(parts, [c]), c);
        { assert Join(parts, [c]) == parts[0] + [c] + Join(rest, [c]); }
        Split(parts[0] + [c] + Join(rest, [c]), c);
        { SplitAppend(parts[0], c, Join(rest, [c])); }
        Split(parts[0], c) + Split(Join(rest, [c]), c);
        [parts[0]] + rest;
        parts;
      }
    }
  }

  /** `s.padStart(2, '0')`. */
  function PadTwo(s: string): (r: string)
    ensures |r| == if |s| >= 2 then |s| else 2
    ensures r[|r| - |s|..] == s
    ensures forall i :: 0 <= i < |r| - |s| ==> r[i] == '0'
  {
    if |s| >= 2 then s else if |s| == 1 then ['0'] + s else "00"
  }

  /** `c.toUpperCase()` for the basic Latin letters; every other character is kept. */
  function UpperChar(c: char): char {
    if 'a' <= c <= 'z' then (c as int - 32) as char else c
  }

  /** `s.charAt(0).toUpperCase() + s.slice(1)`. */
  function CapitalizeFirst(s: string): (r: string)
    ensures |r| == |s|
    ensures s != [] ==> r[0] == UpperChar(s[0]) && r[1..] == s[1..]
  {
    if s == [] then [] else [UpperChar(s[0])] + s[1..]
  }
}
