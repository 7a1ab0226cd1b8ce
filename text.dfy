/** String operations the controllers rely on: JavaScript's `toLowerCase`, `includes`,
    `trim() === ""`, `replace(first occurrence)`, `split(c).pop()` and `parseInt`.
    Strings are sequences of characters; case folding covers the ASCII and Latin-1 letters. */
module Text {
  import opened Wrappers

  /** The capitals folded here: A to Z, and the Latin-1 capitals from À to Þ except the
      multiplication sign ×. Each has its small letter 32 code points above it. */
  predicate IsUpper(c: char) {
    'A' <= c <= 'Z' || (0xC0 <= c as int <= 0xDE && c as int != 0xD7)
  }

  function LowerChar(c: char): (r: char)
    ensures IsUpper(c) ==> r as int == c as int + 32
    ensures !IsUpper(c) ==> r == c
    ensures !IsUpper(r)
  {
    if IsUpper(c) then (c as int + 32) as char else c
  }

  /** `toLowerCase`, restricted to the ASCII and Latin-1 letters. */
  function Lower(s: string): (r: string)
    ensures |r| == |s|
    ensures forall i :: 0 <= i < |s| ==> r[i] == LowerChar(s[i])
  {
    if s == [] then [] else [LowerChar(s[0])] + Lower(s[1..])
  }

  lemma {:induction false} LowerIdempotent(s: string)
    ensures Lower(Lower(s)) == Lower(s)
  {
    if s != [] {
      LowerIdempotent(s[1..]);
      assert Lower(s)[1..] == Lower(s[1..]);
    }
  }

  /** `pat` occurs in `s` starting at position `i`. */
  predicate OccursAt(s: string, pat: string, i: nat) {
    i + |pat| <= |s| && s[i..i + |pat|] == pat
  }

  /** `s.indexOf(pat)`: the first position at which `pat` occurs, if any. */
  function IndexOf(s: string, pat: string): (r: Option<nat>)
    ensures r.Some? ==> OccursAt(s, pat, r.value)
    ensures r.Some? ==> forall j: nat :: j < r.value ==> !OccursAt(s, pat, j)
    ensures r.None? ==> forall j: nat :: !OccursAt(s, pat, j)
    decreases |s|
  {
    if |pat| > |s| then None
    else if s[..|pat|] == pat then Some(0)
    else
      assert !OccursAt(s, pat, 0);
      OccursShift(s, pat);
      match IndexOf(s[1..], pat)
      case None => None
      case Some(k) => Some(k + 1)
  }

  /** Occurrences in `s` after its first position are the occurrences in `s[1..]`. */
  lemma OccursShift(s: string, pat: string)
    requires s != []
    ensures forall j: nat :: 0 < j ==> (OccursAt(s, pat, j) <==> OccursAt(s[1..], pat, j - 1))
  {
    forall j: nat | 0 < j ensures OccursAt(s, pat, j) <==> OccursAt(s[1..], pat, j - 1) {
      if j + |pat| <= |s| {
        assert s[1..][j - 1..j - 1 + |pat|] == s[j..j + |pat|];
      }
    }
  }

  /** `s.includes(pat)`. */
  predicate Contains(s: string, pat: string) {
    IndexOf(s, pat).Some?
  }

  /** `text ILIKE '%term%'`: case-insensitive substring (the wildcard characters `%` and
      `_` inside the term are not given their pattern meaning). */
  predicate Like(text: string, term: string) {
    Contains(Lower(text), Lower(term))
  }

  /** `s.replace(pat, rep)` with a string pattern: only the first occurrence is replaced. */
  function ReplaceFirst(s: string, pat: string, rep: string): (r: string)
    ensures !Contains(s, pat) ==> r == s
    ensures Contains(s, pat) ==>
      var i := IndexOf(s, pat).value; r == s[..i] + rep + s[i + |pat|..]
  {
    match IndexOf(s, pat)
    case None => s
    case Some(i) => s[..i] + rep + s[i + |pat|..]
  }

  lemma ReplaceFirstRemovesLeadingOccurrence(pat: string, rest: string, rep: string)
    ensures ReplaceFirst(pat + rest, pat, rep) == rep + rest
  {
    assert OccursAt(pat + rest, pat, 0);
    assert (pat + rest)[|pat|..] == rest;
  }

  /** `s.replace(/^c+/, "")`: all leading copies of `c` removed. */
  function StripLeading(s: string, c: char): (r: string)
    ensures |r| <= |s|
  {
    if s != [] && s[0] == c then StripLeading(s[1..], c) else s
  }

  /** What stripping leaves: a suffix of `s` that does not start with `c`, after a run
      of `c`s. */
  lemma {:induction false} StripLeadingFacts(s: string, c: char)
    ensures var r := StripLeading(s, c);
      r == s[|s| - |r|..] && (r == [] || r[0] != c) &&
      forall i :: 0 <= i < |s| - |r| ==> s[i] == c
  {
    if s != [] && s[0] == c {
      StripLeadingFacts(s[1..], c);
    }
  }

  /** `s.split(c).pop()`: the text after the last `c`, or all of `s` when there is none. */
  function AfterLast(s: string, c: char): (r: string)
    ensures |r| <= |s| && r == s[|s| - |r|..]
    ensures c !in r
    ensures |r| < |s| ==> s[|s| - |r| - 1] == c
  {
    if s == [] then []
    else if s[|s| - 1] == c then []
    else AfterLast(s[..|s| - 1], c) + [s[|s| - 1]]
  }

  lemma {:induction false} AfterLastOfJoin(prefix: string, c: char, last: string)
    requires c !in last
    ensures AfterLast(prefix + [c] + last, c) == last
    decreases |last|
  {
    var s := prefix + [c] + last;
    if last != [] {
      var init := last[..|last| - 1];
      assert s[..|s| - 1] == prefix + [c] + init;
      assert s[|s| - 1] == last[|last| - 1];
      AfterLastOfJoin(prefix, c, init);
      assert init + [last[|last| - 1]] == last;
    }
  }

  /** The characters `trim()` and `parseInt` skip: ECMAScript's WhiteSpace (tab, vertical
      tab, form feed, U+FEFF and the Unicode space separators) and LineTerminator (line feed,
      carriage return, U+2028, U+2029). */
  predicate IsSpace(c: char) {
    var n := c as int;
    n == 9 || n == 10 || n == 11 || n == 12 || n == 13 || n == 0x20 || n == 0xA0 || n == 0x1680 ||
    (0x2000 <= n <= 0x200A) || n == 0x2028 || n == 0x2029 || n == 0x202F || n == 0x205F ||
    n == 0x3000 || n == 0xFEFF
  }

  /** `s.trim() === ""`. */
  predicate IsBlank(s: string) {
    forall i :: 0 <= i < |s| ==> IsSpace(s[i])
  }

  /** JavaScript truthiness of an optional string: present and not empty. */
  predicate Truthy(s: Option<string>) {
    s.Some? && s.value != ""
  }

  predicate IsDigit(c: char) {
    '0' <= c <= '9'
  }

  /** The value of a sequence of decimal digits. */
  function DigitsValue(ds: string): (n: nat)
    requires forall i :: 0 <= i < |ds| ==> IsDigit(ds[i])
  {
    if ds == [] then 0
    else
      assert IsDigit(ds[|ds| - 1]);
      10 * DigitsValue(ds[..|ds| - 1]) + (ds[|ds| - 1] as int - '0' as int)
  }

  /** The longest prefix of `s` made of decimal digits. */
  function DigitPrefix(s: string): (ds: string)
    ensures |ds| <= |s| && ds == s[..|ds|]
    ensures forall i :: 0 <= i < |ds| ==> IsDigit(ds[i])
    ensures |ds| < |s| ==> !IsDigit(s[|ds|])
  {
    if s != [] && IsDigit(s[0]) then [s[0]] + DigitPrefix(s[1..]) else []
  }

  lemma DigitPrefixAll(ds: string)
    requires forall i :: 0 <= i < |ds| ==> IsDigit(ds[i])
    ensures DigitPrefix(ds) == ds
  {
  }

  /** `parseInt(s)` with no radix: leading white space is skipped and one sign is read; a
      following "0x" or "0X" switches to base sixteen, otherwise the base is ten; then the
      longest run of digits of that base is read. `None` stands for NaN (no digit where one
      is needed). */
  function ParseInt(s: string): (r: Option<int>)
    ensures var body := Unsigned(StripSpaces(s));
            r.None? <==> if HexPrefixed(body) then |body| == 2 || !IsHexDigit(body[2])
                         else body == [] || !IsDigit(body[0])
  {
    var t := StripSpaces(s);
    var magnitude := ParseMagnitude(Unsigned(t));
    if magnitude.None? then None
    else if t != [] && t[0] == '-' then Some(-magnitude.value)
    else magnitude
  }

  /** The unsigned part: "0x" or "0X" and hexadecimal digits, or decimal digits. */
  function ParseMagnitude(body: string): (r: Option<int>)
    ensures r.None? <==> if HexPrefixed(body) then |body| == 2 || !IsHexDigit(body[2])
                         else body == [] || !IsDigit(body[0])
    ensures r.Some? ==> r.value >= 0
  {
    var ds := if HexPrefixed(body) then HexDigitPrefix(body[2..]) else DigitPrefix(body);
    if ds == [] then None
    else if HexPrefixed(body) then Some(HexValue(ds))
    else Some(DigitsValue(ds))
  }

  /** Text with no leading space or sign is read as its magnitude. */
  lemma ParseIntUnsigned(s: string)
    requires s == [] || (!IsSpace(s[0]) && s[0] != '-' && s[0] != '+')
    ensures ParseInt(s) == ParseMagnitude(s)
  {
    assert StripSpaces(s) == s;
  }

  /** The text after one leading sign, if there is one. */
  function Unsigned(t: string): (r: string)
    ensures r == if t != [] && (t[0] == '-' || t[0] == '+') then t[1..] else t
  {
    if t != [] && (t[0] == '-' || t[0] == '+') then t[1..] else t
  }

  predicate HexPrefixed(body: string) {
    |body| >= 2 && body[0] == '0' && (body[1] == 'x' || body[1] == 'X')
  }

  predicate IsHexDigit(c: char) {
    IsDigit(c) || 'a' <= c <= 'f' || 'A' <= c <= 'F'
  }

  function HexDigitValue(c: char): (d: nat)
    requires IsHexDigit(c)
    ensures d < 16
  {
    if IsDigit(c) then c as int - '0' as int
    else if 'a' <= c <= 'f' then c as int - 'a' as int + 10
    else c as int - 'A' as int + 10
  }

  /** The value of a sequence of hexadecimal digits. */
  function HexValue(ds: string): (n: nat)
    requires forall i :: 0 <= i < |ds| ==> IsHexDigit(ds[i])
  {
    if ds == [] then 0 else 16 * HexValue(ds[..|ds| - 1]) + HexDigitValue(ds[|ds| - 1])
  }

  /** The longest prefix of `s` made of hexadecimal digits. */
  function HexDigitPrefix(s: string): (ds: string)
    ensures |ds| <= |s| && ds == s[..|ds|]
    ensures forall i :: 0 <= i < |ds| ==> IsHexDigit(ds[i])
    ensures |ds| < |s| ==> !IsHexDigit(s[|ds|])
  {
    if s != [] && IsHexDigit(s[0]) then [s[0]] + HexDigitPrefix(s[1..]) else []
  }

  /** A "0x" or "0X" prefix reads the hexadecimal digits after it ("0x1A" is 26), and a
      prefix with no digit after it is NaN. */
  lemma ParseIntHex(x: char, ds: string)
    requires x == 'x' || x == 'X'
    requires forall i :: 0 <= i < |ds| ==> IsHexDigit(ds[i])
    ensures ParseInt(['0', x] + ds) == if ds == [] then None else Some(HexValue(ds))
  {
    var s := ['0', x] + ds;
    assert s[0] == '0';
    ParseIntUnsigned(s);
    HexMagnitude(x, ds);
  }

  lemma HexMagnitude(x: char, ds: string)
    requires x == 'x' || x == 'X'
    requires forall i :: 0 <= i < |ds| ==> IsHexDigit(ds[i])
    ensures ParseMagnitude(['0', x] + ds) == if ds == [] then None else Some(HexValue(ds))
  {
    var s := ['0', x] + ds;
    assert HexPrefixed(s) && s[2..] == ds;
    HexDigitPrefixAll(ds);
  }

  lemma HexDigitPrefixAll(ds: string)
    requires forall i :: 0 <= i < |ds| ==> IsHexDigit(ds[i])
    ensures HexDigitPrefix(ds) == ds
  {
  }

  function StripSpaces(s: string): (r: string)
    ensures |r| <= |s|
    ensures r == s[|s| - |r|..]
    ensures r == [] || !IsSpace(r[0])
  {
    if s != [] && IsSpace(s[0]) then StripSpaces(s[1..]) else s
  }

  function DigitChar(d: nat): (c: char)
    requires d < 10
    ensures IsDigit(c) && c as int - '0' as int == d
  {
    ('0' as int + d) as char
  }

  /** The decimal rendering of `n` (a template literal `${n}`). */
  function NatToString(n: nat): (r: string)
    ensures r != []
    ensures forall i :: 0 <= i < |r| ==> IsDigit(r[i])
  {
    if n < 10 then [DigitChar(n)] else NatToString(n / 10) + [DigitChar(n % 10)]
  }

  /** `parseInt` reads back the decimal rendering of `n`. */
  lemma ParseIntRoundTrip(n: nat)
    ensures ParseInt(NatToString(n)) == Some(n)
  {
    var r := NatToString(n);
    assert IsDigit(r[0]);
    ParseIntUnsigned(r);
    assert !HexPrefixed(r) by { if |r| >= 2 { assert IsDigit(r[1]); } }
    DigitPrefixAll(r);
    NatToStringRoundTrip(n);
  }

  /** Reading back the rendering of `n` gives `n`. */
  lemma {:induction false} NatToStringRoundTrip(n: nat)
    ensures DigitsValue(NatToString(n)) == n
  {
    var r := NatToString(n);
    if n < 10 {
      assert r[..|r| - 1] == [];
    } else {
      NatToStringRoundTrip(n / 10);
      assert r[..|r| - 1] == NatToString(n / 10);
    }
  }
}
