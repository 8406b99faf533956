/** String operations of the JavaScript runtime that the app relies on:
    white space as `\s` and `trim` see it, `split(c)[0]`, decimal printing and
    parsing of integers, and global replacement of a literal pattern. */
module Text {
  import opened Wrappers

  /** The characters that `\s` in a regular expression and `String.prototype.trim`
      treat as white space (ECMAScript WhiteSpace and LineTerminator). */
  predicate IsWhitespace(c: char) {
    var n := c as int;
    || n == 0x09 || n == 0x0A || n == 0x0B || n == 0x0C || n == 0x0D
    || n == 0x20 || n == 0xA0 || n == 0x1680
    || (0x2000 <= n <= 0x200A)
    || n == 0x2028 || n == 0x2029 || n == 0x202F || n == 0x205F
    || n == 0x3000 || n == 0xFEFF
  }

  predicate Blank(s: string) {
    forall i :: 0 <= i < |s| ==> IsWhitespace(s[i])
  }

  /** Where the white space that starts at `k` ends. */
  function SpaceEnd(s: string, k: nat): (n: nat)
    requires k <= |s|
    ensures k <= n <= |s|
    ensures forall i :: k <= i < n ==> IsWhitespace(s[i])
    ensures n == |s| || !IsWhitespace(s[n])
    decreases |s| - k
  {
    if k < |s| && IsWhitespace(s[k]) then SpaceEnd(s, k + 1) else k
  }

  /** Where the white space that ends at `k` starts. */
  function SpaceStart(s: string, k: nat): (n: nat)
    requires k <= |s|
    ensures n <= k
    ensures forall i :: n <= i < k ==> IsWhitespace(s[i])
    ensures n == 0 || !IsWhitespace(s[n - 1])
  {
    if k > 0 && IsWhitespace(s[k - 1]) then SpaceStart(s, k - 1) else k
  }

  /** `s` without its leading white space: the last `|r|` characters of `s`,
      preceded only by white space. */
  function TrimStart(s: string): (r: string)
    ensures |r| <= |s|
    ensures forall i :: 0 <= i < |r| ==> r[i] == s[|s| - |r| + i]
    ensures forall i :: 0 <= i < |s| - |r| ==> IsWhitespace(s[i])
    ensures r == [] || !IsWhitespace(r[0])
  {
    s[SpaceEnd(s, 0)..]
  }

  /** `s` without its trailing white space: the first `|r|` characters of `s`,
      followed only by white space. */
  function TrimEnd(s: string): (r: string)
    ensures |r| <= |s|
    ensures forall i :: 0 <= i < |r| ==> r[i] == s[i]
    ensures forall i :: |r| <= i < |s| ==> IsWhitespace(s[i])
    ensures r == [] || !IsWhitespace(r[|r| - 1])
  {
    s[..SpaceStart(s, |s|)]
  }

  /** `s.trim()`: the text between the leading and the trailing white space. */
  function Trim(s: string): (r: string)
    ensures r == [] <==> Blank(s)
    ensures r != [] ==> !IsWhitespace(r[0]) && !IsWhitespace(r[|r| - 1])
    ensures |r| <= |TrimStart(s)| <= |s|
    ensures forall i :: 0 <= i < |r| ==> r[i] == s[|s| - |TrimStart(s)| + i]
  {
    TrimEnd(TrimStart(s))
  }

  /** `s.split(c)[0]`: everything before the first `c`, or all of `s`. */
  function PrefixBefore(s: string, c: char): (r: string)
    ensures |r| <= |s| && r == s[..|r|]
    ensures c !in r
    ensures |r| < |s| ==> s[|r|] == c
  {
    if s == [] || s[0] == c then [] else [s[0]] + PrefixBefore(s[1..], c)
  }

  /** Splitting at the first `c` gives back a part written before a `c`. */
  lemma {:induction false} PrefixBeforeRoundTrip(k: string, c: char, rest: string)
    requires c !in k
    ensures PrefixBefore(k + [c] + rest, c) == k
  {
    if k != [] {
      assert (k + [c] + rest)[1..] == k[1..] + [c] + rest;
      PrefixBeforeRoundTrip(k[1..], c, rest);
    }
  }

  /** The index of the first `c` in `s` at or after `k`, or `|s|` when there is none. */
  function FirstFrom(s: string, c: char, k: nat): (n: nat)
    requires k <= |s|
    ensures k <= n <= |s|
    ensures forall i :: k <= i < n ==> s[i] != c
    ensures n < |s| ==> s[n] == c
    decreases |s| - k
  {
    if k < |s| && s[k] != c then FirstFrom(s, c, k + 1) else k
  }

  /** `s.replace(from, to)` with a one-character string pattern: only the first
      occurrence is replaced. */
  function ReplaceFirstChar(s: string, from: char, to: char): (r: string)
    ensures |r| == |s|
    ensures from !in s ==> r == s
    ensures from in s ==> exists i :: 0 <= i < |s| && s[i] == from && from !in s[..i] && r == s[i := to]
  {
    var n := FirstFrom(s, from, 0);
    if n == |s| then s
    else
      assert from !in s[..n];
      s[n := to]
  }

  // ---------------------------------------------------------------------------
  // Decimal numbers

  predicate IsDigit(c: char) {
    '0' <= c <= '9'
  }

  predicate AllDigits(s: string) {
    forall i :: 0 <= i < |s| ==> IsDigit(s[i])
  }

  function DigitValue(c: char): nat
    requires IsDigit(c)
  {
    c as int - '0' as int
  }

  function DigitChar(d: nat): (c: char)
    requires d < 10
    ensures IsDigit(c) && DigitValue(c) == d
  {
    (d + '0' as int) as char
  }

  /** The value of a run of decimal digits, most significant first. */
  function DigitsValue(s: string): nat
    requires AllDigits(s)
  {
    if s == [] then 0 else 10 * DigitsValue(s[..|s| - 1]) + DigitValue(s[|s| - 1])
  }

  /** `String(n)` for a non-negative integer: its shortest decimal form, which
      reads back as `n`. */
  function NatToString(n: nat): (r: string)
    ensures r != [] && AllDigits(r)
    ensures |r| > 1 ==> r[0] != '0'
    ensures DigitsValue(r) == n
  {
    if n < 10 then [DigitChar(n)]
    else
      var r := NatToString(n / 10) + [DigitChar(n % 10)];
      assert r[..|r| - 1] == NatToString(n / 10);
      r
  }

  /** `String(i)` for an integer. */
  function IntToString(i: int): (r: string)
    ensures r != [] && (r[0] == '-' <==> i < 0)
    ensures i < 0 ==> r[1..] == NatToString(-i)
    ensures i >= 0 ==> r == NatToString(i)
  {
    if i < 0 then "-" + NatToString(-i) else NatToString(i)
  }

  /** A non-empty run of decimal digits and nothing else. */
  function ParseNat(s: string): (r: Option<nat>)
    ensures r.Some? <==> s != [] && AllDigits(s)
  {
    if s != [] && AllDigits(s) then Some(DigitsValue(s)) else None
  }

  /** An optional minus sign followed by a run of decimal digits. */
  function ParseInt(s: string): (r: Option<int>)
    ensures r.Some? && r.value < 0 ==> s != [] && s[0] == '-'
  {
    if s != [] && s[0] == '-' then
      match ParseNat(s[1..])
      case Some(v) => Some(0 - v as int)
      case None => None
    else
      match ParseNat(s)
      case Some(v) => Some(v)
      case None => None
  }

  lemma IntToStringRoundTrip(i: int)
    ensures ParseNat(NatToString(if i < 0 then -i else i)) == Some(if i < 0 then -i else i)
    ensures ParseInt(IntToString(i)) == Some(i)
  {
    if i < 0 {
      assert IntToString(i)[1..] == NatToString(-i);
    } else {
      assert IntToString(i)[0] != '-';
    }
  }

  /** The longest run of digits at the head of `s`. */
  function DigitPrefix(s: string): (r: string)
    ensures |r| <= |s| && r == s[..|r|] && AllDigits(r)
    ensures |r| < |s| ==> !IsDigit(s[|r|])
  {
    if s != [] && IsDigit(s[0]) then [s[0]] + DigitPrefix(s[1..]) else []
  }

  lemma {:induction false} DigitPrefixOf(d: string, rest: string)
    requires AllDigits(d) && (rest == [] || !IsDigit(rest[0]))
    ensures DigitPrefix(d + rest) == d
  {
    if d != [] {
      assert (d + rest)[1..] == d[1..] + rest;
      DigitPrefixOf(d[1..], rest);
      assert [d[0]] + d[1..] == d;
    } else {
      assert d + rest == rest;
    }
  }

  function Pow10(n: nat): (p: nat)
    ensures p >= 1
  {
    if n == 0 then 1 else 10 * Pow10(n - 1)
  }

  /** The number written as `whole.frac`. */
  function DecimalValue(whole: string, frac: string): real
    requires AllDigits(whole) && AllDigits(frac)
  {
    DigitsValue(whole) as real + DigitsValue(frac) as real / Pow10(|frac|) as real
  }

  /** Digits with an optional fraction after a `.`, at the head of `body`;
      `None` when there is no digit on either side of the point. */
  function UnsignedDecimal(body: string): (r: Option<real>)
    ensures r.None? <==> !(body != [] && IsDigit(body[0])) && !(|body| >= 2 && body[0] == '.' && IsDigit(body[1]))
    ensures r.Some? ==> r.value >= 0.0
  {
    var whole := DigitPrefix(body);
    var after := body[|whole|..];
    var frac := if after != [] && after[0] == '.' then DigitPrefix(after[1..]) else [];
    assert whole == [] ==> after == body;
    assert |body| >= 2 && body[0] == '.' ==> body[1..][0] == body[1];
    if whole == [] && frac == [] then None else Some(DecimalValue(whole, frac))
  }

  /** `parseFloat(s)` on text without an exponent: leading white space is
      skipped, then an optional sign and an unsigned decimal; `None` is NaN. */
  function ParseFloat(s: string): Option<real> {
    var t := TrimStart(s);
    if t != [] && t[0] == '-' then
      match UnsignedDecimal(t[1..])
      case Some(v) => Some(-v)
      case None => None
    else if t != [] && t[0] == '+' then UnsignedDecimal(t[1..])
    else UnsignedDecimal(t)
  }

  /** Text that starts with a digit is read without white space or sign. */
  lemma DigitFirstParses(s: string)
    requires s != [] && IsDigit(s[0])
    ensures ParseFloat(s) == UnsignedDecimal(s)
  {
    assert !IsWhitespace(s[0]);
    assert TrimStart(s) == s;
  }

  /** Digits, a point and more digits read as that decimal fraction. */
  lemma DecimalParses(whole: string, frac: string)
    requires whole != [] && AllDigits(whole) && AllDigits(frac)
    ensures ParseFloat(whole + "." + frac) == Some(DecimalValue(whole, frac))
  {
    var s := whole + "." + frac;
    PointedFacts(whole, frac, s);
    DigitFirstParses(s);
    PointedDecimal(s, whole, frac);
  }

  lemma PointedFacts(whole: string, frac: string, s: string)
    requires whole != [] && AllDigits(whole) && AllDigits(frac) && s == whole + "." + frac
    ensures s != [] && IsDigit(s[0]) && DigitPrefix(s) == whole && s[|whole|..] == "." + frac
    ensures DigitPrefix(frac) == frac
  {
    assert s[0] == whole[0];
    assert s == whole + ("." + frac);
    DigitPrefixOf(whole, "." + frac);
    DigitPrefixOf(frac, []);
    assert frac + [] == frac;
  }

  lemma PointedDecimal(s: string, whole: string, frac: string)
    requires AllDigits(frac) && AllDigits(whole) && whole != []
    requires DigitPrefix(s) == whole && s[|whole|..] == "." + frac && DigitPrefix(frac) == frac
    ensures UnsignedDecimal(s) == Some(DecimalValue(whole, frac))
  {
    assert s[|whole|..][1..] == frac;
  }

  /** A natural number's decimal form reads back as that number. */
  lemma NaturalParses(n: nat)
    ensures ParseFloat(NatToString(n)) == Some(n as real)
  {
    var s := NatToString(n);
    DigitFirstParses(s);
    DigitPrefixOf(s, []);
    assert s + [] == s;
    WholeDecimal(s);
    assert DigitsValue([]) == 0 && Pow10(0) == 1;
  }

  lemma WholeDecimal(s: string)
    requires s != [] && AllDigits(s) && DigitPrefix(s) == s
    ensures UnsignedDecimal(s) == Some(DecimalValue(s, []))
  {
  }

  // ---------------------------------------------------------------------------
  // Global replacement of a literal pattern

  /** `pat` occurs in `s` at index `i`. */
  predicate OccursAt(pat: string, s: string, i: int) {
    0 <= i && i + |pat| <= |s| && s[i..i + |pat|] == pat
  }

  predicate Occurs(pat: string, s: string) {
    exists i | 0 <= i <= |s| :: OccursAt(pat, s, i)
  }

  /** Replacing every occurrence of a literal, as `s.replace(/pat/g, rep)` does
      when `pat` has no regular-expression operator and `rep` no `$`: the text is
      scanned from the left and each match is replaced, matches not overlapping. */
  function ReplaceAll(s: string, pat: string, rep: string): string
    requires pat != []
    decreases |s|
  {
    if |s| < |pat| then s
    else if s[..|pat|] == pat then rep + ReplaceAll(s[|pat|..], pat, rep)
    else [s[0]] + ReplaceAll(s[1..], pat, rep)
  }

  /** `s.split(pat)`: the pieces between the matches, found by the same scan. */
  function Split(s: string, pat: string): (parts: seq<string>)
    requires pat != []
    ensures |parts| >= 1
    decreases |s|
  {
    if |s| < |pat| then [s]
    else if s[..|pat|] == pat then [[]] + Split(s[|pat|..], pat)
    else
      var t := Split(s[1..], pat);
      [[s[0]] + t[0]] + t[1..]
  }

  /** `parts.join(sep)` */
  function Join(parts: seq<string>, sep: string): string
    requires |parts| >= 1
  {
    if |parts| == 1 then parts[0] else parts[0] + sep + Join(parts[1..], sep)
  }

  lemma {:induction false} JoinConsFirst(c: char, t: seq<string>, sep: string)
    requires |t| >= 1
    ensures Join([[c] + t[0]] + t[1..], sep) == [c] + Join(t, sep)
  {
    var u := [[c] + t[0]] + t[1..];
    if |t| > 1 {
      assert u[1..] == t[1..];
      calc {
        Join(u, sep);
        ([c] + t[0]) + sep + Join(t[1..], sep);
        [c] + (t[0] + sep + Join(t[1..], sep));
      }
    }
  }

  /** Replacing all matches is splitting at them and joining with the replacement. */
  lemma {:induction false} ReplaceAllIsSplitJoin(s: string, pat: string, rep: string)
    requires pat != []
    ensures ReplaceAll(s, pat, rep) == Join(Split(s, pat), rep)
    decreases |s|
  {
    if |s| < |pat| {
    } else if s[..|pat|] == pat {
      ReplaceAllIsSplitJoin(s[|pat|..], pat, rep);
      var t := Split(s[|pat|..], pat);
      assert ([[]] + t)[1..] == t;
    } else {
      ReplaceAllIsSplitJoin(s[1..], pat, rep);
      JoinConsFirst(s[0], Split(s[1..], pat), rep);
    }
  }

  /** Replacing the pattern by itself changes nothing. */
  lemma {:induction false} ReplaceAllBySelf(s: string, pat: string)
    requires pat != []
    ensures ReplaceAll(s, pat, pat) == s
    decreases |s|
  {
    if |s| < |pat| {
    } else if s[..|pat|] == pat {
      ReplaceAllBySelf(s[|pat|..], pat);
      assert s == s[..|pat|] + s[|pat|..];
    } else {
      ReplaceAllBySelf(s[1..], pat);
      assert s == [s[0]] + s[1..];
    }
  }

  /** Joining the pieces of a split with the pattern gives the text back. */
  lemma SplitJoinRoundTrip(s: string, pat: string)
    requires pat != []
    ensures Join(Split(s, pat), pat) == s
  {
    ReplaceAllIsSplitJoin(s, pat, pat);
    ReplaceAllBySelf(s, pat);
  }

  /** A text in which the pattern does not occur is returned unchanged. */
  lemma {:induction false} ReplaceAllAbsent(s: string, pat: string, rep: string)
    requires pat != [] && !Occurs(pat, s)
    ensures ReplaceAll(s, pat, rep) == s
    decreases |s|
  {
    if |s| >= |pat| {
      assert !OccursAt(pat, s, 0);
      assert s[..|pat|] != pat;
      if Occurs(pat, s[1..]) {
        var i :| 0 <= i <= |s[1..]| && OccursAt(pat, s[1..], i);
        assert i + |pat| <= |s| - 1;
        assert s[1..][i..i + |pat|] == s[i + 1..i + 1 + |pat|];
        assert OccursAt(pat, s, i + 1);
        assert false;
      }
      ReplaceAllAbsent(s[1..], pat, rep);
      assert s == [s[0]] + s[1..];
    }
  }

  /** A pattern that starts with `p` can only occur where `p` occurs. */
  lemma OccursPrefix(p: string, q: string, s: string)
    requires Occurs(p + q, s)
    ensures Occurs(p, s)
  {
    var i :| 0 <= i <= |s| && OccursAt(p + q, s, i);
    assert i + |p + q| <= |s|;
    assert s[i..i + |p|] == s[i..i + |p + q|][..|p|] == p;
    assert OccursAt(p, s, i);
  }

  // ---------------------------------------------------------------------------
  // Case

  /** Upper case of a Latin letter; other characters are kept. */
  function ToUpper(c: char): (u: char)
    ensures 'a' <= c <= 'z' ==> 'A' <= u <= 'Z' && u as int == c as int - 32
    ensures !('a' <= c <= 'z') ==> u == c
  {
    if 'a' <= c <= 'z' then (c as int - 32) as char else c
  }

  // ---------------------------------------------------------------------------
  // Length

  /** The code units a character takes in UTF-16: two for a character above
      U+FFFF, which is written as a surrogate pair. */
  function CodeUnits(c: char): nat {
    if c as int < 0x1_0000 then 1 else 2
  }

  /** JavaScript's `length` of a string, which counts UTF-16 code units, not
      characters. */
  function Utf16Length(s: string): (n: nat)
    ensures |s| <= n <= 2 * |s|
    ensures n == |s| <==> forall i :: 0 <= i < |s| ==> s[i] as int < 0x1_0000
  {
    if s == [] then 0
    else
      var rest := Utf16Length(s[1..]);
      assert forall i :: 1 <= i < |s| ==> s[i] == s[1..][i - 1];
      CodeUnits(s[0]) + rest
  }

  /** The length of a concatenation is the sum of the lengths. */
  lemma {:induction false} Utf16LengthAppend(a: string, b: string)
    ensures Utf16Length(a + b) == Utf16Length(a) + Utf16Length(b)
  {
    if a != [] {
      assert (a + b)[1..] == a[1..] + b;
      Utf16LengthAppend(a[1..], b);
    } else {
      assert a + b == b;
    }
  }

  /** Characters outside the Basic Multilingual Plane count twice: three emoji
      have length 6, one has length 2. */
  lemma SurrogatePairsCountTwice()
    ensures Utf16Length("\U{1F600}\U{1F600}\U{1F600}") == 6
    ensures Utf16Length("\U{1F600}") == 2
    ensures |"\U{1F600}\U{1F600}\U{1F600}"| == 3
  {
    var e := "\U{1F600}";
    assert e[1..] == [];
    assert Utf16Length(e) == 2;
    var ee := e + e;
    Utf16LengthAppend(e, e);
    Utf16LengthAppend(ee, e);
    assert ee + e == "\U{1F600}\U{1F600}\U{1F600}";
  }
}
