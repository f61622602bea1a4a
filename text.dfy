/**
 * The .NET string operations the plugin relies on: whitespace tests and
 * trimming, ASCII case mapping, `Split`/`Join` on one character, ordinal
 * `Replace`, and the invariant-culture conversions between `int` and text.
 */
module Text {
  import opened Wrappers

  /** `Char.IsWhiteSpace`: the separators Zs, Zl, Zp plus U+0009..U+000D and U+0085.
      The same set is matched by `\s` in a .NET regular expression. */
  predicate IsWhiteSpace(c: char) {
    c == ' ' || ('\t' <= c <= '\r') || c == '\U{0085}' || c == '\U{00A0}' || c == '\U{1680}'
    || ('\U{2000}' <= c <= '\U{200A}') || c == '\U{2028}' || c == '\U{2029}'
    || c == '\U{202F}' || c == '\U{205F}' || c == '\U{3000}'
  }

  predicate IsBlank(s: string) {
    forall i :: 0 <= i < |s| ==> IsWhiteSpace(s[i])
  }

  lemma DigitNotWhiteSpace(c: char)
    requires IsDigit(c)
    ensures !IsWhiteSpace(c)
  {
  }

  lemma NotBlankAt(s: string, i: nat)
    requires i < |s| && !IsWhiteSpace(s[i])
    ensures !IsBlank(s)
  {
  }

  /** `string.IsNullOrWhiteSpace`. */
  predicate IsNullOrWhiteSpace(s: Option<string>) {
    s.None? || IsBlank(s.value)
  }

  /** `string.IsNullOrEmpty`. */
  predicate IsNullOrEmpty(s: Option<string>) {
    s.None? || s.value == ""
  }

  predicate IsDigit(c: char) {
    '0' <= c <= '9'
  }

  predicate AllDigits(s: string) {
    forall i :: 0 <= i < |s| ==> IsDigit(s[i])
  }

  /** A non-empty run of digits is not blank. */
  lemma DigitsNotBlank(s: string)
    requires |s| >= 1 && AllDigits(s)
    ensures !IsBlank(s)
  {
    DigitNotWhiteSpace(s[0]);
    NotBlankAt(s, 0);
  }

  /** The character sets the plugin trims or matches: `Char.IsWhiteSpace` (also
      `\s`), the newline of `TrimStart('\n')`, and the digits of `\d`. */
  datatype CharClass = WhiteSpace | Newline | Digit

  predicate InClass(c: char, cls: CharClass) {
    match cls
    case WhiteSpace => IsWhiteSpace(c)
    case Newline => c == '\n'
    case Digit => IsDigit(c)
  }

  /** Removes the leading characters of a class (`TrimStart`). */
  function TrimLeading(s: string, cls: CharClass): (r: string)
    ensures |r| <= |s| && r == s[|s| - |r|..]
    ensures forall i :: 0 <= i < |s| - |r| ==> InClass(s[i], cls)
    ensures r == [] || !InClass(r[0], cls)
  {
    if s != [] && InClass(s[0], cls) then TrimLeading(s[1..], cls) else s
  }

  /** Removes the trailing characters of a class (`TrimEnd`). */
  function TrimTrailing(s: string, cls: CharClass): (r: string)
    ensures |r| <= |s| && r == s[..|r|]
    ensures forall i :: |r| <= i < |s| ==> InClass(s[i], cls)
    ensures r == [] || !InClass(r[|r| - 1], cls)
  {
    if s != [] && InClass(s[|s| - 1], cls) then TrimTrailing(s[..|s| - 1], cls) else s
  }

  /** `string.Trim()`. */
  function Trim(s: string): (r: string)
    ensures r == [] <==> IsBlank(s)
    ensures r == [] || (!IsWhiteSpace(r[0]) && !IsWhiteSpace(r[|r| - 1]))
  {
    var t := TrimLeading(s, WhiteSpace);
    var r := TrimTrailing(t, WhiteSpace);
    assert r == [] <==> t == [];
    r
  }

  /** An edge of a trimmed string: empty, or not whitespace at either end. */
  predicate Trimmed(w: string) {
    w == [] || (!IsWhiteSpace(w[0]) && !IsWhiteSpace(w[|w| - 1]))
  }

  lemma {:induction false} TrimLeadingOf(a: string, w: string, cls: CharClass)
    requires forall i :: 0 <= i < |a| ==> InClass(a[i], cls)
    requires w == [] || !InClass(w[0], cls)
    ensures TrimLeading(a + w, cls) == w
  {
    if a != [] {
      assert (a + w)[1..] == a[1..] + w;
      TrimLeadingOf(a[1..], w, cls);
    } else {
      assert a + w == w;
    }
  }

  lemma {:induction false} TrimTrailingOf(w: string, b: string, cls: CharClass)
    requires forall i :: 0 <= i < |b| ==> InClass(b[i], cls)
    requires w == [] || !InClass(w[|w| - 1], cls)
    ensures TrimTrailing(w + b, cls) == w
  {
    if b != [] {
      assert (w + b)[..|w + b| - 1] == w + b[..|b| - 1];
      TrimTrailingOf(w, b[..|b| - 1], cls);
    } else {
      assert w + b == w;
    }
  }

  /** `Trim` removes exactly the blank margins: blank `a` and `b` around a trimmed `w` give `w`. */
  lemma TrimOf(a: string, w: string, b: string)
    requires IsBlank(a) && IsBlank(b) && Trimmed(w)
    ensures Trim(a + w + b) == w
  {
    assert a + w + b == a + (w + b);
    if w == [] {
      assert IsBlank(b);
      TrimLeadingOf(a + b, [], WhiteSpace);
      assert a + w + b == a + b + [];
    } else {
      assert !IsWhiteSpace((w + b)[0]);
      TrimLeadingOf(a, w + b, WhiteSpace);
    }
    TrimTrailingOf(w, b, WhiteSpace);
  }

  /** A trimmed text is its own trim. */
  lemma TrimTrimmed(w: string)
    requires Trimmed(w)
    ensures Trim(w) == w
  {
    TrimOf([], w, []);
    assert [] + w + [] == w;
  }

  /** `Trim` is idempotent. */
  lemma TrimTwice(s: string)
    ensures Trim(Trim(s)) == Trim(s)
  {
    TrimOf([], Trim(s), []);
    assert [] + Trim(s) + [] == Trim(s);
  }

  /** ASCII part of `ToLowerInvariant`. */
  function LowerChar(c: char): (r: char)
    ensures IsWhiteSpace(r) == IsWhiteSpace(c)
  {
    if 'A' <= c <= 'Z' then (c as int + 32) as char else c
  }

  /** `ToLowerInvariant`, on ASCII letters. */
  function ToLower(s: string): (r: string)
    ensures |r| == |s|
    ensures forall i :: 0 <= i < |s| ==> r[i] == LowerChar(s[i])
  {
    seq(|s|, i requires 0 <= i < |s| => LowerChar(s[i]))
  }

  /** `StringComparison.OrdinalIgnoreCase` equality, on ASCII letters. */
  predicate EqualsIgnoreCase(a: string, b: string) {
    ToLower(a) == ToLower(b)
  }

  /** `Join` with a one-character separator. */
  function Join(parts: seq<string>, sep: char): string {
    if |parts| == 0 then ""
    else if |parts| == 1 then parts[0]
    else parts[0] + [sep] + Join(parts[1..], sep)
  }

  /** `String.Split(char)`: every piece, empty ones included, in order. */
  function Split(s: string, sep: char): (parts: seq<string>)
    ensures |parts| >= 1
    ensures forall k :: 0 <= k < |parts| ==> sep !in parts[k]
    ensures Join(parts, sep) == s
  {
    if s == [] then [""]
    else
      var rest := Split(s[1..], sep);
      if s[0] == sep then
        assert Join([""] + rest, sep) == [sep] + Join(rest, sep) by {
          assert ([""] + rest)[1..] == rest;
        }
        [""] + rest
      else
        var parts := [[s[0]] + rest[0]] + rest[1..];
        assert Join(parts, sep) == [s[0]] + Join(rest, sep) by {
          if |rest| > 1 {
            assert parts[1..] == rest[1..];
          }
        }
        parts
  }

  /** In `x + [sep] + y` with `sep` absent from `x`, the first piece is `x`. */
  lemma {:induction false} SplitAtFirst(x: string, y: string, sep: char)
    requires sep !in x
    ensures Split(x + [sep] + y, sep) == [x] + Split(y, sep)
  {
    if x == [] {
      assert x + [sep] + y == [sep] + y;
      assert ([sep] + y)[1..] == y;
    } else {
      assert (x + [sep] + y)[1..] == x[1..] + [sep] + y;
      SplitAtFirst(x[1..], y, sep);
      assert [x[0]] + x[1..] == x;
    }
  }

  /** A piece without `sep` splits to itself. */
  lemma {:induction false} SplitSingle(x: string, sep: char)
    requires sep !in x
    ensures Split(x, sep) == [x]
  {
    if x != [] {
      SplitSingle(x[1..], sep);
      assert [x[0]] + x[1..] == x;
    }
  }

  /** `Split` undoes `Join` when no piece holds the separator. */
  lemma {:induction false} SplitJoin(parts: seq<string>, sep: char)
    requires |parts| >= 1
    requires forall k :: 0 <= k < |parts| ==> sep !in parts[k]
    ensures Split(Join(parts, sep), sep) == parts
  {
    if |parts| == 1 {
      SplitSingle(parts[0], sep);
    } else {
      SplitJoin(parts[1..], sep);
      SplitAtFirst(parts[0], Join(parts[1..], sep), sep);
      assert [parts[0]] + parts[1..] == parts;
    }
  }

  /** The leftmost position in `[from, to)` where `p` holds: how an unanchored
      regular expression picks its match. */
  function FirstWhere(lo: nat, hi: nat, p: nat -> bool): (r: Option<nat>)
    requires lo <= hi
    ensures r.Some? ==> lo <= r.value < hi && p(r.value)
    ensures r.Some? ==> (forall k: nat :: lo <= k < r.value ==> !p(k))
    ensures r.None? ==> (forall k: nat :: lo <= k < hi ==> !p(k))
    decreases hi - lo
  {
    if lo == hi then None
    else if p(lo) then Some(lo)
    else FirstWhere(lo + 1, hi, p)
  }

  /** Length of the run of characters of a class at the start of `s`
      (a greedy `\s*` or `\d+` in a regular expression). */
  function RunLength(s: string, cls: CharClass): (n: nat)
    ensures n <= |s|
    ensures forall i :: 0 <= i < n ==> InClass(s[i], cls)
    ensures n == |s| || !InClass(s[n], cls)
  {
    if s != [] && InClass(s[0], cls) then 1 + RunLength(s[1..], cls) else 0
  }

  /** A run that stops where `rest` begins. */
  lemma {:induction false} RunOf(run: string, rest: string, cls: CharClass)
    requires forall i :: 0 <= i < |run| ==> InClass(run[i], cls)
    requires rest == [] || !InClass(rest[0], cls)
    ensures RunLength(run + rest, cls) == |run|
  {
    if run != [] {
      assert (run + rest)[1..] == run[1..] + rest;
      RunOf(run[1..], rest, cls);
    } else {
      assert run + rest == rest;
    }
  }

  /** Ordinal occurrence of a non-empty `pat` in `s`. */
  predicate Occurs(pat: string, s: string) {
    exists i | 0 <= i <= |s| :: OccursAt(pat, s, i)
  }

  predicate OccursAt(pat: string, s: string, i: int) {
    0 <= i <= |s| - |pat| && s[i..i + |pat|] == pat
  }

  /** `String.Replace(pat, rep, StringComparison.Ordinal)`: every occurrence,
      scanned left to right without overlap. */
  function ReplaceAll(s: string, pat: string, rep: string): string
    requires |pat| > 0
    decreases |s|
  {
    if |s| < |pat| then s
    else if s[..|pat|] == pat then rep + ReplaceAll(s[|pat|..], pat, rep)
    else [s[0]] + ReplaceAll(s[1..], pat, rep)
  }

  /** Replacing a pattern that does not occur leaves the text as it is. */
  lemma {:induction false} ReplaceAbsent(s: string, pat: string, rep: string)
    requires |pat| > 0 && !Occurs(pat, s)
    ensures ReplaceAll(s, pat, rep) == s
  {
    if |s| >= |pat| {
      assert !OccursAt(pat, s, 0);
      assert !Occurs(pat, s[1..]) by {
        if Occurs(pat, s[1..]) {
          var i :| 0 <= i <= |s| - 1 && OccursAt(pat, s[1..], i);
          assert s[i + 1..i + 1 + |pat|] == s[1..][i..i + |pat|];
          assert OccursAt(pat, s, i + 1);
        }
      }
      ReplaceAbsent(s[1..], pat, rep);
      assert [s[0]] + s[1..] == s;
    }
  }

  /** Text free of the pattern's first character passes through unchanged. */
  lemma {:induction false} ReplaceSkips(t: string, s: string, pat: string, rep: string)
    requires |pat| > 0 && pat[0] !in t
    ensures ReplaceAll(t + s, pat, rep) == t + ReplaceAll(s, pat, rep)
  {
    if t == [] {
      assert t + s == s;
    } else {
      var u := t + s;
      assert u[0] == t[0] && u[1..] == t[1..] + s;
      if |u| >= |pat| {
        assert u[..|pat|] != pat by {
          assert u[..|pat|][0] == t[0];
        }
      }
      assert ReplaceAll(u, pat, rep) == [t[0]] + ReplaceAll(t[1..] + s, pat, rep);
      ReplaceSkips(t[1..], s, pat, rep);
      assert [t[0]] + t[1..] == t;
    }
  }

  /** A leading occurrence is replaced. */
  lemma ReplaceHead(s: string, pat: string, rep: string)
    requires |pat| > 0
    ensures ReplaceAll(pat + s, pat, rep) == rep + ReplaceAll(s, pat, rep)
  {
    assert (pat + s)[..|pat|] == pat;
    assert (pat + s)[|pat|..] == s;
  }

  function DigitChar(d: nat): char
    requires d < 10
  {
    ('0' as int + d) as char
  }

  function DigitValue(c: char): nat
    requires IsDigit(c)
  {
    c as int - '0' as int
  }

  /** Decimal rendering of a natural number, no leading zeros. */
  function NatToString(n: nat): (s: string)
    ensures |s| >= 1 && AllDigits(s)
    ensures |s| > 1 ==> s[0] != '0'
  {
    if n < 10 then [DigitChar(n)] else NatToString(n / 10) + [DigitChar(n % 10)]
  }

  /** `int.ToString(CultureInfo.InvariantCulture)`. */
  function IntToString(n: int): (s: string)
    ensures |s| >= 1 && ',' !in s
    ensures n >= 0 ==> AllDigits(s)
  {
    if n < 0 then "-" + NatToString(-n) else NatToString(n)
  }

  /** The value of a run of decimal digits. */
  function DigitsValue(s: string): nat
    requires AllDigits(s)
  {
    if s == [] then 0 else DigitsValue(s[..|s| - 1]) * 10 + DigitValue(s[|s| - 1])
  }

  lemma {:induction false} DigitsOfNat(n: nat)
    ensures DigitsValue(NatToString(n)) == n
  {
    if n >= 10 {
      var s := NatToString(n);
      assert s[..|s| - 1] == NatToString(n / 10);
      DigitsOfNat(n / 10);
    }
  }

  /** The white space `NumberStyles.Integer` lets `int.TryParse` skip. */
  predicate IsNumberWhite(c: char) {
    c == ' ' || ('\t' <= c <= '\r')
  }

  predicate IsInt32(n: int) {
    -0x8000_0000 <= n < 0x8000_0000
  }

  /** The index of the first character at or after `i` that is not number white space. */
  function SkipNumberWhite(s: string, i: nat): (j: nat)
    requires i <= |s|
    ensures i <= j <= |s|
    decreases |s| - i
  {
    if i < |s| && IsNumberWhite(s[i]) then SkipNumberWhite(s, i + 1) else i
  }

  /** The end of `s[..j]` once trailing number white space is dropped. */
  function NumberEnd(s: string, j: nat): (k: nat)
    requires j <= |s|
    ensures k <= j
  {
    if j > 0 && IsNumberWhite(s[j - 1]) then NumberEnd(s, j - 1) else j
  }

  /** An optional sign followed by decimal digits, within the 32-bit range. */
  function ParseSigned(t: string): (r: Option<int>)
    ensures r.Some? ==> IsInt32(r.value)
  {
    if t == [] then None
    else
      var body := if t[0] == '-' || t[0] == '+' then t[1..] else t;
      if body == [] || !AllDigits(body) then None
      else
        var v: int := if t[0] == '-' then 0 - DigitsValue(body) as int else DigitsValue(body);
        if IsInt32(v) then Some(v) else None
  }

  /** `int.TryParse(s, out v)`: optional surrounding white space, an optional sign,
      decimal digits, and a value in the 32-bit range; `None` for null. */
  function TryParseInt32(s: Option<string>): (r: Option<int>)
    ensures r.Some? ==> IsInt32(r.value)
  {
    if s.None? then None
    else
      var lo := SkipNumberWhite(s.value, 0);
      var hi := NumberEnd(s.value, |s.value|);
      if hi <= lo then None else ParseSigned(s.value[lo..hi])
  }

  /** `int.TryParse` reads back what `int.ToString` writes. */
  lemma ParseIntToString(n: int)
    requires IsInt32(n)
    ensures TryParseInt32(Some(IntToString(n))) == Some(n)
  {
    var s := IntToString(n);
    assert s != [] && IsDigit(s[|s| - 1]) && !IsNumberWhite(s[0]) by {
      if n < 0 {
        assert s == "-" + NatToString(-n);
      }
    }
    NumberWhiteUntouched(s);
    assert s[0..|s|] == s;
    if n < 0 {
      var body := NatToString(-n);
      assert s == "-" + body && s[1..] == body;
      DigitsOfNat(-n);
    } else {
      DigitsOfNat(n);
    }
  }

  /** Text that starts and ends with a digit or sign has no number white space to skip. */
  lemma NumberWhiteUntouched(s: string)
    requires s != [] && !IsNumberWhite(s[0]) && !IsNumberWhite(s[|s| - 1])
    ensures SkipNumberWhite(s, 0) == 0 && NumberEnd(s, |s|) == |s|
  {
  }
}
