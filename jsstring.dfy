/**
 * The JavaScript string primitives the decoders rely on, over `string` (one `char` per
 * byte-decoded code unit): trim, includes, startsWith, endsWith, indexOf, split with a
 * one-character separator, replace with a string pattern, parseInt without radix and parseFloat; and
 * Array.prototype.indexOf on a list of strings.
 */
module JsString {
  import opened Options

  /** WhiteSpace and LineTerminator code points, the set `trim` and `parseInt` skip. */
  predicate IsSpace(c: char) {
    var n := c as int;
    n == 0x09 || n == 0x0A || n == 0x0B || n == 0x0C || n == 0x0D || n == 0x20 ||
    n == 0xA0 || n == 0x1680 || (0x2000 <= n <= 0x200A) || n == 0x2028 || n == 0x2029 ||
    n == 0x202F || n == 0x205F || n == 0x3000 || n == 0xFEFF
  }

  /** Number of white-space characters at the start of `s`. */
  function LeadingSpaces(s: string): (n: nat)
    ensures n <= |s|
    ensures forall i :: 0 <= i < n ==> IsSpace(s[i])
    ensures n < |s| ==> !IsSpace(s[n])
  {
    if s == [] || !IsSpace(s[0]) then 0 else 1 + LeadingSpaces(s[1..])
  }

  /** Number of white-space characters at the end of `s`. */
  function TrailingSpaces(s: string): (n: nat)
    ensures n <= |s|
    ensures forall i :: |s| - n <= i < |s| ==> IsSpace(s[i])
    ensures n < |s| ==> !IsSpace(s[|s| - 1 - n])
  {
    if s == [] || !IsSpace(s[|s| - 1]) then 0 else 1 + TrailingSpaces(s[..|s| - 1])
  }

  /** String.prototype.trimStart */
  function TrimStart(s: string): string {
    s[LeadingSpaces(s)..]
  }

  /** String.prototype.trimEnd */
  function TrimEnd(s: string): string {
    s[..|s| - TrailingSpaces(s)]
  }

  /** String.prototype.trim: the infix left once the white space at both ends is removed. */
  function Trim(s: string): (r: string)
    ensures |r| <= |s|
    ensures r != [] ==> !IsSpace(r[0]) && !IsSpace(r[|r| - 1])
    ensures exists i, j :: 0 <= i <= j <= |s| && r == s[i..j] && (forall k :: 0 <= k < i || j <= k < |s| ==> IsSpace(s[k]))
  {
    var t := TrimStart(s);
    var i := LeadingSpaces(s);
    var j := i + |t| - TrailingSpaces(t);
    assert TrimEnd(t) == s[i..j];
    assert forall k :: j <= k < |s| ==> s[k] == t[k - i];
    TrimEnd(t)
  }

  predicate NoSpaceAtEnds(s: string) {
    s == [] || (!IsSpace(s[0]) && !IsSpace(s[|s| - 1]))
  }

  /** Trimming a string that has no white space at either end gives it back. */
  lemma TrimOfTrimmed(s: string)
    requires NoSpaceAtEnds(s)
    ensures Trim(s) == s
  {
    assert LeadingSpaces(s) == 0;
    assert TrimStart(s) == s;
    assert TrailingSpaces(s) == 0;
  }

  /** String.prototype.startsWith */
  predicate StartsWith(s: string, p: string) {
    |p| <= |s| && s[..|p|] == p
  }

  /** String.prototype.endsWith */
  predicate EndsWith(s: string, p: string) {
    |p| <= |s| && s[|s| - |p|..] == p
  }

  predicate OccursAt(s: string, p: string, i: nat) {
    i + |p| <= |s| && s[i..i + |p|] == p
  }

  /** String.prototype.indexOf: the first position where `p` occurs, or None for -1. */
  function IndexOf(s: string, p: string): (r: Option<nat>)
    ensures r.Some? ==> OccursAt(s, p, r.value)
    ensures r.Some? ==> forall i :: 0 <= i < r.value ==> !OccursAt(s, p, i)
    ensures r.None? ==> forall i :: 0 <= i <= |s| ==> !OccursAt(s, p, i)
    decreases |s|
  {
    if StartsWith(s, p) then Some(0)
    else if s == [] then None
    else
      var r := IndexOf(s[1..], p);
      OccursShift(s, p);
      if r.None? then None else Some(r.value + 1)
  }

  /** An occurrence past the first character is an occurrence in the rest of the string. */
  lemma OccursShift(s: string, p: string)
    requires s != []
    ensures !StartsWith(s, p) ==> !OccursAt(s, p, 0)
    ensures forall i :: 1 <= i <= |s| ==> (OccursAt(s, p, i) <==> OccursAt(s[1..], p, i - 1))
  {
    if |p| <= |s| {
      assert s[0..|p|] == s[..|p|];
    }
    forall i | 1 <= i <= |s| ensures OccursAt(s, p, i) <==> OccursAt(s[1..], p, i - 1) {
      if i + |p| <= |s| {
        assert s[i..i + |p|] == s[1..][i - 1..i - 1 + |p|];
      }
    }
  }

  /** String.prototype.includes */
  predicate Contains(s: string, p: string) {
    IndexOf(s, p).Some?
  }

  /** Position of the first `c` in `s`, or None. */
  function IndexOfChar(s: string, c: char): (r: Option<nat>)
    ensures r.Some? ==> r.value < |s| && s[r.value] == c && c !in s[..r.value]
    ensures r.None? <==> c !in s
  {
    if s == [] then None
    else if s[0] == c then Some(0)
    else
      var r := IndexOfChar(s[1..], c);
      if r.None? then None else Some(r.value + 1)
  }

  /** Number of occurrences of `c` in `s`. */
  function Count(s: string, c: char): nat {
    if s == [] then 0 else (if s[0] == c then 1 else 0) + Count(s[1..], c)
  }

  /** String.prototype.split with a one-character separator. */
  function Split(s: string, sep: char): (r: seq<string>)
    ensures |r| >= 1
    ensures forall k :: 0 <= k < |r| ==> sep !in r[k]
    decreases |s|
  {
    match IndexOfChar(s, sep)
    case None => [s]
    case Some(i) => [s[..i]] + Split(s[i + 1..], sep)
  }

  /** Array.prototype.join with a one-character separator. */
  function Join(parts: seq<string>, sep: char): string
    requires |parts| >= 1
  {
    if |parts| == 1 then parts[0] else parts[0] + [sep] + Join(parts[1..], sep)
  }

  lemma CountSplit(s: string, c: char, i: nat)
    requires i < |s| && s[i] == c && c !in s[..i]
    ensures Count(s, c) == 1 + Count(s[i + 1..], c)
  {
    if i > 0 {
      assert s[..i] == [s[0]] + s[1..][..i - 1];
      CountSplit(s[1..], c, i - 1);
      assert s[1..][i..] == s[i + 1..];
    }
  }

  lemma CountAbsent(s: string, c: char)
    requires c !in s
    ensures Count(s, c) == 0
  {
    if s != [] { assert c !in s[1..] by { assert forall k :: 0 <= k < |s| - 1 ==> s[1..][k] == s[k + 1]; } CountAbsent(s[1..], c); }
  }

  /** Splitting on `sep` yields one more piece than there are separators, and joining the pieces back restores the input. */
  lemma {:induction false} SplitJoin(s: string, sep: char)
    ensures |Split(s, sep)| == Count(s, sep) + 1
    ensures Join(Split(s, sep), sep) == s
    decreases |s|
  {
    match IndexOfChar(s, sep)
    case None =>
      CountAbsent(s, sep);
    case Some(i) =>
      var rest := Split(s[i + 1..], sep);
      assert Split(s, sep) == [s[..i]] + rest;
      SplitJoin(s[i + 1..], sep);
      CountSplit(s, sep, i);
      assert ([s[..i]] + rest)[1..] == rest;
      assert Join(Split(s, sep), sep) == s[..i] + [sep] + Join(rest, sep);
      assert s == s[..i] + [sep] + s[i + 1..];
  }

  /** A string without the separator splits into itself alone. */
  lemma SplitAbsent(s: string, sep: char)
    requires sep !in s
    ensures Split(s, sep) == [s]
  {
  }

  /** Digits, for parseInt and parseFloat. */
  predicate IsDigit(c: char) { '0' <= c <= '9' }

  predicate IsHexDigit(c: char) { IsDigit(c) || 'a' <= c <= 'f' || 'A' <= c <= 'F' }

  function DigitValue(c: char): (d: nat)
    requires IsHexDigit(c)
    ensures d < 16
    ensures IsDigit(c) ==> d < 10
  {
    if IsDigit(c) then c as int - '0' as int
    else if 'a' <= c <= 'f' then c as int - 'a' as int + 10
    else c as int - 'A' as int + 10
  }

  /** Length of the run of digits (hexadecimal when `hex`) at the start of `s`. */
  function DigitRun(s: string, hex: bool): (n: nat)
    ensures n <= |s|
    ensures forall i :: 0 <= i < n ==> IsHexDigit(s[i]) && (!hex ==> IsDigit(s[i]))
  {
    if s == [] || !(if hex then IsHexDigit(s[0]) else IsDigit(s[0])) then 0
    else 1 + DigitRun(s[1..], hex)
  }

  /** Value of a digit string in the given base. */
  function DigitsValue(s: string, base: nat): nat
    requires forall i :: 0 <= i < |s| ==> IsHexDigit(s[i])
  {
    if s == [] then 0 else DigitsValue(s[..|s| - 1], base) * base + DigitValue(s[|s| - 1])
  }

  /**
   * parseInt(s) with no radix: white space skipped, an optional sign, a `0x`/`0X` prefix switches
   * to base 16, and the longest run of digits is read; None is NaN (no digit at all).
   */
  function ParseInt(s: string): (r: Option<int>)
    ensures r.Some? ==> exists k :: 0 <= k < |s| && IsHexDigit(s[k])
  {
    var t := TrimStart(s);
    var neg := |t| > 0 && t[0] == '-';
    var u := if |t| > 0 && (t[0] == '-' || t[0] == '+') then t[1..] else t;
    var hex := |u| >= 2 && u[0] == '0' && (u[1] == 'x' || u[1] == 'X');
    var digits := if hex then u[2..] else u;
    var n := DigitRun(digits, hex);
    if n == 0 then None
    else
      assert IsHexDigit(digits[0]);
      assert digits[0] == s[|s| - |digits|];
      var v: int := DigitsValue(digits[..n], if hex then 16 else 10);
      Some(if neg then -v else v)
  }

  /** `parseInt(s) || 0`: NaN and zero both read as 0. */
  function ParseIntOrZero(s: string): int {
    ParseInt(s).GetOr(0)
  }

  function Pow10(n: nat): (r: real)
    ensures r >= 1.0
  {
    if n == 0 then 1.0 else 10.0 * Pow10(n - 1)
  }

  /** Value of `d1.d2` for digit strings `d1` and `d2`. */
  function DecimalValue(intPart: string, fracPart: string): real
    requires forall i :: 0 <= i < |intPart| ==> IsHexDigit(intPart[i])
    requires forall i :: 0 <= i < |fracPart| ==> IsHexDigit(fracPart[i])
  {
    DigitsValue(intPart, 10) as real + DigitsValue(fracPart, 10) as real / Pow10(|fracPart|)
  }

  /** Exponent of an `e`/`E` suffix: Some(signed value) when it is well formed. */
  function ExponentPart(s: string): Option<int> {
    if |s| >= 2 && (s[0] == 'e' || s[0] == 'E') then
      var signed := s[1] == '-' || s[1] == '+';
      var body := if signed then s[2..] else s[1..];
      var n := DigitRun(body, false);
      if n == 0 then None
      else
        var v: int := DigitsValue(body[..n], 10);
        Some(if s[1] == '-' then -v else v)
    else None
  }

  function Scale(x: real, e: int): real {
    if e >= 0 then x * Pow10(e) else x / Pow10(-e)
  }

  /**
   * parseFloat(s): white space skipped, an optional sign, then the longest decimal literal
   * `digits [. digits] [e[+-]digits]` with at least one digit; None is NaN.
   */
  function ParseFloat(s: string): Option<real> {
    var t := TrimStart(s);
    var neg := |t| > 0 && t[0] == '-';
    var u := if |t| > 0 && (t[0] == '-' || t[0] == '+') then t[1..] else t;
    var n := DigitRun(u, false);
    var afterInt := u[n..];
    var hasPoint := |afterInt| > 0 && afterInt[0] == '.';
    var m := if hasPoint then DigitRun(afterInt[1..], false) else 0;
    if n + m == 0 then None
    else
      var mantissa := DecimalValue(u[..n], if hasPoint then afterInt[1..][..m] else []);
      var rest := if hasPoint then afterInt[1..][m..] else afterInt;
      var value := match ExponentPart(rest) case Some(e) => Scale(mantissa, e) case None => mantissa;
      Some(if neg then -value else value)
  }

  /** `parseFloat(s) || 0.0` */
  function ParseFloatOrZero(s: string): real {
    ParseFloat(s).GetOr(0.0)
  }

  /**
   * The replacement-pattern expansion of String.prototype.replace for a string pattern:
   * `$$`, `$&`, `` $` `` and `$'` are expanded, every other character is copied.
   */
  function ExpandReplacement(rep: string, matched: string, before: string, after: string): string
    decreases |rep|
  {
    if rep == [] then []
    else if |rep| >= 2 && rep[0] == '$' && rep[1] in "$&`'" then
      (match rep[1]
       case '$' => "$"
       case '&' => matched
       case '`' => before
       case _ => after) + ExpandReplacement(rep[2..], matched, before, after)
    else [rep[0]] + ExpandReplacement(rep[1..], matched, before, after)
  }

  /** A replacement text without `$` is inserted literally. */
  lemma {:induction false} ExpandLiteral(rep: string, matched: string, before: string, after: string)
    requires '$' !in rep
    ensures ExpandReplacement(rep, matched, before, after) == rep
    decreases |rep|
  {
    if rep != [] {
      assert '$' !in rep[1..] by { assert forall k :: 0 <= k < |rep| - 1 ==> rep[1..][k] == rep[k + 1]; }
      ExpandLiteral(rep[1..], matched, before, after);
    }
  }

  /** String.prototype.replace(pattern, replacement) with a string pattern: only the first occurrence is replaced. */
  function ReplaceFirst(s: string, pattern: string, rep: string): string {
    match IndexOf(s, pattern)
    case None => s
    case Some(i) =>
      var after := s[i + |pattern|..];
      s[..i] + ExpandReplacement(rep, pattern, s[..i], after) + after
  }

  /**
   * With a `$`-free replacement, the first occurrence of the pattern is replaced by it, the text
   * before is unchanged and contains no earlier occurrence; a string without the pattern is unchanged.
   */
  lemma ReplaceFirstSpec(s: string, pattern: string, rep: string)
    requires '$' !in rep
    ensures IndexOf(s, pattern).None? ==> ReplaceFirst(s, pattern, rep) == s
    ensures IndexOf(s, pattern).Some? ==>
      var i := IndexOf(s, pattern).value;
      && ReplaceFirst(s, pattern, rep) == s[..i] + rep + s[i + |pattern|..]
      && s == s[..i] + pattern + s[i + |pattern|..]
      && forall j :: 0 <= j < i ==> !OccursAt(s, pattern, j)
  {
    if IndexOf(s, pattern).Some? {
      var i := IndexOf(s, pattern).value;
      ExpandLiteral(rep, pattern, s[..i], s[i + |pattern|..]);
      assert s == s[..i] + s[i..i + |pattern|] + s[i + |pattern|..];
    }
  }

  /** Array.prototype.indexOf: the first position of `x` in `s`, or None for -1. */
  function FindIndex(s: seq<string>, x: string): (r: Option<nat>)
    ensures r.Some? ==> r.value < |s| && s[r.value] == x && forall j :: 0 <= j < r.value ==> s[j] != x
    ensures r.None? <==> x !in s
  {
    if s == [] then None
    else if s[0] == x then Some(0)
    else match FindIndex(s[1..], x)
      case None => None
      case Some(i) => Some(i + 1)
  }

  predicate Distinct(s: seq<string>) {
    forall i, j :: 0 <= i < j < |s| ==> s[i] != s[j]
  }

  /** A position holding `x` with no `x` before it is the one found. */
  lemma FindIndexFirst(s: seq<string>, x: string, i: nat)
    requires i < |s| && s[i] == x && forall j :: 0 <= j < i ==> s[j] != x
    ensures FindIndex(s, x) == Some(i)
  {
  }

  /** In a sequence without repeats, each element is found at its own position. */
  lemma FindIndexDistinct(s: seq<string>, i: nat)
    requires Distinct(s) && i < |s|
    ensures FindIndex(s, s[i]) == Some(i)
  {
  }
}
