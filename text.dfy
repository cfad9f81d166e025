/**
 * String helpers with the semantics of the two runtimes the system runs on:
 * Python's whitespace (used by `\s` in a `str` pattern and by `str.strip()`),
 * JavaScript's whitespace (used by `String.prototype.trim`), trimming,
 * `str.join` and decimal rendering of integers.
 */
module Text {

  /** Python's `str.isspace()`; `re`'s `\s` and `str.strip()` use the same set. */
  predicate IsSpace(c: char) {
    || c == ' '
    || '\t' <= c <= '\r'               // \t \n \v \f \r
    || '\U{1c}' <= c <= '\U{1f}'       // file, group, record and unit separators
    || c == '\U{85}' || c == '\U{a0}' || c == '\U{1680}'
    || '\U{2000}' <= c <= '\U{200a}'
    || c == '\U{2028}' || c == '\U{2029}' || c == '\U{202f}' || c == '\U{205f}' || c == '\U{3000}'
  }

  /** What JavaScript's `trim` removes: WhiteSpace and LineTerminator code points. */
  predicate IsJsSpace(c: char) {
    || c == ' '
    || '\t' <= c <= '\r'
    || c == '\U{a0}' || c == '\U{1680}'
    || '\U{2000}' <= c <= '\U{200a}'
    || c == '\U{2028}' || c == '\U{2029}' || c == '\U{202f}' || c == '\U{205f}' || c == '\U{3000}'
    || c == '\U{feff}'
  }

  predicate AllBy(s: string, ws: char -> bool) {
    forall k :: 0 <= k < |s| ==> ws(s[k])
  }

  /** The first index at or after `i` whose character is not whitespace (or `|t|`): a greedy `\s*`. */
  function SkipWs(t: string, i: nat): (j: nat)
    requires i <= |t|
    ensures i <= j <= |t|
    ensures forall k :: i <= k < j ==> IsSpace(t[k])
    ensures j < |t| ==> !IsSpace(t[j])
    decreases |t| - i
  {
    if i < |t| && IsSpace(t[i]) then SkipWs(t, i + 1) else i
  }

  /** The first index at or after `i` whose character does not satisfy `ws` (or `|s|`). */
  function CutStart(s: string, ws: char -> bool, i: nat): (j: nat)
    requires i <= |s|
    ensures i <= j <= |s|
    ensures forall k :: i <= k < j ==> ws(s[k])
    ensures j < |s| ==> !ws(s[j])
    decreases |s| - i
  {
    if i < |s| && ws(s[i]) then CutStart(s, ws, i + 1) else i
  }

  /** The smallest index `i <= j` such that every character from `i` up to `j` satisfies `ws`. */
  function CutEnd(s: string, ws: char -> bool, j: nat): (i: nat)
    requires j <= |s|
    ensures i <= j
    ensures forall k :: i <= k < j ==> ws(s[k])
    ensures 0 < i ==> !ws(s[i - 1])
  {
    if 0 < j && ws(s[j - 1]) then CutEnd(s, ws, j - 1) else j
  }

  /** Removes leading characters satisfying `ws` (Python `lstrip`, JavaScript `trimStart`). */
  function TrimStart(s: string, ws: char -> bool): (r: string)
    ensures |r| <= |s| && r == s[|s| - |r|..]
    ensures forall k :: 0 <= k < |s| - |r| ==> ws(s[k])
    ensures r == [] || !ws(r[0])
  {
    s[CutStart(s, ws, 0)..]
  }

  /** Removes trailing characters satisfying `ws` (Python `rstrip`, JavaScript `trimEnd`). */
  function TrimEnd(s: string, ws: char -> bool): (r: string)
    ensures |r| <= |s| && r == s[..|r|]
    ensures forall k :: |r| <= k < |s| ==> ws(s[k])
    ensures r == [] || !ws(r[|r| - 1])
  {
    s[..CutEnd(s, ws, |s|)]
  }

  /** Removes whitespace at both ends: `str.strip()` with `IsSpace`, `trim()` with `IsJsSpace`. */
  function Trim(s: string, ws: char -> bool): string {
    TrimEnd(TrimStart(s, ws), ws)
  }

  /** `Trim` leaves no whitespace at either end. */
  lemma TrimEnds(s: string, ws: char -> bool)
    ensures var r := Trim(s, ws); r == [] || (!ws(r[0]) && !ws(r[|r| - 1]))
  {
    var a := TrimStart(s, ws);
    assert Trim(s, ws) == [] || Trim(s, ws)[0] == a[0];
  }

  /** Trimming whitespace padding off a string whose ends are not whitespace gives that string back. */
  lemma TrimPadded(left: string, core: string, right: string, ws: char -> bool)
    requires AllBy(left, ws) && AllBy(right, ws)
    requires core == [] || (!ws(core[0]) && !ws(core[|core| - 1]))
    requires core == [] ==> right == []
    ensures Trim(left + core + right, ws) == core
  {
    assert left + core + right == left + (core + right);
    TrimStartPadded(left, core + right, ws);
    TrimEndPadded(core, right, ws);
  }

  lemma TrimStartPadded(left: string, rest: string, ws: char -> bool)
    requires AllBy(left, ws)
    requires rest == [] || !ws(rest[0])
    ensures TrimStart(left + rest, ws) == rest
  {
    var s := left + rest;
    assert forall k :: 0 <= k < |left| ==> s[k] == left[k];
    assert |left| < |s| ==> s[|left|] == rest[0];
    assert CutStart(s, ws, 0) == |left|;
    assert s[|left|..] == rest;
  }

  lemma TrimEndPadded(rest: string, right: string, ws: char -> bool)
    requires AllBy(right, ws)
    requires rest == [] || !ws(rest[|rest| - 1])
    ensures TrimEnd(rest + right, ws) == rest
  {
    var s := rest + right;
    assert forall k :: |rest| <= k < |s| ==> s[k] == right[k - |rest|];
    assert 0 < |rest| ==> s[|rest| - 1] == rest[|rest| - 1];
    assert CutEnd(s, ws, |s|) == |rest|;
    assert s[..|rest|] == rest;
  }

  /** A string trims to the empty string exactly when all of it is whitespace. */
  lemma TrimEmptyIffBlank(s: string, ws: char -> bool)
    ensures Trim(s, ws) == [] <==> AllBy(s, ws)
  {
    var a := TrimStart(s, ws);
    var i := |s| - |a|;
    assert forall k :: i <= k < |s| ==> a[k - i] == s[k];
  }

  /** Python's `sep.join(parts)`. */
  function Join(sep: string, parts: seq<string>): string
    decreases |parts|
  {
    if |parts| == 0 then ""
    else if |parts| == 1 then parts[0]
    else parts[0] + sep + Join(sep, parts[1..])
  }

  /** Joining two non-empty runs of parts is joining each and putting one separator between them. */
  lemma {:induction false} JoinAppend(sep: string, a: seq<string>, b: seq<string>)
    requires |a| > 0 && |b| > 0
    ensures Join(sep, a + b) == Join(sep, a) + sep + Join(sep, b)
    decreases |a|
  {
    if |a| == 1 {
      assert (a + b)[1..] == b;
    } else {
      assert (a + b)[1..] == a[1..] + b;
      JoinAppend(sep, a[1..], b);
    }
  }

  function DigitChar(d: nat): (c: char)
    requires d < 10
    ensures '0' <= c <= '9'
  {
    ['0', '1', '2', '3', '4', '5', '6', '7', '8', '9'][d]
  }

  function DigitValue(c: char): nat {
    if '0' <= c <= '9' then (c as int - '0' as int) else 0
  }

  predicate IsDigits(s: string) {
    forall k :: 0 <= k < |s| ==> '0' <= s[k] <= '9'
  }

  /** The decimal rendering of a natural number (Python `str(n)`, JavaScript template interpolation). */
  function NatToString(n: nat): (s: string)
    ensures |s| >= 1 && IsDigits(s)
    ensures n >= 10 ==> |s| >= 2
  {
    if n < 10 then [DigitChar(n)] else NatToString(n / 10) + [DigitChar(n % 10)]
  }

  /** Reads a string of decimal digits back as a number. */
  function DecimalValue(s: string): nat {
    if |s| == 0 then 0 else 10 * DecimalValue(s[..|s| - 1]) + DigitValue(s[|s| - 1])
  }

  /** Reading back a rendered number gives the number. */
  lemma {:induction false} DecimalRoundTrip(n: nat)
    ensures DecimalValue(NatToString(n)) == n
  {
    var s := NatToString(n);
    if n >= 10 {
      assert s[..|s| - 1] == NatToString(n / 10);
      DecimalRoundTrip(n / 10);
    }
  }

  /** Distinct numbers render to distinct strings. */
  lemma NatToStringInjective(a: nat, b: nat)
    requires NatToString(a) == NatToString(b)
    ensures a == b
  {
    DecimalRoundTrip(a);
    DecimalRoundTrip(b);
  }

  /** Python's `str(i)` for an int: reads back, after an optional minus sign, as the magnitude. */
  function IntToString(i: int): (s: string)
    ensures |s| >= 1 && (s[0] == '-' <==> i < 0)
    ensures var digits := if i < 0 then s[1..] else s;
            IsDigits(digits) && |digits| >= 1 && DecimalValue(digits) == (if i < 0 then -i else i)
  {
    if i < 0 then
      DecimalRoundTrip(-i);
      assert ("-" + NatToString(-i))[1..] == NatToString(-i);
      "-" + NatToString(-i)
    else
      DecimalRoundTrip(i);
      NatToString(i)
  }
}
