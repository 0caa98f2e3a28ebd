/**
 * The parts of Python's `str` that the processor relies on, restricted to
 * ASCII: digit and whitespace classes, `lower`, `endswith`, `strip`,
 * `replace` and `str(int)`.
 */
module Strings {

  /** `\d` and `str.isdigit`, restricted to ASCII. */
  predicate IsDigit(c: char) {
    '0' <= c <= '9'
  }

  /** `str.isspace` on ASCII: tab, newline, vertical tab, form feed,
      carriage return, the four separators 0x1C..0x1F and space. */
  predicate IsSpace(c: char) {
    9 <= c as int <= 13 || 28 <= c as int <= 32
  }

  predicate IsBlank(s: string) {
    forall k :: 0 <= k < |s| ==> IsSpace(s[k])
  }

  function LowerChar(c: char): char {
    if 'A' <= c <= 'Z' then (c as int + 32) as char else c
  }

  /** `str.lower` on ASCII letters. */
  function Lower(s: string): (r: string)
    ensures |r| == |s|
    ensures forall k :: 0 <= k < |s| ==> r[k] == LowerChar(s[k])
  {
    if s == [] then [] else [LowerChar(s[0])] + Lower(s[1..])
  }

  /** `str.endswith` */
  predicate EndsWith(s: string, suffix: string) {
    |suffix| <= |s| && s[|s| - |suffix|..] == suffix
  }

  /** `t` occurs in `s` starting at index `i`. */
  predicate OccursAt(s: string, i: int, t: string) {
    0 <= i && i + |t| <= |s| && s[i..i + |t|] == t
  }

  /** The index of the first character at or after `i` that is not
      whitespace, or `|s|` when there is none. */
  function SkipSpaces(s: string, i: nat): (n: nat)
    requires i <= |s|
    decreases |s| - i
    ensures i <= n <= |s|
    ensures forall k :: i <= k < n ==> IsSpace(s[k])
    ensures n < |s| ==> !IsSpace(s[n])
  {
    if i < |s| && IsSpace(s[i]) then SkipSpaces(s, i + 1) else i
  }

  /** The end of `s[a..j]` once its trailing whitespace is dropped. */
  function TrimSpaces(s: string, a: nat, j: nat): (e: nat)
    requires a <= j <= |s|
    decreases j - a
    ensures a <= e <= j
    ensures forall k :: e <= k < j ==> IsSpace(s[k])
    ensures e > a ==> !IsSpace(s[e - 1])
  {
    if j > a && IsSpace(s[j - 1]) then TrimSpaces(s, a, j - 1) else j
  }

  /** `s.strip()`: leading and then trailing whitespace dropped. */
  function Strip(s: string): (r: string)
    ensures |r| <= |s|
    ensures r != [] ==> !IsSpace(r[0]) && !IsSpace(r[|r| - 1])
    ensures r == [] <==> IsBlank(s)
  {
    var a := SkipSpaces(s, 0);
    var e := TrimSpaces(s, a, |s|);
    assert e == a ==> forall k :: 0 <= k < |s| ==> IsSpace(s[k]);
    s[a..e]
  }

  /** `strip` keeps the part of `s` that starts at the first and ends at
      the last non-whitespace character (see the contract of `Strip`), and
      all of `s` around it is whitespace. */
  lemma {:induction false} StripSpec(s: string)
    ensures SkipSpaces(s, 0) + |Strip(s)| <= |s|
    ensures Strip(s) == s[SkipSpaces(s, 0)..SkipSpaces(s, 0) + |Strip(s)|]
    ensures forall k :: 0 <= k < SkipSpaces(s, 0) ==> IsSpace(s[k])
    ensures forall k :: SkipSpaces(s, 0) + |Strip(s)| <= k < |s| ==> IsSpace(s[k])
  {
    var a := SkipSpaces(s, 0);
    var e := TrimSpaces(s, a, |s|);
    assert Strip(s) == s[a..e];
  }

  /** `s.replace(target, replacement)` for a non-empty target: every
      occurrence, found left to right without overlap, is replaced. */
  function ReplaceAll(s: string, target: string, replacement: string): (r: string)
    requires |target| > 0
    decreases |s|
    ensures |replacement| <= |target| ==> |r| <= |s|
  {
    if |s| < |target| then s
    else if s[..|target|] == target then replacement + ReplaceAll(s[|target|..], target, replacement)
    else [s[0]] + ReplaceAll(s[1..], target, replacement)
  }

  /** Without an occurrence of the target, `replace` returns its input. */
  lemma {:induction false} ReplaceAllAbsent(s: string, target: string, replacement: string)
    requires |target| > 0
    requires forall i :: !OccursAt(s, i, target)
    ensures ReplaceAll(s, target, replacement) == s
    decreases |s|
  {
    if |s| >= |target| {
      assert !OccursAt(s, 0, target);
      forall i ensures !OccursAt(s[1..], i, target) {
        if OccursAt(s[1..], i, target) {
          assert s[1..][i..i + |target|] == s[i + 1..i + 1 + |target|];
          assert OccursAt(s, i + 1, target);
        }
      }
      ReplaceAllAbsent(s[1..], target, replacement);
    }
  }

  /** When the target occurs only as the suffix of `b + target`, removing
      every occurrence leaves exactly `b`. */
  lemma {:induction false} RemoveOnlySuffix(b: string, target: string)
    requires |target| > 0
    requires forall i :: 0 <= i < |b| ==> !OccursAt(b + target, i, target)
    ensures ReplaceAll(b + target, target, "") == b
    decreases |b|
  {
    var s := b + target;
    if b == [] {
      assert s[..|target|] == target;
      assert s[|target|..] == [];
    } else {
      assert !OccursAt(s, 0, target);
      assert s[1..] == b[1..] + target;
      forall i | 0 <= i < |b[1..]| ensures !OccursAt(b[1..] + target, i, target) {
        if OccursAt(b[1..] + target, i, target) {
          assert s[1..][i..i + |target|] == s[i + 1..i + 1 + |target|];
          assert OccursAt(s, i + 1, target);
        }
      }
      RemoveOnlySuffix(b[1..], target);
      assert [s[0]] + b[1..] == b;
    }
  }

  function DigitChar(d: nat): (c: char)
    requires d < 10
    ensures IsDigit(c)
  {
    ('0' as int + d) as char
  }

  function DigitValue(c: char): nat
    requires IsDigit(c)
  {
    c as int - '0' as int
  }

  /** The number a string of decimal digits denotes. */
  function DecimalValue(s: string): nat
    requires forall k :: 0 <= k < |s| ==> IsDigit(s[k])
  {
    if s == [] then 0
    else DecimalValue(s[..|s| - 1]) * 10 + DigitValue(s[|s| - 1])
  }

  /** `str(n)`: non-empty, all digits, no leading zero, and it denotes `n`. */
  function NatToString(n: nat): (s: string)
    ensures |s| > 0 && forall k :: 0 <= k < |s| ==> IsDigit(s[k])
    ensures |s| > 1 ==> s[0] != '0'
    ensures DecimalValue(s) == n
    decreases n
  {
    if n < 10 then [DigitChar(n)]
    else
      var prefix := NatToString(n / 10);
      var s := prefix + [DigitChar(n % 10)];
      assert s[..|s| - 1] == prefix;
      s
  }
}
