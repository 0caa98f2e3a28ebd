/**
 * The part of a regular-expression engine that the timecode rewrites need:
 * patterns of fixed width made of `\d` slots and literal characters,
 * `search` (the leftmost match at or after a position) and `sub` (every
 * match, found left to right without overlap, replaced).
 */
module Scanner {
  import opened Wrappers
  import opened Strings

  /** One position of a pattern: `\d` or a literal character. */
  datatype Slot = Digit | Lit(c: char)

  type Pattern = seq<Slot>

  predicate Fits(c: char, slot: Slot) {
    match slot
    case Digit => IsDigit(c)
    case Lit(l) => c == l
  }

  /** A usable pattern is non-empty and none of its literals is a digit. */
  predicate WellFormed(p: Pattern) {
    |p| > 0 && forall k :: 0 <= k < |p| && p[k].Lit? ==> !IsDigit(p[k].c)
  }

  /** The pattern matches `s` at index `i`: its slots fit the characters
      from `i` on, one by one. */
  predicate MatchesAt(s: string, i: int, p: Pattern)
    decreases |p|
  {
    0 <= i && i + |p| <= |s| && (p == [] || (Fits(s[i], p[0]) && MatchesAt(s, i + 1, p[1..])))
  }

  /** `pattern.search(s, i)`: the leftmost index at or after `i` where the
      pattern matches, or None when there is none. */
  function Search(s: string, i: nat, p: Pattern): (r: Option<nat>)
    decreases |s| - i
    ensures r.Some? ==> i <= r.value && MatchesAt(s, r.value, p)
  {
    if |s| < i + |p| then None
    else if MatchesAt(s, i, p) then Some(i)
    else Search(s, i + 1, p)
  }

  /** `hs` lists windows of width `w` inside a text of length `n`, from `i`
      on, left to right and without overlap. */
  predicate Ordered(hs: seq<nat>, i: int, w: nat, n: int) {
    hs == [] || (i <= hs[0] && hs[0] + w <= n && Ordered(hs[1..], hs[0] + w, w, n))
  }

  /** The indices `re.sub` rewrites when it scans `s` from `i`: the leftmost
      match, then those of the scan resumed at the end of that match. */
  function Hits(s: string, i: nat, p: Pattern): (hs: seq<nat>)
    requires |p| > 0
    decreases |s| - i
    ensures Ordered(hs, i, |p|, |s|)
  {
    match Search(s, i, p)
    case None => []
    case Some(h) => [h] + Hits(s, h + |p|, p)
  }

  /** Index `j` lies inside the window of one of the hits `hs`. */
  predicate Covered(hs: seq<nat>, j: int, w: nat) {
    hs != [] && (hs[0] <= j < hs[0] + w || Covered(hs[1..], j, w))
  }

  /** The index of a hit whose window holds `j`. */
  function CoveringHit(hs: seq<nat>, j: int, w: nat): (k: nat)
    requires Covered(hs, j, w)
    ensures k < |hs| && hs[k] <= j < hs[k] + w
  {
    if hs[0] <= j < hs[0] + w then 0 else 1 + CoveringHit(hs[1..], j, w)
  }

  /** What `re.sub` inserts for a match: a fixed template string or the
      result of a function of the matched text. */
  datatype Replacement = Fixed(text: string) | PerMatch(f: string -> string)

  function Expand(rep: Replacement, m: string): string {
    match rep
    case Fixed(t) => t
    case PerMatch(f) => f(m)
  }

  /** The replacement of a text of width `w` is again `w` wide. */
  ghost predicate KeepsWidth(rep: Replacement, w: nat) {
    forall m :: |m| == w ==> |Expand(rep, m)| == w
  }

  /** The text from `i` on with the replacement of each window of `hs`
      written over that window. */
  function Splice(s: string, i: nat, hs: seq<nat>, w: nat, rep: Replacement): (r: string)
    requires i <= |s| && Ordered(hs, i, w, |s|) && KeepsWidth(rep, w)
    decreases |hs|
    ensures |r| == |s| - i
  {
    if hs == [] then s[i..]
    else s[i..hs[0]] + Expand(rep, s[hs[0]..hs[0] + w]) + Splice(s, hs[0] + w, hs[1..], w, rep)
  }

  /** `pattern.sub(rep, s)`: every hit of the scan replaced. */
  function Sub(s: string, p: Pattern, rep: Replacement): (r: string)
    requires |p| > 0 && KeepsWidth(rep, |p|)
    ensures |r| == |s|
  {
    Splice(s, 0, Hits(s, 0, p), |p|, rep)
  }

  /** `b` has a digit exactly where `a` does, and the same character
      wherever `a` has a non-digit. */
  ghost predicate SameShape(a: string, b: string) {
    |a| == |b| &&
    forall j :: 0 <= j < |a| ==> IsDigit(a[j]) == IsDigit(b[j]) && (!IsDigit(a[j]) ==> a[j] == b[j])
  }
}
