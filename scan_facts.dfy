/**
 * What the scan and the substitution of module Scanner guarantee: the hits
 * of `re.sub` are leftmost, non-overlapping matches; the substitution
 * writes the replacement over each hit and copies everything else; a fixed
 * replacement that the pattern matches keeps the shape of a text and is
 * idempotent.
 */
module ScanFacts {
  import opened Wrappers
  import opened Strings
  import opened Scanner

  /** A match, position by position: every slot fits the character under
      it. */
  lemma {:induction false} MatchesAtPointwise(s: string, i: int, p: Pattern)
    decreases |p|
    ensures MatchesAt(s, i, p) <==>
      0 <= i && i + |p| <= |s| && forall k :: 0 <= k < |p| ==> Fits(s[i + k], p[k])
  {
    if p != [] && 0 <= i && i + |p| <= |s| {
      MatchesAtPointwise(s, i + 1, p[1..]);
      if Fits(s[i], p[0]) && MatchesAt(s, i + 1, p[1..]) {
        forall k | 0 <= k < |p| ensures Fits(s[i + k], p[k]) {
          if k > 0 {
            assert Fits(s[i + 1 + (k - 1)], p[1..][k - 1]);
          }
        }
      }
      if forall k :: 0 <= k < |p| ==> Fits(s[i + k], p[k]) {
        forall k | 0 <= k < |p| - 1 ensures Fits(s[i + 1 + k], p[1..][k]) {
          assert Fits(s[i + (k + 1)], p[k + 1]);
        }
      }
    }
  }

  /** No match lies between `i` and the one Search finds; when it finds
      none, there is no match at or after `i`. */
  lemma {:induction false} SearchLeftmost(s: string, i: nat, p: Pattern)
    decreases |s| - i
    ensures Search(s, i, p).Some? ==>
      forall q :: i <= q < Search(s, i, p).value ==> !MatchesAt(s, q, p)
    ensures Search(s, i, p).None? ==> forall q :: i <= q ==> !MatchesAt(s, q, p)
  {
    if i + |p| <= |s| && !MatchesAt(s, i, p) {
      SearchLeftmost(s, i + 1, p);
    }
  }

  /** The windows of an ordered list lie from `i` on, inside the text, and
      a later one starts at or after the end of an earlier one. */
  lemma {:induction false} OrderedApart(hs: seq<nat>, i: int, w: nat, n: int, k1: nat, k2: nat)
    requires Ordered(hs, i, w, n) && k1 <= k2 < |hs|
    decreases k1
    ensures i <= hs[k1] && hs[k2] + w <= n
    ensures k1 < k2 ==> hs[k1] + w <= hs[k2]
  {
    if k1 == 0 {
      if k2 > 0 {
        OrderedBound(hs[1..], hs[0] + w, w, n, k2 - 1);
      }
    } else {
      OrderedApart(hs[1..], hs[0] + w, w, n, k1 - 1, k2 - 1);
    }
  }

  /** Each window of an ordered list lies from `i` on and inside the
      text. */
  lemma {:induction false} OrderedBound(hs: seq<nat>, i: int, w: nat, n: int, k: nat)
    requires Ordered(hs, i, w, n) && k < |hs|
    decreases k
    ensures i <= hs[k] && hs[k] + w <= n
  {
    if k > 0 {
      OrderedBound(hs[1..], hs[0] + w, w, n, k - 1);
    }
  }

  /** Whether the pattern matches at `i` depends only on the window of the
      text under it. */
  lemma {:induction false} MatchesAtSlice(s: string, i: nat, p: Pattern)
    requires i + |p| <= |s|
    ensures MatchesAt(s, i, p) <==> MatchesAt(s[i..i + |p|], 0, p)
  {
    var m := s[i..i + |p|];
    MatchesAtPointwise(s, i, p);
    MatchesAtPointwise(m, 0, p);
    forall x | 0 <= x < |p| ensures Fits(m[0 + x], p[x]) <==> Fits(s[i + x], p[x]) {
      assert m[x] == s[i + x];
    }
  }

  /** The text under a hit of the scan from 0 is a match of the pattern. */
  lemma {:induction false} HitText(s: string, p: Pattern, hs: seq<nat>, k: nat, h: nat)
    requires |p| > 0 && hs == Hits(s, 0, p) && k < |hs| && hs[k] == h
    ensures h + |p| <= |s| && MatchesAt(s[h..h + |p|], 0, p)
  {
    HitIsMatch(s, 0, p, k);
    OrderedBound(hs, 0, |p|, |s|, k);
    MatchesAtSlice(s, h, p);
  }

  /** Search from `i` finds `n` when the pattern matches at `n` and
      nowhere between. */
  lemma {:induction false} SearchFinds(s: string, i: nat, n: nat, p: Pattern)
    requires i <= n && MatchesAt(s, n, p)
    requires forall q :: i <= q < n ==> !MatchesAt(s, q, p)
    decreases n - i
    ensures Search(s, i, p) == Some(n)
  {
    if i < n {
      SearchFinds(s, i + 1, n, p);
    }
  }

  /** Every hit is a match. */
  lemma {:induction false} HitIsMatch(s: string, i: nat, p: Pattern, k: nat)
    requires |p| > 0 && k < |Hits(s, i, p)|
    decreases |s| - i
    ensures MatchesAt(s, Hits(s, i, p)[k], p)
  {
    var h0 := Search(s, i, p).value;
    assert Hits(s, i, p) == [h0] + Hits(s, h0 + |p|, p);
    if k > 0 {
      HitIsMatch(s, h0 + |p|, p, k - 1);
    }
  }

  /** The hits are leftmost: every match at or after `i` is a hit or lies
      inside the window of a hit (it overlaps a match already taken). */
  lemma {:induction false} HitsCoverEveryMatch(s: string, i: nat, p: Pattern, q: int)
    requires |p| > 0 && i <= q && MatchesAt(s, q, p)
    decreases |s| - i
    ensures Covered(Hits(s, i, p), q, |p|)
  {
    SearchLeftmost(s, i, p);
    var h := Search(s, i, p).value;
    var rest := Hits(s, h + |p|, p);
    assert Hits(s, i, p) == [h] + rest;
    if h + |p| <= q {
      HitsCoverEveryMatch(s, h + |p|, p, q);
      assert ([h] + rest)[1..] == rest;
    }
  }

  /** Splitting a non-empty `Splice` at its first window: the text before
      the window, the replacement, and the rest. */
  lemma {:induction false} SpliceFirst(s: string, i: nat, hs: seq<nat>, w: nat, rep: Replacement, j: int)
    requires i <= |s| && Ordered(hs, i, w, |s|) && KeepsWidth(rep, w) && hs != []
    requires i <= j < |s|
    ensures hs[0] + w <= |s|
    ensures j < hs[0] ==> Splice(s, i, hs, w, rep)[j - i] == s[j]
    ensures hs[0] <= j < hs[0] + w ==>
      Splice(s, i, hs, w, rep)[j - i] == Expand(rep, s[hs[0]..hs[0] + w])[j - hs[0]]
    ensures hs[0] + w <= j ==>
      Splice(s, i, hs, w, rep)[j - i] == Splice(s, hs[0] + w, hs[1..], w, rep)[j - (hs[0] + w)]
  {
    var h := hs[0];
    var x := Expand(rep, s[h..h + w]);
    assert |x| == w;
    var tail := Splice(s, h + w, hs[1..], w, rep);
    var r := Splice(s, i, hs, w, rep);
    assert r == s[i..h] + x + tail;
    if j < h {
      assert r[j - i] == s[i..h][j - i];
    } else if j < h + w {
      assert r[j - i] == x[j - h];
    } else {
      assert r[j - i] == tail[j - (h + w)];
    }
  }

  /** `Splice` writes the replacement of the `k`-th window `h` over that
      window. */
  lemma {:induction false} SpliceAt(s: string, i: nat, hs: seq<nat>, w: nat, rep: Replacement, k: nat, h: nat, j: int)
    requires i <= |s| && Ordered(hs, i, w, |s|) && KeepsWidth(rep, w)
    requires k < |hs| && hs[k] == h && h <= j < h + w
    decreases k
    ensures i <= h && h + w <= |s|
    ensures Splice(s, i, hs, w, rep)[j - i] == Expand(rep, s[h..h + w])[j - h]
  {
    OrderedApart(hs, i, w, |s|, k, k);
    SpliceFirst(s, i, hs, w, rep, j);
    if k > 0 {
      OrderedApart(hs, i, w, |s|, 0, k);
      assert hs[1..][k - 1] == h;
      SpliceAt(s, hs[0] + w, hs[1..], w, rep, k - 1, h, j);
    }
  }

  /** `Splice` copies every character outside the windows. */
  lemma {:induction false} SpliceOutside(s: string, i: nat, hs: seq<nat>, w: nat, rep: Replacement, j: int)
    requires i <= |s| && Ordered(hs, i, w, |s|) && KeepsWidth(rep, w)
    requires i <= j < |s| && !Covered(hs, j, w)
    decreases |hs|
    ensures Splice(s, i, hs, w, rep)[j - i] == s[j]
  {
    if hs == [] {
      assert Splice(s, i, hs, w, rep) == s[i..];
      assert Splice(s, i, hs, w, rep)[j - i] == s[j];
    } else {
      SpliceFirst(s, i, hs, w, rep, j);
      assert !(hs[0] <= j < hs[0] + w) && !Covered(hs[1..], j, w);
      if hs[0] + w <= j {
        SpliceOutside(s, hs[0] + w, hs[1..], w, rep, j);
        assert Splice(s, i, hs, w, rep)[j - i] == s[j];
      } else {
        assert Splice(s, i, hs, w, rep)[j - i] == s[j];
      }
    }
  }

  /** `Sub` writes the replacement of each hit over it. */
  lemma {:induction false} SubAtHit(s: string, p: Pattern, rep: Replacement, hs: seq<nat>, k: nat, h: nat, j: int)
    requires |p| > 0 && KeepsWidth(rep, |p|) && hs == Hits(s, 0, p)
    requires k < |hs| && hs[k] == h && h <= j < h + |p|
    ensures h + |p| <= |s|
    ensures Sub(s, p, rep)[j] == Expand(rep, s[h..h + |p|])[j - h]
  {
    SpliceAtStart(s, hs, |p|, rep, k, h, j);
  }

  lemma {:induction false} SpliceAtStart(s: string, hs: seq<nat>, w: nat, rep: Replacement, k: nat, h: nat, j: int)
    requires Ordered(hs, 0, w, |s|) && KeepsWidth(rep, w)
    requires k < |hs| && hs[k] == h && h <= j < h + w
    ensures h + w <= |s|
    ensures Splice(s, 0, hs, w, rep)[j] == Expand(rep, s[h..h + w])[j - h]
  {
    SpliceAt(s, 0, hs, w, rep, k, h, j);
  }

  /** `Sub` leaves every character outside the hits as it was. */
  lemma {:induction false} SubOutsideHits(s: string, p: Pattern, rep: Replacement, j: int)
    requires |p| > 0 && KeepsWidth(rep, |p|)
    requires 0 <= j < |s| && !Covered(Hits(s, 0, p), j, |p|)
    ensures Sub(s, p, rep)[j] == s[j]
  {
    SpliceOutside(s, 0, Hits(s, 0, p), |p|, rep, j);
  }

  /** A pattern that starts with `\d` matches at no non-digit. */
  lemma {:induction false} NoMatchAtNonDigit(s: string, q: int, p: Pattern)
    requires p != [] && p[0] == Digit && 0 <= q < |s| && !IsDigit(s[q])
    ensures !MatchesAt(s, q, p)
  {
  }

  /** A text that is one match has that one hit. */
  lemma {:induction false} OneHit(s: string, p: Pattern)
    requires |p| > 0 && |s| == |p| && MatchesAt(s, 0, p)
    ensures Hits(s, 0, p) == [0]
  {
    assert Search(s, |p|, p) == None;
    assert Hits(s, |p|, p) == [];
  }

  /** Two matches `a` and `b` with a separator between them in which no
      match starts: the scan hits both. */
  lemma {:induction false} TwoHits(a: string, sep: string, b: string, p: Pattern)
    requires |p| > 0 && |a| == |p| && |b| == |p|
    requires MatchesAt(a, 0, p) && MatchesAt(b, 0, p)
    requires forall q :: |a| <= q < |a| + |sep| ==> !MatchesAt(a + sep + b, q, p)
    ensures Search(a + sep + b, 0, p) == Some(0)
    ensures Hits(a + sep + b, 0, p) == [0, |a| + |sep|]
  {
    var s := a + sep + b;
    var w := |p|;
    var n := |a| + |sep|;
    assert s[0..w] == a && s[n..n + w] == b;
    MatchesAtSlice(s, 0, p);
    MatchesAtSlice(s, n, p);
    SearchFinds(s, w, n, p);
    assert Search(s, n + w, p) == None;
    assert Hits(s, w, p) == [n] + Hits(s, n + w, p);
  }

  /** `Splice` over two windows, the first at 0 and the second at the end
      of the text. */
  lemma {:induction false} SpliceTwo(s: string, n: nat, w: nat, rep: Replacement)
    requires w <= n && n + w == |s| && KeepsWidth(rep, w)
    ensures Ordered([0, n], 0, w, |s|)
    ensures Splice(s, 0, [0, n], w, rep) == Expand(rep, s[..w]) + s[w..n] + Expand(rep, s[n..])
  {
    assert [0, n][1..] == [n] && s[n..n + w] == s[n..] && s[0..w] == s[..w];
    assert Splice(s, n + w, [], w, rep) == [];
    assert Splice(s, w, [n], w, rep) == s[w..n] + Expand(rep, s[n..]) + [];
  }

  /** ... and `Sub` replaces each. */
  lemma {:induction false} SubTwoHits(a: string, sep: string, b: string, p: Pattern, rep: Replacement)
    requires |p| > 0 && KeepsWidth(rep, |p|) && |a| == |p| && |b| == |p|
    requires MatchesAt(a, 0, p) && MatchesAt(b, 0, p)
    requires forall q :: |a| <= q < |a| + |sep| ==> !MatchesAt(a + sep + b, q, p)
    ensures Sub(a + sep + b, p, rep) == Expand(rep, a) + sep + Expand(rep, b)
  {
    var s := a + sep + b;
    TwoHits(a, sep, b, p);
    SpliceTwo(s, |a| + |sep|, |p|, rep);
    assert s[..|p|] == a && s[|p|..|a| + |sep|] == sep && s[|a| + |sep|..] == b;
  }

  /** Without a match `Sub` changes nothing. */
  lemma {:induction false} SubNoMatch(s: string, p: Pattern, rep: Replacement)
    requires |p| > 0 && KeepsWidth(rep, |p|) && Search(s, 0, p).None?
    ensures Sub(s, p, rep) == s
  {
  }

  /** A well-formed pattern cannot tell apart two strings of the same shape. */
  lemma {:induction false} SameShapeSameMatches(a: string, b: string, p: Pattern)
    requires WellFormed(p) && SameShape(a, b)
    ensures forall q :: MatchesAt(a, q, p) <==> MatchesAt(b, q, p)
  {
    forall q ensures MatchesAt(a, q, p) <==> MatchesAt(b, q, p) {
      MatchesAtPointwise(a, q, p);
      MatchesAtPointwise(b, q, p);
      if 0 <= q && q + |p| <= |a| {
        forall k | 0 <= k < |p| ensures Fits(a[q + k], p[k]) <==> Fits(b[q + k], p[k]) {
        }
      }
    }
  }

  /** Two texts of one length that the pattern matches at the same indices
      are searched alike. */
  lemma {:induction false} SameMatchesSameSearch(a: string, b: string, i: nat, p: Pattern)
    requires |a| == |b|
    requires forall q :: MatchesAt(a, q, p) <==> MatchesAt(b, q, p)
    decreases |a| - i
    ensures Search(a, i, p) == Search(b, i, p)
  {
    if i + |p| <= |a| && !MatchesAt(a, i, p) {
      SameMatchesSameSearch(a, b, i + 1, p);
    }
  }

  /** ... and scanned alike: they have the same hits. */
  lemma {:induction false} SameMatchesSameHits(a: string, b: string, i: nat, p: Pattern)
    requires |p| > 0 && |a| == |b|
    requires forall q :: MatchesAt(a, q, p) <==> MatchesAt(b, q, p)
    decreases |a| - i
    ensures Hits(a, i, p) == Hits(b, i, p)
  {
    SameMatchesSameSearch(a, b, i, p);
    if Search(a, i, p).Some? {
      SameMatchesSameHits(a, b, Search(a, i, p).value + |p|, p);
    }
  }

  /** The texts of two matches have the same shape. */
  lemma {:induction false} MatchedTextsSameShape(s: string, h: nat, p: Pattern, t: string)
    requires WellFormed(p) && MatchesAt(s, h, p) && MatchesAt(t, 0, p) && |t| == |p|
    ensures SameShape(s[h..h + |p|], t)
  {
    var m := s[h..h + |p|];
    MatchesAtPointwise(s, h, p);
    MatchesAtPointwise(t, 0, p);
    forall j | 0 <= j < |p|
      ensures IsDigit(m[j]) == IsDigit(t[j]) && (!IsDigit(m[j]) ==> m[j] == t[j])
    {
      assert Fits(s[h + j], p[j]) && Fits(t[0 + j], p[j]);
    }
  }

  /** At one index: a fixed replacement that the pattern matches keeps the
      digit class of the character, and the character itself when it is not
      a digit. */
  lemma {:induction false} SubFixedShapeAt(s: string, p: Pattern, t: string, j: int)
    requires WellFormed(p) && |t| == |p| && MatchesAt(t, 0, p) && 0 <= j < |s|
    ensures var r := Sub(s, p, Fixed(t));
      IsDigit(s[j]) == IsDigit(r[j]) && (!IsDigit(s[j]) ==> s[j] == r[j])
  {
    var hs := Hits(s, 0, p);
    if Covered(hs, j, |p|) {
      var k := CoveringHit(hs, j, |p|);
      var h := hs[k];
      HitIsMatch(s, 0, p, k);
      SubAtHit(s, p, Fixed(t), hs, k, h, j);
      MatchedTextsSameShape(s, h, p, t);
      assert s[j] == s[h..h + |p|][j - h];
    } else {
      SubOutsideHits(s, p, Fixed(t), j);
    }
  }

  /** A fixed replacement that the pattern matches leaves the shape of the
      text unchanged: no digit appears or disappears and every other
      character stays. */
  lemma {:induction false} SubFixedKeepsShape(s: string, p: Pattern, t: string)
    requires WellFormed(p) && |t| == |p| && MatchesAt(t, 0, p)
    ensures SameShape(s, Sub(s, p, Fixed(t)))
  {
    forall j | 0 <= j < |s| {
      SubFixedShapeAt(s, p, t, j);
    }
  }

  /** At one index: rewriting a second time with the same fixed replacement
      leaves the character as the first rewrite made it. */
  lemma {:induction false} SubFixedTwiceAt(s: string, p: Pattern, t: string, j: int)
    requires |p| > 0 && |t| == |p| && 0 <= j < |s|
    requires Hits(Sub(s, p, Fixed(t)), 0, p) == Hits(s, 0, p)
    ensures var u := Sub(s, p, Fixed(t));
      Sub(u, p, Fixed(t))[j] == u[j]
  {
    var u := Sub(s, p, Fixed(t));
    var hs := Hits(s, 0, p);
    if Covered(hs, j, |p|) {
      var k := CoveringHit(hs, j, |p|);
      SubAtHit(s, p, Fixed(t), hs, k, hs[k], j);
      SubAtHit(u, p, Fixed(t), hs, k, hs[k], j);
    } else {
      SubOutsideHits(s, p, Fixed(t), j);
      SubOutsideHits(u, p, Fixed(t), j);
    }
  }

  /** Rewriting a second time with the same fixed replacement changes
      nothing: the hits are where they were and already read as the
      replacement. */
  lemma {:induction false} SubFixedIdempotent(s: string, p: Pattern, t: string)
    requires WellFormed(p) && |t| == |p| && MatchesAt(t, 0, p)
    ensures Sub(Sub(s, p, Fixed(t)), p, Fixed(t)) == Sub(s, p, Fixed(t))
  {
    var u := Sub(s, p, Fixed(t));
    SubFixedKeepsShape(s, p, t);
    SameShapeSameMatches(s, u, p);
    SameMatchesSameHits(s, u, 0, p);
    forall j | 0 <= j < |u| ensures Sub(u, p, Fixed(t))[j] == u[j] {
      SubFixedTwiceAt(s, p, t, j);
    }
  }
}
