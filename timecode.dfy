/**
 * The two line rewriters of `FileProcessor`: `adjust_timecode_vtt`, which
 * sets the hours of a WebVTT cue timing to `00`, and the substitution that
 * turns the SRT millisecond comma into a period.
 */
module Timecodes {
  import opened Wrappers
  import opened Strings
  import opened Scanner
  import opened ScanFacts

  /** `HH:MM:SS<sep>mmm` with every field two or three `\d`. */
  function Stamp(sep: char): (p: Pattern)
    ensures |p| == 12
  {
    [Digit, Digit, Lit(':'), Digit, Digit, Lit(':'), Digit, Digit, Lit(sep), Digit, Digit, Digit]
  }

  /** `VTT_TIMECODE_PATTERN`: `\d{2}:\d{2}:\d{2}\.\d{3} --> \d{2}:\d{2}:\d{2}\.\d{3}`. */
  const VttRange: Pattern :=
    Stamp('.') + [Lit(' '), Lit('-'), Lit('-'), Lit('>'), Lit(' ')] + Stamp('.')

  /** `SRT_TIMECODE_PATTERN`: `\d{2}:\d{2}:\d{2},\d{3}`. */
  const SrtStamp: Pattern := Stamp(',')

  /** Both patterns are 29 and 12 characters wide and have no digit
      literals. */
  lemma {:induction false} PatternsWellFormed()
    ensures |VttRange| == 29 && WellFormed(VttRange)
    ensures |SrtStamp| == 12 && WellFormed(SrtStamp)
  {
    forall k | 0 <= k < |VttRange| && VttRange[k].Lit? ensures !IsDigit(VttRange[k].c) {
      if k < 12 {
        assert VttRange[k] == Stamp('.')[k];
      } else if k >= 17 {
        assert VttRange[k] == Stamp('.')[k - 17];
      }
    }
  }

  /** The replacement text `adjust_timecode_vtt` builds from a matched
      range: `00:` + minutes + `:` + seconds.millis, twice, around
      ` --> `. */
  function ZeroHours(m: string): (t: string)
    requires |m| == 29
    ensures |t| == 29
  {
    "00:" + m[3..5] + ":" + m[6..12] + " --> 00:" + m[20..22] + ":" + m[23..29]
  }

  /** For a matched range, the template differs from it only in the four
      hour digits, which become `0`. */
  lemma {:induction false} ZeroHoursSpec(m: string)
    requires MatchesAt(m, 0, VttRange) && |m| == 29
    ensures ZeroHours(m) == "00" + m[2..17] + "00" + m[19..]
  {
    PatternsWellFormed();
    MatchesAtPointwise(m, 0, VttRange);
    assert Fits(m[0 + 2], VttRange[2]) && Fits(m[0 + 5], VttRange[5]);
    assert Fits(m[0 + 12], VttRange[12]) && Fits(m[0 + 13], VttRange[13]);
    assert Fits(m[0 + 14], VttRange[14]) && Fits(m[0 + 15], VttRange[15]);
    assert Fits(m[0 + 16], VttRange[16]) && Fits(m[0 + 19], VttRange[19]);
    assert Fits(m[0 + 22], VttRange[22]);
    var t := ZeroHours(m);
    var u := "00" + m[2..17] + "00" + m[19..];
    assert |t| == |u| == 29;
    forall j | 0 <= j < 29 ensures t[j] == u[j] {
      if j < 2 || 17 <= j < 19 {
      } else if j < 17 {
        assert u[j] == m[j];
      } else {
        assert u[j] == m[j];
      }
    }
  }

  /** The template of a matched range is matched by the pattern again. */
  lemma {:induction false} ZeroHoursMatches(m: string)
    requires MatchesAt(m, 0, VttRange) && |m| == 29
    ensures MatchesAt(ZeroHours(m), 0, VttRange)
  {
    PatternsWellFormed();
    ZeroHoursSpec(m);
    var t := ZeroHours(m);
    MatchesAtPointwise(m, 0, VttRange);
    MatchesAtPointwise(t, 0, VttRange);
    forall k | 0 <= k < 29 ensures Fits(t[0 + k], VttRange[k]) {
      assert Fits(m[0 + k], VttRange[k]);
      if k < 2 || 17 <= k < 19 {
        assert VttRange[k] == Digit;
      }
    }
  }

  /** Building the template from a template gives it back. */
  lemma {:induction false} ZeroHoursIdempotent(m: string)
    requires MatchesAt(m, 0, VttRange) && |m| == 29
    ensures ZeroHours(ZeroHours(m)) == ZeroHours(m)
  {
    ZeroHoursMatches(m);
    ZeroHoursSpec(m);
    ZeroHoursSpec(ZeroHours(m));
  }

  /** `FileProcessor.adjust_timecode_vtt`: without a range the line is
      returned as it is; otherwise the template built from the FIRST range
      is substituted for every range of the line. */
  function AdjustTimecodeVtt(line: string): (r: string)
    ensures |r| == |line|
  {
    match Search(line, 0, VttRange)
    case None => line
    case Some(h) => Sub(line, VttRange, Fixed(ZeroHours(line[h..h + 29])))
  }

  /** A line in which the range pattern matches nowhere is returned
      unchanged. */
  lemma {:induction false} AdjustWithoutRange(line: string)
    requires forall q :: !MatchesAt(line, q, VttRange)
    ensures AdjustTimecodeVtt(line) == line
  {
    PatternsWellFormed();
    if Search(line, 0, VttRange).Some? {
      assert false;
    }
  }

  /** Every range the substitution visits, the `k`-th hit `h`, now reads
      as the template of the first range `h0`: the first range with its
      hours set to `00`. */
  lemma {:induction false} AdjustAtRange(line: string, hs: seq<nat>, k: nat, h: nat, j: int)
    requires hs == Hits(line, 0, VttRange) && k < |hs| && hs[k] == h && h <= j < h + 29
    ensures hs[0] + 29 <= |line| && h + 29 <= |line|
    ensures Search(line, 0, VttRange) == Some(hs[0])
    ensures var first := line[hs[0]..hs[0] + 29];
      AdjustTimecodeVtt(line)[j] == ("00" + first[2..17] + "00" + first[19..])[j - h]
  {
    PatternsWellFormed();
    var h0 := hs[0];
    HitText(line, VttRange, hs, 0, h0);
    OrderedBound(hs, 0, 29, |line|, k);
    var first := line[h0..h0 + 29];
    ZeroHoursSpec(first);
    SubAtHit(line, VttRange, Fixed(ZeroHours(first)), hs, k, h, j);
  }

  /** Every character outside the ranges the substitution visits is kept. */
  lemma {:induction false} AdjustOutsideRanges(line: string, j: int)
    requires 0 <= j < |line| && !Covered(Hits(line, 0, VttRange), j, 29)
    ensures AdjustTimecodeVtt(line)[j] == line[j]
  {
    PatternsWellFormed();
    match Search(line, 0, VttRange)
    case None =>
    case Some(h) =>
      SubOutsideHits(line, VttRange, Fixed(ZeroHours(line[h..h + 29])), j);
  }

  /** A line with a single range: only its four hour digits change, each
      to `0`. */
  lemma {:induction false} AdjustSingleRange(line: string, h: nat)
    requires Hits(line, 0, VttRange) == [h]
    ensures h + 29 <= |line|
    ensures AdjustTimecodeVtt(line) == line[..h] + "00" + line[h + 2..h + 17] + "00" + line[h + 19..]
  {
    var hs := Hits(line, 0, VttRange);
    OrderedBound(hs, 0, 29, |line|, 0);
    var r := AdjustTimecodeVtt(line);
    var u := line[..h] + "00" + line[h + 2..h + 17] + "00" + line[h + 19..];
    assert |u| == |line|;
    forall j | 0 <= j < |line| ensures r[j] == u[j] {
      if h <= j < h + 29 {
        AdjustAtRange(line, hs, 0, h, j);
        var first := line[h..h + 29];
        if j < h + 2 || h + 17 <= j < h + 19 {
        } else {
          assert ("00" + first[2..17] + "00" + first[19..])[j - h] == first[j - h];
        }
      } else {
        assert !Covered(hs[1..], j, 29);
        AdjustOutsideRanges(line, j);
      }
    }
  }

  /** A line that is one range: its hours become `00`. */
  lemma {:induction false} AdjustRangeAlone(r: string)
    requires |r| == 29 && MatchesAt(r, 0, VttRange)
    ensures AdjustTimecodeVtt(r) == "00" + r[2..17] + "00" + r[19..]
  {
    PatternsWellFormed();
    OneHit(r, VttRange);
    AdjustSingleRange(r, 0);
    assert r[..0] + "00" == "00";
  }

  /** Two ranges separated by a space: both are replaced by the template
      of the FIRST range, so the second range's minutes and seconds are
      lost. */
  lemma {:induction false} AdjustTwoRanges(r1: string, r2: string)
    requires |r1| == 29 && MatchesAt(r1, 0, VttRange)
    requires |r2| == 29 && MatchesAt(r2, 0, VttRange)
    ensures var z := "00" + r1[2..17] + "00" + r1[19..];
      AdjustTimecodeVtt(r1 + " " + r2) == z + " " + z
  {
    PatternsWellFormed();
    var line := r1 + " " + r2;
    assert line[29] == ' ';
    NoMatchAtNonDigit(line, 29, VttRange);
    TwoHits(r1, " ", r2, VttRange);
    assert line[0..29] == r1;
    ZeroHoursSpec(r1);
    SubTwoHits(r1, " ", r2, VttRange, Fixed(ZeroHours(r1)));
  }

  /** `adjust_timecode_vtt` is idempotent: the rewrite keeps every digit a
      digit and every separator in place, so the second pass finds the same
      ranges, the same first range and a template equal to it. */
  lemma {:induction false} AdjustIdempotent(line: string)
    ensures AdjustTimecodeVtt(AdjustTimecodeVtt(line)) == AdjustTimecodeVtt(line)
  {
    PatternsWellFormed();
    match Search(line, 0, VttRange)
    case None =>
    case Some(h) =>
      var first := line[h..h + 29];
      var t := ZeroHours(first);
      var u := AdjustTimecodeVtt(line);
      assert u == Sub(line, VttRange, Fixed(t));
      var hs := Hits(line, 0, VttRange);
      assert hs[0] == h;
      HitText(line, VttRange, hs, 0, h);
      ZeroHoursMatches(first);
      SubFixedKeepsShape(line, VttRange, t);
      SameShapeSameMatches(line, u, VttRange);
      SameMatchesSameSearch(line, u, 0, VttRange);
      SameMatchesSameHits(line, u, 0, VttRange);
      forall x | 0 <= x < 29 ensures u[h..h + 29][x] == t[x] {
        SubAtHit(line, VttRange, Fixed(t), hs, 0, h, h + x);
      }
      assert u[h..h + 29] == t;
      ZeroHoursIdempotent(first);
      SubFixedIdempotent(line, VttRange, t);
  }

  /** The match callback of the SRT rewrite: the four groups joined as
      `HH:MM:SS.mmm`. Only 12-character matches reach it. */
  function PeriodForComma(m: string): (t: string)
    ensures |t| == |m|
    ensures |m| == 12 ==> t[8] == '.' && t[2] == ':' && t[5] == ':'
  {
    if |m| == 12 then m[0..2] + ":" + m[3..5] + ":" + m[6..8] + "." + m[9..12] else m
  }

  /** The callback puts a period where a matched stamp has its comma and
      keeps every other character. */
  lemma {:induction false} PeriodForCommaSpec(m: string)
    requires MatchesAt(m, 0, SrtStamp) && |m| == 12
    ensures PeriodForComma(m) == m[..8] + "." + m[9..]
  {
    MatchesAtPointwise(m, 0, SrtStamp);
    assert Fits(m[0 + 2], SrtStamp[2]) && Fits(m[0 + 5], SrtStamp[5]);
    var t := PeriodForComma(m);
    var u := m[..8] + "." + m[9..];
    forall j | 0 <= j < 12 ensures t[j] == u[j] {
    }
  }

  const SrtRewrite: Replacement := PerMatch(PeriodForComma)

  /** The per-line rewrite of `convert_srt_to_vtt`. */
  function SrtLineToVtt(line: string): (r: string)
    ensures |r| == |line|
  {
    Sub(line, SrtStamp, SrtRewrite)
  }

  /** At a stamp the SRT rewrite visits, the comma becomes a period and the
      rest of the stamp is kept. */
  lemma {:induction false} SrtAtStamp(line: string, hs: seq<nat>, k: nat, h: nat, j: int)
    requires hs == Hits(line, 0, SrtStamp) && k < |hs| && hs[k] == h && h <= j < h + 12
    ensures h + 12 <= |line|
    ensures SrtLineToVtt(line)[j] == if j == h + 8 then '.' else line[j]
  {
    PatternsWellFormed();
    HitText(line, SrtStamp, hs, k, h);
    var m := line[h..h + 12];
    PeriodForCommaSpec(m);
    SubAtHit(line, SrtStamp, SrtRewrite, hs, k, h, j);
    assert Expand(SrtRewrite, m) == m[..8] + "." + m[9..];
    assert (m[..8] + "." + m[9..])[j - h] == if j == h + 8 then '.' else m[j - h];
  }

  /** Outside the stamps the SRT rewrite keeps every character. */
  lemma {:induction false} SrtOutsideStamps(line: string, j: int)
    requires 0 <= j < |line| && !Covered(Hits(line, 0, SrtStamp), j, 12)
    ensures SrtLineToVtt(line)[j] == line[j]
  {
    PatternsWellFormed();
    SubOutsideHits(line, SrtStamp, SrtRewrite, j);
  }

  /** The SRT rewrite changes nothing but commas, each into a period, and
      keeps every stamp a stamp (hours included). */
  lemma {:induction false} SrtOnlyCommas(line: string)
    ensures forall j :: 0 <= j < |line| ==>
      SrtLineToVtt(line)[j] == line[j] || (line[j] == ',' && SrtLineToVtt(line)[j] == '.')
  {
    PatternsWellFormed();
    var hs := Hits(line, 0, SrtStamp);
    forall j | 0 <= j < |line|
      ensures SrtLineToVtt(line)[j] == line[j] || (line[j] == ',' && SrtLineToVtt(line)[j] == '.')
    {
      if Covered(hs, j, 12) {
        var k := CoveringHit(hs, j, 12);
        var h := hs[k];
        SrtAtStamp(line, hs, k, h, j);
        if j == h + 8 {
          HitIsMatch(line, 0, SrtStamp, k);
          MatchesAtPointwise(line, h, SrtStamp);
          assert Fits(line[h + 8], SrtStamp[8]);
        }
      } else {
        SrtOutsideStamps(line, j);
      }
    }
  }

  /** A line without an SRT stamp is kept as it is. */
  lemma {:induction false} SrtWithoutStamp(line: string)
    requires forall q :: !MatchesAt(line, q, SrtStamp)
    ensures SrtLineToVtt(line) == line
  {
    PatternsWellFormed();
    if Search(line, 0, SrtStamp).Some? {
      assert false;
    }
  }

  /** No stamp starts inside the arrow of a cue timing line. */
  lemma {:induction false} NoStampInArrow(t1: string, t2: string)
    requires |t1| == 12
    ensures forall q :: 12 <= q < 17 ==> !MatchesAt(t1 + " --> " + t2, q, SrtStamp)
  {
    var line := t1 + " --> " + t2;
    forall q | 12 <= q < 17 ensures !MatchesAt(line, q, SrtStamp) {
      assert line[q] == " --> "[q - 12];
      NoMatchAtNonDigit(line, q, SrtStamp);
    }
  }

  /** The usual SRT cue timing line: both stamps get a period and nothing
      else changes. */
  lemma {:induction false} SrtCueLine(t1: string, t2: string)
    requires |t1| == 12 && MatchesAt(t1, 0, SrtStamp)
    requires |t2| == 12 && MatchesAt(t2, 0, SrtStamp)
    ensures SrtLineToVtt(t1 + " --> " + t2) == (t1[..8] + "." + t1[9..]) + " --> " + (t2[..8] + "." + t2[9..])
  {
    PatternsWellFormed();
    NoStampInArrow(t1, t2);
    SubTwoHits(t1, " --> ", t2, SrtStamp, SrtRewrite);
    assert Expand(SrtRewrite, t1) == PeriodForComma(t1) && Expand(SrtRewrite, t2) == PeriodForComma(t2);
    PeriodForCommaSpec(t1);
    PeriodForCommaSpec(t2);
  }
}
