/**
 * The per-file transforms of `FileProcessor`: `process_vtt_file` copies a
 * WebVTT file line by line through `adjust_timecode_vtt`, and
 * `convert_srt_to_vtt` writes the WebVTT header and then every SRT line with
 * its stamps rewritten. A file is the sequence of its lines as Python reads
 * them, each with its own line end; the output file is an object whose
 * content the methods write step by step.
 */
module FormatConverter {
  import opened Timecodes

  /** The header `convert_srt_to_vtt` writes before the first line. */
  const VttHeader: string := "WEBVTT\n\n"

  /** The text of the lines written one after the other. */
  function Concat(lines: seq<string>): string {
    if lines == [] then [] else Concat(lines[..|lines| - 1]) + lines[|lines| - 1]
  }

  /** Writing `a` and then `b` writes the text of `a` and then that of `b`. */
  lemma {:induction false} ConcatAppend(a: seq<string>, b: seq<string>)
    decreases |b|
    ensures Concat(a + b) == Concat(a) + Concat(b)
  {
    if b != [] {
      var b' := b[..|b| - 1];
      assert (a + b)[..|a + b| - 1] == a + b';
      ConcatAppend(a, b');
    } else {
      assert a + b == a;
    }
  }

  /** Each line passed through `adjust_timecode_vtt`, in order. */
  function VttLines(lines: seq<string>): seq<string> {
    seq(|lines|, i requires 0 <= i < |lines| => AdjustTimecodeVtt(lines[i]))
  }

  /** Each line passed through the SRT stamp rewrite, in order. */
  function SrtLines(lines: seq<string>): seq<string> {
    seq(|lines|, i requires 0 <= i < |lines| => SrtLineToVtt(lines[i]))
  }

  /** What `process_vtt_file` leaves in the output file. */
  function ProcessedVtt(lines: seq<string>): string {
    Concat(VttLines(lines))
  }

  /** What `convert_srt_to_vtt` leaves in the output file. */
  function ConvertedSrt(lines: seq<string>): string {
    VttHeader + Concat(SrtLines(lines))
  }

  /** An output file opened for writing: its content so far. */
  class OutputFile {
    var content: string

    /** `open(path, "w")` on a new file. */
    constructor()
      ensures content == []
    {
      content := [];
    }

    /** `open(path, "w")` on an existing file drops its content. */
    method Truncate()
      modifies this
      ensures content == []
    {
      content := [];
    }

    /** `file.write(text)` */
    method Write(text: string)
      modifies this
      ensures content == old(content) + text
    {
      content := content + text;
    }
  }

  /** `FileProcessor.process_vtt_file`: the output file ends up holding the
      adjusted lines, in order, and nothing else. */
  method ProcessVttFile(input: seq<string>, out: OutputFile)
    modifies out
    ensures out.content == ProcessedVtt(input)
  {
    out.Truncate();
    var i := 0;
    while i < |input|
      invariant 0 <= i <= |input|
      invariant out.content == Concat(VttLines(input)[..i])
    {
      var line := AdjustTimecodeVtt(input[i]);
      ConcatStep(VttLines(input), i, [], line);
      out.Write(line);
      i := i + 1;
    }
    assert VttLines(input)[..|input|] == VttLines(input);
  }

  /** `FileProcessor.convert_srt_to_vtt`: the output file ends up holding
      the header and then the rewritten lines, in order. */
  method ConvertSrtToVtt(input: seq<string>, out: OutputFile)
    modifies out
    ensures out.content == ConvertedSrt(input)
  {
    out.Truncate();
    out.Write(VttHeader);
    var i := 0;
    while i < |input|
      invariant 0 <= i <= |input|
      invariant out.content == VttHeader + Concat(SrtLines(input)[..i])
    {
      var line := SrtLineToVtt(input[i]);
      ConcatStep(SrtLines(input), i, VttHeader, line);
      out.Write(line);
      i := i + 1;
    }
    assert SrtLines(input)[..|input|] == SrtLines(input);
  }

  /** Writing one more line after `header` and the first `i` lines. */
  lemma {:induction false} ConcatStep(lines: seq<string>, i: nat, header: string, line: string)
    requires i < |lines| && lines[i] == line
    ensures Concat(lines[..i + 1]) == Concat(lines[..i]) + line
    ensures header + Concat(lines[..i + 1]) == header + Concat(lines[..i]) + line
  {
    assert lines[..i + 1][..i] == lines[..i];
  }

  /** An empty SRT file converts to the header alone. */
  lemma {:induction false} ConvertEmpty()
    ensures ConvertedSrt([]) == "WEBVTT\n\n"
  {
    assert SrtLines([]) == [];
  }

  /** Line by line: converting `a + b` is converting `a` and then writing
      the rewritten lines of `b`. */
  lemma {:induction false} ConvertedSrtAppend(a: seq<string>, b: seq<string>)
    ensures ConvertedSrt(a + b) == ConvertedSrt(a) + Concat(SrtLines(b))
  {
    assert SrtLines(a + b) == SrtLines(a) + SrtLines(b);
    ConcatAppend(SrtLines(a), SrtLines(b));
  }

  /** Line by line: processing `a + b` is processing `a` and then `b`; in
      particular the output has one adjusted line per input line, in
      order. */
  lemma {:induction false} ProcessedVttAppend(a: seq<string>, b: seq<string>)
    ensures ProcessedVtt(a + b) == ProcessedVtt(a) + ProcessedVtt(b)
  {
    assert VttLines(a + b) == VttLines(a) + VttLines(b);
    ConcatAppend(VttLines(a), VttLines(b));
  }

  /** Processing keeps the length of the file, since each line keeps its
      length. */
  lemma {:induction false} ProcessedVttLength(lines: seq<string>)
    decreases |lines|
    ensures |ProcessedVtt(lines)| == |Concat(lines)|
  {
    if lines != [] {
      var init := lines[..|lines| - 1];
      ProcessedVttLength(init);
      assert VttLines(lines)[..|lines| - 1] == VttLines(init);
    }
  }

  /** Conversion adds the eight characters of the header and keeps the
      length of everything else. */
  lemma {:induction false} ConvertedSrtLength(lines: seq<string>)
    decreases |lines|
    ensures |ConvertedSrt(lines)| == 8 + |Concat(lines)|
  {
    if lines != [] {
      var init := lines[..|lines| - 1];
      ConvertedSrtLength(init);
      assert SrtLines(lines)[..|lines| - 1] == SrtLines(init);
    }
  }

  /** Processing an already processed file changes nothing. */
  lemma {:induction false} VttLinesIdempotent(lines: seq<string>)
    ensures VttLines(VttLines(lines)) == VttLines(lines)
  {
    forall i | 0 <= i < |lines| ensures VttLines(VttLines(lines))[i] == VttLines(lines)[i] {
      AdjustIdempotent(lines[i]);
    }
  }
}
