/**
 * How the batch picks its input files and names its output files: the
 * case-insensitive extension filter over the directory listing, the base
 * name left by `str.replace`, and `rename_file`'s three naming schemes.
 */
module Naming {
  import opened Wrappers
  import opened Strings

  /** The kind of batch the user chose: adjust WebVTT files or convert SRT
      files. */
  datatype Choice = Vtt | Srt

  function Extension(choice: Choice): string {
    match choice
    case Vtt => ".vtt"
    case Srt => ".srt"
  }

  /** `f.lower().endswith(ext)` */
  predicate Selected(name: string, choice: Choice) {
    EndsWith(Lower(name), Extension(choice))
  }

  /** The list comprehension over `os.listdir`: the selected names, in
      listing order. */
  function SelectFiles(listing: seq<string>, choice: Choice): seq<string> {
    if listing == [] then []
    else (if Selected(listing[0], choice) then [listing[0]] else []) + SelectFiles(listing[1..], choice)
  }

  /** A name is selected exactly when it is in the listing and its lower
      case ends with the extension. */
  lemma {:induction false} SelectFilesMembers(listing: seq<string>, choice: Choice)
    decreases |listing|
    ensures forall f :: f in SelectFiles(listing, choice) <==> f in listing && Selected(f, choice)
  {
    if listing != [] {
      SelectFilesMembers(listing[1..], choice);
      assert listing == [listing[0]] + listing[1..];
    }
  }

  /** Selection keeps the listing order: selecting from `a + b` selects
      from `a` and then from `b`. */
  lemma {:induction false} SelectFilesAppend(a: seq<string>, b: seq<string>, choice: Choice)
    decreases |a|
    ensures SelectFiles(a + b, choice) == SelectFiles(a, choice) + SelectFiles(b, choice)
  {
    if a != [] {
      var rest := a[1..];
      assert (a + b)[0] == a[0] && (a + b)[1..] == rest + b;
      SelectFilesAppend(rest, b, choice);
      var h := if Selected(a[0], choice) then [a[0]] else [];
      assert SelectFiles(a + b, choice) == h + SelectFiles(rest + b, choice);
      assert SelectFiles(a, choice) == h + SelectFiles(rest, choice);
    } else {
      assert a + b == b;
    }
  }

  /** The name with the extension removed, as the batch loop computes it:
      every `.mp4.vtt` and then every `.vtt` removed, or every `.srt`. */
  function BaseName(choice: Choice, name: string): (b: string)
    ensures |b| <= |name|
  {
    match choice
    case Vtt => ReplaceAll(ReplaceAll(name, ".mp4.vtt", ""), ".vtt", "")
    case Srt => ReplaceAll(name, ".srt", "")
  }

  /** A name whose only `.srt` is its suffix loses exactly that suffix. */
  lemma {:induction false} BaseNameSrt(b: string)
    requires forall i :: 0 <= i < |b| ==> !OccursAt(b + ".srt", i, ".srt")
    ensures BaseName(Srt, b + ".srt") == b
  {
    RemoveOnlySuffix(b, ".srt");
  }

  /** `show.mp4.vtt` style: a name whose only `.mp4.vtt` is its suffix and
      that has no other `.vtt` loses exactly that suffix. */
  lemma {:induction false} BaseNameMp4Vtt(b: string)
    requires forall i :: 0 <= i < |b| ==> !OccursAt(b + ".mp4.vtt", i, ".mp4.vtt")
    requires forall i :: !OccursAt(b, i, ".vtt")
    ensures BaseName(Vtt, b + ".mp4.vtt") == b
  {
    RemoveOnlySuffix(b, ".mp4.vtt");
    ReplaceAllAbsent(b, ".vtt", "");
  }

  /** A name without `.mp4.vtt` whose only `.vtt` is its suffix loses
      exactly that suffix. */
  lemma {:induction false} BaseNameVtt(b: string)
    requires forall i :: !OccursAt(b + ".vtt", i, ".mp4.vtt")
    requires forall i :: 0 <= i < |b| ==> !OccursAt(b + ".vtt", i, ".vtt")
    ensures BaseName(Vtt, b + ".vtt") == b
  {
    ReplaceAllAbsent(b + ".vtt", ".mp4.vtt", "");
    RemoveOnlySuffix(b, ".vtt");
  }

  /** The replacement is case-sensitive: a name without a lower-case
      `.vtt` (such as `SHOW.VTT`, which the filter does select) keeps its
      extension in the base name. */
  lemma {:induction false} BaseNameKeepsUpperCase(name: string)
    requires forall i :: !OccursAt(name, i, ".vtt")
    ensures BaseName(Vtt, name) == name
  {
    forall i ensures !OccursAt(name, i, ".mp4.vtt") {
      if OccursAt(name, i, ".mp4.vtt") {
        assert name[i + 4..i + 8] == ".mp4.vtt"[4..];
        assert OccursAt(name, i + 4, ".vtt");
      }
    }
    ReplaceAllAbsent(name, ".mp4.vtt", "");
    ReplaceAllAbsent(name, ".vtt", "");
  }

  /** The three check boxes and the prefix field that decide the naming. */
  datatype NamingOptions = NamingOptions(sequential: bool, prefix: string, rename: bool)

  /** `os.path.join(directory, name)`, kept abstract. */
  datatype Path = Join(dir: string, name: string)

  /** The file-name part of `rename_file`'s result; `answer` is what the
      rename prompt returned (None when it was cancelled). */
  function OutputName(opts: NamingOptions, fileName: string, index: nat, answer: Option<string>): (n: string)
    ensures EndsWith(n, ".vtt")
  {
    if opts.sequential then
      var prefix := Strip(opts.prefix);
      var newName := if prefix != [] then prefix + NatToString(index) else NatToString(index);
      newName + ".vtt"
    else if opts.rename then
      var newName :=
        if answer.None? || Strip(answer.value) == [] then fileName
        else Strip(answer.value) + "_" + NatToString(index);
      newName + ".vtt"
    else
      fileName + "_" + NatToString(index) + ".vtt"
  }

  /** `rename_file` */
  function RenameFile(outputDir: string, fileName: string, index: nat, opts: NamingOptions, answer: Option<string>): (p: Path)
    ensures p.dir == outputDir && EndsWith(p.name, ".vtt")
  {
    Join(outputDir, OutputName(opts, fileName, index, answer))
  }

  /** Sequential numbering wins over everything else and gives the
      stripped prefix followed by the index; the prompt answer, the
      rename box and the original name play no part. */
  lemma {:induction false} SequentialName(opts: NamingOptions, fileName: string, index: nat, answer: Option<string>)
    requires opts.sequential
    ensures OutputName(opts, fileName, index, answer) == Strip(opts.prefix) + NatToString(index) + ".vtt"
  {
    var p, n := Strip(opts.prefix), NatToString(index);
    if p == [] {
      assert p + n == n;
    }
  }

  /** With the rename box and no sequential numbering, a cancelled or
      blank answer keeps the original name, without an index. */
  lemma {:induction false} RenameBlankAnswer(opts: NamingOptions, fileName: string, index: nat, answer: Option<string>)
    requires !opts.sequential && opts.rename
    requires answer.None? || IsBlank(answer.value)
    ensures OutputName(opts, fileName, index, answer) == fileName + ".vtt"
  {
  }

  /** ... and any other answer gives the stripped answer, `_` and the
      index. */
  lemma {:induction false} RenameGivenAnswer(opts: NamingOptions, fileName: string, index: nat, answer: string)
    requires !opts.sequential && opts.rename && !IsBlank(answer)
    ensures OutputName(opts, fileName, index, Some(answer)) == Strip(answer) + "_" + NatToString(index) + ".vtt"
  {
  }

  /** Numbers written between the same text on both sides give names that
      differ when the numbers do. */
  lemma {:induction false} IndexedNamesDiffer(before: string, i: nat, j: nat, after: string)
    requires i != j
    ensures before + NatToString(i) + after != before + NatToString(j) + after
  {
    var x, y := NatToString(i), NatToString(j);
    var a, b := before + x + after, before + y + after;
    if |x| == |y| {
      assert DecimalValue(x) != DecimalValue(y);
      assert a[|before|..|before| + |x|] == x;
      assert b[|before|..|before| + |y|] == y;
    } else {
      assert |a| != |b|;
    }
  }

  /** Sequential numbering gives every file of a batch its own name. */
  lemma {:induction false} SequentialNamesDiffer(opts: NamingOptions, f1: string, f2: string, i: nat, j: nat, a1: Option<string>, a2: Option<string>)
    requires opts.sequential && i != j
    ensures OutputName(opts, f1, i, a1) != OutputName(opts, f2, j, a2)
  {
    SequentialName(opts, f1, i, a1);
    SequentialName(opts, f2, j, a2);
    IndexedNamesDiffer(Strip(opts.prefix), i, j, ".vtt");
  }

  /** A name, `_` and a number, followed by the same text: two different
      numbers give different results whatever the names, since the number
      is the digits after the last `_`. */
  lemma {:induction false} SeparatedIndexDiffer(x: string, y: string, i: nat, j: nat, after: string)
    requires i != j
    ensures x + "_" + NatToString(i) + after != y + "_" + NatToString(j) + after
  {
    var si, sj := NatToString(i), NatToString(j);
    var a, b := x + "_" + si + after, y + "_" + sj + after;
    if |si| == |sj| {
      if |x| == |y| {
        assert DecimalValue(si) != DecimalValue(sj);
        assert a[|x| + 1..|x| + 1 + |si|] == si;
        assert b[|y| + 1..|y| + 1 + |sj|] == sj;
      } else {
        assert |a| != |b|;
      }
    } else if |a| == |b| {
      if |si| < |sj| {
        assert a[|x|] == '_';
        assert b[|x|] == sj[|x| - |y| - 1];
      } else {
        assert b[|y|] == '_';
        assert a[|y|] == si[|y| - |x| - 1];
      }
    }
  }

  /** The default scheme never gives two files of a batch the same name,
      whatever their base names. */
  lemma {:induction false} DefaultNamesDiffer(opts: NamingOptions, f1: string, f2: string, i: nat, j: nat, a1: Option<string>, a2: Option<string>)
    requires !opts.sequential && !opts.rename && i != j
    ensures OutputName(opts, f1, i, a1) != OutputName(opts, f2, j, a2)
  {
    SeparatedIndexDiffer(f1, f2, i, j, ".vtt");
  }

  /** Prefix `ep`, files 1 to 3: `ep1.vtt`, `ep2.vtt`, `ep3.vtt`, whatever
      the file names and the prompt answers. */
  lemma SequentialExample(f1: string, f2: string, f3: string, a1: Option<string>, a2: Option<string>, a3: Option<string>)
    ensures OutputName(NamingOptions(true, "ep", false), f1, 1, a1) == "ep1.vtt"
    ensures OutputName(NamingOptions(true, "ep", false), f2, 2, a2) == "ep2.vtt"
    ensures OutputName(NamingOptions(true, "ep", false), f3, 3, a3) == "ep3.vtt"
  {
    var opts := NamingOptions(true, "ep", false);
    assert SkipSpaces("ep", 0) == 0;
    assert TrimSpaces("ep", 0, 2) == 2;
    assert Strip("ep") == "ep";
    assert NatToString(1) == "1";
    assert NatToString(2) == "2";
    assert NatToString(3) == "3";
    SequentialName(opts, f1, 1, a1);
    SequentialName(opts, f2, 2, a2);
    SequentialName(opts, f3, 3, a3);
  }

  /** Default naming: `movie` as file 2 becomes `movie_2.vtt`. */
  lemma DefaultExample(prefix: string, answer: Option<string>)
    ensures OutputName(NamingOptions(false, prefix, false), "movie", 2, answer) == "movie_2.vtt"
  {
  }

  /** `SHOW.VTT` is selected for a WebVTT batch. */
  lemma UpperCaseExample()
    ensures Selected("SHOW.VTT", Vtt)
  {
    assert Lower("SHOW.VTT")[4..] == ".vtt";
  }

  /** ... and keeps `.VTT` in its base name. */
  lemma UpperCaseBaseExample()
    ensures BaseName(Vtt, "SHOW.VTT") == "SHOW.VTT"
  {
    var n := "SHOW.VTT";
    forall i ensures !OccursAt(n, i, ".vtt") {
      if 0 <= i && i + 4 <= |n| {
        assert n[i + 1] != 'v';
      }
    }
    BaseNameKeepsUpperCase(n);
  }

  /** `show.mp4.vtt` has base name `show`. */
  lemma Mp4Example()
    ensures BaseName(Vtt, "show" + ".mp4.vtt") == "show"
  {
    var b := "show";
    forall i | 0 <= i < |b| ensures !OccursAt(b + ".mp4.vtt", i, ".mp4.vtt") {
      assert (b + ".mp4.vtt")[i] == b[i] != '.';
    }
    forall i ensures !OccursAt(b, i, ".vtt") {
      if 0 <= i && i + 4 <= |b| {
        assert b[i] != '.';
      }
    }
    BaseNameMp4Vtt(b);
  }
}
