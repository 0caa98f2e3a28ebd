/**
 * The batch driver of the application: `process_files`, which selects the
 * input files, names an output file for each and counts how many were
 * processed and how many failed, and the `is_processing` flag that keeps a
 * second batch from starting while one runs.
 */
module Batch {
  import opened Wrappers
  import opened Strings
  import opened Naming

  /** One file of the batch: where it is read and where its result goes. */
  datatype Job = Job(input: Path, output: Path)

  /** How `process_files` ends: the notice that no file matched, or the
      completion message with its two counts. */
  datatype Summary = NoMatchingFiles | Complete(processed: nat, failed: nat)

  /** The job of the file at position `i` (counted from 0) of the batch. */
  function JobFor(choice: Choice, inputDir: string, outputDir: string, files: seq<string>,
                  opts: NamingOptions, answers: seq<Option<string>>, i: nat): (job: Job)
    requires i < |files| && i < |answers|
    ensures job.input == Join(inputDir, files[i])
    ensures job.output.dir == outputDir && EndsWith(job.output.name, ".vtt")
  {
    Job(Join(inputDir, files[i]), RenameFile(outputDir, BaseName(choice, files[i]), i + 1, opts, answers[i]))
  }

  /** The jobs of a batch, one per selected file, in order. */
  function Jobs(choice: Choice, inputDir: string, outputDir: string, files: seq<string>,
                opts: NamingOptions, answers: seq<Option<string>>): (jobs: seq<Job>)
    requires |answers| == |files|
    ensures |jobs| == |files|
    ensures forall i :: 0 <= i < |jobs| ==> jobs[i].input == Join(inputDir, files[i]) && jobs[i].output.dir == outputDir
  {
    seq(|files|, i requires 0 <= i < |files| => JobFor(choice, inputDir, outputDir, files, opts, answers, i))
  }

  /** `process_files`. The directory listing, the answers to the rename
      prompt (one per selected file) and the success of each file's
      transform (one per selected file) come from outside. */
  method ProcessFiles(choice: Choice, inputDir: string, outputDir: string, listing: seq<string>,
                      opts: NamingOptions, answers: seq<Option<string>>, outcomes: seq<bool>)
    returns (jobs: seq<Job>, summary: Summary)
    requires |answers| == |SelectFiles(listing, choice)| && |outcomes| == |SelectFiles(listing, choice)|
    ensures SelectFiles(listing, choice) == [] ==> jobs == [] && summary == NoMatchingFiles
    ensures SelectFiles(listing, choice) != [] ==>
      summary == Complete(multiset(outcomes)[true], multiset(outcomes)[false])
    ensures summary.Complete? ==> summary.processed + summary.failed == |SelectFiles(listing, choice)|
    ensures jobs == Jobs(choice, inputDir, outputDir, SelectFiles(listing, choice), opts, answers)
  {
    var files := SelectFiles(listing, choice);
    if |files| == 0 {
      return [], NoMatchingFiles;
    }
    var processed, failed;
    jobs, processed, failed := ProcessSelected(choice, inputDir, outputDir, files, opts, answers, outcomes);
    summary := Complete(processed, failed);
    CountsAddUp(outcomes);
  }

  /** The loop of `process_files` over the selected files, numbered from 1:
      one job per file, in order, and the count of files whose transform
      succeeded and of those whose transform failed. */
  method ProcessSelected(choice: Choice, inputDir: string, outputDir: string, files: seq<string>,
                         opts: NamingOptions, answers: seq<Option<string>>, outcomes: seq<bool>)
    returns (jobs: seq<Job>, processed: nat, failed: nat)
    requires |answers| == |files| && |outcomes| == |files|
    ensures processed == multiset(outcomes)[true] && failed == multiset(outcomes)[false]
    ensures jobs == Jobs(choice, inputDir, outputDir, files, opts, answers)
  {
    processed, failed := 0, 0;
    jobs := [];
    var k := 0;
    while k < |files|
      invariant 0 <= k <= |files|
      invariant processed == multiset(outcomes[..k])[true]
      invariant failed == multiset(outcomes[..k])[false]
      invariant jobs == Jobs(choice, inputDir, outputDir, files, opts, answers)[..k]
    {
      var inputPath := Join(inputDir, files[k]);
      var baseName := BaseName(choice, files[k]);
      var outputPath := RenameFile(outputDir, baseName, k + 1, opts, answers[k]);
      JobsStep(Jobs(choice, inputDir, outputDir, files, opts, answers), k, Job(inputPath, outputPath));
      jobs := jobs + [Job(inputPath, outputPath)];
      CountStep(outcomes, k);
      if outcomes[k] {
        processed := processed + 1;
      } else {
        failed := failed + 1;
      }
      k := k + 1;
    }
    assert outcomes[..k] == outcomes;
    assert Jobs(choice, inputDir, outputDir, files, opts, answers)[..k] == Jobs(choice, inputDir, outputDir, files, opts, answers);
  }

  /** Taking one more job of the batch appends it. */
  lemma {:induction false} JobsStep(all: seq<Job>, k: nat, job: Job)
    requires k < |all| && all[k] == job
    ensures all[..k + 1] == all[..k] + [job]
  {
  }

  /** Under sequential numbering and under the default scheme every file of
      a batch gets its own output path; only the rename prompt can make two
      files collide (`RenameCollision`). */
  lemma {:induction false} OutputsDistinct(choice: Choice, inputDir: string, outputDir: string, files: seq<string>,
                                           opts: NamingOptions, answers: seq<Option<string>>, i: nat, j: nat)
    requires opts.sequential || !opts.rename
    requires i < |files| && j < |files| && i < |answers| && j < |answers| && i != j
    ensures JobFor(choice, inputDir, outputDir, files, opts, answers, i).output
         != JobFor(choice, inputDir, outputDir, files, opts, answers, j).output
  {
    var b1, b2 := BaseName(choice, files[i]), BaseName(choice, files[j]);
    JobOutput(choice, inputDir, outputDir, files, opts, answers, i);
    JobOutput(choice, inputDir, outputDir, files, opts, answers, j);
    if opts.sequential {
      SequentialNamesDiffer(opts, b1, b2, i + 1, j + 1, answers[i], answers[j]);
    } else {
      DefaultNamesDiffer(opts, b1, b2, i + 1, j + 1, answers[i], answers[j]);
    }
  }

  /** The output path of a job is the output directory joined with the
      name `rename_file` gives the file's base name at its 1-based index. */
  lemma {:induction false} JobOutput(choice: Choice, inputDir: string, outputDir: string, files: seq<string>,
                                     opts: NamingOptions, answers: seq<Option<string>>, i: nat)
    requires i < |files| && i < |answers|
    ensures JobFor(choice, inputDir, outputDir, files, opts, answers, i).output
         == Join(outputDir, OutputName(opts, BaseName(choice, files[i]), i + 1, answers[i]))
  {
  }

  /** With the rename box set and blank answers, `a.mp4.vtt` and `a.vtt`
      both get base name `a` and so the same output path `a.vtt`: the
      second file overwrites the first. */
  lemma {:induction false} RenameCollision(inputDir: string, outputDir: string)
    ensures var files, answers := ["a.mp4.vtt", "a.vtt"], [None, None];
      var opts := NamingOptions(false, "", true);
      JobFor(Vtt, inputDir, outputDir, files, opts, answers, 0).output
        == JobFor(Vtt, inputDir, outputDir, files, opts, answers, 1).output
        == Join(outputDir, "a.vtt")
  {
    var b := "a";
    assert (b + ".mp4.vtt")[0] == 'a';
    BaseNameMp4Vtt(b);
    assert (b + ".vtt")[0] == 'a';
    forall i ensures !OccursAt(b + ".vtt", i, ".mp4.vtt") {
    }
    BaseNameVtt(b);
    assert b + ".mp4.vtt" == "a.mp4.vtt" && b + ".vtt" == "a.vtt";
    var opts := NamingOptions(false, "", true);
    RenameBlankAnswer(opts, b, 1, None);
    RenameBlankAnswer(opts, b, 2, None);
  }

  /** Counting one more outcome adds one to its own count and nothing to
      the other. */
  lemma {:induction false} CountStep(outcomes: seq<bool>, k: nat)
    requires k < |outcomes|
    ensures multiset(outcomes[..k + 1])[outcomes[k]] == multiset(outcomes[..k])[outcomes[k]] + 1
    ensures multiset(outcomes[..k + 1])[!outcomes[k]] == multiset(outcomes[..k])[!outcomes[k]]
  {
    assert outcomes[..k + 1] == outcomes[..k] + [outcomes[k]];
  }

  /** Every outcome is counted once: the two counts add up to the number of
      files. */
  lemma {:induction false} CountsAddUp(outcomes: seq<bool>)
    decreases |outcomes|
    ensures multiset(outcomes)[true] + multiset(outcomes)[false] == |outcomes|
  {
    if outcomes != [] {
      var init := outcomes[..|outcomes| - 1];
      CountsAddUp(init);
      assert outcomes == init + [outcomes[|outcomes| - 1]];
      assert multiset(outcomes) == multiset(init) + multiset{outcomes[|outcomes| - 1]};
      if outcomes[|outcomes| - 1] {
        assert multiset(outcomes)[true] == multiset(init)[true] + 1;
      } else {
        assert multiset(outcomes)[false] == multiset(init)[false] + 1;
      }
    }
  }

  /** The application object, reduced to the flag that guards a batch. */
  class App {
    var isProcessing: bool

    constructor()
      ensures !isProcessing
    {
      isProcessing := false;
    }

    /** `start_processing`: refused while a batch runs (nothing changes);
        otherwise a batch starts exactly when both directories are given,
        the input is an existing directory and `outputReady` holds: the
        output path exists, or creating it succeeded. */
    method StartProcessing(inputDir: string, outputDir: string, inputIsDir: bool, outputReady: bool)
      returns (started: bool)
      modifies this
      ensures old(isProcessing) ==> !started && isProcessing
      ensures !old(isProcessing) ==>
        started == (inputDir != [] && outputDir != [] && inputIsDir && outputReady)
      ensures isProcessing == (old(isProcessing) || started)
    {
      if isProcessing {
        return false;
      }
      if inputDir == [] || outputDir == [] {
        return false;
      }
      if !inputIsDir {
        return false;
      }
      if !outputReady {
        return false;
      }
      isProcessing := true;
      started := true;
    }

    /** `processing_complete`: the flag is down again. */
    method ProcessingComplete()
      modifies this
      ensures !isProcessing
    {
      isProcessing := false;
    }
  }
}
