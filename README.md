# VTT timecode processor — a verified model

The system is `vtt_processor.py`, a desktop tool for subtitle files. It does two jobs:

- It rewrites WebVTT files so that every cue timing range has its hours set to `00`.
- It converts SRT files to WebVTT: it writes the `WEBVTT` header and then turns the comma of every `HH:MM:SS,mmm` stamp into a period.

It works on a whole directory at a time. It picks the input files by a case-insensitive extension test, names each output file in one of three ways (sequential numbers, a name typed at a prompt, or `name_index`), and counts the files that succeeded and failed. A flag keeps a second batch from starting while one runs.

This project models that core in Dafny, module by module:

| module | file | what it holds |
|---|---|---|
| `Wrappers` | `wrappers.dfy` | `Option` |
| `Strings` | `strings.dfy` | the parts of Python's `str` the tool uses, on ASCII: `isspace`, `lower`, `endswith`, `strip`, `replace`, `str(int)` |
| `Scanner` | `scanner.dfy` | a fixed-width pattern matcher standing in for `re`: `Search` is `re.search` (leftmost match), `Hits` lists the non-overlapping matches `re.sub` visits, and `Sub` is `re.sub` with a fixed template or a per-match callback |
| `ScanFacts` | `scan_facts.dfy` | what the matcher guarantees: leftmost search, every match covered, position-by-position effect of `Sub`, and idempotence of a fixed-template `Sub` |
| `Timecodes` | `timecode.dfy` | the two patterns, `adjust_timecode_vtt` and the SRT stamp rewrite |
| `FormatConverter` | `converter.dfy` | `process_vtt_file` and `convert_srt_to_vtt`: loops that write an `OutputFile` object line by line, each proved equal to a specification function |
| `Naming` | `naming.dfy` | the file filter, the base name that `str.replace` leaves, and `rename_file` |
| `Batch` | `batch.dfy` | the loop of `process_files` and the `is_processing` flag of the application object |

`adjust_timecode_vtt` is modelled as written. It builds its template from the first range on the line, with both hours set to `00`. It then substitutes that one template at every range. So a line with two ranges ends up holding two copies of the first range (`AdjustTwoRanges`).

## Model

| member | source | states |
|---|---|---|
| `Strings.Lower` | vtt_processor.py:343 | `lower` keeps the length and maps each character to its lower-case form |
| `Strings.Strip` | vtt_processor.py:248 | `strip` never lengthens its input; a non-empty result starts and ends with a non-whitespace character; the result is empty exactly when the input is blank |
| `Strings.StripSpec` | vtt_processor.py:248 | `strip` returns the slice of `s` from the first to the last non-whitespace character; everything outside it is whitespace; it is empty exactly when `s` is blank |
| `Strings.ReplaceAll` | vtt_processor.py:371 | `replace` never lengthens its input when the replacement is no longer than the target |
| `Strings.ReplaceAllAbsent` | vtt_processor.py:371 | `replace` returns its input when the target does not occur in it |
| `Strings.RemoveOnlySuffix` | vtt_processor.py:406 | when the target occurs only as the suffix, `replace(target, "")` removes exactly that suffix |
| `Strings.NatToString` | vtt_processor.py:250-252 | `str(index)` is non-empty, all decimal digits, has no leading zero and denotes `index` |
| `Scanner.Search` | vtt_processor.py:41 | a found position is at or after the start and the pattern matches there |
| `Scanner.Hits` | vtt_processor.py:45 | the positions `sub` rewrites are increasing, do not overlap and lie inside the line |
| `Scanner.Sub` | vtt_processor.py:45 | substituting a same-width text keeps the length of the line |
| `ScanFacts.MatchesAtPointwise` | vtt_processor.py:22-25 | a pattern matches at `i` exactly when every character of the window fits its slot |
| `ScanFacts.SearchLeftmost` | vtt_processor.py:41 | `search` finds the leftmost match; when it finds none, there is no match at all |
| `ScanFacts.HitIsMatch` | vtt_processor.py:45 | every position `sub` rewrites holds a match |
| `ScanFacts.HitsCoverEveryMatch` | vtt_processor.py:45 | every match lies inside, or overlaps, a rewritten window |
| `ScanFacts.SubAtHit` | vtt_processor.py:45 | inside a rewritten window, the result is the replacement of that window's text |
| `ScanFacts.SubOutsideHits` | vtt_processor.py:45 | outside the rewritten windows, every character is kept |
| `ScanFacts.SubNoMatch` | vtt_processor.py:45 | without a match, `sub` returns its input |
| `ScanFacts.OneHit` | vtt_processor.py:45 | a text that is exactly one match is rewritten at position 0 only |
| `ScanFacts.TwoHits` | vtt_processor.py:41-45 | two matches separated by text that starts no match: `search` finds the first and `sub` rewrites both |
| `ScanFacts.SubTwoHits` | vtt_processor.py:45 | in that case `sub` replaces both matches and keeps the separator |
| `ScanFacts.SameShapeSameMatches` | vtt_processor.py:22-25 | two texts alike in where their digits are, and in their other characters, match the pattern at the same positions |
| `ScanFacts.SubFixedKeepsShape` | vtt_processor.py:45 | substituting a template the pattern matches keeps where the line's digits are, and its other characters |
| `ScanFacts.SubFixedIdempotent` | vtt_processor.py:45 | substituting such a template a second time changes nothing |
| `Timecodes.Stamp` | vtt_processor.py:22-25 | a stamp pattern is 12 characters wide |
| `Timecodes.PatternsWellFormed` | vtt_processor.py:22-25 | the range pattern is 29 wide and the SRT pattern 12, and neither has a digit among its literal characters |
| `Timecodes.ZeroHours` | vtt_processor.py:43-44 | the template built from a 29-character range is 29 characters |
| `Timecodes.ZeroHoursSpec` | vtt_processor.py:43-44 | for a matched range, the template equals the range with both hour fields replaced by `00` |
| `Timecodes.ZeroHoursMatches` | vtt_processor.py:43-45 | the template is itself matched by the range pattern |
| `Timecodes.ZeroHoursIdempotent` | vtt_processor.py:43-44 | building the template from a template gives it back |
| `Timecodes.AdjustTimecodeVtt` | vtt_processor.py:41-46 | the adjusted line has the length of the input line |
| `Timecodes.AdjustWithoutRange` | vtt_processor.py:41-46 | a line with no range comes back unchanged |
| `Timecodes.AdjustAtRange` | vtt_processor.py:41-45 | every range the substitution visits now holds the first range with its hours zeroed |
| `Timecodes.AdjustOutsideRanges` | vtt_processor.py:45 | every character outside the visited ranges is kept |
| `Timecodes.AdjustSingleRange` | vtt_processor.py:41-45 | on a line with a single range, only its four hour digits change, each to `0` |
| `Timecodes.AdjustRangeAlone` | vtt_processor.py:41-45 | a line that is one range gets `00` for both hours |
| `Timecodes.AdjustTwoRanges` | vtt_processor.py:41-45 | two ranges separated by a space both become the zeroed first range |
| `Timecodes.AdjustIdempotent` | vtt_processor.py:41-46 | adjusting an adjusted line changes nothing |
| `Timecodes.PeriodForComma` | vtt_processor.py:67 | the match callback keeps the length of the match; for a 12-character match the result has `:` at positions 2 and 5 and `.` at position 8 |
| `Timecodes.PeriodForCommaSpec` | vtt_processor.py:67 | the match callback replaces the comma of a matched stamp with a period and keeps the other eleven characters |
| `Timecodes.SrtLineToVtt` | vtt_processor.py:67 | the SRT rewrite keeps the length of the line |
| `Timecodes.SrtAtStamp` | vtt_processor.py:67 | inside a rewritten stamp, the comma position holds `.` and every other position is kept |
| `Timecodes.SrtOutsideStamps` | vtt_processor.py:67 | outside the stamps every character is kept |
| `Timecodes.SrtOnlyCommas` | vtt_processor.py:67 | every character is kept or is a comma turned into a period |
| `Timecodes.SrtWithoutStamp` | vtt_processor.py:67 | a line without a stamp is kept |
| `Timecodes.NoStampInArrow` | vtt_processor.py:25 | no stamp starts inside the ` --> ` of a cue timing line |
| `Timecodes.SrtCueLine` | vtt_processor.py:67 | in `t1 --> t2`, both stamps get a period for their comma and nothing else changes |
| `FormatConverter.ConcatAppend` | vtt_processor.py:65-68 | writing the lines of `a` and then of `b` writes their texts in that order |
| `FormatConverter.OutputFile.constructor` | vtt_processor.py:62 | a freshly opened output file is empty |
| `FormatConverter.OutputFile.Truncate` | vtt_processor.py:89 | opening for writing empties the file |
| `FormatConverter.OutputFile.Write` | vtt_processor.py:68 | `write` appends its text to the content |
| `FormatConverter.ProcessVttFile` | vtt_processor.py:87-91 | the output file holds the adjusted input lines, in order, and nothing else |
| `FormatConverter.ConvertSrtToVtt` | vtt_processor.py:60-68 | the output file holds `WEBVTT\n\n` and then the rewritten input lines, in order |
| `FormatConverter.ConvertEmpty` | vtt_processor.py:64-68 | an empty SRT file converts to exactly `WEBVTT\n\n` |
| `FormatConverter.ConvertedSrtAppend` | vtt_processor.py:64-68 | conversion works line by line: converting `a + b` is converting `a` and then writing the rewritten lines of `b` |
| `FormatConverter.ProcessedVttAppend` | vtt_processor.py:88-91 | processing works line by line: processing `a + b` is processing `a` and then `b` |
| `FormatConverter.ProcessedVttLength` | vtt_processor.py:88-91 | a processed file has the length of its input |
| `FormatConverter.ConvertedSrtLength` | vtt_processor.py:64-68 | a converted file is its input's length plus the 8 characters of the header |
| `FormatConverter.VttLinesIdempotent` | vtt_processor.py:88-91 | processing a processed file changes no line |
| `Naming.SelectFilesMembers` | vtt_processor.py:342-345 | for the list comprehension `SelectFiles` and its filter `Selected`: a name is selected exactly when it is listed and its lower-case form ends with the extension |
| `Naming.SelectFilesAppend` | vtt_processor.py:342-345 | selection keeps the listing order |
| `Naming.BaseName` | vtt_processor.py:402-406 | the base name left by the `replace` calls is never longer than the file name |
| `Naming.BaseNameSrt` | vtt_processor.py:406 | `x.srt` with no other `.srt` has base name `x` |
| `Naming.BaseNameMp4Vtt` | vtt_processor.py:371 | `x.mp4.vtt`, with no other `.mp4.vtt` and no `.vtt` in `x`, has base name `x` |
| `Naming.BaseNameVtt` | vtt_processor.py:402 | `x.vtt` with no `.mp4.vtt` and no other `.vtt` has base name `x` |
| `Naming.BaseNameKeepsUpperCase` | vtt_processor.py:371 | a name without a lower-case `.vtt` is its own base name, although the filter selects `X.VTT` |
| `Naming.RenameFile` | vtt_processor.py:231-271 | the result lies in the output directory and its name ends with `.vtt` |
| `Naming.OutputName` | vtt_processor.py:246-271 | every naming scheme gives a name ending with `.vtt` |
| `Naming.SequentialName` | vtt_processor.py:246-253 | sequential numbering wins and gives the stripped prefix, the index and `.vtt`, or `index.vtt` when the prefix is blank |
| `Naming.RenameBlankAnswer` | vtt_processor.py:256-267 | with the rename box set, a cancelled or blank answer gives the base name and `.vtt`, without an index |
| `Naming.RenameGivenAnswer` | vtt_processor.py:262-265 | any other answer gives the stripped answer, `_`, the index and `.vtt` |
| `Naming.IndexedNamesDiffer` | vtt_processor.py:249-252 | the same text around two different indices gives two different names |
| `Naming.SequentialNamesDiffer` | vtt_processor.py:246-253 | sequential numbering gives every index its own name |
| `Naming.SeparatedIndexDiffer` | vtt_processor.py:270-271 | `x_i` and `y_j` with `i != j` differ, whatever `x` and `y` are |
| `Naming.DefaultNamesDiffer` | vtt_processor.py:270-271 | the default scheme gives every index its own name |
| `Naming.SequentialExample` | vtt_processor.py:246-253 | prefix `ep` with indices 1, 2 and 3 gives `ep1.vtt`, `ep2.vtt` and `ep3.vtt`, whatever the file names and answers |
| `Naming.DefaultExample` | vtt_processor.py:270-271 | `movie` with index 2 gives `movie_2.vtt` |
| `Naming.UpperCaseExample` | vtt_processor.py:343 | `SHOW.VTT` is selected for a WebVTT batch |
| `Naming.UpperCaseBaseExample` | vtt_processor.py:371 | ... and its base name is `SHOW.VTT` |
| `Naming.Mp4Example` | vtt_processor.py:371 | `show.mp4.vtt` has base name `show` |
| `Batch.JobFor` | vtt_processor.py:397-407 | the job of a file reads the input directory joined with the file name and writes into the output directory, under a name ending with `.vtt` |
| `Batch.Jobs` | vtt_processor.py:366-372 | a batch has one job per selected file, each reading that file from the input directory and writing into the output directory |
| `Batch.ProcessFiles` | vtt_processor.py:342-419 | with no selected file, nothing is done and the notice is given; otherwise there is one job per selected file, in order, and the counts are the numbers of true and false outcomes, which add up to the number of files |
| `Batch.ProcessSelected` | vtt_processor.py:357-413 | the loop makes one job per file, numbered from 1, with the input path, the base name and `rename_file`, and counts the true and the false outcomes |
| `Batch.OutputsDistinct` | vtt_processor.py:246-271 | with sequential numbering, or with the default scheme, no two files of a batch get the same output path |
| `Batch.RenameCollision` | vtt_processor.py:256-267 | with the rename box set and blank answers, `a.mp4.vtt` (file 1) and `a.vtt` (file 2) both get the output path `a.vtt`, so the rename scheme does not keep outputs apart |
| `Batch.CountsAddUp` | vtt_processor.py:410-413 | the two counts add up to the number of outcomes |
| `Batch.App.constructor` | vtt_processor.py:102-111 | the application starts with no batch running |
| `Batch.App.StartProcessing` | vtt_processor.py:273-297 | while a batch runs, the call does nothing; otherwise a batch starts exactly when both directories are given, the input directory exists and `outputReady` holds (the output path exists, or `os.makedirs` succeeded); the flag is set exactly then |
| `Batch.App.ProcessingComplete` | vtt_processor.py:326-330 | the flag is lowered |

## Left out

- The tkinter interface is not modelled: widgets, dialogs, message boxes, the progress bar and the `after` calls. The batch returns a `Summary` in place of the notice and the completion message.
- File I/O is not modelled: `open`, UTF-8 decoding and universal-newline translation. A file is the sequence of its lines, each with its own line end. The output file is an object holding its content so far.
- Per-file success is not computed. An exception inside `process_vtt_file` or `convert_srt_to_vtt` turns into `False`. The model cannot raise, so each file's outcome is an input sequence of `ProcessFiles`.
- The thread pool is not modelled as concurrent. The threaded branch collects its results in submission order, so its counts are the same fold over the outcomes that `ProcessSelected` computes. In that branch each file is handed to a worker right after its own rename prompt, so earlier files are processed while later prompts are open; all prompts come before any result is collected (line 384). In the sequential branch each prompt comes right before its own file is processed. The model takes all prompt answers up front, so it captures the interleaving of prompts and processing in neither branch.
- `process_files_thread` is not modelled: it wraps `process_files`, turns its exceptions into a message and calls `processing_complete`.
- The progress percentage is floating point and is not modelled.
- Operating-system calls are parameters: `os.listdir` (the listing), `os.path.exists`/`isdir` on the input (`inputIsDir`), and `os.path.exists` on the output path or else a successful `os.makedirs` (`outputReady`; line 290 tests only existence, not that the path is a directory) and `os.cpu_count`. `os.path.join` stays abstract as the `Path` datatype.
- The rename prompt `simpledialog.askstring` is a parameter: one `Option<string>` per selected file, with `None` for a cancelled prompt.
- Character classes are restricted to ASCII. Python's `\d`, `str.isspace`, `str.lower` and `str.strip` also act on other Unicode characters.
- Logging, `on_closing`, the `__main__` entry point and `setup-py.py` are not modelled.
- `Timecodes.PeriodForComma`: the branch for a text that is not 12 characters long only exists to make the function total. The rewrite never calls the callback with such a text.
- `Naming.RenameFile`: the index is a `nat`. The source only ever passes indices from 1 upwards.
- There are no concrete lemmas for the full 29-character VTT range and 12-character SRT stamp. The generic lemmas `AdjustRangeAlone`, `AdjustTwoRanges` and `SrtCueLine` state those examples for every matched range and stamp.
