# create-contest-dir, modelled in Dafny

`create-contest-dir` is a command-line tool that prepares a Cargo crate for an
AtCoder contest. It does four things:

- It classifies the contest by series and number, which fixes its problem labels.
- It turns a contest name or URL into a canonical directory name.
- It writes one program file per problem, and rewrites `Cargo.toml` and
  `.cargo/config.toml` from templates.
- When a contest URL is known, it scrapes the contest's task list and every problem
  page. For each problem it writes the sample inputs and outputs to files,
  plus a test harness that runs them.

This project models that core and proves properties of the model.

| file | module | models |
|---|---|---|
| `wrappers.dfy` | `Wrappers` | `Option`, `Result`, and `Outcome`: a returned `Result` or a panic |
| `text.dfy` | `Text` | the string operations the tool uses: `replace`, `split`, `join`, `trim`, `contains`/`find`, ASCII `to_lowercase`, `to_string`, `parse::<u32>` |
| `contests.dfy` | `Contests` | `src/main.rs`: contest kinds, problem labels, classification, error messages |
| `parser.dfy` | `Parser` | `src/parser.rs`: name normalisation, URL extraction, the flag merging of both commands |
| `fs.dfy` | `Fs` | the file system as a snapshot `FsState` and as the mutable `Disk`, plus an open file `FileHandle` with its cursor |
| `utils.dfy` | `Utils` | `src/utils.rs`: `clear_file`, `fetch_file`, `generate_options_file` |
| `samples.dfy` | `Samples` | `extract_sample_data` in `src/handler.rs` |
| `tasks.dfy` | `Tasks` | the table and row logic of `fetch_sample_urls` in `src/handler.rs` |
| `handler.dfy` | `Handler` | the rest of `src/handler.rs`: sample files, the harness, `generate_tests_files`, `generate_tests_dir`, `add_test`, `create_contest_dir` |

How the model is built:

- **Pure code.** Code that only computes values is written as functions with
  lemmas. Examples: the label ranges, the regular expressions (as hand-written
  predicates), the `map`/`join`/`replace` chains that build file contents, and
  the `chunks_exact(2)` pairing.
- **Step-by-step code.** Code that proceeds step by step is written as methods.
  This covers the flag merging, the scans over `pre` elements and tables, the
  write loops, and `clear_file` on a file handle.
- **Methods and specifications.** Each method is proved equal to a pure
  specification function. Examples: `ParseDefaultArg` matches `DefaultArgs`,
  and `GenerateTestsFiles` matches `TestsFilesRun`. The source's promises are
  proved as lemmas about those functions.
- **Outside inputs.** Fetched pages and files are inputs to the model: a value,
  or a function from a URL to the page or a failure. `cargo new` is a function
  from snapshot to snapshot.
- **Panics.** A panic outside the caller's control is the outcome `Panicked`,
  for example an `unwrap` on scraped HTML or a missing `[dependencies]`. A panic
  the caller must avoid is a `requires` instead: the `assert!` and
  `parse().unwrap()` in `Contests::from`.

Where the documentation and the code differ, the model follows the code:

- **Problem labels.** The documentation describes a general label generator.
  The code has only three fixed character ranges, `a..=d`, `a..=f` and `a..=h`
  (`src/main.rs:72-83`).
- **Task count.** The documentation describes a check that the contest's task list has as
  many problems as the contest has labels. The code has no such check: it zips
  the labels with the URLs and generates min(labels, URLs) problems
  (`src/handler.rs:165`).

## Model

| member | source | states |
|---|---|---|
| Contests.Value | src/main.rs:62-70 | the three ABC eras map to "abc", ARC to "arc" and AGC to "agc", in both directions |
| Contests.CharRange | src/main.rs:73-75 | an inclusive character range gives one single-character string per character, in order, with hi - lo + 1 elements |
| Contests.ProblemNames | src/main.rs:72-83 | 8 labels for ABC, 4 for S_ABC and 6 for the other kinds; label i is the letter 'a' + i |
| Contests.LabelsAreAlphabetPrefix | src/main.rs:72-83 | every label is a single letter from 'a' to 'h'; the labels strictly increase and are pairwise distinct |
| Contests.From | src/main.rs:85-103 | requires the series to be abc, arc or agc and the number to parse as u32. For abc: n <= 125 gives S_ABC, 126..211 gives H_ABC, >= 212 gives ABC. arc always gives ARC and agc always gives AGC. The kind's series token is the input series |
| Contests.AbcProblemCountMonotone | src/main.rs:90-97 | in the abc series a larger contest number never has fewer problems |
| Contests.Message | src/main.rs:22-33 | each error message starts with "Failed to " |
| Contests.MessagesDistinct | src/main.rs:22-33 | the six messages are pairwise distinct |
| Text.ParseU32 | src/main.rs:88 | `parse::<u32>`: accepts only an optional '+' followed by at least one digit, with a value below 2^32; up to nine digits always parse to their decimal value |
| Text.NatToStringRoundTrip | src/handler.rs:189 | reading back the decimal digits of `to_string` gives the number |
| Text.NatToStringInjective | src/handler.rs:284 | different sample numbers give different digit strings |
| Text.ToLower | src/parser.rs:222-223 | lower-casing keeps the length and lower-cases each ASCII capital letter in place |
| Text.FindFirst | src/utils.rs:48-49 | the result is the first position where the pattern occurs; None exactly when it occurs nowhere |
| Text.ReplaceIsJoinOfSplit | src/utils.rs:63 | replacing a pattern is splitting at it and joining with the replacement |
| Text.JoinSplitRoundTrip | src/utils.rs:70 | joining the pieces of a split with the pattern gives the original text |
| Text.ReplaceAbsent | src/utils.rs:63 | a text without the pattern passes through replace unchanged |
| Text.ReplaceBeforeUnbordered | src/utils.rs:63 | a pattern whose first character does not recur in it, written after a text without it, is replaced at that place and nowhere else |
| Text.ReplaceChar | src/parser.rs:223 | replacing one character by another keeps the length and changes exactly the matching positions |
| Text.ReplaceJoinLines | src/handler.rs:184-194 | a pattern without a newline can be replaced in a newline-joined text block by block |
| Text.JoinAppend | src/utils.rs:102 | joining one more element appends the separator and that element |
| Text.TrimStart | src/handler.rs:38 | `trim_start` returns a suffix of the input; everything dropped is whitespace, and the result does not start with whitespace |
| Text.TrimEnd | src/utils.rs:62 | `trim_end` returns a prefix of the input; everything dropped is whitespace, and the result does not end with whitespace |
| Text.Trim | src/utils.rs:61-62 | the result sits inside the input with only whitespace around it; it neither starts nor ends with whitespace |
| Parser.FormatContestName | src/parser.rs:213-225 | gives AXC exactly when the whole name is a case-insensitive a[bgr]c, an optional - or _, then three digits. The series is lower-cased and the digits are kept. Any other name is lower-cased with every _ turned into -, so it holds no _ and no capital letter. An AXC result always meets the preconditions of `Contests::from` |
| Parser.AxcSatisfiesFrom | src/parser.rs:214-222 | every canonical name can be passed to `Contests::from` without a panic, and its series is kept |
| Parser.KindOfName | src/parser.rs:108-115 | a name implies a kind exactly when it is canonical |
| Parser.SeparatorAndCaseIrrelevant | src/parser.rs:110-112 | a canonical name normalises to "series-num" whatever its separator and case: ABC_123, abc123 and abc-123 all become abc-123 |
| Parser.NormalNameIsFixedPoint | src/parser.rs:220-225 | normalising is idempotent: parsing the normalised name gives the same parse, for canonical and free-form names alike |
| Parser.CaptureSegment | src/parser.rs:205 | `([^/]+).*$`: it matches exactly when the text before the first '/' is non-empty and no newline follows it. The capture is then that text: non-empty, without '/', starting the rest, and ending at the end or at a '/' |
| Parser.CaptureFollowedBy | src/parser.rs:205 | a segment without '/' followed by nothing, or by a path without a newline, is captured whole |
| Parser.ExtractNameFromUrlAsWritten | src/parser.rs:204-211 | the regular expression as written: an accepted URL yields a non-empty segment without '/' |
| Parser.HostDecidesMatch | src/parser.rs:204-205 | for http:// or https://, a ten-character host, /contests/, a segment and nothing or a path after it: the written pattern yields the segment exactly when the host matches `atcoder.jp` with its dot as a wildcard, and the corrected matcher exactly when the host is atcoder.jp; otherwise both fail |
| Parser.AcceptedUrlDecomposes | src/parser.rs:204-211 | the converse: every URL the written pattern accepts is http:// or https://, a host it admits, /contests/, the captured segment, and nothing or a path without a newline |
| Parser.TaskPageUrlAccepted | src/parser.rs:205 | the URL of a task page, such as https://atcoder.jp/contests/abc123/tasks/abc123_a, names its contest, over https and over http |
| Parser.ExtractedSegmentFollowsPrefix | src/parser.rs:205 | an accepted URL is http(s)://, then a host the written pattern admits, then /contests/ and the segment it yields |
| Parser.ContestUrlRoundTrip | src/parser.rs:70 | a rebuilt https://atcoder.jp/contests/segment URL yields the same segment again, under the written pattern and the corrected one |
| Parser.RebuiltUrlStable | src/parser.rs:105-107 | whatever URL the written pattern accepted, the URL stored for the contest names the same contest, and it does so on the host atcoder.jp itself |
| Parser.CorrectedUrlMatchIsNarrower | src/parser.rs:204-205 | every URL the corrected matcher accepts is accepted by the written regular expression, with the same capture |
| Parser.UnescapedDotAcceptsOtherHost | src/parser.rs:205 | the written regular expression accepts https://atcoderXjp/contests/abc123; the corrected matcher rejects it |
| Parser.ToContestInfo | src/parser.rs:17-29 | the conversion is Ok exactly when a name and a kind are present, and the url passes through unchanged |
| Parser.WithName | src/parser.rs:108-126 | reading a name stores its normal form; a canonical name also sets the kind it implies, otherwise the kind stays |
| Parser.ParseDefaultArg | src/parser.rs:98-136 | reads --url (through the regular expression as written), then --name, then --type, later flags overwriting earlier ones; equals `DefaultArgs` |
| Parser.DefaultArgsPrecedence | src/parser.rs:105-132 | --name decides the name whenever given, and --type the kind. Otherwise a canonical --name decides the kind. A URL is stored exactly when --url was given, and it names the same contest, on the host atcoder.jp |
| Parser.DefaultArgsNeedName | src/parser.rs:134-135 | without --url and --name the command is refused |
| Parser.DefaultArgsFromUrl | src/parser.rs:105-116 | a canonical contest URL alone determines the name, the kind and the stored URL |
| Parser.AddTestKind | src/parser.rs:80-88 | --type is matched case-insensitively and exactly against abc, h-abc, s-abc, arc and agc, each to its kind |
| Parser.ParseAddTestArg | src/parser.rs:65-96 | reads --url (through the regular expression as written), then --type, which overrides the inferred kind; equals `AddTestArgs` |
| Parser.AddTestArgsErrors | src/parser.rs:91-95 | a missing URL, or a kind neither given nor inferable, gives "Invalid Args"; a success carries 4, 6 or 8 labels |
| Fs.Disk.CreateDir | src/handler.rs:125 | `create_dir` succeeds exactly when nothing is at the path; it then adds the directory and changes nothing else |
| Fs.Disk.WriteFile | src/handler.rs:176-197 | open with create and truncate, then write: fails exactly on a directory; otherwise the file holds exactly the text |
| Fs.Disk.RemoveFile | src/handler.rs:31-32 | `remove_file` succeeds exactly when a file is there, and removes only it |
| Fs.Disk.RemoveDirAll | src/handler.rs:122-124 | `remove_dir_all` succeeds exactly when the directory is there; nothing under it is left and everything else stays |
| Fs.RemoveTree | src/handler.rs:123 | after removal nothing under the root exists, and every directory and file outside it is as before |
| Fs.Disk.WriteAll | src/handler.rs:34-40 | writes each file in order and stops at the first failure, ending in the state `PutAll` describes |
| Fs.PutAllFailureSticks | src/handler.rs:34-40 | once a write has failed, later writes change nothing |
| Fs.PutAllKeepsOthers | src/handler.rs:34-40 | a file no write names is left as it was |
| Fs.PutAllLands | src/handler.rs:278-298 | when every write succeeds and no path is written twice, each file holds its own text |
| Fs.FileHandle.ReadToString | src/utils.rs:19 | `read_to_string` returns what lies from the cursor to the end and moves the cursor to the end |
| Fs.FileHandle.SetLen | src/utils.rs:20 | `set_len` cuts the file or pads it with zero characters; the cursor stays |
| Fs.FileHandle.SeekStart | src/utils.rs:21 | `seek` moves only the cursor |
| Fs.FileHandle.WriteAll | src/utils.rs:58-80 | `write_all` at the cursor overwrites, zero-fills a gap before the cursor, keeps what lies beyond, and moves the cursor past the text |
| Utils.ClearFile | src/utils.rs:17-23 | returns the content from the cursor to the end, then leaves the file empty with the cursor at 0 |
| Utils.ChildrenDiffer | src/utils.rs:35 | different names in one directory give different paths |
| Utils.FetchFileRun | src/utils.rs:25-39 | a failed fetch gives FailedGet and touches nothing. A directory at the path gives FailedCreateFile. Otherwise the file's content is exactly the fetched text |
| Utils.FetchFile | src/utils.rs:25-39 | the disk ends in the state and with the result `FetchFileRun` describes |
| Utils.DependencyBlock | src/utils.rs:48-49 | None exactly when the fetched manifest has no [dependencies]. Otherwise the result is the suffix from its first occurrence, which begins with [dependencies], and no earlier occurrence exists |
| Utils.ManifestFromCargoNew | src/utils.rs:58-78 | a manifest that ends with its [dependencies] header, as `cargo new` writes it, loses only that header: the text before it is kept word for word, then the bin sections, the blank line, the dependency block and the addition |
| Utils.ManifestKeepsOldContent | src/utils.rs:58-78 | an old manifest without [dependencies] is, trimmed, the whole head of the new one: it is followed by the bin sections joined by newlines, a blank line, the dependency block and the addition, in that order |
| Utils.ConfigTextAppend | src/utils.rs:90-105 | one more name appends exactly its alias block on a new line; nothing before it changes |
| Utils.ConfigRunKeepsOthers | src/utils.rs:82-110 | the steps after the manifest touch no file but config.toml, Cargo.lock and rust-toolchain |
| Utils.GenerateOptionsFile | src/utils.rs:41-112 | rewrites the manifest through an open handle, then creates .cargo and config.toml, then fetches the two files, ending in the state and outcome `OptionsRun` describes |
| Utils.OptionsFetchFailsFirst | src/utils.rs:45-47 | a failed template fetch gives FailedGet before anything is touched |
| Utils.OptionsNeedManifest | src/utils.rs:51-55 | a missing Cargo.toml gives FailedCreateFile and changes nothing |
| Utils.OptionsPathsDistinct | src/utils.rs:54-110 | the four files written are four different paths, and none is the .cargo directory |
| Utils.ConfigSuccessContents | src/utils.rs:82-110 | after success .cargo is a directory, config.toml holds "[alias]\n" and the alias blocks, and the lock and toolchain files hold what was fetched |
| Utils.OptionsSuccessContents | src/utils.rs:58-107 | after success the manifest is the composed text built from the old one, .cargo exists, and config.toml holds the alias text |
| Samples.Concat | src/handler.rs:337 | a single text node is the whole text of the `pre` |
| Samples.ConcatAppend | src/handler.rs:337 | the text of two runs of text nodes is the text of the first followed by the text of the second |
| Samples.ConcatFront | src/handler.rs:337 | the text of a `pre` is its first text node followed by the text of the rest |
| Samples.BlocksAppend | src/handler.rs:330-338 | the blocks collected keep document order: two runs of `pre` elements give their blocks one after the other |
| Samples.Pairs | src/handler.rs:345-348 | ⌊k/2⌋ pairs, pair i being (block 2i, block 2i+1) |
| Samples.FlattenPairs | src/handler.rs:345-348 | pairing loses nothing but an odd last block |
| Samples.PairsFlatten | src/handler.rs:345-348 | written-out pairs are paired up again exactly |
| Samples.OddBlockDropped | src/handler.rs:346 | an odd block count pairs as if the last block were missing; this is not an error |
| Samples.ExtractSampleData | src/handler.rs:325-349 | scans the first statement's `pre` elements through the nested checks and keeps the marked ones. Returns their pairs, or nothing when there is no statement; the count is half the blocks |
| Samples.EnglishHeadingIgnored | src/handler.rs:326 | a heading without the first characters of 入力例 and 出力例, such as an English one, marks nothing |
| Samples.MarkerAnywhere | src/handler.rs:336 | a marker anywhere in the heading text counts |
| Tasks.TaskColumn | src/handler.rs:228-236 | the index of the first header equal to 問題名 or Task Name; None exactly when no header is |
| Tasks.FindTaskColumn | src/handler.rs:228-236 | the `position` search over the header cells gives `TaskColumn` |
| Tasks.RowUrls | src/handler.rs:238-253 | one URL per row, in row order: https://atcoder.jp followed by the link in cell pos. None, the panic, exactly when some row lacks that cell or its link |
| Tasks.ReadRows | src/handler.rs:238-254 | reading the body rows of one table gives `TableUrls`: the URLs of all rows, or the panic |
| Tasks.FirstTaskTableWins | src/handler.rs:227-255 | tables before the first one with a task header are skipped, and the ones after it are never read |
| Tasks.EofIffNoTaskTable | src/handler.rs:257 | the result is Err("EOF") exactly when no table has a task header |
| Tasks.FetchSampleUrls | src/handler.rs:227-257 | the table loop with `continue` and early returns gives `TaskUrls` |
| Handler.SampleWrites | src/handler.rs:278-298 | 2n writes for n pairs: write 2i is `path_(i+1).input` holding input i, write 2i+1 is `path_(i+1).output` holding output i |
| Handler.SamplePathsDiffer | src/handler.rs:284-294 | two sample paths of one problem are equal only when their numbers and extensions are |
| Handler.SampleWritesDistinct | src/handler.rs:278-298 | no sample file is written twice |
| Handler.SampleFilesLand | src/handler.rs:278-299 | after success the count is the number of pairs, and sample file i+1 holds pair i's input and output |
| Handler.GenerateSampleTestFile | src/handler.rs:270-300 | writes input then output for each pair in order, stopping at the first failure; the disk and the count are what `SampleFilesRun` describes |
| Handler.ChildBlocks | src/handler.rs:187-190 | one harness test per sample |
| Handler.HarnessPerBlock | src/handler.rs:183-195 | when the test template starts on a new line, the name can be filled in per piece: into the head and into each numbered test |
| Handler.HarnessNotASample | src/handler.rs:170-180 | the harness path of a problem is never one of its sample paths |
| Handler.ProblemRunContents | src/handler.rs:166-197 | after one problem succeeds, its directory exists and its harness holds the harness text for as many samples as its page has. Sample file i+1 holds pair i |
| Handler.ProblemsFailureSticks | src/handler.rs:165-198 | after the first failing problem nothing more is done |
| Handler.Zip | src/handler.rs:165 | min(labels, URLs) pairs, pair i being (label i, URL i) |
| Handler.GenerateProblem | src/handler.rs:166-197 | one turn of the problem loop ends as `ProblemRun` describes |
| Handler.GenerateTestsFiles | src/handler.rs:153-201 | reads the contest's task list, then generates the problems in label order and stops at the first failure, ending as `TestsFilesRun` describes |
| Handler.ProblemRunGrows | src/handler.rs:166-197 | a successful problem keeps everything that existed and adds its directory and harness |
| Handler.ProblemsRunCreates | src/handler.rs:165-198 | on success every zipped problem has its directory and its harness, and nothing that existed is gone |
| Handler.TestsFilesPerProblem | src/handler.rs:153-201 | on success each of the first min(labels, URLs) labels has a directory and a harness; there is no count check |
| Handler.ProblemRunKeepsOthers | src/handler.rs:166-197 | a successful problem changes no file outside its own directory and its harness |
| Handler.OtherProblemApart | src/handler.rs:166-180 | for labels without '/', a file below one problem's directory is below no other problem's directory and is no other problem's harness |
| Handler.ProblemsRunSamples | src/handler.rs:165-198 | after a successful run, sample file k+1 of every problem, not only the last, holds pair k of its page: a later problem cannot overwrite it, since its directory is different (creating a directory that exists fails) |
| Handler.TestsFilesSamples | src/handler.rs:153-201 | on success, the sample files of each of the first min(labels, URLs) labels hold the pairs of the page at its URL |
| Handler.AddTest | src/handler.rs:118-129 | panics without Cargo.toml; removes an old tests directory and makes it again; ends as `AddTestRun` describes |
| Handler.AddTestStartsFresh | src/handler.rs:122-125 | generation starts from an empty tests directory: nothing under tests survives, and everything outside it, including Cargo.toml, does |
| Handler.AddTestNeedsManifest | src/handler.rs:119-121 | without Cargo.toml the command panics before touching anything |
| Handler.GenerateTestsDir | src/handler.rs:131-141 | creates name/tests, then generates the tests of every label of the kind, ending as `TestsDirRun` describes |
| Handler.SourceWrites | src/handler.rs:34-40 | one program file per label |
| Handler.CreateContestDir | src/handler.rs:22-51 | refuses an existing directory, runs `cargo new`, replaces main.rs by one file per label, writes the options files and, given a URL, the tests; ends as `CreateContestRun` describes |
| Handler.CreateContestRefusesExisting | src/handler.rs:24-26 | an existing directory of that name panics before anything is created |

## Left out

- I/O and the network: every HTTP fetch is an input. The cookie header (`get_local_cookie_header`), the HTTP client, `fetch_sample_data`'s request, and `src/utils/fetch_files.rs` and `src/get_request.rs` are not part of this model.
- HTML parsing and CSS selectors: pages are given as the abstract structures the selectors would see (`ProblemPage`, `Table`).
- The login command, credential prompts, CSRF scraping and cookie persistence: these are network and terminal I/O.
- The clap command-line definition and the stdin prompts: the flags arrive as `Option<string>` values.
- `Contests::from_typename` is not defined in the repository's shown files. It is the parameter `fromTypename`.
- The template constants (`src/templates.rs` and the harness templates of `handler::templates`) are data. They are the parameters `TestTemplates` and `ManifestTemplates`.
- `cargo new` is a process. It is the parameter `cargoNew`, a function from snapshot to snapshot.
- Operating-system I/O errors: a write to a directory fails, and any other failure of `open`, `write_all`, `set_len` or `seek` is not modelled. That includes the `FailedWrite` paths and the error result of `clear_file`.
- Parent directories are not checked when a file or directory is created, and a symbolic link is not a case the file system model has.
- Text.ToLower: only the ASCII letters are lower-cased, not Unicode's full `to_lowercase`; all patterns the tool matches are ASCII.
- The async runtime: every call is taken in sequence.
- The log lines printed on success are output only.
- Utils.GenerateOptionsFile: the rewritten manifest reaches the disk as the handle's final contents, not byte by byte through the file system.
- Handler.GenerateSampleTestFile: the writes go through `Disk.WriteAll` in the source's order, one pair after the other, rather than through a loop of its own.

## Findings

| source | as written | input that shows it | evidently intended | confidence | as-written member | corrected member |
|---|---|---|---|---|---|---|
| src/parser.rs:205 | `^https?://atcoder.jp/contests/([^/]+).*$` leaves the dot of `atcoder.jp` unescaped, so it matches any character but a newline | `https://atcoderXjp/contests/abc123` is accepted and yields `abc123` | only the host `atcoder.jp` is accepted (`atcoder\.jp`) | not executed | Parser.ExtractNameFromUrlAsWritten, Parser.UnescapedDotAcceptsOtherHost, Parser.HostDecidesMatch | Parser.ExtractNameFromUrl, Parser.HostDecidesMatch, Parser.CorrectedUrlMatchIsNarrower |

The commands read `--url` through the expression as written, as the code does
(`DefaultArgs`, `AddTestArgs`). The corrected matcher states what the
commands do achieve: the URL they store is rebuilt on `https://atcoder.jp`, so
it passes the corrected matcher with the same segment (`RebuiltUrlStable`,
`DefaultArgsPrecedence`).
