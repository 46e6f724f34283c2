/**
 * src/handler.rs: writing the sample files and the test harness of every
 * problem, and the two commands that prepare a directory, `create_contest_dir`
 * and `add_test`. Fetched pages are inputs: functions from a URL to the page
 * read there, or to the failure.
 */
module Handler {
  import opened Wrappers
  import opened Text
  import opened Contests
  import opened Fs
  import opened Utils
  import opened Samples
  import opened Tasks

  /** The source-file templates: a problem's program, the harness head, one harness test. */
  datatype TestTemplates = TestTemplates(child: string, test: string, testChild: string)

  const INPUT_EXT: string := ".input"
  const OUTPUT_EXT: string := ".output"
  const SAMPLE_FILES_ERROR: string := "Failed to Create Sample Files"

  // ---------------------------------------------------------------- sample files

  /** `format!("{}_{}.input", path, n)` and its `.output` twin. */
  function SamplePath(path: string, n: nat, ext: string): string
  {
    path + "_" + NatToString(n) + ext
  }

  /** The writes of `generate_sample_test_file`: for pair i, its input then its output, numbered from 1. */
  function SampleWrites(path: string, samples: seq<(string, string)>): (r: seq<(string, string)>)
    ensures |r| == 2 * |samples|
    ensures forall i :: 0 <= i < |samples| ==>
      r[2 * i] == (SamplePath(path, i + 1, INPUT_EXT), samples[i].0)
      && r[2 * i + 1] == (SamplePath(path, i + 1, OUTPUT_EXT), samples[i].1)
  {
    if samples == [] then []
    else
      var n := |samples|;
      SampleWrites(path, samples[..n - 1])
        + [(SamplePath(path, n, INPUT_EXT), samples[n - 1].0), (SamplePath(path, n, OUTPUT_EXT), samples[n - 1].1)]
  }

  /** Digits followed by a dot: where the dot stands tells where the digits end. */
  lemma DigitsThenDot(a: string, b: string, s: string, t: string)
    requires AllDigits(a) && AllDigits(b)
    requires s != [] && t != [] && s[0] == '.' && t[0] == '.'
    ensures a + s == b + t ==> a == b && s == t
  {
    if |a| < |b| {
      assert (a + s)[|a|] == '.' && (b + t)[|a|] == b[|a|];
    } else if |b| < |a| {
      assert (b + t)[|b|] == '.' && (a + s)[|b|] == a[|b|];
    } else {
      assert (a + s)[..|a|] == a && (b + t)[..|b|] == b;
      assert (a + s)[|a|..] == s && (b + t)[|b|..] == t;
    }
  }

  /** Two sample paths of one problem agree only when their numbers and extensions do. */
  lemma SamplePathsDiffer(path: string, m: nat, n: nat, e: string, f: string)
    requires e == INPUT_EXT || e == OUTPUT_EXT
    requires f == INPUT_EXT || f == OUTPUT_EXT
    ensures SamplePath(path, m, e) == SamplePath(path, n, f) ==> m == n && e == f
  {
    var p := path + "_";
    assert SamplePath(path, m, e)[|p|..] == NatToString(m) + e;
    assert SamplePath(path, n, f)[|p|..] == NatToString(n) + f;
    DigitsThenDot(NatToString(m), NatToString(n), e, f);
    if NatToString(m) == NatToString(n) {
      NatToStringInjective(m, n);
    }
  }

  /** The extension of write `i`: inputs at even positions, outputs at odd ones. */
  function ExtAt(i: nat): string
  {
    if i % 2 == 0 then INPUT_EXT else OUTPUT_EXT
  }

  lemma SampleWriteAt(path: string, samples: seq<(string, string)>, i: nat)
    requires i < |SampleWrites(path, samples)|
    ensures SampleWrites(path, samples)[i].0 == SamplePath(path, i / 2 + 1, ExtAt(i))
  {
    var a := i / 2;
    assert i == 2 * a || i == 2 * a + 1;
  }

  /** No sample file is written twice. */
  lemma SampleWritesDistinct(path: string, samples: seq<(string, string)>)
    ensures DistinctTargets(SampleWrites(path, samples))
  {
    var w := SampleWrites(path, samples);
    forall i, j | 0 <= i < j < |w| ensures w[i].0 != w[j].0 {
      SampleWriteAt(path, samples, i);
      SampleWriteAt(path, samples, j);
      SamplePathsDiffer(path, i / 2 + 1, j / 2 + 1, ExtAt(i), ExtAt(j));
      assert ExtAt(i) == ExtAt(j) ==> i % 2 == j % 2 by {
        assert INPUT_EXT != OUTPUT_EXT by { assert |INPUT_EXT| != |OUTPUT_EXT|; }
      }
    }
  }

  /** The snapshot and result of `generate_sample_test_file` when the fetch gave `page`: the number of samples. */
  function SampleFilesRun(fs: FsState, path: string, page: Option<ProblemPage>): (FsState, Result<nat, ()>)
  {
    if page.None? then (fs, Err(()))
    else
      var samples := SampleData(page.value);
      var (after, ok) := PutAll(fs, SampleWrites(path, samples));
      (after, if ok then Ok(|samples|) else Err(()))
  }

  /** After the sample files are written, file i + 1 holds pair i: the input and the output. */
  lemma SampleFilesLand(fs: FsState, path: string, page: Option<ProblemPage>, i: nat)
    requires SampleFilesRun(fs, path, page).1.Ok?
    requires i < SampleFilesRun(fs, path, page).1.value
    ensures page.Some? && i < |SampleData(page.value)|
    ensures var files := SampleFilesRun(fs, path, page).0.files;
      && SamplePath(path, i + 1, INPUT_EXT) in files
      && files[SamplePath(path, i + 1, INPUT_EXT)] == SampleData(page.value)[i].0
      && SamplePath(path, i + 1, OUTPUT_EXT) in files
      && files[SamplePath(path, i + 1, OUTPUT_EXT)] == SampleData(page.value)[i].1
  {
    var writes := SampleWrites(path, SampleData(page.value));
    SampleWritesDistinct(path, SampleData(page.value));
    PutAllLands(fs, writes, 2 * i);
    PutAllLands(fs, writes, 2 * i + 1);
  }

  /**
   * `generate_sample_test_file`: fetch, extract, then for each pair in turn
   * write its input file and its output file, stopping at the first failure.
   */
  method GenerateSampleTestFile(disk: Disk, path: string, page: Option<ProblemPage>) returns (r: Result<nat, ()>)
    modifies disk
    ensures (disk.State(), r) == SampleFilesRun(old(disk.State()), path, page)
  {
    if page.None? {
      return Err(());
    }
    var samples := ExtractSampleData(page.value);
    var ok := disk.WriteAll(SampleWrites(path, samples));
    r := if ok then Ok(|samples|) else Err(());
  }

  // ---------------------------------------------------------------- the test harness

  const NAME_HOLE: string := "{{name}}"
  const NUM_HOLE: string := "{{num}}"

  /** One harness test per sample, numbered from 1. */
  function ChildBlocks(tpl: TestTemplates, count: nat): (r: seq<string>)
    ensures |r| == count
  {
    seq(count, i requires 0 <= i < count => Replace(tpl.testChild, NUM_HOLE, NatToString(i + 1)))
  }

  /** The harness of problem `name` with `count` samples: the head, the tests joined by newlines, then the name filled in. */
  function HarnessText(name: string, count: nat, tpl: TestTemplates): string
  {
    Replace(tpl.test + Join(ChildBlocks(tpl, count), "\n"), NAME_HOLE, name)
  }

  /**
   * With a test template that starts on a new line, filling in the name
   * after joining is the same as filling it into the head and into each
   * test on its own: no `{{name}}` is formed across two pieces.
   */
  lemma HarnessPerBlock(name: string, count: nat, tpl: TestTemplates)
    requires tpl.testChild != [] && tpl.testChild[0] == '\n'
    ensures HarnessText(name, count, tpl)
      == Replace(tpl.test, NAME_HOLE, name) + Join(ReplaceEach(ChildBlocks(tpl, count), NAME_HOLE, name), "\n")
  {
    var blocks := ChildBlocks(tpl, count);
    ReplaceJoinLines(blocks, NAME_HOLE, name);
    if count == 0 {
      assert tpl.test + Join(blocks, "\n") == tpl.test;
      assert Replace([], NAME_HOLE, name) == [];
    } else {
      assert tpl.testChild == ['\n'] + tpl.testChild[1..];
      ReplaceSkipsChar('\n', tpl.testChild[1..], NUM_HOLE, NatToString(1));
      assert blocks[0][0] == '\n';
      assert Join(blocks, "\n")[0] == '\n';
      ReplaceSplitsBefore(tpl.test, Join(blocks, "\n"), NAME_HOLE, name);
    }
  }

  // ---------------------------------------------------------------- the tests of a contest

  /** `format!("{}/{}.rs", path, name)`. */
  function HarnessPath(path: string, name: string): string
  {
    Child(path, name) + ".rs"
  }

  /** The snapshot and result of one turn of the loop of `generate_tests_files`: problem `name` at `url`. */
  function ProblemRun(fs: FsState, path: string, name: string, url: string,
                      problemPage: string -> Option<ProblemPage>, tpl: TestTemplates): (FsState, Result<(), string>)
  {
    var dir := Child(path, name);
    if Exists(fs, dir) then (fs, Err(Message(FailedCreateDir)))
    else
      var (written, samples) := SampleFilesRun(MkDir(fs, dir), Child(dir, name), problemPage(url));
      if samples.Err? then (written, Err(SAMPLE_FILES_ERROR))
      else if HarnessPath(path, name) in written.dirs then (written, Err(Message(FailedCreateFile)))
      else (Put(written, HarnessPath(path, name), HarnessText(name, samples.value, tpl)), Ok(()))
  }

  /** The problems in order, stopping at the first failure. */
  function ProblemsRun(fs: FsState, path: string, problems: seq<(string, string)>,
                       problemPage: string -> Option<ProblemPage>, tpl: TestTemplates): (FsState, Result<(), string>)
  {
    if problems == [] then (fs, Ok(()))
    else
      var (before, r) := ProblemsRun(fs, path, problems[..|problems| - 1], problemPage, tpl);
      if r.Err? then (before, r)
      else
        var (name, url) := problems[|problems| - 1];
        ProblemRun(before, path, name, url, problemPage, tpl)
  }

  lemma {:induction false} ProblemsFailureSticks(fs: FsState, path: string, problems: seq<(string, string)>,
                                                 problemPage: string -> Option<ProblemPage>, tpl: TestTemplates, k: nat)
    requires k <= |problems|
    requires ProblemsRun(fs, path, problems[..k], problemPage, tpl).1.Err?
    ensures ProblemsRun(fs, path, problems, problemPage, tpl) == ProblemsRun(fs, path, problems[..k], problemPage, tpl)
    decreases |problems| - k
  {
    if k < |problems| {
      assert problems[..k + 1][..k] == problems[..k];
      ProblemsFailureSticks(fs, path, problems, problemPage, tpl, k + 1);
      assert problems[..|problems|] == problems;
    } else {
      assert problems[..k] == problems;
    }
  }

  /** `names.into_iter().zip(urls)`: as many pairs as the shorter list has elements. */
  function Zip(names: seq<string>, urls: seq<string>): (r: seq<(string, string)>)
    ensures |r| == if |names| < |urls| then |names| else |urls|
    ensures forall i :: 0 <= i < |r| ==> r[i] == (names[i], urls[i])
  {
    if names == [] || urls == [] then [] else [(names[0], urls[0])] + Zip(names[1..], urls[1..])
  }

  /** The snapshot and outcome of `generate_tests_files(path, url, names)`. */
  function TestsFilesRun(fs: FsState, path: string, url: string, names: seq<string>,
                         tasksPage: string -> Result<seq<Table>, string>,
                         problemPage: string -> Option<ProblemPage>, tpl: TestTemplates): (FsState, Outcome<(), string>)
  {
    match tasksPage(url + "/tasks")
    case Err(e) => (fs, Returned(Err(e)))
    case Ok(tables) =>
      match TaskUrls(tables)
      case Panicked => (fs, Panicked)
      case Returned(Err(e)) => (fs, Returned(Err(e)))
      case Returned(Ok(urls)) =>
        var (after, r) := ProblemsRun(fs, path, Zip(names, urls), problemPage, tpl);
        (after, Returned(r))
  }

  /** One problem: its directory, its sample files, its harness. */
  method GenerateProblem(disk: Disk, path: string, name: string, url: string,
                         problemPage: string -> Option<ProblemPage>, tpl: TestTemplates)
    returns (r: Result<(), string>)
    modifies disk
    ensures (disk.State(), r) == ProblemRun(old(disk.State()), path, name, url, problemPage, tpl)
  {
    var ok := disk.CreateDir(Child(path, name));
    if !ok {
      return Err(Message(FailedCreateDir));
    }
    var count := GenerateSampleTestFile(disk, Child(Child(path, name), name), problemPage(url));
    if count.Err? {
      return Err(SAMPLE_FILES_ERROR);
    }
    ok := disk.WriteFile(HarnessPath(path, name), HarnessText(name, count.value, tpl));
    if !ok {
      return Err(Message(FailedCreateFile));
    }
    r := Ok(());
  }

  /** `generate_tests_files`: read the contest's task list, then generate the problems in label order. */
  method GenerateTestsFiles(disk: Disk, path: string, url: string, names: seq<string>,
                            tasksPage: string -> Result<seq<Table>, string>,
                            problemPage: string -> Option<ProblemPage>, tpl: TestTemplates)
    returns (r: Outcome<(), string>)
    modifies disk
    ensures (disk.State(), r) == TestsFilesRun(old(disk.State()), path, url, names, tasksPage, problemPage, tpl)
  {
    var page := tasksPage(url + "/tasks");
    if page.Err? {
      return Returned(Err(page.error));
    }
    var found := FetchSampleUrls(page.value);
    if found.Panicked? {
      return Panicked;
    }
    if found.result.Err? {
      return Returned(Err(found.result.error));
    }
    var problems := Zip(names, found.result.value);
    ghost var initial := disk.State();
    for i := 0 to |problems|
      invariant ProblemsRun(initial, path, problems[..i], problemPage, tpl) == (disk.State(), Ok(()))
    {
      assert problems[..i + 1][..i] == problems[..i];
      var step := GenerateProblem(disk, path, problems[i].0, problems[i].1, problemPage, tpl);
      if step.Err? {
        ProblemsFailureSticks(initial, path, problems, problemPage, tpl, i + 1);
        return Returned(step);
      }
    }
    assert problems[..|problems|] == problems;
    r := Returned(Ok(()));
  }

  /** A problem's harness and sample paths differ: after the common `path/name`, one goes on with `.`, the others with `/`. */
  lemma HarnessNotASample(path: string, name: string, n: nat, ext: string)
    ensures HarnessPath(path, name) != SamplePath(Child(Child(path, name), name), n, ext)
  {
    var k := |Child(path, name)|;
    assert HarnessPath(path, name)[k] == '.';
    assert SamplePath(Child(Child(path, name), name), n, ext)[k] == '/';
  }

  /**
   * After one problem is generated, its directory exists, its harness holds
   * the harness text for as many samples as its page has, and sample file
   * i + 1 holds pair i.
   */
  lemma ProblemRunContents(fs: FsState, path: string, name: string, url: string,
                           problemPage: string -> Option<ProblemPage>, tpl: TestTemplates, i: nat)
    requires ProblemRun(fs, path, name, url, problemPage, tpl).1.Ok?
    ensures problemPage(url).Some?
    ensures var after := ProblemRun(fs, path, name, url, problemPage, tpl).0;
      var samples := SampleData(problemPage(url).value);
      && Child(path, name) in after.dirs
      && HarnessPath(path, name) in after.files
      && after.files[HarnessPath(path, name)] == HarnessText(name, |samples|, tpl)
      && (i < |samples| ==>
          var input := SamplePath(Child(Child(path, name), name), i + 1, INPUT_EXT);
          var output := SamplePath(Child(Child(path, name), name), i + 1, OUTPUT_EXT);
          input in after.files && after.files[input] == samples[i].0
          && output in after.files && after.files[output] == samples[i].1)
  {
    var dir := Child(path, name);
    var started := MkDir(fs, dir);
    if i < |SampleData(problemPage(url).value)| {
      SampleFilesLand(started, Child(dir, name), problemPage(url), i);
      HarnessNotASample(path, name, i + 1, INPUT_EXT);
      HarnessNotASample(path, name, i + 1, OUTPUT_EXT);
    }
  }

  /** Problem `name` has its directory and its harness file. */
  predicate HasProblem(fs: FsState, path: string, name: string)
  {
    Child(path, name) in fs.dirs && HarnessPath(path, name) in fs.files
  }

  lemma GrowsKeepsProblem(a: FsState, b: FsState, path: string, name: string)
    requires Grows(a, b) && HasProblem(a, path, name)
    ensures HasProblem(b, path, name)
  {}

  /** A successful problem keeps everything that existed and adds its directory and its harness. */
  lemma ProblemRunGrows(fs: FsState, path: string, name: string, url: string,
                        problemPage: string -> Option<ProblemPage>, tpl: TestTemplates)
    requires ProblemRun(fs, path, name, url, problemPage, tpl).1.Ok?
    ensures Grows(fs, ProblemRun(fs, path, name, url, problemPage, tpl).0)
    ensures HasProblem(ProblemRun(fs, path, name, url, problemPage, tpl).0, path, name)
  {
  }

  /** A successful run of several problems is the run of all but the last, then the last. */
  lemma ProblemsRunLast(fs: FsState, path: string, problems: seq<(string, string)>,
                        problemPage: string -> Option<ProblemPage>, tpl: TestTemplates)
    requires problems != [] && ProblemsRun(fs, path, problems, problemPage, tpl).1.Ok?
    ensures ProblemsRun(fs, path, problems[..|problems| - 1], problemPage, tpl).1.Ok?
    ensures ProblemsRun(fs, path, problems, problemPage, tpl)
      == ProblemRun(ProblemsRun(fs, path, problems[..|problems| - 1], problemPage, tpl).0, path,
                    problems[|problems| - 1].0, problems[|problems| - 1].1, problemPage, tpl)
  {
  }

  /** Growing twice is growing. */
  lemma GrowsTransitive(a: FsState, b: FsState, c: FsState)
    requires Grows(a, b) && Grows(b, c)
    ensures Grows(a, c)
  {
  }

  /** On success every problem paired with a URL has its directory and its harness file. */
  lemma {:induction false} ProblemsRunCreates(fs: FsState, path: string, problems: seq<(string, string)>,
                                              problemPage: string -> Option<ProblemPage>, tpl: TestTemplates)
    requires ProblemsRun(fs, path, problems, problemPage, tpl).1.Ok?
    ensures Grows(fs, ProblemsRun(fs, path, problems, problemPage, tpl).0)
    ensures forall i :: 0 <= i < |problems| ==>
      HasProblem(ProblemsRun(fs, path, problems, problemPage, tpl).0, path, problems[i].0)
  {
    if problems != [] {
      var front := problems[..|problems| - 1];
      var last := problems[|problems| - 1];
      ProblemsRunLast(fs, path, problems, problemPage, tpl);
      ProblemsRunCreates(fs, path, front, problemPage, tpl);
      var before := ProblemsRun(fs, path, front, problemPage, tpl).0;
      ProblemRunGrows(before, path, last.0, last.1, problemPage, tpl);
      var after := ProblemsRun(fs, path, problems, problemPage, tpl).0;
      GrowsTransitive(fs, before, after);
      KeepsEveryProblem(before, after, path, front, problems);
    }
  }

  /** Problems that existed before a step that grows the disk and adds the last one are all there after it. */
  lemma KeepsEveryProblem(before: FsState, after: FsState, path: string, front: seq<(string, string)>,
                          problems: seq<(string, string)>)
    requires problems != [] && front == problems[..|problems| - 1]
    requires Grows(before, after) && HasProblem(after, path, problems[|problems| - 1].0)
    requires forall i :: 0 <= i < |front| ==> HasProblem(before, path, front[i].0)
    ensures forall i :: 0 <= i < |problems| ==> HasProblem(after, path, problems[i].0)
  {
    forall i | 0 <= i < |problems| ensures HasProblem(after, path, problems[i].0) {
      if i < |problems| - 1 {
        assert front[i] == problems[i];
        GrowsKeepsProblem(before, after, path, problems[i].0);
      }
    }
  }

  /** Every file the sample writes of `base` name lies under a prefix of `base`. */
  lemma SampleTargetsUnder(base: string, samples: seq<(string, string)>, prefix: string, t: string)
    requires StartsWith(base, prefix) && t in Targets(SampleWrites(base, samples))
    ensures StartsWith(t, prefix)
  {
    var writes := SampleWrites(base, samples);
    var j :| 0 <= j < |writes| && writes[j].0 == t;
    SampleWriteAt(base, samples, j);
    assert t[..|prefix|] == base[..|prefix|];
  }

  /** A successful problem touches only the files under its directory and its harness. */
  lemma ProblemRunKeepsOthers(fs: FsState, path: string, name: string, url: string,
                              problemPage: string -> Option<ProblemPage>, tpl: TestTemplates, p: string)
    requires ProblemRun(fs, path, name, url, problemPage, tpl).1.Ok?
    requires p in fs.files && !StartsWith(p, Child(path, name) + "/") && p != HarnessPath(path, name)
    ensures p in ProblemRun(fs, path, name, url, problemPage, tpl).0.files
    ensures ProblemRun(fs, path, name, url, problemPage, tpl).0.files[p] == fs.files[p]
  {
    var dir := Child(path, name);
    var writes := SampleWrites(Child(dir, name), SampleData(problemPage(url).value));
    assert StartsWith(Child(dir, name), dir + "/") by {
      assert Child(dir, name)[..|dir + "/"|] == dir + "/";
    }
    if p in Targets(writes) {
      SampleTargetsUnder(Child(dir, name), SampleData(problemPage(url).value), dir + "/", p);
    }
    PutAllKeepsOthers(MkDir(fs, dir), writes, p);
  }

  /** Two names without `/` that both start the same text, each followed by `/`, are the same name. */
  lemma SlashFreePrefix(s: string, a: string, b: string)
    requires '/' !in a && '/' !in b
    ensures StartsWith(s, a + "/") && StartsWith(s, b + "/") ==> a == b
  {
    if StartsWith(s, a + "/") && StartsWith(s, b + "/") {
      assert s[|a|] == '/' && s[|b|] == '/';
      assert forall i :: 0 <= i < |a| ==> s[i] == a[i] && a[i] in a;
      assert forall i :: 0 <= i < |b| ==> s[i] == b[i] && b[i] in b;
      assert |a| == |b|;
      assert a == s[..|a|] == b;
    }
  }

  /** A file below the directory of one problem is below no other problem's directory and is no harness. */
  lemma OtherProblemApart(path: string, mine: string, other: string, p: string)
    requires '/' !in mine && '/' !in other && mine != other
    requires StartsWith(p, Child(path, mine) + "/")
    ensures !StartsWith(p, Child(path, other) + "/")
    ensures p != HarnessPath(path, other)
  {
    var k := |path| + 1;
    var t := p[k..];
    assert StartsWith(t, mine + "/") by {
      assert (Child(path, mine) + "/")[k..] == mine + "/";
    }
    if StartsWith(p, Child(path, other) + "/") {
      assert (Child(path, other) + "/")[k..] == other + "/";
      assert StartsWith(t, other + "/");
    }
    SlashFreePrefix(t, mine, other);
    assert HarnessPath(path, other)[k..] == other + ".rs";
    assert t[|mine|] == '/';
    assert '/' !in other + ".rs";
  }

  /** The sample files of problem `name` hold `pair` as sample `k + 1`. */
  predicate HoldsSample(fs: FsState, path: string, name: string, k: nat, pair: (string, string))
  {
    var base := Child(Child(path, name), name);
    && SamplePath(base, k + 1, INPUT_EXT) in fs.files && fs.files[SamplePath(base, k + 1, INPUT_EXT)] == pair.0
    && SamplePath(base, k + 1, OUTPUT_EXT) in fs.files && fs.files[SamplePath(base, k + 1, OUTPUT_EXT)] == pair.1
  }

  /** A sample file of a problem lies below that problem's directory. */
  lemma SampleUnderProblem(path: string, name: string, k: nat, ext: string)
    ensures StartsWith(SamplePath(Child(Child(path, name), name), k, ext), Child(path, name) + "/")
  {
    var prefix := Child(path, name) + "/";
    assert SamplePath(Child(Child(path, name), name), k, ext)[..|prefix|] == prefix;
  }

  /**
   * After a successful run, the sample files of every problem hold the pairs
   * of its page: a later problem writes only below its own directory, which
   * differs from every earlier one, since creating it would otherwise fail.
   */
  lemma {:induction false} ProblemsRunSamples(fs: FsState, path: string, problems: seq<(string, string)>,
                                              problemPage: string -> Option<ProblemPage>, tpl: TestTemplates, i: nat, k: nat)
    requires ProblemsRun(fs, path, problems, problemPage, tpl).1.Ok?
    requires forall j :: 0 <= j < |problems| ==> '/' !in problems[j].0
    requires i < |problems|
    ensures problemPage(problems[i].1).Some?
    ensures k < |SampleData(problemPage(problems[i].1).value)| ==>
      HoldsSample(ProblemsRun(fs, path, problems, problemPage, tpl).0, path, problems[i].0, k,
                  SampleData(problemPage(problems[i].1).value)[k])
  {
    var front := problems[..|problems| - 1];
    var last := problems[|problems| - 1];
    ProblemsRunLast(fs, path, problems, problemPage, tpl);
    var before := ProblemsRun(fs, path, front, problemPage, tpl).0;
    if i == |problems| - 1 {
      ProblemRunContents(before, path, last.0, last.1, problemPage, tpl, k);
    } else {
      assert problems[i] == front[i];
      ProblemsRunSamples(fs, path, front, problemPage, tpl, i, k);
      var samples := SampleData(problemPage(front[i].1).value);
      if k < |samples| {
        ProblemsRunCreates(fs, path, front, problemPage, tpl);
        assert Child(path, front[i].0) in before.dirs;
        assert front[i].0 != last.0;
        var base := Child(Child(path, front[i].0), front[i].0);
        SampleUnderProblem(path, front[i].0, k + 1, INPUT_EXT);
        SampleUnderProblem(path, front[i].0, k + 1, OUTPUT_EXT);
        OtherProblemApart(path, front[i].0, last.0, SamplePath(base, k + 1, INPUT_EXT));
        OtherProblemApart(path, front[i].0, last.0, SamplePath(base, k + 1, OUTPUT_EXT));
        ProblemRunKeepsOthers(before, path, last.0, last.1, problemPage, tpl, SamplePath(base, k + 1, INPUT_EXT));
        ProblemRunKeepsOthers(before, path, last.0, last.1, problemPage, tpl, SamplePath(base, k + 1, OUTPUT_EXT));
      }
    }
  }

  /**
   * When the contest's task list yields `urls`, a successful run creates a directory
   * and a harness for each of the first min(|names|, |urls|) labels, paired
   * by position; there is no check that the counts agree.
   */
  lemma TestsFilesPerProblem(fs: FsState, path: string, url: string, names: seq<string>,
                             tasksPage: string -> Result<seq<Table>, string>,
                             problemPage: string -> Option<ProblemPage>, tpl: TestTemplates, urls: seq<string>)
    requires tasksPage(url + "/tasks").Ok? && TaskUrls(tasksPage(url + "/tasks").value) == Returned(Ok(urls))
    requires TestsFilesRun(fs, path, url, names, tasksPage, problemPage, tpl).1 == Returned(Ok(()))
    ensures forall i :: 0 <= i < |names| && i < |urls| ==>
      HasProblem(TestsFilesRun(fs, path, url, names, tasksPage, problemPage, tpl).0, path, names[i])
  {
    ProblemsRunCreates(fs, path, Zip(names, urls), problemPage, tpl);
  }

  /**
   * On success, the sample files of each of the first min(|names|, |urls|)
   * labels hold the pairs of the page at the URL it is paired with.
   */
  lemma TestsFilesSamples(fs: FsState, path: string, url: string, names: seq<string>,
                          tasksPage: string -> Result<seq<Table>, string>,
                          problemPage: string -> Option<ProblemPage>, tpl: TestTemplates, urls: seq<string>, i: nat, k: nat)
    requires tasksPage(url + "/tasks").Ok? && TaskUrls(tasksPage(url + "/tasks").value) == Returned(Ok(urls))
    requires TestsFilesRun(fs, path, url, names, tasksPage, problemPage, tpl).1 == Returned(Ok(()))
    requires forall j :: 0 <= j < |names| ==> '/' !in names[j]
    requires i < |names| && i < |urls|
    ensures problemPage(urls[i]).Some?
    ensures k < |SampleData(problemPage(urls[i]).value)| ==>
      HoldsSample(TestsFilesRun(fs, path, url, names, tasksPage, problemPage, tpl).0, path, names[i], k,
                  SampleData(problemPage(urls[i]).value)[k])
  {
    var problems := Zip(names, urls);
    assert forall j :: 0 <= j < |problems| ==> '/' !in problems[j].0;
    ProblemsRunSamples(fs, path, problems, problemPage, tpl, i, k);
  }

  // ---------------------------------------------------------------- the commands

  const TESTS_DIR: string := "tests"
  const MANIFEST: string := "Cargo.toml"

  /** The snapshot and outcome of `add_test(url, names)` run in the current directory. */
  function AddTestRun(fs: FsState, url: string, names: seq<string>,
                      tasksPage: string -> Result<seq<Table>, string>,
                      problemPage: string -> Option<ProblemPage>, tpl: TestTemplates): (FsState, Outcome<(), string>)
  {
    if MANIFEST !in fs.files then (fs, Panicked)
    else
      var cleared := if TESTS_DIR in fs.dirs then RemoveTree(fs, TESTS_DIR) else fs;
      if Exists(cleared, TESTS_DIR) then (cleared, Panicked)
      else
        var (after, r) := TestsFilesRun(MkDir(cleared, TESTS_DIR), TESTS_DIR, url, names, tasksPage, problemPage, tpl);
        (after, if r == Returned(Ok(())) then r else Panicked)
  }

  /** `add_test`: a `Cargo.toml` must be here; an old `tests` directory is removed and made again. */
  method AddTest(disk: Disk, url: string, names: seq<string>,
                 tasksPage: string -> Result<seq<Table>, string>,
                 problemPage: string -> Option<ProblemPage>, tpl: TestTemplates)
    returns (r: Outcome<(), string>)
    modifies disk
    ensures (disk.State(), r) == AddTestRun(old(disk.State()), url, names, tasksPage, problemPage, tpl)
  {
    if !disk.IsFile(MANIFEST) {
      return Panicked;
    }
    if disk.IsDir(TESTS_DIR) {
      var removed := disk.RemoveDirAll(TESTS_DIR);
      if !removed {
        return Panicked;
      }
    }
    var ok := disk.CreateDir(TESTS_DIR);
    if !ok {
      return Panicked;
    }
    r := GenerateTestsFiles(disk, TESTS_DIR, url, names, tasksPage, problemPage, tpl);
    if r != Returned(Ok(())) {
      r := Panicked;
    }
  }

  /**
   * Generation starts from an empty `tests`: when a manifest is present,
   * nothing that was under `tests` survives into the snapshot the tests are
   * written to, and everything outside it does.
   */
  lemma AddTestStartsFresh(fs: FsState)
    requires MANIFEST in fs.files && TESTS_DIR in fs.dirs
    ensures var start := MkDir(RemoveTree(fs, TESTS_DIR), TESTS_DIR);
      && TESTS_DIR in start.dirs
      && (forall p :: Under(TESTS_DIR, p) && p != TESTS_DIR ==> !Exists(start, p))
      && (forall p :: !Under(TESTS_DIR, p) && p in fs.files ==> p in start.files && start.files[p] == fs.files[p])
      && MANIFEST in start.files && start.files[MANIFEST] == fs.files[MANIFEST]
  {
    assert !Under(TESTS_DIR, MANIFEST) by {
      assert MANIFEST[0] == 'C' && (TESTS_DIR + "/")[0] == 't';
    }
  }

  /** The snapshot and outcome of `generate_tests_dir`: `{name}/tests`, then the tests of every label of the kind. */
  function TestsDirRun(fs: FsState, info: ContestInfo,
                       tasksPage: string -> Result<seq<Table>, string>,
                       problemPage: string -> Option<ProblemPage>, tpl: TestTemplates): (FsState, Outcome<(), string>)
    requires info.url.Some?
  {
    var dir := Child(info.name, TESTS_DIR);
    if Exists(fs, dir) then (fs, Returned(Err(Message(FailedCreateDir))))
    else TestsFilesRun(MkDir(fs, dir), dir, info.url.value, ProblemNames(info.kind), tasksPage, problemPage, tpl)
  }

  /** `generate_tests_dir`. */
  method GenerateTestsDir(disk: Disk, info: ContestInfo,
                          tasksPage: string -> Result<seq<Table>, string>,
                          problemPage: string -> Option<ProblemPage>, tpl: TestTemplates)
    returns (r: Outcome<(), string>)
    requires info.url.Some?
    modifies disk
    ensures (disk.State(), r) == TestsDirRun(old(disk.State()), info, tasksPage, problemPage, tpl)
  {
    var ok := disk.CreateDir(Child(info.name, TESTS_DIR));
    if !ok {
      return Returned(Err(Message(FailedCreateDir)));
    }
    r := GenerateTestsFiles(disk, Child(info.name, TESTS_DIR), info.url.value, ProblemNames(info.kind),
                            tasksPage, problemPage, tpl);
  }

  /** `format!("{}/src/{}.rs", name, x)` for each label, holding the start-trimmed program template. */
  function SourceWrites(name: string, labels: seq<string>, tpl: TestTemplates): (r: seq<(string, string)>)
    ensures |r| == |labels|
  {
    seq(|labels|, i requires 0 <= i < |labels| => (Child(Child(name, "src"), labels[i]) + ".rs", TrimStart(tpl.child)))
  }

  /** The inputs of `create_contest_dir` that come from outside: `cargo new`, the fetches, the templates. */
  datatype Environment = Environment(
    cargoNew: FsState -> FsState,
    fetched: Fetched,
    manifest: ManifestTemplates,
    tasksPage: string -> Result<seq<Table>, string>,
    problemPage: string -> Option<ProblemPage>,
    templates: TestTemplates)

  /** The snapshot and outcome of `create_contest_dir(info)`; any failure after the existence check panics. */
  function CreateContestRun(fs: FsState, info: ContestInfo, env: Environment): (FsState, Outcome<(), string>)
  {
    if info.name in fs.dirs then (fs, Panicked)
    else
      var created := env.cargoNew(fs);
      var main := Child(Child(info.name, "src"), "main.rs");
      if main !in created.files then (created, Panicked)
      else
        var (sources, ok) := PutAll(created.(files := created.files - {main}),
                                    SourceWrites(info.name, ProblemNames(info.kind), env.templates));
        if !ok then (sources, Panicked)
        else
          var (options, o) := OptionsRun(sources, info.name, ProblemNames(info.kind), env.fetched, env.manifest);
          if o != Returned(Ok(())) then (options, Panicked)
          else if info.url.None? then (options, Returned(Ok(())))
          else
            var (tests, t) := TestsDirRun(options, info, env.tasksPage, env.problemPage, env.templates);
            (tests, if t == Returned(Ok(())) then t else Panicked)
  }

  /** `create_contest_dir`: refuse an existing directory, let `cargo new` make the crate, then fill it. */
  method CreateContestDir(disk: Disk, info: ContestInfo, env: Environment) returns (r: Outcome<(), string>)
    modifies disk
    ensures (disk.State(), r) == CreateContestRun(old(disk.State()), info, env)
  {
    if disk.IsDir(info.name) {
      return Panicked;
    }
    var created := env.cargoNew(disk.State());
    disk.dirs, disk.files := created.dirs, created.files;
    var removed := disk.RemoveFile(Child(Child(info.name, "src"), "main.rs"));
    if !removed {
      return Panicked;
    }
    var ok := disk.WriteAll(SourceWrites(info.name, ProblemNames(info.kind), env.templates));
    if !ok {
      return Panicked;
    }
    var options := GenerateOptionsFile(disk, info.name, ProblemNames(info.kind), env.fetched, env.manifest);
    if options != Returned(Ok(())) {
      return Panicked;
    }
    if info.url.None? {
      return Returned(Ok(()));
    }
    r := GenerateTestsDir(disk, info, env.tasksPage, env.problemPage, env.templates);
    if r != Returned(Ok(())) {
      r := Panicked;
    }
  }

  /** An existing directory of that name stops the command before anything is created. */
  lemma CreateContestRefusesExisting(fs: FsState, info: ContestInfo, env: Environment)
    requires info.name in fs.dirs
    ensures CreateContestRun(fs, info, env) == (fs, Panicked)
  {}

  /** Without a `Cargo.toml` here `add_test` stops before touching anything. */
  lemma AddTestNeedsManifest(fs: FsState, url: string, names: seq<string>,
                             tasksPage: string -> Result<seq<Table>, string>,
                             problemPage: string -> Option<ProblemPage>, tpl: TestTemplates)
    requires MANIFEST !in fs.files
    ensures AddTestRun(fs, url, names, tasksPage, problemPage, tpl) == (fs, Panicked)
  {}
}
