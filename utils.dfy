/**
 * src/utils.rs: emptying an open file, storing a fetched file, and rewriting
 * the new crate's `Cargo.toml` and `.cargo/config.toml` from templates.
 * Every fetch is an input: the text it returned, or the failure.
 */
module Utils {
  import opened Wrappers
  import opened Text
  import opened Contests
  import opened Fs

  /** `clear_file`: returns what lies after the cursor, then leaves the file empty with the cursor at 0. */
  method ClearFile(file: FileHandle) returns (content: string)
    modifies file
    ensures content == if old(file.pos) <= |old(file.data)| then old(file.data)[old(file.pos)..] else []
    ensures file.data == [] && file.pos == 0
  {
    content := file.ReadToString();
    file.SetLen(0);
    file.SeekStart(0);
  }

  /** The path `format!("{}/{}", dir, name)`. */
  function Child(dir: string, name: string): string
  {
    dir + "/" + name
  }

  /** Different names in one directory are different paths. */
  lemma ChildrenDiffer(dir: string, a: string, b: string)
    requires a != b
    ensures Child(dir, a) != Child(dir, b)
  {
    assert Child(dir, a)[|dir| + 1..] == a;
    assert Child(dir, b)[|dir| + 1..] == b;
  }

  /** The snapshot and result of `fetch_file(dir, name, ..)` when the fetch gave `fetched`. */
  function FetchFileRun(fs: FsState, dir: string, name: string, fetched: Result<string, ()>): (r: (FsState, Result<(), ErrorMessage>))
    ensures fetched.Err? ==> r == (fs, Err(FailedGet))
    ensures r.1.Ok? <==> fetched.Ok? && Child(dir, name) !in fs.dirs
    ensures r.1.Ok? ==> r.0 == Put(fs, Child(dir, name), fetched.value)
    ensures r.1.Err? ==> r.0 == fs
  {
    if fetched.Err? then (fs, Err(FailedGet))
    else if Child(dir, name) in fs.dirs then (fs, Err(FailedCreateFile))
    else (Put(fs, Child(dir, name), fetched.value), Ok(()))
  }

  /** `fetch_file`: the fetched text replaces the file's contents exactly. */
  method FetchFile(disk: Disk, dir: string, name: string, fetched: Result<string, ()>) returns (r: Result<(), ErrorMessage>)
    modifies disk
    ensures (disk.State(), r) == FetchFileRun(old(disk.State()), dir, name, fetched)
  {
    if fetched.Err? {
      return Err(FailedGet);
    }
    var ok := disk.WriteFile(Child(dir, name), fetched.value);
    r := if ok then Ok(()) else Err(FailedCreateFile);
  }

  const DEPENDENCIES: string := "[dependencies]"

  /**
   * The match of `\[dependencies\](?s:.)*`: the fetched manifest from its
   * first `[dependencies]` to the end. `None` is the failed `unwrap`.
   */
  function DependencyBlock(base: string): (r: Option<string>)
    ensures r.None? <==> !Contains(base, DEPENDENCIES)
    ensures r.Some? ==> StartsWith(r.value, DEPENDENCIES) && |r.value| <= |base|
    ensures r.Some? ==> base == base[..|base| - |r.value|] + r.value
    ensures r.Some? ==> !Contains(base[..|base| - |r.value| + |DEPENDENCIES| - 1], DEPENDENCIES)
  {
    match FindFirst(base, DEPENDENCIES)
    case None => None
    case Some(k) =>
      var block := base[k..];
      assert block[..|DEPENDENCIES|] == base[k..k + |DEPENDENCIES|];
      assert base == base[..k] + block;
      assert !Contains(base[..k + |DEPENDENCIES| - 1], DEPENDENCIES) by {
        var front := base[..k + |DEPENDENCIES| - 1];
        forall j | 0 <= j <= |front| ensures !OccursAt(front, DEPENDENCIES, j) {
          if j + |DEPENDENCIES| <= |front| {
            assert j < k && !OccursAt(base, DEPENDENCIES, j);
            assert front[j..j + |DEPENDENCIES|] == base[j..j + |DEPENDENCIES|];
          }
        }
      }
      Some(block)
  }

  /** The templates the two files are built from. */
  datatype ManifestTemplates = ManifestTemplates(bin: string, addition: string, alias: string)

  /** One `[[bin]]` section per name, in order: the trimmed template with every `{{name}}` replaced. */
  function BinSections(tpl: ManifestTemplates, names: seq<string>): (r: seq<string>)
    ensures |r| == |names|
  {
    seq(|names|, i requires 0 <= i < |names| => Replace(Trim(tpl.bin), "{{name}}", names[i]))
  }

  /**
   * The new `Cargo.toml`: the current content trimmed with every `[dependencies]`
   * removed, the bin sections joined by newlines, a blank line, the fetched
   * dependency block and the addition template.
   */
  function ManifestText(current: string, block: string, tpl: ManifestTemplates, names: seq<string>): string
  {
    Replace(Trim(current), DEPENDENCIES, "") + Join(BinSections(tpl, names), "\n") + "\n\n" + block + tpl.addition
  }

  /**
   * An old manifest without a `[dependencies]` line is kept word for word, only
   * trimmed, ahead of the bin sections, the blank line, the dependency block
   * and the addition.
   */
  lemma ManifestKeepsOldContent(current: string, block: string, tpl: ManifestTemplates, names: seq<string>)
    requires !Contains(Trim(current), DEPENDENCIES)
    ensures ManifestText(current, block, tpl, names) == Trim(current) + Join(BinSections(tpl, names), "\n") + "\n\n" + block + tpl.addition
  {
    ReplaceAbsent(Trim(current), DEPENDENCIES, "");
  }

  /**
   * The manifest `cargo new` writes ends with `[dependencies]`: that trailing
   * header is dropped, and everything before it is kept word for word ahead
   * of the bin sections, the blank line, the dependency block and the addition.
   */
  lemma ManifestFromCargoNew(current: string, head: string, block: string, tpl: ManifestTemplates, names: seq<string>)
    requires Trim(current) == head + DEPENDENCIES && !Contains(head, DEPENDENCIES)
    ensures ManifestText(current, block, tpl, names) == head + Join(BinSections(tpl, names), "\n") + "\n\n" + block + tpl.addition
  {
    assert forall k :: 0 < k < |DEPENDENCIES| ==> DEPENDENCIES[k] != DEPENDENCIES[0];
    ReplaceBeforeUnbordered(head, DEPENDENCIES, "");
    assert head + "" == head;
  }

  /** One alias block per name, in order: the start-trimmed template with `{{name}}` replaced. */
  function AliasBlocks(tpl: ManifestTemplates, names: seq<string>): (r: seq<string>)
    ensures |r| == |names|
  {
    seq(|names|, i requires 0 <= i < |names| => Replace(TrimStart(tpl.alias), "{{name}}", names[i]))
  }

  const ALIAS_HEADER: string := "[alias]\n"

  /** The new `.cargo/config.toml`: `[alias]` and the alias blocks joined by newlines. */
  function ConfigText(tpl: ManifestTemplates, names: seq<string>): string
  {
    ALIAS_HEADER + Join(AliasBlocks(tpl, names), "\n")
  }

  /** Adding a name appends its alias block on a new line; nothing before it changes. */
  lemma ConfigTextAppend(tpl: ManifestTemplates, names: seq<string>, name: string)
    requires names != []
    ensures ConfigText(tpl, names + [name])
      == ConfigText(tpl, names) + "\n" + Replace(TrimStart(tpl.alias), "{{name}}", name)
  {
    var blocks, block := AliasBlocks(tpl, names), Replace(TrimStart(tpl.alias), "{{name}}", name);
    AliasBlocksAppend(tpl, names, name);
    JoinAppend(blocks, block, "\n");
    var joined := Join(blocks, "\n");
    Regroup(ALIAS_HEADER, joined + "\n", block);
    Regroup(ALIAS_HEADER, joined, "\n");
  }

  lemma AliasBlocksAppend(tpl: ManifestTemplates, names: seq<string>, name: string)
    ensures AliasBlocks(tpl, names + [name]) == AliasBlocks(tpl, names) + [Replace(TrimStart(tpl.alias), "{{name}}", name)]
  {
    var longer := AliasBlocks(tpl, names + [name]);
    var expected := AliasBlocks(tpl, names) + [Replace(TrimStart(tpl.alias), "{{name}}", name)];
    forall i | 0 <= i < |longer| ensures longer[i] == expected[i] {
      assert (names + [name])[i] == if i < |names| then names[i] else name;
    }
  }

  /** What the three fetches of `generate_options_file` returned. */
  datatype Fetched = Fetched(cargoToml: Result<string, ()>, cargoLock: Result<string, ()>, toolchain: Result<string, ()>)

  function ManifestPath(dir: string): string { Child(dir, "Cargo.toml") }
  function CargoDir(dir: string): string { Child(dir, ".cargo") }
  function ConfigPath(dir: string): string { Child(CargoDir(dir), "config.toml") }

  /** The snapshot and outcome of `generate_options_file(dir, names)`, step by step as the source takes them. */
  function OptionsRun(fs: FsState, dir: string, names: seq<string>, fetched: Fetched, tpl: ManifestTemplates)
    : (FsState, Outcome<(), ErrorMessage>)
  {
    if fetched.cargoToml.Err? then (fs, Returned(Err(FailedGet)))
    else match DependencyBlock(fetched.cargoToml.value)
    case None => (fs, Panicked)
    case Some(block) =>
      if ManifestPath(dir) !in fs.files then (fs, Returned(Err(FailedCreateFile)))
      else
        var rewritten := Put(fs, ManifestPath(dir), ManifestText(fs.files[ManifestPath(dir)], block, tpl, names));
        ConfigRun(rewritten, dir, names, fetched, tpl)
  }

  /** The steps of `generate_options_file` after the manifest is rewritten: `.cargo`, its configuration, the two fetched files. */
  function ConfigRun(fs: FsState, dir: string, names: seq<string>, fetched: Fetched, tpl: ManifestTemplates)
    : (FsState, Outcome<(), ErrorMessage>)
  {
    if Exists(fs, CargoDir(dir)) then (fs, Returned(Err(FailedCreateFile)))
    else
      var fs1 := MkDir(fs, CargoDir(dir));
      if ConfigPath(dir) in fs1.dirs then (fs1, Returned(Err(FailedCreateFile)))
      else
        var fs2 := Put(fs1, ConfigPath(dir), ConfigText(tpl, names));
        var (fs3, lock) := FetchFileRun(fs2, dir, "Cargo.lock", fetched.cargoLock);
        if lock.Err? then (fs3, Returned(lock))
        else
          var (fs4, toolchain) := FetchFileRun(fs3, dir, "rust-toolchain", fetched.toolchain);
          (fs4, Returned(toolchain))
  }

  /** `generate_options_file`, on the disk, with the current manifest rewritten through an open handle. */
  method GenerateOptionsFile(disk: Disk, dir: string, names: seq<string>, fetched: Fetched, tpl: ManifestTemplates)
    returns (r: Outcome<(), ErrorMessage>)
    modifies disk
    ensures (disk.State(), r) == OptionsRun(old(disk.State()), dir, names, fetched, tpl)
  {
    if fetched.cargoToml.Err? {
      return Returned(Err(FailedGet));
    }
    var found := DependencyBlock(fetched.cargoToml.value);
    if found.None? {
      return Panicked;
    }
    if !disk.IsFile(ManifestPath(dir)) {
      return Returned(Err(FailedCreateFile));
    }
    var manifest := new FileHandle(disk.files[ManifestPath(dir)]);
    var content := ClearFile(manifest);
    var text := ManifestText(content, found.value, tpl, names);
    manifest.WriteAll(text);
    assert manifest.data == text;
    disk.files := disk.files[ManifestPath(dir) := manifest.data];
    var ok := disk.CreateDir(CargoDir(dir));
    if !ok {
      return Returned(Err(FailedCreateFile));
    }
    ok := disk.WriteFile(ConfigPath(dir), ConfigText(tpl, names));
    if !ok {
      return Returned(Err(FailedCreateFile));
    }
    var lock := FetchFile(disk, dir, "Cargo.lock", fetched.cargoLock);
    if lock.Err? {
      return Returned(lock);
    }
    var toolchain := FetchFile(disk, dir, "rust-toolchain", fetched.toolchain);
    r := Returned(toolchain);
  }

  /** A failed manifest fetch is reported before anything on disk is touched. */
  lemma OptionsFetchFailsFirst(fs: FsState, dir: string, names: seq<string>, fetched: Fetched, tpl: ManifestTemplates)
    requires fetched.cargoToml.Err?
    ensures OptionsRun(fs, dir, names, fetched, tpl) == (fs, Returned(Err(FailedGet)))
  {}

  /** Without an existing `Cargo.toml` the run fails with `FailedCreateFile` and changes nothing. */
  lemma OptionsNeedManifest(fs: FsState, dir: string, names: seq<string>, fetched: Fetched, tpl: ManifestTemplates)
    requires fetched.cargoToml.Ok? && Contains(fetched.cargoToml.value, DEPENDENCIES)
    requires ManifestPath(dir) !in fs.files
    ensures OptionsRun(fs, dir, names, fetched, tpl) == (fs, Returned(Err(FailedCreateFile)))
  {}

  /** The four paths the run writes are four different files, and none is `.cargo`. */
  lemma OptionsPathsDistinct(dir: string)
    ensures ManifestPath(dir) != ConfigPath(dir) && ManifestPath(dir) != Child(dir, "Cargo.lock")
    ensures ManifestPath(dir) != Child(dir, "rust-toolchain") && ConfigPath(dir) != Child(dir, "Cargo.lock")
    ensures ConfigPath(dir) != Child(dir, "rust-toolchain") && Child(dir, "Cargo.lock") != Child(dir, "rust-toolchain")
    ensures CargoDir(dir) != ConfigPath(dir)
  {
    assert ConfigPath(dir) == Child(dir, ".cargo/config.toml") by {
      assert ConfigPath(dir) == dir + "/" + ".cargo" + "/" + "config.toml";
    }
    ChildrenDiffer(dir, "Cargo.toml", ".cargo/config.toml");
    ChildrenDiffer(dir, "Cargo.toml", "Cargo.lock");
    ChildrenDiffer(dir, "Cargo.toml", "rust-toolchain");
    ChildrenDiffer(dir, ".cargo/config.toml", "Cargo.lock");
    ChildrenDiffer(dir, ".cargo/config.toml", "rust-toolchain");
    ChildrenDiffer(dir, "Cargo.lock", "rust-toolchain");
    ChildrenDiffer(dir, ".cargo", ".cargo/config.toml");
  }

  /** After the configuration steps succeed, `.cargo` is a directory and the three files hold their texts. */
  lemma ConfigSuccessContents(fs: FsState, dir: string, names: seq<string>, fetched: Fetched, tpl: ManifestTemplates)
    requires ConfigRun(fs, dir, names, fetched, tpl).1 == Returned(Ok(()))
    ensures fetched.cargoLock.Ok? && fetched.toolchain.Ok?
    ensures var after := ConfigRun(fs, dir, names, fetched, tpl).0;
      && CargoDir(dir) in after.dirs
      && ConfigPath(dir) in after.files && after.files[ConfigPath(dir)] == ConfigText(tpl, names)
      && Child(dir, "Cargo.lock") in after.files && after.files[Child(dir, "Cargo.lock")] == fetched.cargoLock.value
      && Child(dir, "rust-toolchain") in after.files && after.files[Child(dir, "rust-toolchain")] == fetched.toolchain.value
  {
    OptionsPathsDistinct(dir);
  }

  /** The configuration steps touch only `.cargo`, its configuration, the lock file and the toolchain file. */
  lemma ConfigRunKeepsOthers(fs: FsState, dir: string, names: seq<string>, fetched: Fetched, tpl: ManifestTemplates, p: string)
    requires p != ConfigPath(dir) && p != Child(dir, "Cargo.lock") && p != Child(dir, "rust-toolchain")
    ensures p in ConfigRun(fs, dir, names, fetched, tpl).0.files <==> p in fs.files
    ensures p in fs.files ==> ConfigRun(fs, dir, names, fetched, tpl).0.files[p] == fs.files[p]
  {
    if !Exists(fs, CargoDir(dir)) {
      var fs1 := MkDir(fs, CargoDir(dir));
      if ConfigPath(dir) !in fs1.dirs {
        var fs2 := Put(fs1, ConfigPath(dir), ConfigText(tpl, names));
        assert fs2.files == fs.files[ConfigPath(dir) := ConfigText(tpl, names)];
        var fs3 := FetchFileRun(fs2, dir, "Cargo.lock", fetched.cargoLock).0;
        assert p in fs3.files <==> p in fs.files;
        assert p in fs.files ==> fs3.files[p] == fs.files[p];
        var fs4 := FetchFileRun(fs3, dir, "rust-toolchain", fetched.toolchain).0;
        assert p in fs4.files <==> p in fs.files;
      }
    }
  }

  /**
   * After a successful run the manifest, the alias configuration, the lock
   * file and the toolchain file hold exactly what was composed or fetched,
   * and `.cargo` is a directory.
   */
  lemma OptionsSuccessContents(fs: FsState, dir: string, names: seq<string>, fetched: Fetched, tpl: ManifestTemplates)
    requires OptionsRun(fs, dir, names, fetched, tpl).1 == Returned(Ok(()))
    ensures fetched.cargoToml.Ok? && DependencyBlock(fetched.cargoToml.value).Some? && ManifestPath(dir) in fs.files
    ensures var after := OptionsRun(fs, dir, names, fetched, tpl).0;
      && ManifestPath(dir) in after.files
      && after.files[ManifestPath(dir)]
         == ManifestText(fs.files[ManifestPath(dir)], DependencyBlock(fetched.cargoToml.value).value, tpl, names)
      && CargoDir(dir) in after.dirs
      && ConfigPath(dir) in after.files && after.files[ConfigPath(dir)] == ConfigText(tpl, names)
  {
    var block := DependencyBlock(fetched.cargoToml.value).value;
    var text := ManifestText(fs.files[ManifestPath(dir)], block, tpl, names);
    var rewritten := Put(fs, ManifestPath(dir), text);
    assert OptionsRun(fs, dir, names, fetched, tpl) == ConfigRun(rewritten, dir, names, fetched, tpl);
    ConfigSuccessContents(rewritten, dir, names, fetched, tpl);
    OptionsPathsDistinct(dir);
    ConfigRunKeepsOthers(rewritten, dir, names, fetched, tpl, ManifestPath(dir));
  }
}
