/** The wheel-inspection and stub-generation logic of `script_maker`: the wheel
    name, the archive filter, the two stub templates, `generate_entrypoint`,
    `generate_script` and the branch sequence of `main`. */
module ScriptMaker {
  import opened Wrappers
  import opened FileSystems
  import Strings
  import Format

  const ConsoleScripts: string := "console_scripts"
  const NoEntryPointsMessage: string := "The current wheel has no entry points or scripts"

  /** The exceptions a run can end with. */
  datatype Error =
    | MalformedWheelName(fileName: string)       // ValueError: fewer than two `-` in the file name
    | NoSection(section: string)                 // configparser.NoSectionError
    | NoOption(section: string, option: string)  // configparser.NoOptionError
    | MalformedEntryPoint(value: string)         // ValueError: an entry-point value without `:`
    | ReplaceFailed(error: OsError)              // the OSError of `replace`
    | Runtime(message: string, wheelName: string) // the deliberate RuntimeError

  /** One entry of the archive's central directory with its uncompressed contents. */
  datatype ZipMember = ZipMember(filename: string, data: string)

  /** The parsed command line. `wheelFile` is the last path component of `--wheel`. */
  datatype Options = Options(
    wheelFile: string,
    entrypoint: string,
    output: string,
    outScriptPath: string,
    outScriptShortPath: string)

  /** A parsed INI file: section -> key -> value. */
  type Ini = map<string, map<string, string>>

  /** The file system after a step, and whether the step completed or raised. */
  datatype Effect = Effect(files: Files, outcome: Outcome<Error>)

  // ---------------------------------------------------------------------------
  // Wheel name

  /** `name, version, _ = file_name.split("-", 2)` and `"{}-{}".format(name, version)`. */
  function GetWheelName(fileName: string): (r: Result<string, Error>)
    ensures r.Success? <==> Strings.Count('-', fileName) >= 2
    ensures r.Success? ==> r.value + "-" <= fileName && Strings.Count('-', r.value) == 1
    ensures r.Failure? ==> r.error == MalformedWheelName(fileName)
  {
    var parts := Strings.Split(fileName, '-', 2);
    WheelNameSplit(fileName);
    if |parts| == 3 then Success(parts[0] + "-" + parts[1])
    else Failure(MalformedWheelName(fileName))
  }

  /** The split of a file name has three parts exactly when it holds two `-`, and
      then the first two parts rejoined are the prefix before the second `-`. */
  lemma WheelNameSplit(fileName: string)
    ensures var parts := Strings.Split(fileName, '-', 2);
            && (|parts| == 3 <==> Strings.Count('-', fileName) >= 2)
            && (|parts| == 3 ==>
                  var name := parts[0] + "-" + parts[1];
                  name + "-" <= fileName && Strings.Count('-', name) == 1)
  {
    var parts := Strings.Split(fileName, '-', 2);
    Strings.CountJoin(parts, '-');
    if |parts| == 3 {
      WheelNamePrefix(fileName, parts);
    } else {
      Strings.CountAbsent('-', parts[|parts| - 1]);
    }
  }

  lemma WheelNamePrefix(fileName: string, parts: seq<string>)
    requires |parts| == 3 && Strings.IsSplit(parts, '-', 2) && Strings.Join(parts, '-') == fileName
    ensures var name := parts[0] + "-" + parts[1];
            name + "-" <= fileName && Strings.Count('-', name) == 1
  {
    var rest := [parts[1], parts[2]];
    assert parts[1..] == rest;
    assert Strings.Join(rest, '-') == parts[1] + "-" + parts[2] by {
      assert rest[1..] == [parts[2]];
    }
    assert fileName == parts[0] + "-" + (parts[1] + "-" + parts[2]);
    Reassociate(parts[0], parts[1], parts[2]);
    NameCount(parts[0], parts[1]);
  }

  /** Two dash-free parts joined by `-` hold exactly one `-`. */
  lemma NameCount(a: string, b: string)
    requires '-' !in a && '-' !in b
    ensures Strings.Count('-', a + "-" + b) == 1
  {
    assert Strings.Join([a, b], '-') == a + "-" + b by {
      assert [a, b][1..] == [b];
    }
    Strings.CountJoin([a, b], '-');
    Strings.CountAbsent('-', b);
  }

  lemma Reassociate(a: string, b: string, c: string)
    ensures a + "-" + (b + "-" + c) == (a + "-" + b) + "-" + c
  {
  }

  /** For a file name `A-B-C` with `A` and `B` free of `-`, the wheel name is `A-B`;
      everything after the second `-` is discarded, further dashes included. */
  lemma WheelNameOfParts(name: string, version: string, rest: string)
    requires '-' !in name && '-' !in version
    ensures GetWheelName(name + "-" + version + "-" + rest) == Success(name + "-" + version)
  {
    var parts := [name, version, rest];
    assert Strings.Join(parts, '-') == name + "-" + version + "-" + rest by {
      assert parts[1..] == [version, rest];
      assert parts[1..][1..] == [rest];
      assert Strings.Join(parts[1..], '-') == version + "-" + rest;
    }
    Strings.SplitJoin(parts, '-', 2);
  }

  // ---------------------------------------------------------------------------
  // Extraction

  /** The filter of `extract_wheel`: a plain prefix test against the two directories. */
  predicate Selected(wheelName: string, filename: string)
  {
    (wheelName + ".data") <= filename || (wheelName + ".dist-info") <= filename
  }

  /** The members `extract_wheel` extracts, in archive order. */
  function Filter(wheelName: string, members: seq<ZipMember>): (kept: seq<ZipMember>)
    ensures forall m :: m in kept <==> m in members && Selected(wheelName, m.filename)
    ensures |kept| <= |members|
  {
    if members == [] then []
    else
      var init, last := members[..|members| - 1], members[|members| - 1];
      assert members == init + [last];
      Filter(wheelName, init) + (if Selected(wheelName, last.filename) then [last] else [])
  }

  /** Extracting `members` one after another below `outDir`; a later member
      overwrites an earlier one of the same name. */
  function Unpacked(files: Files, members: seq<ZipMember>, outDir: string): Files
  {
    if members == [] then files
    else
      var last := members[|members| - 1];
      Unpacked(files, members[..|members| - 1], outDir)[PathJoin(outDir, last.filename) := last.data]
  }

  /** The file system after `extract_wheel`. */
  function Extracted(files: Files, wheelName: string, members: seq<ZipMember>, outDir: string): Files
  {
    Unpacked(files, Filter(wheelName, members), outDir)
  }

  /** `extract_wheel(wheel_name, wheel, out_dir)`, the archive given by its members. */
  method ExtractWheel(fs: FileSystem, wheelName: string, members: seq<ZipMember>, outDir: string)
    modifies fs
    ensures fs.files == Extracted(old(fs.files), wheelName, members, outDir)
  {
    var dataDir := wheelName + ".data";
    var distInfo := wheelName + ".dist-info";
    for i := 0 to |members|
      invariant fs.files == Extracted(old(fs.files), wheelName, members[..i], outDir)
    {
      var member := members[i];
      ghost var kept := Filter(wheelName, members[..i]);
      assert members[..i + 1] == members[..i] + [member];
      assert members[..i + 1][..i] == members[..i];
      if dataDir <= member.filename || distInfo <= member.filename {
        assert (kept + [member])[..|kept|] == kept;
        fs.WriteText(PathJoin(outDir, member.filename), member.data);
      } else {
        assert kept + [] == kept;
      }
    }
    assert members[..|members|] == members;
  }

  // ---------------------------------------------------------------------------
  // Entry points

  const EntryPointStubHead: string := "#!/usr/bin/env python\n" + "if __name__ == \"__main__\":\n" + "    from "

  /** ENTRY_POINT_TEMPLATE, the stub for a `console_scripts` entry (import the
      callable and call it), as its literal text and replacement fields. */
  const EntryPointPieces: seq<Format.Piece> := [
    Format.Text(EntryPointStubHead),
    Format.Field("module"),
    Format.Text(" import "),
    Format.Field("method"),
    Format.Text("\n    "),
    Format.Field("method"),
    Format.Text("()\n")]

  /** The template text itself, braces and all. */
  const EntryPointTemplate: string := Format.Source(EntryPointPieces)

  lemma EntryPointPiecesWellFormed(fields: map<string, string>)
    requires "module" in fields && "method" in fields
    ensures Format.WellFormed(EntryPointPieces, fields)
  {
    assert Format.BraceFree("#!/usr/bin/env python\n");
    assert Format.BraceFree("if __name__ == \"__main__\":\n");
    assert Format.BraceFree("    from ");
  }

  /** The stub `generate_entrypoint` writes for `module:method`. */
  function EntryPointStub(moduleName: string, methodName: string): (stub: string)
    ensures Format.Format(EntryPointTemplate, map["module" := moduleName, "method" := methodName]) == Success(stub)
  {
    var fields := map["module" := moduleName, "method" := methodName];
    EntryPointPiecesWellFormed(fields);
    Format.FormatPieces(EntryPointPieces, fields);
    Format.Fill(EntryPointPieces, fields)
  }

  /** The entry stub is the template text with the module and, twice, the method put in. */
  lemma EntryPointStubText(moduleName: string, methodName: string)
    ensures EntryPointStub(moduleName, methodName)
         == EntryPointStubHead + moduleName + " import " + methodName + "\n    " + methodName + "()\n"
  {
    var fields := map["module" := moduleName, "method" := methodName];
    var ps := EntryPointPieces;
    var tail := methodName + "()\n";
    assert Format.Fill(ps[7..], fields) == "";
    assert Format.Fill(ps[5..], fields) == tail;
    assert Format.Fill(ps[3..], fields) == methodName + ("\n    " + tail);
    assert Format.Fill(ps[1..], fields) == moduleName + (" import " + (methodName + ("\n    " + tail)));
  }

  /** What `ConfigParser.read(path)` leaves: the parsed file, or no sections at all
      when `path` is not a readable file (configparser skips it silently). */
  function ReadConfig(files: Files, path: string, parse: string -> Ini): Ini
  {
    if path in files then parse(files[path]) else map[]
  }

  /** `config.get(section, option)`. */
  function GetOption(config: Ini, section: string, option: string): Result<string, Error>
  {
    if section !in config then Failure(NoSection(section))
    else if option !in config[section] then Failure(NoOption(section, option))
    else Success(config[section][option])
  }

  /** `module, method = value.split(":", 1)`. */
  function SplitEntryPoint(value: string): (r: Result<(string, string), Error>)
    ensures r.Success? <==> ':' in value
    ensures r.Success? ==> value == r.value.0 + ":" + r.value.1 && ':' !in r.value.0
    ensures r.Failure? ==> r.error == MalformedEntryPoint(value)
  {
    var parts := Strings.Split(value, ':', 1);
    if |parts| == 2 then
      assert value == parts[0] + ":" + parts[1] by {
        assert parts[1..] == [parts[1]];
      }
      Success((parts[0], parts[1]))
    else
      Failure(MalformedEntryPoint(value))
  }

  /** The split is at the first colon: the module is the colon-free text before it
      and the method is all of the rest, later colons included. */
  lemma SplitEntryPointOfParts(moduleName: string, methodName: string)
    requires ':' !in moduleName
    ensures SplitEntryPoint(moduleName + ":" + methodName) == Success((moduleName, methodName))
  {
    var parts := [moduleName, methodName];
    assert Strings.Join(parts, ':') == moduleName + ":" + methodName by {
      assert parts[1..] == [methodName];
    }
    Strings.SplitJoin(parts, ':', 1);
  }

  /** `generate_entrypoint(entrypoints_txt, entrypoint, output)`. */
  function EntrypointSpec(files: Files, entrypointsTxt: string, entrypoint: string, output: string,
                          parse: string -> Ini): Effect
  {
    match GetOption(ReadConfig(files, entrypointsTxt, parse), ConsoleScripts, entrypoint)
    case Failure(e) => Effect(files, Fail(e))
    case Success(option) =>
      if option == "" then Effect(files, Pass)
      else
        match SplitEntryPoint(option)
        case Failure(e) => Effect(files, Fail(e))
        case Success((moduleName, methodName)) => Effect(files[output := EntryPointStub(moduleName, methodName)], Pass)
  }

  method GenerateEntrypoint(fs: FileSystem, entrypointsTxt: string, entrypoint: string, output: string,
                            parse: string -> Ini)
    returns (outcome: Outcome<Error>)
    modifies fs
    ensures Effect(fs.files, outcome) == EntrypointSpec(old(fs.files), entrypointsTxt, entrypoint, output, parse)
  {
    var config := ReadConfig(fs.files, entrypointsTxt, parse);
    var option := GetOption(config, ConsoleScripts, entrypoint);
    if option.Failure? {
      return Fail(option.error);
    }
    outcome := Pass;
    if option.value != "" {
      var split := SplitEntryPoint(option.value);
      if split.Failure? {
        return Fail(split.error);
      }
      var (moduleName, methodName) := split.value;
      fs.WriteText(output, EntryPointStub(moduleName, methodName));
    }
  }

  // ---------------------------------------------------------------------------
  // Scripts

  const ScriptStubHead: string :=
    "#!/usr/bin/env python\n" + "if __name__ == \"__main__\":\n" + "    import os\n" + "    import sys\n"
    + "    script_path = \""
  const ScriptStubTail: string :=
    "\"\n" + "    args = sys.argv.copy()\n" + "    args[0] = script_path\n"
    + "    os.execv(sys.executable, " + "[sys.executable] + args)\n"

  /** SCRIPT_TEMPLATE, the re-exec stub for a bundled script, as its literal text
      and its one replacement field. */
  const ScriptPieces: seq<Format.Piece> := [
    Format.Text(ScriptStubHead),
    Format.Field("script_path"),
    Format.Text(ScriptStubTail)]

  const ScriptTemplate: string := Format.Source(ScriptPieces)

  lemma ScriptPiecesWellFormed(fields: map<string, string>)
    requires "script_path" in fields
    ensures Format.WellFormed(ScriptPieces, fields)
  {
    ScriptStubHeadBraceFree();
    ScriptStubTailBraceFree();
  }

  lemma ScriptStubHeadBraceFree()
    ensures Format.BraceFree(ScriptStubHead)
  {
    assert Format.BraceFree("#!/usr/bin/env python\n");
    assert Format.BraceFree("if __name__ == \"__main__\":\n");
    assert Format.BraceFree("    import os\n" + "    import sys\n");
    assert Format.BraceFree("    script_path = \"");
  }

  lemma ScriptStubTailBraceFree()
    ensures Format.BraceFree(ScriptStubTail)
  {
    assert Format.BraceFree("\"\n" + "    args = sys.argv.copy()\n");
    assert Format.BraceFree("    args[0] = script_path\n");
    assert Format.BraceFree("    os.execv(sys.executable, ");
    assert Format.BraceFree("[sys.executable] + args)\n");
  }

  /** The stub `generate_script` writes for the short path of the relocated script. */
  function ScriptStub(shortPath: string): (stub: string)
    ensures Format.Format(ScriptTemplate, map["script_path" := shortPath]) == Success(stub)
  {
    var fields := map["script_path" := shortPath];
    ScriptPiecesWellFormed(fields);
    Format.FormatPieces(ScriptPieces, fields);
    Format.Fill(ScriptPieces, fields)
  }

  /** The re-exec stub is the template text around the short path. */
  lemma ScriptStubText(shortPath: string)
    ensures ScriptStub(shortPath) == ScriptStubHead + shortPath + ScriptStubTail
  {
    var fields := map["script_path" := shortPath];
    var ps := ScriptPieces;
    assert Format.Fill(ps[3..], fields) == "";
    assert Format.Fill(ps[2..], fields) == ScriptStubTail;
    assert Format.Fill(ps[1..], fields) == shortPath + ScriptStubTail;
  }

  /** The re-exec stub embeds the short path verbatim: different paths give different stubs. */
  lemma ScriptStubDeterminesPath(p: string, q: string)
    requires ScriptStub(p) == ScriptStub(q)
    ensures p == q
  {
    var h := |ScriptStubHead|;
    ScriptStubText(p);
    ScriptStubText(q);
    assert |p| == |q|;
    assert ScriptStub(p)[h..h + |p|] == p;
    assert ScriptStub(q)[h..h + |q|] == q;
  }

  /** `generate_script(scripts_dir, script_name, output, out_script_path, out_script_short_path)`,
      `listing` being the names `scripts_dir.iterdir()` yields, in its order. */
  function ScriptSpec(files: Files, listing: seq<string>, scriptsDir: string, scriptName: string,
                      output: string, outScriptPath: string, outScriptShortPath: string): Effect
  {
    if scriptName !in listing then Effect(files, Pass)
    else
      var written := files[output := ScriptStub(outScriptShortPath)];
      match Replaced(written, PathJoin(scriptsDir, scriptName), outScriptPath)
      case Success(moved) => Effect(moved, Pass)
      case Failure(e) => Effect(written, Fail(ReplaceFailed(e)))
  }

  method GenerateScript(fs: FileSystem, listing: seq<string>, scriptsDir: string, scriptName: string,
                        output: string, outScriptPath: string, outScriptShortPath: string)
    returns (outcome: Outcome<Error>)
    modifies fs
    ensures Effect(fs.files, outcome)
         == ScriptSpec(old(fs.files), listing, scriptsDir, scriptName, output, outScriptPath, outScriptShortPath)
  {
    outcome := Pass;
    for i := 0 to |listing|
      invariant scriptName !in listing[..i]
      invariant fs.files == old(fs.files)
    {
      if listing[i] == scriptName {
        fs.WriteText(output, ScriptStub(outScriptShortPath));
        var source := PathJoin(scriptsDir, listing[i]);
        var replaced := fs.Replace(source, outScriptPath);
        if replaced.Fail? {
          outcome := Fail(ReplaceFailed(replaced.error));
        }
        break;
      }
      assert listing[..i + 1] == listing[..i] + [listing[i]];
    }
    assert listing[..|listing|] == listing;
  }

  // ---------------------------------------------------------------------------
  // main

  /** `find_entrypoints_file` looks here. */
  function EntryPointsTxt(wheelName: string, wheelDir: string): string
  {
    PathJoin(PathJoin(wheelDir, wheelName + ".dist-info"), "entry_points.txt")
  }

  /** `find_scripts_dir` looks here. */
  function ScriptsDir(wheelName: string, wheelDir: string): string
  {
    PathJoin(PathJoin(wheelDir, wheelName + ".data"), "scripts")
  }

  /** The body of the `with tempfile.TemporaryDirectory()` block of `main`, run with
      scratch directory `tempDir`. */
  function MainBodySpec(files: Files, options: Options, archive: seq<ZipMember>, tempDir: string,
                        listing: seq<string>, parse: string -> Ini): Effect
  {
    match GetWheelName(options.wheelFile)
    case Failure(e) => Effect(files, Fail(e))
    case Success(wheelName) =>
      var extracted := Extracted(files, wheelName, archive, tempDir);
      var entrypointsTxt := EntryPointsTxt(wheelName, tempDir);
      if PathExists(extracted, entrypointsTxt) then
        var generated := EntrypointSpec(extracted, entrypointsTxt, options.entrypoint, options.output, parse);
        if generated.outcome.Fail? then generated
        else Effect(generated.files[options.outScriptPath := ""], Pass)
      else
        var scriptsDir := ScriptsDir(wheelName, tempDir);
        if PathExists(extracted, scriptsDir) then
          ScriptSpec(extracted, listing, scriptsDir, options.entrypoint,
                     options.output, options.outScriptPath, options.outScriptShortPath)
        else Effect(extracted, Fail(Runtime(NoEntryPointsMessage, wheelName)))
  }

  /** `main()`: the body, then the scratch directory is deleted on every exit path. */
  function MainSpec(files: Files, options: Options, archive: seq<ZipMember>, tempDir: string,
                    listing: seq<string>, parse: string -> Ini): Effect
  {
    var body := MainBodySpec(files, options, archive, tempDir, listing, parse);
    Effect(Removed(body.files, tempDir), body.outcome)
  }

  method MainBody(fs: FileSystem, options: Options, archive: seq<ZipMember>, tempDir: string,
                  listing: seq<string>, parse: string -> Ini)
    returns (outcome: Outcome<Error>)
    modifies fs
    ensures Effect(fs.files, outcome) == MainBodySpec(old(fs.files), options, archive, tempDir, listing, parse)
  {
    var wheelName := GetWheelName(options.wheelFile);
    if wheelName.Failure? {
      return Fail(wheelName.error);
    }
    ExtractWheel(fs, wheelName.value, archive, tempDir);
    var entrypointsTxt := EntryPointsTxt(wheelName.value, tempDir);
    if fs.Exists(entrypointsTxt) {
      outcome := GenerateEntrypoint(fs, entrypointsTxt, options.entrypoint, options.output, parse);
      if outcome.Fail? {
        return;
      }
      fs.WriteText(options.outScriptPath, "");
      return;
    }
    var scriptsDir := ScriptsDir(wheelName.value, tempDir);
    if fs.Exists(scriptsDir) {
      outcome := GenerateScript(fs, listing, scriptsDir, options.entrypoint,
                                options.output, options.outScriptPath, options.outScriptShortPath);
      return;
    }
    outcome := Fail(Runtime(NoEntryPointsMessage, wheelName.value));
  }

  /** `main()` after argument parsing: `options` is the command line, `archive` the
      wheel's members, `tempDir` the directory `TemporaryDirectory` created,
      `listing` the order of `iterdir` and `parse` the INI reader. */
  method Run(fs: FileSystem, options: Options, archive: seq<ZipMember>, tempDir: string,
             listing: seq<string>, parse: string -> Ini)
    returns (outcome: Outcome<Error>)
    modifies fs
    ensures Effect(fs.files, outcome) == MainSpec(old(fs.files), options, archive, tempDir, listing, parse)
  {
    outcome := MainBody(fs, options, archive, tempDir, listing, parse);
    fs.RemoveTree(tempDir);
  }
}
