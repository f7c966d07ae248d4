/** What the tool promises, stated over the model of `script_maker`. */
module Properties {
  import opened Wrappers
  import opened FileSystems
  import opened ScriptMaker
  import Strings

  // ---------------------------------------------------------------------------
  // Extraction

  /** The filter keeps archive order: filtering a concatenation filters each part. */
  lemma {:induction false} FilterConcat(wheelName: string, a: seq<ZipMember>, b: seq<ZipMember>)
    ensures Filter(wheelName, a + b) == Filter(wheelName, a) + Filter(wheelName, b)
    decreases |b|
  {
    if b == [] {
      assert a + b == a;
    } else {
      var init, last := b[..|b| - 1], b[|b| - 1];
      assert a + b == (a + init) + [last];
      assert (a + b)[..|a + b| - 1] == a + init;
      FilterConcat(wheelName, a, init);
    }
  }

  /** Unpacking creates exactly the member paths below `outDir`. */
  lemma {:induction false} UnpackedKeys(files: Files, members: seq<ZipMember>, outDir: string, p: string)
    ensures p in Unpacked(files, members, outDir)
        <==> p in files || exists k :: 0 <= k < |members| && p == PathJoin(outDir, members[k].filename)
    decreases |members|
  {
    if members != [] {
      var init := members[..|members| - 1];
      UnpackedKeys(files, init, outDir, p);
      if exists k :: 0 <= k < |init| && p == PathJoin(outDir, init[k].filename) {
        var k :| 0 <= k < |init| && p == PathJoin(outDir, init[k].filename);
        assert members[k] == init[k];
      }
      if exists k :: 0 <= k < |members| && p == PathJoin(outDir, members[k].filename) {
        var k :| 0 <= k < |members| && p == PathJoin(outDir, members[k].filename);
        if k < |init| {
          assert init[k] == members[k];
        }
      }
    }
  }

  /** Nothing outside `outDir` is touched by unpacking. */
  lemma {:induction false} UnpackedFrame(files: Files, members: seq<ZipMember>, outDir: string, p: string)
    requires !InTree(p, outDir)
    ensures p in Unpacked(files, members, outDir) <==> p in files
    ensures p in files ==> Unpacked(files, members, outDir)[p] == files[p]
    decreases |members|
  {
    if members != [] {
      var last := members[|members| - 1];
      assert InTree(PathJoin(outDir, last.filename), outDir);
      UnpackedFrame(files, members[..|members| - 1], outDir, p);
    }
  }

  /** `extract_wheel` extracts a member if and only if its name starts with
      `{wheel_name}.data` or `{wheel_name}.dist-info`; everything else is skipped. */
  lemma ExtractedKeys(files: Files, wheelName: string, members: seq<ZipMember>, outDir: string, p: string)
    ensures p in Extracted(files, wheelName, members, outDir)
        <==> p in files || exists m :: m in members && Selected(wheelName, m.filename) && p == PathJoin(outDir, m.filename)
  {
    var kept := Filter(wheelName, members);
    UnpackedKeys(files, kept, outDir, p);
    if exists k :: 0 <= k < |kept| && p == PathJoin(outDir, kept[k].filename) {
      var k :| 0 <= k < |kept| && p == PathJoin(outDir, kept[k].filename);
      assert kept[k] in kept;
    }
    if exists m :: m in members && Selected(wheelName, m.filename) && p == PathJoin(outDir, m.filename) {
      var m :| m in members && Selected(wheelName, m.filename) && p == PathJoin(outDir, m.filename);
      assert m in kept;
      var k :| 0 <= k < |kept| && kept[k] == m;
    }
  }

  lemma PathJoinDistinct(dir: string, a: string, b: string)
    requires a != b
    ensures PathJoin(dir, a) != PathJoin(dir, b)
  {
    assert PathJoin(dir, a)[|dir| + 1..] == a;
    assert PathJoin(dir, b)[|dir| + 1..] == b;
  }

  /** The file at a member's path holds the data of the last member of that name. */
  lemma {:induction false} UnpackedLast(files: Files, members: seq<ZipMember>, outDir: string, k: nat)
    requires k < |members|
    requires forall j :: k < j < |members| ==> members[j].filename != members[k].filename
    ensures PathJoin(outDir, members[k].filename) in Unpacked(files, members, outDir)
    ensures Unpacked(files, members, outDir)[PathJoin(outDir, members[k].filename)] == members[k].data
    decreases |members|
  {
    if k < |members| - 1 {
      var init, last := members[..|members| - 1], members[|members| - 1];
      assert init[k] == members[k];
      forall j | k < j < |init| ensures init[j].filename != init[k].filename {
        assert init[j] == members[j];
      }
      UnpackedLast(files, init, outDir, k);
      PathJoinDistinct(outDir, last.filename, members[k].filename);
    }
  }

  /** A selected member sits in the filtered sequence between what the filter keeps
      before it and what it keeps after it. */
  lemma FilterAround(wheelName: string, members: seq<ZipMember>, k: nat)
    requires k < |members| && Selected(wheelName, members[k].filename)
    ensures Filter(wheelName, members)
         == Filter(wheelName, members[..k]) + [members[k]] + Filter(wheelName, members[k + 1..])
  {
    var m := members[k];
    var before, after := members[..k], members[k + 1..];
    assert members == before + [m] + after;
    FilterConcat(wheelName, before + [m], after);
    FilterConcat(wheelName, before, [m]);
    assert Filter(wheelName, [m]) == [m] by {
      assert [m][..0] == [];
    }
  }

  lemma LaterIsInTail<T>(pre: seq<T>, tail: seq<T>, j: nat)
    requires |pre| <= j < |pre| + |tail|
    ensures (pre + tail)[j] in tail
  {
    assert (pre + tail)[j] == tail[j - |pre|];
  }

  /** An extracted file holds the data of the last archive member of that name. */
  lemma ExtractedContent(files: Files, wheelName: string, members: seq<ZipMember>, outDir: string, k: nat)
    requires k < |members| && Selected(wheelName, members[k].filename)
    requires forall j :: k < j < |members| ==> members[j].filename != members[k].filename
    ensures var p := PathJoin(outDir, members[k].filename);
            p in Extracted(files, wheelName, members, outDir)
            && Extracted(files, wheelName, members, outDir)[p] == members[k].data
  {
    var m := members[k];
    var after := members[k + 1..];
    FilterAround(wheelName, members, k);
    var pre := Filter(wheelName, members[..k]) + [m];
    var tail := Filter(wheelName, after);
    var kept := pre + tail;
    var i := |pre| - 1;
    assert kept[i] == m;
    forall j | i < j < |kept| ensures kept[j].filename != m.filename {
      LaterIsInTail(pre, tail, j);
      var a :| 0 <= a < |after| && after[a] == kept[j];
      assert after[a] == members[k + 1 + a];
    }
    UnpackedLast(files, kept, outDir, i);
  }

  // ---------------------------------------------------------------------------
  // generate_entrypoint

  /** A `console_scripts` value `module:method` (the module free of `:`) makes
      `generate_entrypoint` write exactly the templated stub to `output`, and nothing else. */
  lemma EntrypointWritesStub(files: Files, entrypointsTxt: string, entrypoint: string, output: string,
                             parse: string -> Ini, moduleName: string, methodName: string)
    requires entrypointsTxt in files
    requires ConsoleScripts in parse(files[entrypointsTxt])
    requires entrypoint in parse(files[entrypointsTxt])[ConsoleScripts]
    requires parse(files[entrypointsTxt])[ConsoleScripts][entrypoint] == moduleName + ":" + methodName
    requires ':' !in moduleName
    ensures EntrypointSpec(files, entrypointsTxt, entrypoint, output, parse)
         == Effect(files[output := EntryPointStub(moduleName, methodName)], Pass)
  {
    SplitEntryPointOfParts(moduleName, methodName);
  }

  /** Every way `generate_entrypoint` can end: a missing section or key raises, an
      empty value writes nothing, a value without `:` raises, and no error writes anything. */
  lemma EntrypointOutcomes(files: Files, entrypointsTxt: string, entrypoint: string, output: string,
                           parse: string -> Ini)
    ensures var config := ReadConfig(files, entrypointsTxt, parse);
            var e := EntrypointSpec(files, entrypointsTxt, entrypoint, output, parse);
            && (ConsoleScripts !in config ==> e == Effect(files, Fail(NoSection(ConsoleScripts))))
            && (ConsoleScripts in config && entrypoint !in config[ConsoleScripts] ==>
                  e == Effect(files, Fail(NoOption(ConsoleScripts, entrypoint))))
            && (ConsoleScripts in config && entrypoint in config[ConsoleScripts] ==>
                  var value := config[ConsoleScripts][entrypoint];
                  && (value == "" ==> e == Effect(files, Pass))
                  && (value != "" && ':' !in value ==> e == Effect(files, Fail(MalformedEntryPoint(value))))
                  && (value != "" && ':' in value ==> e.outcome == Pass && output in e.files))
            && (e.outcome.Fail? ==> e.files == files)
  {
  }

  // ---------------------------------------------------------------------------
  // generate_script

  /** A name `iterdir` can yield: not empty and without a separator. */
  predicate ChildName(n: string)
  {
    n != "" && '/' !in n
  }

  /** `listing` is what `iterdir` reports for `dir`: the names of exactly the entries
      directly in it, files and directories alike. */
  ghost predicate ListsDirectory(files: Files, dir: string, listing: seq<string>)
  {
    forall n :: n in listing <==> ChildName(n) && PathExists(files, PathJoin(dir, n))
  }

  /** On a match with a file, `generate_script` writes the re-exec stub, moves the
      file to `out_script_path` (its old path no longer exists) and changes nothing else. */
  lemma ScriptMatchRelocates(files: Files, listing: seq<string>, scriptsDir: string, scriptName: string,
                             output: string, outScriptPath: string, outScriptShortPath: string)
    requires scriptName in listing
    requires PathJoin(scriptsDir, scriptName) in files
    requires output != PathJoin(scriptsDir, scriptName) && !InTree(output, outScriptPath)
    requires !IsDirectory(files, outScriptPath)
    requires !InTree(PathJoin(scriptsDir, scriptName), outScriptPath)
    requires !InTree(outScriptPath, PathJoin(scriptsDir, scriptName))
    ensures var source := PathJoin(scriptsDir, scriptName);
            var e := ScriptSpec(files, listing, scriptsDir, scriptName, output, outScriptPath, outScriptShortPath);
            && e.outcome == Pass
            && output in e.files && e.files[output] == ScriptStub(outScriptShortPath)
            && outScriptPath in e.files && e.files[outScriptPath] == files[source]
            && source !in e.files
            && (forall p :: p != source && p != output && p != outScriptPath ==>
                  (p in e.files <==> p in files) && (p in files ==> e.files[p] == files[p]))
  {
    var written := files[output := ScriptStub(outScriptShortPath)];
    forall q | q in written && outScriptPath !in written ensures !(outScriptPath + "/" <= q) {
      if q != output {
        assert q in files;
      }
    }
  }

  /** On a match with a directory, `generate_script` writes the re-exec stub and moves
      the whole directory to the free path `out_script_path`. */
  lemma ScriptDirectoryRelocates(files: Files, listing: seq<string>, scriptsDir: string, scriptName: string,
                                 output: string, outScriptPath: string, outScriptShortPath: string)
    requires scriptName in listing
    requires IsDirectory(files, PathJoin(scriptsDir, scriptName))
    requires !InTree(output, PathJoin(scriptsDir, scriptName)) && !InTree(output, outScriptPath)
    requires !PathExists(files, outScriptPath)
    requires !InTree(PathJoin(scriptsDir, scriptName), outScriptPath)
    requires !InTree(outScriptPath, PathJoin(scriptsDir, scriptName))
    ensures var source := PathJoin(scriptsDir, scriptName);
            var e := ScriptSpec(files, listing, scriptsDir, scriptName, output, outScriptPath, outScriptShortPath);
            && e.outcome == Pass
            && output in e.files && e.files[output] == ScriptStub(outScriptShortPath)
            && (forall d :: PathJoin(outScriptPath, d) in e.files <==> PathJoin(source, d) in files)
            && (forall d :: PathJoin(source, d) in files ==>
                  e.files[PathJoin(outScriptPath, d)] == files[PathJoin(source, d)])
            && (forall p :: InTree(p, source) ==> p !in e.files)
            && (forall p :: p != output && !InTree(p, source) && !InTree(p, outScriptPath) ==>
                  (p in e.files <==> p in files) && (p in files ==> e.files[p] == files[p]))
  {
    var source := PathJoin(scriptsDir, scriptName);
    var written := files[output := ScriptStub(outScriptShortPath)];
    WriteBesideDirectory(files, output, ScriptStub(outScriptShortPath), source, outScriptPath);
    var moved := MovedTree(written, source, outScriptPath);
    assert Replaced(written, source, outScriptPath) == Success(moved);
  }

  /** Writing a path outside the directory `source` and outside the free path `dst`
      leaves `source` a directory with the same contents and `dst` free. */
  lemma WriteBesideDirectory(files: Files, path: string, text: string, source: string, dst: string)
    requires IsDirectory(files, source) && !PathExists(files, dst)
    requires !InTree(path, source) && !InTree(path, dst)
    ensures var written := files[path := text];
            && IsDirectory(written, source) && !PathExists(written, dst)
            && (forall d :: PathJoin(source, d) in written <==> PathJoin(source, d) in files)
            && (forall d :: PathJoin(source, d) in files ==> written[PathJoin(source, d)] == files[PathJoin(source, d)])
  {
    var written := files[path := text];
    var q :| q in files && source + "/" <= q;
    assert q in written;
    forall q | q in written ensures !(dst + "/" <= q) {
      if q != path {
        assert q in files;
      }
    }
    forall d ensures PathJoin(source, d) != path {
      JoinParts(source, d);
    }
  }

  /** When `replace` raises, the stub has already been written and nothing else has changed. */
  lemma ScriptFailureKeepsStub(files: Files, listing: seq<string>, scriptsDir: string, scriptName: string,
                               output: string, outScriptPath: string, outScriptShortPath: string)
    ensures var e := ScriptSpec(files, listing, scriptsDir, scriptName, output, outScriptPath, outScriptShortPath);
            e.outcome.Fail? ==>
              && e.outcome.error.ReplaceFailed?
              && scriptName in listing
              && e.files == files[output := ScriptStub(outScriptShortPath)]
  {
  }

  /** An exact name missing from the listing is a silent no-op. */
  lemma ScriptMissIsNoOp(files: Files, listing: seq<string>, scriptsDir: string, scriptName: string,
                         output: string, outScriptPath: string, outScriptShortPath: string)
    requires scriptName !in listing
    ensures ScriptSpec(files, listing, scriptsDir, scriptName, output, outScriptPath, outScriptShortPath)
         == Effect(files, Pass)
  {
  }

  /** When the listing is what the directory holds, its order does not matter: the
      name matches exactly when it is an entry name and something is at that path. */
  lemma ScriptListingOrderIrrelevant(files: Files, listing: seq<string>, scriptsDir: string, scriptName: string,
                                     output: string, outScriptPath: string, outScriptShortPath: string)
    requires ListsDirectory(files, scriptsDir, listing)
    ensures scriptName in listing <==> ChildName(scriptName) && PathExists(files, PathJoin(scriptsDir, scriptName))
    ensures forall other: seq<string> | ListsDirectory(files, scriptsDir, other) ::
              ScriptSpec(files, other, scriptsDir, scriptName, output, outScriptPath, outScriptShortPath)
              == ScriptSpec(files, listing, scriptsDir, scriptName, output, outScriptPath, outScriptShortPath)
  {
    forall other: seq<string> | ListsDirectory(files, scriptsDir, other)
      ensures scriptName in other <==> scriptName in listing
    {
    }
  }

  // ---------------------------------------------------------------------------
  // main

  /** Nothing lives at or below `root`, as for the directory `TemporaryDirectory` creates. */
  ghost predicate Fresh(files: Files, root: string)
  {
    forall p :: p in files ==> !InTree(p, root)
  }

  /** `a` and `b` agree on every path outside `root`. */
  ghost predicate AgreeOutside(a: Files, b: Files, root: string)
  {
    forall p :: !InTree(p, root) ==> (p in a <==> p in b) && (p in a ==> a[p] == b[p])
  }

  lemma ExtractedAgrees(files: Files, wheelName: string, members: seq<ZipMember>, tempDir: string)
    ensures AgreeOutside(Extracted(files, wheelName, members, tempDir), files, tempDir)
  {
    forall p | !InTree(p, tempDir) {
      UnpackedFrame(files, Filter(wheelName, members), tempDir, p);
    }
  }

  /** Deleting the scratch directory undoes the extraction into it. */
  lemma CleanupUndoesExtraction(files: Files, wheelName: string, members: seq<ZipMember>, tempDir: string)
    requires Fresh(files, tempDir)
    ensures Removed(Extracted(files, wheelName, members, tempDir), tempDir) == files
  {
    ExtractedAgrees(files, wheelName, members, tempDir);
  }

  /** The scripts directory lies below the scratch directory, and so does every path in it. */
  lemma BelowScratch(wheelName: string, tempDir: string, name: string)
    ensures InTree(PathJoin(ScriptsDir(wheelName, tempDir), name), tempDir)
    ensures InTree(EntryPointsTxt(wheelName, tempDir), tempDir)
  {
    assert PathJoin(ScriptsDir(wheelName, tempDir), name)
        == tempDir + "/" + (wheelName + ".data" + "/" + "scripts" + "/" + name);
    assert EntryPointsTxt(wheelName, tempDir)
        == tempDir + "/" + (wheelName + ".dist-info" + "/" + "entry_points.txt");
  }

  /** A path outside a tree is outside every subtree of it. */
  lemma OutsideSubtree(p: string, a: string, b: string)
    requires InTree(a, b) && !InTree(p, b)
    ensures !InTree(p, a)
  {
    if InTree(p, a) {
      InTreeTrans(p, a, b);
    }
  }

  /** `generate_entrypoint` changes at most `output`. */
  lemma EntrypointFrame(files: Files, entrypointsTxt: string, entrypoint: string, output: string,
                        parse: string -> Ini)
    ensures var e := EntrypointSpec(files, entrypointsTxt, entrypoint, output, parse).files;
            forall p :: p != output ==> (p in e <==> p in files) && (p in e ==> e[p] == files[p])
  {
  }

  /** `generate_script` changes at most `output`, the tree at `out_script_path` and the
      tree of the entry it moves. */
  lemma ScriptFrame(files: Files, listing: seq<string>, scriptsDir: string, scriptName: string,
                    output: string, outScriptPath: string, outScriptShortPath: string)
    ensures var e := ScriptSpec(files, listing, scriptsDir, scriptName, output, outScriptPath, outScriptShortPath).files;
            forall p :: p != output && !InTree(p, outScriptPath) && !InTree(p, PathJoin(scriptsDir, scriptName)) ==>
              (p in e <==> p in files) && (p in e ==> e[p] == files[p])
  {
  }

  /** Outside the scratch directory, the body of `main` changes at most `output` and
      the tree at `out_script_path`. */
  lemma BodyAgrees(files: Files, options: Options, archive: seq<ZipMember>, tempDir: string,
                   listing: seq<string>, parse: string -> Ini)
    ensures var body := MainBodySpec(files, options, archive, tempDir, listing, parse).files;
            forall p :: !InTree(p, tempDir) && p != options.output && !InTree(p, options.outScriptPath) ==>
              (p in body <==> p in files) && (p in body ==> body[p] == files[p])
  {
    match GetWheelName(options.wheelFile)
    case Failure(_) =>
    case Success(wheelName) =>
      var extracted := Extracted(files, wheelName, archive, tempDir);
      ExtractedAgrees(files, wheelName, archive, tempDir);
      var entrypointsTxt := EntryPointsTxt(wheelName, tempDir);
      var scriptsDir := ScriptsDir(wheelName, tempDir);
      if PathExists(extracted, entrypointsTxt) {
        EntrypointFrame(extracted, entrypointsTxt, options.entrypoint, options.output, parse);
      } else if PathExists(extracted, scriptsDir) {
        var source := PathJoin(scriptsDir, options.entrypoint);
        BelowScratch(wheelName, tempDir, options.entrypoint);
        ScriptFrame(extracted, listing, scriptsDir, options.entrypoint,
                    options.output, options.outScriptPath, options.outScriptShortPath);
        forall p | !InTree(p, tempDir) ensures !InTree(p, source) {
          OutsideSubtree(p, source, tempDir);
        }
      }
  }

  /** A run changes no path but `output` and the tree at `out_script_path`, whatever
      branch it takes and however it ends, and leaves no scratch files behind. */
  lemma OnlyOutputsChange(files: Files, options: Options, archive: seq<ZipMember>, tempDir: string,
                          listing: seq<string>, parse: string -> Ini)
    requires Fresh(files, tempDir)
    ensures var final := MainSpec(files, options, archive, tempDir, listing, parse).files;
            && Fresh(final, tempDir)
            && forall p :: p != options.output && !InTree(p, options.outScriptPath) ==>
                 (p in final <==> p in files) && (p in final ==> final[p] == files[p])
  {
    BodyAgrees(files, options, archive, tempDir, listing, parse);
  }

  /** A wheel file name with fewer than two `-` aborts the run before anything is written. */
  lemma MalformedWheelNameFails(files: Files, options: Options, archive: seq<ZipMember>, tempDir: string,
                                listing: seq<string>, parse: string -> Ini)
    requires Strings.Count('-', options.wheelFile) < 2
    requires Fresh(files, tempDir)
    ensures MainSpec(files, options, archive, tempDir, listing, parse)
         == Effect(files, Fail(MalformedWheelName(options.wheelFile)))
  {
  }

  /** With neither an entry-points file nor a scripts directory the run raises the
      RuntimeError carrying the wheel name, and no output is written. */
  lemma UnresolvedFails(files: Files, options: Options, archive: seq<ZipMember>, tempDir: string,
                        listing: seq<string>, parse: string -> Ini, wheelName: string)
    requires GetWheelName(options.wheelFile) == Success(wheelName)
    requires !PathExists(Extracted(files, wheelName, archive, tempDir), EntryPointsTxt(wheelName, tempDir))
    requires !PathExists(Extracted(files, wheelName, archive, tempDir), ScriptsDir(wheelName, tempDir))
    requires Fresh(files, tempDir)
    ensures MainSpec(files, options, archive, tempDir, listing, parse)
         == Effect(files, Fail(Runtime(NoEntryPointsMessage, wheelName)))
  {
    CleanupUndoesExtraction(files, wheelName, archive, tempDir);
  }

  /** An entry-points file wins: the scripts directory and its listing play no part,
      a successful run leaves `out_script_path` empty, and a value `module:method`
      puts the templated stub at `output`. */
  lemma EntryPointsFileWins(files: Files, options: Options, archive: seq<ZipMember>, tempDir: string,
                            listing: seq<string>, parse: string -> Ini, wheelName: string)
    requires GetWheelName(options.wheelFile) == Success(wheelName)
    requires PathExists(Extracted(files, wheelName, archive, tempDir), EntryPointsTxt(wheelName, tempDir))
    requires !InTree(options.output, tempDir) && !InTree(options.outScriptPath, tempDir)
    ensures forall other: seq<string> ::
              (MainSpec(files, options, archive, tempDir, other, parse)
               == MainSpec(files, options, archive, tempDir, listing, parse))
    ensures var e := MainSpec(files, options, archive, tempDir, listing, parse);
            e.outcome.Pass? ==> options.outScriptPath in e.files && e.files[options.outScriptPath] == ""
    ensures var extracted := Extracted(files, wheelName, archive, tempDir);
            var entrypointsTxt := EntryPointsTxt(wheelName, tempDir);
            var e := MainSpec(files, options, archive, tempDir, listing, parse);
            forall moduleName: string, methodName: string ::
              && options.output != options.outScriptPath
              && ':' !in moduleName
              && entrypointsTxt in extracted
              && ConsoleScripts in parse(extracted[entrypointsTxt])
              && options.entrypoint in parse(extracted[entrypointsTxt])[ConsoleScripts]
              && parse(extracted[entrypointsTxt])[ConsoleScripts][options.entrypoint] == moduleName + ":" + methodName
              ==> e.outcome == Pass && options.output in e.files
                  && e.files[options.output] == EntryPointStub(moduleName, methodName)
  {
    var extracted := Extracted(files, wheelName, archive, tempDir);
    var entrypointsTxt := EntryPointsTxt(wheelName, tempDir);
    forall moduleName: string, methodName: string |
      && ':' !in moduleName
      && entrypointsTxt in extracted
      && ConsoleScripts in parse(extracted[entrypointsTxt])
      && options.entrypoint in parse(extracted[entrypointsTxt])[ConsoleScripts]
      && parse(extracted[entrypointsTxt])[ConsoleScripts][options.entrypoint] == moduleName + ":" + methodName
      ensures EntrypointSpec(extracted, entrypointsTxt, options.entrypoint, options.output, parse)
           == Effect(extracted[options.output := EntryPointStub(moduleName, methodName)], Pass)
    {
      EntrypointWritesStub(extracted, entrypointsTxt, options.entrypoint, options.output, parse,
                           moduleName, methodName);
    }
  }

  /** An entry-points file without a `console_scripts` section, or without the
      requested key, aborts the run: it does not fall through to the scripts
      directory, and no output is written. */
  lemma MissingConsoleScriptFails(files: Files, options: Options, archive: seq<ZipMember>, tempDir: string,
                                  listing: seq<string>, parse: string -> Ini, wheelName: string)
    requires GetWheelName(options.wheelFile) == Success(wheelName)
    requires PathExists(Extracted(files, wheelName, archive, tempDir), EntryPointsTxt(wheelName, tempDir))
    requires var config := ReadConfig(Extracted(files, wheelName, archive, tempDir),
                                      EntryPointsTxt(wheelName, tempDir), parse);
             ConsoleScripts !in config || options.entrypoint !in config[ConsoleScripts]
    requires Fresh(files, tempDir)
    ensures var config := ReadConfig(Extracted(files, wheelName, archive, tempDir),
                                     EntryPointsTxt(wheelName, tempDir), parse);
            (MainSpec(files, options, archive, tempDir, listing, parse)
             == Effect(files, Fail(if ConsoleScripts !in config then NoSection(ConsoleScripts)
                                   else NoOption(ConsoleScripts, options.entrypoint))))
  {
    CleanupUndoesExtraction(files, wheelName, archive, tempDir);
  }

  /** The run takes the scripts route of `main` for wheel `wheelName`: no entry-points
      file, a scripts directory whose `iterdir` is `listing`, a fresh scratch
      directory, and both outputs outside it. */
  ghost predicate ScriptsRoute(files: Files, options: Options, archive: seq<ZipMember>, tempDir: string,
                               listing: seq<string>, wheelName: string)
  {
    var extracted := Extracted(files, wheelName, archive, tempDir);
    && GetWheelName(options.wheelFile) == Success(wheelName)
    && !PathExists(extracted, EntryPointsTxt(wheelName, tempDir))
    && PathExists(extracted, ScriptsDir(wheelName, tempDir))
    && ListsDirectory(extracted, ScriptsDir(wheelName, tempDir), listing)
    && Fresh(files, tempDir)
    && !InTree(options.output, tempDir) && !InTree(options.outScriptPath, tempDir)
  }

  /** On the scripts route with no entry of the command's name, the run succeeds and
      writes nothing. */
  lemma ScriptsDirMiss(files: Files, options: Options, archive: seq<ZipMember>, tempDir: string,
                       listing: seq<string>, parse: string -> Ini, wheelName: string)
    requires ScriptsRoute(files, options, archive, tempDir, listing, wheelName)
    requires !ChildName(options.entrypoint)
          || !PathExists(Extracted(files, wheelName, archive, tempDir),
                         PathJoin(ScriptsDir(wheelName, tempDir), options.entrypoint))
    ensures MainSpec(files, options, archive, tempDir, listing, parse) == Effect(files, Pass)
  {
    CleanupUndoesExtraction(files, wheelName, archive, tempDir);
  }

  /** On the scripts route a failed `replace` raises its OSError and leaves the stub
      at `output`, and every other path as it was. */
  lemma ScriptsDirFailure(files: Files, options: Options, archive: seq<ZipMember>, tempDir: string,
                          listing: seq<string>, parse: string -> Ini, wheelName: string)
    requires ScriptsRoute(files, options, archive, tempDir, listing, wheelName)
    ensures var e := MainSpec(files, options, archive, tempDir, listing, parse);
            e.outcome.Fail? ==>
              && e.outcome.error.ReplaceFailed?
              && e.files == files[options.output := ScriptStub(options.outScriptShortPath)]
  {
    var extracted := Extracted(files, wheelName, archive, tempDir);
    var stub := ScriptStub(options.outScriptShortPath);
    var scriptsDir := ScriptsDir(wheelName, tempDir);
    ScriptFailureKeepsStub(extracted, listing, scriptsDir, options.entrypoint,
                           options.output, options.outScriptPath, options.outScriptShortPath);
    ExtractedAgrees(files, wheelName, archive, tempDir);
    CleanupKeepsWrite(files, extracted, tempDir, options.output, stub);
  }

  /** A file written outside the scratch directory survives its deletion. */
  lemma CleanupKeepsWrite(files: Files, extracted: Files, tempDir: string, path: string, text: string)
    requires Fresh(files, tempDir) && AgreeOutside(extracted, files, tempDir)
    requires !InTree(path, tempDir)
    ensures Removed(extracted[path := text], tempDir) == files[path := text]
  {
    var after := Removed(extracted[path := text], tempDir);
    var expected := files[path := text];
    assert forall p :: p in after <==> p in expected;
    assert forall p :: p in after ==> after[p] == expected[p];
  }

  /** Extraction leaves `out_script_path` neither a directory nor an ancestor of an
      extracted path when it is outside the scratch directory and not a directory. */
  lemma OutScriptPathStaysFree(files: Files, wheelName: string, archive: seq<ZipMember>, tempDir: string,
                               outScriptPath: string)
    requires !InTree(outScriptPath, tempDir) && !InTree(tempDir, outScriptPath)
    ensures var extracted := Extracted(files, wheelName, archive, tempDir);
            && (outScriptPath in extracted <==> outScriptPath in files)
            && (forall q :: q in extracted && outScriptPath + "/" <= q ==> q in files)
  {
    var extracted := Extracted(files, wheelName, archive, tempDir);
    ExtractedAgrees(files, wheelName, archive, tempDir);
    forall q | q in extracted && outScriptPath + "/" <= q ensures q in files {
      DisjointTrees(outScriptPath, tempDir, q);
    }
  }

  /** On the scripts route, a file of the command's name is relocated to
      `out_script_path`, behind the re-exec stub at `output`, provided that path is
      not a directory, does not hold `output`, and is not around the scratch directory. */
  lemma ScriptsDirRelocatesFile(files: Files, options: Options, archive: seq<ZipMember>, tempDir: string,
                                listing: seq<string>, parse: string -> Ini, wheelName: string)
    requires ScriptsRoute(files, options, archive, tempDir, listing, wheelName)
    requires ChildName(options.entrypoint)
    requires PathJoin(ScriptsDir(wheelName, tempDir), options.entrypoint) in Extracted(files, wheelName, archive, tempDir)
    requires !IsDirectory(files, options.outScriptPath) && !InTree(options.output, options.outScriptPath)
    requires !InTree(tempDir, options.outScriptPath)
    ensures var extracted := Extracted(files, wheelName, archive, tempDir);
            var source := PathJoin(ScriptsDir(wheelName, tempDir), options.entrypoint);
            var e := MainSpec(files, options, archive, tempDir, listing, parse);
            && e.outcome == Pass
            && options.output in e.files && e.files[options.output] == ScriptStub(options.outScriptShortPath)
            && options.outScriptPath in e.files && e.files[options.outScriptPath] == extracted[source]
  {
    var extracted := Extracted(files, wheelName, archive, tempDir);
    var scriptsDir := ScriptsDir(wheelName, tempDir);
    var source := PathJoin(scriptsDir, options.entrypoint);
    BelowScratch(wheelName, tempDir, options.entrypoint);
    DisjointTrees(tempDir, options.outScriptPath, source);
    OutsideSubtree(options.outScriptPath, source, tempDir);
    OutScriptPathStaysFree(files, wheelName, archive, tempDir, options.outScriptPath);
    ScriptMatchRelocates(extracted, listing, scriptsDir, options.entrypoint,
                         options.output, options.outScriptPath, options.outScriptShortPath);
  }

  /** On the scripts route, a directory of the command's name is moved to
      `out_script_path`, behind the re-exec stub at `output`, provided nothing is at
      that path, it does not hold `output`, and it is not around the scratch directory. */
  lemma ScriptsDirRelocatesDirectory(files: Files, options: Options, archive: seq<ZipMember>, tempDir: string,
                                     listing: seq<string>, parse: string -> Ini, wheelName: string)
    requires ScriptsRoute(files, options, archive, tempDir, listing, wheelName)
    requires ChildName(options.entrypoint)
    requires IsDirectory(Extracted(files, wheelName, archive, tempDir),
                         PathJoin(ScriptsDir(wheelName, tempDir), options.entrypoint))
    requires !PathExists(files, options.outScriptPath) && !InTree(options.output, options.outScriptPath)
    requires !InTree(tempDir, options.outScriptPath)
    ensures var extracted := Extracted(files, wheelName, archive, tempDir);
            var source := PathJoin(ScriptsDir(wheelName, tempDir), options.entrypoint);
            var e := MainSpec(files, options, archive, tempDir, listing, parse);
            && e.outcome == Pass
            && options.output in e.files && e.files[options.output] == ScriptStub(options.outScriptShortPath)
            && (forall d :: PathJoin(options.outScriptPath, d) in e.files <==> PathJoin(source, d) in extracted)
            && (forall d :: PathJoin(source, d) in extracted ==>
                  e.files[PathJoin(options.outScriptPath, d)] == extracted[PathJoin(source, d)])
  {
    var extracted := Extracted(files, wheelName, archive, tempDir);
    var scriptsDir := ScriptsDir(wheelName, tempDir);
    var source := PathJoin(scriptsDir, options.entrypoint);
    BelowScratch(wheelName, tempDir, options.entrypoint);
    DisjointTrees(tempDir, options.outScriptPath, source);
    OutsideSubtree(options.outScriptPath, source, tempDir);
    OutsideSubtree(options.output, source, tempDir);
    OutScriptPathStaysFree(files, wheelName, archive, tempDir, options.outScriptPath);
    ScriptDirectoryRelocates(extracted, listing, scriptsDir, options.entrypoint,
                             options.output, options.outScriptPath, options.outScriptShortPath);
    forall d ensures !InTree(PathJoin(options.outScriptPath, d), tempDir) {
      JoinParts(options.outScriptPath, d);
      DisjointTrees(options.outScriptPath, tempDir, PathJoin(options.outScriptPath, d));
    }
  }

  /** The archive member `{wheel_name}.data/scripts/{name}` is selected for
      extraction and lands at `{scripts_dir}/{name}`. */
  lemma ScriptMemberPath(wheelName: string, tempDir: string, name: string)
    ensures var member := PathJoin(PathJoin(wheelName + ".data", "scripts"), name);
            && Selected(wheelName, member)
            && PathJoin(tempDir, member) == PathJoin(ScriptsDir(wheelName, tempDir), name)
  {
    var data := wheelName + ".data";
    var member := PathJoin(PathJoin(data, "scripts"), name);
    assert member == data + ("/" + "scripts" + "/" + name);
    assert PathJoin(tempDir, member) == (tempDir + "/" + data) + "/" + "scripts" + "/" + name;
  }

  /** The relocated script holds the data of the archive's last member named
      `{wheel_name}.data/scripts/{entrypoint}`. */
  lemma RelocatedScriptFromArchive(files: Files, options: Options, archive: seq<ZipMember>, tempDir: string,
                                   listing: seq<string>, parse: string -> Ini, wheelName: string, k: nat)
    requires GetWheelName(options.wheelFile) == Success(wheelName)
    requires !PathExists(Extracted(files, wheelName, archive, tempDir), EntryPointsTxt(wheelName, tempDir))
    requires ListsDirectory(Extracted(files, wheelName, archive, tempDir), ScriptsDir(wheelName, tempDir), listing)
    requires ChildName(options.entrypoint)
    requires Fresh(files, tempDir)
    requires !InTree(options.output, tempDir) && !InTree(options.outScriptPath, tempDir)
    requires !IsDirectory(files, options.outScriptPath) && !InTree(options.output, options.outScriptPath)
    requires !InTree(tempDir, options.outScriptPath)
    requires k < |archive|
    requires archive[k].filename == PathJoin(PathJoin(wheelName + ".data", "scripts"), options.entrypoint)
    requires forall j :: k < j < |archive| ==> archive[j].filename != archive[k].filename
    ensures var e := MainSpec(files, options, archive, tempDir, listing, parse);
            && e.outcome == Pass
            && options.output in e.files && e.files[options.output] == ScriptStub(options.outScriptShortPath)
            && options.outScriptPath in e.files && e.files[options.outScriptPath] == archive[k].data
  {
    var extracted := Extracted(files, wheelName, archive, tempDir);
    var source := PathJoin(ScriptsDir(wheelName, tempDir), options.entrypoint);
    ScriptMemberPath(wheelName, tempDir, options.entrypoint);
    ExtractedContent(files, wheelName, archive, tempDir, k);
    assert (ScriptsDir(wheelName, tempDir) + "/") <= source;
    assert PathExists(extracted, ScriptsDir(wheelName, tempDir));
    ScriptsDirRelocatesFile(files, options, archive, tempDir, listing, parse, wheelName);
  }
}
