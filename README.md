# script_maker, modelled in Dafny

`script_maker` turns a Python wheel into a launcher for one of its
commands. It works out the wheel name from the wheel file name. It then
extracts only the wheel's `{name}.data` and `{name}.dist-info` members
into a scratch directory. Then it takes one of two routes:

- **Entry-points file.** The wheel has `{name}.dist-info/entry_points.txt`.
  The tool looks the command up in `[console_scripts]`, splits the value
  `module:callable` at its first colon, and writes an
  "import and call" stub to `--output`. It also writes an empty
  `--out_script_path`.
- **Scripts directory.** The wheel has `{name}.data/scripts`. The tool
  looks for an entry (a file or a directory) with exactly the command's
  name, writes a "re-exec" stub pointing at `--out_script_short_path` to
  `--output`, and moves the entry to `--out_script_path`.

With neither, the run raises a `RuntimeError` carrying the wheel name.
The scratch directory is deleted on every exit path.

The project has these modules:

- `Wrappers` holds `Option`, `Result` and `Outcome` (the last is pass, or
  fail with an error).
- `Strings` holds Python's `str.split(sep, maxsplit)` for a one-character
  separator and its inverse `Join`.
- `Format` holds `str.format` for templates with named fields and
  `{{`/`}}` escapes. A `Piece` sequence (literal text and fields)
  describes a template, and `FormatPieces` proves what formatting it
  yields.
- `FileSystems` holds a file system as a map from path to contents. A
  directory exists when some path lies below it. `Replaced` is
  `os.replace` (POSIX `rename`): a file is renamed with `Moved`, a
  directory with its whole tree by `MovedTree`, and each error `rename`
  reports is an `OsError`. The `FileSystem` class holds the map and is
  updated in place by `WriteText`, `Replace` and `RemoveTree`.
- `ScriptMaker` holds the core, one definition per source function:
  - `GetWheelName`;
  - the filter and `ExtractWheel`;
  - the two templates and their stubs;
  - `EntrypointSpec` with `GenerateEntrypoint`;
  - `ScriptSpec` with `GenerateScript`;
  - `MainBodySpec`/`MainSpec` with `MainBody`/`Run`.

  Each method that changes the file system ends in a state and an outcome.
  Its `ensures` ties that pair to the pure specification function of the
  same step, applied to the old state.
- `Properties` holds what the tool promises, stated over those
  specification functions.

Inputs the program gets from outside are parameters:

| parameter | stands for |
|---|---|
| `options` | the parsed command line |
| `archive` | the wheel's members with their uncompressed data |
| `tempDir` | the scratch directory |
| `listing` | the names `iterdir` yields, in its order |
| `parse` | the INI reader |

The error paths are modelled as `Error` values rather than excluded by
preconditions. Each one matches the exception the source raises there:

| error | source exception |
|---|---|
| `MalformedWheelName` | `ValueError` from unpacking a split with fewer than three parts |
| `NoSection`, `NoOption` | configparser's errors |
| `MalformedEntryPoint` | `ValueError` for a value without `:` |
| `ReplaceFailed` | the `OSError` of `replace`: `FileNotFoundError`, `IsADirectoryError`, `NotADirectoryError`, or `OSError` with `ENOTEMPTY` or `EINVAL` |
| `Runtime` | the deliberate `RuntimeError` |

Three behaviours of the code are easy to misread:

- **An empty value.** A run that takes the entry-points route with an
  empty `console_scripts` value succeeds but writes no stub to
  `--output`.
- **No matching script.** A run that takes the scripts route succeeds and
  writes nothing when no entry has the command's exact name.
- **A missing section or key.** This raises, and does not fall back to
  the scripts directory.

So "exactly one stub per successful run" is not a property of the
program, and the model does not claim it (`EntrypointOutcomes`,
`ScriptsDirMiss`).

## Model

| member | source | states |
|---|---|---|
| `Strings.Split` | private/script_maker.py:34 | `str.split(sep, maxsplit)`. There are at most `maxsplit + 1` parts. No part but the last contains `sep`. The last part contains no `sep` either unless the split limit was reached. Joining the parts with `sep` gives back the input. |
| `Strings.SplitJoin` | private/script_maker.py:70 | `Split` inverts `Join`: splitting the join of any valid split gives back the parts. |
| `Format.Format` | private/script_maker.py:71-74 | Definition: `str.format` with named fields. `{{` and `}}` give one brace. `{name}` is replaced by its value, which is not scanned again. A missing name is a `KeyError` (`MissingField`). An unmatched brace is a `ValueError` (`UnmatchedBrace`). The stub lemmas are stated against it; the same call is at lines 104-106. |
| `Format.FormatPieces` | private/script_maker.py:71-74 | A template of brace-free literal text and named fields, every field supplied, formats without error to the text with each field replaced by its value. |
| `ScriptMaker.GetWheelName` | private/script_maker.py:33-35 | It succeeds exactly when the file name has at least two `-`. The result followed by `-` is a prefix of the file name, and the result holds exactly one `-`. Otherwise it fails with `MalformedWheelName` for that file name. |
| `ScriptMaker.WheelNameSplit` | private/script_maker.py:34 | The split has three parts exactly when the file name holds at least two `-`. The first two parts rejoined, followed by `-`, are then a prefix of the file name, and they hold one `-`. |
| `ScriptMaker.WheelNameOfParts` | private/script_maker.py:33-35 | Take a file name `A-B-C` where `A` and `B` have no `-`. Its wheel name is `A-B`, whatever `C` holds. |
| `ScriptMaker.Selected` | private/script_maker.py:39-45 | Definition: the filter is a plain prefix test against `{wheel}.data` and `{wheel}.dist-info`. |
| `ScriptMaker.Filter` | private/script_maker.py:38-46 | A member is kept exactly when it is in the archive and its name starts with `{wheel}.data` or `{wheel}.dist-info`. |
| `ScriptMaker.ExtractWheel` | private/script_maker.py:38-46 | The loop over the archive leaves the file system equal to unpacking the filtered members in archive order below `out_dir`. |
| `ScriptMaker.EntryPointsTxt` | private/script_maker.py:49-53 | Definition: `find_entrypoints_file` looks at `{dir}/{wheel}.dist-info/entry_points.txt`; `PathExists` is its `exists()` test. |
| `ScriptMaker.EntryPointStub` | private/script_maker.py:56-61 | Formatting ENTRY_POINT_TEMPLATE with `module` and `method` succeeds and yields the stub. |
| `ScriptMaker.EntryPointStubText` | private/script_maker.py:56-61 | The entry stub is the template's shebang and `if __name__` lines, then `from {module} import {method}`, then the call `{method}()`. |
| `ScriptMaker.ReadConfig` | private/script_maker.py:66-67 | Definition: `config.read` parses the file when it is there. Otherwise it silently leaves no sections. |
| `ScriptMaker.GetOption` | private/script_maker.py:68 | Definition: `config.get` raises `NoSection` for a missing section and `NoOption` for a missing key. Otherwise it gives the value. |
| `ScriptMaker.SplitEntryPoint` | private/script_maker.py:70 | It succeeds exactly when the value holds a `:`. The value is then `module + ":" + method` with no `:` in `module`. Otherwise it fails with `MalformedEntryPoint(value)`. |
| `ScriptMaker.SplitEntryPointOfParts` | private/script_maker.py:70 | The split is at the first colon. Later colons stay in the method part. |
| `ScriptMaker.EntrypointSpec` | private/script_maker.py:64-74 | Definition of `generate_entrypoint`: look up; raise, or do nothing for an empty value; split; raise, or write the formatted stub to `output`. |
| `ScriptMaker.GenerateEntrypoint` | private/script_maker.py:64-74 | It ends in the state and outcome `EntrypointSpec` gives: look up, test for an empty value, split, format, write. |
| `ScriptMaker.ScriptsDir` | private/script_maker.py:77-81 | Definition: `find_scripts_dir` looks at `{dir}/{wheel}.data/scripts`. |
| `ScriptMaker.ScriptStub` | private/script_maker.py:84-93 | Formatting SCRIPT_TEMPLATE with `script_path` succeeds and yields the stub. |
| `ScriptMaker.ScriptStubText` | private/script_maker.py:84-93 | The re-exec stub is the template's leading text, then the short path verbatim, then the trailing text. |
| `ScriptMaker.ScriptStubDeterminesPath` | private/script_maker.py:104-106 | Different short paths give different stubs. |
| `ScriptMaker.ScriptSpec` | private/script_maker.py:96-108 | Definition of `generate_script`: with no listed entry of that name nothing happens. Otherwise the stub is written and the entry is replaced onto `out_script_path`. A raise from `replace` leaves the stub in place. |
| `ScriptMaker.GenerateScript` | private/script_maker.py:96-108 | The scan stops at the first exact name match, writes the stub, then calls `replace`. With no match it changes nothing. This is the state and outcome of `ScriptSpec`. |
| `ScriptMaker.MainBodySpec` | private/script_maker.py:114-165 | Definition of the body of `main`: wheel name, extraction, then the entry-points route (and the empty out-script file), the scripts route, or the `RuntimeError`, in that order. |
| `ScriptMaker.MainBody` | private/script_maker.py:114-165 | The branches of `main` in source order: wheel name, extraction, entry-points file, empty out-script file, scripts directory, `RuntimeError`. |
| `ScriptMaker.MainSpec` | private/script_maker.py:111-165 | Definition of `main`: its body, then deletion of the scratch tree, whatever the outcome. |
| `ScriptMaker.Run` | private/script_maker.py:111-165 | `main` is its body followed by removal of the scratch directory, whatever the outcome. |
| `FileSystems.PathExists` | private/script_maker.py:51 | Definition: `exists()` is true for a file at the path or a directory holding something. The same test is at line 79. |
| `FileSystems.Removed` | private/script_maker.py:114 | After the scratch tree is deleted, a path remains exactly when it existed outside the tree, and its contents are unchanged. |
| `FileSystems.Moved` | private/script_maker.py:107 | After renaming a file, the destination holds the source's contents and the source is gone. Every other path is untouched. |
| `FileSystems.MovedTree` | private/script_maker.py:107 | After renaming a directory to a free path, each `src/d` is found at `dst/d` with the same contents. Nothing is left at or below `src`. Every path outside both trees is untouched. |
| `FileSystems.Replaced` | private/script_maker.py:107 | Definition of `replace` with `rename`'s checks. Renaming onto itself does nothing. A file onto an ancestor is `ENOTEMPTY`, onto a path below itself `ENOTDIR`, and onto a directory `EISDIR`. No source is `ENOENT`. A directory into its own tree is `EINVAL`, onto an ancestor or a non-empty directory `ENOTEMPTY`, and onto a file `ENOTDIR`. |
| `FileSystems.FileSystem.WriteText` | private/script_maker.py:71 | `write_text` sets one path's contents and nothing else. |
| `FileSystems.FileSystem.Replace` | private/script_maker.py:107 | `replace` leaves the file system as `Replaced` gives and passes, or raises its error and changes nothing. |
| `FileSystems.FileSystem.RemoveTree` | private/script_maker.py:114 | The exit of the `TemporaryDirectory` block deletes the tree. |
| `Properties.FilterConcat` | private/script_maker.py:42-46 | The filter keeps archive order: filtering a concatenation is concatenating the filtered parts. |
| `Properties.UnpackedKeys` | private/script_maker.py:46 | Unpacking creates exactly the member paths below `out_dir`, in addition to the existing files. |
| `Properties.UnpackedFrame` | private/script_maker.py:46 | Paths outside `out_dir` are untouched by unpacking. |
| `Properties.ExtractedKeys` | private/script_maker.py:38-46 | A path exists after extraction exactly when it existed before, or it is `out_dir/m` for a selected member `m`. |
| `Properties.UnpackedLast` | private/script_maker.py:42-46 | A path holds the data of the last member of that name. |
| `Properties.FilterAround` | private/script_maker.py:42-46 | A selected member sits in the filtered sequence between the members kept before it and those kept after it. |
| `Properties.ExtractedContent` | private/script_maker.py:38-46 | A selected member's path holds that member's data after extraction, when no later member has the same name. |
| `Properties.EntrypointWritesStub` | private/script_maker.py:64-74 | A value `module:method` with a colon-free module makes `generate_entrypoint` write exactly the templated stub to `output` and change nothing else. |
| `Properties.EntrypointOutcomes` | private/script_maker.py:66-74 | All five outcomes of `generate_entrypoint`. A missing section or key raises. An empty value writes nothing. A value without `:` raises. A value with `:` writes `output`. Every raise leaves the files unchanged. |
| `Properties.ListsDirectory` | private/script_maker.py:102 | Definition: `iterdir` yields the names of exactly the entries directly in the directory, files and subdirectories alike. |
| `Properties.ScriptMatchRelocates` | private/script_maker.py:102-108 | On a match with a file, the stub is at `output` and the file's contents are at `out_script_path`, which is not a directory. The old path is gone. Nothing else changes. |
| `Properties.ScriptDirectoryRelocates` | private/script_maker.py:102-108 | On a match with a directory and a free `out_script_path`, the stub is at `output`. Every `entry/d` is now at `out_script_path/d` with the same contents, and nothing is left below the old path. Paths outside both trees are unchanged. |
| `Properties.ScriptFailureKeepsStub` | private/script_maker.py:104-107 | `generate_script` raises only from `replace`, after a match. The stub written just before then stays, and nothing else has changed. |
| `Properties.ScriptMissIsNoOp` | private/script_maker.py:102-103 | A name absent from the listing is a silent no-op. |
| `Properties.ScriptListingOrderIrrelevant` | private/script_maker.py:102 | Take a listing that is exactly the directory's entries. The name matches exactly when it is an entry name (not empty and without `/`) and something is at that path. Every such listing, in any order, gives the same result. |
| `Properties.ExtractedAgrees` | private/script_maker.py:120-124 | Extraction changes nothing outside the scratch directory. |
| `Properties.CleanupUndoesExtraction` | private/script_maker.py:114-124 | Start from a fresh scratch directory. Deleting it after extraction restores the original file system. |
| `Properties.CleanupKeepsWrite` | private/script_maker.py:114 | A file written outside the scratch directory survives its deletion, and nothing else outside it changes. |
| `Properties.BelowScratch` | private/script_maker.py:49-53 | The entry-points file and every path in the scripts directory lie below the scratch directory. The same goes for `find_scripts_dir` at lines 77-81. |
| `Properties.EntrypointFrame` | private/script_maker.py:64-74 | `generate_entrypoint` changes no path but `output`, on every outcome. |
| `Properties.ScriptFrame` | private/script_maker.py:96-108 | `generate_script` changes no path but `output`, the tree at `out_script_path` and the tree of the entry it moves. |
| `Properties.BodyAgrees` | private/script_maker.py:114-165 | Outside the scratch directory, the body of `main` changes at most `output` and the tree at `out_script_path`. |
| `Properties.OnlyOutputsChange` | private/script_maker.py:111-165 | A run changes no path but `output` and the tree at `out_script_path`, whatever route it takes and however it ends. It leaves nothing below the scratch directory. |
| `Properties.MalformedWheelNameFails` | private/script_maker.py:117 | A wheel file name with fewer than two `-` fails with `MalformedWheelName` and changes nothing. |
| `Properties.UnresolvedFails` | private/script_maker.py:165 | With neither an entry-points file nor a scripts directory, the run raises `RuntimeError(message, wheel_name)` and changes nothing. |
| `Properties.EntryPointsFileWins` | private/script_maker.py:133-144 | With an entry-points file, the scripts directory's listing plays no part. A successful run leaves `out_script_path` empty. A value `module:method` puts the templated stub at `output`. |
| `Properties.MissingConsoleScriptFails` | private/script_maker.py:68 | A missing `console_scripts` section or key raises the matching configparser error. The run does not fall through to the scripts directory and writes nothing. |
| `Properties.ScriptsDirMiss` | private/script_maker.py:146-163 | Take the scripts route, with the listing exactly the directory's entries. When no entry has the command's name, the run succeeds and writes nothing. |
| `Properties.ScriptsDirFailure` | private/script_maker.py:154-163 | On the scripts route, a failed run raises the `OSError` of `replace`. It leaves the stub at `output` and every other path as it was. |
| `Properties.ScriptsDirRelocatesFile` | private/script_maker.py:154-161 | On the scripts route, a file of the command's name ends up at `out_script_path` behind the re-exec stub at `output`, and the run succeeds. This needs `out_script_path` not a directory, not holding `output`, and not around the scratch directory. |
| `Properties.ScriptsDirRelocatesDirectory` | private/script_maker.py:154-161 | On the scripts route, a directory of the command's name ends up, entry by entry, below a free `out_script_path` behind the re-exec stub at `output`, and the run succeeds. |
| `Properties.ScriptMemberPath` | private/script_maker.py:45-46 | The member `{wheel}.data/scripts/{name}` is selected and is extracted to `{scripts_dir}/{name}`. |
| `Properties.RelocatedScriptFromArchive` | private/script_maker.py:102-107 | The relocated script holds the data of the archive's last member named `{wheel}.data/scripts/{entrypoint}`. |

## Left out

Command line and archive:

- `parse_args` (lines 11-30) is not modelled. It is an argparse
  declaration, so the model takes its result as `Options`.
- ZIP decoding (decompression, CRCs, encryption) is not modelled. The
  archive is its sequence of members with their data.
- `zipfile`'s sanitising of member names (absolute paths, `..`, drive
  letters) is not modelled. The model writes each member to exactly
  `out_dir/filename`.
- Directory members (names ending in `/`) become an entry under that
  name rather than a directory.

File system:

- Paths are plain strings joined with `/`. `pathlib` normalisation is
  not modelled.
- `Path.name` of `--wheel` is not computed. `Options.wheelFile` is that
  last component.
- `str(out_script_short_path)` is taken to be the path string itself.
- Directories exist only through the files below them. An empty
  directory cannot be represented.
- `iterdir` is the `listing` parameter. The lemmas that need it to match
  the directory contents say so with `ListsDirectory`.
- `ScriptsDirMiss`: when `{wheel}.data/scripts` is a regular file, the
  model ends in a successful no-op (no entry lies below a file), where
  `iterdir` raises `NotADirectoryError`. `MainBody` does not model that
  raise.
- `replace` is modelled within one file system. The `EXDEV` error of a
  rename across devices is not modelled. Neither are a missing parent
  directory of the destination (`ENOENT`) and permissions.
- `write_text` failures (a directory at the path, a missing parent
  directory, permissions) are not modelled.

Configuration and formatting:

- The INI grammar (line continuations, comments, `DEFAULT`, interpolation,
  lower-casing of keys, `MissingSectionHeaderError` and
  `DuplicateOptionError`) is not modelled. It is the `parse` parameter,
  a total function. `config.read` of something that is not a readable
  file yields no sections.
- Only the `str.format` features the two templates use are modelled:
  named fields and brace escapes. Conversions, format specs, positional
  fields and attribute or index fields are not.
- The behaviour of the generated stubs when they run is not modelled.
  Only their text is.
- The two templates are given as literal pieces and fields (`Format.Source`
  renders them back to template text). No lemma equates that text, brace
  by brace, to the multi-line literals.

Runtime:

- The creation of the scratch directory is not modelled. It is the
  `tempDir` parameter, and the lemmas assume nothing lies below it
  (`Fresh`).
- Concurrency and other processes touching the same files are not
  modelled.
