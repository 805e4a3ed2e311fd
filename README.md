# Dicom-Tools-cpp command layer, modelled in Dafny

Dicom-Tools-cpp is a command-line program. It exercises four imaging libraries on DICOM files: GDCM, DCMTK, ITK and VTK. This project models the layer that sits between the command line and those libraries:

- **CommandRegistry.** This is the catalogue of named commands. It keeps an ordered list and a name-to-position index. Registration skips a command with an empty name or action, and skips a name that is already taken. The registry also looks commands up, runs them and lists them grouped by module.
- **The four `RegisterCommands` tables.** Each backend registers one suite command (`test-gdcm`, `test-dcmtk`, `test-itk`, `test-vtk`) and a set of single-feature commands under its prefix (`gdcm:`, `dcmtk:`, `itk:`, `vtk:`). A build without that library registers nothing.
- **The argument parser and `CLIOptions`.** The parser reads flags, option values and the first command word. After its loop it defaults `help` and falls back to the command `"all"`.
- **`main`.** It prints a banner and builds the registry, including the aggregate `"all"`, which ORs the four suites' statuses. It then dispatches on the parsed options: list, usage, unknown command, input auto-detection, output directory, and finally running the command.

Modules and files:

- `Wrappers` (wrappers.dfy): the `Option` type that the registry's lookup and the parser's option recognition share.
- `Status` (status.dfy): a C++ `int` status as `bv32`, and the `|=` that combines statuses.
- `FeatureSteps` (feature_steps.dfy): one constructor per feature action.
- `CLIOptions` (cli_options.dfy): the options record.
- `CommandRegistry` (command_registry.dfy):
  - the value model of admission, lookup, running and listing;
  - the `Registry` class with its `ordered` and `index` fields.
- `CLIParser` (cli_parser.dfy):
  - `Tokenize`, `Apply` and `Parse` describe the loop over `argv`;
  - the method `ParseCLIArgs` performs that loop and is proved equal to `Parse`;
  - `PrintUsage`.
- `GDCMTests`, `DCMTKTests`, `ITKTests`, `VTKTests` (gdcm_tests.dfy … vtk_tests.dfy): the command tables and their registration methods.
- `DicomTools` (dicom_tools.dfy):
  - the catalogue `main` builds;
  - `MainWith`/`Main` as the function of what `main` does;
  - the methods `RunMain`, `Respond` and `Dispatch` that perform it;
  - end-to-end lemmas.

A command's action is modelled by what it does:

- `Feature(steps, status)`: it calls these feature actions with the context, then returns the status.
- `RunAll(suites)`: the aggregate.
- `Empty`: an action that is not set.

Running yields `Done(status, trace)`. The trace records every feature call together with the context it received.

## Model

| member | source | states |
|---|---|---|
| Status.Combine | src/main.cpp:28-33 | The combined status is 0 exactly when both statuses are 0; OR-ing into 0 gives the other status |
| Status.CombineFlags | src/main.cpp:28-33 | On statuses 0/1, the combination is 1 exactly when either one is 1 |
| CommandRegistry.AdmitSpec | src/cli/CommandRegistry.cpp:6-18 | Registering keeps the existing commands as a prefix and grows the list by at most one. It grows exactly when the name is non-empty, the action is set and the name is not yet registered; the new last element is the command. Unique names are preserved. Afterwards a name is registered iff it was before, or it is the new command's name and that command was accepted |
| CommandRegistry.AdmitAllSpec | src/cli/CommandRegistry.cpp:6-18 | A series of registrations keeps the prior commands as a prefix, adds at most one command per registration, and preserves unique names |
| CommandRegistry.AdmitAllFresh | src/cli/CommandRegistry.cpp:6-18 | Acceptable commands with distinct, not-yet-registered names are all appended, in order |
| CommandRegistry.FirstWriterWins | src/cli/CommandRegistry.cpp:11-14 | A second registration under a taken name is skipped, and running that name runs the first command's action |
| CommandRegistry.Find | src/cli/CommandRegistry.cpp:24-30 | The lookup finds nothing iff the name is unregistered; otherwise it returns the first position holding that name |
| CommandRegistry.IndexesUnique | src/cli/CommandRegistry.h:31-32 | Only one name-to-position index agrees with a given ordered list |
| CommandRegistry.Trace | src/modules/GDCM/GDCMTests.cpp:13-26 | A table command's lambda calls each of its feature steps once, in order, with the context it was given. The DCMTK, ITK and VTK tables have lambdas of the same shape |
| CommandRegistry.RunIn | src/cli/CommandRegistry.cpp:24-31 | Running a name that is not registered returns 1 and calls nothing |
| CommandRegistry.RunEach | src/main.cpp:28-33 | The aggregate's loop only appends to the trace so far. Once a suite has failed, the aggregate's status stays non-zero |
| CommandRegistry.RunFeature | src/cli/CommandRegistry.cpp:24-31 | Running a registered feature command calls its own steps once each, in order, with the given context, and returns its status |
| CommandRegistry.SuitePresent | src/main.cpp:29-32 | A registered suite contributes its own status and trace to the aggregate |
| CommandRegistry.SuiteMissing | src/cli/CommandRegistry.cpp:26-28 | A suite name that is not registered contributes status 1 and calls nothing |
| CommandRegistry.AggregateRun | src/main.cpp:27-33 | The aggregate runs every listed suite, each once, in order, without stopping at a failure. Its status is the OR of their statuses, and its trace is their traces concatenated |
| CommandRegistry.FoldStatusCode | src/main.cpp:28-33 | The aggregate's status is 0 exactly when every suite returns 0; it stays at most 1 when every suite's status is at most 1 |
| CommandRegistry.Label | src/cli/CommandRegistry.cpp:40 | A group label is never empty; an unnamed module is labelled "General", any other by its own name |
| CommandRegistry.GroupOfMembers | src/cli/CommandRegistry.cpp:34-37 | A module's group holds exactly the registered commands of that module |
| CommandRegistry.ListingShowsEachCommandOnce | src/cli/CommandRegistry.cpp:33-46 | Taken over all groups, the listing shows every registered command exactly once, with its name and description |
| CommandRegistry.Registry.Valid | src/cli/CommandRegistry.h:31-32 | A consistent registry has pairwise distinct names |
| CommandRegistry.Registry.constructor | src/cli/CommandRegistry.h:22-33 | A new registry is empty and consistent |
| CommandRegistry.Registry.Register | src/cli/CommandRegistry.cpp:6-18 | Registering keeps the index consistent with the list, and the list becomes the admission of the command |
| CommandRegistry.Registry.Exists | src/cli/CommandRegistry.cpp:20-22 | True exactly when some registered command has the name |
| CommandRegistry.Registry.Run | src/cli/CommandRegistry.cpp:24-31 | The index lookup agrees with the first-match search of the list; an unknown name returns 1 and calls nothing |
| CommandRegistry.Registry.GetCommands | src/cli/CommandRegistry.cpp:48-50 | The result is the registered commands themselves, in registration order. It has one command per indexed name, each at the position the index gives it |
| CommandRegistry.Registry.GroupByModule | src/cli/CommandRegistry.cpp:34-37 | The grouping has a key for exactly the modules in use; each key maps to that module's commands in registration order |
| CommandRegistry.Registry.List | src/cli/CommandRegistry.cpp:33-46 | The output is one block per module, in the map's iteration order, and shows every registered command exactly once |
| CommandRegistry.WriteGroup | src/cli/CommandRegistry.cpp:40-44 | One block is the module label, one entry per command in order, then a blank line |
| CLIParser.FlagOfSpellings | src/cli/CLIParser.cpp:8-10 | An argument is taken as an option exactly when it is that option's short or long spelling; otherwise it is treated as a word |
| CLIParser.TokenizeExamines | src/cli/CLIParser.cpp:16-43 | The loop's tokens use up every argument exactly once, in order, and each token is well formed. `-i`/`-o` followed by an argument always consume it as their value; only a final `-i`/`-o` is left without one |
| CLIParser.ApplySwitch | src/cli/CLIParser.cpp:18-25 | A switch is set after the loop exactly when it was set before or appears among the arguments |
| CLIParser.ApplyLastValue | src/cli/CLIParser.cpp:26-37 | Of several `-i`/`-o` values, the last one wins |
| CLIParser.ApplyUnassigned | src/cli/CLIParser.cpp:26-37 | A value option that never gets a value keeps its prior value, including when its value is missing at the end |
| CLIParser.ApplyFirstCommand | src/cli/CLIParser.cpp:38-42 | The first non-empty word becomes the command, and later words are ignored |
| CLIParser.ApplyKeepsCommand | src/cli/CLIParser.cpp:38-42 | Once set, the command is never overwritten |
| CLIParser.ScanArgument | src/cli/CLIParser.cpp:17-42 | One loop iteration performs exactly the step of the first remaining token and advances past the arguments that token spells: two for `-i`/`-o` with a value, one otherwise. The rest of the loop agrees with the token fold |
| CLIParser.Parse | src/cli/CLIParser.cpp:45-54 | Without `-l` or `-m`, the command is left empty only when help is shown and "all" is not registered |
| CLIParser.ParseFlags | src/cli/CLIParser.cpp:13-47 | `list`, `modules` and `verbose` are set iff their flag is given. `help` is set iff `-h` is given, or no command word, `-l` or `-m` is given |
| CLIParser.ParseCommand | src/cli/CLIParser.cpp:38-54 | The command is the first word when there is one. Otherwise it is "all" when help applies, no `-l`/`-m` is given and "all" is registered; else it is empty |
| CLIParser.ParseValues | src/cli/CLIParser.cpp:26-37 | The input path and output directory are the last values given, or "" and "output" when none is given |
| CLIParser.NoArguments | src/cli/CLIParser.cpp:45-54 | A bare invocation sets help and falls back to "all" when that command is registered |
| CLIParser.ValueLooksLikeFlag | src/cli/CLIParser.cpp:26-28 | The argument after `-i` is taken as the path even when it is spelled like an option |
| CLIParser.ParseCLIArgs | src/cli/CLIParser.cpp:13-57 | The parser's loop and its defaulting compute exactly `Parse` of the arguments, asking the registry whether "all" exists |
| CLIParser.PrintUsage | src/cli/CLIParser.cpp:59-71 | Usage is the fixed option summary followed by the listing, and it shows every registered command exactly once |
| CLIParser.UsageHasNoEntries | src/cli/CLIParser.cpp:60-69 | The fixed part of the usage text lists no command |
| GDCMTests.Names | src/modules/GDCM/GDCMTests.cpp:8-128 | The table has 11 commands with distinct names |
| GDCMTests.Prefixed | src/modules/GDCM/GDCMTests.cpp:8-128 | Every name except `test-gdcm` starts with `gdcm:` |
| GDCMTests.Table | src/modules/GDCM/GDCMTests.cpp:8-128 | Every command has a name and an action, belongs to module "GDCM" and returns 0 |
| GDCMTests.Suite | src/modules/GDCM/GDCMTests.cpp:9-27 | `test-gdcm` comes first and runs all eleven GDCM features, each once, in source order |
| GDCMTests.SingleSteps | src/modules/GDCM/GDCMTests.cpp:29-127 | Every other command runs one suite feature, no two the same, and none runs decompression |
| GDCMTests.Standalone | src/modules/GDCM/GDCMTests.cpp:9-127 | Every suite feature except decompression has a command of its own |
| GDCMTests.RegisterCommands | src/modules/GDCM/GDCMTests.cpp:8-131 | With GDCM, the table is registered in order; without it, the registry is unchanged |
| DCMTKTests.Names | src/modules/DCMTK/DCMTKTests.cpp:8-127 | The table has 11 commands with distinct names |
| DCMTKTests.Prefixed | src/modules/DCMTK/DCMTKTests.cpp:8-127 | Every name except `test-dcmtk` starts with `dcmtk:` |
| DCMTKTests.Table | src/modules/DCMTK/DCMTKTests.cpp:8-127 | Every command has a name and an action, belongs to module "DCMTK" and returns 0 |
| DCMTKTests.Suite | src/modules/DCMTK/DCMTKTests.cpp:9-26 | `test-dcmtk` comes first and runs all ten DCMTK features, each once, in source order |
| DCMTKTests.SingleSteps | src/modules/DCMTK/DCMTKTests.cpp:28-126 | The k-th single command runs exactly the k-th suite feature, so every feature has a command of its own |
| DCMTKTests.RegisterCommands | src/modules/DCMTK/DCMTKTests.cpp:8-130 | With DCMTK, the table is registered in order; without it, the registry is unchanged |
| ITKTests.Names | src/modules/ITK/ITKTests.cpp:8-75 | The table has 6 commands with distinct names |
| ITKTests.Prefixed | src/modules/ITK/ITKTests.cpp:8-75 | Every name except `test-itk` starts with `itk:` |
| ITKTests.Table | src/modules/ITK/ITKTests.cpp:8-75 | Every command has a name and an action, belongs to module "ITK" and returns 0 |
| ITKTests.Suite | src/modules/ITK/ITKTests.cpp:9-24 | `test-itk` comes first and runs all eight ITK features, each once, in source order |
| ITKTests.SingleSteps | src/modules/ITK/ITKTests.cpp:26-74 | Every other command runs one suite feature, no two the same, and none runs a suite-only feature |
| ITKTests.Standalone | src/modules/ITK/ITKTests.cpp:9-74 | Every suite feature outside the suite-only three has a command of its own |
| ITKTests.RegisterCommands | src/modules/ITK/ITKTests.cpp:8-78 | With ITK, the table is registered in order; without it, the registry is unchanged |
| VTKTests.Names | src/modules/VTK/VTKTests.cpp:38-92 | The table has 5 commands with distinct names |
| VTKTests.Prefixed | src/modules/VTK/VTKTests.cpp:38-92 | Every name except `test-vtk` starts with `vtk:` |
| VTKTests.Table | src/modules/VTK/VTKTests.cpp:38-92 | Every command has a name and an action, belongs to module "VTK" and returns 0 |
| VTKTests.Suite | src/modules/VTK/VTKTests.cpp:39-51 | `test-vtk` comes first and runs all five VTK features, each once, in source order |
| VTKTests.SingleSteps | src/modules/VTK/VTKTests.cpp:53-91 | Every other command runs one suite feature, no two the same, and none runs MPR |
| VTKTests.Standalone | src/modules/VTK/VTKTests.cpp:39-91 | Every suite feature except MPR has a command of its own |
| VTKTests.RegisterCommands | src/modules/VTK/VTKTests.cpp:38-92 | With VTK, the table is registered in order; without it, the registry is unchanged |
| DicomTools.Registrations | src/main.cpp:18-35 | Every registration main makes is accepted, so the registry holds exactly the catalogue, and its names are pairwise distinct |
| DicomTools.BuildRegistry | src/main.cpp:18-35 | After the four hooks and "all", the registry is consistent and holds the catalogue |
| DicomTools.CatalogueSize | src/main.cpp:18-35 | The catalogue has 11/11/6/5 commands per enabled backend plus "all": 34 with every backend, only "all" with none |
| DicomTools.CatalogueNamed | src/main.cpp:18-35 | A name is registered exactly when an enabled backend's table has it or it is "all" |
| DicomTools.GdcmSuiteHome | src/main.cpp:29 | No other backend's table has the name `test-gdcm` |
| DicomTools.DcmtkSuiteHome | src/main.cpp:30 | No other backend's table has the name `test-dcmtk` |
| DicomTools.ItkSuiteHome | src/main.cpp:31 | No other backend's table has the name `test-itk` |
| DicomTools.VtkSuiteHome | src/main.cpp:32 | No other backend's table has the name `test-vtk` |
| DicomTools.AllRunsEverySuite | src/main.cpp:27-33 | "all" runs the enabled suites' features in GDCM, DCMTK, ITK, VTK order. It returns 0 exactly when all four backends are built in, and 1 otherwise |
| DicomTools.CommandRuns | src/cli/CommandRegistry.cpp:24-31 | A backend command run through the registry calls its features with the given context and returns 0 |
| DicomTools.RunsNormally | src/cli/CommandRegistry.cpp:24-31 | Any name run on the catalogue returns 0 or 1; an unregistered name returns 1 and calls nothing |
| DicomTools.MainWith | src/main.cpp:14-73 | Every normal exit starts with the three-line banner. Whenever a feature was called, the output directory was ready and the output ends with the closing rule |
| DicomTools.Launch | src/main.cpp:55-73 | Every normal exit starts with the banner. A feature is called only when an input path was given or found and the output directory is ready, and then the output ends with the closing rule |
| DicomTools.Respond | src/main.cpp:37-73 | main's dispatch, after the banner and the registry, yields exactly the output, calls and exit code that `MainWith` describes |
| DicomTools.Dispatch | src/main.cpp:55-73 | Input fallback, output-directory check and running the command yield exactly what `Launch` describes |
| DicomTools.RunMain | src/main.cpp:13-74 | The whole of main yields exactly what `Main` describes for the built backends |
| DicomTools.RunsParsed | src/main.cpp:55-73 | Once the parsed options pass every early exit and the output directory is ready, main's result is the command's Run on the context built from the options and the detected input, after the banner and the detected-input line |
| DicomTools.ListWins | src/main.cpp:39-42 | With `-l`, main prints the banner and the listing, runs nothing and exits 0, whatever else is given |
| DicomTools.BareInvocation | src/main.cpp:44-47 | With no arguments, main prints usage and runs nothing. It exits 0 when "all" is registered and 1 otherwise |
| DicomTools.ModulesAlone | src/main.cpp:44-47 | With only `-m`, no command is chosen: main prints usage, runs nothing and exits 1 |
| DicomTools.HelpExitsZero | src/main.cpp:44-47 | With help and no command word, `-l` or `-m`, main prints usage and exits 0 without running anything |
| DicomTools.UnknownCommand | src/main.cpp:49-53 | An unregistered command word, without `-l` or `-h`, prints usage and exits 1 without running anything |
| DicomTools.MissingInput | src/main.cpp:55-61 | A registered command with no `-i` and no auto-detected file exits 1 after the banner, running nothing |
| DicomTools.NothingRunsEarly | src/main.cpp:39-70 | A feature is called only when there is no `-l` or help, the command is registered, an input path is known and the output directory is ready. With no command word, main takes one of the three exits that call nothing |
| DicomTools.ExitsLikeCommand | src/main.cpp:37-73 | main exits normally with status 0 or 1 whenever the command it would run does |
| DicomTools.ExitsNormally | src/main.cpp:13-74 | For every argument list, build and filesystem outcome, main exits normally with 0 or 1 |
| DicomTools.RunAllEndToEnd | src/main.cpp:13-74 | `DicomTools all` with an auto-detected file announces the file and runs every enabled suite in order. It ends with the rule and exits 0 exactly when all four backends are built in |
| DicomTools.TagsEndToEnd | src/main.cpp:13-74 | With GDCM, `DicomTools gdcm:tags -i scan.dcm` calls tag inspection once on `scan.dcm` with output directory "output" and exits 0 |
| DicomTools.TagsWithoutGdcm | src/main.cpp:49-53 | Without GDCM, `gdcm:tags` is an unknown command: usage is printed and the exit code is 1 |

## Left out

- Diagnostics written to standard error are not modelled, because they do not affect the exit code or the flow. These cover a duplicate registration, an unknown command, a missing option value, an unrecognised argument and a missing input. Standard output is modelled as a sequence of lines, not bytes.
- The feature actions' bodies are not part of this model. They read DICOM files and write artefacts through GDCM, DCMTK, ITK and VTK. Each one is an uninterpreted step, recorded in the trace with its context. Exceptions they might throw are not modelled either.
- The filesystem is not modelled. `FileSystemUtils::FindFirstDicom` and `FileSystemUtils::EnsureOutputDir` become parameters instead: the detected path (`found`, "" when none) and whether the directory is ready (`outputReady`).
- Iteration order of `std::unordered_map` in `List` is unspecified. It is a parameter, `order`, which must enumerate the modules in use once each. Group contents keep registration order, as in the source.
- `CLIOptions.h` does not declare the `modules` field that `CLIParser.cpp:23` writes. The model follows the parser and declares it, defaulting to false. Apart from suppressing the help default, `-m` has no effect in `main`; the model follows that.
- main's exit status is the command's `int`, not reduced to the 8 bits a process exit code keeps. On the catalogue it is always 0 or 1, so nothing is lost.
- Running a command takes a fuel bound equal to the catalogue's size, and the result `Fault`/`Crash` stands for the bound being exhausted. On the catalogue the bound is never reached (`DicomTools.ExitsNormally`).
- The aggregate `"all"` does not check `Exists` before running a suite, so a backend that is not built contributes status 1. The model follows the code.
- `CLIParser.h` and the backend interface headers are declarations only. `FileSystemUtils.cpp` and the feature action files are not part of this model.
- The source's test script `tests/run_all.py` is not part of this model.
