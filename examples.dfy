/**
 * End-to-end runs of the parser on small catalogs: a `convert` module with a flagged name and
 * a positional source file, and the `buildTrustCache` module (BuildTC.swift) with the program's
 * `--udid` global (main.swift).
 */
module Examples {
  import opened Wrappers
  import opened Coercion
  import opened Arguments
  import opened ModuleParser
  import opened GlobalScanner
  import opened Usage

  // ---------------------------------------------------------------------------------------
  // convert -n <value> <src>

  predicate ConvertCatalog(m: Module, name: CommandLineArgument, src: CommandLineArgument) {
    m == Module("convert", "Convert a file", [name, src], []) &&
    name.name == "" && name.shortVersion == "-n" && name.longVersion == "--name" &&
    name.kind == String && name.defaultValue == None &&
    src.name == "src" && src.shortVersion == "" && src.longVersion == "" &&
    src.kind == FilePath && src.defaultValue == None
  }

  /** `-n` is the required flag `name`; it waits for its value, which "foo" then supplies. */
  lemma ConvertFlagTokens(m: Module, name: CommandLineArgument, src: CommandLineArgument, vals: Values,
                          fs: FileSystem)
    requires ConvertCatalog(m, name, src)
    ensures Step(m, Initial(vals, fs), "-n") == Running(ModuleState(vals, [name], [], true, true, fs))
    ensures Step(m, ModuleState(vals, [name], [], true, true, fs), "foo") ==
            Running(ModuleState(vals[name := Some(Text("foo"))], [name], [], false, true, fs))
  {
    assert FirstMatch(m.required, ByFlag("-n")) == Some(0);
  }

  /** A path that is no flag fills the positional `src`, the first required argument with a name. */
  lemma ConvertPositionalToken(m: Module, name: CommandLineArgument, src: CommandLineArgument,
                               st: ModuleState)
    requires ConvertCatalog(m, name, src) && Shaped(m, st) && IsFile(st.fs, "/tmp/in.txt") && !st.nextIsValue
    requires src !in st.vals
    ensures Step(m, st, "/tmp/in.txt") ==
            Running(st.(vals := st.vals[src := Some(Text("/tmp/in.txt"))], required := st.required + [src]))
  {
    assert FirstMatch(m.required, ByFlag("/tmp/in.txt")) == None;
    assert FirstUnfilled(m.required, st.vals) == Some(1);
  }

  /** The state after `-n foo /tmp/in.txt`: both slots written, both entries parsed. */
  function ConvertParsed(name: CommandLineArgument, src: CommandLineArgument, fs: FileSystem): ModuleState {
    ModuleState(map[name := Some(Text("foo")), src := Some(Text("/tmp/in.txt"))], [name, src], [], false, true, fs)
  }

  /** The last token, the path, fills `src`. */
  lemma ConvertPathRun(m: Module, name: CommandLineArgument, src: CommandLineArgument, t: seq<string>,
                       fs: FileSystem)
    requires ConvertCatalog(m, name, src) && t == ["/tmp/in.txt"] && IsFile(fs, "/tmp/in.txt")
    ensures Run(m, ModuleState(map[name := Some(Text("foo"))], [name], [], false, true, fs), t) ==
            Running(ConvertParsed(name, src, fs))
  {
    var st2 := ModuleState(map[name := Some(Text("foo"))], [name], [], false, true, fs);
    ConvertPositionalToken(m, name, src, st2);
    assert [name] + [src] == [name, src];
    RunStepsOnce(m, st2, t, ConvertParsed(name, src, fs));
    assert t[1..] == [];
  }

  /** "foo" is the value of `-n`; the path then fills `src`. */
  lemma ConvertValueRun(m: Module, name: CommandLineArgument, src: CommandLineArgument, t: seq<string>,
                        fs: FileSystem)
    requires ConvertCatalog(m, name, src) && t == ["foo", "/tmp/in.txt"] && IsFile(fs, "/tmp/in.txt")
    ensures Run(m, ModuleState(map[], [name], [], true, true, fs), t) == Running(ConvertParsed(name, src, fs))
  {
    ConvertFlagTokens(m, name, src, map[], fs);
    var st2 := ModuleState(map[name := Some(Text("foo"))], [name], [], false, true, fs);
    RunStepsOnce(m, ModuleState(map[], [name], [], true, true, fs), t, st2);
    ConvertPathRun(m, name, src, t[1..], fs);
  }

  /** The token loop on `-n foo /tmp/in.txt`: the flag takes "foo", the positional the path. */
  lemma ConvertSteps(m: Module, name: CommandLineArgument, src: CommandLineArgument, tokens: seq<string>,
                     fs: FileSystem)
    requires ConvertCatalog(m, name, src) && tokens == ["-n", "foo", "/tmp/in.txt"]
    requires IsFile(fs, "/tmp/in.txt")
    ensures Run(m, Initial(map[], fs), tokens) == Running(ConvertParsed(name, src, fs))
  {
    ConvertFlagTokens(m, name, src, map[], fs);
    RunStepsOnce(m, Initial(map[], fs), tokens, ModuleState(map[], [name], [], true, true, fs));
    ConvertValueRun(m, name, src, tokens[1..], fs);
  }

  /** The module parser on `-n foo /tmp/in.txt` dispatches with both slots written. */
  lemma ConvertRun(m: Module, name: CommandLineArgument, src: CommandLineArgument, tokens: seq<string>,
                   vals: Values, fs: FileSystem)
    requires ConvertCatalog(m, name, src) && tokens == ["-n", "foo", "/tmp/in.txt"]
    requires IsFile(fs, "/tmp/in.txt") && vals == map[]
    ensures ParseModule(m, tokens, vals, fs) ==
            Verdict(Dispatch(m, ArgumentSet([name, src], [])),
                    map[name := Some(Text("foo")), src := Some(Text("/tmp/in.txt"))], fs)
  {
    var st3 := ConvertParsed(name, src, fs);
    ConvertSteps(m, name, src, tokens, fs);
    assert Run(m, st3, []) == Running(st3);
    assert Finish(m, st3) == Dispatch(m, ArgumentSet([name, src], []));
    FinishedRun(m, tokens, vals, fs, st3, Dispatch(m, ArgumentSet([name, src], [])));
  }

  /** `app convert -n foo /tmp/in.txt` dispatches with name "foo" and src "/tmp/in.txt". */
  lemma ConvertDispatches(m: Module, name: CommandLineArgument, src: CommandLineArgument, vals: Values,
                          fs: FileSystem)
    requires ConvertCatalog(m, name, src) && IsFile(fs, "/tmp/in.txt") && vals == map[]
    ensures ParseArgv([m], None, ["app", "convert", "-n", "foo", "/tmp/in.txt"], vals, fs) ==
            Verdict(Dispatch(m, ArgumentSet([name, src], [])),
                    map[name := Some(Text("foo")), src := Some(Text("/tmp/in.txt"))], fs)
  {
    var argv := ["app", "convert", "-n", "foo", "/tmp/in.txt"];
    assert FirstModule([m], "convert") == Some(0);
    assert ScanGlobals([m], None, argv, 1, Start(vals, fs)) == HandOff(0, 2, Start(vals, fs));
    assert argv[2..] == ["-n", "foo", "/tmp/in.txt"];
    ConvertRun(m, name, src, argv[2..], vals, fs);
  }

  /** With no globals, the scan hands the entries after "convert" to the module parser. */
  lemma ConvertHandOff(m: Module, name: CommandLineArgument, src: CommandLineArgument, argv: seq<string>,
                       vals: Values, fs: FileSystem)
    requires ConvertCatalog(m, name, src) && argv == ["app", "convert", "/tmp/in.txt"]
    ensures ParseArgv([m], None, argv, vals, fs) == ParseModule(m, ["/tmp/in.txt"], vals, fs)
  {
    assert FirstModule([m], "convert") == Some(0);
    assert ScanGlobals([m], None, argv, 1, Start(vals, fs)) == HandOff(0, 2, Start(vals, fs));
    assert argv[2..] == ["/tmp/in.txt"];
  }

  /** The positional alone fills src; -n stays unparsed, so too few required entries are parsed. */
  lemma ConvertMissingName(m: Module, name: CommandLineArgument, src: CommandLineArgument, tokens: seq<string>,
                           fs: FileSystem)
    requires ConvertCatalog(m, name, src) && IsFile(fs, "/tmp/in.txt") && tokens == ["/tmp/in.txt"]
    ensures ParseModule(m, tokens, map[], fs).outcome == Usage(NotEnoughArguments)
  {
    var st0 := Initial(map[], fs);
    var st1 := st0.(vals := map[src := Some(Text("/tmp/in.txt"))], required := [src]);
    ConvertPositionalToken(m, name, src, st0);
    RunStepsOnce(m, st0, tokens, st1);
    assert tokens[1..] == [];
    FinishedRun(m, tokens, map[], fs, st1, Usage(NotEnoughArguments));
  }

  /** `app convert /tmp/in.txt` fills src but lacks -n: usage, no dispatch. */
  lemma ConvertWithoutNameShowsUsage(m: Module, name: CommandLineArgument, src: CommandLineArgument,
                                     vals: Values, fs: FileSystem)
    requires ConvertCatalog(m, name, src) && IsFile(fs, "/tmp/in.txt") && vals == map[]
    ensures ParseArgv([m], None, ["app", "convert", "/tmp/in.txt"], vals, fs).outcome == Usage(NotEnoughArguments)
  {
    ConvertHandOff(m, name, src, ["app", "convert", "/tmp/in.txt"], vals, fs);
    ConvertMissingName(m, name, src, ["/tmp/in.txt"], fs);
  }

  /** The convert catalog, declared as the source declares its modules. */
  method ConvertModule() returns (m: Module, name: CommandLineArgument, src: CommandLineArgument)
    ensures ConvertCatalog(m, name, src)
    ensures fresh(name) && fresh(src) && name.rawValue == None && src.rawValue == None
  {
    name := new CommandLineArgument.ShortLong("-n", "--name", "Name of the result", String, None);
    src := new CommandLineArgument.Named("src", "Input file", FilePath, None);
    m := Module("convert", "Convert a file", [name, src], []);
  }

  /** The in-place procedure on the convert catalog: the slots of both arguments end up set. */
  method RunConvert(fs: FileSystem) returns (outcome: Outcome, name: CommandLineArgument, src: CommandLineArgument)
    requires IsFile(fs, "/tmp/in.txt")
    ensures outcome.Dispatch? && outcome.arguments.required == [name, src]
    ensures name.Value() == Some(Text("foo")) && src.Value() == Some(Text("/tmp/in.txt"))
  {
    var m;
    m, name, src := ConvertModule();
    ConvertDispatches(m, name, src, map[], fs);
    forall a | a in AllSpecs([m], None)
      ensures a == name || a == src
    {
    }
    var fs';
    ghost var vals;
    assert m in [m] && name in m.required + m.optional && src in m.required + m.optional;
    assert name in AllSpecs([m], None) && src in AllSpecs([m], None);
    outcome, fs', vals := ParseCommandLine([m], None, ["app", "convert", "-n", "foo", "/tmp/in.txt"], fs, map[]);
    assert vals == map[name := Some(Text("foo")), src := Some(Text("/tmp/in.txt"))];
  }

  // ---------------------------------------------------------------------------------------
  // app -u <udid> buildTrustCache <directory> <trustcache> [-i]

  predicate BuildTCCatalog(m: Module, directory: CommandLineArgument, trustcache: CommandLineArgument,
                           im4p: CommandLineArgument) {
    m == Module("buildTrustCache", "Create a trust cache from a directory", [directory, trustcache], [im4p]) &&
    directory.name == "directory" && directory.shortVersion == "" && directory.longVersion == "" &&
    directory.kind == FolderPath && directory.defaultValue == None &&
    trustcache.name == "trustcache" && trustcache.shortVersion == "" && trustcache.longVersion == "" &&
    trustcache.kind == OutputFilePath && trustcache.defaultValue == None &&
    im4p.name == "" && im4p.shortVersion == "-i" && im4p.longVersion == "--im4p" &&
    im4p.kind == Flag && im4p.defaultValue == None
  }

  predicate UdidGlobals(g: ArgumentSet, udid: CommandLineArgument) {
    g == ArgumentSet([], [udid]) &&
    udid.name == "" && udid.shortVersion == "-u" && udid.longVersion == "--udid" &&
    udid.kind == String && udid.defaultValue == None
  }

  /** `-u` is an optional global expecting a value: the scan waits for it. */
  lemma UdidFlagToken(m: Module, g: ArgumentSet, udid: CommandLineArgument, fs: FileSystem)
    requires UdidGlobals(g, udid)
    ensures GlobalStep([m], Some(g), "-u", Start(map[], fs)) == Continue(GlobalState(map[], Some(udid), fs))
  {
    assert FirstMatch(g.optional, ByFlag("-u")) == Some(0);
  }

  /** The next entry is the value of `-u`, stored as text. */
  lemma UdidValueToken(m: Module, g: ArgumentSet, udid: CommandLineArgument, fs: FileSystem)
    requires UdidGlobals(g, udid)
    ensures GlobalStep([m], Some(g), "0123", GlobalState(map[], Some(udid), fs)) ==
            Continue(GlobalState(map[udid := Some(Text("0123"))], None, fs))
  {
  }

  /** The module name ends the scan; no required global is declared. */
  lemma UdidModuleToken(m: Module, g: ArgumentSet, udid: CommandLineArgument, fs: FileSystem)
    requires m.name == "buildTrustCache" && UdidGlobals(g, udid)
    ensures GlobalStep([m], Some(g), "buildTrustCache", GlobalState(map[udid := Some(Text("0123"))], None, fs)) ==
            Enter(0)
  {
    assert FirstMatch(g.optional, ByFlag("buildTrustCache")) == None;
    assert FirstModule([m], "buildTrustCache") == Some(0);
  }

  /** The global scan takes `-u <udid>`, then hands the tokens after the module name over. */
  lemma UdidScan(m: Module, g: ArgumentSet, udid: CommandLineArgument, fs: FileSystem, argv: seq<string>)
    requires m.name == "buildTrustCache" && UdidGlobals(g, udid)
    requires argv == ["app", "-u", "0123", "buildTrustCache", "dir", "out.tc", "-i"]
    ensures ScanGlobals([m], Some(g), argv, 1, Start(map[], fs)) ==
            HandOff(0, 4, GlobalState(map[udid := Some(Text("0123"))], None, fs))
  {
    UdidFlagToken(m, g, udid, fs);
    UdidValueToken(m, g, udid, fs);
    UdidModuleToken(m, g, udid, fs);
    var st1 := GlobalState(map[], Some(udid), fs);
    var st2 := GlobalState(map[udid := Some(Text("0123"))], None, fs);
    assert argv[3] == "buildTrustCache";
    assert ScanGlobals([m], Some(g), argv, 3, st2) == HandOff(0, 4, st2);
    assert argv[2] == "0123";
    assert ScanGlobals([m], Some(g), argv, 2, st1) == ScanGlobals([m], Some(g), argv, 3, st2);
    assert argv[1] == "-u";
  }

  /** After the scan, the module parser runs on the entries after the module name. */
  lemma UdidHandOff(m: Module, g: ArgumentSet, udid: CommandLineArgument, fs: FileSystem, argv: seq<string>)
    requires m.name == "buildTrustCache" && UdidGlobals(g, udid)
    requires argv == ["app", "-u", "0123", "buildTrustCache", "dir", "out.tc", "-i"]
    ensures ParseArgv([m], Some(g), argv, map[], fs) == ParseModule(m, argv[4..], map[udid := Some(Text("0123"))], fs)
  {
    UdidScan(m, g, udid, fs, argv);
  }

  /** The first token fills the first positional, `directory`, which must name a directory. */
  lemma BuildTCFirstToken(m: Module, directory: CommandLineArgument, trustcache: CommandLineArgument,
                          im4p: CommandLineArgument, vals: Values, fs: FileSystem)
    requires BuildTCCatalog(m, directory, trustcache, im4p)
    requires directory !in vals && IsDirectory(fs, "dir")
    ensures Step(m, Initial(vals, fs), "dir") ==
            Running(Initial(vals, fs).(vals := vals[directory := Some(Text("dir"))], required := [directory]))
  {
    assert FirstMatch(m.required, ByFlag("dir")) == None && FirstMatch(m.optional, ByFlag("dir")) == None;
    assert FirstUnfilled(m.required, vals) == Some(0);
  }

  /** The second token fills the next positional, `trustcache`. */
  lemma BuildTCSecondToken(m: Module, directory: CommandLineArgument, trustcache: CommandLineArgument,
                           im4p: CommandLineArgument, st: ModuleState)
    requires BuildTCCatalog(m, directory, trustcache, im4p)
    requires st.required == [directory] && st.optional == [] && !st.nextIsValue
    requires directory in st.vals && st.vals[directory].Some? && trustcache !in st.vals
    requires !IsDirectory(st.fs, "out.tc")
    ensures Step(m, st, "out.tc") ==
            Running(st.(vals := st.vals[trustcache := Some(Text("out.tc"))], required := [directory, trustcache]))
  {
    assert FirstMatch(m.required, ByFlag("out.tc")) == None && FirstMatch(m.optional, ByFlag("out.tc")) == None;
    assert FirstUnfilled(m.required, st.vals) == Some(1);
  }

  /** The third token is the optional Flag `-i`, which becomes true. */
  lemma BuildTCThirdToken(m: Module, directory: CommandLineArgument, trustcache: CommandLineArgument,
                          im4p: CommandLineArgument, st: ModuleState)
    requires BuildTCCatalog(m, directory, trustcache, im4p)
    requires st.optional == [] && !st.nextIsValue && Shaped(m, st)
    ensures Step(m, st, "-i") == Running(st.(vals := st.vals[im4p := Some(Bool(true))], optional := [im4p]))
  {
    assert FirstMatch(m.required, ByFlag("-i")) == None && FirstMatch(m.optional, ByFlag("-i")) == Some(0);
  }

  /** The verdict for "dir out.tc -i": both positionals and the flag, handed to the handler. */
  function BuildTCParsed(m: Module, directory: CommandLineArgument, trustcache: CommandLineArgument,
                         im4p: CommandLineArgument, vals: Values, fs: FileSystem): Verdict
  {
    Verdict(Dispatch(m, ArgumentSet([directory, trustcache], [im4p])),
            vals[directory := Some(Text("dir"))][trustcache := Some(Text("out.tc"))][im4p := Some(Bool(true))],
            fs)
  }

  /** The module parser fills both positionals in order, then takes the `-i` flag. */
  lemma BuildTCRun(m: Module, directory: CommandLineArgument, trustcache: CommandLineArgument,
                   im4p: CommandLineArgument, tokens: seq<string>, vals: Values, fs: FileSystem)
    requires BuildTCCatalog(m, directory, trustcache, im4p) && tokens == ["dir", "out.tc", "-i"]
    requires directory !in vals && trustcache !in vals && IsDirectory(fs, "dir") && !IsDirectory(fs, "out.tc")
    ensures ParseModule(m, tokens, vals, fs) == BuildTCParsed(m, directory, trustcache, im4p, vals, fs)
  {
    var st0 := Initial(vals, fs);
    var st1 := st0.(vals := vals[directory := Some(Text("dir"))], required := [directory]);
    BuildTCFirstToken(m, directory, trustcache, im4p, vals, fs);
    var st2 := st1.(vals := st1.vals[trustcache := Some(Text("out.tc"))], required := [directory, trustcache]);
    BuildTCSecondToken(m, directory, trustcache, im4p, st1);
    var st3 := st2.(vals := st2.vals[im4p := Some(Bool(true))], optional := [im4p]);
    BuildTCThirdToken(m, directory, trustcache, im4p, st2);
    RunStepsOnce(m, st0, tokens, st1);
    assert tokens[1..] == ["out.tc", "-i"];
    RunStepsOnce(m, st1, tokens[1..], st2);
    assert tokens[1..][1..] == ["-i"];
    RunStepsOnce(m, st2, tokens[1..][1..], st3);
    assert tokens[1..][1..][1..] == [];
    FinishedRun(m, tokens, vals, fs, st3, Dispatch(m, ArgumentSet([directory, trustcache], [im4p])));
  }

  /** The slots the verdict for "dir out.tc -i" leaves, after `-u 0123`. */
  lemma BuildTCValues(m: Module, directory: CommandLineArgument, trustcache: CommandLineArgument,
                      im4p: CommandLineArgument, udid: CommandLineArgument, fs: FileSystem)
    requires udid.defaultValue == None && directory.defaultValue == None
    requires trustcache.defaultValue == None && im4p.defaultValue == None
    requires udid != directory && udid != trustcache && udid != im4p
    requires directory != trustcache && directory != im4p && trustcache != im4p
    ensures var v := BuildTCParsed(m, directory, trustcache, im4p, map[udid := Some(Text("0123"))], fs);
            ValueIn(v.vals, udid) == Some(Text("0123")) && ValueIn(v.vals, directory) == Some(Text("dir")) &&
            ValueIn(v.vals, trustcache) == Some(Text("out.tc")) && ValueIn(v.vals, im4p) == Some(Bool(true))
  {
  }

  /** The whole command line: the handler receives both positionals and the flag; udid is set. */
  lemma BuildTCDispatches(m: Module, directory: CommandLineArgument, trustcache: CommandLineArgument,
                          im4p: CommandLineArgument, g: ArgumentSet, udid: CommandLineArgument, fs: FileSystem)
    requires BuildTCCatalog(m, directory, trustcache, im4p) && UdidGlobals(g, udid)
    requires IsDirectory(fs, "dir") && !IsDirectory(fs, "out.tc")
    ensures var v := ParseArgv([m], Some(g), ["app", "-u", "0123", "buildTrustCache", "dir", "out.tc", "-i"],
                               map[], fs);
            v.outcome == Dispatch(m, ArgumentSet([directory, trustcache], [im4p])) &&
            ValueIn(v.vals, udid) == Some(Text("0123")) && ValueIn(v.vals, directory) == Some(Text("dir")) &&
            ValueIn(v.vals, trustcache) == Some(Text("out.tc")) && ValueIn(v.vals, im4p) == Some(Bool(true))
  {
    var argv := ["app", "-u", "0123", "buildTrustCache", "dir", "out.tc", "-i"];
    UdidHandOff(m, g, udid, fs, argv);
    var vals := map[udid := Some(Text("0123"))];
    assert udid != directory && udid != trustcache && udid != im4p;
    assert directory != trustcache && directory != im4p && trustcache != im4p;
    var tokens := argv[4..];
    assert tokens == ["dir", "out.tc", "-i"];
    BuildTCRun(m, directory, trustcache, im4p, tokens, vals, fs);
    BuildTCValues(m, directory, trustcache, im4p, udid, fs);
  }

  predicate CountGlobals(g: ArgumentSet, count: CommandLineArgument) {
    g == ArgumentSet([], [count]) && count.shortVersion == "-c" && count.longVersion == "" &&
    count.kind == Int && count.defaultValue == None
  }

  /** `-c` is an optional Int global: the scan waits for its value. */
  lemma CountFlagToken(m: Module, g: ArgumentSet, count: CommandLineArgument, fs: FileSystem)
    requires CountGlobals(g, count)
    ensures GlobalStep([m], Some(g), "-c", Start(map[], fs)) == Continue(GlobalState(map[], Some(count), fs))
  {
    assert FirstMatch(g.optional, ByFlag("-c")) == Some(0);
  }

  /** "abc" is no integer: the slot of `-c` is written with no value. */
  lemma CountValueToken(m: Module, g: ArgumentSet, count: CommandLineArgument, fs: FileSystem)
    requires CountGlobals(g, count)
    ensures GlobalStep([m], Some(g), "abc", GlobalState(map[], Some(count), fs)) ==
            Continue(GlobalState(map[count := None], None, fs))
  {
    assert !IsDigit("abc"[0]) && "abc"[..2] != "0x";
  }

  /** The module name ends the scan. */
  lemma CountModuleToken(m: Module, g: ArgumentSet, count: CommandLineArgument, fs: FileSystem)
    requires m.name == "status" && CountGlobals(g, count)
    ensures GlobalStep([m], Some(g), "status", GlobalState(map[count := None], None, fs)) == Enter(0)
  {
    assert FirstMatch(g.optional, ByFlag("status")) == None;
    assert FirstModule([m], "status") == Some(0);
  }

  /** The scan stores no value for an unparsable `-c abc`, then enters the module. */
  lemma CountScan(m: Module, g: ArgumentSet, count: CommandLineArgument, fs: FileSystem, argv: seq<string>)
    requires m.name == "status" && CountGlobals(g, count)
    requires argv == ["app", "-c", "abc", "status"]
    ensures ScanGlobals([m], Some(g), argv, 1, Start(map[], fs)) ==
            HandOff(0, 4, GlobalState(map[count := None], None, fs))
  {
    CountFlagToken(m, g, count, fs);
    CountValueToken(m, g, count, fs);
    CountModuleToken(m, g, count, fs);
    var st1 := GlobalState(map[], Some(count), fs);
    var st2 := GlobalState(map[count := None], None, fs);
    assert argv[3] == "status";
    assert ScanGlobals([m], Some(g), argv, 3, st2) == HandOff(0, 4, st2);
    assert argv[2] == "abc";
    assert ScanGlobals([m], Some(g), argv, 2, st1) == ScanGlobals([m], Some(g), argv, 3, st2);
    assert argv[1] == "-c";
  }


  /** An unparsable value of a global is stored as no value, and the module is still dispatched. */
  lemma GlobalCoercionFailureIgnored(m: Module, g: ArgumentSet, count: CommandLineArgument, fs: FileSystem)
    requires m == Module("status", "Show the status", [], [])
    requires CountGlobals(g, count)
    ensures ParseArgv([m], Some(g), ["app", "-c", "abc", "status"], map[], fs) ==
            Verdict(Dispatch(m, ArgumentSet([], [])), map[count := None], fs)
  {
    var argv := ["app", "-c", "abc", "status"];
    CountScan(m, g, count, fs, argv);
    assert argv[4..] == [];
  }

  /** The required labels of buildTrustCache are padded to the length of "<trustcache>". */
  lemma BuildTCPadding(m: Module, directory: CommandLineArgument, trustcache: CommandLineArgument,
                       im4p: CommandLineArgument)
    requires BuildTCCatalog(m, directory, trustcache, im4p)
    ensures Longest(RequiredLabels(m.required)) == 12
  {
    var labels := RequiredLabels(m.required);
    assert labels[0] == "<" + directory.name + ">" && labels[1] == "<" + trustcache.name + ">";
    assert labels[..1][0] == labels[0];
  }
}
