/**
 * The top-level scan (CommandLineParser.swift, `parseCommandLine`): global flags and their
 * values up to the first module name, the required-globals gate, and the hand-off to the
 * module parser; first as pure functions and lemmas, then as the in-place procedure.
 */
module GlobalScanner {
  import opened Wrappers
  import opened Coercion
  import opened Arguments
  import opened ModuleParser

  /** The scan's state between argv entries: the value slots, `argToSet`, the filesystem. */
  datatype GlobalState = GlobalState(vals: Values, pending: Option<CommandLineArgument>, fs: FileSystem)

  /** What one argv entry does to the scan. */
  datatype Move =
    | Continue(st: GlobalState)   // a global flag, or the value of one
    | Stop(reason: UsageReason)   // usage is printed
    | Enter(index: nat)           // the entry names module `index`; its parser takes over

  /** The scan over argv: a hand-off to a module at argv index `next`, or a usage exit. */
  datatype Scanned =
    | HandOff(index: nat, next: nat, st: GlobalState)
    | Stopped(reason: UsageReason, st: GlobalState)

  /**
   * Required globals are matched by flag only; one with a `name` stops the program with a
   * fatal error, so the scan is modelled for catalogs without one.
   */
  predicate FlagOnlyRequired(globals: Option<ArgumentSet>) {
    globals.Some? ==> forall a :: a in globals.value.required ==> a.name == ""
  }

  function GlobalSpecs(globals: Option<ArgumentSet>): set<CommandLineArgument> {
    if globals.Some? then globals.value.Specs() else {}
  }

  /** The label a message uses for a global: its long form, or else its short form. */
  function FlagName(a: CommandLineArgument): (r: string)
    ensures r == a.longVersion || r == a.shortVersion
    ensures a.longVersion != "" ==> r == a.longVersion
  {
    if a.longVersion != "" then a.longVersion else a.shortVersion
  }

  /** The global declaration a token names: required group first, then optional. */
  function GlobalFlag(globals: Option<ArgumentSet>, token: string): (r: Option<CommandLineArgument>)
    ensures r.Some? ==> r.value in GlobalSpecs(globals) && Matches(r.value, ByFlag(token))
    ensures r.None? && globals.Some? ==> forall a :: a in globals.value.required + globals.value.optional ==> !Matches(a, ByFlag(token))
    ensures globals.Some? && FirstMatch(globals.value.required, ByFlag(token)).Some? ==>
              r == Some(globals.value.required[FirstMatch(globals.value.required, ByFlag(token)).value])
    ensures globals.Some? && FirstMatch(globals.value.required, ByFlag(token)).None? &&
            FirstMatch(globals.value.optional, ByFlag(token)).Some? ==>
              r == Some(globals.value.optional[FirstMatch(globals.value.optional, ByFlag(token)).value])
  {
    if globals.Some? then globals.value.Find(ByFlag(token)) else None
  }

  /** The index of the first module called `name`. */
  function FirstModule(mods: seq<Module>, name: string): (r: Option<nat>)
    ensures r.Some? ==> r.value < |mods| && mods[r.value].name == name &&
                        forall j :: 0 <= j < r.value ==> mods[j].name != name
    ensures r.None? ==> forall j :: 0 <= j < |mods| ==> mods[j].name != name
    decreases |mods|
  {
    if mods == [] then None
    else if mods[0].name == name then Some(0)
    else match FirstModule(mods[1..], name)
      case Some(k) => Some(k + 1)
      case None => None
  }

  /** The first required global that holds no value (neither set nor defaulted). */
  function FirstMissing(required: seq<CommandLineArgument>, vals: Values): (r: Option<nat>)
    ensures r.Some? ==> r.value < |required| && ValueIn(vals, required[r.value]).None? &&
                        forall j :: 0 <= j < r.value ==> ValueIn(vals, required[j]).Some?
    ensures r.None? ==> forall j :: 0 <= j < |required| ==> ValueIn(vals, required[j]).Some?
    decreases |required|
  {
    if required == [] then None
    else if ValueIn(vals, required[0]).None? then Some(0)
    else match FirstMissing(required[1..], vals)
      case Some(k) => Some(k + 1)
      case None => None
  }

  function RequiredGlobals(globals: Option<ArgumentSet>): seq<CommandLineArgument> {
    if globals.Some? then globals.value.required else []
  }

  /**
   * One argv entry. A pending global takes the entry as its value, unchecked. Otherwise an
   * empty entry prints usage, a global flag is taken (a Flag becomes true, another kind waits
   * for its value), a module name enters that module once every required global has a value,
   * and anything else prints usage.
   */
  function GlobalStep(mods: seq<Module>, globals: Option<ArgumentSet>, arg: string, st: GlobalState): (r: Move)
    requires FlagOnlyRequired(globals)
    ensures r.Enter? ==>
              st.pending.None? && arg != "" && GlobalFlag(globals, arg).None? &&
              FirstModule(mods, arg) == Some(r.index) &&
              forall a :: a in RequiredGlobals(globals) ==> ValueIn(st.vals, a).Some?
    ensures r.Stop? && r.reason.MissingGlobal? ==>
              exists a :: a in RequiredGlobals(globals) && ValueIn(st.vals, a).None? && r.reason.flag == FlagName(a)
    ensures r == Stop(EmptyArgument) <==> st.pending.None? && arg == ""
    ensures r.Stop? ==> st.pending.None? &&
                        (r.reason == EmptyArgument || r.reason.MissingGlobal? || r.reason == UnknownAction(arg))
    ensures st.pending.Some? ==>
              var p := st.pending.value;
              var c := ParseInput(arg, p.kind, st.fs);
              r.Continue? && r.st.pending.None? && r.st.fs == c.fs &&
              Raw(r.st.vals, p) == c.value && r.st.vals - {p} == st.vals - {p}
    ensures st.pending.None? && arg != "" && GlobalFlag(globals, arg).Some? ==>
              var g := GlobalFlag(globals, arg).value;
              r.Continue? && r.st.fs == st.fs &&
              (g.kind == Flag ==> r.st.pending.None? && Raw(r.st.vals, g) == Some(Bool(true)) &&
                                  r.st.vals - {g} == st.vals - {g}) &&
              (g.kind != Flag ==> r.st.pending == Some(g) && r.st.vals == st.vals)
    // A token that is no global flag: a module name enters that module when every required
    // global has a value and stops naming a missing one otherwise; anything else is unknown.
    ensures st.pending.None? && arg != "" && GlobalFlag(globals, arg).None? ==>
              (FirstModule(mods, arg).None? ==> r == Stop(UnknownAction(arg))) &&
              (FirstModule(mods, arg).Some? && FirstMissing(RequiredGlobals(globals), st.vals).None? ==>
                 r == Enter(FirstModule(mods, arg).value)) &&
              (FirstModule(mods, arg).Some? && FirstMissing(RequiredGlobals(globals), st.vals).Some? ==>
                 r == Stop(MissingGlobal(FlagName(RequiredGlobals(globals)[FirstMissing(RequiredGlobals(globals), st.vals).value]))))
  {
    match st.pending
    case Some(g) =>
      var c := ParseInput(arg, g.kind, st.fs);
      Continue(GlobalState(st.vals[g := c.value], None, c.fs))
    case None =>
      if arg == "" then Stop(EmptyArgument)
      else match GlobalFlag(globals, arg)
        case Some(g) =>
          if g.kind != Flag then Continue(st.(pending := Some(g)))
          else Continue(st.(vals := st.vals[g := Some(Bool(true))]))
        case None =>
          match FirstModule(mods, arg)
          case Some(k) =>
            (match FirstMissing(RequiredGlobals(globals), st.vals)
             case Some(j) => Stop(MissingGlobal(FlagName(RequiredGlobals(globals)[j])))
             case None => Enter(k))
          case None => Stop(UnknownAction(arg))
  }

  /** The scan from argv index `i` on; reaching the end prints usage. */
  function ScanGlobals(mods: seq<Module>, globals: Option<ArgumentSet>, argv: seq<string>, i: nat,
                       st: GlobalState): (r: Scanned)
    requires i <= |argv|
    requires FlagOnlyRequired(globals)
    ensures r.HandOff? ==> i < r.next <= |argv| && r.index < |mods| &&
                           argv[r.next - 1] == mods[r.index].name
    ensures r.HandOff? ==> forall a :: a in RequiredGlobals(globals) ==> ValueIn(r.st.vals, a).Some?
    ensures i == |argv| ==> r.Stopped? && r.st == st && (r.reason == MissingAction || r.reason.MissingGlobalValue?)
    ensures r.Stopped? ==> (r.reason.MissingGlobalValue? <==> r.st.pending.Some?)
    ensures r.Stopped? && r.reason.MissingGlobalValue? ==> r.reason.flag == FlagName(r.st.pending.value)
    decreases |argv| - i
  {
    if i == |argv| then
      Stopped(if st.pending.Some? then MissingGlobalValue(FlagName(st.pending.value)) else MissingAction, st)
    else
      match GlobalStep(mods, globals, argv[i], st)
      case Continue(next) => ScanGlobals(mods, globals, argv, i + 1, next)
      case Stop(reason) => Stopped(reason, st)
      case Enter(k) => HandOff(k, i + 1, st)
  }

  function Start(vals: Values, fs: FileSystem): GlobalState {
    GlobalState(vals, None, fs)
  }

  /**
   * `parseCommandLine` as a function of argv, the value slots and the filesystem: fewer than
   * two entries print usage; otherwise the scan from index 1, then the module parser on the
   * entries after the module name.
   */
  function ParseArgv(mods: seq<Module>, globals: Option<ArgumentSet>, argv: seq<string>, vals: Values,
                     fs: FileSystem): (v: Verdict)
    requires FlagOnlyRequired(globals)
    ensures |argv| < 2 ==> v == Verdict(Usage(TooFewArguments), vals, fs)
    ensures v.outcome.Dispatch? ==> v.outcome.selected in mods
  {
    if |argv| < 2 then Verdict(Usage(TooFewArguments), vals, fs)
    else
      match ScanGlobals(mods, globals, argv, 1, Start(vals, fs))
      case Stopped(reason, st) => Verdict(Usage(reason), st.vals, st.fs)
      case HandOff(k, next, st) => ParseModule(mods[k], argv[next..], st.vals, st.fs)
  }

  // ---------------------------------------------------------------------------------------
  // Lemmas

  /** A pending value goes to a declared global; the scan writes global slots only. */
  predicate PendingDeclared(globals: Option<ArgumentSet>, st: GlobalState) {
    st.pending.Some? ==> st.pending.value in GlobalSpecs(globals)
  }

  lemma GlobalStepFrame(mods: seq<Module>, globals: Option<ArgumentSet>, arg: string, st: GlobalState)
    requires FlagOnlyRequired(globals)
    requires PendingDeclared(globals, st)
    ensures var r := GlobalStep(mods, globals, arg, st);
            r.Continue? ==> PendingDeclared(globals, r.st) &&
                            r.st.vals - GlobalSpecs(globals) == st.vals - GlobalSpecs(globals)
  {
  }

  lemma {:induction false} ScanFrame(mods: seq<Module>, globals: Option<ArgumentSet>, argv: seq<string>,
                                     i: nat, st: GlobalState)
    requires FlagOnlyRequired(globals)
    requires i <= |argv| && PendingDeclared(globals, st)
    ensures var r := ScanGlobals(mods, globals, argv, i, st);
            r.st.vals - GlobalSpecs(globals) == st.vals - GlobalSpecs(globals)
    decreases |argv| - i
  {
    if i < |argv| {
      GlobalStepFrame(mods, globals, argv[i], st);
      match GlobalStep(mods, globals, argv[i], st)
      case Continue(next) => ScanFrame(mods, globals, argv, i + 1, next);
      case Stop(_) =>
      case Enter(_) =>
    }
  }

  /** Of several modules with the name the scan stops at, the first in the catalog is entered. */
  lemma {:induction false} ScanHandOffFirst(mods: seq<Module>, globals: Option<ArgumentSet>, argv: seq<string>,
                                            i: nat, st: GlobalState)
    requires i <= |argv| && FlagOnlyRequired(globals)
    ensures var r := ScanGlobals(mods, globals, argv, i, st);
            r.HandOff? ==> r.next - 1 < |argv| && FirstModule(mods, argv[r.next - 1]) == Some(r.index)
    decreases |argv| - i
  {
    if i < |argv| {
      match GlobalStep(mods, globals, argv[i], st)
      case Continue(next) => ScanHandOffFirst(mods, globals, argv, i + 1, next);
      case Stop(_) =>
      case Enter(_) =>
    }
  }

  /**
   * A dispatch comes from a module named in argv, the first catalog entry with that name: the
   * module parser ran on exactly the entries after that name, from the slots and filesystem the
   * global scan left.
   */
  lemma DispatchNamesModule(mods: seq<Module>, globals: Option<ArgumentSet>, argv: seq<string>,
                            vals: Values, fs: FileSystem)
    requires FlagOnlyRequired(globals)
    requires ParseArgv(mods, globals, argv, vals, fs).outcome.Dispatch?
    ensures var r := ScanGlobals(mods, globals, argv, 1, Start(vals, fs));
            |argv| >= 2 && r.HandOff? &&
            ParseArgv(mods, globals, argv, vals, fs) == ParseModule(mods[r.index], argv[r.next..], r.st.vals, r.st.fs) &&
            ParseArgv(mods, globals, argv, vals, fs).outcome.selected == mods[r.index] &&
            argv[r.next - 1] == mods[r.index].name && FirstModule(mods, argv[r.next - 1]) == Some(r.index)
  {
    var r := ScanGlobals(mods, globals, argv, 1, Start(vals, fs));
    assert r.HandOff?;
    ScanHandOffFirst(mods, globals, argv, 1, Start(vals, fs));
    var m := mods[r.index];
    var v := ParseModule(m, argv[r.next..], r.st.vals, r.st.fs);
  }

  /**
   * A dispatch means every required global held a value when the module was entered, and
   * still holds it when the module runs, provided the module's entries are not globals.
   */
  lemma DispatchHasRequiredGlobals(mods: seq<Module>, globals: Option<ArgumentSet>, argv: seq<string>,
                                   vals: Values, fs: FileSystem)
    requires FlagOnlyRequired(globals)
    requires ParseArgv(mods, globals, argv, vals, fs).outcome.Dispatch?
    requires forall m :: m in mods ==> m.Specs() !! GlobalSpecs(globals)
    ensures forall a :: a in RequiredGlobals(globals) ==> ValueIn(ParseArgv(mods, globals, argv, vals, fs).vals, a).Some?
  {
    DispatchNamesModule(mods, globals, argv, vals, fs);
    var r := ScanGlobals(mods, globals, argv, 1, Start(vals, fs));
    var m := mods[r.index];
    assert m in mods;
    ParseModuleFrame(m, argv[r.next..], r.st.vals, r.st.fs);
    var after := ParseModule(m, argv[r.next..], r.st.vals, r.st.fs).vals;
    forall a | a in RequiredGlobals(globals)
      ensures ValueIn(after, a).Some?
    {
      assert a in GlobalSpecs(globals) && a !in m.Specs();
      RawOutside(r.st.vals, after, m.Specs(), a);
    }
  }

  /** A dispatched module receives each of its required entries exactly once. */
  lemma DispatchHasEveryRequiredOnceFromArgv(mods: seq<Module>, globals: Option<ArgumentSet>,
                                             argv: seq<string>, vals: Values, fs: FileSystem)
    requires FlagOnlyRequired(globals)
    requires ParseArgv(mods, globals, argv, vals, fs).outcome.Dispatch?
    requires forall m :: m in mods ==> DistinctDescriptions(m.required)
    ensures var o := ParseArgv(mods, globals, argv, vals, fs).outcome;
            o.selected in mods && multiset(o.arguments.required) == multiset(o.selected.required) &&
            forall a :: a in o.arguments.required ==> ValueIn(ParseArgv(mods, globals, argv, vals, fs).vals, a).Some?
  {
    DispatchNamesModule(mods, globals, argv, vals, fs);
    var r := ScanGlobals(mods, globals, argv, 1, Start(vals, fs));
    var m := mods[r.index];
    assert m in mods;
    DispatchHasEveryRequiredOnce(m, argv[r.next..], r.st.vals, r.st.fs);
  }

  /** The global scan writes no slot outside the global declarations. */
  lemma ScanLeavesModuleSlots(mods: seq<Module>, globals: Option<ArgumentSet>, argv: seq<string>,
                              vals: Values, fs: FileSystem, a: CommandLineArgument)
    requires FlagOnlyRequired(globals)
    requires |argv| >= 1 && a !in GlobalSpecs(globals)
    ensures Raw(ScanGlobals(mods, globals, argv, 1, Start(vals, fs)).st.vals, a) == Raw(vals, a)
  {
    ScanFrame(mods, globals, argv, 1, Start(vals, fs));
    RawOutside(vals, ScanGlobals(mods, globals, argv, 1, Start(vals, fs)).st.vals, GlobalSpecs(globals), a);
  }

  // ---------------------------------------------------------------------------------------
  // The in-place procedure

  /**
   * Fewer than two argv entries print usage at once; an empty first entry after the program
   * name prints usage before any slot is written.
   */
  lemma EarlyUsage(mods: seq<Module>, globals: Option<ArgumentSet>, argv: seq<string>, vals: Values,
                   fs: FileSystem)
    requires FlagOnlyRequired(globals)
    ensures |argv| < 2 ==> ParseArgv(mods, globals, argv, vals, fs) == Verdict(Usage(TooFewArguments), vals, fs)
    ensures |argv| >= 2 && argv[1] == "" ==>
              ParseArgv(mods, globals, argv, vals, fs) == Verdict(Usage(EmptyArgument), vals, fs)
  {
    if |argv| >= 2 && argv[1] == "" {
      assert GlobalStep(mods, globals, argv[1], Start(vals, fs)) == Stop(EmptyArgument);
    }
  }

  /** Every declaration the program can write: those of all modules and the globals. */
  function AllSpecs(mods: seq<Module>, globals: Option<ArgumentSet>): set<CommandLineArgument> {
    (set m, a | m in mods && a in m.required + m.optional :: a) + GlobalSpecs(globals)
  }

  lemma ScanContinues(mods: seq<Module>, globals: Option<ArgumentSet>, argv: seq<string>, i: nat,
                      st: GlobalState, next: GlobalState)
    requires FlagOnlyRequired(globals)
    requires i < |argv| && GlobalStep(mods, globals, argv[i], st) == Continue(next)
    ensures ScanGlobals(mods, globals, argv, i, st) == ScanGlobals(mods, globals, argv, i + 1, next)
  {
  }

  lemma ScanStops(mods: seq<Module>, globals: Option<ArgumentSet>, argv: seq<string>, i: nat,
                  st: GlobalState, reason: UsageReason)
    requires FlagOnlyRequired(globals)
    requires i < |argv| && GlobalStep(mods, globals, argv[i], st) == Stop(reason)
    ensures ScanGlobals(mods, globals, argv, i, st) == Stopped(reason, st)
  {
  }

  /** The global flag loops: required declarations first, then optional. */
  method FindGlobalFlag(globals: Option<ArgumentSet>, token: string) returns (g: Option<CommandLineArgument>)
    ensures g == GlobalFlag(globals, token)
  {
    if globals.None? {
      return None;
    }
    var k := MatchFlag(globals.value.required, token);
    if k.Some? {
      return Some(globals.value.required[k.value]);
    }
    k := MatchFlag(globals.value.optional, token);
    if k.Some? {
      return Some(globals.value.optional[k.value]);
    }
    return None;
  }

  /** The module loop: the first module whose name is the token. */
  method FindModule(mods: seq<Module>, token: string) returns (index: Option<nat>)
    ensures index == FirstModule(mods, token)
  {
    var j := 0;
    while j < |mods|
      invariant j <= |mods|
      invariant forall i :: 0 <= i < j ==> mods[i].name != token
    {
      if token == mods[j].name {
        return Some(j);
      }
      j := j + 1;
    }
    return None;
  }

  /** The required-globals guard: the first required global whose `value` is nil. */
  method FindMissing(required: seq<CommandLineArgument>, ghost vals: Values) returns (index: Option<nat>)
    requires forall a :: a in required ==> a.rawValue == Raw(vals, a)
    ensures index == FirstMissing(required, vals)
  {
    var j := 0;
    while j < |required|
      invariant j <= |required|
      invariant forall i :: 0 <= i < j ==> ValueIn(vals, required[i]).Some?
    {
      if required[j].Value() == None {
        return Some(j);
      }
      j := j + 1;
    }
    return None;
  }

  /**
   * One argv entry of the global loop, in place: `stop` is a usage exit, `enter` a module
   * name whose parser takes over; otherwise the scan continues with the new `argToSet`.
   */
  method ScanEntry(mods: seq<Module>, globals: Option<ArgumentSet>, arg: string,
                   argToSet: Option<CommandLineArgument>, fs: FileSystem, ghost vals: Values)
    returns (stop: Option<UsageReason>, enter: Option<nat>, argToSet': Option<CommandLineArgument>,
             fs': FileSystem, ghost vals': Values)
    requires FlagOnlyRequired(globals)
    requires PendingDeclared(globals, GlobalState(vals, argToSet, fs))
    requires forall a :: a in AllSpecs(mods, globals) ==> a.rawValue == Raw(vals, a)
    modifies GlobalSpecs(globals)
    ensures stop.Some? || enter.Some? ==> vals' == vals && fs' == fs
    ensures PendingDeclared(globals, GlobalState(vals', argToSet', fs'))
    ensures forall a :: a in AllSpecs(mods, globals) ==> a.rawValue == Raw(vals', a)
    ensures GlobalStep(mods, globals, arg, GlobalState(vals, argToSet, fs)) ==
            if stop.Some? then Stop(stop.value)
            else if enter.Some? then Enter(enter.value)
            else Continue(GlobalState(vals', argToSet', fs'))
  {
    stop, enter, argToSet', fs', vals' := None, None, argToSet, fs, vals;
    if argToSet.Some? {
      var g := argToSet.value;
      var c := ParseInput(arg, g.kind, fs);
      g.SetValue(c.value);
      return None, None, None, c.fs, vals[g := c.value];
    }
    if arg == "" {
      return Some(EmptyArgument), None, argToSet, fs, vals;
    }
    var g := FindGlobalFlag(globals, arg);
    if g.Some? {
      if g.value.kind != Flag {
        argToSet' := g;
      } else {
        g.value.SetValue(Some(Bool(true)));
        vals' := vals[g.value := Some(Bool(true))];
      }
      return;
    }
    var k := FindModule(mods, arg);
    if k.None? {
      return Some(UnknownAction(arg)), None, argToSet, fs, vals;
    }
    var missing := FindMissing(RequiredGlobals(globals), vals);
    if missing.Some? {
      return Some(MissingGlobal(FlagName(RequiredGlobals(globals)[missing.value]))), None, argToSet, fs, vals;
    }
    enter := k;
  }

  /** `parseArgumentsFor` on module `k`, seen from the whole catalog's value slots. */
  method EnterModule(mods: seq<Module>, globals: Option<ArgumentSet>, k: nat, tokens: seq<string>,
                     fs: FileSystem, ghost vals: Values)
    returns (outcome: Outcome, fs': FileSystem, ghost vals': Values)
    requires k < |mods|
    requires forall a :: a in AllSpecs(mods, globals) ==> a.rawValue == Raw(vals, a)
    modifies AllSpecs(mods, globals)
    ensures ParseModule(mods[k], tokens, vals, fs) == Verdict(outcome, vals', fs')
    ensures forall a :: a in AllSpecs(mods, globals) ==> a.rawValue == Raw(vals', a)
  {
    var m := mods[k];
    assert forall a :: a in m.Specs() ==> a in AllSpecs(mods, globals);
    outcome, fs', vals' := ParseArgumentsFor(m, tokens, fs, vals);
    ParseModuleFrame(m, tokens, vals, fs);
    forall a | a in AllSpecs(mods, globals) && a !in m.Specs()
      ensures a.rawValue == Raw(vals', a)
    {
      RawOutside(vals, vals', m.Specs(), a);
    }
  }

  /**
   * One round of the argv loop, stated against the scan: a stop or a hand-off at entry `i`,
   * or the scan from `i + 1` on the new state.
   */
  method ScanRound(mods: seq<Module>, globals: Option<ArgumentSet>, argv: seq<string>, i: nat,
                   argToSet: Option<CommandLineArgument>, fs: FileSystem, ghost vals: Values)
    returns (stop: Option<UsageReason>, enter: Option<nat>, argToSet': Option<CommandLineArgument>,
             fs': FileSystem, ghost vals': Values)
    requires FlagOnlyRequired(globals) && i < |argv|
    requires PendingDeclared(globals, GlobalState(vals, argToSet, fs))
    requires forall a :: a in AllSpecs(mods, globals) ==> a.rawValue == Raw(vals, a)
    modifies GlobalSpecs(globals)
    ensures stop.Some? || enter.Some? ==> vals' == vals && fs' == fs
    ensures PendingDeclared(globals, GlobalState(vals', argToSet', fs'))
    ensures forall a :: a in AllSpecs(mods, globals) ==> a.rawValue == Raw(vals', a)
    ensures var st := GlobalState(vals, argToSet, fs);
            var scan := ScanGlobals(mods, globals, argv, i, st);
            if stop.Some? then scan == Stopped(stop.value, st)
            else if enter.Some? then scan == HandOff(enter.value, i + 1, st)
            else scan == ScanGlobals(mods, globals, argv, i + 1, GlobalState(vals', argToSet', fs'))
  {
    ghost var st := GlobalState(vals, argToSet, fs);
    stop, enter, argToSet', fs', vals' := ScanEntry(mods, globals, argv[i], argToSet, fs, vals);
    if stop.Some? {
      ScanStops(mods, globals, argv, i, st, stop.value);
    } else if enter.Some? {
      assert ScanGlobals(mods, globals, argv, i, st) == HandOff(enter.value, i + 1, st);
    } else {
      ScanContinues(mods, globals, argv, i, st, GlobalState(vals', argToSet', fs'));
    }
  }

  /** The scan stopped at a module name at index `i`: that module parses the rest of argv. */
  method EnterFromScan(mods: seq<Module>, globals: Option<ArgumentSet>, argv: seq<string>, i: nat,
                       ghost st: GlobalState, k: nat, fs: FileSystem, ghost vals0: Values, ghost fs0: FileSystem)
    returns (outcome: Outcome, fs': FileSystem, ghost vals': Values)
    requires FlagOnlyRequired(globals) && |argv| >= 2 && st.fs == fs && i < |argv|
    requires ScanGlobals(mods, globals, argv, i, st) == HandOff(k, i + 1, st)
    requires ScanGlobals(mods, globals, argv, i, st) == ScanGlobals(mods, globals, argv, 1, Start(vals0, fs0))
    requires forall a :: a in AllSpecs(mods, globals) ==> a.rawValue == Raw(st.vals, a)
    modifies AllSpecs(mods, globals)
    ensures ParseArgv(mods, globals, argv, vals0, fs0) == Verdict(outcome, vals', fs')
    ensures forall a :: a in AllSpecs(mods, globals) ==> a.rawValue == Raw(vals', a)
  {
    outcome, fs', vals' := EnterModule(mods, globals, k, argv[i + 1..], fs, st.vals);
  }

  /**
   * `parseCommandLine`: scans argv writing global value slots in place, then runs the module
   * parser. Its outcome, final slots and filesystem are those of ParseArgv.
   */
  method ParseCommandLine(mods: seq<Module>, globals: Option<ArgumentSet>, argv: seq<string>,
                          fs0: FileSystem, ghost vals0: Values)
    returns (outcome: Outcome, fs: FileSystem, ghost vals: Values)
    requires FlagOnlyRequired(globals)
    requires forall a :: a in AllSpecs(mods, globals) ==> a.rawValue == Raw(vals0, a)
    modifies AllSpecs(mods, globals)
    ensures ParseArgv(mods, globals, argv, vals0, fs0) == Verdict(outcome, vals, fs)
    ensures forall a :: a in AllSpecs(mods, globals) ==> a.rawValue == Raw(vals, a)
  {
    fs, vals := fs0, vals0;
    if |argv| < 2 {
      return Usage(TooFewArguments), fs, vals;
    }
    var argToSet: Option<CommandLineArgument> := None;
    var i := 1;
    while i < |argv|
      invariant 1 <= i <= |argv|
      invariant PendingDeclared(globals, GlobalState(vals, argToSet, fs))
      invariant ScanGlobals(mods, globals, argv, i, GlobalState(vals, argToSet, fs)) ==
                ScanGlobals(mods, globals, argv, 1, Start(vals0, fs0))
      invariant forall a :: a in AllSpecs(mods, globals) ==> a.rawValue == Raw(vals, a)
    {
      ghost var st := GlobalState(vals, argToSet, fs);
      var stop, enter;
      stop, enter, argToSet, fs, vals := ScanRound(mods, globals, argv, i, argToSet, fs, vals);
      if stop.Some? {
        return Usage(stop.value), fs, vals;
      }
      if enter.Some? {
        outcome, fs, vals := EnterFromScan(mods, globals, argv, i, st, enter.value, fs, vals0, fs0);
        return;
      }
      i := i + 1;
    }
    if argToSet.Some? {
      return Usage(MissingGlobalValue(FlagName(argToSet.value))), fs, vals;
    }
    return Usage(MissingAction), fs, vals;
  }
}
