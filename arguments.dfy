/**
 * Argument declarations and lookups (CommandLineParser.swift, `CommandLineArgument`,
 * `ParsedArguments`, `GlobalArguments`, `CommandLineModule`), and the outcome of a parse.
 */
module Arguments {
  import opened Wrappers
  import opened Coercion

  /** `(rawValue != nil) ? rawValue : defaultValue`, the getter of `value`. */
  function Resolve(raw: Option<ArgValue>, default: Option<ArgValue>): (v: Option<ArgValue>)
    ensures raw.Some? ==> v == raw
    ensures raw.None? ==> v == default
    ensures v.None? <==> raw.None? && default.None?
  {
    if raw.Some? then raw else default
  }

  /**
   * One declared argument. Its identity, kind, description and default never change; the value
   * slot `rawValue` is written in place by the parsers.
   */
  class CommandLineArgument {
    const name: string          // shown only for required arguments with neither flag form
    const shortVersion: string
    const longVersion: string
    const description: string
    const kind: ArgType
    const defaultValue: Option<ArgValue>
    var rawValue: Option<ArgValue>

    /** A positional argument, identified by its name. */
    constructor Named(name: string, description: string, kind: ArgType, defaultValue: Option<ArgValue>)
      ensures this.name == name && shortVersion == "" && longVersion == ""
      ensures this.description == description && this.kind == kind && this.defaultValue == defaultValue
      ensures rawValue == None
    {
      this.name := name;
      shortVersion := "";
      longVersion := "";
      this.description := description;
      this.kind := kind;
      this.defaultValue := defaultValue;
      rawValue := None;
    }

    /** A flag with a short form only. */
    constructor Short(shortVersion: string, description: string, kind: ArgType, defaultValue: Option<ArgValue>)
      ensures name == "" && this.shortVersion == shortVersion && longVersion == ""
      ensures this.description == description && this.kind == kind && this.defaultValue == defaultValue
      ensures rawValue == None
    {
      name := "";
      this.shortVersion := shortVersion;
      longVersion := "";
      this.description := description;
      this.kind := kind;
      this.defaultValue := defaultValue;
      rawValue := None;
    }

    /** A flag with a long form only. */
    constructor Long(longVersion: string, description: string, kind: ArgType, defaultValue: Option<ArgValue>)
      ensures name == "" && shortVersion == "" && this.longVersion == longVersion
      ensures this.description == description && this.kind == kind && this.defaultValue == defaultValue
      ensures rawValue == None
    {
      name := "";
      shortVersion := "";
      this.longVersion := longVersion;
      this.description := description;
      this.kind := kind;
      this.defaultValue := defaultValue;
      rawValue := None;
    }

    /** A flag with both a short and a long form. */
    constructor ShortLong(shortVersion: string, longVersion: string, description: string, kind: ArgType,
                          defaultValue: Option<ArgValue>)
      ensures name == "" && this.shortVersion == shortVersion && this.longVersion == longVersion
      ensures this.description == description && this.kind == kind && this.defaultValue == defaultValue
      ensures rawValue == None
    {
      name := "";
      this.shortVersion := shortVersion;
      this.longVersion := longVersion;
      this.description := description;
      this.kind := kind;
      this.defaultValue := defaultValue;
      rawValue := None;
    }

    /** The getter of `value`: the value set during parsing, else the declared default. */
    function Value(): (v: Option<ArgValue>)
      reads this
      ensures v == Resolve(rawValue, defaultValue)
    {
      if rawValue.Some? then rawValue else defaultValue
    }

    /** The setter of `value`: it writes the raw slot (a `None` clears it). */
    method SetValue(v: Option<ArgValue>)
      modifies this
      ensures rawValue == v
      ensures Value() == Resolve(v, defaultValue)
    {
      rawValue := v;
    }
  }

  /** A snapshot of the value slots: what each declared argument's `rawValue` holds. */
  type Values = map<CommandLineArgument, Option<ArgValue>>

  /** The raw slot of `a` in a snapshot; an argument outside it holds nothing. */
  function Raw(vals: Values, a: CommandLineArgument): Option<ArgValue> {
    if a in vals then vals[a] else None
  }

  /** The getter of `value`, read from a snapshot. */
  function ValueIn(vals: Values, a: CommandLineArgument): Option<ArgValue> {
    Resolve(Raw(vals, a), a.defaultValue)
  }

  /** Two snapshots that agree outside `s` agree on every argument outside `s`. */
  lemma RawOutside(vals: Values, vals': Values, s: set<CommandLineArgument>, a: CommandLineArgument)
    requires vals' - s == vals - s && a !in s
    ensures Raw(vals', a) == Raw(vals, a) && ValueIn(vals', a) == ValueIn(vals, a)
  {
    assert a in vals - s <==> a in vals' - s;
    if a in vals {
      assert (vals - s)[a] == vals[a];
      assert (vals' - s)[a] == vals'[a];
    }
  }

  /** The snapshot of a set of arguments' current slots. */
  function Snapshot(specs: set<CommandLineArgument>): (vals: Values)
    reads specs
    ensures forall a :: a in specs ==> Raw(vals, a) == a.rawValue && ValueIn(vals, a) == a.Value()
  {
    map a | a in specs :: a.rawValue
  }

  /** How an argument is looked up: by the getArgument labels, or by a command-line token. */
  datatype Key =
    | ByName(name: string)
    | ByLong(longVersion: string)
    | ByShort(shortVersion: string)
    | ByFlag(token: string)  // the token equals the short or the long form

  predicate Matches(a: CommandLineArgument, key: Key) {
    match key
    case ByName(n) => a.name == n
    case ByLong(l) => a.longVersion == l
    case ByShort(s) => a.shortVersion == s
    case ByFlag(t) => t == a.shortVersion || t == a.longVersion
  }

  function FirstMatch(specs: seq<CommandLineArgument>, key: Key): (r: Option<nat>)
    ensures r.Some? ==> r.value < |specs| && Matches(specs[r.value], key) &&
                        forall j :: 0 <= j < r.value ==> !Matches(specs[j], key)
    ensures r.None? ==> forall j :: 0 <= j < |specs| ==> !Matches(specs[j], key)
    decreases |specs|
  {
    if specs == [] then None
    else if Matches(specs[0], key) then Some(0)
    else match FirstMatch(specs[1..], key)
      case Some(k) => Some(k + 1)
      case None => None
  }

  /** One of the source's flag loops: the index of the first spec whose short or long form is `token`. */
  method MatchFlag(specs: seq<CommandLineArgument>, token: string) returns (index: Option<nat>)
    ensures index == FirstMatch(specs, ByFlag(token))
  {
    var j := 0;
    while j < |specs|
      invariant j <= |specs|
      invariant forall i :: 0 <= i < j ==> !Matches(specs[i], ByFlag(token))
    {
      if token == specs[j].shortVersion || token == specs[j].longVersion {
        return Some(j);
      }
      j := j + 1;
    }
    return None;
  }

  /**
   * Two ordered groups of arguments: the declared groups of a global catalog
   * (`GlobalArguments`), or the parsed groups handed to a module (`ParsedArguments`).
   */
  datatype ArgumentSet = ArgumentSet(required: seq<CommandLineArgument>, optional: seq<CommandLineArgument>)
  {
    function Specs(): set<CommandLineArgument> {
      set a | a in required + optional
    }

    /** The first argument matching `key`, searching `required` before `optional`. */
    function Find(key: Key): (r: Option<CommandLineArgument>)
      ensures r.Some? ==> Matches(r.value, key) && r.value in Specs()
      ensures r.None? ==> forall a :: a in required + optional ==> !Matches(a, key)
      ensures FirstMatch(required, key).Some? ==> r == Some(required[FirstMatch(required, key).value])
      ensures FirstMatch(required, key).None? && FirstMatch(optional, key).Some? ==>
                r == Some(optional[FirstMatch(optional, key).value])
    {
      match FirstMatch(required, key)
      case Some(k) => Some(required[k])
      case None =>
        match FirstMatch(optional, key)
        case Some(k) => Some(optional[k])
        case None => None
    }

    /** `getArgument` on a snapshot: the value of the first match, or None if nothing matches. */
    function Lookup(key: Key, vals: Values): (r: Option<ArgValue>)
      // A value comes from the declared argument Find picks, which matches the key.
      ensures r.Some? ==> Find(key).Some? && ValueIn(vals, Find(key).value) == r
      ensures (forall a :: a in required + optional ==> !Matches(a, key)) ==> r.None?
    {
      match Find(key)
      case Some(a) => ValueIn(vals, a)
      case None => None
    }

    /** `getArgument` on the live value slots. */
    function GetArgument(key: Key): (r: Option<ArgValue>)
      reads Specs()
      ensures r == Lookup(key, Snapshot(Specs()))
    {
      match Find(key)
      case Some(a) => a.Value()
      case None => None
    }
  }

  /**
   * A required argument that comes first among the matches decides a lookup, whatever the
   * optional group holds.
   */
  lemma LookupPrefersRequired(s: ArgumentSet, key: Key, vals: Values, k: nat)
    requires k < |s.required| && Matches(s.required[k], key)
    requires forall j :: 0 <= j < k ==> !Matches(s.required[j], key)
    ensures s.Lookup(key, vals) == ValueIn(vals, s.required[k])
  {
    var r := FirstMatch(s.required, key);
    assert r.Some?;
    assert r.value == k;
  }

  /** With no required match, the first optional match decides; with none at all, no value. */
  lemma LookupFallsBackToOptional(s: ArgumentSet, key: Key, vals: Values)
    requires forall j :: 0 <= j < |s.required| ==> !Matches(s.required[j], key)
    ensures forall k :: 0 <= k < |s.optional| && Matches(s.optional[k], key) &&
                        (forall j :: 0 <= j < k ==> !Matches(s.optional[j], key)) ==>
              s.Lookup(key, vals) == ValueIn(vals, s.optional[k])
    ensures (forall j :: 0 <= j < |s.optional| ==> !Matches(s.optional[j], key)) ==>
              s.Lookup(key, vals) == None
  {
    assert FirstMatch(s.required, key).None?;
    forall k | 0 <= k < |s.optional| && Matches(s.optional[k], key) &&
               (forall j :: 0 <= j < k ==> !Matches(s.optional[j], key))
      ensures s.Lookup(key, vals) == ValueIn(vals, s.optional[k])
    {
      var f := FirstMatch(s.optional, key);
      assert f.Some? && f.value == k;
    }
    if forall j :: 0 <= j < |s.optional| ==> !Matches(s.optional[j], key) {
      assert FirstMatch(s.optional, key).None?;
    }
  }

  /** A module: a named subcommand with its ordered required and optional declarations. */
  datatype Module = Module(name: string, description: string,
                           required: seq<CommandLineArgument>, optional: seq<CommandLineArgument>)
  {
    function Specs(): set<CommandLineArgument> {
      set a | a in required + optional
    }
  }

  /** Why usage was printed before `exit(-1)`. */
  datatype UsageReason =
    | TooFewArguments                     // fewer than two argv entries
    | EmptyArgument                       // an empty global token
    | UnknownAction(token: string)        // matched no global flag and no module name
    | MissingGlobal(flag: string)         // a required global without a value at the module name
    | MissingGlobalValue(flag: string)    // the scan ended after a global flag expecting a value
    | MissingAction                       // the scan ended without a module name
    | UnknownArgument(token: string)      // a module token that matched nothing
    | MissingValue                        // the module tokens ended after a flag expecting a value
    | NotEnoughArguments                  // fewer parsed required arguments than declared

  /** How a parse pass ends. */
  datatype Outcome =
    | Usage(reason: UsageReason)                           // usage text, then exit(-1)
    | BadValue(argument: CommandLineArgument)              // a module value failed coercion: exit(-1)
    | Dispatch(selected: Module, arguments: ArgumentSet)   // the module's handler is invoked

  /** The outcome, the value slots and the filesystem at the end of a pass. */
  datatype Verdict = Verdict(outcome: Outcome, vals: Values, fs: FileSystem)
}
