/**
 * The usage text (CommandLineParser.swift, `typeToString`, `getModuleDescription`,
 * `printUsage`): parameter labels, the invocation line, padded parameter columns, module
 * descriptions and the whole text printed before the program exits; first as functions and
 * lemmas, then as the builders that append to a string in loops.
 */
module Usage {
  import opened Wrappers
  import opened Coercion
  import opened Arguments

  /** The placeholder shown for a value of each kind; a Flag takes no value and shows nothing. */
  function TypeToString(t: ArgType): (r: string)
    ensures r == "" <==> t == Flag
    ensures r == "number" <==> t == Int || t == UInt
  {
    match t
    case String => "value"
    case Int => "number"
    case UInt => "number"
    case Flag => ""
    case FilePath => "file path"
    case OutputFilePath => "output file path"
    case FolderPath => "folder path"
    case OutputFolderPath => "output folder path"
  }

  /** Two kinds share a placeholder exactly when they are equal or both integers. */
  lemma TypeNamesDistinguishKinds(t: ArgType, u: ArgType)
    ensures TypeToString(t) == TypeToString(u) <==> t == u || ((t == Int || t == UInt) && (u == Int || u == UInt))
  {
    var all := [String, Int, UInt, Flag, FilePath, OutputFilePath, FolderPath, OutputFolderPath];
    assert t in all && u in all;
  }

  /** Appending to a string piece by piece gives the same text as appending the pieces joined. */
  lemma AppendAssociates(a: string, b: string, c: string)
    ensures (a + b) + c == a + (b + c)
  {
  }

  predicate StartsWith(s: string, p: string) {
    |p| <= |s| && s[..|p|] == p
  }

  predicate EndsWith(s: string, p: string) {
    |p| <= |s| && s[|s| - |p|..] == p
  }

  /** A concatenation starts with its first part and ends with its second. */
  lemma Ends(a: string, b: string)
    ensures StartsWith(a + b, a) && EndsWith(a + b, b)
  {
    assert (a + b)[..|a|] == a;
    assert (a + b)[|a|..] == b;
  }

  /** An argument known only by its name: a positional argument. */
  predicate NameOnly(a: CommandLineArgument) {
    a.name != "" && a.shortVersion == "" && a.longVersion == ""
  }

  /** "-s, --long", or whichever of the two forms is set. */
  function FlagForms(a: CommandLineArgument): (r: string)
    ensures a.shortVersion == "" ==> r == a.longVersion
    ensures a.longVersion == "" ==> r == a.shortVersion
    ensures a.shortVersion != "" && a.longVersion != "" ==> r == a.shortVersion + ", " + a.longVersion
  {
    (if a.shortVersion != "" then a.shortVersion else "") +
    (if a.longVersion != "" then (if a.shortVersion != "" then ", " + a.longVersion else a.longVersion) else "")
  }

  /** " <placeholder>", or nothing for a Flag. */
  function TypeSuffix(t: ArgType): (r: string)
    ensures r == "" <==> t == Flag
    ensures t != Flag ==> r == " <" + TypeToString(t) + ">"
  {
    var name := TypeToString(t);
    if name != "" then " <" + name + ">" else ""
  }

  /**
   * The label of a module's required parameter: "<name>" for a positional one, else the flag
   * forms and the placeholder, which for a Flag is the empty "<>".
   */
  function RequiredParamText(a: CommandLineArgument): (r: string)
    ensures NameOnly(a) ==> r == "<" + a.name + ">"
    ensures !NameOnly(a) ==> r == FlagForms(a) + " <" + TypeToString(a.kind) + ">"
  {
    if a.name != "" && a.shortVersion == "" && a.longVersion == "" then "<" + a.name + ">"
    else FlagForms(a) + " <" + TypeToString(a.kind) + ">"
  }

  /**
   * The label of an optional parameter, for a module or the globals. For a name-only
   * argument the source stops with a fatal error; Describable excludes that case.
   */
  function OptionalParamText(a: CommandLineArgument): (r: string)
    ensures a.kind == Flag ==> r == FlagForms(a)
    ensures a.kind != Flag ==> r == FlagForms(a) + " <" + TypeToString(a.kind) + ">"
  {
    FlagForms(a) + TypeSuffix(a.kind)
  }

  /** The label of a required global: a name-only one is shown in brackets. */
  function GlobalRequiredText(a: CommandLineArgument): (r: string)
    ensures NameOnly(a) && a.kind != Flag ==> r == "[" + a.name + " <" + TypeToString(a.kind) + ">]"
    ensures NameOnly(a) && a.kind == Flag ==> r == "[" + a.name + "]"
    ensures !NameOnly(a) ==> r == OptionalParamText(a)
  {
    var name := TypeToString(a.kind);
    FlagForms(a) +
    if a.name != "" && a.shortVersion == "" && a.longVersion == "" then
      (if name != "" then "[" + a.name + " <" + name + ">]" else "[" + a.name + "]")
    else TypeSuffix(a.kind)
  }

  /** Some way to refer to the argument; without one the invocation line is a fatal error. */
  predicate HasForm(a: CommandLineArgument) {
    a.shortVersion != "" || a.longVersion != "" || a.name != ""
  }

  /**
   * One required argument in the invocation line: its short form, else its long form, else
   * its name. Without any of them the source stops with a fatal error; Describable excludes it.
   */
  function UsageItem(a: CommandLineArgument): (r: string)
    ensures |r| >= 3 && r[0] == ' '
    ensures a.shortVersion != "" ==> StartsWith(r, " " + a.shortVersion)
    ensures a.shortVersion == "" && a.longVersion != "" ==> StartsWith(r, " " + a.longVersion)
    ensures NameOnly(a) ==> r == " <" + a.name + ">"
    ensures a.shortVersion != "" || a.longVersion != "" ==> EndsWith(r, " <" + TypeToString(a.kind) + ">")
  {
    var placeholder := " <" + TypeToString(a.kind) + ">";
    if a.shortVersion != "" then
      Ends(" " + a.shortVersion, placeholder);
      " " + a.shortVersion + placeholder
    else if a.longVersion != "" then
      Ends(" " + a.longVersion, placeholder);
      " " + a.longVersion + placeholder
    else " <" + a.name + ">"
  }

  /** The invocation items of the required arguments, one per argument. */
  function UsageItems(specs: seq<CommandLineArgument>): (r: string)
    ensures specs == [] ==> r == ""
    ensures |specs| == 1 ==> r == UsageItem(specs[0])
    ensures |r| >= 3 * |specs|
  {
    if specs == [] then "" else UsageItems(specs[..|specs| - 1]) + UsageItem(specs[|specs| - 1])
  }

  /** The invocation line lists the required arguments in declaration order. */
  lemma {:induction false} UsageItemsAppend(s: seq<CommandLineArgument>, t: seq<CommandLineArgument>)
    ensures UsageItems(s + t) == UsageItems(s) + UsageItems(t)
    decreases |t|
  {
    if t == [] {
      assert s + t == s;
    } else {
      var t' := t[..|t| - 1];
      assert (s + t)[..|s + t| - 1] == s + t';
      assert (s + t)[|s + t| - 1] == t[|t| - 1];
      UsageItemsAppend(s, t');
      AppendAssociates(UsageItems(s), UsageItems(t'), UsageItem(t[|t| - 1]));
    }
  }

  /** A module can be described: required arguments have some form, optional ones a flag form. */
  predicate Describable(m: Module) {
    (forall a :: a in m.required ==> HasForm(a)) && (forall a :: a in m.optional ==> !NameOnly(a))
  }

  /**
   * The invocation line up to the required arguments: the program name, the global marker
   * when there are globals, the module name, and the optional marker exactly when the module
   * has optional arguments.
   */
  function UsageHead(appName: string, hasGlobals: bool, m: Module): (r: string)
    ensures StartsWith(r, appName)
    ensures var lead := appName + (if hasGlobals then " <global parameters>" else "") + " " + m.name;
            StartsWith(r, lead) &&
            r[|lead|..] == (if |m.optional| != 0 then " <optional parameters>" else "")
  {
    var h := appName + (if hasGlobals then " <global parameters>" else "") + " " + m.name;
    PrefixExtended(appName, if hasGlobals then " <global parameters>" else "", appName);
    PrefixExtended(appName + (if hasGlobals then " <global parameters>" else ""), " ", appName);
    PrefixExtended(appName + (if hasGlobals then " <global parameters>" else "") + " ", m.name, appName);
    PrefixExtended(h, if |m.optional| != 0 then " <optional parameters>" else "", appName);
    h + (if |m.optional| != 0 then " <optional parameters>" else "")
  }

  /** "app [<global parameters>] name [<optional parameters>] <items>". */
  function UsageLine(appName: string, hasGlobals: bool, m: Module): (r: string)
    ensures StartsWith(r, appName)
    ensures StartsWith(r, UsageHead(appName, hasGlobals, m))
    ensures EndsWith(r, UsageItems(m.required))
    ensures |r| == |UsageHead(appName, hasGlobals, m)| + |UsageItems(m.required)|
  {
    var head := UsageHead(appName, hasGlobals, m);
    PrefixExtended(head, UsageItems(m.required), appName);
    assert (head + UsageItems(m.required))[|head|..] == UsageItems(m.required);
    head + UsageItems(m.required)
  }

  // ---------------------------------------------------------------------------------------
  // Parameter columns

  /** The length of the longest label, 0 for none. */
  function Longest(labels: seq<string>): (r: nat)
    ensures forall i :: 0 <= i < |labels| ==> |labels[i]| <= r
    ensures labels == [] ==> r == 0
    ensures labels != [] ==> exists i :: 0 <= i < |labels| && |labels[i]| == r
  {
    if labels == [] then 0
    else
      var rest := Longest(labels[..|labels| - 1]);
      var last := |labels[|labels| - 1]|;
      assert forall i :: 0 <= i < |labels| - 1 ==> labels[i] == labels[..|labels| - 1][i];
      if last > rest then last else rest
  }

  function Spaces(n: nat): (r: string)
    ensures |r| == n && forall i :: 0 <= i < n ==> r[i] == ' '
  {
    if n == 0 then "" else Spaces(n - 1) + " "
  }

  /** A label filled with spaces up to `width`; a longer label is left as it is. */
  function Pad(text: string, width: nat): (r: string)
    ensures |r| == if |text| < width then width else |text|
    ensures r[..|text|] == text
    ensures forall i :: |text| <= i < |r| ==> r[i] == ' '
  {
    if |text| < width then text + Spaces(width - |text|) else text
  }

  /** Padding to the longest label gives every label the same width: the columns line up. */
  lemma ColumnsAligned(labels: seq<string>)
    ensures forall i :: 0 <= i < |labels| ==>
              |Pad(labels[i], Longest(labels))| == Longest(labels) &&
              Pad(labels[i], Longest(labels))[..|labels[i]|] == labels[i]
  {
  }

  function ParamLine(text: string, description: string, width: nat): string {
    "\t\t\t" + Pad(text, width) + "\t" + description + "\n"
  }

  /** The lines of a parameter list, labels padded to `width`. */
  function ParamLines(labels: seq<string>, descriptions: seq<string>, width: nat): string
    requires |labels| == |descriptions|
  {
    if labels == [] then ""
    else
      var n := |labels| - 1;
      ParamLines(labels[..n], descriptions[..n], width) + ParamLine(labels[n], descriptions[n], width)
  }

  function RequiredLabels(specs: seq<CommandLineArgument>): (r: seq<string>)
    ensures |r| == |specs| && forall i :: 0 <= i < |specs| ==> r[i] == RequiredParamText(specs[i])
  {
    seq(|specs|, i requires 0 <= i < |specs| => RequiredParamText(specs[i]))
  }

  function OptionalLabels(specs: seq<CommandLineArgument>): (r: seq<string>)
    ensures |r| == |specs| && forall i :: 0 <= i < |specs| ==> r[i] == OptionalParamText(specs[i])
  {
    seq(|specs|, i requires 0 <= i < |specs| => OptionalParamText(specs[i]))
  }

  function GlobalRequiredLabels(specs: seq<CommandLineArgument>): (r: seq<string>)
    ensures |r| == |specs| && forall i :: 0 <= i < |specs| ==> r[i] == GlobalRequiredText(specs[i])
  {
    seq(|specs|, i requires 0 <= i < |specs| => GlobalRequiredText(specs[i]))
  }

  function Descriptions(specs: seq<CommandLineArgument>): (r: seq<string>)
    ensures |r| == |specs| && forall i :: 0 <= i < |specs| ==> r[i] == specs[i].description
  {
    seq(|specs|, i requires 0 <= i < |specs| => specs[i].description)
  }

  // ---------------------------------------------------------------------------------------
  // Replacing characters

  function Count(s: string, c: char): nat {
    if s == [] then 0 else (if s[0] == c then 1 else 0) + Count(s[1..], c)
  }

  /** `replacingOccurrences(of:with:)` for a one-character pattern. */
  function ReplaceAll(s: string, c: char, rep: string): (r: string)
    ensures |r| == |s| + Count(s, c) * (|rep| - 1)
    ensures c !in rep ==> c !in r
    ensures forall x :: x in r ==> x in s || x in rep
  {
    if s == [] then ""
    else (if s[0] == c then rep else [s[0]]) + ReplaceAll(s[1..], c, rep)
  }

  /** Replacing distributes over concatenation. */
  lemma {:induction false} ReplaceAllAppend(s: string, t: string, c: char, rep: string)
    ensures ReplaceAll(s + t, c, rep) == ReplaceAll(s, c, rep) + ReplaceAll(t, c, rep)
    decreases |s|
  {
    if s == [] {
      assert s + t == t;
    } else {
      assert (s + t)[0] == s[0] && (s + t)[1..] == s[1..] + t;
      ReplaceAllAppend(s[1..], t, c, rep);
    }
  }

  /** Text without the character is left unchanged. */
  lemma {:induction false} ReplaceAllAbsent(s: string, c: char, rep: string)
    requires c !in s
    ensures ReplaceAll(s, c, rep) == s
    decreases |s|
  {
    if s != [] {
      assert s[1..] + [] == s[1..];
      assert c !in s[1..] by {
        forall i | 0 <= i < |s[1..]| ensures s[1..][i] != c {
          assert s[1..][i] == s[i + 1];
        }
      }
      ReplaceAllAbsent(s[1..], c, rep);
      assert s == [s[0]] + s[1..];
    }
  }

  // ---------------------------------------------------------------------------------------
  // Module descriptions and the whole text

  /** The required-parameter list: present exactly when there are required parameters. */
  function RequiredSection(specs: seq<CommandLineArgument>): (r: string)
    ensures r == "" <==> |specs| == 0
    ensures |specs| != 0 ==> StartsWith(r, "\t\tRequired Parameters:\n")
  {
    if |specs| == 0 then ""
    else
      var labels := RequiredLabels(specs);
      "\t\tRequired Parameters:\n" + ParamLines(labels, Descriptions(specs), Longest(labels))
  }

  /** The optional-parameter list: present exactly when there are optional parameters. */
  function OptionalSection(specs: seq<CommandLineArgument>): (r: string)
    ensures r == "" <==> |specs| == 0
    ensures |specs| != 0 ==> StartsWith(r, "\t\tOptional Parameters:\n")
  {
    if |specs| == 0 then ""
    else
      var labels := OptionalLabels(specs);
      "\t\tOptional Parameters:\n" + ParamLines(labels, Descriptions(specs), Longest(labels))
  }

  /** `getModuleDescription`: name, invocation line, indented description, parameter lists. */
  function ModuleDescription(m: Module, appName: string, hasGlobals: bool): (r: string)
    requires Describable(m)
    // The module's name on a line of its own first; the required, then the optional list last.
    ensures StartsWith(r, "\t" + m.name + "\n")
    ensures EndsWith(r, RequiredSection(m.required) + OptionalSection(m.optional))
  {
    DescriptionEnds("\t" + m.name + "\n", UsageLine(appName, hasGlobals, m),
                    ReplaceAll(m.description, '\n', "\n\t\t\t"), RequiredSection(m.required),
                    OptionalSection(m.optional));
    "\t" + m.name + "\n" +
    "\t\tUsage:\n" +
    "\t\t\t" + UsageLine(appName, hasGlobals, m) + "\n" +
    "\t\tDescription:\n" +
    "\t\t\t" + ReplaceAll(m.description, '\n', "\n\t\t\t") + "\n" +
    RequiredSection(m.required) +
    OptionalSection(m.optional)
  }

  /** A description laid out from its parts starts with its head and ends with its two lists. */
  lemma DescriptionEnds(head: string, usage: string, text: string, required: string, optional: string)
    ensures var r := head + "\t\tUsage:\n" + "\t\t\t" + usage + "\n" + "\t\tDescription:\n" +
                     "\t\t\t" + text + "\n" + required + optional;
            StartsWith(r, head) && EndsWith(r, required + optional)
  {
    var x1 := head + "\t\tUsage:\n";
    var x2 := x1 + "\t\t\t";
    var x3 := x2 + usage;
    var x4 := x3 + "\n";
    var x5 := x4 + "\t\tDescription:\n";
    var x6 := x5 + "\t\t\t";
    var x7 := x6 + text;
    var x8 := x7 + "\n";
    var x9 := x8 + required;
    PrefixExtended(head, "\t\tUsage:\n", head);
    PrefixExtended(x1, "\t\t\t", head);
    PrefixExtended(x2, usage, head);
    PrefixExtended(x3, "\n", head);
    PrefixExtended(x4, "\t\tDescription:\n", head);
    PrefixExtended(x5, "\t\t\t", head);
    PrefixExtended(x6, text, head);
    PrefixExtended(x7, "\n", head);
    PrefixExtended(x8, required, head);
    PrefixExtended(x9, optional, head);
    TailKept(x8, required, optional);
  }

  /** What follows `a` in a + b + c is b + c. */
  lemma TailKept(a: string, b: string, c: string)
    ensures |a + b + c| == |a| + |b + c| && (a + b + c)[|a|..] == b + c
  {
    assert (a + b + c)[|a|..] == b + c;
  }

  /** A prefix of `a` is still a prefix once more text is appended. */
  lemma PrefixExtended(a: string, b: string, p: string)
    requires |p| <= |a| && a[..|p|] == p
    ensures (a + b)[..|p|] == p
  {
    assert (a + b)[..|p|] == a[..|p|];
  }

  /** Parts joined with a newline between consecutive parts. */
  function Joined(parts: seq<string>): (r: string)
    ensures |parts| == 1 ==> r == parts[0]
    ensures parts == [] ==> r == ""
  {
    if parts == [] then ""
    else if |parts| == 1 then parts[0]
    else Joined(parts[..|parts| - 1]) + "\n" + parts[|parts| - 1]
  }

  /** Joining more parts extends the text: the modules are listed in catalog order. */
  lemma {:induction false} JoinedPrefix(parts: seq<string>, k: nat)
    requires 0 < k <= |parts|
    ensures |Joined(parts[..k])| <= |Joined(parts)| && Joined(parts)[..|Joined(parts[..k])|] == Joined(parts[..k])
    decreases |parts|
  {
    if k < |parts| {
      var n := |parts| - 1;
      assert parts[..n][..k] == parts[..k];
      JoinedPrefix(parts[..n], k);
      var p := Joined(parts[..n]);
      assert Joined(parts) == p + "\n" + parts[n];
      assert Joined(parts)[..|p|] == p;
    } else {
      assert parts[..k] == parts;
    }
  }

  predicate DescribableGlobals(globals: ArgumentSet) {
    forall a :: a in globals.optional ==> !NameOnly(a)
  }

  function GlobalLine(text: string, description: string): string {
    "\t\t" + text + "\t" + description + "\n"
  }

  /** The global parameter lines, without padding. */
  function GlobalLines(labels: seq<string>, descriptions: seq<string>): string
    requires |labels| == |descriptions|
  {
    if labels == [] then ""
    else
      var n := |labels| - 1;
      GlobalLines(labels[..n], descriptions[..n]) + GlobalLine(labels[n], descriptions[n])
  }

  /** The global parameter lists: empty exactly when there are no globals. */
  function GlobalSection(globals: ArgumentSet): (r: string)
    ensures r == "" <==> |globals.required| == 0 && |globals.optional| == 0
    ensures |globals.required| != 0 ==> StartsWith(r, "\tRequired Parameters:\n")
  {
    (if |globals.required| != 0 then
       "\tRequired Parameters:\n" +
       GlobalLines(GlobalRequiredLabels(globals.required), Descriptions(globals.required))
     else "") +
    (if |globals.optional| != 0 then
       "\tOptional Parameters:\n" +
       GlobalLines(OptionalLabels(globals.optional), Descriptions(globals.optional))
     else "")
  }

  predicate Printable(mods: seq<Module>, globals: Option<ArgumentSet>) {
    (forall m :: m in mods ==> Describable(m)) && (globals.Some? ==> DescribableGlobals(globals.value))
  }

  function ModuleDescriptions(mods: seq<Module>, appName: string, hasGlobals: bool): (r: seq<string>)
    requires forall m :: m in mods ==> Describable(m)
    ensures |r| == |mods| && forall i :: 0 <= i < |mods| ==> r[i] == ModuleDescription(mods[i], appName, hasGlobals)
  {
    seq(|mods|, i requires 0 <= i < |mods| => ModuleDescription(mods[i], appName, hasGlobals))
  }

  /**
   * `printUsage`: the text written to standard output before `exit(-1)`. Tabs are expanded
   * to four spaces in the module list only.
   */
  function UsageText(appName: string, mods: seq<Module>, globals: Option<ArgumentSet>): (r: string)
    requires Printable(mods, globals)
    ensures StartsWith(r, "Usage: " + appName)
    // Without globals every tab is expanded, so a program name without tabs gives a text
    // without tabs; the global section, when there is one, keeps its tabs.
    ensures globals.None? && '\t' !in appName ==> '\t' !in r
  {
    var list := ReplaceAll(Joined(ModuleDescriptions(mods, appName, globals.Some?)), '\t', "    ");
    assert '\t' !in "    ";
    UsageTextParts(appName, if globals.Some? then Some(GlobalSection(globals.value)) else None, list);
    (if globals.Some? then
       "Usage: " + appName + " <global parameters> <action> <parameters>\n" +
       "Where global parameters can be:\n" +
       GlobalSection(globals.value)
     else "Usage: " + appName + " <action> <parameters>\n") +
    "Where action can be one of:\n" +
    list
  }

  /** The fixed lines of the usage text without globals hold no tab. */
  lemma FixedTextHasNoTab()
    ensures '\t' !in "Usage: " && '\t' !in " <action> <parameters>\n" && '\t' !in "Where action can be one of:\n"
  {
  }

  /** The usage text laid out from its parts starts with "Usage: " and the program name. */
  lemma UsageTextParts(appName: string, section: Option<string>, list: string)
    ensures var r := (if section.Some? then
                        "Usage: " + appName + " <global parameters> <action> <parameters>\n" +
                        "Where global parameters can be:\n" + section.value
                      else "Usage: " + appName + " <action> <parameters>\n") +
                     "Where action can be one of:\n" + list;
            StartsWith(r, "Usage: " + appName) &&
            (section.None? && '\t' !in appName && '\t' !in list ==> '\t' !in r)
  {
    var head := "Usage: " + appName;
    var first;
    if section.Some? {
      var y := head + " <global parameters> <action> <parameters>\n";
      PrefixExtended(head, " <global parameters> <action> <parameters>\n", head);
      PrefixExtended(y, "Where global parameters can be:\n", head);
      PrefixExtended(y + "Where global parameters can be:\n", section.value, head);
      first := y + "Where global parameters can be:\n" + section.value;
    } else {
      PrefixExtended(head, " <action> <parameters>\n", head);
      first := head + " <action> <parameters>\n";
      if '\t' !in appName && '\t' !in list {
        FixedTextHasNoTab();
        assert '\t' !in first + "Where action can be one of:\n" + list;
      }
    }
    PrefixExtended(first, "Where action can be one of:\n", head);
    PrefixExtended(first + "Where action can be one of:\n", list, head);
  }

  // ---------------------------------------------------------------------------------------
  // The builders

  /** The `longest` loop over a parameter list's labels. */
  method LongestLabel(labels: seq<string>) returns (longest: nat)
    ensures longest == Longest(labels)
  {
    longest := 0;
    var j := 0;
    while j < |labels|
      invariant j <= |labels|
      invariant longest == Longest(labels[..j])
    {
      assert labels[..j + 1][..j] == labels[..j];
      var len := |labels[j]|;
      if len > longest {
        longest := len;
      }
      j := j + 1;
    }
    assert labels[..j] == labels;
  }

  /** One padded parameter line: the label filled with spaces up to `longest`, then its description. */
  method PaddedLine(text: string, description: string, longest: nat) returns (line: string)
    ensures line == ParamLine(text, description, longest)
  {
    var padded := text;
    if |padded| < longest {
      padded := padded + Spaces(longest - |padded|);
    }
    line := "\t\t\t" + padded + "\t" + description + "\n";
  }

  /** The padding loop over a parameter list. */
  method AppendParamLines(result: string, labels: seq<string>, descriptions: seq<string>, longest: nat)
    returns (r: string)
    requires |labels| == |descriptions|
    ensures r == result + ParamLines(labels, descriptions, longest)
  {
    r := result;
    var j := 0;
    while j < |labels|
      invariant j <= |labels|
      invariant r == result + ParamLines(labels[..j], descriptions[..j], longest)
    {
      assert labels[..j + 1][..j] == labels[..j] && descriptions[..j + 1][..j] == descriptions[..j];
      var line := PaddedLine(labels[j], descriptions[j], longest);
      AppendAssociates(result, ParamLines(labels[..j], descriptions[..j], longest), line);
      r := r + line;
      j := j + 1;
    }
    assert labels[..j] == labels && descriptions[..j] == descriptions;
  }

  /** One required argument's entry in the invocation line. */
  method UsageEntry(a: CommandLineArgument) returns (item: string)
    ensures item == UsageItem(a)
  {
    var placeholder := " <" + TypeToString(a.kind) + ">";
    if a.shortVersion != "" {
      item := " " + a.shortVersion + placeholder;
    } else if a.longVersion != "" {
      item := " " + a.longVersion + placeholder;
    } else {
      item := " <" + a.name + ">";
    }
  }

  /** The invocation-line loop over the required arguments. */
  method AppendUsageItems(usage: string, specs: seq<CommandLineArgument>) returns (r: string)
    ensures r == usage + UsageItems(specs)
  {
    r := usage;
    var j := 0;
    while j < |specs|
      invariant j <= |specs|
      invariant r == usage + UsageItems(specs[..j])
    {
      assert specs[..j + 1][..j] == specs[..j];
      var item := UsageEntry(specs[j]);
      AppendAssociates(usage, UsageItems(specs[..j]), item);
      r := r + item;
      j := j + 1;
    }
    assert specs[..j] == specs;
  }

  /** The invocation line of a module. */
  method BuildUsageLine(appName: string, hasGlobals: bool, m: Module) returns (usage: string)
    ensures usage == UsageLine(appName, hasGlobals, m)
  {
    usage := appName + (if hasGlobals then " <global parameters>" else "") + " " + m.name;
    if |m.optional| != 0 {
      usage := usage + " <optional parameters>";
    }
    assert usage == UsageHead(appName, hasGlobals, m);
    usage := AppendUsageItems(usage, m.required);
  }

  /** The required-parameter list of a module description. */
  method AppendRequiredSection(result: string, specs: seq<CommandLineArgument>) returns (r: string)
    ensures r == result + RequiredSection(specs)
  {
    r := result;
    if |specs| != 0 {
      var header := "\t\tRequired Parameters:\n";
      var labels := RequiredLabels(specs);
      var longest := LongestLabel(labels);
      AppendAssociates(result, header, ParamLines(labels, Descriptions(specs), longest));
      r := AppendParamLines(r + header, labels, Descriptions(specs), longest);
    }
  }

  /** The optional-parameter list of a module description. */
  method AppendOptionalSection(result: string, specs: seq<CommandLineArgument>) returns (r: string)
    ensures r == result + OptionalSection(specs)
  {
    r := result;
    if |specs| != 0 {
      var header := "\t\tOptional Parameters:\n";
      var labels := OptionalLabels(specs);
      var longest := LongestLabel(labels);
      AppendAssociates(result, header, ParamLines(labels, Descriptions(specs), longest));
      r := AppendParamLines(r + header, labels, Descriptions(specs), longest);
    }
  }

  /** `getModuleDescription`. */
  method GetModuleDescription(m: Module, appName: string, hasGlobals: bool) returns (result: string)
    requires Describable(m)
    ensures result == ModuleDescription(m, appName, hasGlobals)
  {
    result := "\t" + m.name + "\n";
    result := result + "\t\tUsage:\n";
    var usage := BuildUsageLine(appName, hasGlobals, m);
    result := result + "\t\t\t" + usage + "\n";
    result := result + "\t\tDescription:\n";
    result := result + "\t\t\t" + ReplaceAll(m.description, '\n', "\n\t\t\t") + "\n";
    result := AppendRequiredSection(result, m.required);
    result := AppendOptionalSection(result, m.optional);
  }

  /** The global parameter loop: each label, a tab, its description. */
  method AppendGlobalLines(result: string, labels: seq<string>, descriptions: seq<string>) returns (r: string)
    requires |labels| == |descriptions|
    ensures r == result + GlobalLines(labels, descriptions)
  {
    r := result;
    var j := 0;
    while j < |labels|
      invariant j <= |labels|
      invariant r == result + GlobalLines(labels[..j], descriptions[..j])
    {
      assert labels[..j + 1][..j] == labels[..j] && descriptions[..j + 1][..j] == descriptions[..j];
      var line := "\t\t" + labels[j] + "\t" + descriptions[j] + "\n";
      assert line == GlobalLine(labels[j], descriptions[j]);
      AppendAssociates(result, GlobalLines(labels[..j], descriptions[..j]), line);
      r := r + line;
      j := j + 1;
    }
    assert labels[..j] == labels && descriptions[..j] == descriptions;
  }

  /** The global parameter lists of the usage text. */
  method BuildGlobalSection(globals: ArgumentSet) returns (result: string)
    ensures result == GlobalSection(globals)
  {
    result := "";
    if |globals.required| != 0 {
      result := AppendGlobalLines("\tRequired Parameters:\n", GlobalRequiredLabels(globals.required),
                                  Descriptions(globals.required));
    }
    if |globals.optional| != 0 {
      var header := "\tOptional Parameters:\n";
      var lines := GlobalLines(OptionalLabels(globals.optional), Descriptions(globals.optional));
      AppendAssociates(result, header, lines);
      result := AppendGlobalLines(result + header, OptionalLabels(globals.optional),
                                  Descriptions(globals.optional));
    }
  }

  /** What the descriptions loop holds before part `i`, and after it. */
  function JoinedBefore(parts: seq<string>, i: nat): string
    requires i <= |parts|
  {
    if i == 0 then "" else Joined(parts[..i]) + "\n"
  }

  /** The rest of one round of the descriptions loop: the part, then a newline unless it is the last. */
  method AppendPart(descriptions: string, ghost parts: seq<string>, count: nat, i: nat, d: string)
    returns (r: string)
    requires count == |parts| && i < count && d == parts[i] && descriptions == JoinedBefore(parts, i)
    ensures i + 1 < |parts| ==> r == JoinedBefore(parts, i + 1)
    ensures i + 1 == |parts| ==> r == Joined(parts)
  {
    assert parts[..i + 1][..i] == parts[..i];
    r := descriptions + d;
    if i != count - 1 {
      r := r + "\n";
    } else {
      assert parts[..i + 1] == parts;
    }
  }

  /** The descriptions loop: each module's description, a newline between consecutive ones. */
  method JoinDescriptions(mods: seq<Module>, appName: string, hasGlobals: bool) returns (descriptions: string)
    requires forall m :: m in mods ==> Describable(m)
    ensures descriptions == Joined(ModuleDescriptions(mods, appName, hasGlobals))
  {
    ghost var parts := ModuleDescriptions(mods, appName, hasGlobals);
    descriptions := "";
    var i := 0;
    while i < |mods|
      invariant i <= |mods|
      invariant i < |mods| ==> descriptions == JoinedBefore(parts, i)
      invariant i == |mods| ==> descriptions == Joined(parts)
    {
      var d := GetModuleDescription(mods[i], appName, hasGlobals);
      descriptions := AppendPart(descriptions, parts, |mods|, i, d);
      i := i + 1;
    }
  }

  /** `printUsage`: the text it writes; `appName` stands for the program name it reads. */
  method PrintUsage(appName: string, mods: seq<Module>, globals: Option<ArgumentSet>) returns (output: string)
    requires Printable(mods, globals)
    ensures output == UsageText(appName, mods, globals)
  {
    if globals.Some? {
      output := "Usage: " + appName + " <global parameters> <action> <parameters>\n";
      output := output + "Where global parameters can be:\n";
      var section := BuildGlobalSection(globals.value);
      output := output + section;
    } else {
      output := "Usage: " + appName + " <action> <parameters>\n";
    }
    output := output + "Where action can be one of:\n";
    var descriptions := JoinDescriptions(mods, appName, globals.Some?);
    output := output + ReplaceAll(descriptions, '\t', "    ");
  }
}
