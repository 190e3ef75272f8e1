# CryptexManager command-line parser, modelled in Dafny

This project models the declarative command-line parser of CryptexManager
(`Sources/CryptexManager/CommandLineParser.swift`). A program declares modules (subcommands) and
global arguments. Each argument has a bare `name`, a `shortVersion` and/or a `longVersion`, a type
tag and a default. The parser then has these parts:

- **The argument object** (`CommandLineArgument`): a class whose identity fields never change.
  Its value slot `rawValue` is written in place while parsing. The `value` getter falls back to
  the default.
- **Token coercion** (`parseInput`): turns one token into a typed value, or fails. For path kinds
  it queries a filesystem, and `OutputFolderPath` may create one directory.
- **The global scanner** (`parseCommandLine`): reads global flags and their values up to the first
  module name. It checks that every required global has a value, then hands over to the module
  parser.
- **The module parser** (`parseArgumentsFor`): a state machine over the remaining tokens. A pending
  value is taken first, then a required flag, an optional flag, and finally the first unfilled
  positional argument. A repeated flag keeps its last occurrence. The module's handler is
  dispatched only when the parsed required count equals the declared one.
- **Lookup** (`ParsedArguments`/`GlobalArguments.getArgument`): returns the value of the first
  match, searching required arguments before optional ones.
- **The usage text** (`typeToString`, `getModuleDescription`, `printUsage`): labels, padded
  parameter columns, a synthesised invocation line, and tab expansion.

Each part takes the source's own form:

- The pure parts are functions with lemmas: coercion, lookup, the labels, and the state machines
  `Step`/`Run`/`ParseModule` and `GlobalStep`/`ScanGlobals`/`ParseArgv`.
- The loops are methods with loop invariants:
  - `ParseArgumentsFor` and `ParseCommandLine` write the `rawValue` fields of the argument
    objects in place.
  - The usage builders append to strings.
- Each method is proved equal to its specification function: it returns the same outcome and
  filesystem, and a ghost snapshot of the value slots equal to the function's.
- The lemmas about those functions state what the source promises.

Files:

| file | contents |
|---|---|
| `wrappers.dfy` | `Option` |
| `coercion.dfy` | argument kinds, the tagged value, Swift's 64-bit `Int`/`UInt` parsing, the abstract filesystem, `ParseInput` |
| `arguments.dfy` | the `CommandLineArgument` class, snapshots of value slots, first-match search, lookup, modules, outcomes |
| `module_parser.dfy` | `parseArgumentsFor`: the pure state machine, its lemmas, the in-place procedure |
| `global_scanner.dfy` | `parseCommandLine`: the pure scan, its lemmas, the in-place procedure |
| `usage.dfy` | `typeToString`, labels, padding, the invocation line, module descriptions, the usage text, and the builders |
| `examples.dfy` | end-to-end runs on a `convert` catalog, on `buildTrustCache` (BuildTC.swift) with the `--udid` global (main.swift), and on an Int global |

## Model

| member | source | states |
|---|---|---|
| Arguments.Resolve | Sources/CryptexManager/CommandLineParser.swift:35-38 | the getter yields the raw value when it is set, else the default; it yields nothing exactly when both are missing |
| Arguments.CommandLineArgument.Value | Sources/CryptexManager/CommandLineParser.swift:35-38 | `value` read from the object's own fields is Resolve(rawValue, defaultValue) |
| Arguments.CommandLineArgument.SetValue | Sources/CryptexManager/CommandLineParser.swift:39-41 | the setter writes the raw slot; afterwards the getter resolves the new value against the default |
| Arguments.CommandLineArgument.Named | Sources/CryptexManager/CommandLineParser.swift:48-55 | a positional argument: the name is set, both flag forms are empty, and there is no raw value |
| Arguments.CommandLineArgument.Short | Sources/CryptexManager/CommandLineParser.swift:57-64 | a short-only flag: empty name and long form |
| Arguments.CommandLineArgument.Long | Sources/CryptexManager/CommandLineParser.swift:66-73 | a long-only flag: empty name and short form |
| Arguments.CommandLineArgument.ShortLong | Sources/CryptexManager/CommandLineParser.swift:75-82 | a flag with both forms and an empty name |
| Arguments.Snapshot | Sources/CryptexManager/CommandLineParser.swift:32-42 | the snapshot of a set of objects agrees with each object's raw slot and with its getter |
| Arguments.RawOutside | Sources/CryptexManager/CommandLineParser.swift:35-42 | two snapshots that agree outside a set give the same raw value and the same getter value to every argument outside it |
| Arguments.FirstMatch | Sources/CryptexManager/CommandLineParser.swift:90-94 | the index found is the first whose field matches the key; with no index found, nothing matches |
| Arguments.MatchFlag | Sources/CryptexManager/CommandLineParser.swift:549-566 | the flag loop returns the first index whose short or long form equals the token (FirstMatch with ByFlag) |
| Arguments.ArgumentSet.Find | Sources/CryptexManager/CommandLineParser.swift:89-103 | the first required argument matching the key wins; with none, the first optional match; the result is declared in the set; with no result, no required or optional argument matches |
| Arguments.ArgumentSet.GetArgument | Sources/CryptexManager/CommandLineParser.swift:89-172 | `getArgument` on the live objects equals Lookup on their snapshot |
| Arguments.ArgumentSet.Lookup | Sources/CryptexManager/CommandLineParser.swift:89-172 | `getArgument` on a snapshot: a value is that of the declared, matching argument Find picks; with no matching argument, no value |
| Arguments.LookupPrefersRequired | Sources/CryptexManager/CommandLineParser.swift:89-135 | when required argument k is the first required match, the lookup returns its value, whatever the optional group holds |
| Arguments.LookupFallsBackToOptional | Sources/CryptexManager/CommandLineParser.swift:89-135 | with no required match, the first optional match decides; with no match at all, the lookup returns nil |
| Coercion.ParseInt | Sources/CryptexManager/CommandLineParser.swift:448 | `Int(text)` accepts only an optionally signed run of decimal digits whose value fits in 64 bits |
| Coercion.ParseUInt | Sources/CryptexManager/CommandLineParser.swift:461 | `UInt(text)` accepts only an optionally signed run of decimal digits whose value is between 0 and 2^64-1 |
| Coercion.ParseIntRoundTrip | Sources/CryptexManager/CommandLineParser.swift:448 | parsing the decimal text of any 64-bit integer gives that integer back |
| Coercion.ParseUIntRoundTrip | Sources/CryptexManager/CommandLineParser.swift:461 | parsing the decimal digits of any unsigned 64-bit integer gives it back |
| Coercion.CoerceInt | Sources/CryptexManager/CommandLineParser.swift:447-458 | a plain decimal reading wins; failing that, a token starting with "0x" is read from its third character on, again as decimal; it fails exactly when both readings fail; any value is a 64-bit integer |
| Coercion.DecimalDigitsValue | Sources/CryptexManager/CommandLineParser.swift:448 | the decimal digits of n are non-empty, all digits, and denote n |
| Coercion.HexPrefixReadsDecimal | Sources/CryptexManager/CommandLineParser.swift:447-458 | the `.Int` case accepts "0x" followed by the decimal text of any 64-bit integer and yields that integer: the prefix does not switch to base 16 |
| Coercion.IntCoercionSamples | Sources/CryptexManager/CommandLineParser.swift:447-458 | "31" and "0x31" both give 31; "0x1f" and "abc" fail |
| Coercion.ParseInput | Sources/CryptexManager/CommandLineParser.swift:442-518 | per kind: String gives the token; Flag gives true; Int gives CoerceInt; UInt always gives a boxed optional. FilePath succeeds iff the path is an existing file, OutputFilePath iff it is not an existing directory, FolderPath iff it is an existing directory. OutputFolderPath succeeds iff the path is a directory, or is absent and creatable; then the path is a directory afterwards. Only OutputFolderPath changes the filesystem, and only by adding the token itself as a directory |
| Coercion.OutputFolderCreatesExactlyOne | Sources/CryptexManager/CommandLineParser.swift:500-516 | on an absent, creatable path, OutputFolderPath adds exactly that directory (non-recursively) and leaves everything else unchanged |
| ModuleParser.RemoveFirst | Sources/CryptexManager/CommandLineParser.swift:549-553 | `firstIndex(of:)` and `remove(at:)` under equality by description: the result holds only entries of the list and is no longer |
| ModuleParser.RemoveFirstDistinct | Sources/CryptexManager/CommandLineParser.swift:549-553 | on a list without repeated descriptions, the result has none either and keeps exactly the entries whose description differs from the removed one |
| ModuleParser.RemoveFirstSubList | Sources/CryptexManager/CommandLineParser.swift:551-552 | the result is the list itself, or the list with exactly the first entry of that description removed, the rest in order |
| ModuleParser.RemoveFirstAt | Sources/CryptexManager/CommandLineParser.swift:551-552 | when index i holds the first entry with that description, the result is the list with exactly index i removed, the rest in order |
| ModuleParser.RemoveFirstAbsent | Sources/CryptexManager/CommandLineParser.swift:551-552 | with no entry of that description the list is unchanged |
| ModuleParser.RemoveFirstMultiset | Sources/CryptexManager/CommandLineParser.swift:551-552 | when only `a` itself has its description, removing it takes away one copy of `a` and nothing else |
| ModuleParser.MoveToEndDistinct | Sources/CryptexManager/CommandLineParser.swift:551-555 | removing an entry and appending it keeps the descriptions distinct |
| ModuleParser.MoveToEndTwice | Sources/CryptexManager/CommandLineParser.swift:551-555 | on a list without repeated descriptions, moving an entry to the end and then removing it is removing it once |
| ModuleParser.TakeValue | Sources/CryptexManager/CommandLineParser.swift:530-543 | the pending value goes to the last parsed required entry when the flag was required, else to the last optional one. A failed coercion exits with that entry's bad-value outcome and no write. A successful one writes exactly that slot, keeps the parsed lists and clears the pending mark |
| ModuleParser.MatchRequired | Sources/CryptexManager/CommandLineParser.swift:549-566 | the matched required spec is moved to the end of the parsed required list: the list becomes RemoveFirst of it followed by the spec, so the other entries stay in order, and it keeps distinct descriptions; the optional list and filesystem are kept; a Flag is set to true and nothing else is written; any other kind becomes pending as a required value |
| ModuleParser.MatchOptional | Sources/CryptexManager/CommandLineParser.swift:575-592 | the same for the optional list: it becomes RemoveFirst of it followed by the spec, and keeps distinct descriptions; the required list and filesystem are kept; a Flag is set to true; any other kind becomes pending as an optional value |
| ModuleParser.FillPositional | Sources/CryptexManager/CommandLineParser.swift:601-626 | a successful positional fill appends one required spec from the module, with a value, after the parsed entries, and writes no value slot but that spec's; otherwise the state is unchanged and the outcome is a bad value or usage for the unknown token |
| ModuleParser.Finish | Sources/CryptexManager/CommandLineParser.swift:629-641 | a pending value at the end gives the missing-value usage; otherwise the module is dispatched, with the parsed lists, exactly when the parsed required count equals the declared one |
| ModuleParser.ParseModule | Sources/CryptexManager/CommandLineParser.swift:520-642 | a dispatch hands over the module whose tokens were parsed, with as many parsed required entries as it declares |
| ModuleParser.FirstUnfilled | Sources/CryptexManager/CommandLineParser.swift:604-606 | the first required argument with a name and no value; none is found only if none exists |
| ModuleParser.Step | Sources/CryptexManager/CommandLineParser.swift:530-626 | one token never dispatches, and the reached state is still shaped: parsed entries come from the module's groups, and a pending value has its entry |
| ModuleParser.Run | Sources/CryptexManager/CommandLineParser.swift:529-627 | the token loop keeps the state shaped and never dispatches before the end |
| ModuleParser.ParseModuleFrame | Sources/CryptexManager/CommandLineParser.swift:529-627 | parsing a module writes the value slots of that module's arguments and no others |
| ModuleParser.StepFrame | Sources/CryptexManager/CommandLineParser.swift:530-626 | one token writes only slots of the module's arguments |
| ModuleParser.RunFrame | Sources/CryptexManager/CommandLineParser.swift:529-627 | the whole token loop writes only slots of the module's arguments |
| ModuleParser.RunAppend | Sources/CryptexManager/CommandLineParser.swift:529-627 | running over a + b is running over a, then, unless it exited, over b |
| ModuleParser.StepConsistent | Sources/CryptexManager/CommandLineParser.swift:530-626 | one token keeps the invariant: parsed required entries are declared, never repeat a description, and all hold a value except one whose value is pending |
| ModuleParser.RunConsistent | Sources/CryptexManager/CommandLineParser.swift:529-627 | the token loop keeps that invariant |
| ModuleParser.DistinctInclusionIsPermutation | Sources/CryptexManager/CommandLineParser.swift:636-639 | two duplicate-free sequences of equal length, one inside the other, are permutations of each other |
| ModuleParser.DispatchHasEveryRequiredOnce | Sources/CryptexManager/CommandLineParser.swift:630-641 | a dispatch hands over the parsed module; its parsed required entries are a permutation of the declared ones, each once, and each holds a value |
| ModuleParser.RepeatedFlagKeepsLast | Sources/CryptexManager/CommandLineParser.swift:530-566 | `-i A -i B` on a required value flag ends with one entry for it, moved to the end after the first removal of the earlier one (the other entries keep their order), holding B's coercion; no other slot changes |
| ModuleParser.RequiredFlagWithValue | Sources/CryptexManager/CommandLineParser.swift:530-561 | a required value flag and then its value: the entry moves to the end and exactly its slot is written |
| ModuleParser.OptionalFlagWithValue | Sources/CryptexManager/CommandLineParser.swift:530-592 | an optional value flag that no required spec claims, then its value: the entry moves to the end of the optional list and exactly its slot is written |
| ModuleParser.RepeatedOptionalFlagKeepsLast | Sources/CryptexManager/CommandLineParser.swift:530-592 | `-o A -o B` on an optional value flag ends with one entry for it, at the end of the optional list, holding B's coercion |
| ModuleParser.PendingValueTaken | Sources/CryptexManager/CommandLineParser.swift:530-543 | with a value pending, a failed coercion halts with that entry's bad value (BadValue of the last parsed entry); a successful one writes exactly that slot and clears the pending mark |
| ModuleParser.TwoRequiredFlags | Sources/CryptexManager/CommandLineParser.swift:530-566 | two required value flags with their values, the second coerced on the filesystem the first left (so a directory the first creates counts): each entry is moved to the end in turn and both slots are written |
| ModuleParser.MovedTwiceMultiset | Sources/CryptexManager/CommandLineParser.swift:549-555 | moving two entries to the end, in either order, keeps the same entries |
| ModuleParser.RequiredFlagsCommute | Sources/CryptexManager/CommandLineParser.swift:530-566 | two different required value flags with their values, in either order, give the same value slots, filesystem, optional list and parsed required entries (as a multiset) |
| ModuleParser.FlagsTakePrecedence | Sources/CryptexManager/CommandLineParser.swift:549-594 | a token equal to a required or optional flag form is never taken as a positional value: nothing is coerced, the filesystem is unchanged, and only that flag's slot may change. Required flags are searched first: the first required match is taken as MatchRequired takes it (a Flag set to true, any other kind pending), and only with none the first optional match as MatchOptional takes it |
| ModuleParser.PositionalFillsFirstUnfilled | Sources/CryptexManager/CommandLineParser.swift:602-620 | without a flag match, the token is coerced for the first required positional argument with no value, in declaration order; a failed coercion exits without dispatch; a successful one appends that argument and writes its slot alone, keeping the optional list |
| ModuleParser.UnknownTokenShowsUsage | Sources/CryptexManager/CommandLineParser.swift:622-626 | a token that matches no flag while no positional is waiting ends the parse with usage |
| ModuleParser.EmptyTokenMatchesMissingForm | Sources/CryptexManager/CommandLineParser.swift:549-566 | the empty token equals the missing form of the first required spec lacking one, and is taken as that spec's flag |
| ModuleParser.FindUnfilled | Sources/CryptexManager/CommandLineParser.swift:602-620 | the positional loop returns FirstUnfilled |
| ModuleParser.TakePendingValue | Sources/CryptexManager/CommandLineParser.swift:530-545 | the pending-value branch does what Step does, writing one object's value slot in place |
| ModuleParser.MatchToken | Sources/CryptexManager/CommandLineParser.swift:547-626 | the three matching loops do what Step does, updating the parsed arrays and the slots in place |
| ModuleParser.ParseToken | Sources/CryptexManager/CommandLineParser.swift:530-626 | one token in place does what Step does and keeps every object's raw slot equal to the snapshot |
| ModuleParser.Conclude | Sources/CryptexManager/CommandLineParser.swift:629-641 | the final checks give Finish's outcome: a missing value, too few required entries, or a dispatch |
| ModuleParser.ParseArgumentsFor | Sources/CryptexManager/CommandLineParser.swift:520-642 | the in-place procedure ends with ParseModule's outcome and filesystem; its ghost snapshot equals ParseModule's value slots and matches every object's rawValue |
| GlobalScanner.FlagName | Sources/CryptexManager/CommandLineParser.swift:703 | the name a message shows is the long form when it is set, else the short form |
| GlobalScanner.GlobalFlag | Sources/CryptexManager/CommandLineParser.swift:666-693 | the first required global whose short or long form is the token wins; with none, the first such optional global; the result is declared; with none found, no global matches |
| GlobalScanner.FirstModule | Sources/CryptexManager/CommandLineParser.swift:697-698 | the first module whose name is the token |
| GlobalScanner.FirstMissing | Sources/CryptexManager/CommandLineParser.swift:700-708 | the first required global without a value; none is found only if all have one |
| GlobalScanner.FindGlobalFlag | Sources/CryptexManager/CommandLineParser.swift:666-693 | the two flag loops return GlobalFlag |
| GlobalScanner.FindModule | Sources/CryptexManager/CommandLineParser.swift:697-698 | the module loop returns FirstModule |
| GlobalScanner.FindMissing | Sources/CryptexManager/CommandLineParser.swift:700-708 | the required-globals loop returns FirstMissing |
| GlobalScanner.ParseArgv | Sources/CryptexManager/CommandLineParser.swift:644-729 | fewer than two argv entries give usage with nothing written; a dispatched module is one of the catalog |
| GlobalScanner.GlobalStep | Sources/CryptexManager/CommandLineParser.swift:652-718 | a pending value is coerced for the pending global and stored as the coercion yields it, None on failure, and nothing else changes; a matched Flag global becomes true; any other matched global becomes pending. A module is entered only outside a pending value, on a non-empty token that no global flag matches, naming that module, with every required global valued. Conversely, such a token naming a module enters the first module of that name when every required global has a value, and otherwise stops naming the first required global without one; a token naming no module stops with the unknown action. A missing-global stop names such a global. An empty-argument stop happens exactly on an empty token outside a pending value |
| GlobalScanner.ScanGlobals | Sources/CryptexManager/CommandLineParser.swift:651-728 | a hand-off happens at the argv entry naming the module, with every required global valued. At the end of argv the scan stops: with a missing-value message naming the pending flag when a value is pending, else with a missing action |
| GlobalScanner.ScanHandOffFirst | Sources/CryptexManager/CommandLineParser.swift:697-711 | when the scan hands off, the module entered is the first catalog module whose name is the argv entry it stopped at |
| GlobalScanner.GlobalStepFrame | Sources/CryptexManager/CommandLineParser.swift:652-693 | one argv entry writes only global slots and keeps any pending value declared |
| GlobalScanner.ScanFrame | Sources/CryptexManager/CommandLineParser.swift:651-718 | the global scan writes only global slots |
| GlobalScanner.ScanLeavesModuleSlots | Sources/CryptexManager/CommandLineParser.swift:651-718 | no slot outside the global declarations is written before the hand-off |
| GlobalScanner.DispatchNamesModule | Sources/CryptexManager/CommandLineParser.swift:697-711 | a dispatch comes from the argv entry naming a module, and selects the first catalog module with that name; its parser ran on exactly the entries after the name (index i+1 on) |
| GlobalScanner.DispatchHasRequiredGlobals | Sources/CryptexManager/CommandLineParser.swift:700-707 | at a dispatch, every required global holds a value, set or defaulted |
| GlobalScanner.DispatchHasEveryRequiredOnceFromArgv | Sources/CryptexManager/CommandLineParser.swift:635-641 | from argv: the dispatched module receives each of its required arguments exactly once, and each of them holds a value in the final slots |
| GlobalScanner.EarlyUsage | Sources/CryptexManager/CommandLineParser.swift:645-663 | fewer than two argv entries give usage; an empty first entry gives usage and writes no slot |
| GlobalScanner.ScanEntry | Sources/CryptexManager/CommandLineParser.swift:652-718 | one round of the argv loop does what GlobalStep does, writing global slots in place |
| GlobalScanner.EnterModule | Sources/CryptexManager/CommandLineParser.swift:711 | running a module's parser from the catalog equals ParseModule, and the snapshot still matches every object of the catalog |
| GlobalScanner.ParseCommandLine | Sources/CryptexManager/CommandLineParser.swift:644-729 | the in-place procedure ends with ParseArgv's outcome, value slots and filesystem, and the snapshot matches every object's rawValue |
| GlobalScanner.EnterFromScan | Sources/CryptexManager/CommandLineParser.swift:697-711 | when the scan hands off at entry i, running the module in place on the entries after it yields ParseArgv's outcome, slots and filesystem, and keeps the snapshot |
| Usage.TypeToString | Sources/CryptexManager/CommandLineParser.swift:191-215 | only a Flag shows the empty placeholder, and only Int and UInt show "number" |
| Usage.TypeNamesDistinguishKinds | Sources/CryptexManager/CommandLineParser.swift:191-215 | two kinds share a placeholder exactly when they are equal or both integer kinds |
| Usage.FlagForms | Sources/CryptexManager/CommandLineParser.swift:250-260 | the flag forms read "-s, --long", or whichever form is set |
| Usage.TypeSuffix | Sources/CryptexManager/CommandLineParser.swift:314-316 | a placeholder " <type>" follows except for a Flag, which shows nothing |
| Usage.RequiredParamText | Sources/CryptexManager/CommandLineParser.swift:246-269 | a positional required label is "<name>"; any other is the flag forms plus " <type>", so a required Flag reads "<forms> <>" |
| Usage.OptionalParamText | Sources/CryptexManager/CommandLineParser.swift:295-320 | an optional label is the flag forms, plus " <type>" unless the kind is Flag |
| Usage.GlobalRequiredText | Sources/CryptexManager/CommandLineParser.swift:363-386 | a name-only required global is "[name <type>]", or "[name]" for a Flag; any other required global is labelled like an optional one |
| Usage.UsageItem | Sources/CryptexManager/CommandLineParser.swift:228-238 | an invocation item starts with a space and the short form if there is one, else the long form, and then ends with "<type>" (a Flag shows "<>"); a positional one is " <name>" |
| Usage.UsageItems | Sources/CryptexManager/CommandLineParser.swift:228-238 | no required arguments give no items, one gives its item, and each argument adds at least three characters |
| Usage.UsageItemsAppend | Sources/CryptexManager/CommandLineParser.swift:226-239 | the invocation items of s + t are those of s followed by those of t, in declaration order |
| Usage.UsageHead | Sources/CryptexManager/CommandLineParser.swift:221-225 | the program name, then " <global parameters>" when there are globals, a space and the module name, then " <optional parameters>" exactly when the module has optional arguments, and nothing more |
| Usage.UsageLine | Sources/CryptexManager/CommandLineParser.swift:221-238 | the invocation line starts with the program name, is the head followed by the items of the required arguments, and is exactly as long as the two |
| Usage.Longest | Sources/CryptexManager/CommandLineParser.swift:271-277 | the longest label's length bounds every label's and is attained by one; it is 0 for no labels |
| Usage.Pad | Sources/CryptexManager/CommandLineParser.swift:279-287 | a padded label keeps the label as its prefix, is filled with spaces, and is as long as the width (or the label, if longer) |
| Usage.ColumnsAligned | Sources/CryptexManager/CommandLineParser.swift:271-290 | padding to the longest label gives every label of a group the same length, and each keeps its text |
| Usage.ReplaceAll | Sources/CryptexManager/CommandLineParser.swift:437 | replacing a character changes the length by the number of occurrences times the growth; when the replacement lacks the character, no occurrence is left; no other character appears |
| Usage.ReplaceAllAppend | Sources/CryptexManager/CommandLineParser.swift:437 | replacing distributes over concatenation |
| Usage.ReplaceAllAbsent | Sources/CryptexManager/CommandLineParser.swift:243 | text without the character is left unchanged |
| Usage.RequiredSection | Sources/CryptexManager/CommandLineParser.swift:244-291 | the required-parameter list is present exactly when the module has required parameters, and then starts with its header |
| Usage.OptionalSection | Sources/CryptexManager/CommandLineParser.swift:293-342 | the optional-parameter list is present exactly when the module has optional parameters, and then starts with its header |
| Usage.ModuleDescription | Sources/CryptexManager/CommandLineParser.swift:217-345 | a module description starts with a tab, the module name and a newline, and ends with the required list followed by the optional list |
| Usage.GlobalSection | Sources/CryptexManager/CommandLineParser.swift:358-420 | the global section is empty exactly when there are no globals, and starts with the required header when there are required globals |
| Usage.UsageText | Sources/CryptexManager/CommandLineParser.swift:347-440 | the usage text starts with "Usage: " and the program name; without globals, a program name without tabs gives a text without tabs, every tab of the module list being expanded |
| Usage.JoinedPrefix | Sources/CryptexManager/CommandLineParser.swift:429-434 | the joined descriptions of the first k modules are a prefix of the joined list: modules are listed in catalog order |
| Usage.LongestLabel | Sources/CryptexManager/CommandLineParser.swift:271-277 | the `longest` loop computes Longest |
| Usage.AppendParamLines | Sources/CryptexManager/CommandLineParser.swift:279-290 | the padding loop appends ParamLines |
| Usage.PaddedLine | Sources/CryptexManager/CommandLineParser.swift:279-290 | one padded line equals ParamLine: the label padded with spaces to the longest, then the description |
| Usage.AppendUsageItems | Sources/CryptexManager/CommandLineParser.swift:226-239 | the invocation-line loop appends UsageItems |
| Usage.UsageEntry | Sources/CryptexManager/CommandLineParser.swift:227-238 | one invocation item equals UsageItem |
| Usage.BuildUsageLine | Sources/CryptexManager/CommandLineParser.swift:221-239 | the invocation line equals UsageLine |
| Usage.GetModuleDescription | Sources/CryptexManager/CommandLineParser.swift:217-345 | the builder equals ModuleDescription |
| Usage.AppendRequiredSection | Sources/CryptexManager/CommandLineParser.swift:244-291 | appends RequiredSection: nothing without required arguments, else the header and the padded lines |
| Usage.AppendOptionalSection | Sources/CryptexManager/CommandLineParser.swift:293-342 | appends OptionalSection: nothing without optional arguments, else the header and the padded lines |
| Usage.AppendGlobalLines | Sources/CryptexManager/CommandLineParser.swift:360-389 | the global parameter loop appends GlobalLines |
| Usage.BuildGlobalSection | Sources/CryptexManager/CommandLineParser.swift:356-420 | the global section equals GlobalSection |
| Usage.JoinDescriptions | Sources/CryptexManager/CommandLineParser.swift:429-434 | the descriptions loop equals Joined(ModuleDescriptions) |
| Usage.PrintUsage | Sources/CryptexManager/CommandLineParser.swift:347-440 | the printed text equals UsageText |
| Examples.ConvertDispatches | Sources/CryptexManager/CommandLineParser.swift:644-729 | `app convert -n foo /tmp/in.txt` dispatches with name "foo" and src "/tmp/in.txt" |
| Examples.ConvertWithoutNameShowsUsage | Sources/CryptexManager/CommandLineParser.swift:635-638 | `app convert /tmp/in.txt` (no -n) gives usage without dispatch |
| Examples.RunConvert | Sources/CryptexManager/CommandLineParser.swift:644-729 | the in-place procedure on that catalog leaves "foo" and "/tmp/in.txt" in the two objects' value slots |
| Examples.BuildTCDispatches | Sources/CryptexManager/CommandLineParser.swift:644-729 | `app -u 0123 buildTrustCache dir out.tc -i` dispatches buildTrustCache with both positionals and the flag set, and sets udid |
| Examples.GlobalCoercionFailureIgnored | Sources/CryptexManager/CommandLineParser.swift:655-657 | an unparsable Int global value is stored as no value, and the module is still dispatched |
| Examples.BuildTCPadding | Sources/CryptexManager/CommandLineParser.swift:271-277 | the required labels of buildTrustCache are padded to 12, the length of "<trustcache>" |

## Left out

- I/O: `print`, `getprogname` and `exit` are not modelled as effects. Usage is an outcome with a
  reason, and the printed usage is a returned string, with the program name as a parameter. The
  wording of the one-line error messages and the `counter` index used in one of them are not
  modelled.
- The handler call `module.main` and the modules' own handlers are not part of this model.
  Dispatch is an outcome carrying the module and its parsed argument groups.
- The filesystem is an abstract map from path to file or directory. Whether a directory can be
  created (the parent exists, permissions allow) is an input set of creatable paths. That set is
  fixed for the whole parse: a directory created earlier does not make its children creatable,
  whereas on a real filesystem it would.
- `fatalError` paths are preconditions on the catalog:
  - `Describable`: required module arguments have some form, and optional ones are not name-only.
  - `DescribableGlobals`: optional globals are not name-only.
  - `FlagOnlyRequired`: required globals have no name.
- GlobalScanner.FlagOnlyRequired: this is stronger than the source, which stops only when the scan
  actually reaches a named required global during the flag loop; the model requires the whole
  catalog to be free of them.
- The dynamic `Any` slot and the `as! T` casts in `getArgument` are replaced by the tagged `ArgValue`.
  A lookup returns that value and performs no cast.
- Arguments.ArgumentSet.GetArgument: one lookup type serves both `ParsedArguments` and
  `GlobalArguments`, so it also offers lookup by name, which `GlobalArguments` lacks.
- Integer widths assume 64-bit `Int` and `UInt`, as on Apple's 64-bit platforms.
- Strings are sequences of characters. Swift's `count` and comparisons work on grapheme clusters,
  so padding widths agree with Swift only for text in which each character is one grapheme. Token
  matching compares characters one by one, not under Swift's canonical equivalence of strings.
- ModuleParser.RequiredFlagsCommute: stated only for kinds other than `OutputFolderPath`, because a
  directory created for one value can change how the other value is coerced.
- The `.Int` coercion follows the code: after `0x` the text is read as decimal, so "0x1f" fails.
- The filesystem side of `OutputFolderPath` (a printed message on a failed creation) is reduced to
  the failure outcome.
