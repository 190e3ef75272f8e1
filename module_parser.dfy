/**
 * The module argument parser (CommandLineParser.swift, `parseArgumentsFor`): a left-to-right
 * scan of the tokens after the module name, first as a pure state machine (Step, Run,
 * ParseModule) and lemmas about it, then as the in-place procedure proved to follow it.
 */
module ModuleParser {
  import opened Wrappers
  import opened Coercion
  import opened Arguments

  /**
   * The scan's state between tokens: the value slots, `parsedRequiredArguments`,
   * `parsedOptionalArguments`, `nextIsValue`, `wasRequiredArgument`, and the filesystem.
   */
  datatype ModuleState = ModuleState(
    vals: Values,
    required: seq<CommandLineArgument>,
    optional: seq<CommandLineArgument>,
    nextIsValue: bool,
    wasRequiredArgument: bool,
    fs: FileSystem)

  function Initial(vals: Values, fs: FileSystem): ModuleState {
    ModuleState(vals, [], [], false, false, fs)
  }

  /** The scan goes on with a new state, or has exited with an outcome. */
  datatype Scan = Running(st: ModuleState) | Halted(outcome: Outcome, st: ModuleState)

  function Last<T>(s: seq<T>): T
    requires |s| > 0
  {
    s[|s| - 1]
  }

  /**
   * What holds of every state the scan reaches: parsed entries come from the module's own
   * groups, and a pending value belongs to the last entry of the group it was matched in.
   */
  predicate Shaped(m: Module, st: ModuleState) {
    (forall a :: a in st.required ==> a in m.required) &&
    (forall a :: a in st.optional ==> a in m.optional) &&
    (st.nextIsValue && st.wasRequiredArgument ==> |st.required| > 0) &&
    (st.nextIsValue && !st.wasRequiredArgument ==> |st.optional| > 0)
  }

  /** No two entries share a description: the source's notion of "the same argument". */
  predicate DistinctDescriptions(s: seq<CommandLineArgument>) {
    forall i, j :: 0 <= i < j < |s| ==> s[i].description != s[j].description
  }

  /**
   * `firstIndex(of:)` followed by `remove(at:)`: drop the first entry equal to `a`, where
   * equality compares descriptions.
   */
  function RemoveFirst(list: seq<CommandLineArgument>, a: CommandLineArgument): (r: seq<CommandLineArgument>)
    ensures forall x :: x in r ==> x in list
    ensures |r| <= |list|
    decreases |list|
  {
    if list == [] then []
    else if list[0].description == a.description then list[1..]
    else [list[0]] + RemoveFirst(list[1..], a)
  }

  /**
   * On a list without repeated descriptions, RemoveFirst keeps the descriptions distinct and
   * keeps exactly the entries whose description differs from the removed one.
   */
  lemma {:induction false} RemoveFirstDistinct(list: seq<CommandLineArgument>, a: CommandLineArgument)
    requires DistinctDescriptions(list)
    ensures var r := RemoveFirst(list, a);
            DistinctDescriptions(r) && forall x :: x in list ==> (x in r <==> x.description != a.description)
    decreases |list|
  {
    if list != [] {
      var tail := list[1..];
      assert forall j :: 0 <= j < |tail| ==> tail[j] == list[j + 1];
      if list[0].description == a.description {
        assert forall x :: x in tail ==> x.description != a.description;
      } else {
        RemoveFirstDistinct(tail, a);
        var rest := RemoveFirst(tail, a);
        assert forall x :: x in rest ==> x.description != list[0].description;
        assert list == [list[0]] + tail;
      }
    }
  }

  /** Splitting off the head commutes with cutting out the entry at `i`. */
  lemma ConsSplit(list: seq<CommandLineArgument>, i: nat)
    requires 0 < i < |list|
    ensures [list[0]] + (list[1..][..i - 1] + list[1..][i..]) == list[..i] + list[i + 1..]
  {
    var tail := list[1..];
    assert list[..i] == [list[0]] + tail[..i - 1];
    assert list[i + 1..] == tail[i..];
  }

  /**
   * `remove(at:)` keeps the order of the rest: RemoveFirst drops exactly the entry at the
   * first index `i` with `a`'s description.
   */
  lemma {:induction false} RemoveFirstAt(list: seq<CommandLineArgument>, a: CommandLineArgument, i: nat)
    requires i < |list| && list[i].description == a.description
    requires forall j :: 0 <= j < i ==> list[j].description != a.description
    ensures RemoveFirst(list, a) == list[..i] + list[i + 1..]
    decreases i
  {
    if i > 0 {
      var tail := list[1..];
      assert list[0].description != a.description;
      forall j | 0 <= j < i - 1 ensures tail[j].description != a.description {
        assert tail[j] == list[j + 1];
      }
      assert tail[i - 1] == list[i];
      RemoveFirstAt(tail, a, i - 1);
      ConsSplit(list, i);
    } else {
      assert list[..0] + list[1..] == list[1..];
    }
  }

  /** With no entry of `a`'s description, RemoveFirst changes nothing. */
  lemma {:induction false} RemoveFirstAbsent(list: seq<CommandLineArgument>, a: CommandLineArgument)
    requires forall j :: 0 <= j < |list| ==> list[j].description != a.description
    ensures RemoveFirst(list, a) == list
    decreases |list|
  {
    if list != [] {
      var tail := list[1..];
      assert forall j :: 0 <= j < |tail| ==> tail[j] == list[j + 1];
      RemoveFirstAbsent(tail, a);
      assert list == [list[0]] + tail;
    }
  }

  /** A required positional argument still waiting for its value. */
  predicate Unfilled(vals: Values, a: CommandLineArgument) {
    a.name != "" && ValueIn(vals, a).None?
  }

  function FirstUnfilled(specs: seq<CommandLineArgument>, vals: Values): (r: Option<nat>)
    ensures r.Some? ==> r.value < |specs| && Unfilled(vals, specs[r.value]) &&
                        forall j :: 0 <= j < r.value ==> !Unfilled(vals, specs[j])
    ensures r.None? ==> forall j :: 0 <= j < |specs| ==> !Unfilled(vals, specs[j])
    decreases |specs|
  {
    if specs == [] then None
    else if Unfilled(vals, specs[0]) then Some(0)
    else match FirstUnfilled(specs[1..], vals)
      case Some(k) => Some(k + 1)
      case None => None
  }

  /** A pending value: the token is coerced for the last entry of the group it belongs to. */
  function TakeValue(st: ModuleState, token: string): (r: Scan)
    requires st.nextIsValue
    requires if st.wasRequiredArgument then |st.required| > 0 else |st.optional| > 0
    ensures var argument := if st.wasRequiredArgument then Last(st.required) else Last(st.optional);
            var c := ParseInput(token, argument.kind, st.fs);
            (r.Halted? <==> c.value.None?) &&
            (r.Halted? ==> r.outcome == BadValue(argument) && r.st == st.(nextIsValue := false)) &&
            (r.Running? ==> !r.st.nextIsValue && r.st.required == st.required && r.st.optional == st.optional &&
                            Raw(r.st.vals, argument) == c.value && r.st.vals - {argument} == st.vals - {argument} &&
                            r.st.fs == c.fs)
  {
    var argument := if st.wasRequiredArgument then Last(st.required) else Last(st.optional);
    var c := ParseInput(token, argument.kind, st.fs);
    if c.value.None? then Halted(BadValue(argument), st.(nextIsValue := false))
    else Running(st.(vals := st.vals[argument := c.value], nextIsValue := false, fs := c.fs))
  }

  /** Moving an entry to the end of a list without repeated descriptions keeps it without them. */
  lemma MoveToEndDistinct(list: seq<CommandLineArgument>, a: CommandLineArgument)
    ensures DistinctDescriptions(list) ==> DistinctDescriptions(RemoveFirst(list, a) + [a])
  {
    if DistinctDescriptions(list) {
      RemoveFirstDistinct(list, a);
      var rest := RemoveFirst(list, a);
      assert forall j :: 0 <= j < |rest| ==> rest[j] in list;
      assert forall j :: 0 <= j < |rest| ==> rest[j].description != a.description;
    }
  }

  /**
   * A required flag: it moves to the end of the parsed required entries, and either awaits
   * its value or, for a Flag, is set to true.
   */
  function MatchRequired(st: ModuleState, a: CommandLineArgument): (r: ModuleState)
    requires !st.nextIsValue
    ensures |r.required| > 0 && Last(r.required) == a
    // The other parsed entries stay, in order: see RemoveFirstSubList.
    ensures r.required == RemoveFirst(st.required, a) + [a]
    ensures DistinctDescriptions(st.required) ==> DistinctDescriptions(r.required)
    ensures r.optional == st.optional && r.fs == st.fs
    ensures r.nextIsValue <==> a.kind != Flag
    ensures a.kind != Flag ==> r.wasRequiredArgument && r.vals == st.vals
    ensures a.kind == Flag ==> Raw(r.vals, a) == Some(Bool(true)) && r.vals - {a} == st.vals - {a}
  {
    MoveToEndDistinct(st.required, a);
    var parsed := RemoveFirst(st.required, a) + [a];
    if a.kind != Flag then st.(required := parsed, nextIsValue := true, wasRequiredArgument := true)
    else st.(required := parsed, vals := st.vals[a := Some(Bool(true))])
  }

  /** An optional flag: the same, in the parsed optional entries. */
  function MatchOptional(st: ModuleState, a: CommandLineArgument): (r: ModuleState)
    requires !st.nextIsValue
    ensures |r.optional| > 0 && Last(r.optional) == a
    ensures r.optional == RemoveFirst(st.optional, a) + [a]
    ensures DistinctDescriptions(st.optional) ==> DistinctDescriptions(r.optional)
    ensures r.required == st.required && r.fs == st.fs
    ensures r.nextIsValue <==> a.kind != Flag
    ensures a.kind != Flag ==> !r.wasRequiredArgument && r.vals == st.vals
    ensures a.kind == Flag ==> Raw(r.vals, a) == Some(Bool(true)) && r.vals - {a} == st.vals - {a}
  {
    MoveToEndDistinct(st.optional, a);
    var parsed := RemoveFirst(st.optional, a) + [a];
    if a.kind != Flag then st.(optional := parsed, nextIsValue := true, wasRequiredArgument := false)
    else st.(optional := parsed, vals := st.vals[a := Some(Bool(true))])
  }

  /**
   * No flag matched: the first required positional argument without a value takes the token
   * itself; with none left, the token is unknown.
   */
  function FillPositional(m: Module, st: ModuleState, token: string): (r: Scan)
    ensures r.Halted? ==> r.st == st && (r.outcome.BadValue? || r.outcome == Usage(UnknownArgument(token)))
    ensures r.Running? ==> |r.st.required| == |st.required| + 1 && r.st.required[..|st.required|] == st.required &&
                           Last(r.st.required) in m.required && Raw(r.st.vals, Last(r.st.required)).Some? &&
                           r.st.optional == st.optional && r.st.nextIsValue == st.nextIsValue &&
                           r.st.vals - {Last(r.st.required)} == st.vals - {Last(r.st.required)}
  {
    match FirstUnfilled(m.required, st.vals)
    case Some(k) =>
      var a := m.required[k];
      var c := ParseInput(token, a.kind, st.fs);
      if c.value.None? then Halted(BadValue(a), st)
      else Running(st.(vals := st.vals[a := c.value], required := st.required + [a], fs := c.fs))
    case None =>
      Halted(Usage(UnknownArgument(token)), st)
  }

  /** What one token does: pending value, then required flag, optional flag, positional. */
  function Step(m: Module, st: ModuleState, token: string): (r: Scan)
    requires Shaped(m, st)
    ensures r.Halted? ==> !r.outcome.Dispatch?
    ensures Shaped(m, r.st)
  {
    if st.nextIsValue then TakeValue(st, token)
    else
      match FirstMatch(m.required, ByFlag(token))
      case Some(k) => Running(MatchRequired(st, m.required[k]))
      case None =>
        match FirstMatch(m.optional, ByFlag(token))
        case Some(k) => Running(MatchOptional(st, m.optional[k]))
        case None => FillPositional(m, st, token)
  }

  /** The scan over a sequence of tokens; it stops at the first token that exits. */
  function Run(m: Module, st: ModuleState, tokens: seq<string>): (r: Scan)
    requires Shaped(m, st)
    ensures r.Halted? ==> !r.outcome.Dispatch?
    ensures Shaped(m, r.st)
    decreases |tokens|
  {
    if tokens == [] then Running(st)
    else
      match Step(m, st, tokens[0])
      case Running(next) => Run(m, next, tokens[1..])
      case Halted(o, last) => Halted(o, last)
  }

  /** After the last token: a pending value, or too few required entries, prints usage. */
  function Finish(m: Module, st: ModuleState): (o: Outcome)
    ensures o == Usage(MissingValue) <==> st.nextIsValue
    ensures o.Dispatch? <==> !st.nextIsValue && |st.required| == |m.required|
    ensures o.Dispatch? ==> o.selected == m && o.arguments == ArgumentSet(st.required, st.optional)
  {
    if st.nextIsValue then Usage(MissingValue)
    else if |st.required| != |m.required| then Usage(NotEnoughArguments)
    else Dispatch(m, ArgumentSet(st.required, st.optional))
  }

  /** `parseArgumentsFor` as a function of the tokens, the value slots and the filesystem. */
  function ParseModule(m: Module, tokens: seq<string>, vals: Values, fs: FileSystem): (v: Verdict)
    ensures v.outcome.Dispatch? ==> v.outcome.selected == m && |v.outcome.arguments.required| == |m.required|
  {
    match Run(m, Initial(vals, fs), tokens)
    case Running(st) => Verdict(Finish(m, st), st.vals, st.fs)
    case Halted(o, st) => Verdict(o, st.vals, st.fs)
  }

  // ---------------------------------------------------------------------------------------
  // Lemmas

  /** Parsing a module's tokens writes the value slots of that module's entries and no others. */
  lemma ParseModuleFrame(m: Module, tokens: seq<string>, vals: Values, fs: FileSystem)
    ensures ParseModule(m, tokens, vals, fs).vals - m.Specs() == vals - m.Specs()
  {
    RunFrame(m, Initial(vals, fs), tokens);
  }

  lemma StepFrame(m: Module, st: ModuleState, token: string)
    requires Shaped(m, st)
    ensures Step(m, st, token).st.vals - m.Specs() == st.vals - m.Specs()
  {
  }

  lemma {:induction false} RunFrame(m: Module, st: ModuleState, tokens: seq<string>)
    requires Shaped(m, st)
    ensures Run(m, st, tokens).st.vals - m.Specs() == st.vals - m.Specs()
    decreases |tokens|
  {
    if tokens != [] {
      StepFrame(m, st, tokens[0]);
      match Step(m, st, tokens[0])
      case Running(next) => RunFrame(m, next, tokens[1..]);
      case Halted(_, _) =>
    }
  }

  /** Running over concatenated tokens is running over the first part, then the second. */
  lemma {:induction false} RunAppend(m: Module, st: ModuleState, a: seq<string>, b: seq<string>)
    requires Shaped(m, st)
    ensures Run(m, st, a + b) == match Run(m, st, a)
                                 case Running(next) => Run(m, next, b)
                                 case Halted(o, last) => Halted(o, last)
    decreases |a|
  {
    if a == [] {
      assert a + b == b;
    } else {
      assert (a + b)[0] == a[0] && (a + b)[1..] == a[1..] + b;
      match Step(m, st, a[0])
      case Running(next) => RunAppend(m, next, a[1..], b);
      case Halted(_, _) =>
    }
  }

  /**
   * The invariant behind the dispatch condition: parsed required entries never share a
   * description, and all of them hold a value except one whose value is pending.
   */
  ghost predicate Consistent(m: Module, st: ModuleState) {
    Shaped(m, st) &&
    DistinctDescriptions(st.required) && DistinctDescriptions(st.optional) &&
    forall k :: 0 <= k < |st.required| ==>
      Raw(st.vals, st.required[k]).Some? || (st.nextIsValue && st.wasRequiredArgument && k == |st.required| - 1)
  }

  lemma SameDescriptionSameSpec(s: seq<CommandLineArgument>, x: CommandLineArgument, y: CommandLineArgument)
    requires DistinctDescriptions(s) && x in s && y in s && x.description == y.description
    ensures x == y
  {
  }

  lemma TakeValueConsistent(m: Module, st: ModuleState, token: string)
    requires Consistent(m, st) && st.nextIsValue
    ensures TakeValue(st, token).Running? ==> Consistent(m, TakeValue(st, token).st)
  {
  }

  lemma MatchRequiredConsistent(m: Module, st: ModuleState, a: CommandLineArgument)
    requires Consistent(m, st) && !st.nextIsValue && a in m.required
    ensures Consistent(m, MatchRequired(st, a))
  {
    RemoveFirstDistinct(st.required, a);
    var rest := RemoveFirst(st.required, a);
    assert forall j :: 0 <= j < |rest| ==> rest[j] in st.required;
    assert forall j :: 0 <= j < |rest| ==> rest[j].description != a.description;
  }

  lemma MatchOptionalConsistent(m: Module, st: ModuleState, a: CommandLineArgument)
    requires Consistent(m, st) && !st.nextIsValue && a in m.optional
    ensures Consistent(m, MatchOptional(st, a))
  {
  }

  lemma FillPositionalConsistent(m: Module, st: ModuleState, token: string)
    requires DistinctDescriptions(m.required) && Consistent(m, st) && !st.nextIsValue
    ensures FillPositional(m, st, token).Running? ==> Consistent(m, FillPositional(m, st, token).st)
  {
    var r := FillPositional(m, st, token);
    if r.Running? {
      var k := FirstUnfilled(m.required, st.vals).value;
      var a := m.required[k];
      assert a !in st.required;
      forall x | x in st.required ensures x.description != a.description {
        if x.description == a.description {
          SameDescriptionSameSpec(m.required, x, a);
        }
      }
      assert r.st.required == st.required + [a];
    }
  }

  lemma StepConsistent(m: Module, st: ModuleState, token: string)
    requires DistinctDescriptions(m.required) && Consistent(m, st)
    ensures Step(m, st, token).Running? ==> Consistent(m, Step(m, st, token).st)
  {
    if st.nextIsValue {
      TakeValueConsistent(m, st, token);
    } else {
      match FirstMatch(m.required, ByFlag(token))
      case Some(k) => MatchRequiredConsistent(m, st, m.required[k]);
      case None =>
        match FirstMatch(m.optional, ByFlag(token))
        case Some(k) => MatchOptionalConsistent(m, st, m.optional[k]);
        case None => FillPositionalConsistent(m, st, token);
    }
  }

  lemma {:induction false} RunConsistent(m: Module, st: ModuleState, tokens: seq<string>)
    requires DistinctDescriptions(m.required) && Consistent(m, st)
    ensures Run(m, st, tokens).Running? ==> Consistent(m, Run(m, st, tokens).st)
    decreases |tokens|
  {
    if tokens != [] {
      StepConsistent(m, st, tokens[0]);
      match Step(m, st, tokens[0])
      case Running(next) => RunConsistent(m, next, tokens[1..]);
      case Halted(_, _) =>
    }
  }

  ghost predicate Distinct<T>(s: seq<T>) {
    forall i, j :: 0 <= i < j < |s| ==> s[i] != s[j]
  }

  lemma DistinctByDescription(s: seq<CommandLineArgument>)
    requires DistinctDescriptions(s)
    ensures Distinct(s)
  {
    forall i, j | 0 <= i < j < |s| ensures s[i] != s[j] {
      assert s[i].description != s[j].description;
    }
  }

  /** Dropping position i of a duplicate-free sequence keeps every other element, once. */
  lemma RemoveAt<T>(t: seq<T>, i: nat)
    requires Distinct(t) && i < |t|
    ensures Distinct(t[..i] + t[i + 1..])
    ensures forall y :: y in t && y != t[i] ==> y in t[..i] + t[i + 1..]
    ensures multiset(t) == multiset(t[..i] + t[i + 1..]) + multiset{t[i]}
  {
    var t' := t[..i] + t[i + 1..];
    forall p, q | 0 <= p < q < |t'| ensures t'[p] != t'[q] {
      var p' := if p < i then p else p + 1;
      var q' := if q < i then q else q + 1;
      assert t'[p] == t[p'] && t'[q] == t[q'];
    }
    forall y | y in t && y != t[i] ensures y in t' {
      var b :| 0 <= b < |t| && t[b] == y;
      if b < i { assert t'[b] == y; } else { assert t'[b - 1] == y; }
    }
    assert t == t[..i] + [t[i]] + t[i + 1..];
  }

  /** Two duplicate-free sequences of equal length, one inside the other, are permutations. */
  lemma {:induction false} DistinctInclusionIsPermutation<T>(s: seq<T>, t: seq<T>)
    requires Distinct(s) && Distinct(t) && |s| == |t|
    requires forall x :: x in s ==> x in t
    ensures multiset(s) == multiset(t)
    decreases |s|
  {
    if |s| > 0 {
      var n := |s| - 1;
      var x := s[n];
      assert x in s;
      var i :| 0 <= i < |t| && t[i] == x;
      var s' := s[..n];
      var t' := t[..i] + t[i + 1..];
      RemoveAt(t, i);
      assert s == s' + [x];
      forall y | y in s' ensures y in t' {
        var a :| 0 <= a < n && s'[a] == y;
        assert s[a] == y && y in s && y != x;
      }
      DistinctInclusionIsPermutation(s', t');
    }
  }

  /**
   * The dispatch condition: when the handler is invoked, its parsed required entries are
   * exactly the declared required arguments, each once (in matching order), and each holds
   * a value.
   */
  lemma DispatchHasEveryRequiredOnce(m: Module, tokens: seq<string>, vals: Values, fs: FileSystem)
    requires DistinctDescriptions(m.required)
    requires ParseModule(m, tokens, vals, fs).outcome.Dispatch?
    ensures var v := ParseModule(m, tokens, vals, fs);
            v.outcome.selected == m &&
            multiset(v.outcome.arguments.required) == multiset(m.required) &&
            forall a :: a in v.outcome.arguments.required ==> Raw(v.vals, a).Some? && ValueIn(v.vals, a).Some?
  {
    RunConsistent(m, Initial(vals, fs), tokens);
    var r := Run(m, Initial(vals, fs), tokens);
    assert r.Running?;
    var st := r.st;
    assert !st.nextIsValue && |st.required| == |m.required|;
    assert ParseModule(m, tokens, vals, fs) == Verdict(Dispatch(m, ArgumentSet(st.required, st.optional)), st.vals, st.fs);
    DistinctByDescription(st.required);
    DistinctByDescription(m.required);
    DistinctInclusionIsPermutation(st.required, m.required);
    forall a | a in st.required ensures Raw(st.vals, a).Some? {
      var k :| 0 <= k < |st.required| && st.required[k] == a;
    }
  }

  /** Moving an entry to the end twice is moving it once: the second move finds it last. */
  lemma MoveToEndTwice(list: seq<CommandLineArgument>, a: CommandLineArgument)
    requires DistinctDescriptions(list)
    ensures RemoveFirst(RemoveFirst(list, a) + [a], a) == RemoveFirst(list, a)
  {
    RemoveFirstDistinct(list, a);
    var rest := RemoveFirst(list, a);
    var moved := rest + [a];
    assert forall j :: 0 <= j < |rest| ==> rest[j] in list;
    assert forall j :: 0 <= j < |rest| ==> moved[j] == rest[j] && rest[j].description != a.description;
    RemoveFirstAt(moved, a, |rest|);
    assert moved[..|rest|] == rest && moved[|rest| + 1..] == [];
  }

  /**
   * Last occurrence wins: a required value flag given twice in a row leaves one entry for it,
   * at the end, holding the second value; the other entries stay as they were, in order.
   */
  lemma RepeatedFlagKeepsLast(m: Module, st: ModuleState, token: string, k: nat, x: string, y: string)
    requires Shaped(m, st) && DistinctDescriptions(st.required) && !st.nextIsValue
    requires FirstMatch(m.required, ByFlag(token)) == Some(k)
    requires m.required[k].kind != Flag
    requires ParseInput(x, m.required[k].kind, st.fs).value.Some?
    requires ParseInput(y, m.required[k].kind, ParseInput(x, m.required[k].kind, st.fs).fs).value.Some?
    ensures var a := m.required[k];
            var c := ParseInput(y, a.kind, ParseInput(x, a.kind, st.fs).fs);
            Run(m, st, [token, x, token, y]) ==
              Running(st.(vals := st.vals[a := c.value], required := RemoveFirst(st.required, a) + [a],
                          wasRequiredArgument := true, fs := c.fs))
  {
    var a := m.required[k];
    var c1 := ParseInput(x, a.kind, st.fs);
    var s2 := st.(vals := st.vals[a := c1.value], required := RemoveFirst(st.required, a) + [a],
                  wasRequiredArgument := true, fs := c1.fs);
    RequiredFlagWithValue(m, st, token, k, x);
    assert Run(m, st, [token, x]) == Running(s2);
    var c2 := ParseInput(y, a.kind, c1.fs);
    RequiredFlagWithValue(m, s2, token, k, y);
    MoveToEndTwice(st.required, a);
    UpdateTwice(st.vals, a, c1.value, c2.value);
    assert Run(m, s2, [token, y]) ==
           Running(st.(vals := st.vals[a := c2.value], required := RemoveFirst(st.required, a) + [a],
                       wasRequiredArgument := true, fs := c2.fs));
    RunAppend(m, st, [token, x], [token, y]);
    assert [token, x] + [token, y] == [token, x, token, y];
  }

  /** A required value flag followed by its value: one entry moved to the end, one slot written. */
  lemma RequiredFlagWithValue(m: Module, st: ModuleState, token: string, k: nat, x: string)
    requires Shaped(m, st) && !st.nextIsValue
    requires FirstMatch(m.required, ByFlag(token)) == Some(k)
    requires m.required[k].kind != Flag
    requires ParseInput(x, m.required[k].kind, st.fs).value.Some?
    ensures var a := m.required[k];
            var c := ParseInput(x, a.kind, st.fs);
            Run(m, st, [token, x]) ==
              Running(st.(vals := st.vals[a := c.value], required := RemoveFirst(st.required, a) + [a],
                          wasRequiredArgument := true, fs := c.fs))
  {
    var a := m.required[k];
    var s1 := MatchRequired(st, a);
    assert Step(m, st, token) == Running(s1);
    assert [token, x][1..] == [x];
    var c := ParseInput(x, a.kind, st.fs);
    var s2 := s1.(vals := s1.vals[a := c.value], nextIsValue := false, fs := c.fs);
    assert Step(m, s1, x) == TakeValue(s1, x) == Running(s2);
    assert Run(m, s1, [x]) == Running(s2);
  }

  /** An optional value flag followed by its value: the same, in the parsed optional entries. */
  lemma OptionalFlagWithValue(m: Module, st: ModuleState, token: string, k: nat, x: string)
    requires Shaped(m, st) && !st.nextIsValue
    requires FirstMatch(m.required, ByFlag(token)).None? && FirstMatch(m.optional, ByFlag(token)) == Some(k)
    requires m.optional[k].kind != Flag
    requires ParseInput(x, m.optional[k].kind, st.fs).value.Some?
    ensures var a := m.optional[k];
            var c := ParseInput(x, a.kind, st.fs);
            Run(m, st, [token, x]) ==
              Running(st.(vals := st.vals[a := c.value], optional := RemoveFirst(st.optional, a) + [a],
                          wasRequiredArgument := false, fs := c.fs))
  {
    var a := m.optional[k];
    var s1 := MatchOptional(st, a);
    assert Step(m, st, token) == Running(s1);
    assert [token, x][1..] == [x];
    var c := ParseInput(x, a.kind, st.fs);
    var s2 := s1.(vals := s1.vals[a := c.value], nextIsValue := false, fs := c.fs);
    assert Step(m, s1, x) == TakeValue(s1, x) == Running(s2);
    assert Run(m, s1, [x]) == Running(s2);
  }

  /**
   * Last occurrence wins for optional flags too: one entry, at the end of the optional
   * entries, holding the second value; the other entries stay as they were, in order.
   */
  lemma RepeatedOptionalFlagKeepsLast(m: Module, st: ModuleState, token: string, k: nat, x: string, y: string)
    requires Shaped(m, st) && DistinctDescriptions(st.optional) && !st.nextIsValue
    requires FirstMatch(m.required, ByFlag(token)).None? && FirstMatch(m.optional, ByFlag(token)) == Some(k)
    requires m.optional[k].kind != Flag
    requires ParseInput(x, m.optional[k].kind, st.fs).value.Some?
    requires ParseInput(y, m.optional[k].kind, ParseInput(x, m.optional[k].kind, st.fs).fs).value.Some?
    ensures var a := m.optional[k];
            var c := ParseInput(y, a.kind, ParseInput(x, a.kind, st.fs).fs);
            Run(m, st, [token, x, token, y]) ==
              Running(st.(vals := st.vals[a := c.value], optional := RemoveFirst(st.optional, a) + [a],
                          wasRequiredArgument := false, fs := c.fs))
  {
    var a := m.optional[k];
    var c1 := ParseInput(x, a.kind, st.fs);
    var s2 := st.(vals := st.vals[a := c1.value], optional := RemoveFirst(st.optional, a) + [a],
                  wasRequiredArgument := false, fs := c1.fs);
    OptionalFlagWithValue(m, st, token, k, x);
    assert Run(m, st, [token, x]) == Running(s2);
    var c2 := ParseInput(y, a.kind, c1.fs);
    OptionalFlagWithValue(m, s2, token, k, y);
    MoveToEndTwice(st.optional, a);
    UpdateTwice(st.vals, a, c1.value, c2.value);
    assert Run(m, s2, [token, y]) ==
           Running(st.(vals := st.vals[a := c2.value], optional := RemoveFirst(st.optional, a) + [a],
                       wasRequiredArgument := false, fs := c2.fs));
    RunAppend(m, st, [token, x], [token, y]);
    assert [token, x] + [token, y] == [token, x, token, y];
  }

  /**
   * A pending value is coerced for the entry that awaited it: a failed coercion exits naming
   * that entry, a successful one fills its slot alone.
   */
  lemma PendingValueTaken(m: Module, st: ModuleState, token: string)
    requires Shaped(m, st) && st.nextIsValue
    ensures var argument := if st.wasRequiredArgument then Last(st.required) else Last(st.optional);
            var c := ParseInput(token, argument.kind, st.fs);
            var r := Step(m, st, token);
            (c.value.None? ==> r == Halted(BadValue(argument), st.(nextIsValue := false))) &&
            (c.value.Some? ==> r.Running? && r.st.vals == st.vals[argument := c.value] &&
                               r.st == st.(vals := r.st.vals, nextIsValue := false, fs := c.fs))
  {
  }

  /** The index of the first entry sharing `a`'s description, if any. */
  function FirstWithDescription(list: seq<CommandLineArgument>, a: CommandLineArgument): (r: Option<nat>)
    ensures r.None? ==> forall j :: 0 <= j < |list| ==> list[j].description != a.description
    ensures r.Some? ==> r.value < |list| && list[r.value].description == a.description &&
                        forall j :: 0 <= j < r.value ==> list[j].description != a.description
    decreases |list|
  {
    if list == [] then None
    else if list[0].description == a.description then Some(0)
    else
      match FirstWithDescription(list[1..], a)
      case Some(k) => Some(k + 1)
      case None => None
  }

  /**
   * RemoveFirst is `remove(at:)` at the first index holding `a`'s description, or nothing
   * when there is none: the remaining entries keep their order.
   */
  lemma RemoveFirstSubList(list: seq<CommandLineArgument>, a: CommandLineArgument)
    ensures var r := RemoveFirst(list, a);
            r == list ||
            exists i :: 0 <= i < |list| && list[i].description == a.description &&
                        (forall j :: 0 <= j < i ==> list[j].description != a.description) &&
                        r == list[..i] + list[i + 1..]
  {
    match FirstWithDescription(list, a)
    case None => RemoveFirstAbsent(list, a);
    case Some(i) => RemoveFirstAt(list, a, i);
  }

  /** When the only entry with `a`'s description is `a` itself, RemoveFirst removes one copy of `a`. */
  lemma {:induction false} RemoveFirstMultiset(list: seq<CommandLineArgument>, a: CommandLineArgument)
    requires forall x :: x in list && x.description == a.description ==> x == a
    ensures multiset(RemoveFirst(list, a)) == multiset(list) - multiset{a}
    decreases |list|
  {
    if list != [] {
      assert list == [list[0]] + list[1..];
      RemoveFirstMultiset(list[1..], a);
    }
  }

  /** RemoveFirst on entries of a module without repeated descriptions removes one copy of `a`. */
  lemma SameSpecMultiset(m: Module, list: seq<CommandLineArgument>, a: CommandLineArgument)
    requires DistinctDescriptions(m.required) && a in m.required
    requires forall x :: x in list ==> x in m.required
    ensures multiset(RemoveFirst(list, a)) == multiset(list) - multiset{a}
  {
    forall x | x in list && x.description == a.description ensures x == a {
      SameDescriptionSameSpec(m.required, x, a);
    }
    RemoveFirstMultiset(list, a);
  }

  /** Filling a value slot twice leaves the second value. */
  lemma UpdateTwice(vals: Values, a: CommandLineArgument, x1: Option<ArgValue>, x2: Option<ArgValue>)
    ensures vals[a := x1][a := x2] == vals[a := x2]
  {
  }

  /** Filling two different value slots gives the same slots in either order. */
  lemma UpdatesCommute(vals: Values, a1: CommandLineArgument, x1: Option<ArgValue>,
                       a2: CommandLineArgument, x2: Option<ArgValue>)
    requires a1 != a2
    ensures vals[a1 := x1][a2 := x2] == vals[a2 := x2][a1 := x1]
  {
  }

  /** Moving two entries to the end, in either order, keeps the same entries. */
  lemma MovedTwiceMultiset(m: Module, list: seq<CommandLineArgument>, a1: CommandLineArgument,
                           a2: CommandLineArgument)
    requires DistinctDescriptions(m.required) && a1 in m.required && a2 in m.required
    requires forall x :: x in list ==> x in m.required
    ensures multiset(RemoveFirst(RemoveFirst(list, a1) + [a1], a2) + [a2]) ==
            multiset(RemoveFirst(RemoveFirst(list, a2) + [a2], a1) + [a1])
  {
    SameSpecMultiset(m, list, a1);
    SameSpecMultiset(m, RemoveFirst(list, a1) + [a1], a2);
    SameSpecMultiset(m, list, a2);
    SameSpecMultiset(m, RemoveFirst(list, a2) + [a2], a1);
    var M := multiset(list);
    assert multiset(RemoveFirst(RemoveFirst(list, a1) + [a1], a2) + [a2]) ==
           (((M - multiset{a1}) + multiset{a1}) - multiset{a2}) + multiset{a2};
    assert multiset(RemoveFirst(RemoveFirst(list, a2) + [a2], a1) + [a1]) ==
           (((M - multiset{a2}) + multiset{a2}) - multiset{a1}) + multiset{a1};
    MovesCommute(M, a1, a2);
  }

  /** Taking out one copy and putting it back, for two elements, in either order. */
  lemma MovesCommute(M: multiset<CommandLineArgument>, a1: CommandLineArgument, a2: CommandLineArgument)
    ensures (((M - multiset{a1}) + multiset{a1}) - multiset{a2}) + multiset{a2} ==
            (((M - multiset{a2}) + multiset{a2}) - multiset{a1}) + multiset{a1}
  {
  }

  /** Two required value flags with their values: each entry moved to the end in turn. */
  lemma TwoRequiredFlags(m: Module, st: ModuleState, t1: string, k1: nat, v1: string,
                         t2: string, k2: nat, v2: string)
    requires Shaped(m, st) && !st.nextIsValue
    requires FirstMatch(m.required, ByFlag(t1)) == Some(k1) && FirstMatch(m.required, ByFlag(t2)) == Some(k2)
    requires m.required[k1].kind != Flag && m.required[k2].kind != Flag
    requires ParseInput(v1, m.required[k1].kind, st.fs).value.Some?
    requires ParseInput(v2, m.required[k2].kind, ParseInput(v1, m.required[k1].kind, st.fs).fs).value.Some?
    ensures var a1, a2 := m.required[k1], m.required[k2];
            var c1 := ParseInput(v1, a1.kind, st.fs);
            var c2 := ParseInput(v2, a2.kind, c1.fs);
            Run(m, st, [t1, v1, t2, v2]) ==
              Running(st.(vals := st.vals[a1 := c1.value][a2 := c2.value],
                          required := RemoveFirst(RemoveFirst(st.required, a1) + [a1], a2) + [a2],
                          wasRequiredArgument := true, fs := c2.fs))
  {
    var a1, a2 := m.required[k1], m.required[k2];
    var c1 := ParseInput(v1, a1.kind, st.fs);
    var s1 := st.(vals := st.vals[a1 := c1.value], required := RemoveFirst(st.required, a1) + [a1],
                  wasRequiredArgument := true, fs := c1.fs);
    RequiredFlagWithValue(m, st, t1, k1, v1);
    assert Run(m, st, [t1, v1]) == Running(s1);
    RequiredFlagWithValue(m, s1, t2, k2, v2);
    RunAppend(m, st, [t1, v1], [t2, v2]);
    assert [t1, v1] + [t2, v2] == [t1, v1, t2, v2];
  }

  /**
   * Two different required value flags, each with its value, can be given in either order:
   * the value slots, the filesystem, the optional entries and the parsed required entries (as
   * a multiset) come out the same. The values must not create directories, since a created
   * directory can change how a later path is coerced.
   */
  lemma RequiredFlagsCommute(m: Module, st: ModuleState, t1: string, k1: nat, v1: string,
                             t2: string, k2: nat, v2: string)
    requires DistinctDescriptions(m.required) && Shaped(m, st) && !st.nextIsValue
    requires FirstMatch(m.required, ByFlag(t1)) == Some(k1) && FirstMatch(m.required, ByFlag(t2)) == Some(k2)
    requires k1 != k2
    requires m.required[k1].kind != Flag && m.required[k1].kind != OutputFolderPath
    requires m.required[k2].kind != Flag && m.required[k2].kind != OutputFolderPath
    requires ParseInput(v1, m.required[k1].kind, st.fs).value.Some?
    requires ParseInput(v2, m.required[k2].kind, st.fs).value.Some?
    ensures var r := Run(m, st, [t1, v1, t2, v2]);
            var r' := Run(m, st, [t2, v2, t1, v1]);
            r.Running? && r'.Running? &&
            r.st.vals == r'.st.vals && r.st.fs == r'.st.fs && r.st.optional == r'.st.optional &&
            !r.st.nextIsValue && !r'.st.nextIsValue &&
            multiset(r.st.required) == multiset(r'.st.required)
  {
    var a1, a2 := m.required[k1], m.required[k2];
    assert a1.description != a2.description;
    var c1, c2 := ParseInput(v1, a1.kind, st.fs), ParseInput(v2, a2.kind, st.fs);
    var e := st.(vals := st.vals[a1 := c1.value][a2 := c2.value],
                 required := RemoveFirst(RemoveFirst(st.required, a1) + [a1], a2) + [a2],
                 wasRequiredArgument := true, fs := c2.fs);
    var e' := st.(vals := st.vals[a2 := c2.value][a1 := c1.value],
                  required := RemoveFirst(RemoveFirst(st.required, a2) + [a2], a1) + [a1],
                  wasRequiredArgument := true, fs := c1.fs);
    TwoRequiredFlags(m, st, t1, k1, v1, t2, k2, v2);
    assert Run(m, st, [t1, v1, t2, v2]) == Running(e);
    TwoRequiredFlags(m, st, t2, k2, v2, t1, k1, v1);
    assert Run(m, st, [t2, v2, t1, v1]) == Running(e');
    UpdatesCommute(st.vals, a1, c1.value, a2, c2.value);
    MovedTwiceMultiset(m, st.required, a1, a2);
  }


  /**
   * Flags come first: a token equal to a required or optional flag form is never taken as a
   * positional value. It coerces nothing, leaves the filesystem alone, and changes no value
   * slot other than that of the matched flag.
   */
  lemma FlagsTakePrecedence(m: Module, st: ModuleState, token: string)
    requires Shaped(m, st) && !st.nextIsValue
    requires FirstMatch(m.required, ByFlag(token)).Some? || FirstMatch(m.optional, ByFlag(token)).Some?
    ensures var r := Step(m, st, token);
            r.Running? && r.st.fs == st.fs &&
            forall b :: !Matches(b, ByFlag(token)) ==> Raw(r.st.vals, b) == Raw(st.vals, b)
    // Required flags are searched first; the matched spec is taken as MatchRequired or
    // MatchOptional takes it (a Flag set to true, any other kind awaiting its value).
    ensures FirstMatch(m.required, ByFlag(token)).Some? ==>
              Step(m, st, token) == Running(MatchRequired(st, m.required[FirstMatch(m.required, ByFlag(token)).value]))
    ensures FirstMatch(m.required, ByFlag(token)).None? ==>
              Step(m, st, token) == Running(MatchOptional(st, m.optional[FirstMatch(m.optional, ByFlag(token)).value]))
  {
  }

  /**
   * Without a flag match, the token goes to the first required positional argument (in
   * declaration order) that has no value, coerced from the token itself; if its coercion
   * fails the scan exits.
   */
  lemma PositionalFillsFirstUnfilled(m: Module, st: ModuleState, token: string, k: nat)
    requires Shaped(m, st) && !st.nextIsValue
    requires FirstMatch(m.required, ByFlag(token)).None? && FirstMatch(m.optional, ByFlag(token)).None?
    requires k < |m.required| && Unfilled(st.vals, m.required[k])
    requires forall j :: 0 <= j < k ==> !Unfilled(st.vals, m.required[j])
    ensures var a := m.required[k];
            var c := ParseInput(token, a.kind, st.fs);
            var r := Step(m, st, token);
            (r.Running? <==> c.value.Some?) &&
            (r.Halted? ==> r.outcome == BadValue(a)) &&
            (r.Running? ==> r.st.required == st.required + [a] && Raw(r.st.vals, a) == c.value && r.st.fs == c.fs &&
                            r.st.vals - {a} == st.vals - {a} && r.st.optional == st.optional)
  {
    assert FirstUnfilled(m.required, st.vals) == Some(k);
  }

  /**
   * A token that matches no flag while no positional argument is waiting ends the parse with
   * usage, before any handler runs.
   */
  lemma UnknownTokenShowsUsage(m: Module, tokens: seq<string>, i: nat, vals: Values, fs: FileSystem)
    requires i < |tokens|
    requires Run(m, Initial(vals, fs), tokens[..i]).Running?
    requires var st := Run(m, Initial(vals, fs), tokens[..i]).st;
             !st.nextIsValue &&
             FirstMatch(m.required, ByFlag(tokens[i])).None? &&
             FirstMatch(m.optional, ByFlag(tokens[i])).None? &&
             forall a :: a in m.required ==> !Unfilled(st.vals, a)
    ensures ParseModule(m, tokens, vals, fs).outcome == Usage(UnknownArgument(tokens[i]))
  {
    var st := Run(m, Initial(vals, fs), tokens[..i]).st;
    assert tokens == tokens[..i] + tokens[i..];
    RunAppend(m, Initial(vals, fs), tokens[..i], tokens[i..]);
    assert FirstUnfilled(m.required, st.vals).None?;
    assert Step(m, st, tokens[i]) == Halted(Usage(UnknownArgument(tokens[i])), st);
  }

  /**
   * The empty token equals the missing short or long form of a spec, so it matches the first
   * required spec lacking one as if it were that spec's flag.
   */
  lemma EmptyTokenMatchesMissingForm(m: Module, st: ModuleState, k: nat)
    requires Shaped(m, st) && !st.nextIsValue
    requires k < |m.required| && (m.required[k].shortVersion == "" || m.required[k].longVersion == "")
    requires forall j :: 0 <= j < k ==> m.required[j].shortVersion != "" && m.required[j].longVersion != ""
    ensures var r := Step(m, st, "");
            r.Running? && |r.st.required| > 0 && Last(r.st.required) == m.required[k] &&
            r.st.nextIsValue == (m.required[k].kind != Flag)
  {
    assert FirstMatch(m.required, ByFlag("")) == Some(k);
  }

  // ---------------------------------------------------------------------------------------
  // The in-place procedure

  lemma RunStepsOnce(m: Module, st: ModuleState, tokens: seq<string>, next: ModuleState)
    requires Shaped(m, st) && tokens != [] && Step(m, st, tokens[0]) == Running(next)
    ensures Run(m, st, tokens) == Run(m, next, tokens[1..])
  {
  }

  lemma FinishedRun(m: Module, tokens: seq<string>, vals: Values, fs: FileSystem, st: ModuleState,
                    outcome: Outcome)
    requires Shaped(m, st) && Run(m, st, []) == Run(m, Initial(vals, fs), tokens)
    requires outcome == Finish(m, st)
    ensures ParseModule(m, tokens, vals, fs) == Verdict(outcome, st.vals, st.fs)
  {
  }

  lemma RunHalts(m: Module, st: ModuleState, tokens: seq<string>, o: Outcome, last: ModuleState)
    requires Shaped(m, st) && tokens != [] && Step(m, st, tokens[0]) == Halted(o, last)
    ensures Run(m, st, tokens) == Halted(o, last)
  {
  }

  /** The positional loop: the first required spec with a name and no value. */
  method FindUnfilled(specs: seq<CommandLineArgument>, ghost vals: Values) returns (index: Option<nat>)
    requires forall a :: a in specs ==> a.rawValue == Raw(vals, a)
    ensures index == FirstUnfilled(specs, vals)
  {
    var j := 0;
    while j < |specs|
      invariant j <= |specs|
      invariant forall i :: 0 <= i < j ==> !Unfilled(vals, specs[i])
    {
      if specs[j].name != "" {
        if specs[j].Value() == None {
          return Some(j);
        }
      }
      j := j + 1;
    }
    return None;
  }

  /** The token after a value-taking flag: coerce it into the flag's slot. */
  method TakePendingValue(m: Module, arg: string, required: seq<CommandLineArgument>,
                          optional: seq<CommandLineArgument>, wasRequired: bool, fs: FileSystem,
                          ghost vals: Values)
    returns (halt: Option<Outcome>, fs': FileSystem, ghost vals': Values)
    requires Shaped(m, ModuleState(vals, required, optional, true, wasRequired, fs))
    requires forall a :: a in m.Specs() ==> a.rawValue == Raw(vals, a)
    modifies m.Specs()
    ensures forall a :: a in m.Specs() ==> a.rawValue == Raw(vals', a)
    ensures var st := ModuleState(vals, required, optional, true, wasRequired, fs);
            match halt
            case Some(o) => Step(m, st, arg) == Halted(o, st.(nextIsValue := false)) && vals' == vals && fs' == fs
            case None => Step(m, st, arg) == Running(ModuleState(vals', required, optional, false, wasRequired, fs'))
  {
    ghost var st := ModuleState(vals, required, optional, true, wasRequired, fs);
    assert Step(m, st, arg) == TakeValue(st, arg);
    var argument := if wasRequired then Last(required) else Last(optional);
    var c := ParseInput(arg, argument.kind, fs);
    if c.value.None? {
      return Some(BadValue(argument)), fs, vals;
    }
    argument.SetValue(c.value);
    return None, c.fs, vals[argument := c.value];
  }

  /**
   * One token met while no value is pending: a required flag, an optional flag, or the
   * next unfilled positional. `halt` carries the outcome when the token stops the parse.
   */
  method MatchToken(m: Module, arg: string, required: seq<CommandLineArgument>,
                    optional: seq<CommandLineArgument>, wasRequired: bool, fs: FileSystem,
                    ghost vals: Values)
    returns (halt: Option<Outcome>, required': seq<CommandLineArgument>,
             optional': seq<CommandLineArgument>, nextIsValue: bool, wasRequired': bool,
             fs': FileSystem, ghost vals': Values)
    requires Shaped(m, ModuleState(vals, required, optional, false, wasRequired, fs))
    requires forall a :: a in m.Specs() ==> a.rawValue == Raw(vals, a)
    modifies m.Specs()
    ensures forall a :: a in m.Specs() ==> a.rawValue == Raw(vals', a)
    ensures var st := ModuleState(vals, required, optional, false, wasRequired, fs);
            match halt
            case Some(o) => Step(m, st, arg) == Halted(o, st) && vals' == vals && fs' == fs
            case None => Step(m, st, arg) == Running(ModuleState(vals', required', optional', nextIsValue, wasRequired', fs'))
  {
    ghost var st := ModuleState(vals, required, optional, false, wasRequired, fs);
    halt, required', optional', nextIsValue, wasRequired', fs', vals' := None, required, optional, false, wasRequired, fs, vals;
    var k := MatchFlag(m.required, arg);
    if k.Some? {
      var a := m.required[k.value];
      required' := RemoveFirst(required, a) + [a];
      if a.kind != Flag {
        nextIsValue, wasRequired' := true, true;
      } else {
        a.SetValue(Some(Bool(true)));
        vals' := vals[a := Some(Bool(true))];
      }
      assert Step(m, st, arg) == Running(MatchRequired(st, a));
      return;
    }
    k := MatchFlag(m.optional, arg);
    if k.Some? {
      var a := m.optional[k.value];
      optional' := RemoveFirst(optional, a) + [a];
      if a.kind != Flag {
        nextIsValue, wasRequired' := true, false;
      } else {
        a.SetValue(Some(Bool(true)));
        vals' := vals[a := Some(Bool(true))];
      }
      assert Step(m, st, arg) == Running(MatchOptional(st, a));
      return;
    }
    assert Step(m, st, arg) == FillPositional(m, st, arg);
    k := FindUnfilled(m.required, vals);
    if k.None? {
      return Some(Usage(UnknownArgument(arg))), required, optional, false, wasRequired, fs, vals;
    }
    var a := m.required[k.value];
    var c := ParseInput(arg, a.kind, fs);
    if c.value.None? {
      return Some(BadValue(a)), required, optional, false, wasRequired, fs, vals;
    }
    a.SetValue(c.value);
    vals' := vals[a := c.value];
    fs' := c.fs;
    required' := required + [a];
  }

  /** The checks after the last token: no value left pending, every required entry parsed. */
  method Conclude(m: Module, required: seq<CommandLineArgument>, optional: seq<CommandLineArgument>,
                  nextIsValue: bool) returns (outcome: Outcome)
    ensures forall vals, fs, wasRequired ::
              outcome == Finish(m, ModuleState(vals, required, optional, nextIsValue, wasRequired, fs))
  {
    if nextIsValue {
      return Usage(MissingValue);
    }
    if |required| != |m.required| {
      return Usage(NotEnoughArguments);
    }
    return Dispatch(m, ArgumentSet(required, optional));
  }

  /** One token of the scan, in place: the body of the source's loop. */
  method ParseToken(m: Module, arg: string, required: seq<CommandLineArgument>,
                    optional: seq<CommandLineArgument>, nextIsValue: bool, wasRequired: bool,
                    fs: FileSystem, ghost vals: Values)
    returns (halt: Option<Outcome>, required': seq<CommandLineArgument>,
             optional': seq<CommandLineArgument>, nextIsValue': bool, wasRequired': bool,
             fs': FileSystem, ghost vals': Values)
    requires Shaped(m, ModuleState(vals, required, optional, nextIsValue, wasRequired, fs))
    requires forall a :: a in m.Specs() ==> a.rawValue == Raw(vals, a)
    modifies m.Specs()
    ensures forall a :: a in m.Specs() ==> a.rawValue == Raw(vals', a)
    ensures var st := ModuleState(vals, required, optional, nextIsValue, wasRequired, fs);
            var next := ModuleState(vals', required', optional', nextIsValue', wasRequired', fs');
            Step(m, st, arg) == match halt case Some(o) => Halted(o, next) case None => Running(next)
  {
    if nextIsValue {
      halt, fs', vals' := TakePendingValue(m, arg, required, optional, wasRequired, fs, vals);
      required', optional', nextIsValue', wasRequired' := required, optional, false, wasRequired;
    } else {
      halt, required', optional', nextIsValue', wasRequired', fs', vals' :=
        MatchToken(m, arg, required, optional, wasRequired, fs, vals);
      if halt.Some? {
        required', optional', nextIsValue', wasRequired' := required, optional, false, wasRequired;
      }
    }
  }

  /**
   * `parseArgumentsFor`: scans the tokens after the module name, writing each matched spec's
   * value slot in place. Its outcome, its final slots and its filesystem are those of
   * ParseModule started from the slots it found.
   */
  method ParseArgumentsFor(m: Module, tokens: seq<string>, fs0: FileSystem, ghost vals0: Values)
    returns (outcome: Outcome, fs: FileSystem, ghost vals: Values)
    requires forall a :: a in m.Specs() ==> a.rawValue == Raw(vals0, a)
    modifies m.Specs()
    ensures ParseModule(m, tokens, vals0, fs0) == Verdict(outcome, vals, fs)
    ensures forall a :: a in m.Specs() ==> a.rawValue == Raw(vals, a)
  {
    var parsedRequiredArguments: seq<CommandLineArgument> := [];
    var parsedOptionalArguments: seq<CommandLineArgument> := [];
    var nextIsValue := false;
    var wasRequiredArgument := false;
    fs, vals := fs0, vals0;
    var i := 0;
    while i < |tokens|
      invariant i <= |tokens|
      invariant var st := ModuleState(vals, parsedRequiredArguments, parsedOptionalArguments,
                                      nextIsValue, wasRequiredArgument, fs);
                Shaped(m, st) && Run(m, st, tokens[i..]) == Run(m, Initial(vals0, fs0), tokens)
      invariant forall a :: a in m.Specs() ==> a.rawValue == Raw(vals, a)
    {
      ghost var st := ModuleState(vals, parsedRequiredArguments, parsedOptionalArguments,
                                  nextIsValue, wasRequiredArgument, fs);
      var arg := tokens[i];
      assert tokens[i..][0] == arg && tokens[i..][1..] == tokens[i + 1..];
      var halt;
      halt, parsedRequiredArguments, parsedOptionalArguments, nextIsValue, wasRequiredArgument, fs, vals :=
        ParseToken(m, arg, parsedRequiredArguments, parsedOptionalArguments, nextIsValue,
                   wasRequiredArgument, fs, vals);
      ghost var next := ModuleState(vals, parsedRequiredArguments, parsedOptionalArguments,
                                    nextIsValue, wasRequiredArgument, fs);
      if halt.Some? {
        RunHalts(m, st, tokens[i..], halt.value, next);
        return halt.value, fs, vals;
      }
      RunStepsOnce(m, st, tokens[i..], next);
      i := i + 1;
    }
    assert tokens[i..] == [];
    outcome := Conclude(m, parsedRequiredArguments, parsedOptionalArguments, nextIsValue);
    FinishedRun(m, tokens, vals0, fs0, ModuleState(vals, parsedRequiredArguments, parsedOptionalArguments,
                                                   nextIsValue, wasRequiredArgument, fs), outcome);
  }
}
