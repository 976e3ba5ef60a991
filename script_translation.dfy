/** Translation of a script into the instruction strings given to the agent
    (`_action_to_task` and `script_to_tasks`), with `${name}` substitution. */
module ScriptTranslation {
  import opened Wrappers
  import opened Format
  import opened Strings
  import opened Browser

  // ---------------------------------------------------------------------------------------------
  // Variable substitution

  /** The placeholder written for variable `name`. */
  function Placeholder(name: string): (p: string)
    ensures |p| == |name| + 3
  {
    "${" + name + "}"
  }

  /** The variables a script supplies: none when the dictionary is absent. */
  function VariablesOf(script: AutomationScript): seq<(string, string)>
  {
    script.variables.GetOr([])
  }

  /** Replace the placeholder of each variable in turn, in dictionary order; a later variable's
      replacement sees the text produced by the earlier ones. */
  function SubstituteAll(v: string, vars: seq<(string, string)>): string
    decreases |vars|
  {
    if vars == [] then v
    else SubstituteAll(Replace(v, Placeholder(vars[0].0), vars[0].1), vars[1..])
  }

  /** The action after substitution: only a present, non-empty `value` is rewritten. */
  function SubstituteAction(a: BrowserAction, vars: seq<(string, string)>): (r: BrowserAction)
    ensures r == a.(value := r.value)
    ensures a.value.None? || a.value == Some("") ==> r == a
    ensures a.value.Some? && a.value != Some("") ==> r.value == Some(SubstituteAll(a.value.value, vars))
  {
    if a.value.Some? && a.value.value != "" then a.(value := Some(SubstituteAll(a.value.value, vars))) else a
  }

  function SubstituteStep(step: ScriptStep, vars: seq<(string, string)>): ScriptStep
  {
    step.(actions := seq(|step.actions|, k requires 0 <= k < |step.actions| => SubstituteAction(step.actions[k], vars)))
  }

  /** The script as `script_to_tasks` leaves it: every action's value rewritten in place. */
  function SubstituteScript(script: AutomationScript): AutomationScript
  {
    script.(steps := seq(|script.steps|, k requires 0 <= k < |script.steps| =>
      SubstituteStep(script.steps[k], VariablesOf(script))))
  }

  /** A value that mentions no variable's placeholder comes out of substitution unchanged; in
      particular an unknown `${name}` is left verbatim, and so is everything when there are no variables. */
  lemma {:induction false} SubstituteWithoutPlaceholders(v: string, vars: seq<(string, string)>)
    requires forall k :: 0 <= k < |vars| ==> !Contains(v, Placeholder(vars[k].0))
    ensures SubstituteAll(v, vars) == v
    decreases |vars|
  {
    if vars != [] {
      ReplaceAbsent(v, Placeholder(vars[0].0), vars[0].1);
      assert forall k :: 0 <= k < |vars[1..]| ==> vars[1..][k] == vars[k + 1];
      SubstituteWithoutPlaceholders(v, vars[1..]);
    }
  }

  /** A variable name without `$`, `{` or `}`, so its placeholder cannot overlap another one. */
  predicate PlainName(name: string)
  {
    forall k :: 0 <= k < |name| ==> name[k] != '$' && name[k] != '{' && name[k] != '}'
  }

  lemma PlaceholderAt(name: string, x: nat)
    ensures x < |name| + 3 ==>
      Placeholder(name)[x] == if x == 0 then '$' else if x == 1 then '{' else if x < |name| + 2 then name[x - 2] else '}'
  {
  }

  /** Distinct names have distinct placeholders. */
  lemma PlaceholderInjective(n: string, k: string)
    ensures Placeholder(n) == Placeholder(k) ==> n == k
  {
    if Placeholder(n) == Placeholder(k) {
      assert n == Placeholder(n)[2..|n| + 2] && k == Placeholder(k)[2..|k| + 2];
    }
  }

  /** Two occurrences of the placeholders of distinct plain names never overlap. */
  lemma PlaceholdersApart(s: string, n: string, k: string, i: nat, j: nat)
    requires PlainName(n) && PlainName(k) && n != k
    requires OccursAt(s, Placeholder(n), i) && OccursAt(s, Placeholder(k), j)
    ensures j + |k| + 3 <= i || i + |n| + 3 <= j
  {
    if j < i {
      OccursChar(s, Placeholder(n), i, 0);
      OccursChar(s, Placeholder(k), j, i - j);
      PlaceholderAt(n, 0);
      PlaceholderAt(k, i - j);
    } else if i < j {
      OccursChar(s, Placeholder(k), j, 0);
      OccursChar(s, Placeholder(n), i, j - i);
      PlaceholderAt(k, 0);
      PlaceholderAt(n, j - i);
    } else if |k| < |n| {
      OccursChar(s, Placeholder(k), j, |k| + 2);
      OccursChar(s, Placeholder(n), i, |k| + 2);
      PlaceholderAt(k, |k| + 2);
      PlaceholderAt(n, |k| + 2);
    } else if |n| < |k| {
      OccursChar(s, Placeholder(n), i, |n| + 2);
      OccursChar(s, Placeholder(k), j, |n| + 2);
      PlaceholderAt(n, |n| + 2);
      PlaceholderAt(k, |n| + 2);
    } else {
      PlaceholderInjective(n, k);
    }
  }

  /** A placeholder of a name that is not a variable survives substitution, even in a value that
      also mentions variables' placeholders, when all names are plain. */
  lemma {:induction false} SubstituteKeepsUnknown(v: string, vars: seq<(string, string)>, name: string)
    requires PlainName(name) && Contains(v, Placeholder(name))
    requires forall k :: 0 <= k < |vars| ==> PlainName(vars[k].0) && vars[k].0 != name
    ensures Contains(SubstituteAll(v, vars), Placeholder(name))
    decreases |vars|
  {
    if vars != [] {
      var i: nat :| i <= |v| && OccursAt(v, Placeholder(name), i);
      var pat := Placeholder(vars[0].0);
      forall j: nat | j < i + |Placeholder(name)| && i < j + |pat| ensures !OccursAt(v, pat, j) {
        if OccursAt(v, pat, j) {
          PlaceholdersApart(v, name, vars[0].0, i, j);
        }
      }
      ReplaceKeeps(v, pat, vars[0].1, Placeholder(name), i);
      assert forall k :: 0 <= k < |vars[1..]| ==> vars[1..][k] == vars[k + 1];
      SubstituteKeepsUnknown(Replace(v, pat, vars[0].1), vars[1..], name);
    }
  }

  /** Substituting every variable by its own placeholder changes nothing. */
  lemma {:induction false} SubstituteIdentity(v: string, vars: seq<(string, string)>)
    requires forall k :: 0 <= k < |vars| ==> vars[k].1 == Placeholder(vars[k].0)
    ensures SubstituteAll(v, vars) == v
    decreases |vars|
  {
    if vars != [] {
      ReplaceBySelf(v, Placeholder(vars[0].0));
      assert forall k :: 0 <= k < |vars[1..]| ==> vars[1..][k] == vars[k + 1];
      SubstituteIdentity(v, vars[1..]);
    }
  }

  // ---------------------------------------------------------------------------------------------
  // One action

  /** `coordinates.get(key)` */
  function Coordinate(c: map<string, int>, key: string): Option<int>
  {
    if key in c then Some(c[key]) else None
  }

  /** The instruction for one action, or the "unsupported action type" error. The kinds are
      tried in the order navigate, click, type, wait, scroll, screenshot, extract. */
  function ActionToTask(a: BrowserAction): (r: Result<string, string>)
    ensures r.Failure? <==> KindOf(a.actionType).None?
    ensures r.Failure? ==> r.error == "Unsupported action type: " + a.actionType
    ensures r.Success? ==> r.value == Instruction(KindOf(a.actionType).value, a)
  {
    match KindOf(a.actionType)
    case None => Failure("Unsupported action type: " + a.actionType)
    case Some(k) => Success(Instruction(k, a))
  }

  /** The instruction text for an action of kind `k`. A scroll uses its coordinates when the
      dictionary is present and non-empty. */
  function Instruction(k: ActionType, a: BrowserAction): string
  {
    match k
    case Navigate => "Navigate to " + ShowStr(a.url)
    case Click => "Click on element matching selector: " + ShowStr(a.selector)
    case Type => "Type '" + ShowStr(a.value) + "' into element matching selector: " + ShowStr(a.selector)
    case Wait => "Wait for " + ShowInt(a.waitTime) + " milliseconds"
    case Scroll =>
      if a.coordinates.Some? && |a.coordinates.value| > 0 then
        var c := a.coordinates.value;
        "Scroll to coordinates x:" + ShowInt(Coordinate(c, "x")) + ", y:" + ShowInt(Coordinate(c, "y"))
      else
        "Scroll to bottom of page"
    case Screenshot => "Take screenshot of element matching selector: " + ShowStr(a.selector)
    case Extract => "Extract text from element matching selector: " + ShowStr(a.selector)
  }

  /** A scroll falls back to the bottom of the page exactly when it has no non-empty coordinates. */
  lemma ScrollToBottom(a: BrowserAction)
    ensures Instruction(Scroll, a) == "Scroll to bottom of page" <==> !(a.coordinates.Some? && |a.coordinates.value| > 0)
  {
    if a.coordinates.Some? && |a.coordinates.value| > 0 {
      assert Instruction(Scroll, a)[10] != "Scroll to bottom of page"[10];
    }
  }

  /** The kind an instruction announces, read from its opening words. */
  function InstructionKind(s: string): Option<ActionType>
  {
    if IsPrefix("Navigate to ", s) then Some(Navigate)
    else if IsPrefix("Click on ", s) then Some(Click)
    else if IsPrefix("Type '", s) then Some(Type)
    else if IsPrefix("Wait for ", s) then Some(Wait)
    else if IsPrefix("Scroll to ", s) then Some(Scroll)
    else if IsPrefix("Take screenshot ", s) then Some(Screenshot)
    else if IsPrefix("Extract text ", s) then Some(Extract)
    else None
  }

  /** Whatever its fields hold, an action's instruction names the action's own kind, so no two
      kinds are ever translated into the same instruction. */
  lemma InstructionNamesKind(a: BrowserAction)
    requires ActionToTask(a).Success?
    ensures InstructionKind(ActionToTask(a).value) == KindOf(a.actionType)
  {
    match KindOf(a.actionType).value
    case Navigate => NavigateNamed(a);
    case Click => ClickNamed(a);
    case Type => TypeNamed(a);
    case Wait => WaitNamed(a);
    case Scroll => ScrollNamed(a);
    case Screenshot => ScreenshotNamed(a);
    case Extract => ExtractNamed(a);
  }

  lemma NavigateNamed(a: BrowserAction)
    ensures InstructionKind(Instruction(Navigate, a)) == Some(Navigate)
  {
    var s := Instruction(Navigate, a);
    PrefixOfConcat("Navigate to ", ShowStr(a.url));
  }

  lemma ClickNamed(a: BrowserAction)
    ensures InstructionKind(Instruction(Click, a)) == Some(Click)
  {
    var s := Instruction(Click, a);
    ClickPrefix(ShowStr(a.selector));
    Differs("Navigate to ", "Click on ", s, 0);
  }

  lemma TypeNamed(a: BrowserAction)
    ensures InstructionKind(Instruction(Type, a)) == Some(Type)
  {
    var s := Instruction(Type, a);
    var p := "Type '";
    PrefixOfConcat(p, ShowStr(a.value));
    PrefixOfLonger(p, p + ShowStr(a.value), "' into element matching selector: ");
    PrefixOfLonger(p, p + ShowStr(a.value) + "' into element matching selector: ", ShowStr(a.selector));
    Differs("Navigate to ", p, s, 0);
    Differs("Click on ", p, s, 0);
  }

  lemma WaitNamed(a: BrowserAction)
    ensures InstructionKind(Instruction(Wait, a)) == Some(Wait)
  {
    var s := Instruction(Wait, a);
    var p := "Wait for ";
    PrefixOfConcat(p, ShowInt(a.waitTime));
    PrefixOfLonger(p, p + ShowInt(a.waitTime), " milliseconds");
    Differs("Navigate to ", p, s, 0);
    Differs("Click on ", p, s, 0);
    Differs("Type '", p, s, 0);
  }

  lemma ScrollNamed(a: BrowserAction)
    ensures InstructionKind(Instruction(Scroll, a)) == Some(Scroll)
  {
    var s := Instruction(Scroll, a);
    var p := "Scroll to ";
    if a.coordinates.Some? && |a.coordinates.value| > 0 {
      ScrollCoordinatesPrefix(a.coordinates.value);
    } else {
      PrefixOfConcat(p, "bottom of page");
    }
    Differs("Navigate to ", p, s, 0);
    Differs("Click on ", p, s, 0);
    Differs("Type '", p, s, 0);
    Differs("Wait for ", p, s, 0);
  }

  lemma ScrollCoordinatesPrefix(c: map<string, int>)
    ensures IsPrefix("Scroll to ", "Scroll to coordinates x:" + ShowInt(Coordinate(c, "x")) + ", y:" + ShowInt(Coordinate(c, "y")))
  {
    var q := "Scroll to coordinates x:";
    var x, y := ShowInt(Coordinate(c, "x")), ShowInt(Coordinate(c, "y"));
    PrefixOfConcat(q, x);
    PrefixOfLonger(q, q + x, ", y:");
    PrefixOfLonger(q, q + x + ", y:", y);
    Shorter("Scroll to ", q, q + x + ", y:" + y);
  }

  lemma ScreenshotNamed(a: BrowserAction)
    ensures InstructionKind(Instruction(Screenshot, a)) == Some(Screenshot)
  {
    var s := Instruction(Screenshot, a);
    var p := "Take screenshot ";
    ScreenshotPrefix(ShowStr(a.selector));
    Differs("Navigate to ", p, s, 0);
    Differs("Click on ", p, s, 0);
    Differs("Type '", p, s, 1);
    Differs("Wait for ", p, s, 0);
    Differs("Scroll to ", p, s, 0);
  }

  lemma ExtractNamed(a: BrowserAction)
    ensures InstructionKind(Instruction(Extract, a)) == Some(Extract)
  {
    var s := Instruction(Extract, a);
    var p := "Extract text ";
    ExtractPrefix(ShowStr(a.selector));
    Differs("Navigate to ", p, s, 0);
    Differs("Click on ", p, s, 0);
    Differs("Type '", p, s, 0);
    Differs("Wait for ", p, s, 0);
    Differs("Scroll to ", p, s, 0);
    Differs("Take screenshot ", p, s, 0);
  }

  lemma ClickPrefix(x: string)
    ensures IsPrefix("Click on ", "Click on element matching selector: " + x)
  {
    PrefixOfConcat("Click on element matching selector: ", x);
    Shorter("Click on ", "Click on element matching selector: ", "Click on element matching selector: " + x);
  }

  lemma ScreenshotPrefix(x: string)
    ensures IsPrefix("Take screenshot ", "Take screenshot of element matching selector: " + x)
  {
    PrefixOfConcat("Take screenshot of element matching selector: ", x);
    Shorter("Take screenshot ", "Take screenshot of element matching selector: ", "Take screenshot of element matching selector: " + x);
  }

  lemma ExtractPrefix(x: string)
    ensures IsPrefix("Extract text ", "Extract text from element matching selector: " + x)
  {
    PrefixOfConcat("Extract text from element matching selector: ", x);
    Shorter("Extract text ", "Extract text from element matching selector: ", "Extract text from element matching selector: " + x);
  }

  lemma PrefixOfConcat(p: string, x: string)
    ensures IsPrefix(p, p + x)
  {
    assert (p + x)[..|p|] == p;
  }

  lemma PrefixOfLonger(p: string, s: string, x: string)
    requires IsPrefix(p, s)
    ensures IsPrefix(p, s + x)
  {
    assert (s + x)[..|p|] == s[..|p|];
  }

  /** A prefix of a prefix is a prefix. */
  lemma Shorter(p: string, q: string, s: string)
    requires |p| <= |q| && q[..|p|] == p && IsPrefix(q, s)
    ensures IsPrefix(p, s)
  {
    assert s[..|p|] == s[..|q|][..|p|];
  }

  /** `s` starts with `p`, so it cannot start with a `q` that differs from `p` at index `k`. */
  lemma Differs(q: string, p: string, s: string, k: nat)
    requires IsPrefix(p, s) && k < |p| && k < |q| && q[k] != p[k]
    ensures !IsPrefix(q, s)
  {
    assert s[k] == s[..|p|][k] == p[k];
    if |q| <= |s| {
      assert s[..|q|][k] == s[k];
    }
  }

  // ---------------------------------------------------------------------------------------------
  // Validation

  function Lookup(v: map<string, Value>, key: string): Option<Value>
  {
    if key in v then Some(v[key]) else None
  }

  /** `f"{x}"` for a dictionary value (an absent key reads as None). */
  function ShowValue(o: Option<Value>): string
  {
    match o
    case Some(Str(s)) => s
    case Some(Int(i)) => IntToString(i)
    case Some(Null) => "None"
    case None => "None"
  }

  /** The three validation types that produce an instruction. */
  predicate IsCheckedValidation(v: map<string, Value>)
  {
    "type" in v && v["type"] in {Str("element_exists"), Str("text_contains"), Str("url_changed")}
  }

  /** The timeout of a validation dictionary: 5000 when it has no "timeout" entry. */
  function TimeoutOf(v: map<string, Value>): Value
  {
    if "timeout" in v then v["timeout"] else Int(5000)
  }

  function TimeoutText(v: map<string, Value>): string
  {
    " (timeout: " + ShowValue(Some(TimeoutOf(v))) + "ms)"
  }

  /** The check instruction of a step's validation dictionary, if it yields one; it always ends
      with the dictionary's timeout. */
  function ValidationTask(validation: Option<map<string, Value>>): (r: Option<string>)
    ensures r.Some? <==> validation.Some? && IsCheckedValidation(validation.value)
    ensures r.Some? ==> IsSuffix(TimeoutText(validation.value), r.value)
  {
    if validation.None? || validation.value == map[] then None
    else
      var v := validation.value;
      var kind := Lookup(v, "type");
      var selector := ShowValue(Lookup(v, "selector"));
      var head :=
        if kind == Some(Str("element_exists")) then
          Some("Wait for element matching selector: " + selector)
        else if kind == Some(Str("text_contains")) then
          Some("Verify text in " + selector + " contains '" + ShowValue(Lookup(v, "expected_value")) + "'")
        else if kind == Some(Str("url_changed")) then
          Some("Wait for URL to change")
        else None;
      if head.None? then None
      else
        SuffixOfConcat(head.value, TimeoutText(v));
        Some(head.value + TimeoutText(v))
  }

  lemma SuffixOfConcat(p: string, x: string)
    ensures IsSuffix(x, p + x)
  {
    assert (p + x)[|p + x| - |x|..] == x;
  }

  lemma FiveThousand()
    ensures IntToString(5000) == "5000"
  {
    assert NatToString(5) == "5";
    assert NatToString(50) == "50";
    assert NatToString(500) == "500";
  }

  /** Without a "timeout" entry, a validation instruction waits 5000 ms. */
  lemma DefaultTimeout(validation: Option<map<string, Value>>)
    requires ValidationTask(validation).Some? && "timeout" !in validation.value
    ensures IsSuffix(" (timeout: 5000ms)", ValidationTask(validation).value)
  {
    DefaultTimeoutText(validation.value);
  }

  lemma DefaultTimeoutText(v: map<string, Value>)
    requires "timeout" !in v
    ensures TimeoutText(v) == " (timeout: 5000ms)"
  {
    FiveThousand();
    assert ShowValue(Some(TimeoutOf(v))) == "5000";
  }

  // ---------------------------------------------------------------------------------------------
  // Whole script

  function Emit(vt: Option<string>): seq<string>
  {
    if vt.Some? then [vt.value] else []
  }

  /** The translation of each action of a step, after substitution. */
  function Translations(actions: seq<BrowserAction>, vars: seq<(string, string)>): (rs: seq<Result<string, string>>)
    ensures |rs| == |actions|
  {
    seq(|actions|, j requires 0 <= j < |actions| => ActionToTask(SubstituteAction(actions[j], vars)))
  }

  /** One step's instructions from its actions' translations: each instruction followed by the
      validation instruction `vt` when there is one; the first failed translation fails the step. */
  function Assemble(rs: seq<Result<string, string>>, vt: Option<string>): Result<seq<string>, string>
    decreases |rs|
  {
    if rs == [] then Success([])
    else
      match Assemble(rs[..|rs| - 1], vt)
      case Failure(e) => Failure(e)
      case Success(ts) =>
        match rs[|rs| - 1]
        case Failure(e) => Failure(e)
        case Success(t) => Success(ts + [t] + Emit(vt))
  }

  /** The instructions of one step. */
  function StepTasks(step: ScriptStep, vars: seq<(string, string)>): Result<seq<string>, string>
  {
    Assemble(Translations(step.actions, vars), ValidationTask(step.validation))
  }

  /** The instructions of each step. */
  function StepResults(steps: seq<ScriptStep>, vars: seq<(string, string)>): (parts: seq<Result<seq<string>, string>>)
    ensures |parts| == |steps|
  {
    seq(|steps|, i requires 0 <= i < |steps| => StepTasks(steps[i], vars))
  }

  /** Concatenation of the steps' instruction lists, in order; the first failed step fails the whole. */
  function Join(parts: seq<Result<seq<string>, string>>): Result<seq<string>, string>
    decreases |parts|
  {
    if parts == [] then Success([])
    else
      match Join(parts[..|parts| - 1])
      case Failure(e) => Failure(e)
      case Success(ts) =>
        match parts[|parts| - 1]
        case Failure(e) => Failure(e)
        case Success(us) => Success(ts + us)
  }

  /** The instruction list of a sequence of steps, steps in order and actions in order within each. */
  function ScriptTasks(steps: seq<ScriptStep>, vars: seq<(string, string)>): Result<seq<string>, string>
  {
    Join(StepResults(steps, vars))
  }

  /** Exact layout of one step's instructions: without a validation instruction, action `j`'s
      instruction is at `j`; with one, it is at `2 * j` and the validation instruction follows at
      `2 * j + 1`, after every action of the step. */
  lemma {:induction false} AssembleLayout(rs: seq<Result<string, string>>, vt: Option<string>)
    requires Assemble(rs, vt).Success?
    ensures var ts := Assemble(rs, vt).value;
      && (vt.None? ==> |ts| == |rs| && forall j :: 0 <= j < |rs| ==> rs[j] == Success(ts[j]))
      && (vt.Some? ==> |ts| == 2 * |rs| && forall j :: 0 <= j < |rs| ==>
            rs[j] == Success(ts[2 * j]) && ts[2 * j + 1] == vt.value)
    decreases |rs|
  {
    if rs != [] {
      var n := |rs| - 1;
      AssembleLayout(rs[..n], vt);
      assert forall j :: 0 <= j < n ==> rs[..n][j] == rs[j];
    }
  }

  /** A step fails exactly when one of its actions' translations fails. */
  lemma {:induction false} AssembleFailure(rs: seq<Result<string, string>>, vt: Option<string>)
    ensures Assemble(rs, vt).Failure? <==> exists j :: 0 <= j < |rs| && rs[j].Failure?
    decreases |rs|
  {
    if rs != [] {
      var n := |rs| - 1;
      AssembleFailure(rs[..n], vt);
      assert forall j :: 0 <= j < n ==> rs[..n][j] == rs[j];
    }
  }

  /** The whole fails exactly when one of its parts fails. */
  lemma {:induction false} JoinFailure(parts: seq<Result<seq<string>, string>>)
    ensures Join(parts).Failure? <==> exists i :: 0 <= i < |parts| && parts[i].Failure?
    decreases |parts|
  {
    if parts != [] {
      var n := |parts| - 1;
      JoinFailure(parts[..n]);
      assert forall i :: 0 <= i < n ==> parts[..n][i] == parts[i];
    }
  }

  /** The script fails to translate exactly when one of its actions has an unsupported kind;
      translation fails before any instruction is dispatched. */
  lemma ScriptTasksFailure(steps: seq<ScriptStep>, vars: seq<(string, string)>)
    ensures ScriptTasks(steps, vars).Failure? <==>
      exists i, j :: 0 <= i < |steps| && 0 <= j < |steps[i].actions| && KindOf(steps[i].actions[j].actionType).None?
  {
    var parts := StepResults(steps, vars);
    JoinFailure(parts);
    forall i | 0 <= i < |steps|
      ensures parts[i].Failure? <==> exists j :: 0 <= j < |steps[i].actions| && KindOf(steps[i].actions[j].actionType).None?
    {
      var rs := Translations(steps[i].actions, vars);
      AssembleFailure(rs, ValidationTask(steps[i].validation));
      forall j | 0 <= j < |rs| ensures rs[j].Failure? <==> KindOf(steps[i].actions[j].actionType).None? {
        assert SubstituteAction(steps[i].actions[j], vars).actionType == steps[i].actions[j].actionType;
      }
    }
  }

  /** Action `j` of step `i` is the first action, in document order, whose kind is unsupported. */
  predicate FirstUnsupported(steps: seq<ScriptStep>, i: int, j: int)
  {
    && 0 <= i < |steps| && 0 <= j < |steps[i].actions|
    && KindOf(steps[i].actions[j].actionType).None?
    && (forall i', j' :: 0 <= i' < i && 0 <= j' < |steps[i'].actions| ==> KindOf(steps[i'].actions[j'].actionType).Some?)
    && (forall j' :: 0 <= j' < j ==> KindOf(steps[i].actions[j'].actionType).Some?)
  }

  /** A script with an unsupported action has a first one. */
  lemma FirstUnsupportedExists(steps: seq<ScriptStep>)
    requires exists i, j :: 0 <= i < |steps| && 0 <= j < |steps[i].actions| && KindOf(steps[i].actions[j].actionType).None?
    ensures exists i, j :: FirstUnsupported(steps, i, j)
  {
    FirstFromStep(steps, 0);
  }

  /** The search for the first unsupported action, from step `n` on. */
  lemma {:induction false} FirstFromStep(steps: seq<ScriptStep>, n: nat)
    requires n <= |steps|
    requires forall i', j' :: 0 <= i' < n && 0 <= j' < |steps[i'].actions| ==> KindOf(steps[i'].actions[j'].actionType).Some?
    requires exists i, j :: n <= i < |steps| && 0 <= j < |steps[i].actions| && KindOf(steps[i].actions[j].actionType).None?
    ensures exists i, j :: FirstUnsupported(steps, i, j)
    decreases |steps| - n
  {
    if exists j :: 0 <= j < |steps[n].actions| && KindOf(steps[n].actions[j].actionType).None? {
      FirstFromAction(steps, n, 0);
    } else {
      FirstFromStep(steps, n + 1);
    }
  }

  /** The search for the first unsupported action of step `i`, from action `m` on. */
  lemma {:induction false} FirstFromAction(steps: seq<ScriptStep>, i: nat, m: nat)
    requires i < |steps| && m <= |steps[i].actions|
    requires forall i', j' :: 0 <= i' < i && 0 <= j' < |steps[i'].actions| ==> KindOf(steps[i'].actions[j'].actionType).Some?
    requires forall j' :: 0 <= j' < m ==> KindOf(steps[i].actions[j'].actionType).Some?
    requires exists j :: m <= j < |steps[i].actions| && KindOf(steps[i].actions[j].actionType).None?
    ensures exists i, j :: FirstUnsupported(steps, i, j)
    decreases |steps[i].actions| - m
  {
    if KindOf(steps[i].actions[m].actionType).None? {
      assert FirstUnsupported(steps, i, m);
    } else {
      FirstFromAction(steps, i, m + 1);
    }
  }

  /** A step fails with the error of its first failed translation. */
  lemma AssembleFirstError(rs: seq<Result<string, string>>, vt: Option<string>, j: nat)
    requires j < |rs| && rs[j].Failure?
    requires forall j' :: 0 <= j' < j ==> rs[j'].Success?
    ensures Assemble(rs, vt) == Failure(rs[j].error)
  {
    AssembleFailure(rs[..j], vt);
    assert forall j' :: 0 <= j' < j ==> rs[..j][j'] == rs[j'];
    AssembleTake(rs, j, vt);
    AssembleFailPrefix(rs, vt, j + 1);
  }

  /** The whole fails with the error of its first failed part. */
  lemma JoinFirstError(parts: seq<Result<seq<string>, string>>, i: nat)
    requires i < |parts| && parts[i].Failure?
    requires forall i' :: 0 <= i' < i ==> parts[i'].Success?
    ensures Join(parts) == Failure(parts[i].error)
  {
    JoinFailure(parts[..i]);
    assert forall i' :: 0 <= i' < i ==> parts[..i][i'] == parts[i'];
    JoinTake(parts, i);
    JoinFailPrefix(parts, i + 1);
  }

  /** A step whose actions are all supported translates. */
  lemma StepSupported(step: ScriptStep, vars: seq<(string, string)>)
    requires forall j :: 0 <= j < |step.actions| ==> KindOf(step.actions[j].actionType).Some?
    ensures StepTasks(step, vars).Success?
  {
    var rs := Translations(step.actions, vars);
    AssembleFailure(rs, ValidationTask(step.validation));
    forall j | 0 <= j < |rs| ensures rs[j].Success? {
      assert SubstituteAction(step.actions[j], vars).actionType == step.actions[j].actionType;
    }
  }

  /** The error of a failed translation is the one `_action_to_task` raises for the first
      unsupported action in document order: steps in order, actions in order within a step. */
  lemma ScriptTasksError(steps: seq<ScriptStep>, vars: seq<(string, string)>, i: nat, j: nat)
    requires FirstUnsupported(steps, i, j)
    ensures ScriptTasks(steps, vars) == Failure("Unsupported action type: " + steps[i].actions[j].actionType)
  {
    var parts := StepResults(steps, vars);
    forall i' | 0 <= i' < i ensures parts[i'].Success? {
      StepSupported(steps[i'], vars);
    }
    var rs := Translations(steps[i].actions, vars);
    forall j' | 0 <= j' < j ensures rs[j'].Success? {
      assert SubstituteAction(steps[i].actions[j'], vars).actionType == steps[i].actions[j'].actionType;
    }
    assert SubstituteAction(steps[i].actions[j], vars).actionType == steps[i].actions[j].actionType;
    AssembleFirstError(rs, ValidationTask(steps[i].validation), j);
    JoinFirstError(parts, i);
  }

  /** Number of instructions a step contributes: its actions, twice over when its validation
      yields an instruction. */
  function StepSize(step: ScriptStep): nat
  {
    if ValidationTask(step.validation).Some? then 2 * |step.actions| else |step.actions|
  }

  /** Number of actions in the steps. */
  function ActionCount(steps: seq<ScriptStep>): nat
    decreases |steps|
  {
    if steps == [] then 0 else ActionCount(steps[..|steps| - 1]) + |steps[|steps| - 1].actions|
  }

  /** Number of actions in the steps whose validation yields an instruction. */
  function ValidatedActionCount(steps: seq<ScriptStep>): nat
    decreases |steps|
  {
    if steps == [] then 0
    else
      var last := steps[|steps| - 1];
      ValidatedActionCount(steps[..|steps| - 1])
        + (if ValidationTask(last.validation).Some? then |last.actions| else 0)
  }

  /** A step that translates yields `StepSize` instructions. */
  lemma StepTasksSize(step: ScriptStep, vars: seq<(string, string)>)
    requires StepTasks(step, vars).Success?
    ensures |StepTasks(step, vars).value| == StepSize(step)
  {
    AssembleLayout(Translations(step.actions, vars), ValidationTask(step.validation));
  }

  /** The number of instructions is the number of actions plus the number of actions in steps
      whose validation yields an instruction. */
  lemma {:induction false} ScriptTasksLength(steps: seq<ScriptStep>, vars: seq<(string, string)>)
    requires ScriptTasks(steps, vars).Success?
    ensures |ScriptTasks(steps, vars).value| == ActionCount(steps) + ValidatedActionCount(steps)
    decreases |steps|
  {
    if steps != [] {
      var n := |steps| - 1;
      assert StepResults(steps, vars)[..n] == StepResults(steps[..n], vars);
      ScriptTasksLength(steps[..n], vars);
      StepTasksSize(steps[n], vars);
    }
  }

  /** Where step `i`'s instructions start: after those of all steps before it. */
  function Offset(steps: seq<ScriptStep>, i: nat): nat
    requires i <= |steps|
  {
    ActionCount(steps[..i]) + ValidatedActionCount(steps[..i])
  }

  /** Where part `i` lands in the concatenation: right after the parts before it. */
  lemma {:induction false} JoinSlice(parts: seq<Result<seq<string>, string>>, i: nat)
    requires Join(parts).Success? && i < |parts|
    ensures Join(parts[..i]).Success? && Join(parts[..i + 1]).Success? && parts[i].Success?
    ensures var lo, hi := |Join(parts[..i]).value|, |Join(parts[..i + 1]).value|;
      lo <= hi <= |Join(parts).value| && Join(parts).value[lo..hi] == parts[i].value
    decreases |parts|
  {
    var n := |parts| - 1;
    assert parts[..n + 1] == parts;
    if i == n {
      assert parts[..i + 1] == parts;
    } else {
      JoinSlice(parts[..n], i);
      assert parts[..n][..i] == parts[..i];
      assert parts[..n][..i + 1] == parts[..i + 1];
    }
  }

  /** Document order: step `i`'s instructions are exactly the slice between the offsets of step
      `i` and step `i + 1`. */
  lemma ScriptTasksStepSlice(steps: seq<ScriptStep>, vars: seq<(string, string)>, i: nat)
    requires ScriptTasks(steps, vars).Success? && i < |steps|
    ensures Offset(steps, i) <= Offset(steps, i + 1) <= |ScriptTasks(steps, vars).value|
    ensures StepTasks(steps[i], vars) == Success(ScriptTasks(steps, vars).value[Offset(steps, i)..Offset(steps, i + 1)])
  {
    var parts := StepResults(steps, vars);
    JoinSlice(parts, i);
    assert parts[..i] == StepResults(steps[..i], vars);
    assert parts[..i + 1] == StepResults(steps[..i + 1], vars);
    ScriptTasksLength(steps[..i], vars);
    ScriptTasksLength(steps[..i + 1], vars);
    var lo, hi := Offset(steps, i), Offset(steps, i + 1);
    assert lo == |Join(parts[..i]).value| && hi == |Join(parts[..i + 1]).value|;
    assert parts[i] == StepTasks(steps[i], vars);
    assert parts[i].value == Join(parts).value[lo..hi];
  }

  /** The substitution applied to one action value: each variable's placeholder replaced in
      turn, in the variables' order. */
  method SubstituteValue(value: string, vars: seq<(string, string)>) returns (v: string)
    ensures v == SubstituteAll(value, vars)
  {
    v := value;
    var k := 0;
    while k < |vars|
      invariant 0 <= k <= |vars|
      invariant SubstituteAll(v, vars[k..]) == SubstituteAll(value, vars)
    {
      assert vars[k..][1..] == vars[k + 1..];
      v := Replace(v, Placeholder(vars[k].0), vars[k].1);
      k := k + 1;
    }
  }

  /** The in-place rewrite of one action: a present, non-empty value is substituted. */
  method RewriteAction(a: BrowserAction, vars: seq<(string, string)>) returns (r: BrowserAction)
    ensures r == SubstituteAction(a, vars)
  {
    r := a;
    if a.value.Some? && a.value.value != "" {
      var v := SubstituteValue(a.value.value, vars);
      r := a.(value := Some(v));
    }
  }

  /** The per-action loop of `script_to_tasks` for one step: rewrites each action's value,
      appends its instruction and then the step's validation instruction, and stops at the first
      unsupported action. */
  method StepToTasks(step: ScriptStep, vars: seq<(string, string)>) returns (res: Result<seq<string>, string>, rewritten: ScriptStep)
    ensures res == StepTasks(step, vars)
    ensures res.Success? ==> rewritten == SubstituteStep(step, vars)
  {
    ghost var rs := Translations(step.actions, vars);
    var vt := ValidationTask(step.validation);
    var tasks: seq<string> := [];
    var actions := step.actions;
    var j := 0;
    assert rs[..0] == [];
    while j < |actions|
      invariant 0 <= j <= |actions| == |step.actions|
      invariant Assemble(rs[..j], vt) == Success(tasks)
      invariant forall k :: 0 <= k < j ==> actions[k] == SubstituteAction(step.actions[k], vars)
      invariant forall k :: j <= k < |actions| ==> actions[k] == step.actions[k]
    {
      var action := RewriteAction(actions[j], vars);
      actions := actions[j := action];
      var t := ActionToTask(action);
      assert rs[j] == t;
      AssembleTake(rs, j, vt);
      if t.Failure? {
        AssembleFailPrefix(rs, vt, j + 1);
        res := Failure(t.error);
        rewritten := step.(actions := actions);
        return;
      }
      ghost var before := tasks;
      tasks := tasks + [t.value];
      if vt.Some? {
        tasks := tasks + [vt.value];
      }
      assert tasks == before + [t.value] + Emit(vt);
      j := j + 1;
    }
    assert rs[..j] == rs;
    res := Success(tasks);
    rewritten := step.(actions := actions);
  }

  /** `script_to_tasks`: walks the steps in order, translating each (see `StepToTasks`), and
      returns the concatenated instruction list, or the error of the first unsupported action,
      together with the script whose action values were rewritten by substitution. */
  method ScriptToTasks(script: AutomationScript) returns (res: Result<seq<string>, string>, rewritten: AutomationScript)
    ensures res == ScriptTasks(script.steps, VariablesOf(script))
    ensures res.Success? ==> rewritten == SubstituteScript(script)
  {
    var vars := VariablesOf(script);
    ghost var parts := StepResults(script.steps, vars);
    var tasks: seq<string> := [];
    var steps := script.steps;
    var i := 0;
    assert parts[..0] == [];
    while i < |steps|
      invariant 0 <= i <= |steps| == |script.steps|
      invariant Join(parts[..i]) == Success(tasks)
      invariant forall k :: 0 <= k < i ==> steps[k] == SubstituteStep(script.steps[k], vars)
      invariant forall k :: i <= k < |steps| ==> steps[k] == script.steps[k]
    {
      var r, step := StepToTasks(steps[i], vars);
      JoinTake(parts, i);
      steps := steps[i := step];
      if r.Failure? {
        JoinFailPrefix(parts, i + 1);
        res := Failure(r.error);
        rewritten := script.(steps := steps);
        return;
      }
      tasks := tasks + r.value;
      i := i + 1;
    }
    assert parts[..i] == parts;
    res := Success(tasks);
    rewritten := script.(steps := steps);
  }

  /** Extending the translations taken by one. */
  lemma AssembleTake(rs: seq<Result<string, string>>, j: nat, vt: Option<string>)
    requires j < |rs|
    ensures Assemble(rs[..j + 1], vt) ==
      match Assemble(rs[..j], vt)
      case Failure(e) => Failure(e)
      case Success(ts) => (match rs[j] case Failure(e) => Failure(e) case Success(t) => Success(ts + [t] + Emit(vt)))
  {
    assert rs[..j + 1][..j] == rs[..j];
  }

  /** Extending the parts taken by one. */
  lemma JoinTake(parts: seq<Result<seq<string>, string>>, i: nat)
    requires i < |parts|
    ensures Join(parts[..i + 1]) ==
      match Join(parts[..i])
      case Failure(e) => Failure(e)
      case Success(ts) => (match parts[i] case Failure(e) => Failure(e) case Success(us) => Success(ts + us))
  {
    assert parts[..i + 1][..i] == parts[..i];
  }

  /** Once a prefix of the translations fails, the step fails with the same error. */
  lemma {:induction false} AssembleFailPrefix(rs: seq<Result<string, string>>, vt: Option<string>, k: nat)
    requires k <= |rs| && Assemble(rs[..k], vt).Failure?
    ensures Assemble(rs, vt) == Assemble(rs[..k], vt)
    decreases |rs|
  {
    if k < |rs| {
      var n := |rs| - 1;
      assert rs[..n][..k] == rs[..k];
      AssembleFailPrefix(rs[..n], vt, k);
    } else {
      assert rs[..k] == rs;
    }
  }

  /** Once a prefix of the parts fails, the whole fails with the same error. */
  lemma {:induction false} JoinFailPrefix(parts: seq<Result<seq<string>, string>>, k: nat)
    requires k <= |parts| && Join(parts[..k]).Failure?
    ensures Join(parts) == Join(parts[..k])
    decreases |parts|
  {
    if k < |parts| {
      var n := |parts| - 1;
      assert parts[..n][..k] == parts[..k];
      JoinFailPrefix(parts[..n], k);
    } else {
      assert parts[..k] == parts;
    }
  }
}
