/** The repository's two example scripts, and the instruction lists they translate into. */
module Examples {
  import opened Wrappers
  import opened Strings
  import opened Browser
  import opened ScriptTranslation

  /** An action with no coordinates and no wait time. */
  function Act(kind: ActionType, selector: Option<string>, value: Option<string>, url: Option<string>): BrowserAction
  {
    BrowserAction(kind.Value(), selector, value, url, None, None)
  }

  // ---------------------------------------------------------------------------------------------
  // Login form

  /** The end of a validation instruction whose timeout is 5000, given or by default. */
  const WaitSuffix: string := " (timeout: 5000ms)"

  const UserSelector: string := "input[type='email'], input[name='username']"
  const PasswordSelector: string := "input[type='password']"
  const SubmitSelector: string := "button[type='submit'], input[type='submit']"

  /** `create_login_script(url)`: both variables are left empty for the user to fill in. */
  function LoginScript(url: string): AutomationScript
  {
    AutomationScript("Login Form", "Fill out and submit a login form",
      [ ScriptStep("navigate", "Navigate to login page", [Act(Navigate, None, None, Some(url))], None),
        ScriptStep("fill_form", "Fill out login form",
          [ Act(Type, Some(UserSelector), Some("${username}"), None),
            Act(Type, Some(PasswordSelector), Some("${password}"), None)], None),
        ScriptStep("submit", "Submit login form", [Act(Click, Some(SubmitSelector), None, None)],
          Some(map["type" := Str("url_changed"), "timeout" := Int(5000)]))],
      Some([("username", ""), ("password", "")]))
  }

  /** The login script with the user's credentials filled in. */
  function FilledLogin(url: string, username: string, password: string): AutomationScript
  {
    LoginScript(url).(variables := Some([("username", username), ("password", password)]))
  }

  lemma UserPlaceholder()
    ensures Placeholder("username") == "${username}"
  {
  }

  lemma PasswordPlaceholder()
    ensures Placeholder("password") == "${password}"
  {
  }

  lemma PlaceholdersDiffer()
    ensures !Contains("${password}", "${username}")
  {
    forall i: nat | i <= 11 ensures !OccursAt("${password}", "${username}", i) {
      if i == 0 {
        assert "${password}"[0..11][2] != "${username}"[2];
      }
    }
  }

  /** Two variables substituted in turn. */
  lemma SubstituteTwo(v: string, a: (string, string), b: (string, string))
    ensures SubstituteAll(v, [a, b]) == Replace(Replace(v, Placeholder(a.0), a.1), Placeholder(b.0), b.1)
  {
    var v1 := Replace(v, Placeholder(a.0), a.1);
    var v2 := Replace(v1, Placeholder(b.0), b.1);
    assert [a, b][1..] == [b];
    assert SubstituteAll(v, [a, b]) == SubstituteAll(v1, [b]);
    assert [b][1..] == [];
    assert SubstituteAll(v1, [b]) == SubstituteAll(v2, []);
  }

  /** Each placeholder becomes its variable's value, so long as the user name does not itself
      mention the password's placeholder (substitution is sequential). */
  lemma LoginSubstitution(username: string, password: string)
    requires !Contains(username, "${password}")
    ensures var vars := [("username", username), ("password", password)];
      SubstituteAll("${username}", vars) == username && SubstituteAll("${password}", vars) == password
  {
    UserPlaceholder();
    PasswordPlaceholder();
    SubstituteTwo("${username}", ("username", username), ("password", password));
    ReplaceWhole("${username}", username);
    ReplaceAbsent(username, "${password}", password);
    SubstituteTwo("${password}", ("username", username), ("password", password));
    PlaceholdersDiffer();
    ReplaceAbsent("${password}", "${username}", username);
    ReplaceWhole("${password}", password);
  }

  /** Substitution is sequential: a user name that mentions `${password}` has the password
      substituted into it. */
  lemma UserNameMentioningPassword(password: string)
    ensures SubstituteAll("${username}", [("username", "${password}"), ("password", password)]) == password
  {
    UserPlaceholder();
    PasswordPlaceholder();
    SubstituteTwo("${username}", ("username", "${password}"), ("password", password));
    ReplaceWhole("${username}", "${password}");
    ReplaceWhole("${password}", password);
  }

  /** A placeholder of an unknown name stays verbatim next to a substituted one: replacing
      `${user}` in "${user} ${code}" keeps `${code}`. */
  lemma UnknownPlaceholderKept(user: string)
    ensures Contains(SubstituteAll("${user} ${code}", [("user", user)]), "${code}")
  {
    assert Placeholder("code") == "${code}";
    assert "${user} ${code}"[8..15] == "${code}";
    assert OccursAt("${user} ${code}", Placeholder("code"), 8);
    assert "user"[0] != "code"[0];
    SubstituteKeepsUnknown("${user} ${code}", [("user", user)], "code");
  }

  /** An action of kind `k` translates into `k`'s instruction. */
  lemma Translate(a: BrowserAction, vars: seq<(string, string)>, k: ActionType)
    requires a.actionType == k.Value()
    ensures ActionToTask(SubstituteAction(a, vars)) == Success(Instruction(k, SubstituteAction(a, vars)))
  {
  }

  lemma TranslationsOne(a: BrowserAction, vars: seq<(string, string)>)
    ensures Translations([a], vars) == [ActionToTask(SubstituteAction(a, vars))]
  {
  }

  lemma TranslationsTwo(a: BrowserAction, b: BrowserAction, vars: seq<(string, string)>)
    ensures Translations([a, b], vars) == [ActionToTask(SubstituteAction(a, vars)), ActionToTask(SubstituteAction(b, vars))]
  {
  }

  /** The step instructions of a step with one and with two translated actions. */
  lemma AssembleOne(t: string, vt: Option<string>)
    ensures Assemble([Success(t)], vt) == Success([t] + Emit(vt))
  {
    var rs: seq<Result<string, string>> := [Success(t)];
    assert rs[..0] == [];
    assert [] + [t] == [t];
  }

  lemma AssembleTwo(t: string, u: string, vt: Option<string>)
    ensures Assemble([Success(t), Success(u)], vt) == Success([t] + Emit(vt) + [u] + Emit(vt))
  {
    var rs: seq<Result<string, string>> := [Success(t), Success(u)];
    assert rs[..1] == [Success(t)];
    AssembleOne(t, vt);
  }

  lemma JoinThree(x: seq<string>, y: seq<string>, z: seq<string>)
    ensures Join([Success(x), Success(y), Success(z)]) == Success(x + y + z)
  {
    var parts: seq<Result<seq<string>, string>> := [Success(x), Success(y), Success(z)];
    assert parts[..2][..1][..0] == [];
    assert parts[..2][..1] == [Success(x)];
    assert parts[..2] == [Success(x), Success(y)];
    assert [] + x == x;
    assert Join(parts[..2][..1]) == Success(x);
    assert Join(parts[..2]) == Success(x + y);
  }

  lemma LoginValidation()
    ensures ValidationTask(Some(map["type" := Str("url_changed"), "timeout" := Int(5000)])) ==
      Some("Wait for URL to change" + WaitSuffix)
  {
    var v := map["type" := Str("url_changed"), "timeout" := Int(5000)];
    FiveThousand();
    assert "type" in v && v != map[];
    assert Lookup(v, "type") == Some(Str("url_changed"));
    assert Str("url_changed") != Str("element_exists") && Str("url_changed") != Str("text_contains");
    assert TimeoutText(v) == " (timeout: 5000ms)";
  }

  /** A step with one action of kind `k`. */
  lemma StepOne(step: ScriptStep, vars: seq<(string, string)>, k: ActionType)
    requires |step.actions| == 1 && step.actions[0].actionType == k.Value()
    ensures StepTasks(step, vars) ==
      Success([Instruction(k, SubstituteAction(step.actions[0], vars))] + Emit(ValidationTask(step.validation)))
  {
    assert step.actions == [step.actions[0]];
    TranslationsOne(step.actions[0], vars);
    Translate(step.actions[0], vars, k);
    AssembleOne(Instruction(k, SubstituteAction(step.actions[0], vars)), ValidationTask(step.validation));
  }

  /** A step with two actions, of kinds `k` and `l`. */
  lemma StepTwo(step: ScriptStep, vars: seq<(string, string)>, k: ActionType, l: ActionType)
    requires |step.actions| == 2 && step.actions[0].actionType == k.Value() && step.actions[1].actionType == l.Value()
    ensures var vt := Emit(ValidationTask(step.validation));
      StepTasks(step, vars) == Success([Instruction(k, SubstituteAction(step.actions[0], vars))] + vt
        + [Instruction(l, SubstituteAction(step.actions[1], vars))] + vt)
  {
    assert step.actions == [step.actions[0], step.actions[1]];
    TranslationsTwo(step.actions[0], step.actions[1], vars);
    Translate(step.actions[0], vars, k);
    Translate(step.actions[1], vars, l);
    AssembleTwo(Instruction(k, SubstituteAction(step.actions[0], vars)),
      Instruction(l, SubstituteAction(step.actions[1], vars)), ValidationTask(step.validation));
  }

  /** The instructions of a one-action and of a two-action step, with and without a validation. */
  lemma ShapeOne(t: string, vt: Option<string>)
    ensures [t] + Emit(vt) == if vt.Some? then [t, vt.value] else [t]
  {
  }

  lemma ShapeTwo(t: string, u: string, vt: Option<string>)
    ensures [t] + Emit(vt) + [u] + Emit(vt) == if vt.Some? then [t, vt.value, u, vt.value] else [t, u]
  {
  }

  lemma LoginShape<T>(n: T, t1: T, t2: T, c: T, w: T)
    ensures [n] + [t1, t2] + [c, w] == [n, t1, t2, c, w]
  {
  }

  lemma SearchShape<T>(n: T, t: T, w: T, c: T, e: T, f: T)
    ensures [n] + [t, w, c, w] + [e, f] == [n, t, w, c, w, e, f]
  {
  }

  /** A script of three steps that all translate. */
  lemma StepsThree(steps: seq<ScriptStep>, vars: seq<(string, string)>, x: seq<string>, y: seq<string>, z: seq<string>)
    requires |steps| == 3
    requires StepTasks(steps[0], vars) == Success(x) && StepTasks(steps[1], vars) == Success(y)
    requires StepTasks(steps[2], vars) == Success(z)
    ensures ScriptTasks(steps, vars) == Success(x + y + z)
  {
    assert StepResults(steps, vars) == [Success(x), Success(y), Success(z)];
    JoinThree(x, y, z);
  }

  lemma LoginNavigateStep(url: string, vars: seq<(string, string)>)
    ensures StepTasks(LoginScript(url).steps[0], vars) == Success(["Navigate to " + url])
  {
    var step := LoginScript(url).steps[0];
    StepOne(step, vars, Navigate);
    var a := step.actions[0];
    assert SubstituteAction(a, vars) == a == Act(Navigate, None, None, Some(url));
    ShapeOne(Instruction(Navigate, a), None);
  }

  lemma LoginFillStep(url: string, username: string, password: string)
    requires !Contains(username, "${password}")
    ensures StepTasks(LoginScript(url).steps[1], [("username", username), ("password", password)]) ==
      Success([ "Type '" + username + "' into element matching selector: " + UserSelector,
                "Type '" + password + "' into element matching selector: " + PasswordSelector])
  {
    var vars := [("username", username), ("password", password)];
    var step := LoginScript(url).steps[1];
    LoginSubstitution(username, password);
    StepTwo(step, vars, Type, Type);
    var u := SubstituteAction(step.actions[0], vars);
    var p := SubstituteAction(step.actions[1], vars);
    assert u == Act(Type, Some(UserSelector), Some(username), None);
    assert p == Act(Type, Some(PasswordSelector), Some(password), None);
    ShapeTwo(Instruction(Type, u), Instruction(Type, p), None);
  }

  lemma LoginSubmitStep(url: string, vars: seq<(string, string)>)
    ensures StepTasks(LoginScript(url).steps[2], vars) ==
      Success(["Click on element matching selector: " + SubmitSelector, "Wait for URL to change" + WaitSuffix])
  {
    var step := LoginScript(url).steps[2];
    StepOne(step, vars, Click);
    var c := step.actions[0];
    assert SubstituteAction(c, vars) == c == Act(Click, Some(SubmitSelector), None, None);
    LoginValidation();
    ShapeOne(Instruction(Click, c), Some("Wait for URL to change" + WaitSuffix));
  }

  /** With the credentials filled in, the login script becomes: open the page, type the user
      name, type the password, click submit, and wait for the URL to change. */
  lemma LoginTasks(url: string, username: string, password: string)
    requires !Contains(username, "${password}")
    ensures ScriptTasks(FilledLogin(url, username, password).steps, VariablesOf(FilledLogin(url, username, password))) ==
      Success([ "Navigate to " + url,
                "Type '" + username + "' into element matching selector: " + UserSelector,
                "Type '" + password + "' into element matching selector: " + PasswordSelector,
                "Click on element matching selector: " + SubmitSelector,
                "Wait for URL to change" + WaitSuffix])
  {
    var s := FilledLogin(url, username, password);
    var vars := VariablesOf(s);
    assert vars == [("username", username), ("password", password)];
    assert s.steps == LoginScript(url).steps;
    LoginNavigateStep(url, vars);
    LoginFillStep(url, username, password);
    LoginSubmitStep(url, vars);
    var n, t1, t2 := "Navigate to " + url, "Type '" + username + "' into element matching selector: " + UserSelector,
      "Type '" + password + "' into element matching selector: " + PasswordSelector;
    var c, w := "Click on element matching selector: " + SubmitSelector, "Wait for URL to change" + WaitSuffix;
    LoginShape(n, t1, t2, c, w);
    StepsThree(s.steps, vars, ["Navigate to " + url],
      [ "Type '" + username + "' into element matching selector: " + UserSelector,
        "Type '" + password + "' into element matching selector: " + PasswordSelector],
      ["Click on element matching selector: " + SubmitSelector, "Wait for URL to change" + WaitSuffix]);
  }

  // ---------------------------------------------------------------------------------------------
  // Google search

  const GoogleUrl: string := "https://www.google.com"
  const QuerySelector: string := "input[name='q']"
  const SearchButtonSelector: string := "input[type='submit']"
  const ResultSelector: string := ".g"
  const ResultsSelector: string := "#search"

  /** `create_google_search_script(search_query)`; it has no variables. */
  function GoogleSearchScript(query: string): AutomationScript
  {
    AutomationScript("Google Search", "Perform a Google search for '" + query + "' and capture results",
      [ ScriptStep("navigate", "Navigate to Google", [Act(Navigate, None, None, Some(GoogleUrl))], None),
        ScriptStep("search", "Enter search query",
          [ Act(Type, Some(QuerySelector), Some(query), None),
            Act(Click, Some(SearchButtonSelector), None, None)],
          Some(map["type" := Str("element_exists"), "selector" := Str(ResultsSelector)])),
        ScriptStep("capture", "Capture search results",
          [ Act(Extract, Some(ResultSelector), None, None),
            Act(Screenshot, Some(ResultsSelector), None, None)], None)],
      None)
  }

  lemma SearchValidation()
    ensures ValidationTask(Some(map["type" := Str("element_exists"), "selector" := Str(ResultsSelector)])) ==
      Some("Wait for element matching selector: " + ResultsSelector + WaitSuffix)
  {
    var v := map["type" := Str("element_exists"), "selector" := Str(ResultsSelector)];
    DefaultTimeoutText(v);
    assert "type" in v && v != map[];
    assert Lookup(v, "type") == Some(Str("element_exists"));
    assert ShowValue(Lookup(v, "selector")) == ResultsSelector;
  }

  lemma SearchNavigateStep(query: string)
    ensures StepTasks(GoogleSearchScript(query).steps[0], []) == Success(["Navigate to " + GoogleUrl])
  {
    var step := GoogleSearchScript(query).steps[0];
    StepOne(step, [], Navigate);
    var a := step.actions[0];
    assert SubstituteAction(a, []) == a == Act(Navigate, None, None, Some(GoogleUrl));
    ShapeOne(Instruction(Navigate, a), None);
  }

  lemma SearchQueryStep(query: string)
    ensures StepTasks(GoogleSearchScript(query).steps[1], []) ==
      Success([ "Type '" + query + "' into element matching selector: " + QuerySelector,
                "Wait for element matching selector: " + ResultsSelector + WaitSuffix,
                "Click on element matching selector: " + SearchButtonSelector,
                "Wait for element matching selector: " + ResultsSelector + WaitSuffix])
  {
    var step := GoogleSearchScript(query).steps[1];
    StepTwo(step, [], Type, Click);
    var q := SubstituteAction(step.actions[0], []);
    var b := step.actions[1];
    assert q == Act(Type, Some(QuerySelector), Some(query), None);
    assert SubstituteAction(b, []) == b == Act(Click, Some(SearchButtonSelector), None, None);
    SearchValidation();
    var wait := "Wait for element matching selector: " + ResultsSelector + WaitSuffix;
    ShapeTwo(Instruction(Type, q), Instruction(Click, b), Some(wait));
  }

  lemma SearchCaptureStep(query: string)
    ensures StepTasks(GoogleSearchScript(query).steps[2], []) ==
      Success([ "Extract text from element matching selector: " + ResultSelector,
                "Take screenshot of element matching selector: " + ResultsSelector])
  {
    var step := GoogleSearchScript(query).steps[2];
    StepTwo(step, [], Extract, Screenshot);
    var e := step.actions[0];
    var f := step.actions[1];
    assert SubstituteAction(e, []) == e == Act(Extract, Some(ResultSelector), None, None);
    assert SubstituteAction(f, []) == f == Act(Screenshot, Some(ResultsSelector), None, None);
    ShapeTwo(Instruction(Extract, e), Instruction(Screenshot, f), None);
  }

  /** The search step's two actions are each followed by the step's validation instruction, and
      the query is typed as given. */
  lemma GoogleSearchTasks(query: string)
    ensures ScriptTasks(GoogleSearchScript(query).steps, VariablesOf(GoogleSearchScript(query))) ==
      Success([ "Navigate to " + GoogleUrl,
                "Type '" + query + "' into element matching selector: " + QuerySelector,
                "Wait for element matching selector: " + ResultsSelector + WaitSuffix,
                "Click on element matching selector: " + SearchButtonSelector,
                "Wait for element matching selector: " + ResultsSelector + WaitSuffix,
                "Extract text from element matching selector: " + ResultSelector,
                "Take screenshot of element matching selector: " + ResultsSelector])
  {
    var s := GoogleSearchScript(query);
    assert VariablesOf(s) == [];
    SearchNavigateStep(query);
    SearchQueryStep(query);
    SearchCaptureStep(query);
    var n := "Navigate to " + GoogleUrl;
    var t := "Type '" + query + "' into element matching selector: " + QuerySelector;
    var w := "Wait for element matching selector: " + ResultsSelector + WaitSuffix;
    var c := "Click on element matching selector: " + SearchButtonSelector;
    var e := "Extract text from element matching selector: " + ResultSelector;
    var f := "Take screenshot of element matching selector: " + ResultsSelector;
    SearchShape(n, t, w, c, e, f);
    StepsThree(s.steps, [], ["Navigate to " + GoogleUrl],
      [ "Type '" + query + "' into element matching selector: " + QuerySelector,
        "Wait for element matching selector: " + ResultsSelector + WaitSuffix,
        "Click on element matching selector: " + SearchButtonSelector,
        "Wait for element matching selector: " + ResultsSelector + WaitSuffix],
      [ "Extract text from element matching selector: " + ResultSelector,
        "Take screenshot of element matching selector: " + ResultsSelector]);
  }
}
