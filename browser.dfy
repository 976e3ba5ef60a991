/** The script data model: actions, steps with optional validation, and scripts with variables. */
module Browser {
  import opened Wrappers

  /** The seven supported action kinds, each with the string value stored in an action. */
  datatype ActionType = Click | Type | Navigate | Wait | Scroll | Screenshot | Extract {
    function Value(): string
    {
      match this
      case Click => "click"
      case Type => "type"
      case Navigate => "navigate"
      case Wait => "wait"
      case Scroll => "scroll"
      case Screenshot => "screenshot"
      case Extract => "extract"
    }
  }

  /** The kind whose value is `s`, if any; kinds are matched by exact, case-sensitive value. */
  function KindOf(s: string): (r: Option<ActionType>)
    ensures r.Some? ==> r.value.Value() == s
    ensures forall t: ActionType :: t.Value() == s ==> r == Some(t)
  {
    if s == "click" then Some(Click)
    else if s == "type" then Some(Type)
    else if s == "navigate" then Some(Navigate)
    else if s == "wait" then Some(Wait)
    else if s == "scroll" then Some(Scroll)
    else if s == "screenshot" then Some(Screenshot)
    else if s == "extract" then Some(Extract)
    else None
  }

  /** A value held in a step's free-form validation dictionary. */
  datatype Value = Str(s: string) | Int(i: int) | Null

  /** One browser operation. The kind is kept as its string value, as the record stores
      enum values rather than enum members. `coordinates` maps "x" and "y" to integers. */
  datatype BrowserAction = BrowserAction(
    actionType: string,
    selector: Option<string>,
    value: Option<string>,
    url: Option<string>,
    coordinates: Option<map<string, int>>,
    waitTime: Option<int>)

  /** A named group of actions; `validation` holds "type", "selector", "expected_value" and "timeout". */
  datatype ScriptStep = ScriptStep(
    stepId: string,
    description: string,
    actions: seq<BrowserAction>,
    validation: Option<map<string, Value>>)

  /** A script; `variables` lists the dictionary's (name, value) pairs in insertion order. */
  datatype AutomationScript = AutomationScript(
    name: string,
    description: string,
    steps: seq<ScriptStep>,
    variables: Option<seq<(string, string)>>)
}
