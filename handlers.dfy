/**
 * The two request handlers of server.py, from the request's content to the
 * response: `api_design` (a style theme) and `api_chat` (a reply, a lead and
 * maybe a page). The provider call and `json.loads` are parameters: the
 * first gives the provider's text or the message of the exception it
 * raised, the second is any partial parser.
 */
module Handlers {
  import opened Values
  import opened PyText
  import opened Fences
  import opened StyleTheme
  import opened LeadRecord
  import opened ChatMessages

  /**
   * What the provider call yields: its text, or the exception it raised.
   * The `except json.JSONDecodeError` clauses catch that class wherever it
   * is raised inside the `try`, so a client that fails to decode the
   * provider's answer yields `Failed(Unparsable)`.
   */
  datatype ProviderReply = Text(text: string) | Failed(fault: Fault)

  /** A handler's response; the two replies are sent with status 200. */
  datatype Response =
    | StyleReply(theme: Object)
    | ChatReply(reply: Json, lead: Object, page: Option<string>)
    | Failure(status: nat, error: string)

  /** The text by which an exception reports that the provider's budget is spent. */
  const BudgetMarker := "FREE_CLOUD_BUDGET_EXCEEDED"

  const EmptyPromptError := "Please describe a style."
  const InvalidJsonError := "AI returned invalid JSON. Please try again."
  const DesignBudgetError := "Cloud budget exceeded. Please try again later."
  const ChatBudgetError := "Cloud budget exceeded."

  const Greeting := "Hey! I'm Tobias's AI assistant. Tell me about your business and I'll design a website preview for you right now. What's your business called?"
  const RetryReply := "Let me try that again — tell me more about your business!"
  const DefaultReply := "Tell me more about your business!"

  /** The `except` clauses of `api_design`: every failure is an error response. */
  function DesignFailure(f: Fault): (r: Response)
    ensures r.Failure?
    ensures r.status == 503 <==> f.Raised? && Contains(f.message, BudgetMarker)
    ensures r.status == 503 ==> r.error == DesignBudgetError
    ensures f == Unparsable ==> r == Failure(500, InvalidJsonError)
    ensures f.Raised? && !Contains(f.message, BudgetMarker) ==> r == Failure(500, "AI error: " + f.message)
  {
    match f
    case Unparsable => Failure(500, InvalidJsonError)
    case Raised(m) =>
      if Contains(m, BudgetMarker) then Failure(503, DesignBudgetError) else Failure(500, "AI error: " + m)
  }

  /**
   * The `except` clauses of `api_chat`: unparsable text is answered with a
   * fixed reply and an empty lead, any other exception is an error response.
   */
  function ChatFailure(f: Fault): (r: Response)
    ensures f == Unparsable ==> r == ChatReply(JString(RetryReply), EmptyLead, None)
    ensures r.Failure? <==> f.Raised?
    ensures r.Failure? ==> (r.status == 503 <==> Contains(f.message, BudgetMarker))
    ensures r.Failure? && r.status == 503 ==> r.error == ChatBudgetError
    ensures f.Raised? && !Contains(f.message, BudgetMarker) ==> r == Failure(500, f.message)
  {
    match f
    case Unparsable => ChatReply(JString(RetryReply), EmptyLead, None)
    case Raised(m) => if Contains(m, BudgetMarker) then Failure(503, ChatBudgetError) else Failure(500, m)
  }

  /**
   * `str(e)` when the decoded style is not a dict (CPython 3.12 wording):
   * `field not in style` fails on a value that is not a container, the
   * assignment fails on a string or a list that lacks a required field, and
   * `style.get` fails when every field was found.
   */
  function NonObjectStyleMessage(v: Json): (m: string)
    requires !v.JObject?
    ensures 'F' !in m
    ensures v.JString? ==> m in {StrHasNoGet, StrNoAssignment}
    ensures v.JArray? ==> m in {ListHasNoGet, ListIndexNotStr}
    ensures !v.JString? && !v.JArray? ==> m == NotIterable(TypeName(v))
  {
    match v
    case JString(s) =>
      StrMessagesHaveNoF();
      if forall f :: f in RequiredFields ==> Contains(s, f) then StrHasNoGet else StrNoAssignment
    case JArray(items) =>
      ListMessagesHaveNoF();
      if forall f :: f in RequiredFields ==> JString(f) in items then ListHasNoGet else ListIndexNotStr
    case _ => NotIterable(TypeName(v))
  }

  const StrHasNoGet := "'str' object has no attribute 'get'"
  const StrNoAssignment := "'str' object does not support item assignment"
  const ListHasNoGet := "'list' object has no attribute 'get'"
  /** Written as two pieces: the proof that it has no 'F' goes piece by piece. */
  const ListIndexNotStr := "list indices must be " + "integers or slices, not str"

  function NotIterable(name: string): string
  {
    "argument of type '" + name + "' is not iterable"
  }

  /** `str(e)` when the decoded chat result is not a dict: `result.get` does not exist. */
  function NonObjectResultMessage(v: Json): (m: string)
    ensures 'F' !in m
  {
    "'" + TypeName(v) + "' object has no attribute 'get'"
  }

  /** The runtime's own messages about a decoded value never carry the budget marker. */
  lemma ShapeMessagesAreNotBudget(v: Json)
    ensures !v.JObject? ==> !Contains(NonObjectStyleMessage(v), BudgetMarker)
    ensures !Contains(NonObjectResultMessage(v), BudgetMarker)
  {
    NoMarkerWithoutF(NonObjectResultMessage(v));
    if !v.JObject? {
      NoMarkerWithoutF(NonObjectStyleMessage(v));
    }
  }

  lemma StrMessagesHaveNoF()
    ensures 'F' !in StrHasNoGet && 'F' !in StrNoAssignment
  {
    assert 'F' !in StrHasNoGet;
  }

  lemma ListMessagesHaveNoF()
    ensures 'F' !in ListHasNoGet && 'F' !in ListIndexNotStr
  {
    assert 'F' !in ListHasNoGet;
    assert 'F' !in "list indices must be ";
  }

  /** The marker begins with 'F', so a text without an 'F' cannot contain it. */
  lemma NoMarkerWithoutF(m: string)
    requires 'F' !in m
    ensures !Contains(m, BudgetMarker)
  {
    ContainsIffOccurs(m, BudgetMarker);
    forall i | OccursAt(m, BudgetMarker, i) ensures false {
      OccursAtStart(m, BudgetMarker, i);
    }
  }

  /**
   * `api_design`: validate the prompt, call the provider, clean and parse
   * its text, normalise the theme. `parse` is `json.loads`: its value, or
   * the exception it raised.
   */
  method ApiDesign(prompt: string, provider: string -> ProviderReply, parse: string -> Result<Json>)
    returns (resp: Response)
    ensures Strip(prompt) == "" ==> resp == Failure(400, EmptyPromptError)
    ensures Strip(prompt) != "" ==>
      match provider(Strip(prompt))
      case Failed(f) => resp == DesignFailure(f)
      case Text(raw) =>
        match parse(CleanReply(raw))
        case Err(f) => resp == DesignFailure(f)
        case Ok(JObject(style)) =>
          resp == (match NormalStyle(style) case Ok(theme) => StyleReply(theme) case Err(f) => DesignFailure(f))
        case Ok(v) => resp == DesignFailure(Raised(NonObjectStyleMessage(v)))
    ensures resp.StyleReply? ==> WellFormedTheme(resp.theme)
    ensures !resp.ChatReply?
  {
    var request := Strip(prompt);
    if request == "" {
      return Failure(400, EmptyPromptError);
    }
    var reply := provider(request);
    match reply
    case Failed(f) =>
      resp := DesignFailure(f);
    case Text(text) =>
      var raw := CleanReply(text);
      var parsed := parse(raw);
      match parsed
      case Err(f) =>
        resp := DesignFailure(f);
      case Ok(v) =>
        if !v.JObject? {
          resp := DesignFailure(Raised(NonObjectStyleMessage(v)));
        } else {
          var normal := NormalizeStyle(v.fields);
          match normal
          case Ok(theme) => resp := StyleReply(theme);
          case Err(f) => resp := DesignFailure(f);
        }
  }

  /**
   * The `try` block of `api_chat` after the provider answered: what the
   * outcome of `json.loads` becomes. A result that is not a dict raises on
   * `.get`; a dict gives its "reply" (or a default), its normalised lead and
   * its validated page.
   */
  function ChatOutcome(parsed: Result<Json>): (resp: Response)
    ensures parsed.Err? ==> resp == ChatFailure(parsed.fault)
    ensures parsed.Ok? && !parsed.value.JObject? ==> resp == ChatFailure(Raised(NonObjectResultMessage(parsed.value)))
    ensures parsed.Ok? && parsed.value.JObject? ==>
      var result := parsed.value.fields;
      resp == ChatReply(GetOr(result, "reply", JString(DefaultReply)), NormalLead(Get(result, "lead")), ValidatePage(Get(result, "page")))
    ensures parsed.Ok? && resp.Failure? ==> resp.status == 500
    ensures resp.ChatReply? ==> WellFormedLead(resp.lead)
    ensures resp.ChatReply? && resp.page.Some? ==> Contains(Upper(resp.page.value), DoctypeMarker)
    ensures !resp.StyleReply?
  {
    match parsed
    case Err(f) => ChatFailure(f)
    case Ok(JObject(result)) =>
      ChatReply(GetOr(result, "reply", JString(DefaultReply)), NormalLead(Get(result, "lead")), ValidatePage(Get(result, "page")))
    case Ok(v) =>
      ShapeMessagesAreNotBudget(v);
      ChatFailure(Raised(NonObjectResultMessage(v)))
  }

  /** `api_chat`: filter the history, call the provider, clean and parse its text, normalise lead and page. */
  method ApiChat(history: seq<Object>, provider: seq<ApiMessage> -> ProviderReply, parse: string -> Result<Json>)
    returns (resp: Response)
    ensures (forall i :: 0 <= i < |history| ==> !Truthy(TextOf(history[i]))) <==>
      resp == ChatReply(JString(Greeting), EmptyLead, None) && Kept(history) == []
    ensures Kept(history) != [] ==>
      match provider(Kept(history))
      case Failed(f) => resp == ChatFailure(f)
      case Text(raw) => resp == ChatOutcome(parse(CleanReply(raw)))
  {
    var api := ToApiMessages(history);
    KeptEmptyIff(history);
    if api == [] {
      return ChatReply(JString(Greeting), EmptyLead, None);
    }
    var reply := provider(api);
    match reply
    case Failed(f) =>
      resp := ChatFailure(f);
    case Text(text) =>
      var raw := CleanReply(text);
      var parsed := parse(raw);
      match parsed
      case Err(f) =>
        resp := ChatFailure(f);
      case Ok(v) =>
        if !v.JObject? {
          resp := ChatFailure(Raised(NonObjectResultMessage(v)));
        } else {
          var result := v.fields;
          var lead := NormalizeLead(Get(result, "lead"));
          var page := ValidatePage(Get(result, "page"));
          resp := ChatReply(GetOr(result, "reply", JString(DefaultReply)), lead, page);
        }
  }
}
