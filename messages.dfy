/**
 * The chat history a browser sends to `api_chat`, turned into the messages
 * the provider is called with: each message gets the role "user" when it
 * says so and "assistant" otherwise, and messages whose text is empty (or
 * otherwise falsy) are dropped.
 */
module ChatMessages {
  import opened Values

  /** One message as the provider receives it: `{"role": role, "content": text}`. */
  datatype ApiMessage = ApiMessage(role: string, content: Json)

  /** `"user" if msg.get("role") == "user" else "assistant"`. */
  function RoleOf(msg: Object): string
  {
    if Get(msg, "role") == Some(JString("user")) then "user" else "assistant"
  }

  /** `msg.get("text", "")`. */
  function TextOf(msg: Object): Json
  {
    GetOr(msg, "text", JString(""))
  }

  function ToApi(msg: Object): ApiMessage
  {
    ApiMessage(RoleOf(msg), TextOf(msg))
  }

  /** The messages kept from `history`, in order. */
  function Kept(history: seq<Object>): (api: seq<ApiMessage>)
    ensures |api| <= |history|
    ensures forall j :: 0 <= j < |api| ==> (api[j].role == "user" || api[j].role == "assistant") && Truthy(api[j].content)
  {
    if history == [] then []
    else
      var last := history[|history| - 1];
      Kept(history[..|history| - 1]) + (if Truthy(TextOf(last)) then [ToApi(last)] else [])
  }

  /**
   * `Kept` is exactly the selection of the messages with non-empty text:
   * `idx` lists their positions in increasing order, each kept message is
   * the converted message at its position, and a position appears in `idx`
   * if and only if that message's text is non-empty.
   */
  lemma {:induction false} KeptIsOrderedSelection(history: seq<Object>) returns (idx: seq<nat>)
    ensures |idx| == |Kept(history)|
    ensures forall j :: 0 <= j < |idx| ==> idx[j] < |history| && Kept(history)[j] == ToApi(history[idx[j]])
    ensures forall j, j' :: 0 <= j < j' < |idx| ==> idx[j] < idx[j']
    ensures forall i :: 0 <= i < |history| ==> (i in idx <==> Truthy(TextOf(history[i])))
  {
    if history == [] {
      return [];
    }
    var n := |history| - 1;
    var front := history[..n];
    var prefix := KeptIsOrderedSelection(front);
    assert forall i :: 0 <= i < n ==> front[i] == history[i];
    if Truthy(TextOf(history[n])) {
      idx := prefix + [n];
    } else {
      idx := prefix;
    }
  }

  /** Nothing is kept exactly when every message has empty text. */
  lemma KeptEmptyIff(history: seq<Object>)
    ensures Kept(history) == [] <==> forall i :: 0 <= i < |history| ==> !Truthy(TextOf(history[i]))
  {
    var idx := KeptIsOrderedSelection(history);
    if Kept(history) != [] {
      assert idx[0] in idx;
    } else {
      forall i | 0 <= i < |history| ensures !Truthy(TextOf(history[i])) {
        assert |idx| == 0;
      }
    }
  }

  /** Lines 182-187 of `api_chat`: the loop that builds `api_messages`. */
  method ToApiMessages(history: seq<Object>) returns (api: seq<ApiMessage>)
    ensures api == Kept(history)
    ensures forall j :: 0 <= j < |api| ==> api[j].role == "user" || api[j].role == "assistant"
    ensures forall j :: 0 <= j < |api| ==> Truthy(api[j].content)
  {
    api := [];
    for i := 0 to |history|
      invariant api == Kept(history[..i])
      invariant forall j :: 0 <= j < |api| ==> (api[j].role == "user" || api[j].role == "assistant") && Truthy(api[j].content)
    {
      var msg := history[i];
      var role := if Get(msg, "role") == Some(JString("user")) then "user" else "assistant";
      var text := GetOr(msg, "text", JString(""));
      assert history[..i + 1][..i] == history[..i];
      if Truthy(text) {
        api := api + [ApiMessage(role, text)];
      }
    }
    assert history[..|history|] == history;
  }
}
