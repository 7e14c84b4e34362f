# Response normalisation of the Bouw design server

`server.py` is a small Flask server with two endpoints that ask a text
generation provider for JSON:

- `POST /api/design` turns a style description into a CSS theme.
- `POST /api/chat` continues a conversation and returns a reply, a lead record
  (name, email, business, type, vibe) and possibly a generated HTML page.

Neither handler trusts what comes back. The reply is stripped of surrounding
whitespace and of a Markdown code fence, parsed with `json.loads`, and then
forced into shape:

- a theme gets every required field and only known overlays and fonts;
- a lead gets five string fields, and `type` and `vibe` are limited to allowed values;
- a page survives only if it declares its document type;
- in `api_design` every failure becomes an error response; in `api_chat` a `JSONDecodeError`, whether `json.loads` or the provider client raised it, gets a fixed retry reply, and every other failure becomes an error response (503 in both handlers when the provider's budget is spent).

This project models that normalisation layer in Dafny and proves what it
guarantees.

The modules follow the handlers:

- `Values`: the JSON values `json.loads` produces, and the Python built-ins the handlers use on them (`dict.get`, truthiness, `in` on a set or a list, hashability).
- `PyText`: the string operations involved: `str.isspace`, `str.strip`, `str.upper` and substring `in`.
- `Fences`: the two anchored substitutions `^```(?:json)?\s*` and `\s*```$`. They are given as functions, with regex-match predicates as the reference they are proved against.
- `StyleTheme`: the required-field defaults and the overlay and font clamps of `api_design`.
- `LeadRecord`: lead defaulting, the type and vibe clamps, and the page check of `api_chat`.
- `ChatMessages`: the loop that builds the provider's message list from the chat history.
- `Handlers`: both handlers end to end. The provider call and `json.loads` are function parameters, and the `except` clauses are modelled as outcome classification.

Loops that update a dictionary or a list in place are methods, each proved equal to a
specification function. The properties are proved about those functions.

## Model

| member | source | states |
|---|---|---|
| `Fences.OpeningFenceRemovesLongestMatch` | server.py:131 | the opening substitution removes exactly the longest prefix `^```(?:json)?\s*` matches, and returns the text unchanged when it does not match |
| `Fences.ClosingFenceRemovesLeftmostMatch` | server.py:132 | the closing substitution removes exactly the leftmost match of `\s*```$` (every match ends at the same place, at the end or before a final newline), and changes nothing when there is no match |
| `Fences.FenceRoundTrip` | server.py:129-132 | a body with no surrounding whitespace, wrapped as "```json\n" + body + "\n```", comes back exactly, both from the two substitutions and from strip-then-substitute |
| `Fences.UnfencedUnchanged` | server.py:131-132 | text that neither starts with ``` nor ends with ``` (or ```\n) passes through both substitutions unchanged |
| `Fences.StripOpeningFence` | server.py:131 | the opening substitution removes a prefix, and no more than that: the result is a suffix of the text, unchanged when the text does not start with ```, and otherwise at least three characters shorter and not starting with whitespace; `OpeningFenceRemovesLongestMatch` proves it is exactly the regex's match |
| `Fences.StripClosingFence` | server.py:132 | the result is never longer than the text and is unchanged without a fence at the end (or before a final newline); a fence at the very end is removed with the whitespace before it; `ClosingFenceRemovesLeftmostMatch` proves it is exactly the regex's match |
| `Fences.CleanReply` | server.py:129-132 | what `json.loads` receives is no longer than the stripped reply; after `strip()` the reply cannot end in a newline, so a reply with no fence at either end reaches `json.loads` exactly as stripped (the same code is at server.py:203-206) |
| `PyText.Strip` | server.py:129 | `str.strip()` returns a contiguous part of the text, with only whitespace cut off on either side, and the result neither starts nor ends with whitespace (also used at server.py:118 and 203) |
| `PyText.Upper` | server.py:227 | `page.upper()` keeps the length, turns each lower-case ASCII letter into the upper-case letter at the same place in the alphabet, changes no other character, and so leaves no lower-case ASCII letter |
| `PyText.Contains` | server.py:227 | the substring test `sub in s` fails when `sub` is longer than `s` and holds for the empty `sub`; `ContainsIffOccurs` characterises it completely (also used at server.py:172 and 245) |
| `PyText.UpperKeepsOccurrence` | server.py:227 | a substring found at position i is found, upper-cased, at position i of the upper-cased text |
| `ChatMessages.Kept` | server.py:182-187 | the messages `api_chat` sends are no more than it received, every role is "user" or "assistant" and every content is truthy; `KeptIsOrderedSelection` states exactly which messages they are |
| `Handlers.NonObjectStyleMessage` | server.py:153-158 | the exception a non-dict style raises: for a string, "'str' object has no attribute 'get'" or "... does not support item assignment"; for a list, "'list' object has no attribute 'get'" or "list indices must be integers or slices, not str"; otherwise "argument of type '<type>' is not iterable"; none of them contains a capital F |
| `Handlers.NonObjectResultMessage` | server.py:211 | the message of the AttributeError that `result.get` raises on a non-dict result contains no capital F, so it cannot carry the budget marker |
| `Fences.ClosingFenceBeforeFinalNewline` | server.py:132 | `$` also matches before a final newline: a body that ends in a non-space, followed by ``` and a newline, loses only the fence and keeps the newline |
| `StyleTheme.FillDefaults` | server.py:153-155 | the defaulting loop adds every key of the defaults table with its default value, keeps every key already present with its value, and removes none |
| `StyleTheme.ClampFonts` | server.py:161-164 | the font loop replaces each of the three font fields that is missing or not an available font with "Familjen Grotesk", leaving all else alone |
| `StyleTheme.NormalizeStyle` | server.py:136-164 | the handler's sequence of dictionary updates yields exactly `NormalStyle` of the decoded object |
| `StyleTheme.NormalStyle` | server.py:136-164 | normalisation fails if and only if a present `overlay` is a list or a dict (TypeError "unhashable type: 'list'" or "'dict'"); otherwise the theme has every required field, an overlay in {none, scanlines, grid, memphis}, fonts from the available list, and exactly the input's keys plus the required ones |
| `StyleTheme.NormalStyleFields` | server.py:153-164 | field by field: unclamped fields keep their value, missing fields get their default, an allowed overlay or font is kept, and any other becomes "none" or "Familjen Grotesk" |
| `StyleTheme.FallbackFontIsAvailable` | server.py:17-21 | "Familjen Grotesk" is one of the available fonts |
| `StyleTheme.DefaultsFacts` | server.py:136-152 | the defaults table has exactly the required keys, a default overlay of "none", and default fonts that are available |
| `StyleTheme.NormalStyleIdempotent` | server.py:153-164 | normalising a normalised theme gives the same theme |
| `StyleTheme.WellFormedThemeIsFixed` | server.py:153-164 | a theme that already has every field, an allowed overlay and available fonts is its own normalisation |
| `LeadRecord.DefaultToStrings` | server.py:214-216 | the defaulting loop makes each of the given keys a string, replacing a missing or non-string value with "" and keeping an existing string |
| `LeadRecord.NormalizeLead` | server.py:210-224 | the handler's sequence of dictionary updates yields exactly `NormalLead` of the provider's "lead" |
| `LeadRecord.NormalLead` | server.py:210-224 | the lead has the five contact fields as strings, `type` in the allowed types and `vibe` in the allowed vibes; it keeps every extra key unchanged, adds no other key, and a missing, empty or non-dict lead gives all five fields "" |
| `LeadRecord.NormalLeadFields` | server.py:214-224 | field by field: a string is kept, except that an unknown `type` becomes "Other" and an unknown `vibe` becomes ""; a missing or non-string field becomes "" |
| `LeadRecord.NonObjectLeadIsEmpty` | server.py:211-213 | a "lead" that is not a dict, or is absent, yields the all-empty lead |
| `LeadRecord.NormalLeadIdempotent` | server.py:210-224 | normalising a normalised lead gives the same lead |
| `LeadRecord.ValidatePage` | server.py:226-228 | a page survives only as the same string, and only if its upper-cased form contains "<!DOCTYPE"; every such string survives |
| `LeadRecord.DeclaredPageKept` | server.py:227-228 | a page whose upper-cased form has "<!DOCTYPE" at some position is returned unchanged |
| `LeadRecord.AnyCaseDeclarationKept` | server.py:227-228 | a page that spells the declaration in any mix of upper and lower case ("<!doctype", "<!DocType", ...) is kept as well, because the check upper-cases the page |
| `LeadRecord.ValidatePageIdempotent` | server.py:226-228 | a page that passed the check passes it again unchanged |
| `ChatMessages.ToApiMessages` | server.py:182-187 | the loop builds exactly the selection `Kept` of the history; every role is "user" or "assistant", and every content is non-empty |
| `ChatMessages.KeptIsOrderedSelection` | server.py:182-187 | the kept messages are the history's messages with non-empty text, in their original order, each converted with role "user" exactly when its role was "user" |
| `ChatMessages.KeptEmptyIff` | server.py:186-189 | nothing is kept if and only if every message's text is empty or otherwise falsy |
| `PyText.ContainsIffOccurs` | server.py:172 | substring `in` holds if and only if the substring occurs at some position |
| `Handlers.DesignFailure` | server.py:168-174 | in `api_design` every failure is an error; the status is 503 exactly when the exception's message contains "FREE_CLOUD_BUDGET_EXCEEDED", unparsable text gives 500 "AI returned invalid JSON. Please try again.", and any other exception gives 500 "AI error: " plus its message |
| `Handlers.ChatFailure` | server.py:237-247 | in `api_chat` unparsable text yields the fixed retry reply with the all-empty lead and no page; any exception yields an error with status 503 exactly when its message contains the budget marker, and otherwise 500 with the message itself |
| `Handlers.ShapeMessagesAreNotBudget` | server.py:170-174 | the errors Python raises when the decoded value is not a dict never contain the budget marker, so they are always answered with 500 |
| `Handlers.ApiDesign` | server.py:116-174 | an empty or all-whitespace prompt gives 400 "Please describe a style."; otherwise the provider receives the stripped prompt, and the response is fixed by its reply and by the outcome of `json.loads` on the cleaned text: an exception from either, a `JSONDecodeError` included, is classified by `DesignFailure`, a dict is normalised (`NormalStyle`), any other value raises the error `NonObjectStyleMessage` gives; a theme that is returned is always well formed |
| `Handlers.ChatOutcome` | server.py:208-247 | after the provider answered: an exception from `json.loads` is classified by `ChatFailure` (so a `JSONDecodeError` gives the retry reply); a non-dict result gives a 500 error; a dict gives exactly `result.get("reply", "Tell me more about your business!")`, `NormalLead` of its "lead" and `ValidatePage` of its "page", so the lead is always well formed and a page, if any, declares its document type |
| `Handlers.ApiChat` | server.py:178-247 | `api_chat` answers with the greeting, the all-empty lead and no page, without consulting the provider, exactly when every message's text is empty or otherwise falsy; otherwise the provider receives exactly the kept messages and its answer is handled as `ChatOutcome`, or its exception is classified by `ChatFailure` (a `JSONDecodeError` it raised gives the retry reply) |

## Left out

- Flask routing, `request.get_json`, `jsonify` and static file serving: these are HTTP plumbing. The handlers take the prompt as a string and the history as a sequence of objects, which leaves out how they are read from the request body (server.py:117-118, 179-180):
  - A body that is not JSON, or is falsy JSON (`null`, `false`, `0`, `""`, `[]`), becomes `{}` through `or {}`. A missing prompt is `""` and gives the 400; missing messages are `[]` and give the greeting. A `messages` value of `""` or `{}` also gives the greeting.
  - A truthy body that is not an object, a `prompt` that is not a string, a non-empty `messages` value whose items are not objects, or a `messages` value that is not iterable (null, a number, a boolean) raises outside the `try` blocks. Flask turns that into its own 500, which is not modelled.
- The provider client (`client.messages.create`) is a network call. It is a parameter of the handlers that yields the reply's text or the exception it raised, as a fault: `Unparsable` for a `JSONDecodeError` (raised, say, while the client decodes a malformed response), `Raised` with its message for any other. The model name, token limits and system prompts are left out.
- `json.loads` is a parameter: any function from text to a JSON value or an exception. `Unparsable` stands for `JSONDecodeError`; any other exception it may raise (a `RecursionError` on deep nesting, a `ValueError` on an integer literal over 4300 digits) is `Raised` with its message and goes to `except Exception`, where `api_chat` answers 500. Its grammar, and which texts raise which exception, are not modelled. Floating-point numbers are modelled as reals, so NaN and Infinity are left out.
- The prompt texts and the environment-variable configuration. These are instructions to the provider and deployment settings, not behaviour.
- `Handlers.NonObjectStyleMessage`, `Handlers.NonObjectResultMessage` and `StyleTheme.NormalStyle` (its "unhashable type: '...'" error) give the exception messages in CPython 3.12 wording, which other Python versions may phrase differently. What matters about them for the response, that they never carry the budget marker (`Handlers.ShapeMessagesAreNotBudget`), holds for any wording that contains no capital F; the unhashable-type message is sent back verbatim after "AI error: ".
- `PyText.Upper` maps only ASCII letters, whereas Python's `str.upper` also maps other scripts and may lengthen a string. No non-ASCII character upper-cases to text that starts with '<', 'D', 'O', 'C', 'T', 'Y', 'P' or 'E' and continues the marker, so whether "<!DOCTYPE" occurs comes out the same either way. This argument is made here, not proved in the model.
- In `api_chat`, `lead` is the same dictionary object as `result["lead"]`, so the updates also change `result`. Nothing reads `result["lead"]` afterwards, so the model works on values and does not represent this sharing.
