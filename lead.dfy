/**
 * Normalisation of the lead record and the page that `api_chat` returns.
 * Whatever the provider put under "lead" becomes a dict whose five contact
 * fields are strings, with `type` and `vibe` clamped to their allowed
 * values; "page" survives only as a string that carries a document-type
 * declaration.
 */
module LeadRecord {
  import opened Values
  import opened PyText

  /** The keys of `lead_defaults`, in iteration order; each defaults to "". */
  const LeadKeys: seq<string> := ["name", "email", "business", "type", "vibe"]

  const ValidTypes: set<string> := {"Restaurant", "Nightclub / Bar", "Online Store", "Other", ""}

  /** What a `type` outside `ValidTypes` becomes. */
  const FallbackType := "Other"

  const ValidVibes: set<string> := {
    "Warm & Elegant", "Dark & Bold", "Clean & Minimal", "Loud & Electric", "Playful & Fun", "Raw & Edgy", ""
  }

  /** What a `vibe` outside `ValidVibes` becomes. */
  const FallbackVibe := ""

  /** The lead of the fixed replies: every contact field empty. */
  const EmptyLead: Object := map["name" := JString(""), "email" := JString(""), "business" := JString(""),
                                 "type" := JString(""), "vibe" := JString("")]

  const DoctypeMarker := "<!DOCTYPE"

  /** A lead a client can show: the five fields are strings, `type` and `vibe` allowed values. */
  predicate WellFormedLead(lead: Object)
  {
    && (forall k :: k in LeadKeys ==> k in lead && lead[k].JString?)
    && InSet(lead["type"], ValidTypes)
    && InSet(lead["vibe"], ValidVibes)
  }

  /** `result.get("lead", {})`, replaced by `{}` when it is not a dict. */
  function LeadObject(raw: Option<Json>): Object
  {
    if raw.Some? && raw.value.JObject? then raw.value.fields else map[]
  }

  /** The lead with every field of `keys` that is missing or not a string set to "". */
  function WithStringFields(lead: Object, keys: seq<string>): Object
  {
    map k | k in lead.Keys + (set f | f in keys) ::
      if k in keys && !(k in lead && lead[k].JString?) then JString("") else lead[k]
  }

  /** `v` with an out-of-set string replaced by `fallback` (`if v not in allowed: v = fallback`). */
  function Clamp(v: Json, allowed: set<string>, fallback: string): Json
  {
    if InSet(v, allowed) then v else JString(fallback)
  }

  /** The lead `api_chat` returns for what the provider put under "lead". */
  function NormalLead(raw: Option<Json>): (lead: Object)
    ensures WellFormedLead(lead)
    ensures lead.Keys == LeadObject(raw).Keys + (set f | f in LeadKeys)
    ensures forall k :: k in LeadObject(raw) && k !in LeadKeys ==> lead[k] == LeadObject(raw)[k]
    ensures LeadObject(raw) == map[] ==> lead == EmptyLead
  {
    var filled := WithStringFields(LeadObject(raw), LeadKeys);
    var typed := filled["type" := Clamp(filled["type"], ValidTypes, FallbackType)];
    typed["vibe" := Clamp(typed["vibe"], ValidVibes, FallbackVibe)]
  }

  /**
   * Field by field: a contact field that was a string is kept, except that
   * an unknown `type` becomes "Other" and an unknown `vibe` becomes "";
   * anything else (missing, a number, a list, ...) becomes "".
   */
  lemma NormalLeadFields(raw: Option<Json>)
    ensures var given := LeadObject(raw); var lead := NormalLead(raw);
      && (forall k :: k in LeadKeys && k != "type" && k != "vibe" ==>
            lead[k] == if k in given && given[k].JString? then given[k] else JString(""))
      && lead["type"] == (if "type" in given && given["type"].JString? then Clamp(given["type"], ValidTypes, FallbackType) else JString(""))
      && lead["vibe"] == (if "vibe" in given && given["vibe"].JString? then Clamp(given["vibe"], ValidVibes, FallbackVibe) else JString(""))
  {
  }

  /** A lead that is not a dict yields the all-empty lead. */
  lemma NonObjectLeadIsEmpty(raw: Option<Json>)
    requires !(raw.Some? && raw.value.JObject?)
    ensures NormalLead(raw) == EmptyLead
  {
  }

  /** Normalising a normalised lead changes nothing. */
  lemma NormalLeadIdempotent(raw: Option<Json>)
    ensures NormalLead(Some(JObject(NormalLead(raw)))) == NormalLead(raw)
  {
    var lead := NormalLead(raw);
    var again := NormalLead(Some(JObject(lead)));
    assert WithStringFields(lead, LeadKeys) == lead;
    assert again.Keys == lead.Keys;
  }

  /**
   * Lines 210-224 of `api_chat`: the lead is taken from the result, its
   * contact fields are defaulted in a loop, then `type` and `vibe` are
   * clamped in place.
   */
  method NormalizeLead(raw: Option<Json>) returns (lead: Object)
    ensures lead == NormalLead(raw)
  {
    lead := if raw.Some? && raw.value.JObject? then raw.value.fields else map[];
    lead := DefaultToStrings(lead, LeadKeys);
    if !InSet(GetOr(lead, "type", JString("")), ValidTypes) {
      lead := lead["type" := JString(FallbackType)];
    }
    if !InSet(GetOr(lead, "vibe", JString("")), ValidVibes) {
      lead := lead["vibe" := JString(FallbackVibe)];
    }
  }

  /** The defaulting loop: `if k not in lead or not isinstance(lead[k], str): lead[k] = ""`. */
  method DefaultToStrings(lead: Object, keys: seq<string>) returns (filled: Object)
    ensures filled == WithStringFields(lead, keys)
    ensures forall k :: k in keys ==> k in filled && filled[k].JString?
  {
    filled := lead;
    for i := 0 to |keys|
      invariant forall k :: k in filled <==> k in lead || k in keys[..i]
      invariant forall k :: k in filled ==>
        filled[k] == if k in keys[..i] && !(k in lead && lead[k].JString?) then JString("") else lead[k]
    {
      var k := keys[i];
      assert keys[..i + 1] == keys[..i] + [k];
      if k !in filled || !filled[k].JString? {
        filled := filled[k := JString("")];
      }
    }
    assert keys[..|keys|] == keys;
  }

  /** The page check: a page survives only as a string whose upper-cased form contains "<!DOCTYPE". */
  function ValidatePage(page: Option<Json>): (r: Option<string>)
    ensures r.Some? ==> page == Some(JString(r.value)) && Contains(Upper(r.value), DoctypeMarker)
    ensures page.Some? && page.value.JString? && Contains(Upper(page.value.s), DoctypeMarker) ==> r == Some(page.value.s)
  {
    match page
    case Some(JString(s)) => if Contains(Upper(s), DoctypeMarker) then Some(s) else None
    case _ => None
  }

  /** A page that declares its document type, in any mix of letter case, is kept unchanged. */
  lemma DeclaredPageKept(page: string, i: int)
    requires OccursAt(Upper(page), DoctypeMarker, i)
    ensures ValidatePage(Some(JString(page))) == Some(page)
  {
    ContainsIffOccurs(Upper(page), DoctypeMarker);
  }

  /**
   * A page that spells the declaration in any mix of cases ("<!DocType",
   * "<!doctype", ...) at position `i` is kept.
   */
  lemma AnyCaseDeclarationKept(page: string, i: nat)
    requires i + 9 <= |page|
    requires forall j :: 0 <= j < 9 ==> page[i + j] == "<!doctype"[j] || page[i + j] == DoctypeMarker[j]
    ensures ValidatePage(Some(JString(page))) == Some(page)
  {
    var spelled := page[i..i + 9];
    UpperKeepsOccurrence(page, spelled, i);
    forall j | 0 <= j < 9
      ensures Upper(spelled)[j] == DoctypeMarker[j]
    {
      assert spelled[j] == page[i + j];
    }
    assert Upper(spelled) == DoctypeMarker;
    DeclaredPageKept(page, i);
  }

  /** Checking a page that passed the check again keeps it. */
  lemma ValidatePageIdempotent(page: Option<Json>)
    requires ValidatePage(page).Some?
    ensures ValidatePage(Some(JString(ValidatePage(page).value))) == ValidatePage(page)
  {
  }
}
