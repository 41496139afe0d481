/**
 * The AI-sourcing server action: validate the two descriptions, call the
 * suggestion flow only when both are long enough, and map its answer or
 * failure to the form state.
 */
module SourcingAction {
  import opened Entities
  import opened Validation
  import ContactAction

  const SourcingSchema: Schema := [
    Field("currentProductRange", MinLength(10), false, "Current product range is too short."),
    Field("marketTrends", MinLength(10), false, "Market trends description is too short.")
  ]

  const FallbackError: string := "Invalid input."
  const AiFailedError: string := "Failed to get suggestions from the AI. Please try again later."

  datatype FormState = FormState(suggestions: Option<string>, error: Option<string>)

  /** The returned state and the request sent to the suggestion flow, if one was sent. */
  datatype SourcingRun = SourcingRun(state: FormState, request: Option<map<string, string>>)

  /** `fieldErrors.<key>?.[0]` */
  function FirstFor(issues: seq<Issue>, key: string): Option<string> {
    var f := Flatten(issues);
    if key in f then Some(f[key][0]) else None
  }

  /** `a || b` on optional strings: an absent or empty `a` gives `b`. */
  function OrElse(a: Option<string>, b: string): string {
    if a.Some? && |a.value| > 0 then a.value else b
  }

  /** The two form values as `formData.get` reads them; nothing else is read. */
  function ReadForm(submitted: map<string, string>): (r: Form)
    ensures forall k | k == "currentProductRange" || k == "marketTrends" ::
      Get(r, k) == (if k in submitted then Str(submitted[k]) else Null)
    ensures forall k :: k in r ==> k == "currentProductRange" || k == "marketTrends"
  {
    var keys := ["currentProductRange", "marketTrends"];
    assert keys[0] in keys && keys[1] in keys;
    ContactAction.ReadFields(submitted, keys)
  }

  /**
   * `suggestNewSourcesAction(prevState, formData)`; `ai` is the flow's
   * `suggestedSources`, or `None` when the call throws.
   */
  function SuggestNewSources(submitted: map<string, string>, ai: Option<string>): (r: SourcingRun)
    ensures r.state.suggestions.Some? != r.state.error.Some?
    ensures r.request.None? ==> r.state.error.Some?
    ensures r.request.Some? ==> (r.state.suggestions == ai && (ai.None? <==> r.state.error == Some(AiFailedError)))
  {
    match SafeParse(SourcingSchema, ReadForm(submitted), AnyEmail)
    case Failure(issues) =>
      var err := OrElse(FirstFor(issues, "currentProductRange"), OrElse(FirstFor(issues, "marketTrends"), FallbackError));
      SourcingRun(FormState(None, Some(err)), None)
    case Success(data) =>
      match ai
      case Some(text) => SourcingRun(FormState(Some(text), None), Some(data))
      case None => SourcingRun(FormState(None, Some(AiFailedError)), Some(data))
  }

  predicate LongEnough(submitted: map<string, string>, key: string) {
    key in submitted && |submitted[key]| >= 10
  }

  // ---------------------------------------------------------------------
  // Properties

  /**
   * The flow is called exactly when both descriptions have at least ten
   * characters, and then with exactly the two submitted texts.
   */
  lemma AiCalledIffValid(submitted: map<string, string>, ai: Option<string>)
    ensures var r := SuggestNewSources(submitted, ai);
      r.request.Some? <==> LongEnough(submitted, "currentProductRange") && LongEnough(submitted, "marketTrends")
    ensures var r := SuggestNewSources(submitted, ai);
      r.request.Some? ==> r.request.value == map["currentProductRange" := submitted["currentProductRange"], "marketTrends" := submitted["marketTrends"]]
  {
    var form := ReadForm(submitted);
    var s := SourcingSchema;
    assert (forall i :: 0 <= i < |s| ==> FieldOk(s[i], form, AnyEmail)) <==> FieldOk(s[0], form, AnyEmail) && FieldOk(s[1], form, AnyEmail);
    assert FieldOk(s[0], form, AnyEmail) <==> LongEnough(submitted, "currentProductRange");
    assert FieldOk(s[1], form, AnyEmail) <==> LongEnough(submitted, "marketTrends");
    if LongEnough(submitted, "currentProductRange") && LongEnough(submitted, "marketTrends") {
      assert s[1..] == [s[1]] && s[1..][1..] == [];
      assert Data(s[1..], form) == map["marketTrends" := submitted["marketTrends"]];
    }
  }

  /**
   * On rejection the product-range message wins over the market-trends
   * message; the generic fallback is never reached.
   */
  lemma ErrorPrecedence(submitted: map<string, string>, ai: Option<string>)
    requires !(LongEnough(submitted, "currentProductRange") && LongEnough(submitted, "marketTrends"))
    ensures var e := SuggestNewSources(submitted, ai).state.error;
      && (!LongEnough(submitted, "currentProductRange") ==>
        e == Some(if "currentProductRange" in submitted then "Current product range is too short." else NullMessage))
      && (LongEnough(submitted, "currentProductRange") ==>
        e == Some(if "marketTrends" in submitted then "Market trends description is too short." else NullMessage))
  {
    AiCalledIffValid(submitted, ai);
    var form := ReadForm(submitted);
    var issues := Issues(SourcingSchema, form, AnyEmail);
    var s := SourcingSchema;
    FieldErrorsKeepFirst(issues, "currentProductRange");
    FieldErrorsKeepFirst(issues, "marketTrends");
    assert s[1..] == [s[1]] && s[1..][1..] == [];
    var rest := Issues(s[1..], form, AnyEmail);
    if LongEnough(submitted, "currentProductRange") {
      assert FieldOk(s[0], form, AnyEmail);
      assert issues == rest;
      assert |rest| == 1 && rest[0].key == "marketTrends";
      assert FirstMessageFor(issues, "currentProductRange") == None;
    } else {
      assert issues[0].key == "currentProductRange";
    }
  }
}
