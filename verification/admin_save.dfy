/**
 * The shape shared by the admin save handlers (add product, edit product,
 * add blog post): clear the field errors, validate, and either show the
 * errors or set the saving flag, issue one write, react to its outcome,
 * and clear the saving flag however the write settles.
 */
module AdminSave {
  import opened Entities
  import opened Effects
  import opened Validation

  const ValidationTitle: string := "Validation Failed"
  const ValidationText: string := "Please check the highlighted fields."
  const WriteFailedText: string := "You do not have permission or an error occurred."

  /** The slug field of a written document. */
  function SlugOf(d: Doc): string {
    if "slug" in d then d["slug"] else ""
  }

  /** What a success continuation may do: revalidate, notify and navigate, but not write or touch the flag. */
  predicate Quiet(t: Trace) {
    forall i :: 0 <= i < |t| ==> !t[i].Write? && !t[i].PermissionEvent? && !t[i].SetSaving?
  }

  /**
   * `handleSave(formData)`: `parsed` is the schema's verdict, `payloadOf`
   * builds the document from the validated data, and `onSuccess(id, doc)`
   * is what the `.then` branch does with the new document's id.
   */
  function SaveHandler(parsed: Parsed, path: string, op: Op, payloadOf: map<string, string> -> Doc,
                       outcome: Outcome, onSuccess: (string, Doc) -> Trace, failTitle: string): (t: Trace)
    ensures |t| > 0 && t[0] == ClearErrors
  {
    [ClearErrors] +
    match parsed
    case Failure(issues) =>
      [ShowErrors(FieldErrors(issues)), Notify(ValidationTitle, ValidationText, true)]
    case Success(data) =>
      var payload := payloadOf(data);
      [SetSaving(true), Write(path, op, payload)]
        + Settled(path, op, payload, outcome, onSuccess, failTitle)
        + [SetSaving(false)]
  }

  /** The branch the write's outcome selects. */
  function Settled(path: string, op: Op, payload: Doc, outcome: Outcome, onSuccess: (string, Doc) -> Trace, failTitle: string): Trace {
    match outcome
    case Succeeded(id) => onSuccess(id, payload)
    case Failed(_) => [PermissionEvent(path, op, Some(payload)), Notify(failTitle, WriteFailedText, true)]
  }

  // ---------------------------------------------------------------------
  // Properties

  /** A rejected form shows the first message of each failing field and never writes or sets the saving flag. */
  lemma RejectedFormEffects(issues: seq<Issue>, path: string, op: Op, payloadOf: map<string, string> -> Doc,
                            outcome: Outcome, onSuccess: (string, Doc) -> Trace, failTitle: string)
    ensures var t := SaveHandler(Failure(issues), path, op, payloadOf, outcome, onSuccess, failTitle);
      && t[1] == ShowErrors(FieldErrors(issues))
      && Writes(t) == 0 && Count(t, IsSetSaving) == 0 && PermissionEvents(t) == 0
  {
    var t := SaveHandler(Failure(issues), path, op, payloadOf, outcome, onSuccess, failTitle);
    assert t == [ClearErrors, ShowErrors(FieldErrors(issues)), Notify(ValidationTitle, ValidationText, true)];
    assert forall i :: 0 <= i < |t| ==> !t[i].Write? && !t[i].SetSaving? && !t[i].PermissionEvent?;
  }

  /**
   * An accepted form writes exactly once, emits one permission event exactly
   * when the write fails, and ends with the saving flag cleared.
   */
  lemma AcceptedFormEffects(data: map<string, string>, path: string, op: Op, payloadOf: map<string, string> -> Doc,
                            outcome: Outcome, onSuccess: (string, Doc) -> Trace, failTitle: string)
    requires forall id, d :: Quiet(onSuccess(id, d))
    ensures var t := SaveHandler(Success(data), path, op, payloadOf, outcome, onSuccess, failTitle);
      && Writes(t) == 1 && Write(path, op, payloadOf(data)) in t
      && PermissionEvents(t) == (if outcome.Failed? then 1 else 0)
      && (outcome.Failed? ==> PermissionEvent(path, op, Some(payloadOf(data))) in t)
      && t[|t| - 1] == SetSaving(false)
  {
    var payload := payloadOf(data);
    var head := [ClearErrors, SetSaving(true), Write(path, op, payload)];
    var mid := Settled(path, op, payload, outcome, onSuccess, failTitle);
    var last := [SetSaving(false)];
    var t := SaveHandler(Success(data), path, op, payloadOf, outcome, onSuccess, failTitle);
    assert t == head + mid + last;
    HeadCounts(path, op, payload);
    SettledCounts(path, op, payload, outcome, onSuccess, failTitle);
    CountAppend(head + mid, last, IsWrite);
    CountAppend(head, mid, IsWrite);
    CountAppend(head + mid, last, IsPermissionEvent);
    CountAppend(head, mid, IsPermissionEvent);
  }

  lemma HeadCounts(path: string, op: Op, payload: Doc)
    ensures Count([ClearErrors, SetSaving(true), Write(path, op, payload)], IsWrite) == 1
    ensures Count([ClearErrors, SetSaving(true), Write(path, op, payload)], IsPermissionEvent) == 0
  {
    var w := [Write(path, op, payload)];
    var h := [ClearErrors, SetSaving(true), Write(path, op, payload)];
    assert h[1..] == [SetSaving(true)] + w;
    assert ([SetSaving(true)] + w)[1..] == w;
    assert Count(w, IsWrite) == 1;
  }

  lemma SettledCounts(path: string, op: Op, payload: Doc, outcome: Outcome, onSuccess: (string, Doc) -> Trace, failTitle: string)
    requires forall id, d :: Quiet(onSuccess(id, d))
    ensures var m := Settled(path, op, payload, outcome, onSuccess, failTitle);
      Count(m, IsWrite) == 0 && Count(m, IsPermissionEvent) == (if outcome.Failed? then 1 else 0)
  {
    var m := Settled(path, op, payload, outcome, onSuccess, failTitle);
    if outcome.Failed? {
      assert m[1..] == [Notify(failTitle, WriteFailedText, true)];
    } else {
      assert Quiet(onSuccess(outcome.docId, payload));
    }
  }

  /**
   * The whole handler over the schema's verdict: a rejected form writes
   * nothing and never sets the saving flag; an accepted one writes exactly
   * once, emits one permission event exactly when the write fails, clears
   * the flag, and reaches the success continuation's destination exactly
   * when the write succeeds.
   */
  lemma SaveHandlerEffects(parsed: Parsed, path: string, op: Op, payloadOf: map<string, string> -> Doc, outcome: Outcome,
                           onSuccess: (string, Doc) -> Trace, failTitle: string, dest: string)
    requires forall id, d :: Quiet(onSuccess(id, d)) && Navigate(dest) in onSuccess(id, d)
    ensures var t := SaveHandler(parsed, path, op, payloadOf, outcome, onSuccess, failTitle);
      && (parsed.Failure? ==> Writes(t) == 0 && Count(t, IsSetSaving) == 0 && PermissionEvents(t) == 0)
      && (parsed.Success? ==>
        && Writes(t) == 1
        && Write(path, op, payloadOf(parsed.data)) in t
        && PermissionEvents(t) == (if outcome.Failed? then 1 else 0)
        && (outcome.Failed? ==> PermissionEvent(path, op, Some(payloadOf(parsed.data))) in t)
        && t[|t| - 1] == SetSaving(false))
      && (Navigate(dest) in t <==> parsed.Success? && outcome.Succeeded?)
      && (forall saving :: SavingAfter(t, saving) == (if parsed.Success? then false else saving))
  {
    var t := SaveHandler(parsed, path, op, payloadOf, outcome, onSuccess, failTitle);
    forall saving ensures SavingAfter(t, saving) == (if parsed.Success? then false else saving) {
      if parsed.Failure? {
        RejectedFormEffects(parsed.issues, path, op, payloadOf, outcome, onSuccess, failTitle);
        SavingUntouched(t, saving);
      } else {
        AcceptedFormEffects(parsed.data, path, op, payloadOf, outcome, onSuccess, failTitle);
      }
    }
    match parsed
    case Failure(issues) =>
      RejectedFormEffects(issues, path, op, payloadOf, outcome, onSuccess, failTitle);
      assert SaveHandler(parsed, path, op, payloadOf, outcome, onSuccess, failTitle)
        == [ClearErrors, ShowErrors(FieldErrors(issues)), Notify(ValidationTitle, ValidationText, true)];
    case Success(data) =>
      AcceptedFormEffects(data, path, op, payloadOf, outcome, onSuccess, failTitle);
      AcceptedNavigation(data, path, op, payloadOf, outcome, onSuccess, failTitle, dest);
  }

  lemma AcceptedNavigation(data: map<string, string>, path: string, op: Op, payloadOf: map<string, string> -> Doc, outcome: Outcome,
                           onSuccess: (string, Doc) -> Trace, failTitle: string, dest: string)
    requires forall id, d :: Navigate(dest) in onSuccess(id, d)
    ensures Navigate(dest) in SaveHandler(Success(data), path, op, payloadOf, outcome, onSuccess, failTitle) <==> outcome.Succeeded?
  {
    var payload := payloadOf(data);
    var mid := Settled(path, op, payload, outcome, onSuccess, failTitle);
    assert SaveHandler(Success(data), path, op, payloadOf, outcome, onSuccess, failTitle)
      == [ClearErrors, SetSaving(true), Write(path, op, payload)] + mid + [SetSaving(false)];
    if outcome.Succeeded? {
      assert Navigate(dest) in onSuccess(outcome.docId, payload);
    }
  }
}
