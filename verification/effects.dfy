/**
 * The observable effects of the admin save flows, recorded in order: the
 * form-error state, the saving flag, the one remote write, the
 * permission-error event, toasts, cache revalidation and navigation. A
 * flow is a pure function from its inputs (including the remote call's
 * outcome) to the trace of effects it produces.
 */
module Effects {
  import opened Entities

  /** The operation named in a write and in a permission-error event. */
  datatype Op = Create | Update | Delete

  /** A document payload: field name to string value. */
  type Doc = map<string, string>

  /** The error code a failed remote call carries (`error.code`). */
  datatype ErrorCode = Named(name: string) | Numeric(n: int) | NoCode

  /** How the one remote call of a flow settles: success with the new document id, or a thrown error. */
  datatype Outcome = Succeeded(docId: string) | Failed(code: ErrorCode)

  datatype Effect =
    | ClearErrors
    | ShowErrors(errors: map<string, string>)
    | SetSaving(saving: bool)
    | Write(path: string, op: Op, data: Doc)
    | PermissionEvent(path: string, op: Op, payload: Option<Doc>)
    | Notify(title: string, description: string, destructive: bool)
    | Revalidate(path: string)
    | Navigate(to: string)

  type Trace = seq<Effect>

  /** The number of effects in `t` that satisfy `p`. */
  function Count(t: Trace, p: Effect -> bool): (n: nat)
    ensures n <= |t|
    ensures n == 0 <==> forall i :: 0 <= i < |t| ==> !p(t[i])
  {
    if |t| == 0 then 0 else (if p(t[0]) then 1 else 0) + Count(t[1..], p)
  }

  predicate IsWrite(e: Effect) { e.Write? }
  predicate IsPermissionEvent(e: Effect) { e.PermissionEvent? }
  predicate IsSetSaving(e: Effect) { e.SetSaving? }
  predicate IsNavigate(e: Effect) { e.Navigate? }

  function Writes(t: Trace): nat { Count(t, IsWrite) }
  function PermissionEvents(t: Trace): nat { Count(t, IsPermissionEvent) }

  /** One `Revalidate` effect per path, in order. */
  function Revalidations(paths: seq<string>): (t: Trace)
    ensures |t| == |paths|
    ensures forall i :: 0 <= i < |t| ==> t[i] == Revalidate(paths[i])
  {
    seq(|paths|, i requires 0 <= i < |paths| => Revalidate(paths[i]))
  }

  /** The saving flag after the trace, starting from `initial`: the last `SetSaving` wins. */
  function SavingAfter(t: Trace, initial: bool): (b: bool)
    ensures |t| > 0 && t[|t| - 1].SetSaving? ==> b == t[|t| - 1].saving
    decreases |t|
  {
    if |t| == 0 then initial
    else if t[|t| - 1].SetSaving? then t[|t| - 1].saving
    else SavingAfter(t[..|t| - 1], initial)
  }

  /** The flag is the value of the last `SetSaving` in the trace, wherever it stands. */
  lemma {:induction false} SavingAfterIsLastChange(t: Trace, initial: bool, i: int)
    requires 0 <= i < |t| && t[i].SetSaving?
    requires forall j :: i < j < |t| ==> !t[j].SetSaving?
    ensures SavingAfter(t, initial) == t[i].saving
    decreases |t|
  {
    if i < |t| - 1 {
      var u := t[..|t| - 1];
      assert u[i] == t[i];
      assert forall j :: i < j < |u| ==> !u[j].SetSaving? by {
        forall j | i < j < |u| ensures !u[j].SetSaving? {
          assert u[j] == t[j];
        }
      }
      SavingAfterIsLastChange(u, initial, i);
    }
  }

  /** Effects after the last flag change do not move the flag. */
  lemma {:induction false} SavingAfterSkipsTail(a: Trace, c: Trace, initial: bool)
    requires Count(c, IsSetSaving) == 0
    ensures SavingAfter(a + c, initial) == SavingAfter(a, initial)
    decreases |c|
  {
    if |c| == 0 {
      assert a + c == a;
    } else {
      var c' := c[..|c| - 1];
      assert (a + c)[..|a + c| - 1] == a + c';
      assert c[|c| - 1] in c;
      assert Count(c', IsSetSaving) == 0 by {
        forall i | 0 <= i < |c'| ensures !IsSetSaving(c'[i]) {
          assert c'[i] == c[i];
        }
      }
      SavingAfterSkipsTail(a, c', initial);
    }
  }

  /** A trace with no `SetSaving` leaves the flag as it was. */
  lemma {:induction false} SavingUntouched(t: Trace, initial: bool)
    requires Count(t, IsSetSaving) == 0
    ensures SavingAfter(t, initial) == initial
  {
    if |t| > 0 {
      assert t[|t| - 1] in t;
      var u := t[..|t| - 1];
      assert Count(u, IsSetSaving) == 0 by {
        forall i | 0 <= i < |u| ensures !IsSetSaving(u[i]) {
          assert u[i] == t[i];
        }
      }
      SavingUntouched(u, initial);
    }
  }

  lemma {:induction false} CountAppend(a: Trace, b: Trace, p: Effect -> bool)
    ensures Count(a + b, p) == Count(a, p) + Count(b, p)
  {
    if |a| > 0 {
      assert (a + b)[1..] == a[1..] + b;
      CountAppend(a[1..], b, p);
    } else {
      assert a + b == b;
    }
  }
}
