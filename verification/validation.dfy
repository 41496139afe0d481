/**
 * The part of zod's `z.object({...}).safeParse` that the forms use: each
 * schema field is a string with at most one check (a minimum length or an
 * e-mail format) and may be optional. Issues are reported in schema order;
 * keys the schema does not name are dropped from the parsed data.
 */
module Validation {
  import opened Entities

  /** A raw input value: a string, `null` (what `FormData.get` returns for a missing field) or absent. */
  datatype Raw = Str(s: string) | Null | Undefined

  datatype Check = MinLength(n: nat) | EmailFormat | NoCheck

  /** One schema entry: `key: z.string().<check>(message)[.optional()]`. */
  datatype Field = Field(key: string, check: Check, optional: bool, message: string)

  type Schema = seq<Field>

  /** An input record; a key outside the map is `undefined`. */
  type Form = map<string, Raw>

  datatype Issue = Issue(key: string, message: string)

  datatype Parsed = Success(data: map<string, string>) | Failure(issues: seq<Issue>)

  /** zod's default messages for a missing required value and for `null`. */
  const RequiredMessage: string := "Required"
  const NullMessage: string := "Expected string, received null"

  function Get(form: Form, key: string): Raw {
    if key in form then form[key] else Undefined
  }

  /** A string value of at least `n` characters. */
  predicate StrAtLeast(v: Raw, n: nat) {
    v.Str? && |v.s| >= n
  }

  /** A value an optional string field accepts: a string or nothing (not `null`). */
  predicate OptionalStr(v: Raw) {
    v.Str? || v.Undefined?
  }

  /** The keys of a schema are distinct and every custom message is non-empty. */
  predicate WellFormed(schema: Schema) {
    && (forall i, j :: 0 <= i < j < |schema| ==> schema[i].key != schema[j].key)
    && (forall i :: 0 <= i < |schema| ==> schema[i].check.NoCheck? || |schema[i].message| > 0)
  }

  /** The e-mail check for schemas without an e-mail field: it is never consulted, so it accepts everything. */
  predicate AnyEmail(s: string) {
    true
  }

  /** The message of the issue one field raises for value `v`, if it raises one. */
  function FieldIssue(f: Field, v: Raw, isEmail: string -> bool): (m: Option<string>)
    ensures v.Undefined? ==> (m.None? <==> f.optional)
    ensures v.Null? ==> m == Some(NullMessage)
    ensures v.Str? ==> (m.None? <==> Accepts(f.check, v.s, isEmail))
    ensures v.Str? && m.Some? ==> m.value == f.message
  {
    match v
    case Undefined => if f.optional then None else Some(RequiredMessage)
    case Null => Some(NullMessage)
    case Str(s) =>
      match f.check
      case MinLength(n) => if |s| < n then Some(f.message) else None
      case EmailFormat => if isEmail(s) then None else Some(f.message)
      case NoCheck => None
  }

  /** What a check accepts, stated independently of the issue it raises. */
  predicate Accepts(c: Check, s: string, isEmail: string -> bool) {
    match c
    case MinLength(n) => n <= |s|
    case EmailFormat => isEmail(s)
    case NoCheck => true
  }

  predicate FieldOk(f: Field, form: Form, isEmail: string -> bool) {
    FieldIssue(f, Get(form, f.key), isEmail).None?
  }

  /** The issues of a form, one per failing field, in schema order. */
  function Issues(schema: Schema, form: Form, isEmail: string -> bool): (r: seq<Issue>)
    ensures |r| <= |schema|
    ensures |r| == 0 <==> forall i :: 0 <= i < |schema| ==> FieldOk(schema[i], form, isEmail)
  {
    if |schema| == 0 then []
    else
      var f := schema[0];
      var rest := Issues(schema[1..], form, isEmail);
      match FieldIssue(f, Get(form, f.key), isEmail)
      case None => rest
      case Some(m) => [Issue(f.key, m)] + rest
  }

  /** The parsed data: each schema key whose value is a string; unknown keys are stripped. */
  function Data(schema: Schema, form: Form): (d: map<string, string>)
    ensures forall k :: k in d ==> exists i :: 0 <= i < |schema| && schema[i].key == k
    ensures forall k :: k in d ==> Get(form, k) == Str(d[k])
  {
    if |schema| == 0 then map[]
    else
      var k := schema[0].key;
      var rest := Data(schema[1..], form);
      match Get(form, k)
      case Str(s) => rest[k := s]
      case _ => rest
  }

  /** `schema.safeParse(form)` */
  function SafeParse(schema: Schema, form: Form, isEmail: string -> bool): (p: Parsed)
    ensures p.Success? <==> forall i :: 0 <= i < |schema| ==> FieldOk(schema[i], form, isEmail)
    ensures p.Failure? ==> |p.issues| > 0
  {
    var issues := Issues(schema, form, isEmail);
    if |issues| == 0 then Success(Data(schema, form)) else Failure(issues)
  }

  /** `error.flatten().fieldErrors`: every message of each failing key, in report order. */
  function Flatten(issues: seq<Issue>): (m: map<string, seq<string>>)
    ensures forall k :: k in m <==> exists i :: 0 <= i < |issues| && issues[i].key == k
    ensures forall k :: k in m ==> |m[k]| > 0
  {
    if |issues| == 0 then map[]
    else
      var rest := Flatten(issues[1..]);
      var k := issues[0].key;
      rest[k := [issues[0].message] + (if k in rest then rest[k] else [])]
  }

  /** The forms keep each key's first message: `fieldErrors[key] = value[0]`. */
  function FieldErrors(issues: seq<Issue>): (m: map<string, string>)
    ensures m.Keys == Flatten(issues).Keys
  {
    var f := Flatten(issues);
    map k | k in f :: f[k][0]
  }

  /** The first message reported for `key`, scanning the issues in order. */
  function FirstMessageFor(issues: seq<Issue>, key: string): Option<string> {
    if |issues| == 0 then None
    else if issues[0].key == key then Some(issues[0].message)
    else FirstMessageFor(issues[1..], key)
  }

  // ---------------------------------------------------------------------
  // Properties

  /** Each key in the field errors holds the first message reported for it. */
  lemma {:induction false} FieldErrorsKeepFirst(issues: seq<Issue>, key: string)
    ensures key in FieldErrors(issues) <==> FirstMessageFor(issues, key).Some?
    ensures key in FieldErrors(issues) ==> FieldErrors(issues)[key] == FirstMessageFor(issues, key).value
  {
    if |issues| > 0 {
      FieldErrorsKeepFirst(issues[1..], key);
    }
  }

  /** The flattened list for a key holds exactly the messages reported for that key. */
  lemma {:induction false} FlattenCollectsMessages(issues: seq<Issue>, key: string, msg: string)
    requires key in Flatten(issues)
    ensures msg in Flatten(issues)[key] <==> Issue(key, msg) in issues
  {
    if |issues| > 0 {
      var rest := Flatten(issues[1..]);
      if key in rest {
        FlattenCollectsMessages(issues[1..], key, msg);
      } else if key != issues[0].key {
        assert false;
      }
      assert issues == [issues[0]] + issues[1..];
    }
  }

  /** Issue `(k, m)` is reported exactly when field `k` of the schema fails with message `m`. */
  lemma {:induction false} IssuesAreFailingFields(schema: Schema, form: Form, isEmail: string -> bool, iss: Issue)
    ensures iss in Issues(schema, form, isEmail) <==>
      exists i :: 0 <= i < |schema| && schema[i].key == iss.key
        && FieldIssue(schema[i], Get(form, iss.key), isEmail) == Some(iss.message)
  {
    if |schema| > 0 {
      IssuesAreFailingFields(schema[1..], form, isEmail, iss);
      var r := Issues(schema, form, isEmail);
      if exists i :: 0 <= i < |schema| && schema[i].key == iss.key
          && FieldIssue(schema[i], Get(form, iss.key), isEmail) == Some(iss.message) {
        var i :| 0 <= i < |schema| && schema[i].key == iss.key
          && FieldIssue(schema[i], Get(form, iss.key), isEmail) == Some(iss.message);
        if i > 0 {
          assert schema[1..][i - 1] == schema[i];
        }
      }
      if iss in r && iss in Issues(schema[1..], form, isEmail) {
        var i :| 0 <= i < |schema[1..]| && schema[1..][i].key == iss.key
          && FieldIssue(schema[1..][i], Get(form, iss.key), isEmail) == Some(iss.message);
        assert schema[i + 1] == schema[1..][i];
      }
    }
  }

  /** The first issue belongs to the first failing field of the schema. */
  lemma {:induction false} FirstIssueIsFirstFailingField(schema: Schema, form: Form, isEmail: string -> bool)
    requires |Issues(schema, form, isEmail)| > 0
    ensures exists j :: (FirstFailing(schema, form, isEmail, j)
      && Issues(schema, form, isEmail)[0] == Issue(schema[j].key, FieldIssue(schema[j], Get(form, schema[j].key), isEmail).value))
  {
    if FieldOk(schema[0], form, isEmail) {
      FirstIssueIsFirstFailingField(schema[1..], form, isEmail);
      var j :| FirstFailing(schema[1..], form, isEmail, j)
        && Issues(schema[1..], form, isEmail)[0] ==
          Issue(schema[1..][j].key, FieldIssue(schema[1..][j], Get(form, schema[1..][j].key), isEmail).value);
      assert forall i :: 0 <= i < j + 1 ==> FieldOk(schema[i], form, isEmail) by {
        forall i | 0 <= i < j + 1 ensures FieldOk(schema[i], form, isEmail) {
          if i > 0 { assert schema[i] == schema[1..][i - 1]; }
        }
      }
      assert schema[j + 1] == schema[1..][j];
      assert FirstFailing(schema, form, isEmail, j + 1);
    } else {
      assert FirstFailing(schema, form, isEmail, 0);
    }
  }

  /** Field `j` is the first field of the schema that fails. */
  predicate FirstFailing(schema: Schema, form: Form, isEmail: string -> bool, j: int) {
    && 0 <= j < |schema|
    && (forall i :: 0 <= i < j ==> FieldOk(schema[i], form, isEmail))
    && !FieldOk(schema[j], form, isEmail)
  }

  /** A required field that passes appears in the parsed data with its input string. */
  lemma {:induction false} DataHoldsPassingFields(schema: Schema, form: Form, isEmail: string -> bool, i: nat)
    requires i < |schema| && FieldOk(schema[i], form, isEmail) && !schema[i].optional
    ensures schema[i].key in Data(schema, form)
    ensures Get(form, schema[i].key) == Str(Data(schema, form)[schema[i].key])
  {
    if i > 0 {
      assert schema[1..][i - 1] == schema[i];
      DataHoldsPassingFields(schema[1..], form, isEmail, i - 1);
    }
  }

  /** Every message in the field errors of a well-formed schema is non-empty. */
  lemma IssueMessagesNonEmpty(schema: Schema, form: Form, isEmail: string -> bool)
    requires WellFormed(schema)
    ensures forall iss :: iss in Issues(schema, form, isEmail) ==> |iss.message| > 0
  {
    forall iss | iss in Issues(schema, form, isEmail) ensures |iss.message| > 0 {
      IssuesAreFailingFields(schema, form, isEmail, iss);
    }
  }
}
