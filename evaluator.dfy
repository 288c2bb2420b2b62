/**
 * The schema evaluator `validate(data, schema)`: one pass over the schema's
 * fields, collecting at most one message per field key, or aborting the whole
 * call when a field names a type tag the registry does not have.
 */
module Evaluator {
  import opened Wrappers
  import opened Validators

  /** A field rule: `{ type, required, options }`. */
  datatype Rule = Rule(tag: string, required: bool, options: Option<Options>)

  /** The schema in its own key order, as `for...in` visits it. */
  type Field = (string, Rule)

  /** The record being checked; a missing key reads as `undefined`. */
  type Data = map<string, Value>

  /** What one call returns: `null` (no errors) or the error map; or the error it throws. */
  datatype Result = Returned(errors: Option<map<string, string>>) | Threw(message: string)

  const RequiredMessage: string := "Required field."

  function InvalidMessage(key: string): string {
    "Invalid value for " + key + "."
  }

  function TypeErrorMessage(tag: string): string {
    "Invalid validator type: " + tag
  }

  /** The message a failing field gets: it depends only on whether the key is in the data. */
  function FailMessage(data: Data, key: string): string {
    if key in data then InvalidMessage(key) else RequiredMessage
  }

  /** `data[key] === undefined || data[key] === null`, with a missing key reading as undefined. */
  predicate Omitted(data: Data, key: string)
    ensures Omitted(data, key) <==> Read(data, key).Null? || Read(data, key).Undefined?
  {
    key !in data || data[key].Null? || data[key].Undefined?
  }

  /** The property read `data[key]`: a missing key reads as `undefined`. */
  function Read(data: Data, key: string): Value {
    if key in data then data[key] else Undefined
  }

  // ---------------------------------------------------------------------
  // One field.
  // ---------------------------------------------------------------------

  /** The outcome of one iteration of the loop. */
  datatype Verdict = Pass | Fail(message: string) | Abort(message: string)

  function CheckField(data: Data, key: string, rule: Rule): (v: Verdict)
    ensures v.Fail? ==> v.message == FailMessage(data, key)
    ensures key !in data ==> (v.Fail? <==> rule.required) && !v.Abort?
    ensures key in data && Omitted(data, key) ==> v.Pass?
    ensures v.Abort? <==> !Omitted(data, key) && Lookup(rule.tag).None?
    ensures v.Abort? ==> v.message == TypeErrorMessage(rule.tag)
    ensures !Omitted(data, key) && Lookup(rule.tag).Some?
            ==> (v.Fail? <==> !Conforms(Lookup(rule.tag).value, data[key], rule.options))
  {
    if rule.required && key !in data then Fail(RequiredMessage)
    else if Omitted(data, key) then Pass
    else match Lookup(rule.tag)
      case None => Abort(TypeErrorMessage(rule.tag))
      case Some(kind) =>
        if !Check(kind, data[key], rule.options) then Fail(InvalidMessage(key)) else Pass
  }

  predicate FailsAt(data: Data, fields: seq<Field>, i: int)
    requires 0 <= i < |fields|
  {
    CheckField(data, fields[i].0, fields[i].1).Fail?
  }

  predicate AbortsAt(data: Data, fields: seq<Field>, i: int)
    requires 0 <= i < |fields|
  {
    CheckField(data, fields[i].0, fields[i].1).Abort?
  }

  /** Some field with this key fails its check. */
  predicate Flagged(data: Data, fields: seq<Field>, key: string) {
    exists i :: 0 <= i < |fields| && fields[i].0 == key && FailsAt(data, fields, i)
  }

  // ---------------------------------------------------------------------
  // The whole pass, as a fold over the schema's prefixes.
  // ---------------------------------------------------------------------

  /** The state of the loop: still collecting errors, or thrown. */
  datatype Progress = Running(errors: map<string, string>) | Thrown(message: string)

  /** One iteration of the loop over `field`. */
  function Step(data: Data, p: Progress, field: Field): (r: Progress)
    ensures p.Thrown? ==> r == p
    ensures p.Running? ==> (r.Thrown? <==> CheckField(data, field.0, field.1).Abort?)
    ensures p.Running? && CheckField(data, field.0, field.1).Abort? ==>
              r == Thrown(CheckField(data, field.0, field.1).message)
    ensures p.Running? && r.Running? ==>
              r.errors == if CheckField(data, field.0, field.1).Fail?
                          then p.errors[field.0 := FailMessage(data, field.0)] else p.errors
  {
    match p
    case Thrown(_) => p
    case Running(errors) =>
      match CheckField(data, field.0, field.1)
      case Pass => p
      case Fail(m) => Running(errors[field.0 := m])
      case Abort(m) => Thrown(m)
  }

  /** A running pass that throws on a field names that field's type tag. */
  lemma StepThrowsTypeError(data: Data, p: Progress, field: Field)
    requires p.Running? && Step(data, p, field).Thrown?
    ensures Step(data, p, field).message == TypeErrorMessage(field.1.tag)
  {
  }

  /** The loop's state after visiting `fields` in order. */
  function Through(data: Data, fields: seq<Field>): Progress
    decreases |fields|
  {
    if |fields| == 0 then Running(map[])
    else Step(data, Through(data, fields[..|fields| - 1]), fields[|fields| - 1])
  }

  /** What `validate(data, schema)` does. */
  function Validation(data: Data, schema: seq<Field>): (r: Result)
    ensures r.Returned? && r.errors.Some? ==>
              r.errors.value != map[]
              && forall key :: key in r.errors.value ==> r.errors.value[key] == FailMessage(data, key)
  {
    match Through(data, schema)
    case Thrown(m) => Threw(m)
    case Running(errors) =>
      ErrorsExactly(data, schema);
      Returned(if |errors| == 0 then None else Some(errors))
  }

  /** Once thrown, the rest of the schema is not looked at. */
  lemma {:induction false} ThrownStays(data: Data, fields: seq<Field>, n: nat)
    requires n <= |fields|
    requires Through(data, fields[..n]).Thrown?
    ensures Through(data, fields) == Through(data, fields[..n])
    decreases |fields| - n
  {
    if n < |fields| {
      var m := |fields|;
      assert fields[..m] == fields;
      assert fields[..m - 1][..n] == fields[..n];
      ThrownStays(data, fields[..m - 1], n);
    } else {
      assert fields[..n] == fields;
    }
  }

  /** The pass keeps running exactly when no field aborts. */
  lemma {:induction false} RunningIffNoAbort(data: Data, fields: seq<Field>)
    ensures Through(data, fields).Running?
            <==> forall i :: 0 <= i < |fields| ==> !AbortsAt(data, fields, i)
    decreases |fields|
  {
    if |fields| > 0 {
      var n := |fields| - 1;
      var prefix := fields[..n];
      RunningIffNoAbort(data, prefix);
      SamePrefix(data, fields, n);
      assert Through(data, fields) == Step(data, Through(data, prefix), fields[n]);
      if !Through(data, prefix).Running? {
        var i :| 0 <= i < n && AbortsAt(data, prefix, i);
        assert AbortsAt(data, fields, i);
      } else {
        assert Through(data, fields).Running? <==> !AbortsAt(data, fields, n);
        if !AbortsAt(data, fields, n) {
          forall i | 0 <= i < |fields| ensures !AbortsAt(data, fields, i) {
            if i < n { assert !AbortsAt(data, prefix, i); }
          }
        }
      }
    }
  }

  /**
   * While running, the error map holds exactly the keys of the failing
   * fields, each with the message its presence in the data selects.
   */
  lemma {:induction false} ErrorsExactly(data: Data, fields: seq<Field>)
    requires Through(data, fields).Running?
    ensures forall key :: key in Through(data, fields).errors <==> Flagged(data, fields, key)
    ensures forall key :: key in Through(data, fields).errors ==>
              Through(data, fields).errors[key] == FailMessage(data, key)
    decreases |fields|
  {
    if |fields| > 0 {
      var n := |fields| - 1;
      var prefix := fields[..n];
      assert Through(data, fields) == Step(data, Through(data, prefix), fields[n]);
      ErrorsExactly(data, prefix);
      SamePrefix(data, fields, n);
      forall key
        ensures Flagged(data, fields, key)
                <==> Flagged(data, prefix, key) || (fields[n].0 == key && FailsAt(data, fields, n))
      {
        FlaggedExtend(data, fields, key);
      }
    }
  }

  /** A key is flagged by a schema exactly when its prefix or its last field flags it. */
  lemma FlaggedExtend(data: Data, fields: seq<Field>, key: string)
    requires |fields| > 0
    ensures Flagged(data, fields, key)
            <==> Flagged(data, fields[..|fields| - 1], key)
                 || (fields[|fields| - 1].0 == key && FailsAt(data, fields, |fields| - 1))
  {
    var n := |fields| - 1;
    var prefix := fields[..n];
    SamePrefix(data, fields, n);
    if Flagged(data, fields, key) {
      var i :| 0 <= i < |fields| && fields[i].0 == key && FailsAt(data, fields, i);
      if i < n { assert prefix[i].0 == key && FailsAt(data, prefix, i); }
    }
    if Flagged(data, prefix, key) {
      var i :| 0 <= i < n && prefix[i].0 == key && FailsAt(data, prefix, i);
      assert fields[i].0 == key && FailsAt(data, fields, i);
    }
  }

  /** Both facts about a pass over `fields`, for the callers below. */
  lemma RunningExactly(data: Data, fields: seq<Field>)
    ensures Through(data, fields).Running?
            <==> forall i :: 0 <= i < |fields| ==> !AbortsAt(data, fields, i)
    ensures Through(data, fields).Running? ==>
              forall key :: key in Through(data, fields).errors <==> Flagged(data, fields, key)
    ensures Through(data, fields).Running? ==>
              forall key :: key in Through(data, fields).errors ==>
                Through(data, fields).errors[key] == FailMessage(data, key)
  {
    RunningIffNoAbort(data, fields);
    if Through(data, fields).Running? {
      ErrorsExactly(data, fields);
    }
  }

  /** A field keeps its verdict when the schema is cut after it. */
  lemma SamePrefix(data: Data, fields: seq<Field>, n: nat)
    requires n <= |fields|
    ensures forall i :: 0 <= i < n ==> fields[..n][i] == fields[i]
    ensures forall i :: 0 <= i < n ==> AbortsAt(data, fields[..n], i) == AbortsAt(data, fields, i)
    ensures forall i :: 0 <= i < n ==> FailsAt(data, fields[..n], i) == FailsAt(data, fields, i)
  {
  }

  /** A thrown pass names the tag of the first field that reached the lookup with an unknown tag. */
  lemma {:induction false} ThrownByFirstAbort(data: Data, fields: seq<Field>)
    requires Through(data, fields).Thrown?
    ensures exists i :: 0 <= i < |fields| && AbortsAt(data, fields, i)
              && (forall j :: 0 <= j < i ==> !AbortsAt(data, fields, j))
              && Through(data, fields).message == TypeErrorMessage(fields[i].1.tag)
    decreases |fields|
  {
    var n := |fields| - 1;
    var prefix := fields[..n];
    SamePrefix(data, fields, n);
    if Through(data, prefix).Thrown? {
      ThrownByFirstAbort(data, prefix);
      var i :| 0 <= i < n && AbortsAt(data, prefix, i)
              && (forall j :: 0 <= j < i ==> !AbortsAt(data, prefix, j))
              && Through(data, prefix).message == TypeErrorMessage(prefix[i].1.tag);
      assert prefix[i] == fields[i];
      assert AbortsAt(data, fields, i);
    } else {
      RunningExactly(data, prefix);
      assert AbortsAt(data, fields, n);
    }
  }

  // ---------------------------------------------------------------------
  // What a call of `validate` promises.
  // ---------------------------------------------------------------------

  /** The call throws exactly when some field reaches the lookup with an unknown type tag. */
  lemma ThrowsIff(data: Data, schema: seq<Field>)
    ensures Validation(data, schema).Threw?
            <==> exists i :: 0 <= i < |schema| && !Omitted(data, schema[i].0)
                               && Lookup(schema[i].1.tag).None?
  {
    RunningExactly(data, schema);
    forall i | 0 <= i < |schema|
      ensures AbortsAt(data, schema, i) <==> !Omitted(data, schema[i].0) && Lookup(schema[i].1.tag).None?
    {
    }
  }

  /** The error it throws names the type tag of the first such field. */
  lemma ThrowsFirstUnknownTag(data: Data, schema: seq<Field>)
    requires Validation(data, schema).Threw?
    ensures exists i :: 0 <= i < |schema| && AbortsAt(data, schema, i)
              && (forall j :: 0 <= j < i ==> !AbortsAt(data, schema, j))
              && Validation(data, schema).message == TypeErrorMessage(schema[i].1.tag)
  {
    ThrownByFirstAbort(data, schema);
  }

  /** A returning call returns null exactly when no field failed. */
  lemma NullIffNoFailure(data: Data, schema: seq<Field>)
    requires Validation(data, schema).Returned?
    ensures Validation(data, schema).errors.None?
            <==> forall i :: 0 <= i < |schema| ==> !FailsAt(data, schema, i)
  {
    RunningExactly(data, schema);
    var errors := Through(data, schema).errors;
    if errors == map[] {
      forall i | 0 <= i < |schema| ensures !FailsAt(data, schema, i) {
        assert FailsAt(data, schema, i) ==> Flagged(data, schema, schema[i].0);
      }
    } else {
      var key :| key in errors;
    }
  }

  /**
   * Every key of a returned error map is a schema key whose field failed, and
   * its message is "Required field." or "Invalid value for <key>.".
   */
  lemma ErrorKeys(data: Data, schema: seq<Field>)
    requires Validation(data, schema).Returned? && Validation(data, schema).errors.Some?
    ensures forall key :: key in Validation(data, schema).errors.value ==>
              Flagged(data, schema, key)
              && Validation(data, schema).errors.value[key]
                 == (if key in data then InvalidMessage(key) else RequiredMessage)
  {
    RunningExactly(data, schema);
  }

  /** The keys the schema declares. */
  function Keys(schema: seq<Field>): set<string> {
    set i | 0 <= i < |schema| :: schema[i].0
  }

  /** The error map of a pass in which no field aborts, stated without the loop. */
  ghost function ExpectedErrors(data: Data, schema: seq<Field>): map<string, string> {
    map key | key in Keys(schema) && Flagged(data, schema, key) :: FailMessage(data, key)
  }

  /** Without an abort, the call returns exactly the flagged keys with their messages, or null. */
  lemma ValidationExactly(data: Data, schema: seq<Field>)
    requires forall i :: 0 <= i < |schema| ==> !AbortsAt(data, schema, i)
    ensures Validation(data, schema)
            == Returned(if ExpectedErrors(data, schema) == map[] then None else Some(ExpectedErrors(data, schema)))
  {
    RunningIffNoAbort(data, schema);
    ErrorsExactly(data, schema);
    var errors, expected := Through(data, schema).errors, ExpectedErrors(data, schema);
    forall key ensures key in errors <==> key in expected {
      if key in errors {
        var i :| 0 <= i < |schema| && schema[i].0 == key && FailsAt(data, schema, i);
        assert key in Keys(schema);
      }
    }
    forall key | key in errors ensures errors[key] == expected[key] {
    }
    assert errors == expected;
  }

  /** A required key missing from the data is reported as "Required field.". */
  lemma RequiredMissing(data: Data, schema: seq<Field>, i: nat)
    requires i < |schema| && schema[i].1.required && schema[i].0 !in data
    requires Validation(data, schema).Returned?
    ensures Validation(data, schema).errors.Some?
    ensures schema[i].0 in Validation(data, schema).errors.value
    ensures Validation(data, schema).errors.value[schema[i].0] == RequiredMessage
  {
    RunningExactly(data, schema);
    assert FailsAt(data, schema, i);
    assert schema[i].0 in Through(data, schema).errors;
  }

  /** A key that is present but null or undefined never gets an error, even when required. */
  lemma NullNeverReported(data: Data, schema: seq<Field>, key: string)
    requires key in data && (data[key].Null? || data[key].Undefined?)
    requires Validation(data, schema).Returned? && Validation(data, schema).errors.Some?
    ensures key !in Validation(data, schema).errors.value
  {
    RunningExactly(data, schema);
  }

  /** A key missing from the data whose fields are all optional never gets an error. */
  lemma OptionalMissingNeverReported(data: Data, schema: seq<Field>, key: string)
    requires key !in data
    requires forall i :: 0 <= i < |schema| && schema[i].0 == key ==> !schema[i].1.required
    requires Validation(data, schema).Returned? && Validation(data, schema).errors.Some?
    ensures key !in Validation(data, schema).errors.value
  {
    RunningExactly(data, schema);
  }

  /** A present, non-null value that its registered predicate rejects is reported as invalid. */
  lemma RejectedValueReported(data: Data, schema: seq<Field>, i: nat)
    requires i < |schema| && !Omitted(data, schema[i].0)
    requires Lookup(schema[i].1.tag).Some?
    requires !Check(Lookup(schema[i].1.tag).value, data[schema[i].0], schema[i].1.options)
    requires Validation(data, schema).Returned?
    ensures Validation(data, schema).errors.Some?
    ensures schema[i].0 in Validation(data, schema).errors.value
    ensures Validation(data, schema).errors.value[schema[i].0] == InvalidMessage(schema[i].0)
  {
    RunningExactly(data, schema);
    assert FailsAt(data, schema, i);
    assert schema[i].0 in Through(data, schema).errors;
  }

  /** No required fields and empty data: the call returns null. */
  lemma EmptyDataNoRequired(schema: seq<Field>)
    requires forall i :: 0 <= i < |schema| ==> !schema[i].1.required
    ensures Validation(map[], schema) == Returned(None)
  {
    RunningExactly(map[], schema);
    NullIffNoFailure(map[], schema);
  }

  // ---------------------------------------------------------------------
  // The loop itself.
  // ---------------------------------------------------------------------

  /** Visiting one more field is one more `Step`. */
  lemma ThroughNext(data: Data, fields: seq<Field>, i: nat)
    requires i < |fields|
    ensures Through(data, fields[..i + 1]) == Step(data, Through(data, fields[..i]), fields[i])
  {
    assert fields[..i + 1][..i] == fields[..i];
  }

  // The four ways one iteration of the loop ends, as steps of the fold.

  lemma RequiredStep(data: Data, errors: map<string, string>, field: Field)
    requires field.1.required && field.0 !in data
    ensures Step(data, Running(errors), field) == Running(errors[field.0 := RequiredMessage])
  {
  }

  lemma OmittedStep(data: Data, errors: map<string, string>, field: Field)
    requires !(field.1.required && field.0 !in data) && Omitted(data, field.0)
    ensures Step(data, Running(errors), field) == Running(errors)
  {
  }

  lemma UnknownTagStep(data: Data, errors: map<string, string>, field: Field)
    requires !Omitted(data, field.0) && Lookup(field.1.tag).None?
    ensures Step(data, Running(errors), field) == Thrown(TypeErrorMessage(field.1.tag))
  {
  }

  lemma CheckedStep(data: Data, errors: map<string, string>, field: Field, kind: Kind)
    requires !Omitted(data, field.0) && Lookup(field.1.tag) == Some(kind)
    ensures Step(data, Running(errors), field)
            == if Check(kind, data[field.0], field.1.options) then Running(errors)
               else Running(errors[field.0 := InvalidMessage(field.0)])
  {
  }

  /** A throw after the first `n` fields is the throw of the whole call. */
  lemma ThrowsAt(data: Data, schema: seq<Field>, n: nat)
    requires n <= |schema| && Through(data, schema[..n]).Thrown?
    ensures Validation(data, schema) == Threw(Through(data, schema[..n]).message)
  {
    ThrownStays(data, schema, n);
  }

  /** `validate(data, schema)`: fills `errors` field by field, or throws. */
  method Validate(data: Data, schema: seq<Field>) returns (r: Result)
    ensures r == Validation(data, schema)
  {
    var errors: map<string, string> := map[];
    var i := 0;
    while i < |schema|
      invariant 0 <= i <= |schema|
      invariant Through(data, schema[..i]) == Running(errors)
    {
      var key, rule := schema[i].0, schema[i].1;
      ThroughNext(data, schema, i);
      if rule.required && key !in data {
        RequiredStep(data, errors, schema[i]);
        errors := errors[key := RequiredMessage];
        i := i + 1;
        continue;
      }
      if key !in data || data[key].Undefined? || data[key].Null? {
        OmittedStep(data, errors, schema[i]);
        i := i + 1;
        continue;
      }
      var validator := Lookup(rule.tag);
      if validator.None? {
        UnknownTagStep(data, errors, schema[i]);
        ThrowsAt(data, schema, i + 1);
        return Threw(TypeErrorMessage(rule.tag));
      }
      CheckedStep(data, errors, schema[i], validator.value);
      if !Check(validator.value, data[key], rule.options) {
        errors := errors[key := InvalidMessage(key)];
      }
      i := i + 1;
    }
    assert schema[..|schema|] == schema;
    r := if |errors| == 0 then Returned(None) else Returned(Some(errors));
  }

}
