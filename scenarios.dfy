/**
 * Worked cases: single predicates at their boundaries, the sample record
 * and schema in their valid and invalid versions, and an unknown type tag.
 */
module Scenarios {
  import opened Wrappers
  import opened Validators
  import opened Evaluator

  const NoOptions: Options := Options(None, None, None, None, None)

  lemma StringMinLengthThree()
    ensures !Check(StringKind, Str("ab"), Some(NoOptions.(minLength := Some(3.0))))
    ensures Check(StringKind, Str("abc"), Some(NoOptions.(minLength := Some(3.0))))
  {
  }

  /** `min: 18` rejects 17 and admits 18; `min: 0` admits -5. */
  lemma NumberMinimum()
    ensures !Check(NumberKind, Num(17.0), Some(NoOptions.(min := Some(18.0))))
    ensures Check(NumberKind, Num(18.0), Some(NoOptions.(min := Some(18.0))))
    ensures Check(NumberKind, Num(-5.0), Some(NoOptions.(min := Some(0.0))))
  {
  }

  lemma ArrayMinLengthOne()
    ensures !Check(ArrayKind, Arr([]), Some(NoOptions.(minLength := Some(1.0))))
    ensures Check(ArrayKind, Arr([Str("x")]), Some(NoOptions.(minLength := Some(1.0))))
  {
  }

  /** The sample schema; the e-mail pattern's test is left as a parameter. */
  function SampleSchema(email: Regex): seq<Field> {
    [("username", UsernameRule()), ("age", AgeRule()), ("email", EmailRule(email)), ("hobbies", HobbiesRule())]
  }

  function UsernameRule(): Rule {
    Rule("string", true, Some(NoOptions.(minLength := Some(3.0), maxLength := Some(20.0))))
  }

  function AgeRule(): Rule {
    Rule("number", true, Some(NoOptions.(min := Some(18.0))))
  }

  function EmailRule(email: Regex): Rule {
    Rule("string", true, Some(NoOptions.(pattern := Some(email))))
  }

  function HobbiesRule(): Rule {
    Rule("array", false, Some(NoOptions.(minLength := Some(1.0))))
  }

  function GoodRecord(): Data {
    map["username" := Str("john_doe"), "age" := Num(25.0), "email" := Str("john@example.com"),
        "hobbies" := Arr([Str("reading"), Str("traveling")])]
  }

  function BadRecord(): Data {
    map["username" := Str("jo"), "age" := Num(16.0), "email" := Str("not-an-email")]
  }

  /** A schema whose every field passes yields null. */
  lemma PassesThrough(data: Data, schema: seq<Field>)
    requires forall i :: 0 <= i < |schema| ==> CheckField(data, schema[i].0, schema[i].1).Pass?
    ensures Validation(data, schema) == Returned(None)
  {
    RunningExactly(data, schema);
    NullIffNoFailure(data, schema);
  }

  lemma GoodUsername()
    ensures CheckField(GoodRecord(), "username", UsernameRule()) == Pass
  {
    assert |"john_doe"| == 8;
    assert StringValidator(Str("john_doe"), UsernameRule().options);
  }

  lemma GoodAge()
    ensures CheckField(GoodRecord(), "age", AgeRule()) == Pass
  {
    assert NumberValidator(Num(25.0), AgeRule().options);
  }

  lemma GoodEmail(email: Regex)
    requires email.test("john@example.com")
    ensures CheckField(GoodRecord(), "email", EmailRule(email)) == Pass
  {
    assert StringValidator(Str("john@example.com"), EmailRule(email).options);
  }

  lemma GoodHobbies()
    ensures CheckField(GoodRecord(), "hobbies", HobbiesRule()) == Pass
  {
    assert ArrayValidator(Arr([Str("reading"), Str("traveling")]), HobbiesRule().options);
  }

  /** The sample record passes when the pattern accepts its address. */
  lemma SampleRecordValid(email: Regex)
    requires email.test("john@example.com")
    ensures Validation(GoodRecord(), SampleSchema(email)) == Returned(None)
  {
    var schema := SampleSchema(email);
    ValidPrefix(email, 4);
    assert schema[..4] == schema;
  }

  /** Every prefix of the sample schema leaves the good record without errors. */
  lemma {:induction false} ValidPrefix(email: Regex, n: nat)
    requires email.test("john@example.com")
    requires n <= 4
    ensures Through(GoodRecord(), SampleSchema(email)[..n]) == Running(map[])
  {
    var data, schema := GoodRecord(), SampleSchema(email);
    if n > 0 {
      ValidPrefix(email, n - 1);
      assert schema[..n][..n - 1] == schema[..n - 1];
      assert Through(data, schema[..n]) == Step(data, Through(data, schema[..n - 1]), schema[n - 1]);
      if n == 1 { GoodUsername(); }
      else if n == 2 { GoodAge(); }
      else if n == 3 { GoodEmail(email); }
      else { GoodHobbies(); }
    }
  }

  lemma BadAge()
    ensures CheckField(BadRecord(), "age", AgeRule()) == Fail("Invalid value for age.")
  {
    assert !NumberValidator(Num(16.0), AgeRule().options);
  }

  lemma BadEmail(email: Regex)
    requires !email.test("not-an-email")
    ensures CheckField(BadRecord(), "email", EmailRule(email)) == Fail("Invalid value for email.")
  {
    assert Lookup("string") == Some(StringKind);
    assert !StringValidator(Str("not-an-email"), EmailRule(email).options);
    assert !Check(StringKind, Str("not-an-email"), EmailRule(email).options);
  }

  lemma BadHobbies()
    ensures CheckField(BadRecord(), "hobbies", HobbiesRule()) == Pass
  {
    assert "hobbies" !in BadRecord();
  }

  lemma BadUsername()
    ensures CheckField(BadRecord(), "username", UsernameRule()) == Fail("Invalid value for username.")
  {
    assert |"jo"| == 2;
    assert !StringValidator(Str("jo"), UsernameRule().options);
  }

  /** The error map after each prefix of the sample schema, on the bad record. */
  function InvalidErrors(n: nat): map<string, string> {
    if n == 0 then map[]
    else if n == 1 then map["username" := "Invalid value for username."]
    else if n == 2 then InvalidErrors(1)["age" := "Invalid value for age."]
    else InvalidErrors(2)["email" := "Invalid value for email."]
  }

  lemma {:induction false} InvalidPrefix(email: Regex, n: nat)
    requires !email.test("not-an-email")
    requires n <= 4
    ensures Through(BadRecord(), SampleSchema(email)[..n]) == Running(InvalidErrors(n))
  {
    var data, schema := BadRecord(), SampleSchema(email);
    if n > 0 {
      InvalidPrefix(email, n - 1);
      assert schema[..n][..n - 1] == schema[..n - 1];
      assert Through(data, schema[..n]) == Step(data, Through(data, schema[..n - 1]), schema[n - 1]);
      if n == 1 { BadUsername(); }
      else if n == 2 { BadAge(); }
      else if n == 3 { BadEmail(email); }
      else { BadHobbies(); }
    }
  }

  /** Too short, too young and a rejected address: three errors, none for the missing optional field. */
  lemma SampleRecordInvalid(email: Regex)
    requires !email.test("not-an-email")
    ensures Validation(BadRecord(), SampleSchema(email))
            == Returned(Some(map["username" := "Invalid value for username.",
                                 "age" := "Invalid value for age.",
                                 "email" := "Invalid value for email."]))
  {
    var schema := SampleSchema(email);
    InvalidPrefix(email, 4);
    assert schema[..4] == schema;
    assert "email" in InvalidErrors(4);
  }

  /** A field with the tag "date" makes the call throw. */
  lemma UnknownTagThrows()
    ensures Validation(map["born" := Str("1990-01-01")], [("born", Rule("date", true, None))])
            == Threw("Invalid validator type: date")
  {
    var schema := [("born", Rule("date", true, None))];
    assert schema[..0] == [];
    assert schema[..1] == schema;
  }
}
