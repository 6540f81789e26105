/**
 * The form version of the profile questionnaire: one record holding all six
 * fields, a validator that rebuilds the error map field by field, and field
 * edits that clear that field's error.
 */
module Questionnaire {
  import opened ExperimentTypes
  import opened Validators

  /** The form as first rendered: empty text fields, no work preference, a flexible salary. */
  const InitialForm: Draft := map[Email := "", Name := "", ZipCode := "", Position := "",
                                  WorkPreference := "No strong preference", SalaryRange := "I'm flexible"]

  /** The form's own rule for each text field; the choice fields have none. */
  predicate FormRejects(f: Field, v: string) {
    match f
    case Email => v == "" || !IsEmailShaped(v)
    case Name => Trim(v) == ""
    case ZipCode => v == "" || !IsZip(v)
    case Position => Trim(v) == ""
    case _ => false
  }

  /** The errors the form shows for `d`: one entry, with its rule's message, for each field its rule rejects. */
  function FormErrors(d: Draft): (r: map<Field, string>)
    requires TextFields <= d.Keys
    ensures r.Keys <= TextFields
    ensures forall f :: f in TextFields ==> (f in r <==> FormRejects(f, d[f]))
    ensures forall f :: f in r ==> r[f] == FormMessage(f)
  {
    map f | f in TextFields && FormRejects(f, d[f]) :: FormMessage(f)
  }

  /** A map with exactly the entries of the form's rules is the form's error map. */
  lemma FormErrorsExtensional(d: Draft, m: map<Field, string>)
    requires TextFields <= d.Keys
    requires forall f :: f in m <==> f in TextFields && FormRejects(f, d[f])
    requires forall f :: f in m ==> m[f] == FormMessage(f)
    ensures m == FormErrors(d)
  {
  }

  /**
   * What the rules accept, stated without them: the email pattern, a name and
   * a position that are not blank, five decimal digits.
   */
  lemma FormErrorsMeaning(d: Draft)
    requires TextFields <= d.Keys
    ensures Email in FormErrors(d) <==> !MatchesEmailPattern(d[Email])
    ensures Name in FormErrors(d) <==> AllWhitespace(d[Name])
    ensures ZipCode in FormErrors(d) <==> !IsZip(d[ZipCode])
    ensures Position in FormErrors(d) <==> AllWhitespace(d[Position])
    ensures WorkPreference !in FormErrors(d) && SalaryRange !in FormErrors(d)
  {
    EmailShapeMatchesPattern(d[Email]);
    EmailShapeMatchesPattern("");
    TrimEmptyIff(d[Name]);
    TrimEmptyIff(d[Position]);
  }

  /** The message of a text field's rule. */
  function FormMessage(f: Field): string {
    match f
    case Email => EmailInvalid
    case Name => NameRequired
    case ZipCode => ZipInvalid
    case Position => PositionRequired
    case _ => ""
  }

  /**
   * The form and the chat dialogue accept the same text answers: a field has a
   * form error exactly when the dialogue's validator for it rejects the value.
   */
  lemma FormAgreesWithDialogue(d: Draft)
    requires TextFields <= d.Keys
    ensures forall f :: f in TextFields ==> (f in FormErrors(d) <==> Validate(f, d[f]).Some?)
    ensures FormErrors(d) == map[] <==> forall f :: f in TextFields ==> Validate(f, d[f]) == None
  {
    FormErrorsMeaning(d);
    forall f | f in TextFields ensures f in FormErrors(d) <==> Validate(f, d[f]).Some? {
      ValidateAccepts(f, d[f]);
    }
    if FormErrors(d) != map[] {
      var f :| f in FormErrors(d);
      assert f in TextFields;
    }
  }

  /** The initial form is rejected for its four empty text fields, and only for them. */
  lemma InitialFormErrors()
    ensures FormErrors(InitialForm).Keys == TextFields
  {
    assert Trim("") == "";
  }

  /** The errors after editing `f`: that field's error is dropped when it shows one, every other entry stays. */
  function ClearedErrors(errors: map<Field, string>, f: Field): (r: map<Field, string>)
    ensures f !in r || (f in errors && errors[f] == "" && r == errors)
    ensures r.Keys <= errors.Keys && errors.Keys - r.Keys <= {f}
    ensures forall g :: g in r ==> r[g] == errors[g]
  {
    if f in errors && errors[f] != "" then errors - {f} else errors
  }

  /** Only editing a field clears its error, and editing never adds one. */
  lemma EditsOnlyClear(errors: map<Field, string>, f: Field, g: Field)
    requires g in errors && errors[g] != ""
    ensures g in ClearedErrors(errors, f) <==> f != g
  {
  }

  class QuestionnaireForm {
    var formData: Draft
    var errors: map<Field, string>

    /** Every field of the record is present. */
    predicate Complete()
      reads this
    {
      formData.Keys == AllFields
    }

    constructor ()
      ensures formData == InitialForm && errors == map[] && Complete()
    {
      formData := InitialForm;
      errors := map[];
    }

    /** Rebuilds the error map field by field and reports whether it came out empty. */
    method Validate() returns (valid: bool)
      requires Complete()
      modifies this
      ensures formData == old(formData) && errors == FormErrors(formData)
      ensures valid <==> errors == map[]
    {
      var d := formData;
      var newErrors: map<Field, string> := map[];
      if FormRejects(Email, d[Email]) {
        newErrors := newErrors[Email := EmailInvalid];
      }
      if FormRejects(Name, d[Name]) {
        newErrors := newErrors[Name := NameRequired];
      }
      if FormRejects(ZipCode, d[ZipCode]) {
        newErrors := newErrors[ZipCode := ZipInvalid];
      }
      if FormRejects(Position, d[Position]) {
        newErrors := newErrors[Position := PositionRequired];
      }
      forall f ensures f in newErrors <==> f in TextFields && FormRejects(f, d[f]) {
        match f
        case Email =>
        case Name =>
        case ZipCode =>
        case Position =>
        case WorkPreference =>
        case SalaryRange =>
      }
      FormErrorsExtensional(d, newErrors);
      errors := newErrors;
      valid := |newErrors| == 0;
    }

    /** Submitting hands the record to the caller only when it validates. */
    method HandleSubmit() returns (submitted: Option<Draft>)
      requires Complete()
      modifies this
      ensures formData == old(formData) && errors == FormErrors(formData)
      ensures submitted.Some? <==> FormErrors(formData) == map[]
      ensures submitted.Some? ==> submitted.value == formData
    {
      var valid := Validate();
      submitted := if valid then Some(formData) else None;
    }

    method UpdateField(f: Field, value: string)
      modifies this
      ensures formData == old(formData)[f := value]
      ensures errors == ClearedErrors(old(errors), f)
      ensures old(Complete()) ==> Complete()
    {
      formData := formData[f := value];
      if f in errors && errors[f] != "" {
        errors := errors - {f};
      }
    }
  }
}
