/**
  * The counselor sign-up form (src/components/Auth/CounselorRegistration.tsx):
  * its inputs and weekly availability grid, `validateForm`,
  * `handleInputChange` and `handleSubmit`. The document upload is left out.
  */
module CounselorRegistration {
  import opened Seqs
  import opened Text
  import opened FormRules

  /** The form's text inputs. */
  const Inputs: set<FieldName> :=
    {Name, Email, Password, ConfirmPassword, Phone, Qualification, Experience,
     Specialization, InstitutionName, LicenseNumber, Bio}

  /** The inputs `validateForm` checks, in order. */
  const Checked: seq<FieldName> :=
    [Name, Email, Password, ConfirmPassword, Qualification, Experience, Specialization, LicenseNumber]

  /** The message `validateForm` records for one input, if any; unchecked inputs never get one. */
  function FieldError(f: Fields, field: FieldName): (r: Option<Message>)
    requires HasKeys(f, Inputs)
    ensures r.Some? ==> field in Checked
  {
    match field
    case Name => RequiredTrimmed(f[Name], Name)
    case Email => EmailError(f[Email])
    case Password => PasswordError(f[Password])
    case ConfirmPassword => ConfirmError(f[Password], f[ConfirmPassword])
    case Qualification => RequiredTrimmed(f[Qualification], Qualification)
    case Experience => RequiredRaw(f[Experience], Experience)
    case Specialization => RequiredTrimmed(f[Specialization], Specialization)
    case LicenseNumber => RequiredTrimmed(f[LicenseNumber], LicenseNumber)
    case _ => None
  }

  /** `validateForm`'s checks, in order. */
  function Checks(f: Fields): (checks: seq<Check>)
    requires HasKeys(f, Inputs)
    ensures DistinctFields(checks)
    ensures FieldsOf(checks) == Checked
    ensures forall i :: 0 <= i < |checks| ==> checks[i] == Check(Checked[i], FieldError(f, Checked[i]))
  {
    assert forall i, j :: 0 <= i < j < |Checked| ==> Checked[i] != Checked[j];
    seq(|Checked|, i requires 0 <= i < |Checked| => Check(Checked[i], FieldError(f, Checked[i])))
  }

  /** What a complete counselor application has, field by field. */
  predicate Complete(f: Fields)
    requires HasKeys(f, Inputs)
  {
    !IsBlank(f[Name]) && EmailPattern(f[Email])
    && |f[Password]| >= 6 && f[Password] == f[ConfirmPassword]
    && !IsBlank(f[Qualification]) && f[Experience] != ""
    && !IsBlank(f[Specialization]) && !IsBlank(f[LicenseNumber])
  }

  /** Every check passes exactly when the application is complete. */
  lemma ChecksPassIffComplete(f: Fields)
    requires HasKeys(f, Inputs)
    ensures (forall i :: 0 <= i < |Checks(f)| ==> Checks(f)[i].error.None?) <==> Complete(f)
  {
    if forall i :: 0 <= i < |Checks(f)| ==> Checks(f)[i].error.None? {
      PassingChecksComplete(f);
    }
    if Complete(f) {
      CompleteFieldsPass(f);
    }
  }

  lemma PassingChecksComplete(f: Fields)
    requires HasKeys(f, Inputs)
    requires forall i :: 0 <= i < |Checks(f)| ==> Checks(f)[i].error.None?
    ensures Complete(f)
  {
    var checks := Checks(f);
    assert checks[0].error.None? && checks[1].error.None? && checks[2].error.None? && checks[3].error.None?;
    assert checks[4].error.None? && checks[5].error.None? && checks[6].error.None? && checks[7].error.None?;
  }

  lemma CompleteFieldsPass(f: Fields)
    requires HasKeys(f, Inputs) && Complete(f)
    ensures forall k :: FieldError(f, k).None?
  {
    forall k ensures FieldError(f, k).None? {
    }
  }

  /** The form is valid exactly when the application is complete. */
  lemma ValidIffComplete(f: Fields, errors: Errors)
    requires HasKeys(f, Inputs) && Records(errors, Checks(f))
    ensures errors == map[] <==> Complete(f)
  {
    RecordsEmpty(errors, Checks(f));
    ChecksPassIffComplete(f);
  }

  /**
    * An input no check reads (the phone number, the institution name, the
    * bio) never gets an error, and editing it changes no check.
    */
  lemma UncheckedInput(f: Fields, errors: Errors, field: FieldName, value: string)
    requires HasKeys(f, Inputs) && Records(errors, Checks(f)) && field !in Checked
    ensures field !in errors
    ensures Checks(f[field := value]) == Checks(f)
  {
    UncheckedEditKeepsErrors(f, field, value);
  }

  lemma UncheckedEditKeepsErrors(f: Fields, field: FieldName, value: string)
    requires HasKeys(f, Inputs) && field !in Checked
    ensures forall k :: FieldError(f[field := value], k) == FieldError(f, k)
  {
    var g := f[field := value];
    forall k ensures FieldError(g, k) == FieldError(f, k) {
    }
  }

  class Registration {
    var fields: Fields
    var availability: Availability
    var errors: Errors

    /** Every input the checks read is present. */
    predicate HasInputs()
      reads this
    {
      HasKeys(fields, Inputs)
    }

    constructor()
      ensures fields == BlankFields(Inputs) && availability == EmptyWeek() && errors == map[]
      ensures HasInputs()
    {
      fields := BlankFields(Inputs);
      availability := EmptyWeek();
      errors := map[];
    }

    /**
      * `handleInputChange`: an availability cell sets that day's bound, any
      * other input sets its text; the input's error is then cleared if set.
      * Errors are only recorded under text inputs, so an availability edit
      * leaves them as they were.
      */
    method InputChange(target: Target, value: string)
      requires HasInputs()
      requires target.Slot? ==> AvailabilityPrefix <= target.name
      modifies this
      ensures HasInputs()
      ensures target.Text? ==> fields == old(fields)[target.field := value] && availability == old(availability)
      ensures target.Text? ==> errors == ClearError(old(errors), target.field)
      ensures target.Slot? ==>
                fields == old(fields) && errors == old(errors)
                && availability == SetAvailability(old(availability), AvailabilitySlot(target.name).0,
                                                   AvailabilitySlot(target.name).1, value)
    {
      match target
      case Slot(name) =>
        var (day, bound) := AvailabilitySlot(name);
        availability := SetAvailability(availability, day, bound, value);
      case Text(field) =>
        fields := fields[field := value];
        errors := ClearError(errors, field);
    }

    /** `validateForm`: records the failing checks and reports whether there were none. */
    method Validate() returns (valid: bool)
      requires HasInputs()
      modifies this
      ensures HasInputs() && fields == old(fields) && availability == old(availability)
      ensures errors == Collect(Checks(fields)) && Records(errors, Checks(fields))
      ensures valid <==> errors == map[]
    {
      var newErrors := Collect(Checks(fields));
      CollectRecords(Checks(fields));
      errors := newErrors;
      valid := |newErrors| == 0;
    }

    /** `handleSubmit`: validates, and goes back (the application was sent) only when the form is valid. */
    method Submit() returns (back: bool)
      requires HasInputs()
      modifies this
      ensures HasInputs() && fields == old(fields) && availability == old(availability)
      ensures Records(errors, Checks(fields))
      ensures back <==> Complete(fields)
    {
      back := Validate();
      ValidIffComplete(fields, errors);
    }
  }
}
