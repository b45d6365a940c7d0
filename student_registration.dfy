/**
  * The student sign-up form (src/components/Auth/StudentRegistration.tsx):
  * its inputs, `validateForm`, `handleInputChange` and `handleSubmit`. The ID
  * card upload is left out.
  */
module StudentRegistration {
  import opened Seqs
  import opened Text
  import opened FormRules

  /** The form's text inputs. */
  const Inputs: set<FieldName> := {Name, Email, Password, ConfirmPassword, RollNumber, CollegeName, Phone, Year, Course}

  /** The inputs `validateForm` checks, in order. */
  const Checked: seq<FieldName> := [Name, Email, Password, ConfirmPassword, RollNumber, CollegeName, Year, Course]

  /** The message `validateForm` records for one input, if any; unchecked inputs never get one. */
  function FieldError(f: Fields, field: FieldName): (r: Option<Message>)
    requires HasKeys(f, Inputs)
    ensures r.Some? ==> field in Checked
  {
    match field
    case Name => RequiredTrimmed(f[Name], Name)
    case Email => EmailError(f[Email])
    case Password => PasswordError(f[Password])
    case ConfirmPassword => ConfirmError(f[Password], f[ConfirmPassword])
    case RollNumber => RequiredTrimmed(f[RollNumber], RollNumber)
    case CollegeName => RequiredTrimmed(f[CollegeName], CollegeName)
    case Year => RequiredRaw(f[Year], Year)
    case Course => RequiredTrimmed(f[Course], Course)
    case _ => None
  }

  /** `validateForm`'s checks, in order. */
  function Checks(f: Fields): (checks: seq<Check>)
    requires HasKeys(f, Inputs)
    ensures DistinctFields(checks)
    ensures FieldsOf(checks) == Checked
    ensures forall i :: 0 <= i < |checks| ==> checks[i] == Check(Checked[i], FieldError(f, Checked[i]))
  {
    assert forall i, j :: 0 <= i < j < |Checked| ==> Checked[i] != Checked[j];
    seq(|Checked|, i requires 0 <= i < |Checked| => Check(Checked[i], FieldError(f, Checked[i])))
  }

  /** What a complete student application has, field by field. */
  predicate Complete(f: Fields)
    requires HasKeys(f, Inputs)
  {
    !IsBlank(f[Name]) && EmailPattern(f[Email])
    && |f[Password]| >= 6 && f[Password] == f[ConfirmPassword]
    && !IsBlank(f[RollNumber]) && !IsBlank(f[CollegeName])
    && f[Year] != "" && !IsBlank(f[Course])
  }

  /** Every check passes exactly when the application is complete. */
  lemma ChecksPassIffComplete(f: Fields)
    requires HasKeys(f, Inputs)
    ensures (forall i :: 0 <= i < |Checks(f)| ==> Checks(f)[i].error.None?) <==> Complete(f)
  {
    if forall i :: 0 <= i < |Checks(f)| ==> Checks(f)[i].error.None? {
      PassingChecksComplete(f);
    }
    if Complete(f) {
      CompleteFieldsPass(f);
    }
  }

  lemma PassingChecksComplete(f: Fields)
    requires HasKeys(f, Inputs)
    requires forall i :: 0 <= i < |Checks(f)| ==> Checks(f)[i].error.None?
    ensures Complete(f)
  {
    var checks := Checks(f);
    assert checks[0].error.None? && checks[1].error.None? && checks[2].error.None? && checks[3].error.None?;
    assert checks[4].error.None? && checks[5].error.None? && checks[6].error.None? && checks[7].error.None?;
  }

  lemma CompleteFieldsPass(f: Fields)
    requires HasKeys(f, Inputs) && Complete(f)
    ensures forall k :: FieldError(f, k).None?
  {
    forall k ensures FieldError(f, k).None? {
    }
  }

  /** The form is valid exactly when the application is complete. */
  lemma ValidIffComplete(f: Fields, errors: Errors)
    requires HasKeys(f, Inputs) && Records(errors, Checks(f))
    ensures errors == map[] <==> Complete(f)
  {
    RecordsEmpty(errors, Checks(f));
    ChecksPassIffComplete(f);
  }

  /** An input no check reads (the phone number) never gets an error, and editing it changes no check. */
  lemma UncheckedInput(f: Fields, errors: Errors, field: FieldName, value: string)
    requires HasKeys(f, Inputs) && Records(errors, Checks(f)) && field !in Checked
    ensures field !in errors
    ensures Checks(f[field := value]) == Checks(f)
  {
    UncheckedEditKeepsErrors(f, field, value);
  }

  lemma UncheckedEditKeepsErrors(f: Fields, field: FieldName, value: string)
    requires HasKeys(f, Inputs) && field !in Checked
    ensures forall k :: FieldError(f[field := value], k) == FieldError(f, k)
  {
    var g := f[field := value];
    forall k ensures FieldError(g, k) == FieldError(f, k) {
    }
  }

  class Registration {
    var fields: Fields
    var errors: Errors

    /** Every input the checks read is present. */
    predicate HasInputs()
      reads this
    {
      HasKeys(fields, Inputs)
    }

    constructor()
      ensures fields == BlankFields(Inputs) && errors == map[]
      ensures HasInputs()
    {
      fields := BlankFields(Inputs);
      errors := map[];
    }

    /** `handleInputChange`: sets the named input and clears its error. */
    method InputChange(name: FieldName, value: string)
      requires HasInputs()
      modifies this
      ensures HasInputs()
      ensures fields == old(fields)[name := value]
      ensures errors == ClearError(old(errors), name)
    {
      fields := fields[name := value];
      errors := ClearError(errors, name);
    }

    /** `validateForm`: records the failing checks and reports whether there were none. */
    method Validate() returns (valid: bool)
      requires HasInputs()
      modifies this
      ensures HasInputs() && fields == old(fields)
      ensures errors == Collect(Checks(fields)) && Records(errors, Checks(fields))
      ensures valid <==> errors == map[]
    {
      var newErrors := Collect(Checks(fields));
      CollectRecords(Checks(fields));
      errors := newErrors;
      valid := |newErrors| == 0;
    }

    /** `handleSubmit`: validates, and goes back (the registration succeeded) only when the form is valid. */
    method Submit() returns (back: bool)
      requires HasInputs()
      modifies this
      ensures HasInputs() && fields == old(fields)
      ensures Records(errors, Checks(fields))
      ensures back <==> Complete(fields)
    {
      back := Validate();
      ValidIffComplete(fields, errors);
    }
  }
}
