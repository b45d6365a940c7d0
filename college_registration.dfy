/**
  * The institution sign-up form (src/components/Auth/CollegeRegistration.tsx):
  * its inputs, `validateForm`, `handleInputChange` and `handleSubmit`. The
  * document upload is left out.
  */
module CollegeRegistration {
  import opened Seqs
  import opened Text
  import opened FormRules

  /** The form's text inputs. */
  const Inputs: set<FieldName> :=
    {InstitutionName, Email, Password, ConfirmPassword, ContactPerson, Phone, Address, City,
     State, Pincode, EmailDomain, StudentCount, EstablishedYear, InstitutionType, Website}

  /** The inputs `validateForm` checks, in order. */
  const Checked: seq<FieldName> :=
    [InstitutionName, Email, Password, ConfirmPassword, ContactPerson, Phone, Address,
     City, State, Pincode, EmailDomain, StudentCount, EstablishedYear, InstitutionType]

  /** The message `validateForm` records for one input, if any; unchecked inputs never get one. */
  function FieldError(f: Fields, field: FieldName): (r: Option<Message>)
    requires HasKeys(f, Inputs)
    ensures r.Some? ==> field in Checked
  {
    match field
    case InstitutionName => RequiredTrimmed(f[InstitutionName], InstitutionName)
    case Email => EmailError(f[Email])
    case Password => PasswordError(f[Password])
    case ConfirmPassword => ConfirmError(f[Password], f[ConfirmPassword])
    case ContactPerson => RequiredTrimmed(f[ContactPerson], ContactPerson)
    case Phone => RequiredTrimmed(f[Phone], Phone)
    case Address => RequiredTrimmed(f[Address], Address)
    case City => RequiredTrimmed(f[City], City)
    case State => RequiredTrimmed(f[State], State)
    case Pincode => RequiredTrimmed(f[Pincode], Pincode)
    case EmailDomain => RequiredTrimmed(f[EmailDomain], EmailDomain)
    case StudentCount => RequiredRaw(f[StudentCount], StudentCount)
    case EstablishedYear => RequiredRaw(f[EstablishedYear], EstablishedYear)
    case InstitutionType => RequiredRaw(f[InstitutionType], InstitutionType)
    case _ => None
  }

  /** `validateForm`'s checks, in order. */
  function Checks(f: Fields): (checks: seq<Check>)
    requires HasKeys(f, Inputs)
    ensures DistinctFields(checks)
    ensures FieldsOf(checks) == Checked
    ensures forall i :: 0 <= i < |checks| ==> checks[i] == Check(Checked[i], FieldError(f, Checked[i]))
  {
    assert forall i, j :: 0 <= i < j < |Checked| ==> Checked[i] != Checked[j];
    seq(|Checked|, i requires 0 <= i < |Checked| => Check(Checked[i], FieldError(f, Checked[i])))
  }

  /** What a complete institution application has, field by field. */
  predicate Complete(f: Fields)
    requires HasKeys(f, Inputs)
  {
    !IsBlank(f[InstitutionName]) && EmailPattern(f[Email])
    && |f[Password]| >= 6 && f[Password] == f[ConfirmPassword]
    && !IsBlank(f[ContactPerson]) && !IsBlank(f[Phone]) && !IsBlank(f[Address])
    && !IsBlank(f[City]) && !IsBlank(f[State]) && !IsBlank(f[Pincode]) && !IsBlank(f[EmailDomain])
    && f[StudentCount] != "" && f[EstablishedYear] != "" && f[InstitutionType] != ""
  }

  /** Every check passes exactly when the application is complete. */
  lemma ChecksPassIffComplete(f: Fields)
    requires HasKeys(f, Inputs)
    ensures (forall i :: 0 <= i < |Checks(f)| ==> Checks(f)[i].error.None?) <==> Complete(f)
  {
    if forall i :: 0 <= i < |Checks(f)| ==> Checks(f)[i].error.None? {
      PassingChecksComplete(f);
    }
    if Complete(f) {
      CompleteFieldsPass(f);
    }
  }

  lemma PassingChecksComplete(f: Fields)
    requires HasKeys(f, Inputs)
    requires forall i :: 0 <= i < |Checks(f)| ==> Checks(f)[i].error.None?
    ensures Complete(f)
  {
    var checks := Checks(f);
    assert checks[0].error.None? && checks[1].error.None? && checks[2].error.None? && checks[3].error.None?;
    assert checks[4].error.None? && checks[5].error.None? && checks[6].error.None? && checks[7].error.None?;
    assert checks[8].error.None? && checks[9].error.None? && checks[10].error.None? && checks[11].error.None?;
    assert checks[12].error.None? && checks[13].error.None?;
  }

  lemma CompleteFieldsPass(f: Fields)
    requires HasKeys(f, Inputs) && Complete(f)
    ensures forall k :: FieldError(f, k).None?
  {
    forall k ensures FieldError(f, k).None? {
    }
  }

  /** The form is valid exactly when the application is complete. */
  lemma ValidIffComplete(f: Fields, errors: Errors)
    requires HasKeys(f, Inputs) && Records(errors, Checks(f))
    ensures errors == map[] <==> Complete(f)
  {
    RecordsEmpty(errors, Checks(f));
    ChecksPassIffComplete(f);
  }

  /** An input no check reads (the website) never gets an error, and editing it changes no check. */
  lemma UncheckedInput(f: Fields, errors: Errors, field: FieldName, value: string)
    requires HasKeys(f, Inputs) && Records(errors, Checks(f)) && field !in Checked
    ensures field !in errors
    ensures Checks(f[field := value]) == Checks(f)
  {
    UncheckedEditKeepsErrors(f, field, value);
  }

  lemma UncheckedEditKeepsErrors(f: Fields, field: FieldName, value: string)
    requires HasKeys(f, Inputs) && field !in Checked
    ensures forall k :: FieldError(f[field := value], k) == FieldError(f, k)
  {
    var g := f[field := value];
    forall k ensures FieldError(g, k) == FieldError(f, k) {
    }
  }

  class Registration {
    var fields: Fields
    var errors: Errors

    /** Every input the checks read is present. */
    predicate HasInputs()
      reads this
    {
      HasKeys(fields, Inputs)
    }

    constructor()
      ensures fields == BlankFields(Inputs) && errors == map[]
      ensures HasInputs()
    {
      fields := BlankFields(Inputs);
      errors := map[];
    }

    /** `handleInputChange`: sets the named input and clears its error if set. */
    method InputChange(name: FieldName, value: string)
      requires HasInputs()
      modifies this
      ensures HasInputs()
      ensures fields == old(fields)[name := value]
      ensures errors == ClearError(old(errors), name)
    {
      fields := fields[name := value];
      errors := ClearError(errors, name);
    }

    /** `validateForm`: records the failing checks and reports whether there were none. */
    method Validate() returns (valid: bool)
      requires HasInputs()
      modifies this
      ensures HasInputs() && fields == old(fields)
      ensures errors == Collect(Checks(fields)) && Records(errors, Checks(fields))
      ensures valid <==> errors == map[]
    {
      var newErrors := Collect(Checks(fields));
      CollectRecords(Checks(fields));
      errors := newErrors;
      valid := |newErrors| == 0;
    }

    /** `handleSubmit`: validates, and goes back (the application was sent) only when the form is valid. */
    method Submit() returns (back: bool)
      requires HasInputs()
      modifies this
      ensures HasInputs() && fields == old(fields)
      ensures Records(errors, Checks(fields))
      ensures back <==> Complete(fields)
    {
      back := Validate();
      ValidIffComplete(fields, errors);
    }
  }
}
