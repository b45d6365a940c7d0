/**
  * The validation rules and input handling the four registration forms share
  * (the four registration components under src/components/Auth): the required-field tests, the
  * unanchored email pattern `\S+@\S+\.\S+`, the password length, the
  * confirmation match, the errors record, clearing a field's error on edit and
  * the nested `availability_<day>_<bound>` update.
  */
module FormRules {
  import opened Seqs
  import opened Text

  /**
    * The `name` attributes of the forms' text inputs, one constructor per name
    * (`ConfirmPassword` is the input named `confirmPassword`, and so on). The
    * availability grid's inputs are named by text instead; see `SetAvailability`.
    */
  datatype FieldName =
    | Name | Email | Password | ConfirmPassword | Phone
    | RollNumber | CollegeName | Year | Course
    | Qualification | Experience | Specialization | InstitutionName | LicenseNumber | Bio
    | ContactPerson | Address | City | State | Pincode | EmailDomain
    | StudentCount | EstablishedYear | InstitutionType | Website
    | Languages

  /** A form's text inputs, keyed by input name. */
  type Fields = map<FieldName, string>

  /** The messages `validateForm` records; `Cleared` is the empty message an edit leaves behind. */
  datatype Message = Required(field: FieldName) | EmailInvalid | PasswordTooShort | PasswordsDiffer | Cleared

  /** The errors record: input name to message. */
  type Errors = map<FieldName, Message>

  /** How a required-field message names its input. */
  function Label(field: FieldName): string {
    match field
    case Name => "Name"
    case Email => "Email"
    case Password => "Password"
    case ConfirmPassword => "Confirm password"
    case Phone => "Phone number"
    case RollNumber => "Roll number"
    case CollegeName => "College name"
    case Year => "Year"
    case Course => "Course"
    case Qualification => "Qualification"
    case Experience => "Experience"
    case Specialization => "Specialization"
    case InstitutionName => "Institution name"
    case LicenseNumber => "License number"
    case Bio => "Bio"
    case ContactPerson => "Contact person"
    case Address => "Address"
    case City => "City"
    case State => "State"
    case Pincode => "Pincode"
    case EmailDomain => "Email domain"
    case StudentCount => "Student count"
    case EstablishedYear => "Established year"
    case InstitutionType => "Institution type"
    case Website => "Website"
    case Languages => "Languages"
  }

  /** The text shown under an input; only a cleared message is empty. */
  function MessageText(m: Message): (text: string)
    ensures text == "" <==> m == Cleared
  {
    match m
    case Required(field) => Label(field) + " is required"
    case EmailInvalid => "Email is invalid"
    case PasswordTooShort => "Password must be at least 6 characters"
    case PasswordsDiffer => "Passwords do not match"
    case Cleared => ""
  }

  /** `!value.trim()`: a required field left blank. */
  function RequiredTrimmed(value: string, field: FieldName): (r: Option<Message>)
    ensures r.Some? <==> IsBlank(value)
    ensures r.Some? ==> r.value == Required(field)
  {
    if IsBlank(value) then Some(Required(field)) else None
  }

  /** `!value`: a required field left empty; whitespace counts as an answer. */
  function RequiredRaw(value: string, field: FieldName): (r: Option<Message>)
    ensures r.Some? <==> value == ""
    ensures r.Some? ==> r.value == Required(field)
  {
    if value == "" then Some(Required(field)) else None
  }

  /** The indices `i <= k < j` of `s` hold no whitespace. */
  predicate NonSpaceRun(s: string, i: int, j: int) {
    0 <= i <= j <= |s| && forall k :: i <= k < j ==> !IsSpace(s[k])
  }

  /**
    * `\S+@\S+\.\S+` matches with its '@' at `at` and its '.' at `dot`: the
    * characters just before the '@', between the two and just after the '.'
    * are non-space, with at least one between them. The outer runs need not be
    * longer than one character, since the pattern is not anchored.
    */
  predicate EmailMatchAt(s: string, at: int, dot: int) {
    0 < at && at + 1 < dot && dot + 1 < |s|
    && !IsSpace(s[at - 1]) && s[at] == '@'
    && NonSpaceRun(s, at + 1, dot)
    && s[dot] == '.' && !IsSpace(s[dot + 1])
  }

  /** Whether some '.' at index `j` or later completes a match whose '@' is at `at`. */
  function DotFrom(s: string, at: int, j: int): bool
    requires 0 <= at < j <= |s|
    decreases |s| - j
  {
    if j + 1 >= |s| || IsSpace(s[j]) then false
    else if s[j] == '.' && !IsSpace(s[j + 1]) then true
    else DotFrom(s, at, j + 1)
  }

  /** Whether the pattern matches with its '@' at index `i` or later. */
  function AtFrom(s: string, i: nat): bool
    decreases |s| - i
  {
    if i >= |s| then false
    else (0 < i && i + 2 <= |s| && !IsSpace(s[i - 1]) && s[i] == '@' && !IsSpace(s[i + 1]) && DotFrom(s, i, i + 2))
         || AtFrom(s, i + 1)
  }

  /** `/\S+@\S+\.\S+/.test(email)`. */
  function EmailPattern(email: string): (r: bool)
    ensures r <==> exists at, dot :: EmailMatchAt(email, at, dot)
  {
    AtFromMatches(email, 0);
    AtFrom(email, 0)
  }

  /** The search for the '.' finds one exactly when a match with that '@' exists at or after `j`. */
  lemma {:induction false} DotFromMatches(s: string, at: int, j: int)
    requires 0 < at && at + 1 < j <= |s|
    requires !IsSpace(s[at - 1]) && s[at] == '@' && NonSpaceRun(s, at + 1, j)
    ensures DotFrom(s, at, j) <==> exists dot :: j <= dot && EmailMatchAt(s, at, dot)
    decreases |s| - j
  {
    if j + 1 >= |s| || IsSpace(s[j]) {
    } else if s[j] == '.' && !IsSpace(s[j + 1]) {
      assert EmailMatchAt(s, at, j);
    } else {
      DotFromMatches(s, at, j + 1);
      if exists dot :: j <= dot && EmailMatchAt(s, at, dot) {
        var dot :| j <= dot && EmailMatchAt(s, at, dot);
        assert dot != j;
      }
    }
  }

  /** The search for the '@' finds one exactly when a match exists with its '@' at or after `i`. */
  lemma {:induction false} AtFromMatches(s: string, i: nat)
    ensures AtFrom(s, i) <==> exists at, dot :: i <= at && EmailMatchAt(s, at, dot)
    decreases |s| - i
  {
    if i < |s| {
      AtFromMatches(s, i + 1);
      var here := 0 < i && i + 2 <= |s| && !IsSpace(s[i - 1]) && s[i] == '@' && !IsSpace(s[i + 1]);
      if here {
        DotFromMatches(s, i, i + 2);
      }
      if exists at, dot :: i <= at && EmailMatchAt(s, at, dot) {
        var at, dot :| i <= at && EmailMatchAt(s, at, dot);
        if at == i {
          assert here;
          assert i + 2 <= dot;
        }
      }
    }
  }

  /** The pattern matches anywhere in the text: putting text before and after a match keeps it. */
  lemma EmailPatternInContext(pre: string, email: string, post: string)
    requires EmailPattern(email)
    ensures EmailPattern(pre + email + post)
  {
    var at, dot :| EmailMatchAt(email, at, dot);
    var s := pre + email + post;
    forall k | |pre| + at + 1 <= k < |pre| + dot
      ensures !IsSpace(s[k])
    {
      assert s[k] == email[k - |pre|];
    }
    assert EmailMatchAt(s, |pre| + at, |pre| + dot);
  }

  /** A match needs a non-space character, so matching text is never blank. */
  lemma EmailPatternNotBlank(email: string)
    ensures EmailPattern(email) ==> !IsBlank(email)
  {
    if EmailPattern(email) {
      var at, dot :| EmailMatchAt(email, at, dot);
      assert !IsSpace(email[at]);
    }
  }

  /** A match needs an '@' followed later by a '.'. */
  lemma EmailPatternNeedsAtThenDot(email: string)
    requires EmailPattern(email)
    ensures exists i, j :: 0 <= i < j < |email| && email[i] == '@' && email[j] == '.'
  {
    var at, dot :| EmailMatchAt(email, at, dot);
    assert email[at] == '@' && email[dot] == '.';
  }

  /** The email field's error: required after trimming, then the pattern, matched against the untrimmed text. */
  function EmailError(email: string): (r: Option<Message>)
    ensures r == Some(Required(Email)) <==> IsBlank(email)
    ensures r == Some(EmailInvalid) <==> !IsBlank(email) && !EmailPattern(email)
    ensures r.None? <==> EmailPattern(email)
  {
    if IsBlank(email) then
      EmailPatternNotBlank(email);
      Some(Required(Email))
    else if !EmailPattern(email) then Some(EmailInvalid)
    else None
  }

  /** The password field's error: required, then at least 6 characters; at most one message. */
  function PasswordError(password: string): (r: Option<Message>)
    ensures r == Some(Required(Password)) <==> password == ""
    ensures r == Some(PasswordTooShort) <==> 0 < |password| < 6
    ensures r.None? <==> |password| >= 6
  {
    if password == "" then Some(Required(Password))
    else if |password| < 6 then Some(PasswordTooShort)
    else None
  }

  /** The confirmation error, raised exactly when the two entries differ, whatever the password checks say. */
  function ConfirmError(password: string, confirmPassword: string): (r: Option<Message>)
    ensures r.Some? <==> password != confirmPassword
    ensures r.Some? ==> r.value == PasswordsDiffer
  {
    if password != confirmPassword then Some(PasswordsDiffer) else None
  }

  /** One line of `validateForm`: a field and the message it records, if any. */
  datatype Check = Check(field: FieldName, error: Option<Message>)

  /** One `if (…) newErrors.field = message` line: a failing check sets its field's message, every other entry stays. */
  function WithCheck(errors: Errors, check: Check): (r: Errors)
    ensures forall k :: k != check.field ==> (k in r <==> k in errors) && (k in r ==> r[k] == errors[k])
    ensures check.field in r <==> check.error.Some? || check.field in errors
    ensures check.error.Some? ==> r[check.field] == check.error.value
    ensures check.error.None? && check.field in errors ==> r[check.field] == errors[check.field]
  {
    if check.error.Some? then errors[check.field := check.error.value] else errors
  }

  /** The checks name distinct fields. */
  predicate DistinctFields(checks: seq<Check>) {
    forall i, j :: 0 <= i < j < |checks| ==> checks[i].field != checks[j].field
  }

  /** The fields the checks test, in order. */
  function FieldsOf(checks: seq<Check>): (fields: seq<FieldName>)
    ensures |fields| == |checks| && forall i :: 0 <= i < |checks| ==> fields[i] == checks[i].field
  {
    seq(|checks|, i requires 0 <= i < |checks| => checks[i].field)
  }

  /** `newErrors` after the checks: an entry for exactly the failing checks, holding their messages, and nothing else. */
  predicate Records(errors: Errors, checks: seq<Check>) {
    (forall k :: k in errors ==> k in FieldsOf(checks))
    && forall i :: 0 <= i < |checks| ==>
         (checks[i].field in errors <==> checks[i].error.Some?)
         && (checks[i].field in errors ==> errors[checks[i].field] == checks[i].error.value)
  }

  /** `newErrors` after running the checks in order from an empty record. */
  function Collect(checks: seq<Check>): Errors {
    if checks == [] then map[]
    else WithCheck(Collect(checks[..|checks| - 1]), checks[|checks| - 1])
  }

  /** Running one more check extends the record of the checks before it. */
  lemma CollectStep(checks: seq<Check>, n: nat)
    requires 0 < n <= |checks|
    ensures Collect(checks[..n]) == WithCheck(Collect(checks[..n - 1]), checks[n - 1])
  {
    assert checks[..n][..n - 1] == checks[..n - 1];
  }

  /** Checks on distinct fields leave exactly the record of their failures. */
  lemma {:induction false} CollectRecords(checks: seq<Check>)
    requires DistinctFields(checks)
    ensures Records(Collect(checks), checks)
  {
    if checks != [] {
      var init := checks[..|checks| - 1];
      var last := checks[|checks| - 1];
      CollectRecords(init);
      assert forall i :: 0 <= i < |init| ==> init[i] == checks[i] && init[i].field != last.field;
      assert forall k :: k in FieldsOf(init) ==> k in FieldsOf(checks);
    }
  }

  /** The form is valid (no key in `newErrors`) exactly when every check passes. */
  lemma RecordsEmpty(errors: Errors, checks: seq<Check>)
    requires Records(errors, checks)
    ensures errors == map[] <==> forall i :: 0 <= i < |checks| ==> checks[i].error.None?
  {
    if errors != map[] {
      var k :| k in errors;
      var i :| 0 <= i < |checks| && FieldsOf(checks)[i] == k;
      assert checks[i].error.Some?;
    }
  }

  /** The record of a list of checks with distinct fields is unique. */
  lemma RecordsUnique(e1: Errors, e2: Errors, checks: seq<Check>)
    requires DistinctFields(checks) && Records(e1, checks) && Records(e2, checks)
    ensures e1 == e2
  {
    forall k | k in e1
      ensures k in e2 && e2[k] == e1[k]
    {
      var i :| 0 <= i < |checks| && FieldsOf(checks)[i] == k;
    }
    forall k | k in e2
      ensures k in e1
    {
      var i :| 0 <= i < |checks| && FieldsOf(checks)[i] == k;
    }
  }

  /** `errors[name]` is truthy: a message is recorded and has not been cleared. */
  predicate HasError(errors: Errors, name: FieldName) {
    name in errors && MessageText(errors[name]) != ""
  }

  /** Editing an input clears that input's error if it is set; every other entry, and the key set, stay as they were. */
  function ClearError(errors: Errors, name: FieldName): (r: Errors)
    ensures r.Keys == errors.Keys
    ensures !HasError(r, name) && (name in r ==> r[name] == Cleared)
    ensures forall k :: k in errors && k != name ==> r[k] == errors[k]
    ensures !HasError(errors, name) ==> r == errors
  {
    if HasError(errors, name) then errors[name := Cleared] else errors
  }

  /**
    * The `name` of the input an edit comes from: a text input, or an
    * availability cell whose name starts with `availability_`.
    */
  datatype Target = Text(field: FieldName) | Slot(name: string)

  /** A day's hours on the availability grid, keyed `start` and `end`. */
  type Availability = map<string, map<string, string>>

  const AvailabilityPrefix: string := "availability_"

  /**
    * The day and bound named by an `availability_<day>_<bound>` input, read as
    * `name.split('_')` destructured into three: a missing bound is the
    * JavaScript key "undefined" and pieces after the third are ignored.
    */
  function AvailabilitySlot(name: string): (slot: (string, string))
    requires AvailabilityPrefix <= name
    ensures '_' !in slot.0 && '_' !in slot.1
  {
    var parts := Split(name, '_');
    (if |parts| > 1 then parts[1] else "undefined", if |parts| > 2 then parts[2] else "undefined")
  }

  /** The input `availability_<day>_<bound>` names that day and bound. */
  lemma AvailabilityNameParts(day: string, bound: string)
    requires '_' !in day && '_' !in bound
    ensures AvailabilityPrefix <= AvailabilityPrefix + day + "_" + bound
    ensures AvailabilitySlot(AvailabilityPrefix + day + "_" + bound) == (day, bound)
  {
    var name := AvailabilityPrefix + day + "_" + bound;
    assert name == "availability" + ['_'] + (day + ['_'] + bound);
    SplitAfterPiece("availability", '_', day + ['_'] + bound);
    SplitAfterPiece(day, '_', bound);
    SplitWhole(bound, '_');
  }

  /** An input named `availability_<day>` with no bound writes the key "undefined" of that day. */
  lemma AvailabilityNameWithoutBound(day: string)
    requires '_' !in day
    ensures AvailabilityPrefix <= AvailabilityPrefix + day
    ensures AvailabilitySlot(AvailabilityPrefix + day) == (day, "undefined")
  {
    var name := AvailabilityPrefix + day;
    assert name == "availability" + ['_'] + day;
    SplitAfterPiece("availability", '_', day);
    SplitWhole(day, '_');
  }

  /**
    * Sets one bound of one day. An unknown day starts from an empty entry, as
    * spreading `undefined` does; every other day and the day's other bound are
    * kept.
    */
  function SetAvailability(availability: Availability, day: string, bound: string, value: string): (r: Availability)
    ensures r.Keys == availability.Keys + {day}
    ensures bound in r[day] && r[day][bound] == value
    ensures forall b :: b != bound ==>
              (b in r[day] <==> day in availability && b in availability[day])
              && (b in r[day] ==> r[day][b] == availability[day][b])
    ensures forall d :: d in availability && d != day ==> r[d] == availability[d]
  {
    var hours := if day in availability then availability[day] else map[];
    availability[day := hours[bound := value]]
  }

  /** The seven days of the grid, each with an empty start and end. */
  function EmptyWeek(): (week: Availability)
    ensures week.Keys == {"monday", "tuesday", "wednesday", "thursday", "friday", "saturday", "sunday"}
    ensures forall d :: d in week ==> week[d] == map["start" := "", "end" := ""]
  {
    var empty := map["start" := "", "end" := ""];
    map["monday" := empty, "tuesday" := empty, "wednesday" := empty, "thursday" := empty,
        "friday" := empty, "saturday" := empty, "sunday" := empty]
  }

  /** A form state whose inputs include every key its checks read. */
  predicate HasKeys(fields: Fields, keys: set<FieldName>) {
    forall k :: k in keys ==> k in fields
  }

  /** Empty values for each of the keys. */
  function BlankFields(keys: set<FieldName>): (fields: Fields)
    ensures fields.Keys == keys
    ensures forall k :: k in keys ==> fields[k] == ""
  {
    map k | k in keys :: ""
  }
}
