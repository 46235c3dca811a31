/** The "Add New Employee" form: eight text fields, an optional expiration
    date, the per-field error map, and the handlers that edit, validate and
    submit it. */
module AddEmployee {
  import opened Wrappers
  import opened Text

  datatype Field = FirstName | LastName | Email | Department | JobTitle | VisaType | Status | Notes

  const AllFields: set<Field> := {FirstName, LastName, Email, Department, JobTitle, VisaType, Status, Notes}

  datatype FormData = FormData(
    firstName: string,
    lastName: string,
    email: string,
    department: string,
    jobTitle: string,
    visaType: string,
    status: string,
    notes: string)

  const EmptyForm := FormData("", "", "", "", "", "", "", "")

  function Get(form: FormData, field: Field): string
  {
    match field
    case FirstName => form.firstName
    case LastName => form.lastName
    case Email => form.email
    case Department => form.department
    case JobTitle => form.jobTitle
    case VisaType => form.visaType
    case Status => form.status
    case Notes => form.notes
  }

  /** `{ ...prev, [field]: value }`: the named field takes `value`, the others keep theirs. */
  function Set(form: FormData, field: Field, value: string): (r: FormData)
    ensures Get(r, field) == value
    ensures forall g :: g != field ==> Get(r, g) == Get(form, g)
  {
    match field
    case FirstName => form.(firstName := value)
    case LastName => form.(lastName := value)
    case Email => form.(email := value)
    case Department => form.(department := value)
    case JobTitle => form.(jobTitle := value)
    case VisaType => form.(visaType := value)
    case Status => form.(status := value)
    case Notes => form.(notes := value)
  }

  const FirstNameRequired := "First name is required"
  const LastNameRequired := "Last name is required"
  const EmailRequired := "Email is required"
  const InvalidEmail := "Please enter a valid email"
  const DepartmentRequired := "Department is required"

  /** The error `validateForm` records for one field. Names and the e-mail are
      trimmed before the emptiness test, the pattern is tried on the e-mail as
      typed, and the department is tested untrimmed. */
  function FieldError(form: FormData, field: Field): Option<string>
  {
    match field
    case FirstName => if IsBlank(form.firstName) then Some(FirstNameRequired) else None
    case LastName => if IsBlank(form.lastName) then Some(LastNameRequired) else None
    case Email =>
      if IsBlank(form.email) then Some(EmailRequired)
      else if !MatchesEmailPattern(form.email) then Some(InvalidEmail)
      else None
    case Department => if form.department == "" then Some(DepartmentRequired) else None
    case _ => None
  }

  /** The error map of `validateForm`: which fields fail and with what message. */
  function FormErrors(form: FormData): (errors: map<Field, string>)
    ensures FirstName in errors <==> IsBlank(form.firstName)
    ensures LastName in errors <==> IsBlank(form.lastName)
    ensures Email in errors <==> !MatchesEmailPattern(form.email)
    ensures Email in errors ==> (errors[Email] == EmailRequired <==> IsBlank(form.email))
    ensures Email in errors ==> (errors[Email] == InvalidEmail <==> !IsBlank(form.email))
    ensures Department in errors <==> form.department == ""
    ensures JobTitle !in errors && VisaType !in errors && Status !in errors && Notes !in errors
    ensures forall f :: f in errors ==> errors[f] != ""
    ensures errors == map[] <==>
              !IsBlank(form.firstName) && !IsBlank(form.lastName) &&
              MatchesEmailPattern(form.email) && form.department != ""
  {
    assert MatchesEmailPattern(form.email) ==> !IsBlank(form.email) by {
      if MatchesEmailPattern(form.email) {
        MatchImpliesNotBlank(form.email);
      }
    }
    var errors := map f | f in AllFields && FieldError(form, f).Some? :: FieldError(form, f).value;
    assert errors == map[] ==> FirstName !in errors && LastName !in errors && Email !in errors && Department !in errors;
    errors
  }

  /** Editing one field changes no other field's error. */
  lemma EditIsLocal(form: FormData, field: Field, value: string)
    ensures FormErrors(Set(form, field, value)) - {field} == FormErrors(form) - {field}
  {
    var after := Set(form, field, value);
    forall g | g != field
      ensures FieldError(after, g) == FieldError(form, g)
    {
      assert Get(after, g) == Get(form, g);
    }
    ErrorsAgreeOutside(after, form, field);
  }

  /** Two forms whose field errors agree outside `field` have error maps that
      agree outside it. */
  lemma ErrorsAgreeOutside(x: FormData, y: FormData, field: Field)
    requires forall g :: g != field ==> FieldError(x, g) == FieldError(y, g)
    ensures FormErrors(x) - {field} == FormErrors(y) - {field}
  {
    var a, b := FormErrors(x) - {field}, FormErrors(y) - {field};
    forall g
      ensures g in a <==> g in b
      ensures g in a ==> a[g] == b[g]
    {
      if g != field {
        assert FieldError(x, g) == FieldError(y, g);
      }
    }
  }

  /** Job title, visa type, status and notes never affect validation. */
  lemma OptionalFieldsNeverBlock(form: FormData, field: Field, value: string)
    requires field in {JobTitle, VisaType, Status, Notes}
    ensures FormErrors(Set(form, field, value)) == FormErrors(form)
  {
    EditIsLocal(form, field, value);
    assert field !in FormErrors(Set(form, field, value)) && field !in FormErrors(form);
    assert FormErrors(Set(form, field, value)) == FormErrors(Set(form, field, value)) - {field};
    assert FormErrors(form) == FormErrors(form) - {field};
  }

  /** A map that agrees with `FieldError` on every field is the error map. */
  lemma SameErrors(form: FormData, m: map<Field, string>)
    requires m.Keys <= {FirstName, LastName, Email, Department}
    requires FirstName in m <==> IsBlank(form.firstName)
    requires LastName in m <==> IsBlank(form.lastName)
    requires Email in m <==> IsBlank(form.email) || !MatchesEmailPattern(form.email)
    requires Department in m <==> form.department == ""
    requires forall f :: f in m ==> FieldError(form, f) == Some(m[f])
    ensures m == FormErrors(form)
  {
    var e := FormErrors(form);
    forall f
      ensures f in m <==> f in e
    {
    }
  }

  /** The checks of `validateForm`, one `if` per required field, collected
      into a fresh map. */
  method CollectErrors(form: FormData) returns (newErrors: map<Field, string>)
    ensures newErrors == FormErrors(form)
  {
    newErrors := map[];
    if IsBlank(form.firstName) {
      newErrors := newErrors[FirstName := FirstNameRequired];
    }
    if IsBlank(form.lastName) {
      newErrors := newErrors[LastName := LastNameRequired];
    }
    if IsBlank(form.email) {
      newErrors := newErrors[Email := EmailRequired];
    } else if !MatchesEmailPattern(form.email) {
      newErrors := newErrors[Email := InvalidEmail];
    }
    if form.department == "" {
      newErrors := newErrors[Department := DepartmentRequired];
    }
    SameErrors(form, newErrors);
  }

  /** What `onSave` receives: the fields and the picked day, or none. */
  datatype EmployeeData = EmployeeData(form: FormData, expirationDate: Option<string>)

  class AddEmployeeForm {
    var formData: FormData
    /** The picked day, already in "yyyy-MM-dd" form. */
    var expirationDate: Option<string>
    var errors: map<Field, string>

    /** Every recorded error carries a message, so `if (errors[field])` sees it. */
    predicate Valid()
      reads this
    {
      forall f :: f in errors ==> errors[f] != ""
    }

    constructor ()
      ensures formData == EmptyForm && expirationDate == None && errors == map[]
      ensures Valid()
    {
      formData := EmptyForm;
      expirationDate := None;
      errors := map[];
    }

    /** `handleInputChange`: stores the value and drops that field's error. */
    method HandleInputChange(field: Field, value: string)
      modifies this
      ensures formData == Set(old(formData), field, value)
      ensures errors == if field in old(errors) && old(errors)[field] != "" then old(errors) - {field} else old(errors)
      ensures old(Valid()) ==> errors == old(errors) - {field} && Valid()
      ensures expirationDate == old(expirationDate)
    {
      formData := Set(formData, field, value);
      if field in errors && errors[field] != "" {
        errors := errors - {field};
      }
    }

    /** The calendar's `setExpirationDate`. */
    method SelectDate(date: Option<string>)
      modifies this
      ensures expirationDate == date
      ensures formData == old(formData) && errors == old(errors)
    {
      expirationDate := date;
    }

    /** `validateForm`: records the error map and reports whether it is empty. */
    method ValidateForm() returns (valid: bool)
      modifies this
      ensures errors == FormErrors(formData)
      ensures valid <==> errors == map[]
      ensures formData == old(formData) && expirationDate == old(expirationDate)
      ensures Valid()
    {
      var newErrors := CollectErrors(formData);
      errors := newErrors;
      valid := |newErrors| == 0;
    }

    /** `handleSubmit`: validates, and hands the data to `onSave` only when valid. */
    method HandleSubmit() returns (saved: Option<EmployeeData>)
      modifies this
      ensures errors == FormErrors(old(formData))
      ensures saved.Some? <==> FormErrors(old(formData)) == map[]
      ensures saved.Some? ==> saved.value == EmployeeData(old(formData), old(expirationDate))
      ensures formData == old(formData) && expirationDate == old(expirationDate)
    {
      var valid := ValidateForm();
      if valid {
        saved := Some(EmployeeData(formData, expirationDate));
      } else {
        saved := None;
      }
    }
  }
}
