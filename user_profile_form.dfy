/**
 * The user-profile form: its validation schema, the values it starts from, and
 * what its submit hands to the caller.
 */
module UserProfileForm {
  import opened Wrappers
  import opened Types

  /** The values the form holds and submits; `email` is optional. */
  datatype UserFormData = UserFormData(
    email: Option<string>,
    name: string,
    addressLine1: string,
    city: string,
    country: string)

  /** A rejected field and the message shown under it. */
  datatype FieldIssue = FieldIssue(field: string, message: string)

  /** The fields a user can type into; the email input is disabled. */
  datatype EditableField = Name | AddressLine1 | City | Country

  /** The schema's findings, in field order: four non-empty strings, email unconstrained. */
  function Issues(v: UserFormData): (r: seq<FieldIssue>)
    ensures |r| <= 4
  {
    (if |v.name| == 0 then [FieldIssue("name", "Name is required")] else [])
    + (if |v.addressLine1| == 0 then [FieldIssue("addressLine1", "Address Line 1 is required")] else [])
    + (if |v.city| == 0 then [FieldIssue("city", "City is required")] else [])
    + (if |v.country| == 0 then [FieldIssue("country", "Country is required")] else [])
  }

  /** The predicate the schema accepts. */
  predicate Valid(v: UserFormData)
  {
    |v.name| >= 1 && |v.addressLine1| >= 1 && |v.city| >= 1 && |v.country| >= 1
  }

  /** `handleSubmit(onSave)`: the values go to `onSave` only when they pass the schema. */
  function Submit(v: UserFormData): Result<UserFormData, seq<FieldIssue>>
  {
    var issues := Issues(v);
    if issues == [] then Ok(v) else Err(issues)
  }

  /** `defaultValues: currentUser` and `form.reset(currentUser)`. */
  function FromUser(u: User): UserFormData
  {
    UserFormData(Some(u.email), u.name, u.addressLine1, u.city, u.country)
  }

  /** Typing into one of the enabled inputs. */
  function Edit(v: UserFormData, f: EditableField, text: string): UserFormData
  {
    match f
    case Name => v.(name := text)
    case AddressLine1 => v.(addressLine1 := text)
    case City => v.(city := text)
    case Country => v.(country := text)
  }

  /** Submission succeeds exactly for the values the schema accepts, unchanged. */
  lemma SubmitAcceptsValid(v: UserFormData)
    ensures Submit(v).Ok? <==> Valid(v)
    ensures Submit(v).Ok? ==> Submit(v).value == v
  {
  }

  /** Each empty field is reported with its own message, and only empty fields are. */
  lemma IssueMessages(v: UserFormData)
    ensures FieldIssue("name", "Name is required") in Issues(v) <==> v.name == ""
    ensures FieldIssue("addressLine1", "Address Line 1 is required") in Issues(v) <==> v.addressLine1 == ""
    ensures FieldIssue("city", "City is required") in Issues(v) <==> v.city == ""
    ensures FieldIssue("country", "Country is required") in Issues(v) <==> v.country == ""
    ensures |Issues(v)| == (if v.name == "" then 1 else 0) + (if v.addressLine1 == "" then 1 else 0)
                         + (if v.city == "" then 1 else 0) + (if v.country == "" then 1 else 0)
  {
    var a := if |v.name| == 0 then [FieldIssue("name", "Name is required")] else [];
    var b := if |v.addressLine1| == 0 then [FieldIssue("addressLine1", "Address Line 1 is required")] else [];
    var c := if |v.city| == 0 then [FieldIssue("city", "City is required")] else [];
    var d := if |v.country| == 0 then [FieldIssue("country", "Country is required")] else [];
    assert Issues(v) == a + b + c + d;
    forall x | x in Issues(v)
      ensures x in a || x in b || x in c || x in d
    {
    }
  }

  /** The email, whatever it holds, never decides whether the form is accepted. */
  lemma EmailUnconstrained(v: UserFormData, email: Option<string>)
    ensures Submit(v.(email := email)).Ok? <==> Submit(v).Ok?
  {
  }

  /** No edit reaches the email: the input for it is disabled. */
  lemma EditKeepsEmail(v: UserFormData, f: EditableField, text: string)
    ensures Edit(v, f, text).email == v.email
  {
  }

  /**
   * After a reset to the current user, submitting unchanged sends that user's
   * profile (without its id) exactly when its four required fields are filled.
   */
  lemma ResetThenSubmit(u: User)
    ensures Submit(FromUser(u)).Ok? <==> u.name != "" && u.addressLine1 != "" && u.city != "" && u.country != ""
    ensures Submit(FromUser(u)).Ok? ==>
      Submit(FromUser(u)).value == UserFormData(Some(u.email), u.name, u.addressLine1, u.city, u.country)
  {
  }
}
