/**
  The profile form (components/profile/profile-form.tsx): its schema, its default values
  and the `profiles` row its submit handler upserts. The upsert, the toast and the router
  are outside the model: what the upsert answers is a parameter, and the handler's
  effects are its result.
*/
module ProfileForm {
  import opened Common
  import opened Schema

  const Levels: seq<string> := ["beginner", "intermediate", "advanced"]

  const FirstNameRequired: string := "First name is required"
  const LastNameRequired: string := "Last name is required"
  const InvalidEmail: string := "Invalid email address"
  const UpdateFailedText: string := "Something went wrong. Please try again."

  datatype Field = FirstName | LastName | Email | Level

  datatype Values = Values(firstName: string, lastName: string, email: string, level: string)

  /** `formSchema`: the issues of the four fields, in the schema's order. */
  function Validate(v: Values): (r: seq<Issue<Field>>)
    ensures |r| <= 4
  {
    Check(MinLength(v.firstName, 1), FirstName, FirstNameRequired)
    + Check(MinLength(v.lastName, 1), LastName, LastNameRequired)
    + Check(IsEmail(v.email), Email, InvalidEmail)
    + Check(v.level in Levels, Level, EnumMessage(Levels, v.level))
  }

  /** The form passes exactly when both names are given, the e-mail is an address and
      the level is one of the three; each issue is there exactly when its rule fails. */
  lemma ValidateIff(v: Values)
    ensures Validate(v) == [] <==> v.firstName != "" && v.lastName != "" && IsEmail(v.email) && v.level in Levels
    ensures Issue(FirstName, FirstNameRequired) in Validate(v) <==> v.firstName == ""
    ensures Issue(LastName, LastNameRequired) in Validate(v) <==> v.lastName == ""
    ensures Issue(Email, InvalidEmail) in Validate(v) <==> !IsEmail(v.email)
    ensures Issue(Level, EnumMessage(Levels, v.level)) in Validate(v) <==> v.level !in Levels
  {
  }

  /** `defaultValues`: the saved profile when there is one, otherwise blank names, the
      signed-in user's e-mail (or nothing) and "beginner". */
  function Defaults(initialData: Option<Values>, userEmail: Option<string>): (d: Values)
    ensures initialData.Some? ==> d == initialData.value
    ensures initialData.None? ==> d.firstName == "" && d.lastName == "" && d.level == "beginner"
    ensures initialData.None? ==> d.email == (if userEmail.Some? then userEmail.value else "")
  {
    if initialData.Some? then initialData.value
    else Values("", "", if userEmail.Some? then userEmail.value else "", "beginner")
  }

  /** A new profile's form does not pass until both names are filled in, whatever the
      user's e-mail; its level always does. */
  lemma NewProfileNeedsNames(userEmail: Option<string>)
    ensures var r := Validate(Defaults(None, userEmail));
      Issue(FirstName, FirstNameRequired) in r && Issue(LastName, LastNameRequired) in r
      && Issue(Level, EnumMessage(Levels, "beginner")) !in r
  {
    ValidateIff(Defaults(None, userEmail));
  }

  /** A `profiles` row; the id is the signed-in user's, if any. */
  datatype ProfileRow = ProfileRow(
    id: Option<string>,
    first_name: string,
    last_name: string,
    email: string,
    level: string,
    updated_at: string)

  /** The row `onSubmit` upserts, stamped with the time of the call. */
  function UpsertRow(userId: Option<string>, v: Values, now: string): (row: ProfileRow)
    ensures row.id == userId && row.updated_at == now
  {
    ProfileRow(userId, v.firstName, v.lastName, v.email, v.level, now)
  }

  /** The form values a row holds. */
  function ValuesOf(row: ProfileRow): (v: Values)
    ensures v.level == row.level && v.email == row.email
  {
    Values(row.first_name, row.last_name, row.email, row.level)
  }

  /** The mapping is one-to-one: a row gives back the values it was made from, so two
      different forms never upsert the same row. */
  lemma UpsertRowOneToOne(userId: Option<string>, v: Values, w: Values, now: string)
    ensures ValuesOf(UpsertRow(userId, v, now)) == v
    ensures UpsertRow(userId, v, now) == UpsertRow(userId, w, now) ==> v == w
  {
    assert ValuesOf(UpsertRow(userId, v, now)) == v;
    assert ValuesOf(UpsertRow(userId, w, now)) == w;
  }

  /** The effects of `onSubmit`: the row sent, the error shown, whether the page is
      reloaded, and the loading flag afterwards. */
  datatype Submission = Submission(row: ProfileRow, formError: Option<string>, refreshed: bool, isLoading: bool)

  /** `onSubmit`: upsert the row; on success refresh the page, on failure show
      `error.message || "Something went wrong. Please try again."`. Loading ends either
      way. */
  function OnSubmit(userId: Option<string>, v: Values, now: string, upsertError: Option<string>): (s: Submission)
    ensures s.row == UpsertRow(userId, v, now) && !s.isLoading
    ensures s.refreshed <==> upsertError.None?
    ensures s.formError.None? <==> upsertError.None?
    ensures s.formError.Some? ==> s.formError.value != ""
    ensures upsertError.Some? && upsertError.value != "" ==> s.formError == upsertError
  {
    match upsertError
    case None => Submission(UpsertRow(userId, v, now), None, true, false)
    case Some(m) => Submission(UpsertRow(userId, v, now), Some(if m != "" then m else UpdateFailedText), false, false)
  }
}
