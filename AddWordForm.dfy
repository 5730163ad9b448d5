/**
  The form that adds a word to the user's vocabulary
  (components/vocabulary/add-word-form.tsx): its schema, its default values, the row its
  submit handler inserts, and the reset that follows a successful insert. The insert,
  the toast and the `onSuccess` callback are outside the model: what the insert answers
  is a parameter, and the handler's effects are its result.
*/
module AddWordForm {
  import opened Common
  import opened Schema

  const Difficulties: seq<string> := ["easy", "medium", "hard"]

  const WordRequired: string := "Word is required"
  const TranslationRequired: string := "Translation is required"
  const DefinitionRequired: string := "Definition is required"
  const ExampleRequired: string := "Example is required"
  const AddFailedText: string := "Failed to add word"

  datatype Field = Word | Translation | Definition | Example | Difficulty

  datatype Values = Values(word: string, translation: string, definition: string, example: string, difficulty: string)

  /** `formSchema`: the issues of the five fields, in the schema's order. */
  function Validate(v: Values): (r: seq<Issue<Field>>)
    ensures |r| <= 5
  {
    Check(MinLength(v.word, 1), Word, WordRequired)
    + Check(MinLength(v.translation, 1), Translation, TranslationRequired)
    + Check(MinLength(v.definition, 1), Definition, DefinitionRequired)
    + Check(MinLength(v.example, 1), Example, ExampleRequired)
    + Check(v.difficulty in Difficulties, Difficulty, EnumMessage(Difficulties, v.difficulty))
  }

  /** The form passes exactly when the four texts are given and the difficulty is one
      of the three; each issue is there exactly when its rule fails. */
  lemma ValidateIff(v: Values)
    ensures Validate(v) == [] <==> v.word != "" && v.translation != "" && v.definition != "" && v.example != ""
                                   && v.difficulty in Difficulties
    ensures Issue(Word, WordRequired) in Validate(v) <==> v.word == ""
    ensures Issue(Translation, TranslationRequired) in Validate(v) <==> v.translation == ""
    ensures Issue(Definition, DefinitionRequired) in Validate(v) <==> v.definition == ""
    ensures Issue(Example, ExampleRequired) in Validate(v) <==> v.example == ""
    ensures Issue(Difficulty, EnumMessage(Difficulties, v.difficulty)) in Validate(v) <==> v.difficulty !in Difficulties
  {
  }

  /** `defaultValues`. */
  function Defaults(): (d: Values)
    ensures d.word == d.translation == d.definition == d.example == "" && d.difficulty == "medium"
  {
    Values("", "", "", "", "medium")
  }

  /** The untouched form fails on its four texts and not on its difficulty. */
  lemma DefaultsInvalid()
    ensures Validate(Defaults()) == [Issue(Word, WordRequired), Issue(Translation, TranslationRequired),
                                     Issue(Definition, DefinitionRequired), Issue(Example, ExampleRequired)]
  {
    assert "medium" in Difficulties;
  }

  /** A `vocabulary` row. */
  datatype VocabularyRow = VocabularyRow(
    user_id: string,
    word: string,
    translation: string,
    definition: string,
    example: string,
    difficulty: string,
    created_at: string)

  /** The row `onSubmit` inserts for the given user, stamped with the time of the call. */
  function InsertRow(userId: string, v: Values, now: string): (row: VocabularyRow)
    ensures row.user_id == userId && row.created_at == now
  {
    VocabularyRow(userId, v.word, v.translation, v.definition, v.example, v.difficulty, now)
  }

  /** The form values a row holds. */
  function ValuesOf(row: VocabularyRow): (v: Values)
    ensures v.word == row.word && v.difficulty == row.difficulty
  {
    Values(row.word, row.translation, row.definition, row.example, row.difficulty)
  }

  /** The row carries all five fields: it gives back the values it was made from. */
  lemma InsertRowCarriesValues(userId: string, v: Values, w: Values, now: string)
    ensures ValuesOf(InsertRow(userId, v, now)) == v
    ensures InsertRow(userId, v, now) == InsertRow(userId, w, now) ==> v == w
  {
    assert ValuesOf(InsertRow(userId, v, now)) == v;
    assert ValuesOf(InsertRow(userId, w, now)) == w;
  }

  /** The effects of `onSubmit`: the row sent, the form's values afterwards, whether
      `onSuccess` was called, the toast, and the loading flag afterwards. */
  datatype Toast = Success(text: string) | Failure(text: string)

  datatype Submission = Submission(row: VocabularyRow, form: Values, calledOnSuccess: bool, toast: Toast, isLoading: bool)

  /** `onSubmit`: insert the row; on success reset the form to its defaults and call
      `onSuccess` when the parent passed one (`hasOnSuccess`); on failure keep what was
      typed and show `error.message || "Failed to add word"`. Loading ends either way. */
  function OnSubmit(userId: string, v: Values, now: string, insertError: Option<string>, hasOnSuccess: bool): (s: Submission)
    ensures s.row == InsertRow(userId, v, now) && !s.isLoading
    ensures s.calledOnSuccess <==> insertError.None? && hasOnSuccess
    ensures s.toast.Success? <==> insertError.None?
    ensures s.form == (if insertError.None? then Defaults() else v)
    ensures s.toast.Failure? ==> s.toast.text != ""
    ensures insertError.Some? && insertError.value != "" ==> s.toast == Failure(insertError.value)
  {
    match insertError
    case None => Submission(InsertRow(userId, v, now), Defaults(), hasOnSuccess, Success("Word added successfully"), false)
    case Some(m) => Submission(InsertRow(userId, v, now), v, false, Failure(if m != "" then m else AddFailedText), false)
  }

  /** The form is cleared only by a successful insert: after a failure, submitting
      again sends the same row. */
  lemma ResetOnlyOnSuccess(userId: string, v: Values, now: string, insertError: Option<string>, hasOnSuccess: bool)
    requires Validate(v) == []
    ensures var s := OnSubmit(userId, v, now, insertError, hasOnSuccess);
      (s.form == v <==> insertError.Some?)
      && (insertError.Some? ==> InsertRow(userId, s.form, now) == s.row)
  {
    ValidateIff(v);
    assert v != Defaults();
  }
}
