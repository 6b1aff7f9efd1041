/** The feedback form of the browser client: its field values, the error
    message shown under each field, the validator run on submit, the edits
    that clear a field's error, and the payload it posts. */
module Form {
  import opened Wrappers
  import opened Text
  import opened Rounding

  datatype TextField = StudentName | CourseCode | Comments
  datatype RatingField = Engagement | Resources | Satisfaction

  /** The keys of the error map: one per input, and one for a failed submit. */
  datatype Field = TextInput(text: TextField) | RatingInput(category: RatingField) | SubmitField

  /** `formData`: the three texts as typed and the three star ratings
      (0 = not yet rated). */
  datatype FormData = FormData(
    studentName: string,
    courseCode: string,
    comments: string,
    engagement: int,
    resources: int,
    satisfaction: int)

  const InitialData := FormData("", "", "", 0, 0, 0)

  function TextOf(d: FormData, f: TextField): string {
    match f
    case StudentName => d.studentName
    case CourseCode => d.courseCode
    case Comments => d.comments
  }

  function ScoreOf(d: FormData, c: RatingField): int {
    match c
    case Engagement => d.engagement
    case Resources => d.resources
    case Satisfaction => d.satisfaction
  }

  /** `errors`: field to message. A cleared error keeps its key with the
      message "", which the page does not display. */
  type Errors = map<Field, string>

  /** `errors[f]` is truthy: there is a non-empty message for `f`. */
  predicate Shows(errors: Errors, f: Field) {
    f in errors && errors[f] != ""
  }

  datatype FormState = FormState(data: FormData, errors: Errors)

  /** The form as first rendered and as reset after a successful submit. */
  const Initial := FormState(InitialData, map[])

  function SetText(d: FormData, f: TextField, value: string): FormData {
    match f
    case StudentName => d.(studentName := value)
    case CourseCode => d.(courseCode := value)
    case Comments => d.(comments := value)
  }

  function SetScore(d: FormData, c: RatingField, rating: int): FormData {
    match c
    case Engagement => d.(engagement := rating)
    case Resources => d.(resources := rating)
    case Satisfaction => d.(satisfaction := rating)
  }

  /** `if (errors[f]) errors[f] = ''`. */
  function ClearError(errors: Errors, f: Field): Errors {
    if Shows(errors, f) then errors[f := ""] else errors
  }

  /** `handleChange` on a text input: only that value changes, and only that
      field's message is blanked; every other value and message stays. */
  function HandleChange(st: FormState, f: TextField, value: string): (st': FormState)
    ensures TextOf(st'.data, f) == value
    ensures forall g :: g != f ==> TextOf(st'.data, g) == TextOf(st.data, g)
    ensures forall c :: ScoreOf(st'.data, c) == ScoreOf(st.data, c)
    ensures !Shows(st'.errors, TextInput(f))
    ensures st'.errors.Keys == st.errors.Keys
    ensures forall g :: g in st.errors && g != TextInput(f) ==> st'.errors[g] == st.errors[g]
  {
    FormState(SetText(st.data, f, value), ClearError(st.errors, TextInput(f)))
  }

  /** `handleRatingChange`: only that score changes, and only that
      category's message is blanked. */
  function HandleRatingChange(st: FormState, c: RatingField, rating: int): (st': FormState)
    ensures ScoreOf(st'.data, c) == rating
    ensures forall k :: k != c ==> ScoreOf(st'.data, k) == ScoreOf(st.data, k)
    ensures forall g :: TextOf(st'.data, g) == TextOf(st.data, g)
    ensures !Shows(st'.errors, RatingInput(c))
    ensures st'.errors.Keys == st.errors.Keys
    ensures forall g :: g in st.errors && g != RatingInput(c) ==> st'.errors[g] == st.errors[g]
  {
    FormState(SetScore(st.data, c, rating), ClearError(st.errors, RatingInput(c)))
  }

  function MinLength(f: TextField): nat {
    match f
    case StudentName => 2
    case CourseCode => 2
    case Comments => 10
  }

  function RequiredMessage(f: TextField): string {
    match f
    case StudentName => "Student name is required"
    case CourseCode => "Course code is required"
    case Comments => "Comments are required"
  }

  function LengthMessage(f: TextField): string {
    match f
    case StudentName => "Name must be at least 2 characters"
    case CourseCode => "Course code must be at least 2 characters"
    case Comments => "Comments must be at least 10 characters"
  }

  function RatingMessage(c: RatingField): string {
    match c
    case Engagement => "Please rate course engagement"
    case Resources => "Please rate learning resources"
    case Satisfaction => "Please rate overall satisfaction"
  }

  /** The message `validateForm` puts on one field, if any: a blank text is
      "required", otherwise a text shorter than its minimum (counted before
      trimming) is "too short"; a score below 1 is "please rate". */
  function FieldError(d: FormData, f: Field): Option<string> {
    match f
    case TextInput(t) =>
      if Trim(TextOf(d, t)) == [] then Some(RequiredMessage(t))
      else if Utf16Length(TextOf(d, t)) < MinLength(t) then Some(LengthMessage(t))
      else None
    case RatingInput(c) =>
      if ScoreOf(d, c) < 1 then Some(RatingMessage(c)) else None
    case SubmitField => None
  }

  /** `errors` with the message for `f` added when there is one. */
  function With(errors: Errors, f: Field, message: Option<string>): Errors {
    if message.Some? then errors[f := message.value] else errors
  }

  const InputFields: set<Field> := {
    TextInput(StudentName), TextInput(CourseCode), TextInput(Comments),
    RatingInput(Engagement), RatingInput(Resources), RatingInput(Satisfaction)}

  /** The messages of the given fields, keyed by field. */
  function ErrorsOf(d: FormData, fields: set<Field>): Errors {
    map f | f in fields && FieldError(d, f).Some? :: FieldError(d, f).value
  }

  /** Checking one more field adds its message, if it has one. */
  lemma ErrorsOfAdd(d: FormData, fields: set<Field>, f: Field)
    ensures ErrorsOf(d, fields + {f}) == With(ErrorsOf(d, fields), f, FieldError(d, f))
  {
  }

  /** The error map `validateForm` produces: the message of every input that
      has one, keyed by that input. */
  function FormErrors(d: FormData): Errors {
    ErrorsOf(d, InputFields)
  }

  /** Each field carries at most one message, and it carries one exactly
      when FieldError gives one: that message. A failed submit is never
      among them. */
  lemma FormErrorsByField(d: FormData, f: Field)
    ensures f in FormErrors(d) <==> FieldError(d, f).Some?
    ensures f in FormErrors(d) ==> FormErrors(d)[f] == FieldError(d, f).value
  {
    match f
    case TextInput(t) =>
      assert t == StudentName || t == CourseCode || t == Comments;
    case RatingInput(c) =>
      assert c == Engagement || c == Resources || c == Satisfaction;
    case SubmitField =>
  }

  /** One text field's `if / else if` of `validateForm`: a blank value gets
      the "required" message, else a value shorter than the minimum gets the
      length message. */
  method CheckText(errors: Errors, d: FormData, t: TextField) returns (errors': Errors)
    ensures errors' == With(errors, TextInput(t), FieldError(d, TextInput(t)))
  {
    errors' := errors;
    var value := TextOf(d, t);
    ghost var message := FieldError(d, TextInput(t));
    if Trim(value) == [] {
      assert message == Some(RequiredMessage(t));
      errors' := errors'[TextInput(t) := RequiredMessage(t)];
    } else if Utf16Length(value) < MinLength(t) {
      assert message == Some(LengthMessage(t));
      errors' := errors'[TextInput(t) := LengthMessage(t)];
    } else {
      assert message == None;
    }
  }

  /** One category's `if` of `validateForm`: a score below 1 gets the
      "please rate" message. */
  method CheckScore(errors: Errors, d: FormData, c: RatingField) returns (errors': Errors)
    ensures errors' == With(errors, RatingInput(c), FieldError(d, RatingInput(c)))
  {
    errors' := errors;
    if ScoreOf(d, c) < 1 {
      errors' := errors'[RatingInput(c) := RatingMessage(c)];
    }
  }

  /** `validateForm`: builds the fresh error map field by field, in the
      source's order, and reports valid exactly when it is empty. */
  method ValidateForm(d: FormData) returns (valid: bool, errors: Errors)
    ensures errors == FormErrors(d)
    ensures valid <==> errors == map[]
  {
    errors := map[];
    ghost var checked: set<Field> := {};
    assert errors == ErrorsOf(d, checked);
    errors := CheckText(errors, d, StudentName);
    ErrorsOfAdd(d, checked, TextInput(StudentName));
    checked := checked + {TextInput(StudentName)};
    assert errors == ErrorsOf(d, checked);
    errors := CheckText(errors, d, CourseCode);
    ErrorsOfAdd(d, checked, TextInput(CourseCode));
    checked := checked + {TextInput(CourseCode)};
    assert errors == ErrorsOf(d, checked);
    errors := CheckText(errors, d, Comments);
    ErrorsOfAdd(d, checked, TextInput(Comments));
    checked := checked + {TextInput(Comments)};
    assert errors == ErrorsOf(d, checked);
    errors := CheckScore(errors, d, Engagement);
    ErrorsOfAdd(d, checked, RatingInput(Engagement));
    checked := checked + {RatingInput(Engagement)};
    assert errors == ErrorsOf(d, checked);
    errors := CheckScore(errors, d, Resources);
    ErrorsOfAdd(d, checked, RatingInput(Resources));
    checked := checked + {RatingInput(Resources)};
    assert errors == ErrorsOf(d, checked);
    errors := CheckScore(errors, d, Satisfaction);
    ErrorsOfAdd(d, checked, RatingInput(Satisfaction));
    checked := checked + {RatingInput(Satisfaction)};
    assert errors == ErrorsOf(d, checked);
    assert checked == InputFields;
    assert errors == map[] <==> |errors| == 0 by {
      if errors != map[] {
        var f :| f in errors;
        assert f in errors.Keys;
      }
    }
    valid := |errors| == 0;
  }

  /** A text field's message, by cases: "required" exactly when the text is
      all spaces (so it wins over the length message), "too short" exactly
      when it is not blank but shorter than its minimum, none otherwise. */
  lemma TextErrorCases(d: FormData, t: TextField)
    ensures FieldError(d, TextInput(t)) == Some(RequiredMessage(t)) <==> AllSpace(TextOf(d, t))
    ensures FieldError(d, TextInput(t)) == Some(LengthMessage(t)) <==>
      !AllSpace(TextOf(d, t)) && Utf16Length(TextOf(d, t)) < MinLength(t)
    ensures FieldError(d, TextInput(t)) == None <==>
      !AllSpace(TextOf(d, t)) && Utf16Length(TextOf(d, t)) >= MinLength(t)
  {
    TrimEmptyIff(TextOf(d, t));
  }

  /** A category gets its message exactly when its score is below 1. */
  lemma RatingErrorIff(d: FormData, c: RatingField)
    ensures FieldError(d, RatingInput(c)).Some? <==> ScoreOf(d, c) < 1
    ensures FieldError(d, RatingInput(c)).Some? ==> FieldError(d, RatingInput(c)).value == RatingMessage(c)
  {
  }

  /** The form validates exactly when every text is non-blank and at least
      its minimum length and every score is at least 1. */
  lemma FormValidIff(d: FormData)
    ensures FormErrors(d) == map[] <==>
      && (forall t :: !AllSpace(TextOf(d, t)) && Utf16Length(TextOf(d, t)) >= MinLength(t))
      && (forall c :: ScoreOf(d, c) >= 1)
  {
    forall t ensures FieldError(d, TextInput(t)) == None <==>
        !AllSpace(TextOf(d, t)) && Utf16Length(TextOf(d, t)) >= MinLength(t) {
      TextErrorCases(d, t);
    }
    forall f ensures f in FormErrors(d) <==> FieldError(d, f).Some? {
      FormErrorsByField(d, f);
    }
    if FormErrors(d) == map[] {
      forall c ensures ScoreOf(d, c) >= 1 {
        assert FieldError(d, RatingInput(c)).None?;
      }
    } else {
      var f :| f in FormErrors(d);
    }
  }

  /** What the form posts. */
  datatype Payload = Payload(
    studentName: string,
    courseCode: string,
    comments: string,
    rating: int,
    engagement: int,
    resources: int,
    satisfaction: int)

  /** The texts trimmed (the course code keeps its case) and the overall
      rating `Math.round((engagement + resources + satisfaction) / 3)`. */
  function BuildPayload(d: FormData): Payload {
    Payload(Trim(d.studentName), Trim(d.courseCode), Trim(d.comments),
            RoundedMean(d.engagement, d.resources, d.satisfaction),
            d.engagement, d.resources, d.satisfaction)
  }

  /** The payload of a form that validates, with scores from the 1-5 star
      buttons, has non-empty trimmed texts and a rating in [1, 5] that is the
      nearest integer to the mean score. */
  lemma ValidPayload(d: FormData)
    requires FormErrors(d) == map[]
    requires d.engagement <= 5 && d.resources <= 5 && d.satisfaction <= 5
    ensures var p := BuildPayload(d);
      && p.studentName != [] && IsTrimmed(p.studentName)
      && p.courseCode != [] && IsTrimmed(p.courseCode)
      && p.comments != [] && IsTrimmed(p.comments)
      && 1 <= p.rating <= 5
      && p.rating == (d.engagement + d.resources + d.satisfaction + 1) / 3
  {
    FormValidIff(d);
    assert forall t :: !AllSpace(TextOf(d, t));
    assert !AllSpace(TextOf(d, StudentName)) && !AllSpace(TextOf(d, CourseCode)) && !AllSpace(TextOf(d, Comments));
    TrimEmptyIff(d.studentName);
    TrimEmptyIff(d.courseCode);
    TrimEmptyIff(d.comments);
    TrimIsSlice(d.studentName);
    TrimIsSlice(d.courseCode);
    TrimIsSlice(d.comments);
    assert ScoreOf(d, Engagement) >= 1 && ScoreOf(d, Resources) >= 1 && ScoreOf(d, Satisfaction) >= 1;
    RoundedMeanBetween(d.engagement, d.resources, d.satisfaction, 1, 5);
    RoundedMeanClosedForm(d.engagement, d.resources, d.satisfaction);
  }

  /** The length rule counts the untrimmed text, so a name of a space and
      one letter validates and is posted as a one-character name. */
  lemma ShortNameCanBePosted()
    ensures exists d :: FormErrors(d) == map[] && |BuildPayload(d).studentName| == 1
  {
    var d := ShortNameForm;
    ShortNameFormPasses();
    NoErrorsWhenAllPass(d);
    assert |BuildPayload(d).studentName| == 1;
  }

  const ShortNameForm := FormData(" a", "CS101", "Clear and well paced.", 4, 5, 3)

  /** Each text of that form passes both rules; the name trims to "a". */
  lemma ShortNameFormPasses()
    ensures Trim(ShortNameForm.studentName) == "a"
    ensures FieldError(ShortNameForm, TextInput(StudentName)).None?
    ensures FieldError(ShortNameForm, TextInput(CourseCode)).None?
    ensures FieldError(ShortNameForm, TextInput(Comments)).None?
  {
    assert TrimStart(" a") == "a";
    TrimOfTrimmed("CS101");
    TrimOfTrimmed("Clear and well paced.");
  }

  /** A form whose every text and every score passes has no messages. */
  lemma NoErrorsWhenAllPass(d: FormData)
    requires FieldError(d, TextInput(StudentName)).None?
    requires FieldError(d, TextInput(CourseCode)).None?
    requires FieldError(d, TextInput(Comments)).None?
    requires d.engagement >= 1 && d.resources >= 1 && d.satisfaction >= 1
    ensures FormErrors(d) == map[]
  {
    forall f ensures f !in FormErrors(d) {
      FormErrorsByField(d, f);
    }
  }

  /** What the server answered to the post. */
  datatype Response = Accepted | Rejected(message: string)

  const DefaultSubmitMessage := "Failed to submit feedback. Please try again."

  /** `handleSubmit`: an invalid form posts nothing and shows the validator's
      messages; a valid one posts its payload, and is then reset to the
      initial form if the server accepted it, or keeps its values and shows
      only the submit error if not. */
  function HandleSubmit(st: FormState, response: Response): (out: (FormState, Option<Payload>))
    ensures out.1.Some? <==> FormErrors(st.data) == map[]
    ensures out.1.Some? ==> out.1.value == BuildPayload(st.data)
    ensures out.1.None? ==> out.0 == FormState(st.data, FormErrors(st.data))
    ensures out.1.Some? && response.Accepted? ==> out.0 == Initial
    ensures out.1.Some? && response.Rejected? ==>
      out.0.data == st.data && out.0.errors.Keys == {SubmitField} && Shows(out.0.errors, SubmitField)
    ensures out.1.Some? && response.Rejected? ==>
      out.0.errors[SubmitField] == (if response.message != "" then response.message else DefaultSubmitMessage)
  {
    var errors := FormErrors(st.data);
    if errors != map[] then
      (FormState(st.data, errors), None)
    else
      var sent := Some(BuildPayload(st.data));
      match response
      case Accepted => (Initial, sent)
      case Rejected(message) =>
        var shown := if message != "" then message else DefaultSubmitMessage;
        (FormState(st.data, map[SubmitField := shown]), sent)
  }
}
