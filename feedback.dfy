/** A stored feedback record and the server's admission gate for a POST
    body: presence checks, the 1..5 range check, normalisation of the text
    fields and the derived overall rating. */
module Feedback {
  import opened Wrappers
  import opened Text
  import opened Rounding

  /** One stored feedback entry. `createdAt` is a clock reading in
      milliseconds, supplied by the caller. */
  datatype Record = Record(
    id: int,
    studentName: string,
    courseCode: string,
    comments: string,
    rating: int,
    teachingQuality: int,
    preparation: int,
    support: int,
    createdAt: int)

  /** The accepted range of a category score. */
  predicate InRange(score: int) {
    1 <= score <= 5
  }

  /** What every record the gate lets through satisfies: scores in range,
      the rating derived from them, and normalised text. */
  predicate WellFormed(r: Record) {
    && InRange(r.teachingQuality) && InRange(r.preparation) && InRange(r.support)
    && r.rating == RoundedMean(r.teachingQuality, r.preparation, r.support)
    && IsTrimmed(r.studentName) && IsTrimmed(r.comments)
    && IsTrimmed(r.courseCode) && HasNoLowerAscii(r.courseCode)
  }

  /** A POST body: any field may be missing. */
  datatype Submission = Submission(
    studentName: Option<string>,
    courseCode: Option<string>,
    comments: Option<string>,
    teachingQuality: Option<int>,
    preparation: Option<int>,
    support: Option<int>)

  /** The three rejections, in the order the gate tests them. */
  datatype CreateError = MissingFields | MissingRatings | RatingOutOfRange

  /** A text field passes `!field` when it is present and not "" (a field of
      spaces passes: the check is made before trimming). */
  predicate Filled(field: Option<string>) {
    field.Some? && field.value != []
  }

  /** A score passes `!score` when it is present and not 0. */
  predicate Rated(score: Option<int>) {
    score.Some? && score.value != 0
  }

  predicate AllInRange(scores: seq<int>) {
    forall i :: 0 <= i < |scores| ==> InRange(scores[i])
  }

  predicate TextFilled(sub: Submission) {
    Filled(sub.studentName) && Filled(sub.courseCode) && Filled(sub.comments)
  }

  predicate AllRated(sub: Submission) {
    Rated(sub.teachingQuality) && Rated(sub.preparation) && Rated(sub.support)
  }

  /** The record built from a submission that passed the gate. */
  function NewRecord(sub: Submission, id: int, now: int): Record
    requires TextFilled(sub) && AllRated(sub)
  {
    var tq, prep, sup := sub.teachingQuality.value, sub.preparation.value, sub.support.value;
    Record(id, Trim(sub.studentName.value), ToUpper(Trim(sub.courseCode.value)),
           Trim(sub.comments.value), RoundedMean(tq, prep, sup), tq, prep, sup, now)
  }

  /** The POST handler's decision for a body, given the id it would assign
      and the current time. */
  function Admit(sub: Submission, id: int, now: int): Result<Record, CreateError> {
    if !TextFilled(sub) then Failure(MissingFields)
    else if !AllRated(sub) then Failure(MissingRatings)
    else if !AllInRange([sub.teachingQuality.value, sub.preparation.value, sub.support.value])
    then Failure(RatingOutOfRange)
    else Success(NewRecord(sub, id, now))
  }

  /** A body is accepted exactly when the three text fields are non-empty and
      the three scores are present and in [1, 5]; the "missing rating" test
      only decides which error is reported. */
  lemma AdmitAcceptsIff(sub: Submission, id: int, now: int)
    ensures Admit(sub, id, now).Success? <==>
      && TextFilled(sub)
      && sub.teachingQuality.Some? && InRange(sub.teachingQuality.value)
      && sub.preparation.Some? && InRange(sub.preparation.value)
      && sub.support.Some? && InRange(sub.support.value)
  {
    if TextFilled(sub) && AllRated(sub) {
      var scores := [sub.teachingQuality.value, sub.preparation.value, sub.support.value];
      assert AllInRange(scores) <==> InRange(scores[0]) && InRange(scores[1]) && InRange(scores[2]);
    }
  }

  /** Which error a rejected body gets: missing text first, then a missing
      or zero score, then a score out of range (a negative score is present
      and so reaches the range test). */
  lemma AdmitErrorOrder(sub: Submission, id: int, now: int)
    ensures Admit(sub, id, now) == Failure(MissingFields) <==> !TextFilled(sub)
    ensures Admit(sub, id, now) == Failure(MissingRatings) <==> TextFilled(sub) && !AllRated(sub)
    ensures Admit(sub, id, now) == Failure(RatingOutOfRange) <==>
      && TextFilled(sub) && AllRated(sub)
      && !(InRange(sub.teachingQuality.value) && InRange(sub.preparation.value) && InRange(sub.support.value))
  {
    var r := Admit(sub, id, now);
    if TextFilled(sub) && AllRated(sub) {
      var scores := [sub.teachingQuality.value, sub.preparation.value, sub.support.value];
      assert AllInRange(scores) <==> InRange(scores[0]) && InRange(scores[1]) && InRange(scores[2]);
    }
  }

  /** An accepted record carries the given id and time, the submitted scores,
      the rounded mean as its rating, and the normalised text; it is
      well-formed and its rating is in [1, 5]. */
  lemma AdmittedRecord(sub: Submission, id: int, now: int)
    requires Admit(sub, id, now).Success?
    ensures var r := Admit(sub, id, now).value;
      && WellFormed(r) && InRange(r.rating)
      && r.id == id && r.createdAt == now
      && r.teachingQuality == sub.teachingQuality.value
      && r.preparation == sub.preparation.value
      && r.support == sub.support.value
      && r.rating == (r.teachingQuality + r.preparation + r.support + 1) / 3
      && r.studentName == Trim(sub.studentName.value)
      && r.comments == Trim(sub.comments.value)
      && r.courseCode == ToUpper(Trim(sub.courseCode.value))
  {
    var r := Admit(sub, id, now).value;
    AdmitAcceptsIff(sub, id, now);
    TrimIsSlice(sub.studentName.value);
    TrimIsSlice(sub.comments.value);
    TrimIsSlice(sub.courseCode.value);
    ToUpperNormalizes(Trim(sub.courseCode.value));
    RoundedMeanBetween(r.teachingQuality, r.preparation, r.support, 1, 5);
    RoundedMeanClosedForm(r.teachingQuality, r.preparation, r.support);
  }

  /** A name made only of spaces passes the presence check: with the other
      fields acceptable the body is accepted, and the name is stored as the
      empty string. */
  lemma BlankNameStoredEmpty(sub: Submission, id: int, now: int)
    requires sub.studentName.Some? && sub.studentName.value != [] && AllSpace(sub.studentName.value)
    requires Filled(sub.courseCode) && Filled(sub.comments)
    requires sub.teachingQuality.Some? && InRange(sub.teachingQuality.value)
    requires sub.preparation.Some? && InRange(sub.preparation.value)
    requires sub.support.Some? && InRange(sub.support.value)
    ensures Admit(sub, id, now).Success? && Admit(sub, id, now).value.studentName == []
  {
    AdmitAcceptsIff(sub, id, now);
    TrimEmptyIff(sub.studentName.value);
  }

  /** Course codes that upper-case to the same string ("cs101" and "CS101")
      are stored as the same code, which is what makes the distinct-course
      count case-insensitive. */
  lemma CourseCodesCaseInsensitive(a: string, b: string)
    requires ToUpper(a) == ToUpper(b)
    ensures ToUpper(Trim(a)) == ToUpper(Trim(b))
  {
    TrimUpperCommute(a);
    TrimUpperCommute(b);
  }
}
