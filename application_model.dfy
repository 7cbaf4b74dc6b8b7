/**
 * The Application schema: the record an applicant submits against an
 * internship, its status enum and default, the setters (`trim`, `lowercase`)
 * and defaults applied when a document is built, and the validators run when
 * it is saved (required fields and the e-mail pattern).
 */
module ApplicationModel {
  import opened Wrappers
  import opened Text
  import opened Ids

  datatype Status = Pending | Accepted | Rejected

  function StatusName(st: Status): string {
    match st
    case Pending => "pending"
    case Accepted => "accepted"
    case Rejected => "rejected"
  }

  /** The status enum check: exactly the three names are accepted. */
  function ParseStatus(s: string): (r: Option<Status>)
    ensures r.Some? <==> s == "pending" || s == "accepted" || s == "rejected"
    ensures r.Some? ==> StatusName(r.value) == s
  {
    if s == "pending" then Some(Pending)
    else if s == "accepted" then Some(Accepted)
    else if s == "rejected" then Some(Rejected)
    else None
  }

  lemma ParseStatusName(st: Status)
    ensures ParseStatus(StatusName(st)) == Some(st)
  {
  }

  /**
   * The multipart fields of an application form. An empty string stands for
   * a field the request lacks: both are falsy for the route's checks and for
   * the `|| ""` defaults.
   */
  datatype Form = Form(
    internshipId: string, fullName: string, email: string, phoneNumber: string,
    location: string, university: string, degreeProgram: string, yearOfStudy: string,
    gpa: string, availability: string, other: string)

  /** The route's own required-field check, made on the raw values. */
  predicate MissingRequired(f: Form) {
    f.internshipId == "" || f.fullName == "" || f.email == "" || f.phoneNumber == ""
    || f.location == "" || f.university == "" || f.degreeProgram == ""
    || f.yearOfStudy == "" || f.availability == ""
  }

  datatype Application = Application(
    id: ObjectId, internshipId: ObjectId, studentId: ObjectId,
    fullName: string, email: string, phoneNumber: string, location: string,
    university: string, degreeProgram: string, yearOfStudy: string, gpa: string,
    availability: string, cv: string, other: string,
    status: Status, appliedDate: int)

  /**
   * The email setters: `trim`, then `lowercase`. The result is the submitted
   * e-mail with its surrounding white space dropped and every character of
   * what remains lower-cased, and it is already in that normal form.
   */
  function NormalizeEmail(s: string): (r: string)
    ensures exists a :: 0 <= a <= |s| - |r| && Blank(s[..a]) && Blank(s[a + |r|..])
                && forall i :: 0 <= i < |r| ==> r[i] == LowerChar(s[a + i])
    ensures Trim(r) == r && Lower(r) == r
  {
    LowerOfTrim(s);
    LowerOfTrimNormal(s);
    Lower(Trim(s))
  }

  /** Characters that `.` in a JavaScript regular expression does not match. */
  predicate IsLineTerminator(c: char) {
    c == '\n' || c == '\r' || c as int == 0x2028 || c as int == 0x2029
  }

  /** No line terminator in `s[lo..hi]`. */
  predicate SingleLine(s: string, lo: int, hi: int)
    requires 0 <= lo <= hi <= |s|
  {
    forall j :: lo <= j < hi ==> !IsLineTerminator(s[j])
  }

  /**
   * `/.+\@.+\..+/` finds a match in `s`: an `@` at `p` and a `.` at `q` with at
   * least one character before the `@`, one between them and one after the
   * `.`, none of them a line terminator.
   */
  predicate EmailShape(s: string) {
    exists p, q :: 0 < p < |s| && 0 < q < |s| && p + 2 <= q && q + 2 <= |s|
      && s[p] == '@' && s[q] == '.'
      && !IsLineTerminator(s[p - 1]) && !IsLineTerminator(s[q + 1])
      && SingleLine(s, p + 1, q)
  }

  /** The document `new Application({...})` builds: setters applied, defaults filled in. */
  function NewApplication(id: ObjectId, internshipId: ObjectId, studentId: ObjectId, f: Form, cv: Option<string>, now: int): (a: Application)
    ensures a.id == id && a.internshipId == internshipId && a.studentId == studentId
    ensures a.status == Pending && a.appliedDate == now
    ensures f.gpa == "" ==> a.gpa == ""
    ensures f.other == "" ==> a.other == ""
    ensures cv.None? ==> a.cv == ""
    ensures Trim(a.email) == a.email && Lower(a.email) == a.email
  {
    Application(
      id, internshipId, studentId,
      Trim(f.fullName), NormalizeEmail(f.email), Trim(f.phoneNumber), Trim(f.location),
      Trim(f.university), Trim(f.degreeProgram), Trim(f.yearOfStudy), Trim(f.gpa),
      Trim(f.availability), cv.GetOr(""), Trim(f.other),
      Pending, now)
  }

  /** The save-time validators: every required string is non-empty and the e-mail has the required shape. */
  predicate ApplicationConforms(a: Application) {
    a.fullName != "" && a.email != "" && a.phoneNumber != "" && a.location != ""
    && a.university != "" && a.degreeProgram != "" && a.yearOfStudy != ""
    && a.availability != "" && EmailShape(a.email)
  }

  /**
   * A built document passes validation exactly when no required field is
   * white space only and the normalised e-mail has the required shape. So a
   * field of blanks passes the route's check and fails at save time.
   */
  lemma NewApplicationConforms(id: ObjectId, internshipId: ObjectId, studentId: ObjectId, f: Form, cv: Option<string>, now: int)
    ensures ApplicationConforms(NewApplication(id, internshipId, studentId, f, cv, now)) <==>
      !Blank(f.fullName) && !Blank(f.email) && !Blank(f.phoneNumber) && !Blank(f.location)
      && !Blank(f.university) && !Blank(f.degreeProgram) && !Blank(f.yearOfStudy)
      && !Blank(f.availability) && EmailShape(NormalizeEmail(f.email))
  {
    TrimBlank(f.fullName); TrimBlank(f.email); TrimBlank(f.phoneNumber); TrimBlank(f.location);
    TrimBlank(f.university); TrimBlank(f.degreeProgram); TrimBlank(f.yearOfStudy);
    TrimBlank(f.availability);
    assert NormalizeEmail(f.email) == [] <==> Trim(f.email) == [];
  }
}
