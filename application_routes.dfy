/**
 * The application routes: submit an application, list a student's or a
 * company's applications, read one, change its status, delete it. Each
 * handler is a method on the store; the token has already been checked
 * (`user` is what `auth` put on the request), the upload path of the CV is
 * `cv`, and the id and the clock a new document would receive are `newId`
 * and `now`.
 */
module ApplicationRoutes {
  import opened Wrappers
  import opened Ids
  import opened Seqs
  import opened AuthMiddleware
  import opened ApplicationModel
  import opened InternshipModel
  import opened Db
  import opened Access

  const MISSING_FIELDS := "Missing required fields"
  const INTERNSHIP_NOT_FOUND := "Internship not found"
  const ALREADY_APPLIED := "You have already applied for this internship"
  const INVALID_INTERNSHIP_ID := "Invalid internship ID"
  const SUBMIT_ERROR := "Error submitting application"
  const SUBMITTED := "Application submitted successfully"
  const STUDENTS_ONLY := "Access denied. Students only."
  const COMPANIES_ONLY := "Access denied. Companies only."
  const LIST_ERROR := "Error fetching applications"
  const NOT_FOUND := "Application not found"
  const ACCESS_DENIED := "Access denied"
  const INVALID_APPLICATION_ID := "Invalid application ID"
  const READ_ERROR := "Error fetching application"
  const INVALID_STATUS := "Invalid status"
  const NOT_POSTER := "Only the company that posted the internship can update the status"
  const STATUS_UPDATED := "Application status updated successfully"
  const STATUS_ERROR := "Error updating application status"
  const DELETED := "Application deleted successfully"
  const DELETE_ERROR := "Error deleting application"

  /** The part of a new application that the apply route sends back. */
  datatype Receipt = Receipt(id: ObjectId, internshipId: ObjectId, status: Status, appliedDate: int)

  /** What the apply route decides before it builds the document: a refusal, or the posting and student to build it for. */
  datatype Screening = Refused(code: int, message: string) | Proceed(internshipId: ObjectId, studentId: ObjectId)

  /**
   * The checks of `POST /apply` that come before the save, in the route's
   * order: the required form fields, the internship id (a CastError is
   * answered with 400), the posting's existence, then the
   * one-application-per-student rule, whose query casts the caller's id (a
   * malformed id is again a CastError, answered with 400).
   */
  function Screen(internships: seq<Internship>, apps: seq<Application>, user: Claims, form: Form): (r: Screening)
    ensures MissingRequired(form) ==> r == Refused(400, MISSING_FIELDS)
    ensures !MissingRequired(form) && Cast(form.internshipId).None? ==> r == Refused(400, INVALID_INTERNSHIP_ID)
    ensures (!MissingRequired(form) && Cast(form.internshipId).Some? &&
             Find(internships, InternshipKey, Cast(form.internshipId).value).None?) ==> r == Refused(404, INTERNSHIP_NOT_FOUND)
    ensures (!MissingRequired(form) && Cast(form.internshipId).Some? &&
             Find(internships, InternshipKey, Cast(form.internshipId).value).Some? && Cast(user.id).None?) ==> r == Refused(400, INVALID_INTERNSHIP_ID)
    ensures (!MissingRequired(form) && Cast(form.internshipId).Some? && Cast(user.id).Some? &&
             Find(internships, InternshipKey, Cast(form.internshipId).value).Some? &&
             Find(apps, ApplicantPair, (Cast(form.internshipId).value, Cast(user.id).value)).Some?) ==> r == Refused(400, ALREADY_APPLIED)
    ensures r.Proceed? ==>
      && !MissingRequired(form)
      && Cast(form.internshipId) == Some(r.internshipId) && Cast(user.id) == Some(r.studentId)
      && Find(internships, InternshipKey, r.internshipId).Some?
      && Find(apps, ApplicantPair, (r.internshipId, r.studentId)).None?
    ensures (!MissingRequired(form) && Cast(form.internshipId).Some? && Cast(user.id).Some? &&
             Find(internships, InternshipKey, Cast(form.internshipId).value).Some? &&
             Find(apps, ApplicantPair, (Cast(form.internshipId).value, Cast(user.id).value)).None?) ==>
      r == Proceed(Cast(form.internshipId).value, Cast(user.id).value)
  {
    if MissingRequired(form) then Refused(400, MISSING_FIELDS)
    else match Cast(form.internshipId)
      case None => Refused(400, INVALID_INTERNSHIP_ID)
      case Some(iid) =>
        if Find(internships, InternshipKey, iid).None? then Refused(404, INTERNSHIP_NOT_FOUND)
        else match Cast(user.id)
          case None => Refused(400, INVALID_INTERNSHIP_ID)
          case Some(sid) =>
            if Find(apps, ApplicantPair, (iid, sid)).Some? then Refused(400, ALREADY_APPLIED)
            else Proceed(iid, sid)
  }

  /**
   * The route checks no role: a principal of any role with the same id is
   * screened exactly as a student is, and gets through whenever the checks
   * pass.
   */
  lemma ScreenIgnoresRole(internships: seq<Internship>, apps: seq<Application>, user: Claims, form: Form)
    ensures Screen(internships, apps, user, form) == Screen(internships, apps, Claims(user.id, STUDENT), form)
  {
  }

  /**
   * Once an application of a student to a posting is stored (and counted),
   * applying again to the same posting with any complete form is refused as
   * a duplicate.
   */
  lemma SecondApplicationRefused(internships: seq<Internship>, apps: seq<Application>, user: Claims, form: Form, rec: Application, form': Form)
    requires Screen(internships, apps, user, form).Proceed?
    requires rec.internshipId == Screen(internships, apps, user, form).internshipId
    requires rec.studentId == Screen(internships, apps, user, form).studentId
    requires !MissingRequired(form') && form'.internshipId == form.internshipId
    ensures Screen(Bump(internships, rec.internshipId, 1), apps + [rec], user, form') == Refused(400, ALREADY_APPLIED)
  {
    var k := Find(internships, InternshipKey, rec.internshipId).value;
    assert Bump(internships, rec.internshipId, 1)[k].id == rec.internshipId;
    assert (apps + [rec])[|apps|] == rec;
    assert ApplicantPair((apps + [rec])[|apps|]) == (rec.internshipId, rec.studentId);
  }

  /**
   * The save step of `POST /apply`: the validators run on the built document and
   * the insert needs a free id; either failure is a 500. Storing the document
   * increments its posting's counter.
   */
  method Save(db: Store, rec: Application) returns (code: int, message: string, receipt: Option<Receipt>)
    requires db.Valid()
    requires Find(db.applications, ApplicantPair, ApplicantPair(rec)).None?
    modifies db
    ensures db.Valid()
    ensures db.students == old(db.students) && db.companies == old(db.companies)
    ensures DriftKept(old(db.internships), old(db.applications), db.internships, db.applications)
    ensures old(db.CountersMatch()) ==> db.CountersMatch()
    ensures code != 201 ==> receipt.None? && db.applications == old(db.applications) && db.internships == old(db.internships)
    ensures ApplicationConforms(rec) && Find(old(db.applications), ApplicationKey, rec.id).None? ==>
      && code == 201 && message == SUBMITTED
      && receipt == Some(Receipt(rec.id, rec.internshipId, rec.status, rec.appliedDate))
      && db.applications == old(db.applications) + [rec]
      && db.internships == Bump(old(db.internships), rec.internshipId, 1)
    ensures !(ApplicationConforms(rec) && Find(old(db.applications), ApplicationKey, rec.id).None?) ==>
      code == 500 && message == SUBMIT_ERROR
  {
    if !ApplicationConforms(rec) || Find(db.applications, ApplicationKey, rec.id).Some? {
      return 500, SUBMIT_ERROR, None;
    }
    var apps', internships' := db.applications + [rec], Bump(db.internships, rec.internshipId, 1);
    InsertApplication(db.internships, db.applications, rec);
    if db.CountersMatch() {
      DriftKeptZero(db.internships, db.applications, internships', apps');
    }
    db.applications, db.internships := apps', internships';
    return 201, SUBMITTED, Some(Receipt(rec.id, rec.internshipId, rec.status, rec.appliedDate));
  }

  /**
   * `POST /apply`. After `Screen`, the document is built and saved: a
   * document that fails the schema validators, or whose id is taken, is a
   * 500. On success the application is stored as pending and its posting's
   * counter goes up by one; on any refusal nothing changes.
   */
  method Apply(db: Store, user: Claims, form: Form, cv: Option<string>, newId: ObjectId, now: int)
    returns (code: int, message: string, receipt: Option<Receipt>)
    requires db.Valid()
    modifies db
    ensures db.Valid()
    ensures db.students == old(db.students) && db.companies == old(db.companies)
    ensures DriftKept(old(db.internships), old(db.applications), db.internships, db.applications)
    ensures old(db.CountersMatch()) ==> db.CountersMatch()
    ensures code != 201 ==> receipt.None? && db.applications == old(db.applications) && db.internships == old(db.internships)
    ensures Screen(old(db.internships), old(db.applications), user, form).Refused? ==> code == Screen(old(db.internships), old(db.applications), user, form).code && message == Screen(old(db.internships), old(db.applications), user, form).message
    ensures Screen(old(db.internships), old(db.applications), user, form).Proceed? ==>
      var rec := NewApplication(newId, Screen(old(db.internships), old(db.applications), user, form).internshipId, Screen(old(db.internships), old(db.applications), user, form).studentId, form, cv, now);
      if ApplicationConforms(rec) && Find(old(db.applications), ApplicationKey, newId).None? then
        && code == 201 && message == SUBMITTED
        && receipt == Some(Receipt(newId, rec.internshipId, Pending, now))
        && db.applications == old(db.applications) + [rec]
        && db.internships == Bump(old(db.internships), rec.internshipId, 1)
      else code == 500 && message == SUBMIT_ERROR
  {
    var s := Screen(db.internships, db.applications, user, form);
    if s.Refused? {
      return s.code, s.message, None;
    }
    var rec := NewApplication(newId, s.internshipId, s.studentId, form, cv, now);
    code, message, receipt := Save(db, rec);
  }

  /**
   * `GET /student`: the caller's own applications, newest first. The query
   * casts the caller's id, so a malformed id is a 500.
   */
  method ListForStudent(db: Store, user: Claims) returns (code: int, message: string, apps: seq<Application>)
    ensures user.role != STUDENT ==> code == 403 && message == STUDENTS_ONLY && apps == []
    ensures user.role == STUDENT && Cast(user.id).None? ==> code == 500 && message == LIST_ERROR && apps == []
    ensures user.role == STUDENT && Cast(user.id).Some? ==>
      var sid := Cast(user.id).value;
      && code == 200
      && SortedDesc(apps, AppliedKey)
      && (forall a :: multiset(apps)[a] == (if a.studentId == sid then multiset(db.applications)[a] else 0))
  {
    if user.role != STUDENT {
      return 403, STUDENTS_ONLY, [];
    }
    var sid := Cast(user.id);
    if sid.None? {
      return 500, LIST_ERROR, [];
    }
    var mine := Select(db.applications, ApplicantOf, {sid.value});
    apps := SortDesc(mine, AppliedKey);
    assert forall a :: multiset(apps)[a] == multiset(mine)[a];
    return 200, "", apps;
  }

  /**
   * `GET /company`: the applications to the caller's postings, newest first.
   * Finding the postings casts the caller's id, so a malformed id is a 500.
   */
  method ListForCompany(db: Store, user: Claims) returns (code: int, message: string, apps: seq<Application>)
    ensures user.role != COMPANY ==> code == 403 && message == COMPANIES_ONLY && apps == []
    ensures user.role == COMPANY && Cast(user.id).None? ==> code == 500 && message == LIST_ERROR && apps == []
    ensures user.role == COMPANY && Cast(user.id).Some? ==>
      var cid := Cast(user.id).value;
      var owned := OwnedPostings(db.internships, cid);
      && code == 200
      && SortedDesc(apps, AppliedKey)
      && (forall a :: multiset(apps)[a] == (if a.internshipId in owned then multiset(db.applications)[a] else 0))
      && (forall a :: a in apps ==> exists p :: p in db.internships && p.id == a.internshipId && p.companyId == cid)
  {
    if user.role != COMPANY {
      return 403, COMPANIES_ONLY, [];
    }
    var cid := Cast(user.id);
    if cid.None? {
      return 500, LIST_ERROR, [];
    }
    var owned := OwnedPostings(db.internships, cid.value);
    var theirs := Select(db.applications, PostingOf, owned);
    apps := SortDesc(theirs, AppliedKey);
    assert forall a :: multiset(apps)[a] == multiset(theirs)[a];
    return 200, "", apps;
  }

  /**
   * `GET /:id`: one application. A malformed id is a CastError, answered
   * with 400; the role checks are those of `Access.ReadVerdict`, fed with
   * whether the application's student record exists and who owns its posting.
   */
  method Read(db: Store, user: Claims, id: string) returns (code: int, message: string, app: Option<Application>)
    ensures app.Some? <==> code == 200
    ensures Cast(id).None? ==> code == 400 && message == INVALID_APPLICATION_ID
    ensures Cast(id).Some? && Find(db.applications, ApplicationKey, Cast(id).value).None? ==> code == 404 && message == NOT_FOUND
    ensures Cast(id).Some? && Find(db.applications, ApplicationKey, Cast(id).value).Some? ==>
      var a := db.applications[Find(db.applications, ApplicationKey, Cast(id).value).value];
      var v := ReadVerdict(user, a, Find(db.students, StudentKey, a.studentId).Some?, OwnerOfPosting(db.internships, a.internshipId));
      && code == VerdictCode(v)
      && (v == Allow ==> app == Some(a))
      && (v == Deny ==> message == ACCESS_DENIED)
      && (v.Fail? ==> message == READ_ERROR)
    ensures code == 200 ==> app.value in db.applications && app.value.id == Cast(id).value
    ensures code == 200 && user.role == STUDENT ==> app.value.studentId == user.id
    ensures code == 200 && user.role == COMPANY ==>
      var owner := OwnerOfPosting(db.internships, app.value.internshipId);
      owner.Some? && owner.value == user.id
  {
    var aid := Cast(id);
    if aid.None? {
      return 400, INVALID_APPLICATION_ID, None;
    }
    var k := Find(db.applications, ApplicationKey, aid.value);
    if k.None? {
      return 404, NOT_FOUND, None;
    }
    var a := db.applications[k.value];
    var onFile := Find(db.students, StudentKey, a.studentId).Some?;
    var v := ReadVerdict(user, a, onFile, OwnerOfPosting(db.internships, a.internshipId));
    match v
    case Allow => return 200, "", Some(a);
    case Deny => return 403, ACCESS_DENIED, None;
    case Fail(s) => return s, READ_ERROR, None;
  }

  /**
   * `PATCH /:id/status`. The status value is checked first, then the id, the
   * application's existence and `Access.StatusVerdict`. Only the status of
   * that one application changes, and no counter.
   */
  method UpdateStatus(db: Store, user: Claims, id: string, status: string) returns (code: int, message: string, app: Option<Application>)
    requires db.Valid()
    modifies db
    ensures db.Valid()
    ensures db.students == old(db.students) && db.companies == old(db.companies) && db.internships == old(db.internships)
    ensures DriftKept(old(db.internships), old(db.applications), db.internships, db.applications)
    ensures old(db.CountersMatch()) ==> db.CountersMatch()
    ensures app.Some? <==> code == 200
    ensures code != 200 ==> db.applications == old(db.applications)
    ensures ParseStatus(status).None? ==> code == 400 && message == INVALID_STATUS
    ensures ParseStatus(status).Some? && Cast(id).None? ==> code == 400 && message == INVALID_APPLICATION_ID
    ensures ParseStatus(status).Some? && Cast(id).Some? ==>
      var k := Find(old(db.applications), ApplicationKey, Cast(id).value);
      && (k.None? ==> code == 404 && message == NOT_FOUND)
      && (k.Some? ==>
           var a := old(db.applications)[k.value];
           var v := StatusVerdict(user, OwnerOfPosting(old(db.internships), a.internshipId));
           && code == VerdictCode(v)
           && (v == Deny ==> message == NOT_POSTER)
           && (v.Fail? ==> message == STATUS_ERROR)
           && (v == Allow ==>
                var updated := a.(status := ParseStatus(status).value);
                && message == STATUS_UPDATED
                && app == Some(updated)
                && db.applications == old(db.applications)[k.value := updated]))
  {
    var st := ParseStatus(status);
    if st.None? {
      return 400, INVALID_STATUS, None;
    }
    var aid := Cast(id);
    if aid.None? {
      return 400, INVALID_APPLICATION_ID, None;
    }
    var k := Find(db.applications, ApplicationKey, aid.value);
    if k.None? {
      return 404, NOT_FOUND, None;
    }
    var a := db.applications[k.value];
    var v := StatusVerdict(user, OwnerOfPosting(db.internships, a.internshipId));
    match v {
      case Deny => return 403, NOT_POSTER, None;
      case Fail(s) => return s, STATUS_ERROR, None;
      case Allow =>
        var updated := a.(status := st.value);
        ReplaceApplication(db.internships, db.applications, k.value, updated);
        db.applications := db.applications[k.value := updated];
        return 200, STATUS_UPDATED, Some(updated);
    }
  }

  /**
   * `DELETE /:id`. After the id and existence checks, `Access.DeleteVerdict`
   * decides; on success the application is removed and its posting's counter,
   * if the posting still exists, goes down by one (with no floor at zero).
   */
  method Delete(db: Store, user: Claims, id: string) returns (code: int, message: string)
    requires db.Valid()
    modifies db
    ensures db.Valid()
    ensures db.students == old(db.students) && db.companies == old(db.companies)
    ensures DriftKept(old(db.internships), old(db.applications), db.internships, db.applications)
    ensures old(db.CountersMatch()) ==> db.CountersMatch()
    ensures code != 200 ==> db.applications == old(db.applications) && db.internships == old(db.internships)
    ensures Cast(id).None? ==> code == 400 && message == INVALID_APPLICATION_ID
    ensures Cast(id).Some? ==>
      var k := Find(old(db.applications), ApplicationKey, Cast(id).value);
      && (k.None? ==> code == 404 && message == NOT_FOUND)
      && (k.Some? ==>
           var a := old(db.applications)[k.value];
           var v := DeleteVerdict(user, a, OwnerOfPosting(old(db.internships), a.internshipId));
           && code == VerdictCode(v)
           && (v == Deny ==> message == ACCESS_DENIED)
           && (v.Fail? ==> message == INVALID_APPLICATION_ID)
           && (v == Allow ==>
                && message == DELETED
                && db.applications == RemoveAt(old(db.applications), k.value)
                && db.internships == Bump(old(db.internships), a.internshipId, -1)))
  {
    var aid := Cast(id);
    if aid.None? {
      return 400, INVALID_APPLICATION_ID;
    }
    var k := Find(db.applications, ApplicationKey, aid.value);
    if k.None? {
      return 404, NOT_FOUND;
    }
    var a := db.applications[k.value];
    var v := DeleteVerdict(user, a, OwnerOfPosting(db.internships, a.internshipId));
    match v {
      case Deny => return 403, ACCESS_DENIED;
      case Fail(s) => return s, INVALID_APPLICATION_ID;
      case Allow =>
        RemoveApplication(db.internships, db.applications, k.value);
        db.applications := RemoveAt(db.applications, k.value);
        db.internships := Bump(db.internships, a.internshipId, -1);
        return 200, DELETED;
    }
  }
}
