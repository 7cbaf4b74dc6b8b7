/**
 * The Internship schema: the posting record, its `type` and `status` enums,
 * the defaults for `status`, `color`, `featured`, `applicants` and `rating`,
 * and the required fields checked when a new posting is saved.
 */
module InternshipModel {
  import opened Wrappers
  import opened Ids

  datatype Internship = Internship(
    id: ObjectId, title: string, companyId: ObjectId, companyName: string,
    description: string, skills: seq<string>, location: string, workType: string,
    duration: string, salary: string, category: string,
    startDate: Option<string>, applicationDeadline: Option<string>,
    interviewDetails: Option<string>, otherDetails: Option<string>,
    color: string, featured: bool, status: string, applicants: int, rating: real,
    createdAt: int)

  /** The schema fields a request body may carry; None where the body lacks the field. */
  datatype Fields = Fields(
    title: Option<string>, companyId: Option<string>, companyName: Option<string>,
    description: Option<string>, skills: Option<seq<string>>, location: Option<string>,
    workType: Option<string>, duration: Option<string>, salary: Option<string>,
    category: Option<string>, startDate: Option<string>, applicationDeadline: Option<string>,
    interviewDetails: Option<string>, otherDetails: Option<string>, color: Option<string>,
    featured: Option<bool>, status: Option<string>, applicants: Option<int>, rating: Option<real>)

  const NoFields := Fields(None, None, None, None, None, None, None, None, None, None,
                           None, None, None, None, None, None, None, None, None)

  const DEFAULT_COLOR := "from-blue-500 to-purple-600"
  const ACTIVE := "active"

  predicate IsWorkType(s: string) {
    s == "Remote" || s == "Hybrid" || s == "On-site"
  }

  predicate IsStatus(s: string) {
    s == "active" || s == "inactive"
  }

  /**
   * `new Internship({...body, companyId, companyName})`: the owner and its
   * name always come from the arguments, whatever the body says; other
   * fields come from the body or take the schema default.
   */
  function NewInternship(id: ObjectId, companyId: ObjectId, companyName: string, f: Fields, now: int): (r: Internship)
    ensures r.id == id && r.companyId == companyId && r.companyName == companyName
    ensures r.createdAt == now
    ensures f.status.None? ==> r.status == ACTIVE
    ensures f.applicants.None? ==> r.applicants == 0
    ensures f.featured.None? ==> !r.featured
    ensures f.rating.None? ==> r.rating == 0.0
    ensures f.color.None? ==> r.color == DEFAULT_COLOR
    ensures f.skills.None? ==> r.skills == []
  {
    Internship(
      id, f.title.GetOr(""), companyId, companyName,
      f.description.GetOr(""), f.skills.GetOr([]), f.location.GetOr(""), f.workType.GetOr(""),
      f.duration.GetOr(""), f.salary.GetOr(""), f.category.GetOr(""),
      f.startDate, f.applicationDeadline, f.interviewDetails, f.otherDetails,
      f.color.GetOr(DEFAULT_COLOR), f.featured.GetOr(false), f.status.GetOr(ACTIVE),
      f.applicants.GetOr(0), f.rating.GetOr(0.0), now)
  }

  /** The save-time validators of a new posting. */
  predicate InternshipConforms(r: Internship) {
    r.title != "" && r.companyName != "" && r.description != "" && r.location != ""
    && r.duration != "" && r.salary != "" && r.category != ""
    && IsWorkType(r.workType) && IsStatus(r.status)
  }

  /**
   * `findByIdAndUpdate(id, body)`: every field the body carries replaces the
   * stored one, `companyId` and `applicants` included (`owner` is the cast of
   * the body's `companyId`, or the stored owner when the body has none).
   * Validators do not run on this update.
   */
  function Overlay(r: Internship, f: Fields, owner: ObjectId): (u: Internship)
    ensures u.id == r.id && u.createdAt == r.createdAt
    ensures u.companyId == owner
    ensures u.applicants == f.applicants.GetOr(r.applicants)
    ensures u.status == f.status.GetOr(r.status)
  {
    Internship(
      r.id, f.title.GetOr(r.title), owner, f.companyName.GetOr(r.companyName),
      f.description.GetOr(r.description), f.skills.GetOr(r.skills),
      f.location.GetOr(r.location), f.workType.GetOr(r.workType),
      f.duration.GetOr(r.duration), f.salary.GetOr(r.salary), f.category.GetOr(r.category),
      if f.startDate.Some? then f.startDate else r.startDate,
      if f.applicationDeadline.Some? then f.applicationDeadline else r.applicationDeadline,
      if f.interviewDetails.Some? then f.interviewDetails else r.interviewDetails,
      if f.otherDetails.Some? then f.otherDetails else r.otherDetails,
      f.color.GetOr(r.color), f.featured.GetOr(r.featured), f.status.GetOr(r.status),
      f.applicants.GetOr(r.applicants), f.rating.GetOr(r.rating), r.createdAt)
  }

  /** A body with no fields changes nothing. */
  lemma OverlayNothing(r: Internship)
    ensures Overlay(r, NoFields, r.companyId) == r
  {
  }

  /** Applying the same body twice is the same as applying it once. */
  lemma OverlayIdempotent(r: Internship, f: Fields, owner: ObjectId)
    ensures Overlay(Overlay(r, f, owner), f, owner) == Overlay(r, f, owner)
  {
  }

  /** Since validators do not run on update, a body can move a posting outside the status enum. */
  lemma OverlayEscapesEnum(r: Internship)
    requires InternshipConforms(r)
    ensures !InternshipConforms(Overlay(r, NoFields.(status := Some("closed")), r.companyId))
  {
  }
}
