/**
 * The role and ownership checks that the route handlers make inline, factored
 * into decisions over the facts each handler looks up. Roles are the strings
 * carried in the token; a check that compares `x.toString()` with
 * `req.user.id` compares strings, while a query filter on `req.user.id` casts
 * it to an ObjectId first.
 */
module Access {
  import opened Wrappers
  import opened Ids
  import opened AuthMiddleware
  import opened ApplicationModel
  import opened InternshipModel

  const STUDENT := "student"
  const COMPANY := "company"
  const ADMIN := "admin"

  /** Proceed, refuse with 403, or fail with the given status (a thrown error). */
  datatype Verdict = Allow | Deny | Fail(status: int)

  function VerdictCode(v: Verdict): int {
    match v
    case Allow => 200
    case Deny => 403
    case Fail(s) => s
  }

  /**
   * Reading one application that exists. A student must own it (and the
   * populated student must exist, or dereferencing it throws); a company must
   * own the referenced posting, which must exist; any other role reads it.
   */
  function ReadVerdict(user: Claims, app: Application, studentOnFile: bool, owner: Option<ObjectId>): (v: Verdict)
    ensures v.Fail? ==> v.status == 500 && user.role == STUDENT && !studentOnFile
    ensures user.role == STUDENT && !studentOnFile ==> v == Fail(500)
    ensures user.role == STUDENT && studentOnFile ==> (v == Allow <==> app.studentId == user.id) && !v.Fail?
    ensures user.role == COMPANY ==> (v == Allow <==> owner.Some? && owner.value == user.id) && !v.Fail?
    ensures user.role != STUDENT && user.role != COMPANY ==> v == Allow
  {
    if user.role == STUDENT && !studentOnFile then Fail(500)
    else if user.role == STUDENT && app.studentId != user.id then Deny
    else if user.role == COMPANY && (owner.None? || owner.value != user.id) then Deny
    else Allow
  }

  /**
   * Changing an application's status. Only a company that owns the referenced
   * posting may; an administrator may not. When the posting is gone, reading
   * its owner from the null populate throws.
   */
  function StatusVerdict(user: Claims, owner: Option<ObjectId>): (v: Verdict)
    ensures v == Allow <==> user.role == COMPANY && owner.Some? && owner.value == user.id
    ensures v.Fail? <==> user.role == COMPANY && owner.None?
    ensures v.Fail? ==> v.status == 500
    ensures user.role != COMPANY ==> v == Deny
  {
    if user.role != COMPANY then Deny
    else if owner.None? then Fail(500)
    else if owner.value != user.id then Deny
    else Allow
  }

  /**
   * Deleting an application. A student must own it; a company must own the
   * referenced posting, found by a query that casts the principal's id (a
   * malformed id throws a CastError, answered with 400); any other role may
   * delete any application.
   */
  function DeleteVerdict(user: Claims, app: Application, owner: Option<ObjectId>): (v: Verdict)
    ensures user.role == STUDENT ==> (v == Allow <==> app.studentId == user.id) && !v.Fail?
    ensures user.role == COMPANY && Cast(user.id).None? ==> v == Fail(400)
    ensures user.role == COMPANY && Cast(user.id).Some? ==> (v == Allow <==> owner == Cast(user.id)) && !v.Fail?
    ensures user.role != STUDENT && user.role != COMPANY ==> v == Allow
  {
    if user.role == STUDENT && app.studentId != user.id then Deny
    else if user.role == COMPANY then
      match Cast(user.id)
      case None => Fail(400)
      case Some(cid) => if owner == Some(cid) then Allow else Deny
    else Allow
  }

  /** Updating or deleting a posting: its owner id or the admin role, with no check of the company role. */
  function MayModifyPosting(user: Claims, posting: Internship): (b: bool)
    ensures user.role == ADMIN ==> b
    ensures user.id == posting.companyId ==> b
    ensures user.role != ADMIN && user.id != posting.companyId ==> !b
  {
    posting.companyId == user.id || user.role == ADMIN
  }

  /**
   * The posting check looks at the role only to let an administrator in: a
   * principal of any other role, a student included, whose token id equals
   * the posting's `companyId` passes it exactly as the owning company does.
   */
  lemma PostingCheckIgnoresRole(user: Claims, posting: Internship)
    requires user.role != ADMIN
    ensures MayModifyPosting(user, posting) <==> MayModifyPosting(Claims(user.id, COMPANY), posting)
  {
  }

  /**
   * A company that does not own a posting can neither read, nor change the
   * status of, nor delete an application that references it, whatever the
   * application and whether or not the posting still exists.
   */
  lemma CompanyIsolation(user: Claims, app: Application, studentOnFile: bool, owner: Option<ObjectId>)
    requires user.role == COMPANY
    requires owner.None? || Cast(user.id) != owner
    ensures ReadVerdict(user, app, studentOnFile, owner) != Allow
    ensures StatusVerdict(user, owner) != Allow
    ensures DeleteVerdict(user, app, owner) != Allow
  {
    if owner.Some? {
      CastMismatch(user.id, owner.value);
    }
  }

  /** A student can neither read nor delete another student's application. */
  lemma StudentIsolation(user: Claims, app: Application, studentOnFile: bool, owner: Option<ObjectId>)
    requires user.role == STUDENT && app.studentId != user.id
    ensures ReadVerdict(user, app, studentOnFile, owner) != Allow
    ensures DeleteVerdict(user, app, owner) != Allow
    ensures StatusVerdict(user, owner) == Deny
  {
  }

  /** The admin role reads and deletes any application, but cannot change a status. */
  lemma AdminReach(user: Claims, app: Application, studentOnFile: bool, owner: Option<ObjectId>, posting: Internship)
    requires user.role == ADMIN
    ensures ReadVerdict(user, app, studentOnFile, owner) == Allow
    ensures DeleteVerdict(user, app, owner) == Allow
    ensures StatusVerdict(user, owner) == Deny
    ensures MayModifyPosting(user, posting)
  {
  }
}
