/**
 * The handlers of the posting routes: the public listing with its filter,
 * newest-first order and page window, reading one posting, and creating,
 * updating and deleting postings. `findById` casts the path id, and these
 * handlers answer every thrown error, a CastError included, with a 500.
 */
module InternshipRoutes {
  import opened Wrappers
  import opened Ids
  import opened Seqs
  import opened AuthMiddleware
  import opened Accounts
  import opened ApplicationModel
  import opened InternshipModel
  import opened Db
  import opened Access

  const LIST_ERROR := "Error fetching internships"
  const NOT_FOUND := "Internship not found"
  const READ_ERROR := "Error fetching internship"
  const COMPANIES_ONLY := "Only companies can create internships"
  const COMPANY_NOT_FOUND := "Company not found"
  const CREATED := "Internship created successfully"
  const CREATE_ERROR := "Error creating internship"
  const ACCESS_DENIED := "Access denied"
  const UPDATED := "Internship updated successfully"
  const UPDATE_ERROR := "Error updating internship"
  const DELETED := "Internship deleted successfully"
  const DELETE_ERROR := "Error deleting internship"

  const DEFAULT_PAGE := 1
  const DEFAULT_LIMIT := 10

  // ---------------------------------------------------------------------------
  // The listing

  /**
   * The query string of `GET /`. An empty `search`, `category` or `type` is
   * absent (it is falsy); `page` and `limit` are None when absent.
   */
  datatype Query = Query(search: string, category: string, workType: string, page: Option<int>, limit: Option<int>)

  /** The response body of `GET /`; `totalPages` is None where `Math.ceil` gives a non-finite number, sent as null. */
  datatype Listing = Listing(internships: seq<Internship>, totalPages: Option<int>, currentPage: int, total: nat)

  /**
   * The filter document built by `GET /`: only active postings; when a search
   * term is given, one of title, company name and description must match it
   * (`matches` stands for the case-insensitive `$regex` test); a category or
   * type other than "all" must be equal.
   */
  predicate Wanted(q: Query, matches: (string, string) -> bool, i: Internship) {
    && i.status == ACTIVE
    && (q.search == "" || matches(q.search, i.title) || matches(q.search, i.companyName) || matches(q.search, i.description))
    && (q.category == "" || q.category == "all" || i.category == q.category)
    && (q.workType == "" || q.workType == "all" || i.workType == q.workType)
  }

  /** `Wanted` as the filter passed to `Seqs.Filter`. */
  function WantedBy(q: Query, matches: (string, string) -> bool): Internship -> bool {
    i => Wanted(q, matches, i)
  }

  /**
   * `Math.ceil(total / limit)` as it reaches the client: the least integer
   * not below the quotient; a limit of 0 divides by zero, which gives
   * `Infinity` or `NaN`, both sent as null.
   */
  function TotalPages(total: nat, limit: int): (r: Option<int>)
    ensures r.None? <==> limit == 0
    ensures limit > 0 ==> (r.value - 1) * limit < total <= r.value * limit
    ensures limit < 0 ==> r.value * limit <= total < (r.value - 1) * limit
  {
    if limit == 0 then None
    else if limit > 0 then
      var p := (total + limit - 1) / limit;
      DivMod(total + limit - 1, limit);
      MulPred(p, limit);
      Some(p)
    else
      var q := total / -limit;
      DivMod(total, -limit);
      MulNeg(q, -limit);
      MulPred(-q, limit);
      Some(-q)
  }

  lemma DivMod(a: int, m: int)
    requires m > 0
    ensures a == (a / m) * m + a % m && 0 <= a % m < m
  {
  }

  lemma MulPred(q: int, m: int)
    ensures (q - 1) * m == q * m - m
  {
  }

  lemma MulNeg(q: int, m: int)
    ensures (-q) * (-m) == q * m
  {
  }

  lemma MulMono(a: int, b: int, m: int)
    requires a <= b && m >= 0
    ensures a * m <= b * m
  {
  }

  /**
   * `GET /`: the wanted postings, newest first, from `(page - 1) * limit`
   * on, at most `limit` of them (a limit of 0 takes all, a negative one its
   * absolute value), with the number of all wanted postings. A negative skip
   * makes the query throw.
   */
  method List(db: Store, q: Query, matches: (string, string) -> bool)
    returns (code: int, message: string, listing: Option<Listing>)
    ensures
      var page := q.page.GetOr(DEFAULT_PAGE);
      var limit := q.limit.GetOr(DEFAULT_LIMIT);
      (page - 1) * limit < 0 ==> code == 500 && message == LIST_ERROR && listing.None?
    ensures
      var page := q.page.GetOr(DEFAULT_PAGE);
      var limit := q.limit.GetOr(DEFAULT_LIMIT);
      var skip := (page - 1) * limit;
      var wanted := Filter(db.internships, WantedBy(q, matches));
      skip >= 0 ==>
        && code == 200 && listing.Some?
        && listing.value.internships == Window(SortDesc(wanted, CreatedKey), skip, limit)
        && (forall i :: i in listing.value.internships ==> i in db.internships && Wanted(q, matches, i))
        && SortedDesc(listing.value.internships, CreatedKey)
        && listing.value.total == |wanted|
        && listing.value.totalPages == TotalPages(|wanted|, limit)
        && listing.value.currentPage == page
  {
    var page := q.page.GetOr(DEFAULT_PAGE);
    var limit := q.limit.GetOr(DEFAULT_LIMIT);
    var skip := (page - 1) * limit;
    if skip < 0 {
      return 500, LIST_ERROR, None;
    }
    var wanted := Filter(db.internships, WantedBy(q, matches));
    var shown := Window(SortDesc(wanted, CreatedKey), skip, limit);
    WindowSorted(SortDesc(wanted, CreatedKey), skip, limit, CreatedKey);
    ShownWanted(db.internships, q, matches, skip, limit);
    return 200, "", Some(Listing(shown, TotalPages(|wanted|, limit), page, |wanted|));
  }

  /** Every posting on a page of the listing is a stored posting that the filter wants. */
  lemma ShownWanted(internships: seq<Internship>, q: Query, matches: (string, string) -> bool, skip: nat, limit: int)
    ensures forall i :: i in Window(SortDesc(Filter(internships, WantedBy(q, matches)), CreatedKey), skip, limit) ==>
      i in internships && Wanted(q, matches, i)
  {
    var wanted := Filter(internships, WantedBy(q, matches));
    var sorted := SortDesc(wanted, CreatedKey);
    WindowWithin(sorted, skip, limit);
    forall i | i in Window(sorted, skip, limit) ensures i in internships && Wanted(q, matches, i) {
      assert i in sorted;
      assert multiset(sorted)[i] > 0;
      assert multiset(wanted)[i] > 0;
      assert i in wanted;
      assert WantedBy(q, matches)(i);
    }
  }

  /**
   * With a positive limit, paging reaches every posting of the ordered
   * result: the one at position `n` is at position `n % limit` of page
   * `n / limit + 1`, and that page number is at most `totalPages`.
   */
  lemma PageOf(s: seq<Internship>, limit: int, n: nat)
    requires limit > 0 && n < |s|
    ensures
      var page := n / limit + 1;
      var w := Window(s, (page - 1) * limit, limit);
      && n % limit < |w| && w[n % limit] == s[n]
      && page <= TotalPages(|s|, limit).value
  {
    var q := n / limit;
    DivMod(n, limit);
    MulPred(q + 1, limit);
    var skip := q * limit;
    var w := Window(s, skip, limit);
    assert n - skip < |w|;
    assert w[n % limit] == s[skip + n % limit];
    var t := TotalPages(|s|, limit).value;
    if t <= q {
      MulMono(t, q, limit);
    }
  }

  // ---------------------------------------------------------------------------
  // One posting

  /** `GET /:id`: the posting with that id; a malformed id throws. */
  method GetOne(db: Store, id: string) returns (code: int, message: string, posting: Option<Internship>)
    ensures Cast(id).None? ==> code == 500 && message == READ_ERROR && posting.None?
    ensures Cast(id).Some? && Find(db.internships, InternshipKey, Cast(id).value).None? ==>
      code == 404 && message == NOT_FOUND && posting.None?
    ensures Cast(id).Some? && Find(db.internships, InternshipKey, Cast(id).value).Some? ==>
      code == 200 && posting == Some(db.internships[Find(db.internships, InternshipKey, Cast(id).value).value])
    ensures code == 200 <==> posting.Some?
    ensures posting.Some? ==> posting.value in db.internships && Cast(id) == Some(posting.value.id)
  {
    var iid := Cast(id);
    if iid.None? {
      return 500, READ_ERROR, None;
    }
    var k := Find(db.internships, InternshipKey, iid.value);
    if k.None? {
      return 404, NOT_FOUND, None;
    }
    return 200, "", Some(db.internships[k.value]);
  }

  /**
   * `POST /`: only a company, whose record must exist, creates a posting; the
   * owner id and company name are stamped over the body's. A document that
   * fails the validators or whose id is taken makes the save throw.
   */
  method Create(db: Store, user: Claims, body: Fields, newId: ObjectId, now: int)
    returns (code: int, message: string, posting: Option<Internship>)
    requires db.Valid()
    modifies db
    ensures db.Valid()
    ensures db.students == old(db.students) && db.companies == old(db.companies) && db.applications == old(db.applications)
    ensures user.role != COMPANY ==> code == 403 && message == COMPANIES_ONLY
    ensures user.role == COMPANY && Cast(user.id).None? ==> code == 500 && message == CREATE_ERROR
    ensures (user.role == COMPANY && Cast(user.id).Some? &&
             Find(db.companies, CompanyKey, Cast(user.id).value).None?) ==> code == 404 && message == COMPANY_NOT_FOUND
    ensures code != 201 ==> posting.None? && db.internships == old(db.internships)
    ensures code == 201 ==>
      && message == CREATED && posting.Some?
      && Cast(user.id) == Some(posting.value.companyId)
      && Find(db.companies, CompanyKey, posting.value.companyId).Some?
      && posting.value.companyName == db.companies[Find(db.companies, CompanyKey, posting.value.companyId).value].companyName
      && posting.value == NewInternship(newId, posting.value.companyId, posting.value.companyName, body, now)
      && InternshipConforms(posting.value)
      && db.internships == old(db.internships) + [posting.value]
      && Find(db.internships, InternshipKey, newId) == Some(|old(db.internships)|)
    ensures (user.role == COMPANY && Cast(user.id).Some? && Find(db.companies, CompanyKey, Cast(user.id).value).Some?) ==>
      var c := db.companies[Find(db.companies, CompanyKey, Cast(user.id).value).value];
      var r := NewInternship(newId, Cast(user.id).value, c.companyName, body, now);
      (code == 201 <==> InternshipConforms(r) && Find(old(db.internships), InternshipKey, newId).None?)
    ensures code != 201 && code != 403 && code != 404 ==> code == 500 && message == CREATE_ERROR
    ensures user.role == COMPANY && Cast(user.id).Some? && Find(db.companies, CompanyKey, Cast(user.id).value).Some? && code != 201 ==>
      code == 500 && message == CREATE_ERROR
    ensures old(db.CountersMatch()) && body.applicants.GetOr(0) == Tally(db.applications, newId) ==> db.CountersMatch()
  {
    if user.role != COMPANY {
      return 403, COMPANIES_ONLY, None;
    }
    var cid := Cast(user.id);
    if cid.None? {
      return 500, CREATE_ERROR, None;
    }
    var c := Find(db.companies, CompanyKey, cid.value);
    if c.None? {
      return 404, COMPANY_NOT_FOUND, None;
    }
    var r := NewInternship(newId, cid.value, db.companies[c.value].companyName, body, now);
    if !InternshipConforms(r) || Find(db.internships, InternshipKey, newId).Some? {
      return 500, CREATE_ERROR, None;
    }
    AddPosting(db.internships, db.applications, r);
    FindUnique(db.internships + [r], InternshipKey, |db.internships|);
    db.internships := db.internships + [r];
    return 201, CREATED, Some(r);
  }

  /**
   * `PUT /:id`: the owner (by string equality of ids) or an administrator
   * overlays the body on the posting, without validators; a `companyId` in
   * the body is cast, so a malformed one makes the update throw.
   */
  method Update(db: Store, user: Claims, id: string, body: Fields)
    returns (code: int, message: string, posting: Option<Internship>)
    requires db.Valid()
    modifies db
    ensures db.Valid()
    ensures db.students == old(db.students) && db.companies == old(db.companies) && db.applications == old(db.applications)
    ensures Cast(id).None? ==> code == 500 && message == UPDATE_ERROR
    ensures Cast(id).Some? && Find(old(db.internships), InternshipKey, Cast(id).value).None? ==> code == 404 && message == NOT_FOUND
    ensures (Cast(id).Some? && Find(old(db.internships), InternshipKey, Cast(id).value).Some?) ==>
      var k := Find(old(db.internships), InternshipKey, Cast(id).value).value;
      var p := old(db.internships)[k];
      && (!MayModifyPosting(user, p) ==> code == 403 && message == ACCESS_DENIED)
      && (MayModifyPosting(user, p) && body.companyId.Some? && Cast(body.companyId.value).None? ==>
            code == 500 && message == UPDATE_ERROR)
      && (MayModifyPosting(user, p) && (body.companyId.None? || Cast(body.companyId.value).Some?) ==>
            var owner := if body.companyId.Some? then Cast(body.companyId.value).value else p.companyId;
            && code == 200 && message == UPDATED
            && posting == Some(Overlay(p, body, owner))
            && db.internships == old(db.internships)[k := Overlay(p, body, owner)])
    ensures code != 200 ==> posting.None? && db.internships == old(db.internships)
    ensures body.applicants.None? ==> DriftKept(old(db.internships), db.applications, db.internships, db.applications)
  {
    var iid := Cast(id);
    if iid.None? {
      return 500, UPDATE_ERROR, None;
    }
    var k := Find(db.internships, InternshipKey, iid.value);
    if k.None? {
      return 404, NOT_FOUND, None;
    }
    var p := db.internships[k.value];
    if !MayModifyPosting(user, p) {
      return 403, ACCESS_DENIED, None;
    }
    var owner := p.companyId;
    if body.companyId.Some? {
      var o := Cast(body.companyId.value);
      if o.None? {
        return 500, UPDATE_ERROR, None;
      }
      owner := o.value;
    }
    var u := Overlay(p, body, owner);
    ReplacePosting(db.internships, db.applications, k.value, u);
    db.internships := db.internships[k.value := u];
    return 200, UPDATED, Some(u);
  }

  /**
   * `DELETE /:id`: the owner (by string equality of ids) or an administrator
   * deletes the posting alone; the applications that reference it stay.
   */
  method Delete(db: Store, user: Claims, id: string) returns (code: int, message: string)
    requires db.Valid()
    modifies db
    ensures db.Valid()
    ensures db.students == old(db.students) && db.companies == old(db.companies) && db.applications == old(db.applications)
    ensures Cast(id).None? ==> code == 500 && message == DELETE_ERROR
    ensures Cast(id).Some? && Find(old(db.internships), InternshipKey, Cast(id).value).None? ==> code == 404 && message == NOT_FOUND
    ensures (Cast(id).Some? && Find(old(db.internships), InternshipKey, Cast(id).value).Some?) ==>
      var k := Find(old(db.internships), InternshipKey, Cast(id).value).value;
      && (!MayModifyPosting(user, old(db.internships)[k]) ==> code == 403 && message == ACCESS_DENIED)
      && (MayModifyPosting(user, old(db.internships)[k]) ==>
            code == 200 && message == DELETED && db.internships == RemoveAt(old(db.internships), k))
    ensures code != 200 ==> db.internships == old(db.internships)
    ensures code == 200 ==> Find(db.internships, InternshipKey, Cast(id).value).None?
    ensures old(db.CountersMatch()) ==> db.CountersMatch()
  {
    var iid := Cast(id);
    if iid.None? {
      return 500, DELETE_ERROR;
    }
    var k := Find(db.internships, InternshipKey, iid.value);
    if k.None? {
      return 404, NOT_FOUND;
    }
    if !MayModifyPosting(user, db.internships[k.value]) {
      return 403, ACCESS_DENIED;
    }
    RemovePosting(db.internships, db.applications, k.value);
    db.internships := RemoveAt(db.internships, k.value);
    return 200, DELETED;
  }

  /**
   * After a posting is deleted, its applications reference nothing: a company
   * is denied reading them, and changing their status throws.
   */
  lemma DeletedPostingOrphans(internships: seq<Internship>, k: nat, user: Claims, app: Application, studentOnFile: bool)
    requires k < |internships| && DistinctBy(internships, InternshipKey) && app.internshipId == internships[k].id
    ensures OwnerOfPosting(RemoveAt(internships, k), app.internshipId).None?
    ensures user.role == COMPANY ==>
      && ReadVerdict(user, app, studentOnFile, OwnerOfPosting(RemoveAt(internships, k), app.internshipId)) == Deny
      && StatusVerdict(user, OwnerOfPosting(RemoveAt(internships, k), app.internshipId)) == Fail(500)
  {
    RemovePosting(internships, [], k);
  }
}
