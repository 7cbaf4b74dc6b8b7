/**
 * The in-memory store behind the routes: one collection per model, each a
 * sequence in insertion order. `Valid` holds the unique indexes (`_id` of
 * every collection, the student and company e-mails), the at-most-one
 * application per (internship, student) rule that the apply route keeps, and
 * the Application validators that every saved application passed.
 */
module Db {
  import opened Wrappers
  import opened Ids
  import opened Seqs
  import opened ApplicationModel
  import opened InternshipModel
  import opened Accounts

  // Keys of the collections, named so that lookups in contracts and bodies agree.

  function ApplicationKey(a: Application): ObjectId { a.id }
  function ApplicantPair(a: Application): (ObjectId, ObjectId) { (a.internshipId, a.studentId) }
  function ApplicantOf(a: Application): ObjectId { a.studentId }
  function PostingOf(a: Application): ObjectId { a.internshipId }
  function AppliedKey(a: Application): int { a.appliedDate }
  function InternshipKey(i: Internship): ObjectId { i.id }
  function CreatedKey(i: Internship): int { i.createdAt }
  function StudentKey(s: Student): ObjectId { s.id }
  function StudentEmail(s: Student): string { s.email }
  function CompanyKey(c: Company): ObjectId { c.id }
  function CompanyEmail(c: Company): string { c.companyEmail }

  /** The owner of the posting with id `iid`, if there is one. */
  function OwnerOfPosting(internships: seq<Internship>, iid: ObjectId): (r: Option<ObjectId>)
    ensures r.Some? <==> Find(internships, InternshipKey, iid).Some?
    ensures r.Some? ==> r.value == internships[Find(internships, InternshipKey, iid).value].companyId
  {
    match Find(internships, InternshipKey, iid)
    case None => None
    case Some(k) => Some(internships[k].companyId)
  }

  /** The ids of the postings owned by `cid` (`Internship.find({ companyId }).map(_id)`). */
  function OwnedPostings(internships: seq<Internship>, cid: ObjectId): (ids: set<ObjectId>)
    ensures forall i :: i in internships && i.companyId == cid ==> i.id in ids
    ensures forall x :: x in ids ==> exists i :: i in internships && i.companyId == cid && i.id == x
  {
    set i | i in internships && i.companyId == cid :: i.id
  }

  // ---------------------------------------------------------------------------
  // The applicant counter

  /** The number of applications that reference posting `iid`. */
  function Tally(apps: seq<Application>, iid: ObjectId): (n: nat)
    ensures n <= |apps|
  {
    if |apps| == 0 then 0
    else (if apps[0].internshipId == iid then 1 else 0) + Tally(apps[1..], iid)
  }

  /** How far a posting's `applicants` is from the true number of its applications. */
  function Drift(i: Internship, apps: seq<Application>): int {
    i.applicants - Tally(apps, i.id)
  }

  lemma {:induction false} TallyConcat(a: seq<Application>, b: seq<Application>, iid: ObjectId)
    ensures Tally(a + b, iid) == Tally(a, iid) + Tally(b, iid)
  {
    if |a| == 0 {
      assert a + b == b;
    } else {
      assert (a + b)[1..] == a[1..] + b;
      TallyConcat(a[1..], b, iid);
    }
  }

  lemma TallyAppend(s: seq<Application>, x: Application, iid: ObjectId)
    ensures Tally(s + [x], iid) == Tally(s, iid) + (if x.internshipId == iid then 1 else 0)
  {
    TallyConcat(s, [x], iid);
    assert [x][1..] == [];
  }

  lemma TallyRemove(s: seq<Application>, k: nat, iid: ObjectId)
    requires k < |s|
    ensures Tally(RemoveAt(s, k), iid) == Tally(s, iid) - (if s[k].internshipId == iid then 1 else 0)
  {
    assert s == s[..k] + ([s[k]] + s[k + 1..]);
    TallyConcat(s[..k], [s[k]] + s[k + 1..], iid);
    TallyConcat([s[k]], s[k + 1..], iid);
    assert ([s[k]] + s[k + 1..])[1..] == s[k + 1..];
    TallyConcat(s[..k], s[k + 1..], iid);
  }

  lemma TallyUpdate(s: seq<Application>, k: nat, x: Application, iid: ObjectId)
    requires k < |s| && x.internshipId == s[k].internshipId
    ensures Tally(s[k := x], iid) == Tally(s, iid)
  {
    assert s == s[..k] + ([s[k]] + s[k + 1..]);
    assert s[k := x] == s[..k] + ([x] + s[k + 1..]);
    TallyConcat(s[..k], [s[k]] + s[k + 1..], iid);
    TallyConcat(s[..k], [x] + s[k + 1..], iid);
    assert ([s[k]] + s[k + 1..])[1..] == s[k + 1..];
    assert ([x] + s[k + 1..])[1..] == s[k + 1..];
  }

  /** The counter the model keeps is the size of the posting's selection of applications. */
  lemma {:induction false} TallyIsSelection(apps: seq<Application>, iid: ObjectId)
    ensures Tally(apps, iid) == |Select(apps, PostingOf, {iid})|
  {
    if |apps| > 0 {
      TallyIsSelection(apps[1..], iid);
    }
  }

  /**
   * `Internship.findByIdAndUpdate(iid, { $inc: { applicants: delta } })`: the
   * posting with id `iid`, if any, has its counter moved by `delta`; nothing
   * else changes, and a missing posting is not an error.
   */
  function Bump(internships: seq<Internship>, iid: ObjectId, delta: int): (r: seq<Internship>)
    ensures |r| == |internships|
    ensures forall j :: 0 <= j < |r| ==> r[j].id == internships[j].id
    ensures forall j :: 0 <= j < |r| && internships[j].id != iid ==> r[j] == internships[j]
    ensures DistinctBy(internships, InternshipKey) ==>
      forall j :: 0 <= j < |r| && internships[j].id == iid ==>
        r[j] == internships[j].(applicants := internships[j].applicants + delta)
    ensures Find(internships, InternshipKey, iid).None? ==> r == internships
  {
    match Find(internships, InternshipKey, iid)
    case None => internships
    case Some(k) =>
      internships[k := internships[k].(applicants := internships[k].applicants + delta)]
  }

  /**
   * When the applications referencing `iid` change in number by `delta` and
   * the others do not, bumping the counter of `iid` by `delta` leaves every
   * posting's drift where it was.
   */
  lemma BumpKeepsDrift(internships: seq<Internship>, apps: seq<Application>, apps': seq<Application>, iid: ObjectId, delta: int)
    requires DistinctBy(internships, InternshipKey)
    requires forall j :: 0 <= j < |internships| ==>
      Tally(apps', internships[j].id) == Tally(apps, internships[j].id) + (if internships[j].id == iid then delta else 0)
    ensures forall j :: 0 <= j < |internships| ==>
      Drift(Bump(internships, iid, delta)[j], apps') == Drift(internships[j], apps)
  {
    var r := Bump(internships, iid, delta);
    forall j | 0 <= j < |internships|
      ensures Drift(r[j], apps') == Drift(internships[j], apps)
    {
      assert r[j].id == internships[j].id;
    }
  }

  /** Drift kept everywhere keeps zero drift everywhere. */
  ghost predicate DriftKept(internships: seq<Internship>, apps: seq<Application>, internships': seq<Internship>, apps': seq<Application>) {
    |internships'| == |internships|
    && (forall j :: 0 <= j < |internships| ==> internships'[j].id == internships[j].id)
    && (forall j :: 0 <= j < |internships| ==> Drift(internships'[j], apps') == Drift(internships[j], apps))
  }

  /**
   * The invariants of the applications collection: unique ids, at most one
   * application per (posting, student), and every stored application passed
   * the schema's validators.
   */
  ghost predicate ApplicationsValid(apps: seq<Application>) {
    && DistinctBy(apps, ApplicationKey)
    && DistinctBy(apps, ApplicantPair)
    && (forall k :: 0 <= k < |apps| ==> ApplicationConforms(apps[k]))
  }

  /** Every posting's `applicants` equals the number of applications that reference it. */
  ghost predicate CountersZero(internships: seq<Internship>, apps: seq<Application>) {
    forall k :: 0 <= k < |internships| ==> Drift(internships[k], apps) == 0
  }

  lemma DriftKeptZero(internships: seq<Internship>, apps: seq<Application>, internships': seq<Internship>, apps': seq<Application>)
    requires DriftKept(internships, apps, internships', apps') && CountersZero(internships, apps)
    ensures CountersZero(internships', apps')
  {
  }

  /** Bumping a counter keeps posting ids unique. */
  lemma BumpDistinct(internships: seq<Internship>, iid: ObjectId, delta: int)
    requires DistinctBy(internships, InternshipKey)
    ensures DistinctBy(Bump(internships, iid, delta), InternshipKey)
  {
    var r := Bump(internships, iid, delta);
    forall i, j | 0 <= i < j < |r| ensures InternshipKey(r[i]) != InternshipKey(r[j]) {
      assert r[i].id == internships[i].id && r[j].id == internships[j].id;
    }
  }

  /**
   * Storing a conforming application whose id and (posting, student) pair are
   * new, and counting it on its posting, keeps the invariants and every drift.
   */
  lemma InsertApplication(internships: seq<Internship>, apps: seq<Application>, rec: Application)
    requires DistinctBy(internships, InternshipKey) && ApplicationsValid(apps)
    requires ApplicationConforms(rec)
    requires Find(apps, ApplicationKey, rec.id).None? && Find(apps, ApplicantPair, ApplicantPair(rec)).None?
    ensures ApplicationsValid(apps + [rec])
    ensures DistinctBy(Bump(internships, rec.internshipId, 1), InternshipKey)
    ensures DriftKept(internships, apps, Bump(internships, rec.internshipId, 1), apps + [rec])
  {
    DistinctAppend(apps, rec, ApplicationKey);
    DistinctAppend(apps, rec, ApplicantPair);
    forall j | 0 <= j < |internships|
      ensures Tally(apps + [rec], internships[j].id) == Tally(apps, internships[j].id) + (if internships[j].id == rec.internshipId then 1 else 0)
    {
      TallyAppend(apps, rec, internships[j].id);
    }
    BumpKeepsDrift(internships, apps, apps + [rec], rec.internshipId, 1);
    BumpDistinct(internships, rec.internshipId, 1);
  }

  /** Removing an application and uncounting it on its posting keeps the invariants and every drift. */
  lemma RemoveApplication(internships: seq<Internship>, apps: seq<Application>, k: nat)
    requires k < |apps| && DistinctBy(internships, InternshipKey) && ApplicationsValid(apps)
    ensures ApplicationsValid(RemoveAt(apps, k))
    ensures DistinctBy(Bump(internships, apps[k].internshipId, -1), InternshipKey)
    ensures DriftKept(internships, apps, Bump(internships, apps[k].internshipId, -1), RemoveAt(apps, k))
  {
    var rest := RemoveAt(apps, k);
    DistinctRemove(apps, k, ApplicationKey);
    DistinctRemove(apps, k, ApplicantPair);
    forall j | 0 <= j < |internships|
      ensures Tally(rest, internships[j].id) == Tally(apps, internships[j].id) + (if internships[j].id == apps[k].internshipId then -1 else 0)
    {
      TallyRemove(apps, k, internships[j].id);
    }
    BumpKeepsDrift(internships, apps, rest, apps[k].internshipId, -1);
    BumpDistinct(internships, apps[k].internshipId, -1);
  }

  /** Replacing an application by a conforming one with the same id, posting and student keeps the invariants and every drift. */
  lemma ReplaceApplication(internships: seq<Internship>, apps: seq<Application>, k: nat, x: Application)
    requires k < |apps| && ApplicationsValid(apps) && ApplicationConforms(x)
    requires x.id == apps[k].id && ApplicantPair(x) == ApplicantPair(apps[k])
    ensures ApplicationsValid(apps[k := x])
    ensures DriftKept(internships, apps, internships, apps[k := x])
  {
    DistinctUpdate(apps, k, x, ApplicationKey);
    DistinctUpdate(apps, k, x, ApplicantPair);
    forall j | 0 <= j < |internships|
      ensures Tally(apps[k := x], internships[j].id) == Tally(apps, internships[j].id)
    {
      TallyUpdate(apps, k, x, internships[j].id);
    }
  }

  /** Storing and counting an application keeps every counter equal to its number of applications. */
  lemma CountersAfterInsert(internships: seq<Internship>, apps: seq<Application>, rec: Application)
    requires DistinctBy(internships, InternshipKey) && ApplicationsValid(apps) && CountersZero(internships, apps)
    requires ApplicationConforms(rec)
    requires Find(apps, ApplicationKey, rec.id).None? && Find(apps, ApplicantPair, ApplicantPair(rec)).None?
    ensures CountersZero(Bump(internships, rec.internshipId, 1), apps + [rec])
  {
    InsertApplication(internships, apps, rec);
    DriftKeptZero(internships, apps, Bump(internships, rec.internshipId, 1), apps + [rec]);
  }

  /** Removing and uncounting an application keeps every counter equal to its number of applications. */
  lemma CountersAfterRemove(internships: seq<Internship>, apps: seq<Application>, k: nat)
    requires k < |apps| && DistinctBy(internships, InternshipKey) && ApplicationsValid(apps) && CountersZero(internships, apps)
    ensures CountersZero(Bump(internships, apps[k].internshipId, -1), RemoveAt(apps, k))
  {
    RemoveApplication(internships, apps, k);
    DriftKeptZero(internships, apps, Bump(internships, apps[k].internshipId, -1), RemoveAt(apps, k));
  }

  // ---------------------------------------------------------------------------
  // Changes to the postings

  /** Adding a posting with a new id keeps ids unique; when it starts without drift, every counter stays right. */
  lemma AddPosting(internships: seq<Internship>, apps: seq<Application>, p: Internship)
    requires DistinctBy(internships, InternshipKey) && Find(internships, InternshipKey, p.id).None?
    ensures DistinctBy(internships + [p], InternshipKey)
    ensures CountersZero(internships, apps) && Drift(p, apps) == 0 ==> CountersZero(internships + [p], apps)
  {
    DistinctAppend(internships, p, InternshipKey);
  }

  /**
   * Removing a posting keeps ids unique and the other counters; nothing then
   * carries its id, so the applications that reference it point at nothing.
   */
  lemma RemovePosting(internships: seq<Internship>, apps: seq<Application>, k: nat)
    requires k < |internships| && DistinctBy(internships, InternshipKey)
    ensures DistinctBy(RemoveAt(internships, k), InternshipKey)
    ensures Find(RemoveAt(internships, k), InternshipKey, internships[k].id).None?
    ensures CountersZero(internships, apps) ==> CountersZero(RemoveAt(internships, k), apps)
  {
    var r := RemoveAt(internships, k);
    DistinctRemove(internships, k, InternshipKey);
    forall j | 0 <= j < |r| ensures r[j].id != internships[k].id {
      assert r[j] == internships[if j < k then j else j + 1];
    }
    if CountersZero(internships, apps) {
      forall j | 0 <= j < |r| ensures Drift(r[j], apps) == 0 {
        assert r[j] == internships[if j < k then j else j + 1];
      }
    }
  }

  /** Replacing a posting by one with the same id keeps ids unique, and every drift when its counter is kept. */
  lemma ReplacePosting(internships: seq<Internship>, apps: seq<Application>, k: nat, x: Internship)
    requires k < |internships| && DistinctBy(internships, InternshipKey) && x.id == internships[k].id
    ensures DistinctBy(internships[k := x], InternshipKey)
    ensures x.applicants == internships[k].applicants ==> DriftKept(internships, apps, internships[k := x], apps)
  {
    DistinctUpdate(internships, k, x, InternshipKey);
  }

  class Store {
    var students: seq<Student>
    var companies: seq<Company>
    var internships: seq<Internship>
    var applications: seq<Application>

    /** The unique indexes of every collection and the invariants of the applications. */
    ghost predicate Valid()
      reads this
    {
      && DistinctBy(students, StudentKey) && DistinctBy(students, StudentEmail)
      && DistinctBy(companies, CompanyKey) && DistinctBy(companies, CompanyEmail)
      && DistinctBy(internships, InternshipKey)
      && ApplicationsValid(applications)
    }

    /** Every posting's `applicants` equals the number of applications that reference it. */
    ghost predicate CountersMatch()
      reads this
    {
      CountersZero(internships, applications)
    }

    constructor ()
      ensures Valid() && CountersMatch()
      ensures students == [] && companies == [] && internships == [] && applications == []
    {
      students, companies, internships, applications := [], [], [], [];
    }
  }
}
