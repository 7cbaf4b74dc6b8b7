/**
 * The account routes: signup of students and companies, the logins that
 * issue role claims, the `/me` lookups and the route file's own admin gate.
 * bcrypt stays outside: signup takes the hash it stores, and login takes the
 * comparison. `jwt.sign` stays outside too: a login returns the claims and
 * the lifetime that it signs.
 */
module AuthRoutes {
  import opened Wrappers
  import opened Ids
  import opened Seqs
  import opened AuthMiddleware
  import opened Accounts
  import opened Db
  import opened Access

  const STUDENT_EXISTS := "Student already exists"
  const STUDENT_REGISTERED := "Student registered successfully"
  const STUDENT_SIGNUP_ERROR := "Error registering student"
  const COMPANY_EXISTS := "Company already exists"
  const COMPANY_REGISTERED := "Company registered successfully"
  const COMPANY_SIGNUP_ERROR := "Error registering company"
  const INVALID_CREDENTIALS := "Invalid credentials"
  const NOT_A_STUDENT := "Not a student"
  const STUDENT_NOT_FOUND := "Student not found"
  const STUDENT_FETCH_ERROR := "Error fetching student data"
  const NOT_A_COMPANY := "Not a company"
  const COMPANY_NOT_FOUND := "Company not found"
  const COMPANY_FETCH_ERROR := "Error fetching company data"
  const ADMIN_ONLY := "Admin only"

  /** `expiresIn: "1d"`, in seconds. */
  const TOKEN_LIFETIME := 86400

  /** What a login signs into its token. */
  datatype Token = Token(claims: Claims, expiresIn: nat)

  datatype Login<P> = LoggedIn(token: Token, profile: P) | LoginRefused(code: int, message: string)

  datatype Lookup<P> = Found(profile: P) | NotFound(code: int, message: string)

  // ---------------------------------------------------------------------------
  // Signup

  /**
   * `POST /signup/student`: an e-mail already on file is refused with 400;
   * otherwise the record is saved, so a missing field or a taken id makes
   * the save throw. `hashed` is what the pre-save hook makes of the password.
   */
  method SignupStudent(db: Store, f: StudentForm, newId: ObjectId, hashed: string) returns (code: int, message: string)
    requires db.Valid()
    modifies db
    ensures db.Valid()
    ensures db.companies == old(db.companies) && db.internships == old(db.internships) && db.applications == old(db.applications)
    ensures Find(old(db.students), StudentEmail, f.email).Some? ==> code == 400 && message == STUDENT_EXISTS
    ensures (Find(old(db.students), StudentEmail, f.email).None? &&
             (!StudentFormConforms(f) || Find(old(db.students), StudentKey, newId).Some?)) ==>
      code == 500 && message == STUDENT_SIGNUP_ERROR
    ensures code == 201 <==>
      Find(old(db.students), StudentEmail, f.email).None? && StudentFormConforms(f) && Find(old(db.students), StudentKey, newId).None?
    ensures code == 201 ==>
      message == STUDENT_REGISTERED && db.students == old(db.students) + [Student(newId, f.fullName, f.email, hashed, f.phone)]
    ensures code != 201 ==> db.students == old(db.students)
  {
    if Find(db.students, StudentEmail, f.email).Some? {
      return 400, STUDENT_EXISTS;
    }
    if !StudentFormConforms(f) || Find(db.students, StudentKey, newId).Some? {
      return 500, STUDENT_SIGNUP_ERROR;
    }
    var s := Student(newId, f.fullName, f.email, hashed, f.phone);
    DistinctAppend(db.students, s, StudentKey);
    DistinctAppend(db.students, s, StudentEmail);
    db.students := db.students + [s];
    return 201, STUDENT_REGISTERED;
  }

  /** `POST /signup/company`: as for students, keyed on `companyEmail`. */
  method SignupCompany(db: Store, f: CompanyForm, newId: ObjectId, hashed: string) returns (code: int, message: string)
    requires db.Valid()
    modifies db
    ensures db.Valid()
    ensures db.students == old(db.students) && db.internships == old(db.internships) && db.applications == old(db.applications)
    ensures Find(old(db.companies), CompanyEmail, f.companyEmail).Some? ==> code == 400 && message == COMPANY_EXISTS
    ensures (Find(old(db.companies), CompanyEmail, f.companyEmail).None? &&
             (!CompanyFormConforms(f) || Find(old(db.companies), CompanyKey, newId).Some?)) ==>
      code == 500 && message == COMPANY_SIGNUP_ERROR
    ensures code == 201 <==>
      Find(old(db.companies), CompanyEmail, f.companyEmail).None? && CompanyFormConforms(f) && Find(old(db.companies), CompanyKey, newId).None?
    ensures code == 201 ==>
      message == COMPANY_REGISTERED && db.companies == old(db.companies) + [Company(newId, f.companyName, f.companyEmail, hashed, f.contactNumber)]
    ensures code != 201 ==> db.companies == old(db.companies)
  {
    if Find(db.companies, CompanyEmail, f.companyEmail).Some? {
      return 400, COMPANY_EXISTS;
    }
    if !CompanyFormConforms(f) || Find(db.companies, CompanyKey, newId).Some? {
      return 500, COMPANY_SIGNUP_ERROR;
    }
    var c := Company(newId, f.companyName, f.companyEmail, hashed, f.contactNumber);
    DistinctAppend(db.companies, c, CompanyKey);
    DistinctAppend(db.companies, c, CompanyEmail);
    db.companies := db.companies + [c];
    return 201, COMPANY_REGISTERED;
  }

  /**
   * Two student signups with the same form: once the first is registered,
   * the second is refused with 400 and stores nothing, whatever id and hash
   * it would have used.
   */
  method SignupOnce(db: Store, f: StudentForm, firstId: ObjectId, secondId: ObjectId, firstHash: string, secondHash: string)
    returns (first: int, second: int, message: string)
    requires db.Valid()
    modifies db
    ensures db.Valid()
    ensures first == 201 ==>
      && second == 400 && message == STUDENT_EXISTS
      && db.students == old(db.students) + [Student(firstId, f.fullName, f.email, firstHash, f.phone)]
  {
    var m;
    first, m := SignupStudent(db, f, firstId, firstHash);
    if first == 201 {
      var s := Student(firstId, f.fullName, f.email, firstHash, f.phone);
      assert db.students[|db.students| - 1] == s;
      assert Find(db.students, StudentEmail, f.email).Some?;
    }
    second, message := SignupStudent(db, f, secondId, secondHash);
  }

  /** The same for companies, keyed on `companyEmail`. */
  method CompanySignupOnce(db: Store, f: CompanyForm, firstId: ObjectId, secondId: ObjectId, firstHash: string, secondHash: string)
    returns (first: int, second: int, message: string)
    requires db.Valid()
    modifies db
    ensures db.Valid()
    ensures first == 201 ==>
      && second == 400 && message == COMPANY_EXISTS
      && db.companies == old(db.companies) + [Company(firstId, f.companyName, f.companyEmail, firstHash, f.contactNumber)]
  {
    var m;
    first, m := SignupCompany(db, f, firstId, firstHash);
    if first == 201 {
      var c := Company(firstId, f.companyName, f.companyEmail, firstHash, f.contactNumber);
      assert db.companies[|db.companies| - 1] == c;
      assert Find(db.companies, CompanyEmail, f.companyEmail).Some?;
    }
    second, message := SignupCompany(db, f, secondId, secondHash);
  }

  // ---------------------------------------------------------------------------
  // Login

  /**
   * `POST /login/student`: the student with that e-mail, whose stored hash
   * the candidate password matches (`matches` stands for `bcrypt.compare`),
   * gets a one-day token with its id and the student role. An unknown e-mail
   * and a wrong password get the same answer.
   */
  function StudentLogin(students: seq<Student>, email: string, password: string, matches: (string, string) -> bool): (r: Login<StudentProfile>)
    ensures r.LoginRefused? ==> r == LoginRefused(400, INVALID_CREDENTIALS)
    ensures r.LoggedIn? <==>
      Find(students, StudentEmail, email).Some? && matches(password, students[Find(students, StudentEmail, email).value].passwordHash)
    ensures r.LoggedIn? ==>
      var s := students[Find(students, StudentEmail, email).value];
      && s.email == email
      && r.token == Token(Claims(s.id, STUDENT), TOKEN_LIFETIME)
      && r.profile == StudentProfileOf(s)
  {
    match Find(students, StudentEmail, email)
    case None => LoginRefused(400, INVALID_CREDENTIALS)
    case Some(k) =>
      if !matches(password, students[k].passwordHash) then LoginRefused(400, INVALID_CREDENTIALS)
      else LoggedIn(Token(Claims(students[k].id, STUDENT), TOKEN_LIFETIME), StudentProfileOf(students[k]))
  }

  /** `POST /login/company`: the body's `email` is looked up as `companyEmail`; the token carries the company role. */
  function CompanyLogin(companies: seq<Company>, email: string, password: string, matches: (string, string) -> bool): (r: Login<CompanyProfile>)
    ensures r.LoginRefused? ==> r == LoginRefused(400, INVALID_CREDENTIALS)
    ensures r.LoggedIn? <==>
      Find(companies, CompanyEmail, email).Some? && matches(password, companies[Find(companies, CompanyEmail, email).value].passwordHash)
    ensures r.LoggedIn? ==>
      var c := companies[Find(companies, CompanyEmail, email).value];
      && c.companyEmail == email
      && r.token == Token(Claims(c.id, COMPANY), TOKEN_LIFETIME)
      && r.profile == CompanyProfileOf(c)
  {
    match Find(companies, CompanyEmail, email)
    case None => LoginRefused(400, INVALID_CREDENTIALS)
    case Some(k) =>
      if !matches(password, companies[k].passwordHash) then LoginRefused(400, INVALID_CREDENTIALS)
      else LoggedIn(Token(Claims(companies[k].id, COMPANY), TOKEN_LIFETIME), CompanyProfileOf(companies[k]))
  }

  /** No login issues the admin role, so the admin gates stay shut to every token a login signs. */
  lemma NoAdminTokens(students: seq<Student>, companies: seq<Company>, email: string, password: string, matches: (string, string) -> bool)
    ensures StudentLogin(students, email, password, matches).LoggedIn? ==>
      AdminOnly(Some(StudentLogin(students, email, password, matches).token.claims)).Forbidden?
    ensures CompanyLogin(companies, email, password, matches).LoggedIn? ==>
      AdminOnly(Some(CompanyLogin(companies, email, password, matches).token.claims)).Forbidden?
  {
  }

  /**
   * A student who signs up under an e-mail not yet on file can then log in
   * with a password that matches the stored hash, and the token names the
   * new record.
   */
  lemma LoginAfterSignup(students: seq<Student>, s: Student, password: string, matches: (string, string) -> bool)
    requires DistinctBy(students, StudentEmail) && Find(students, StudentEmail, s.email).None?
    requires matches(password, s.passwordHash)
    ensures StudentLogin(students + [s], s.email, password, matches) ==
      LoggedIn(Token(Claims(s.id, STUDENT), TOKEN_LIFETIME), StudentProfileOf(s))
  {
    DistinctAppend(students, s, StudentEmail);
    FindUnique(students + [s], StudentEmail, |students|);
  }

  // ---------------------------------------------------------------------------
  // The current account

  /** `GET /me/student`: the caller's record without its password; `findById` casts the id, so a malformed one throws. */
  function MeStudent(students: seq<Student>, user: Claims): (r: Lookup<StudentProfile>)
    ensures user.role != STUDENT ==> r == NotFound(403, NOT_A_STUDENT)
    ensures user.role == STUDENT && Cast(user.id).None? ==> r == NotFound(500, STUDENT_FETCH_ERROR)
    ensures (user.role == STUDENT && Cast(user.id).Some? && Find(students, StudentKey, Cast(user.id).value).None?) ==>
      r == NotFound(404, STUDENT_NOT_FOUND)
    ensures r.Found? ==> user.role == STUDENT && exists s :: s in students && Cast(user.id) == Some(s.id) && r.profile == StudentProfileOf(s)
    ensures (user.role == STUDENT && Cast(user.id).Some? && Find(students, StudentKey, Cast(user.id).value).Some?) ==>
      r == Found(StudentProfileOf(students[Find(students, StudentKey, Cast(user.id).value).value]))
  {
    if user.role != STUDENT then NotFound(403, NOT_A_STUDENT)
    else match Cast(user.id)
      case None => NotFound(500, STUDENT_FETCH_ERROR)
      case Some(sid) =>
        match Find(students, StudentKey, sid)
        case None => NotFound(404, STUDENT_NOT_FOUND)
        case Some(k) => Found(StudentProfileOf(students[k]))
  }

  /** `GET /me/company`: as for students, for the company role. */
  function MeCompany(companies: seq<Company>, user: Claims): (r: Lookup<CompanyProfile>)
    ensures user.role != COMPANY ==> r == NotFound(403, NOT_A_COMPANY)
    ensures user.role == COMPANY && Cast(user.id).None? ==> r == NotFound(500, COMPANY_FETCH_ERROR)
    ensures (user.role == COMPANY && Cast(user.id).Some? && Find(companies, CompanyKey, Cast(user.id).value).None?) ==>
      r == NotFound(404, COMPANY_NOT_FOUND)
    ensures r.Found? ==> user.role == COMPANY && exists c :: c in companies && Cast(user.id) == Some(c.id) && r.profile == CompanyProfileOf(c)
    ensures (user.role == COMPANY && Cast(user.id).Some? && Find(companies, CompanyKey, Cast(user.id).value).Some?) ==>
      r == Found(CompanyProfileOf(companies[Find(companies, CompanyKey, Cast(user.id).value).value]))
  {
    if user.role != COMPANY then NotFound(403, NOT_A_COMPANY)
    else match Cast(user.id)
      case None => NotFound(500, COMPANY_FETCH_ERROR)
      case Some(cid) =>
        match Find(companies, CompanyKey, cid)
        case None => NotFound(404, COMPANY_NOT_FOUND)
        case Some(k) => Found(CompanyProfileOf(companies[k]))
  }

  /**
   * The claims a student login signs open `/me/student` on the same store
   * and return the same profile as the login did.
   */
  lemma StudentLoginThenMe(students: seq<Student>, email: string, password: string, matches: (string, string) -> bool)
    requires DistinctBy(students, StudentKey)
    requires StudentLogin(students, email, password, matches).LoggedIn?
    ensures
      var r := StudentLogin(students, email, password, matches);
      MeStudent(students, r.token.claims) == Found(r.profile)
  {
    var k := Find(students, StudentEmail, email).value;
    CastCanonical(students[k].id);
    FindUnique(students, StudentKey, k);
  }

  /** The claims a company login signs open `/me/company` on the same store. */
  lemma CompanyLoginThenMe(companies: seq<Company>, email: string, password: string, matches: (string, string) -> bool)
    requires DistinctBy(companies, CompanyKey)
    requires CompanyLogin(companies, email, password, matches).LoggedIn?
    ensures
      var r := CompanyLogin(companies, email, password, matches);
      MeCompany(companies, r.token.claims) == Found(r.profile)
  {
    var k := Find(companies, CompanyEmail, email).value;
    CastCanonical(companies[k].id);
    FindUnique(companies, CompanyKey, k);
  }

  // ---------------------------------------------------------------------------
  // The route file's own admin gate

  /** The `adminOnly` of the account routes: `req.user?.role !== "admin"` is refused with 403. */
  function AdminGate(user: Option<Claims>): (g: Gate)
    ensures g.Forbidden? ==> g == Forbidden(403, ADMIN_ONLY)
  {
    if user.None? || user.value.role != ADMIN then Forbidden(403, ADMIN_ONLY) else Next
  }

  /** The two admin gates let the same requests through; only their refusal messages differ. */
  lemma AdminGatesAgree(user: Option<Claims>)
    ensures AdminGate(user).Next? <==> AdminOnly(user).Next?
    ensures AdminGate(user).Next? <==> user.Some? && user.value.role == ADMIN
    ensures AdminGate(user).Forbidden? ==> AdminGate(user).status == AdminOnly(user).status && AdminGate(user).message != AdminOnly(user).message
  {
  }
}
