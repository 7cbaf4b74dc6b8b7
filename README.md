# Internship portal backend: access control and application lifecycle

This project models the server side of an internship portal in Dafny. Students apply to internship postings that companies publish. The model covers these parts:

- **Authentication middleware.** It picks the token from three carriers in priority order, verifies it through an oracle, and yields the caller's claims or a 401. The `adminOnly` gate is included.
- **Application routes.**
  - Applying: field check, posting lookup, duplicate check, then insert and `applicants += 1`.
  - The student's and the company's lists.
  - Reading one application.
  - Changing an application's status.
  - Deleting an application, with `applicants -= 1`.
- **Posting routes.**
  - The public listing: filter, newest first, page window, page count.
  - Reading one posting.
  - Company-only creation, which stamps the owner.
  - Owner-or-admin update and delete.
- **Account routes.**
  - Signup with a unique e-mail.
  - Logins that sign role claims.
  - The role-gated `/me` lookups.
  - The route file's own admin gate.
- **The Application and Internship schemas.** This covers the enums and defaults, the `trim`/`lowercase` setters, and the validators that run when a document is saved.

The database is a `Db.Store` object with four collections kept as sequences in insertion order. The handlers that read or write the store are methods that take it. They return the HTTP status, the response message and the response body, and those that write are `modifies db`. The login handlers and the `/me` lookups (`AuthRoutes.StudentLogin`, `CompanyLogin`, `MeStudent`, `MeCompany`) and the admin gate `AuthRoutes.AdminGate` only look records up, so they are functions over the collection they read (or over the caller's claims), returning a result value.

Every writing handler keeps `Store.Valid()`, which collects these invariants:

- unique ids;
- unique student and company e-mails;
- at most one application per (posting, student) pair;
- every application passes the schema validators.

Every writing handler of the application routes, the posting delete, and the signups also keep each posting's *drift*: its `applicants` field minus the number of applications that reference it. So if every counter matched before such a handler ran, every counter matches after it. Posting creation and update keep the counters only under a condition on the body's `applicants` field, which the client may set (see "## Left out").

Ids are MongoDB ObjectIds: 24 lower-case hexadecimal digits. `Ids.Cast` models how a string is cast to an id by the `bson` library of version 5 or later (Mongoose 7 or later), which the model assumes; earlier versions also accept any 12-character string as the id's raw bytes:

- 24 hex digits in either case are accepted;
- anything else causes a CastError.

For each route that catches errors, the model gives the status that the route's `catch` sends. The apply route and the application routes that read, change or delete one application send 400 for a CastError and 500 for any other error (`backend/routes/applications.js:96-100`, `174-178`, `209-213`, `240-244`). The two application list routes send 500 for every error, a CastError included (`backend/routes/applications.js:118-120`, `142-144`). The posting and account routes send 500 for every error.

The comparisons `x.toString() !== req.user.id` are modelled as plain string comparisons. Query filters on `req.user.id` cast the id first.

Errors the routes answer are not left out but modelled explicitly. Each takes a separate branch in a contract:

- a Mongoose ValidationError when a document is saved, for example a required field that is blank after `trim`, or an e-mail that fails the pattern;
- a duplicate-key error when the new id is already taken;
- a TypeError from a null populate: the status route when the posting is gone, or a student reading an application whose student record is gone.

The code is looser than a strict application lifecycle and access policy in these places, and the model follows the code:

- A status may change between any of the three values. No status is terminal (`backend/routes/applications.js:189-205`).
- A duplicate application is answered with 400, not 409 (`backend/routes/applications.js:63-65`).
- Applying has no role check and does not require the posting to be active (`backend/routes/applications.js:33-65`).
- Deleting an application decrements the counter with no floor at zero (`backend/routes/applications.js:236`).
- An administrator may not change a status (`backend/routes/applications.js:200`).
- Reading and deleting an application are allowed for every role other than student and company; there is no deny-by-default (`backend/routes/applications.js:161-170`, `228-233`).
- Posting update and delete check only owner id equality or the admin role, not the company role (`backend/routes/internships.js:96`, `121`).
- An update body may replace `companyId` and `applicants`. So a posting's owner is not immutable, and a client can write the counter (`backend/routes/internships.js:100-104`).
- Deleting a posting leaves the applications that reference it in place (`backend/routes/internships.js:125`).

## Model

| member | source | states |
|---|---|---|
| AuthMiddleware.SelectToken | backend/middleware/authMiddleware.js:8-11 | The token is the first non-empty value among `x-auth-token`, the `Authorization` header with `"Bearer "` removed, and the `token` query parameter. There is none exactly when all three are empty or absent. |
| AuthMiddleware.Authenticate | backend/middleware/authMiddleware.js:5-28 | No token gives 401 "No token, authorization denied."; a failed verification gives 401 "Invalid token."; otherwise the user is exactly the verified claims. Success happens iff a token exists and verifies. |
| AuthMiddleware.StripBearer | backend/middleware/authMiddleware.js:10 | The `Authorization` header with its first `"Bearer "` replaced by nothing; an absent header stays absent. |
| AuthMiddleware.StripScheme | backend/middleware/authMiddleware.js:10 | `"Bearer " + t` strips to `t`. |
| AuthMiddleware.StripWithoutScheme | backend/middleware/authMiddleware.js:10 | A header that does not contain `"Bearer "` is used verbatim. |
| AuthMiddleware.BareSchemeFallsThrough | backend/middleware/authMiddleware.js:8-11 | A header of exactly `"Bearer "` strips to the empty string, and the query token (or none) is used instead. |
| AuthMiddleware.StripOnlyFirst | backend/middleware/authMiddleware.js:10 | Only the first `"Bearer "` is removed. |
| AuthMiddleware.AdminOnly | backend/middleware/authMiddleware.js:31-37 | The next handler runs iff there is a user whose role is `"admin"`; otherwise 403. |
| Ids.Cast | backend/routes/applications.js:53 | A string casts to an id iff it is 24 hex digits. The id is its lower-case form. |
| Ids.CastCanonical | backend/routes/applications.js:53 | An id casts to itself. |
| Ids.CastMismatch | backend/routes/applications.js:165-169 | A string whose cast is not a given id differs from that id's string form. So a query filter that casts and a string comparison agree when they reject. |
| ApplicationModel.ParseStatus | backend/models/Application.js:70-74 | A status string is accepted iff it is pending, accepted or rejected, and its name round-trips. |
| ApplicationModel.ParseStatusName | backend/models/Application.js:70-74 | Parsing a status's name gives back that status. |
| ApplicationModel.NormalizeEmail | backend/models/Application.js:19-25 | The stored e-mail is the submitted one with its leading and trailing white space removed and each remaining character lower-cased; it is then already trimmed and already lower case. |
| ApplicationModel.NewApplication | backend/models/Application.js:3-81 | A built application carries the given ids and is pending at `now`. An absent gpa, other or cv is stored as "". The e-mail is in normal form. |
| ApplicationModel.NewApplicationConforms | backend/models/Application.js:14-60 | A built application passes the validators iff no required field is blank and the normalised e-mail has the pattern's shape. So a field of only spaces passes the route's check but fails at save time. |
| ApplicationModel.MissingRequired | backend/routes/applications.js:49-51 | The route's required-field check: one of the nine required raw values is empty. |
| ApplicationModel.EmailShape | backend/models/Application.js:24 | `/.+\@.+\..+/` matches somewhere in the string: an `@` and a later `.`, with at least one non-line-terminator character before the `@`, between them and after the `.`. |
| ApplicationModel.ApplicationConforms | backend/models/Application.js:14-60 | The save-time validators: every required string is non-empty and the e-mail has the pattern's shape. |
| Text.Trim | backend/models/Application.js:17 | The trimmed string is the slice of the input that starts right after its leading white space. Only white space is removed before and after it, and it neither starts nor ends with white space. |
| Text.Lower | backend/models/Application.js:23 | Lower-casing keeps the length and maps each character on its own: ASCII capitals to small letters, every other character to itself. |
| Text.LowerOfTrim | backend/models/Application.js:22-23 | Trimming then lower-casing gives the lower-cased part of the input between white space at either end. |
| Text.TrimBlank | backend/models/Application.js:17 | Trimming gives "" iff the string is all white space. |
| Text.TrimIdempotent | backend/models/Application.js:17 | Trimming twice is trimming once. |
| Text.TrimLowerCommute | backend/models/Application.js:22-23 | Lower-casing does not change what trimming removes. |
| Text.LowerIdempotent | backend/models/Application.js:23 | Lower-casing twice is lower-casing once. |
| InternshipModel.NewInternship | backend/models/Internship.js:3-35 | A new posting gets the given id, owner and owner name, whatever the body says. Absent status, applicants, featured, rating, colour and skills take the schema defaults. |
| InternshipModel.InternshipConforms | backend/models/Internship.js:4-32 | The save-time validators of a posting: the required strings are non-empty, and the work type and status are in their enums. |
| InternshipModel.Overlay | backend/routes/internships.js:100-104 | An update keeps the id and creation time. It sets the owner given, and takes `applicants` and `status` from the body when present. |
| InternshipModel.OverlayNothing | backend/routes/internships.js:100-104 | An empty body changes nothing. |
| InternshipModel.OverlayIdempotent | backend/routes/internships.js:100-104 | Applying the same body twice equals applying it once. |
| InternshipModel.OverlayEscapesEnum | backend/models/Internship.js:28-32 | Since the update runs no validators, it can give a posting a status outside the enum. |
| Access.ReadVerdict | backend/routes/applications.js:157-172 | A student reads only its own application; it fails with 500 exactly when the student record is gone. A company reads only applications to postings it owns, which must exist. Other roles are allowed. |
| Access.StatusVerdict | backend/routes/applications.js:196-202 | A status change is allowed iff the caller is a company that owns the referenced posting. The administrator is denied. A company whose posting is gone fails with 500. |
| Access.DeleteVerdict | backend/routes/applications.js:228-233 | A student deletes only its own application. A company deletes only applications to postings it owns, and a malformed company id fails with 400. Other roles are allowed. |
| Access.PostingCheckIgnoresRole | backend/routes/internships.js:96 | For every role but admin, the posting check gives the same answer as for a company with the same id. So a student whose token id equals a posting's `companyId` may update or delete it. |
| Access.CompanyIsolation | backend/routes/applications.js:165-169 | A company that does not own the posting is never allowed to read, change or delete its applications. |
| Access.StudentIsolation | backend/routes/applications.js:161-163 | A student is never allowed to read, change the status of, or delete another student's application. |
| Access.AdminReach | backend/routes/applications.js:161-170 | An administrator may read and delete any application and modify any posting, but may not change a status. |
| Seqs.Find | backend/routes/applications.js:53 | The lookup finds the first element with the key. There is none iff no element has it. |
| Seqs.Select | backend/routes/applications.js:136 | `$in` selection keeps exactly the elements whose key is in the set, with their multiplicities. |
| Seqs.Filter | backend/routes/internships.js:31 | A filter keeps exactly the elements that pass, with their multiplicities. |
| Seqs.SortDesc | backend/routes/applications.js:115 | Sorting by a key, largest first, yields a descending permutation of the input. |
| Seqs.Window | backend/routes/internships.js:33-34 | Skip and limit yield a contiguous slice starting at `skip`. A limit of 0 keeps everything, a negative limit keeps its absolute value, and nothing remains past the end. |
| Seqs.WindowSorted | backend/routes/internships.js:32-34 | A window of a sorted sequence is sorted. |
| Db.OwnedPostings | backend/routes/applications.js:133-134 | The set of ids of exactly the postings whose owner is the given company. |
| Db.Bump | backend/routes/applications.js:84 | `$inc` changes exactly the posting with that id by `delta`. A missing posting is a no-op. |
| Db.TallyIsSelection | backend/models/Internship.js:33 | The true value of a posting's `applicants` counter, which the routes maintain by `$inc` (`backend/routes/applications.js:84`, `236`): the number of applications referencing the posting is the length of their selection. |
| Db.InsertApplication | backend/routes/applications.js:83-84 | Storing a new, conforming application and bumping its posting by 1 keeps the store invariants and every posting's drift. |
| Db.RemoveApplication | backend/routes/applications.js:235-236 | Removing an application and bumping its posting by -1 keeps the invariants and every posting's drift. |
| Db.ReplaceApplication | backend/routes/applications.js:204-205 | Replacing an application by a conforming one with the same id, posting and student keeps the invariants and the drift. |
| Db.CountersAfterInsert | backend/routes/applications.js:83-84 | If every counter matched its number of applications, that still holds after an insert and `+1`. |
| Db.CountersAfterRemove | backend/routes/applications.js:235-236 | If every counter matched its number of applications, that still holds after a removal and `-1`. |
| Db.RemovePosting | backend/routes/internships.js:125 | Removing a posting keeps ids unique and the other counters correct. Its id is no longer found. |
| Db.AddPosting | backend/routes/internships.js:80 | Adding a posting with a new id keeps ids unique. If it starts without drift, every counter stays correct. |
| Db.ReplacePosting | backend/routes/internships.js:100-104 | Replacing a posting by one with the same id keeps ids unique, and keeps every drift when its counter is unchanged. |
| ApplicationRoutes.Screen | backend/routes/applications.js:49-65 | The checks of `POST /apply`, in order: 400 for a missing field, 400 for a malformed posting or student id, 404 for an unknown posting, 400 when that student already applied to that posting. An application proceeds iff it passes all of them, and then for exactly the cast posting and caller ids. |
| ApplicationRoutes.ScreenIgnoresRole | backend/routes/applications.js:33-65 | The screening gives the same answer for every role with the same id, so any principal whose checks pass reaches the save. |
| ApplicationRoutes.SecondApplicationRefused | backend/routes/applications.js:58-65 | Once an application is stored and counted, a second complete form from the same student for the same posting is refused as a duplicate. |
| ApplicationRoutes.Save | backend/routes/applications.js:83-84 | The save fails with 500 when the document does not validate or its id is taken, and then nothing changes. Otherwise exactly that application is appended and its posting's counter goes up by 1. Invariants and counters are kept. |
| ApplicationRoutes.Apply | backend/routes/applications.js:33-102 | Refusals write nothing. A 500 comes when the built document fails validation or its id is taken. On success exactly one pending application from the caller is added, and only its posting's counter goes up by 1. The invariants and the counters are kept. |
| ApplicationRoutes.ListForStudent | backend/routes/applications.js:107-122 | Non-students get 403. Otherwise the result holds exactly the caller's applications, newest first. A malformed caller id gives 500. |
| ApplicationRoutes.ListForCompany | backend/routes/applications.js:127-146 | Non-companies get 403. Otherwise the result holds exactly the applications to the caller's postings, newest first, and none to another company's posting. |
| ApplicationRoutes.Read | backend/routes/applications.js:151-180 | A malformed id gives 400 and an unknown one 404. Otherwise the answer follows `ReadVerdict`. A 200 to a student or a company is always one it owns. |
| ApplicationRoutes.UpdateStatus | backend/routes/applications.js:185-215 | The status value is checked first, then the id and existence, then `StatusVerdict`. Only the one application's status changes; counters and invariants are kept. |
| ApplicationRoutes.Delete | backend/routes/applications.js:220-246 | After the id and existence checks, `DeleteVerdict` decides. Success removes exactly that application and decrements its posting's counter. Counters and invariants are kept. |
| InternshipRoutes.TotalPages | backend/routes/internships.js:40 | The page count is `Math.ceil(total / limit)`: the least integer not below the quotient, for either sign of limit. It is null for a limit of 0. |
| InternshipRoutes.List | backend/routes/internships.js:9-47 | A negative skip gives 500. Otherwise the page holds only stored, active, matching postings, sorted newest first: the window at `(page - 1) * limit` of all matches. `total` counts all matches. Defaults are page 1 and limit 10. |
| InternshipRoutes.Wanted | backend/routes/internships.js:13-29 | The listing filter: an active posting; with a search term, one of title, company name and description matches it; a category or type other than "all" must be equal. |
| InternshipRoutes.ShownWanted | backend/routes/internships.js:13-34 | Every posting on a page is stored and passes the filter. |
| InternshipRoutes.PageOf | backend/routes/internships.js:33-40 | With a positive limit, every match appears on page `n / limit + 1` at position `n % limit`, and that page is within `totalPages`. |
| InternshipRoutes.GetOne | backend/routes/internships.js:50-60 | A malformed id gives 500 and an unknown one 404. A posting on file is returned with 200, and a 200 always returns the stored posting with that id. |
| InternshipRoutes.Create | backend/routes/internships.js:63-85 | Only a company with a record on file creates a posting; others get 403, a missing record 404. The new posting is owned by the caller and named after its record, and can then be found by its id. 201 comes iff the document validates and its id is new. For a company on file, every other outcome is 500. |
| InternshipRoutes.Update | backend/routes/internships.js:88-110 | 500 for a malformed id (path or body), 404 for an unknown posting, 403 unless the caller owns it or is admin. Otherwise the body is overlaid on that one posting. Drift is kept when the body does not set `applicants`. |
| InternshipRoutes.Delete | backend/routes/internships.js:113-130 | 500, 404, 403 as for update. Otherwise only that posting is removed and the applications stay. Counters stay correct. |
| InternshipRoutes.DeletedPostingOrphans | backend/routes/internships.js:125 | After a posting is deleted, no company may read its applications, and changing their status fails with 500. |
| AuthRoutes.SignupStudent | backend/routes/auth.js:19-34 | An e-mail already on file gives 400 with nothing inserted. 201 comes iff the e-mail is new, every field is present and the id is free; then exactly that student is added. |
| AuthRoutes.SignupCompany | backend/routes/auth.js:39-54 | The same, keyed on `companyEmail`. |
| AuthRoutes.SignupOnce | backend/routes/auth.js:19-34 | After a student signup answers 201, a second signup with the same form answers 400 "Student already exists", and the store holds only the first record. |
| AuthRoutes.CompanySignupOnce | backend/routes/auth.js:39-54 | The same for companies. |
| AuthRoutes.StudentLogin | backend/routes/auth.js:59-83 | An unknown e-mail and a wrong password give the same 400 "Invalid credentials". Login succeeds iff the e-mail is on file and the password matches; the token then carries that student's id, the role student and a one-day lifetime. |
| AuthRoutes.CompanyLogin | backend/routes/auth.js:88-112 | The same for companies, looking the submitted `email` up as `companyEmail`. The token carries the role company. |
| AuthRoutes.NoAdminTokens | backend/routes/auth.js:68 | No login issues the admin role, so the admin gate refuses every token a login signs. |
| AuthRoutes.LoginAfterSignup | backend/routes/auth.js:26-29 | A student who signs up with a new e-mail can log in with a matching password, and the token names the new record. |
| AuthRoutes.MeStudent | backend/routes/auth.js:117-129 | A non-student gets 403, a malformed id 500, a missing record 404. A student whose record is on file gets that record's profile, without password, and any profile returned is the caller's own. |
| AuthRoutes.MeCompany | backend/routes/auth.js:134-146 | The same for companies: a company on file gets its own profile. |
| AuthRoutes.StudentLoginThenMe | backend/routes/auth.js:68 | The claims a student login signs open `/me/student` and return the same profile. |
| AuthRoutes.CompanyLoginThenMe | backend/routes/auth.js:97 | The claims a company login signs open `/me/company` and return the same profile. |
| AuthRoutes.AdminGate | backend/routes/auth.js:11-14 | A refusal is 403 "Admin only". |
| AuthRoutes.AdminGatesAgree | backend/routes/auth.js:11-14 | The route file's gate and the middleware's gate let exactly the same requests through; only their messages differ. |

## Left out

- Signing and verifying tokens (`jwt.sign`, `jwt.verify`) are outside the model. Verification is a function parameter, and a login returns the claims and lifetime it would sign.
- bcrypt hashing and comparison are outside the model. Signup takes the stored hash as a parameter and login takes the comparison.
- The multer upload, its directory creation and its random file name are outside the model. The CV is an optional path string.
- The `$regex` search is a parameter `matches` of the listing. An invalid pattern, which would make the query throw, is not modelled.
- Query-string and body values that are not strings are not modelled: numbers as text, NaN, fractional page numbers, and operator objects in a JSON body.
- An empty string stands for an absent field. So the model does not tell `""` apart from a missing field, for example a `bcrypt.compare` on an undefined password, which throws.
- The `populate` projections are not modelled. Responses carry the stored record, and the model keeps only the null-populate failures.
- Concurrency between the duplicate check and the insert is not modelled; the model is sequential.
- Database and express wiring (`backend/server.js`) and the front end are not part of this model.
- Timestamps (`createdAt`, `appliedDate`) are a `now` parameter. New ids are a `newId` parameter.
- ApplicationModel.NormalizeEmail: only the ASCII capitals `A`-`Z` are folded to lower case. The `lowercase` setter uses `String.prototype.toLowerCase`, which folds all of Unicode, so an e-mail such as `"É@x.io"` is stored lower-cased by the code but kept as is by the model.
- Text.Lower: it folds only the ASCII capitals `A`-`Z` and keeps every other character, while `String.prototype.toLowerCase` also folds non-ASCII capitals such as `É`.
- InternshipRoutes.List: documents with equal `createdAt` keep their stored order, because `Seqs.SortDesc` is stable. MongoDB leaves the order of such ties unspecified; the model picks the stored order.
- InternshipRoutes.Create: the counter is preserved only when the body's `applicants` (default 0) equals the applications already referencing the new id, because the body may set the counter.
- InternshipRoutes.Update: drift is preserved only when the body does not carry `applicants`, because the body may overwrite the counter.
