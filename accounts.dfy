/**
 * Student and company accounts as the account routes store and read them.
 * Password hashing and comparison (bcrypt) are outside the model: a record
 * keeps the hash it was given, and logins take the comparison as a parameter.
 */
module Accounts {
  import opened Ids

  datatype Student = Student(id: ObjectId, fullName: string, email: string, passwordHash: string, phone: string)

  datatype Company = Company(id: ObjectId, companyName: string, companyEmail: string, passwordHash: string, contactNumber: string)

  /** A student record as `/me/student` returns it: `select("-password")`. */
  datatype StudentProfile = StudentProfile(id: ObjectId, fullName: string, email: string, phone: string)

  datatype CompanyProfile = CompanyProfile(id: ObjectId, companyName: string, companyEmail: string, contactNumber: string)

  /** The signup fields of a student, `""` where absent. */
  datatype StudentForm = StudentForm(fullName: string, email: string, password: string, phone: string)

  datatype CompanyForm = CompanyForm(companyName: string, companyEmail: string, password: string, contactNumber: string)

  /** The Student schema's required-field validators. */
  predicate StudentFormConforms(f: StudentForm) {
    f.fullName != "" && f.email != "" && f.password != "" && f.phone != ""
  }

  predicate CompanyFormConforms(f: CompanyForm) {
    f.companyName != "" && f.companyEmail != "" && f.password != "" && f.contactNumber != ""
  }

  function StudentProfileOf(s: Student): (p: StudentProfile)
    ensures p.id == s.id && p.email == s.email
  {
    StudentProfile(s.id, s.fullName, s.email, s.phone)
  }

  function CompanyProfileOf(c: Company): (p: CompanyProfile)
    ensures p.id == c.id && p.companyEmail == c.companyEmail
  {
    CompanyProfile(c.id, c.companyName, c.companyEmail, c.contactNumber)
  }
}
