/**
 * The student page of the web client: the search box that narrows the
 * list of students shown, and the registration form, which is cleared
 * after the server accepts a registration.
 */
module StudentView {
  import opened Text
  import opened StudentFeeSchema
  import opened Ledger

  // ---- Search ----

  /** A student is shown when the lower-cased term occurs in its lower-cased name, email or standard. */
  predicate MatchesSearch(s: StudentFee, term: string)
  {
    var t := ToLower(term);
    Contains(ToLower(s.name), t) || Contains(ToLower(s.email), t) || Contains(ToLower(s.standard), t)
  }

  /** `a` is `b` with some elements removed, the rest in their order. */
  predicate IsSubsequence<T(==)>(a: seq<T>, b: seq<T>)
  {
    if a == [] then true
    else if b == [] then false
    else if a[0] == b[0] then IsSubsequence(a[1..], b[1..])
    else IsSubsequence(a, b[1..])
  }

  /** `filteredStudents`: the students matching the search term, in list order. */
  function FilterStudents(students: seq<StudentFee>, term: string): (shown: seq<StudentFee>)
    ensures |shown| <= |students|
    ensures forall s :: s in shown <==> s in students && MatchesSearch(s, term)
    ensures IsSubsequence(shown, students)
  {
    if students == [] then []
    else if MatchesSearch(students[0], term) then [students[0]] + FilterStudents(students[1..], term)
    else FilterStudents(students[1..], term)
  }

  /** A cleared search box shows every student, in order. */
  lemma {:induction false} EmptyTermShowsAll(students: seq<StudentFee>)
    ensures FilterStudents(students, "") == students
  {
    if students != [] {
      ContainsEmpty(ToLower(students[0].name));
      EmptyTermShowsAll(students[1..]);
    }
  }

  /** Two terms that differ only in letter case show the same students. */
  lemma {:induction false} SearchIgnoresCase(students: seq<StudentFee>, t1: string, t2: string)
    requires SameUpToCase(t1, t2)
    ensures FilterStudents(students, t1) == FilterStudents(students, t2)
  {
    if students != [] {
      assert MatchesSearch(students[0], t1) == MatchesSearch(students[0], t2);
      SearchIgnoresCase(students[1..], t1, t2);
    }
  }

  /** In particular, typing the term in capitals changes nothing. */
  lemma UpperCaseTermShowsSame(students: seq<StudentFee>, term: string)
    ensures FilterStudents(students, ToUpper(term)) == FilterStudents(students, term)
  {
    LowerOfUpper(term);
    SearchIgnoresCase(students, ToUpper(term), term);
  }

  /** Filtering the shown list again by the same term shows the same list. */
  lemma {:induction false} FilterIdempotent(students: seq<StudentFee>, term: string)
    ensures FilterStudents(FilterStudents(students, term), term) == FilterStudents(students, term)
  {
    if students != [] {
      FilterIdempotent(students[1..], term);
    }
  }

  // ---- Registration form ----

  /** The four fields of the registration form, all text. */
  datatype StudentForm = StudentForm(name: string, standard: string, email: string, totalFees: string)

  const EmptyForm: StudentForm := StudentForm("", "", "", "")

  /** The body the form posts to `POST /students`. */
  function FormRequest(f: StudentForm): (req: StudentRequest)
    ensures req.name == f.name && req.standard == f.standard && req.email == f.email
    ensures req.totalFees == FeeText(f.totalFees)
  {
    StudentRequest(f.name, f.standard, f.email, FeeText(f.totalFees))
  }

  /**
   * The form after the server answers a submission with `status`: cleared on
   * a 2xx answer, kept as typed otherwise so the user can correct it.
   */
  function FormAfterSubmit(f: StudentForm, status: int): (f': StudentForm)
    ensures 200 <= status < 300 ==> f' == EmptyForm
    ensures !(200 <= status < 300) ==> f' == f
  {
    if 200 <= status < 300 then EmptyForm else f
  }

  /**
   * After a successful registration the form holds nothing the server would
   * accept: submitting it again unchanged is refused for missing fields.
   */
  lemma ClearedFormIsRefused(f: StudentForm, status: int)
    requires 200 <= status < 300
    ensures MissingRequiredField(FormRequest(FormAfterSubmit(f, status)))
  {
  }
}
