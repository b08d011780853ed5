/**
 * The dialog that adds a student to a subject: the candidates are the users
 * with the student role who are not yet enrolled, narrowed by a search over
 * name and e-mail; the submit guard needs a selected student and a subject;
 * closing the dialog empties it.
 */
module AddStudentModal {
  import opened Wrappers
  import opened Text
  import opened Listing
  import opened Entities
  import opened Server

  predicate IsCandidate(u: User, subject: Option<Subject>) {
    u.role == Some("student") && (subject.None? || (subject.value.students.Some? && !Enrolled(subject.value.students.value, u.id)))
  }

  /**
   * `users.filter(u => u.role === 'student' && !subject?.students.some(s => s.id === u.id))`.
   * Without a subject every student qualifies; a subject without a `students`
   * list makes the filter throw (None), as soon as it reaches one student.
   */
  function Candidates(users: seq<User>, subject: Option<Subject>): Option<seq<User>> {
    var students := Filter(users, (u: User) => u.role == Some("student"));
    if subject.Some? && subject.value.students.None? then
      if students == [] then Some([]) else None
    else Some(Filter(users, (u: User) => IsCandidate(u, subject)))
  }

  /** The candidates are exactly the students not enrolled in the subject; only a subject without a list fails. */
  lemma CandidatesExact(users: seq<User>, subject: Option<Subject>)
    ensures Candidates(users, subject).None? <==>
              subject.Some? && subject.value.students.None? && exists u :: u in users && u.role == Some("student")
    ensures Candidates(users, subject).Some? ==>
              forall u :: u in Candidates(users, subject).value <==>
                (u in users && u.role == Some("student")
                 && (subject.None? || subject.value.students.None? || !Enrolled(subject.value.students.value, u.id)))
  {
    var p := (u: User) => u.role == Some("student");
    FilterMembers(users, p);
    if subject.Some? && subject.value.students.None? {
      if Filter(users, p) != [] {
        assert Filter(users, p)[0] in Filter(users, p);
      }
    } else {
      FilterMembers(users, (u: User) => IsCandidate(u, subject));
    }
  }

  /** A student fails the search when the name is missing, or it does not match and the e-mail is missing. */
  predicate Throws(s: User, term: string) {
    s.name.None? || (!ContainsCI(s.name.value, term) && s.email.None?)
  }

  /** `student.name.toLowerCase().includes(q) || student.email.toLowerCase().includes(q)`, when it does not throw. */
  predicate Matches(s: User, term: string)
    requires !Throws(s, term)
  {
    ContainsCI(s.name.value, term) || ContainsCI(s.email.value, term)
  }

  /** `filteredStudents`: None when the filter throws on some student. */
  function FilteredStudents(students: seq<User>, term: string): Option<seq<User>> {
    if students == [] then Some([])
    else if Throws(students[0], term) then None
    else
      match FilteredStudents(students[1..], term)
      case None => None
      case Some(rest) => Some(if Matches(students[0], term) then [students[0]] + rest else rest)
  }

  /** The search fails exactly when some student fails it, and it otherwise keeps exactly the matches. */
  lemma {:induction false} FilteredStudentsExact(students: seq<User>, term: string)
    ensures FilteredStudents(students, term).None? <==> exists i :: 0 <= i < |students| && Throws(students[i], term)
    ensures FilteredStudents(students, term).Some? ==>
              forall s :: s in FilteredStudents(students, term).value <==> s in students && !Throws(s, term) && Matches(s, term)
  {
    if students != [] {
      FilteredStudentsExact(students[1..], term);
      assert forall i :: 1 <= i < |students| ==> students[i] == students[1..][i - 1];
      assert forall s :: s in students <==> s == students[0] || s in students[1..];
    }
  }

  /** The dialog's state; `isOpen` and `subject` stay props. */
  class AddStudentView {
    var allStudents: seq<User>
    var searchTerm: string
    var selectedStudentId: string
    var loading: bool
    var adding: bool

    constructor ()
      ensures allStudents == [] && searchTerm == "" && selectedStudentId == "" && loading && !adding
    {
      allStudents := [];
      searchTerm := "";
      selectedStudentId := "";
      loading := true;
      adding := false;
    }

    /** The effect on opening: the candidates from the loaded users; a failed load or a throwing filter keeps the old list. */
    method OnOpen(loaded: Option<seq<User>>, subject: Option<Subject>)
      modifies this
      ensures loaded.Some? && Candidates(loaded.value, subject).Some? ==> allStudents == Candidates(loaded.value, subject).value
      ensures !(loaded.Some? && Candidates(loaded.value, subject).Some?) ==> allStudents == old(allStudents)
      ensures !loading
      ensures searchTerm == old(searchTerm) && selectedStudentId == old(selectedStudentId) && adding == old(adding)
    {
      loading := true;
      if loaded.Some? {
        var candidates := Candidates(loaded.value, subject);
        if candidates.Some? {
          allStudents := candidates.value;
        }
      }
      loading := false;
    }

    /** The effect on closing: search, selection and list are emptied. */
    method OnClose()
      modifies this
      ensures searchTerm == "" && selectedStudentId == "" && allStudents == []
      ensures loading == old(loading) && adding == old(adding)
    {
      searchTerm := "";
      selectedStudentId := "";
      allStudents := [];
    }

    method SetSearch(term: string)
      modifies this
      ensures searchTerm == term
      ensures allStudents == old(allStudents) && selectedStudentId == old(selectedStudentId)
      ensures loading == old(loading) && adding == old(adding)
    {
      searchTerm := term;
    }

    method Select(id: string)
      modifies this
      ensures selectedStudentId == id
      ensures allStudents == old(allStudents) && searchTerm == old(searchTerm)
      ensures loading == old(loading) && adding == old(adding)
    {
      selectedStudentId := id;
    }

    /** `handleAddStudent`: calls `onAddStudent(subject.id, selectedStudentId)` only with a selection and a subject. */
    method HandleAddStudent(subject: Option<Subject>) returns (call: Option<(string, string)>)
      modifies this
      ensures call.Some? <==> selectedStudentId != "" && subject.Some?
      ensures call.Some? ==> call.value == (subject.value.id, selectedStudentId)
      ensures adding == if call.Some? then false else old(adding)
      ensures allStudents == old(allStudents) && searchTerm == old(searchTerm)
      ensures selectedStudentId == old(selectedStudentId) && loading == old(loading)
    {
      if selectedStudentId == "" || subject.None? {
        return None;
      }
      adding := true;
      call := Some((subject.value.id, selectedStudentId));
      adding := false;
    }
  }
}
