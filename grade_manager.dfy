/**
 * The grade table of the administration pages: the grades are filtered by a
 * search string, sorted by student or subject name and cut into pages of ten.
 * The sort header and pager are `Listing.TableControls`, created on the
 * "student" column.
 */
module GradeManager {
  import opened Wrappers
  import opened Text
  import opened Listing
  import opened Entities
  import Server

  datatype GradeEntry = GradeEntry(id: string, studentId: string, subjectId: string, value: Option<string>)

  /** The column the table starts sorted by. */
  const InitialColumn: string := "student"

  /** `fetchStudents`: the users whose role is "student". */
  function Students(users: seq<User>): (r: seq<User>)
    ensures forall i :: 0 <= i < |r| ==> r[i].role == Some("student")
  {
    Filter(users, (u: User) => u.role == Some("student"))
  }

  /** `students.find(s => s.id === grade.studentId)?.name || ''` */
  function StudentName(students: seq<User>, g: GradeEntry): string {
    NameOf(students, (u: User) => u.id, (u: User) => u.name, g.studentId)
  }

  /** `subjects.find(s => s.id === grade.subjectId)?.name || ''` */
  function SubjectName(subjects: seq<Server.Subject>, g: GradeEntry): string {
    NameOf(subjects, (x: Server.Subject) => x.id, (x: Server.Subject) => x.name, g.subjectId)
  }

  /** The search keeps a grade whose student name or subject name contains the search string. */
  predicate RowMatches(students: seq<User>, subjects: seq<Server.Subject>, g: GradeEntry, search: string) {
    ContainsCI(StudentName(students, g), search) || ContainsCI(SubjectName(subjects, g), search)
  }

  /** `filteredGrades` */
  function FilteredRows(rows: seq<GradeEntry>, students: seq<User>, subjects: seq<Server.Subject>, search: string): seq<GradeEntry> {
    Filter(rows, (g: GradeEntry) => RowMatches(students, subjects, g, search))
  }

  /** The lower-cased value a column sorts by; an unknown column ranks every grade equal. */
  function SortKey(students: seq<User>, subjects: seq<Server.Subject>, sortBy: string): GradeEntry -> string {
    if sortBy == "student" then (g: GradeEntry) => Lower(StudentName(students, g))
    else if sortBy == "subject" then (g: GradeEntry) => Lower(SubjectName(subjects, g))
    else (g: GradeEntry) => ""
  }

  /** `sortedGrades`: a stable sort of a copy, ascending exactly when `sortDir` is "asc". */
  function SortedRows(rows: seq<GradeEntry>, students: seq<User>, subjects: seq<Server.Subject>, st: SortState): seq<GradeEntry> {
    var key := SortKey(students, subjects, st.sortBy);
    KeyOrderIsStrictWeak(key, st.sortDir == "asc");
    SortBy(rows, KeyOrder(key, st.sortDir == "asc"))
  }

  /** The sorted rows of the filtered list. */
  function TableRows(rows: seq<GradeEntry>, students: seq<User>, subjects: seq<Server.Subject>, search: string, st: SortState): seq<GradeEntry> {
    SortedRows(FilteredRows(rows, students, subjects, search), students, subjects, st)
  }

  /** `paginatedGrades`: the rows shown on `page`. */
  function ShownRows(rows: seq<GradeEntry>, students: seq<User>, subjects: seq<Server.Subject>, search: string, st: SortState, page: int): (r: seq<GradeEntry>)
    ensures |r| <= PageSize
  {
    PageOf(TableRows(rows, students, subjects, search, st), page)
  }

  /** The search keeps exactly the matching grades, and the empty search keeps every grade. */
  lemma FilteredRowsExact(rows: seq<GradeEntry>, students: seq<User>, subjects: seq<Server.Subject>, search: string)
    ensures forall g :: g in FilteredRows(rows, students, subjects, search) <==> g in rows && RowMatches(students, subjects, g, search)
    ensures search == "" ==> FilteredRows(rows, students, subjects, search) == rows
  {
    var p := (g: GradeEntry) => RowMatches(students, subjects, g, search);
    FilterMembers(rows, p);
    if search == "" {
      forall i | 0 <= i < |rows| ensures p(rows[i]) {
        ContainsCIEmpty(StudentName(students, rows[i]));
      }
      FilterAll(rows, p);
    }
  }

  /** Sorting by student or subject yields a permutation ordered by the lower-cased name in the chosen direction. */
  lemma SortedRowsOrdered(rows: seq<GradeEntry>, students: seq<User>, subjects: seq<Server.Subject>, st: SortState)
    ensures multiset(SortedRows(rows, students, subjects, st)) == multiset(rows)
    ensures var r := SortedRows(rows, students, subjects, st);
            var key := SortKey(students, subjects, st.sortBy);
            forall i, j :: 0 <= i < j < |r| ==>
              if st.sortDir == "asc" then !Less(key(r[j]), key(r[i])) else !Less(key(r[i]), key(r[j]))
  {
    var key := SortKey(students, subjects, st.sortBy);
    var r := SortedRows(rows, students, subjects, st);
    assert Sorted(r, KeyOrder(key, st.sortDir == "asc"));
  }

  /** An unknown column leaves the order of the grades as it is. */
  lemma UnknownColumnKeepsOrder(rows: seq<GradeEntry>, students: seq<User>, subjects: seq<Server.Subject>, st: SortState)
    requires st.sortBy != "student" && st.sortBy != "subject"
    ensures SortedRows(rows, students, subjects, st) == rows
  {
    var lt := KeyOrder(SortKey(students, subjects, st.sortBy), st.sortDir == "asc");
    KeyOrderIsStrictWeak(SortKey(students, subjects, st.sortBy), st.sortDir == "asc");
    forall a, b ensures !lt(a, b) {
      LessIrreflexive("");
    }
    SortByAllEqual(rows, lt);
  }

  /** Pages 1 .. totalPages, one after the other, are the whole sorted table. */
  lemma PagesCoverTable(rows: seq<GradeEntry>, students: seq<User>, subjects: seq<Server.Subject>, search: string, st: SortState)
    ensures var t := TableRows(rows, students, subjects, search, st);
            Pages(t, TotalPages(|t|)) == t
  {
    PagesPartition(TableRows(rows, students, subjects, search, st));
  }
}
