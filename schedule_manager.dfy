/**
 * The schedule table of the administration pages: the schedules are filtered
 * by a search string, sorted by the chosen column and cut into pages of ten.
 * The sort header and pager are `Listing.TableControls`, created on the
 * "subject" column.
 */
module ScheduleManager {
  import opened Wrappers
  import opened Text
  import opened Listing
  import opened Entities
  import Server

  datatype Schedule = Schedule(id: string, subjectId: string, teacherId: string, day: Option<string>, time: Option<string>)

  /** The column the table starts sorted by. */
  const InitialColumn: string := "subject"

  /** `fetchTeachers`: the users whose role is "teacher". */
  function Teachers(users: seq<User>): (r: seq<User>)
    ensures forall i :: 0 <= i < |r| ==> r[i].role == Some("teacher")
  {
    Filter(users, (u: User) => u.role == Some("teacher"))
  }

  /** `subjects.find(s => s.id === schedule.subjectId)?.name || ''` */
  function SubjectName(subjects: seq<Server.Subject>, s: Schedule): string {
    NameOf(subjects, (x: Server.Subject) => x.id, (x: Server.Subject) => x.name, s.subjectId)
  }

  /** `teachers.find(t => t.id === schedule.teacherId)?.name || ''` */
  function TeacherName(teachers: seq<User>, s: Schedule): string {
    NameOf(teachers, (u: User) => u.id, (u: User) => u.name, s.teacherId)
  }

  /** The search keeps a row whose subject name, teacher name or day contains the search string. */
  predicate RowMatches(subjects: seq<Server.Subject>, teachers: seq<User>, s: Schedule, search: string) {
    ContainsCI(SubjectName(subjects, s), search)
    || ContainsCI(TeacherName(teachers, s), search)
    || ContainsCI(OrElse(s.day, ""), search)
  }

  /** `filteredSchedules` */
  function FilteredRows(rows: seq<Schedule>, subjects: seq<Server.Subject>, teachers: seq<User>, search: string): seq<Schedule> {
    Filter(rows, (s: Schedule) => RowMatches(subjects, teachers, s, search))
  }

  /** The lower-cased value a column sorts by; an unknown column ranks every row equal. */
  function SortKey(subjects: seq<Server.Subject>, teachers: seq<User>, sortBy: string): Schedule -> string {
    if sortBy == "subject" then (s: Schedule) => Lower(SubjectName(subjects, s))
    else if sortBy == "teacher" then (s: Schedule) => Lower(TeacherName(teachers, s))
    else if sortBy == "day" then (s: Schedule) => Lower(OrElse(s.day, ""))
    else (s: Schedule) => ""
  }

  /** `sortedSchedules`: a stable sort of a copy, ascending exactly when `sortDir` is "asc". */
  function SortedRows(rows: seq<Schedule>, subjects: seq<Server.Subject>, teachers: seq<User>, st: SortState): seq<Schedule> {
    var key := SortKey(subjects, teachers, st.sortBy);
    KeyOrderIsStrictWeak(key, st.sortDir == "asc");
    SortBy(rows, KeyOrder(key, st.sortDir == "asc"))
  }

  /** The sorted rows of the filtered list. */
  function TableRows(rows: seq<Schedule>, subjects: seq<Server.Subject>, teachers: seq<User>, search: string, st: SortState): seq<Schedule> {
    SortedRows(FilteredRows(rows, subjects, teachers, search), subjects, teachers, st)
  }

  /** `paginatedSchedules`: the rows shown on `page`. */
  function ShownRows(rows: seq<Schedule>, subjects: seq<Server.Subject>, teachers: seq<User>, search: string, st: SortState, page: int): (r: seq<Schedule>)
    ensures |r| <= PageSize
  {
    PageOf(TableRows(rows, subjects, teachers, search, st), page)
  }

  /** The search keeps exactly the matching rows, and the empty search keeps every row. */
  lemma FilteredRowsExact(rows: seq<Schedule>, subjects: seq<Server.Subject>, teachers: seq<User>, search: string)
    ensures forall s :: s in FilteredRows(rows, subjects, teachers, search) <==> s in rows && RowMatches(subjects, teachers, s, search)
    ensures search == "" ==> FilteredRows(rows, subjects, teachers, search) == rows
  {
    var p := (s: Schedule) => RowMatches(subjects, teachers, s, search);
    FilterMembers(rows, p);
    if search == "" {
      forall i | 0 <= i < |rows| ensures p(rows[i]) {
        ContainsCIEmpty(SubjectName(subjects, rows[i]));
      }
      FilterAll(rows, p);
    }
  }

  /** The sorted rows are a permutation of the rows, ordered by the column's key in the chosen direction. */
  lemma SortedRowsOrdered(rows: seq<Schedule>, subjects: seq<Server.Subject>, teachers: seq<User>, st: SortState)
    ensures multiset(SortedRows(rows, subjects, teachers, st)) == multiset(rows)
    ensures var r := SortedRows(rows, subjects, teachers, st);
            var key := SortKey(subjects, teachers, st.sortBy);
            forall i, j :: 0 <= i < j < |r| ==>
              if st.sortDir == "asc" then !Less(key(r[j]), key(r[i])) else !Less(key(r[i]), key(r[j]))
  {
    var key := SortKey(subjects, teachers, st.sortBy);
    var r := SortedRows(rows, subjects, teachers, st);
    assert Sorted(r, KeyOrder(key, st.sortDir == "asc"));
  }

  /** An unknown column leaves the order of the rows as it is. */
  lemma UnknownColumnKeepsOrder(rows: seq<Schedule>, subjects: seq<Server.Subject>, teachers: seq<User>, st: SortState)
    requires st.sortBy != "subject" && st.sortBy != "teacher" && st.sortBy != "day"
    ensures SortedRows(rows, subjects, teachers, st) == rows
  {
    var lt := KeyOrder(SortKey(subjects, teachers, st.sortBy), st.sortDir == "asc");
    KeyOrderIsStrictWeak(SortKey(subjects, teachers, st.sortBy), st.sortDir == "asc");
    forall a, b ensures !lt(a, b) {
      LessIrreflexive("");
    }
    SortByAllEqual(rows, lt);
  }

  /** Pages 1 .. totalPages, one after the other, are the whole sorted table. */
  lemma PagesCoverTable(rows: seq<Schedule>, subjects: seq<Server.Subject>, teachers: seq<User>, search: string, st: SortState)
    ensures var t := TableRows(rows, subjects, teachers, search, st);
            Pages(t, TotalPages(|t|)) == t
  {
    PagesPartition(TableRows(rows, subjects, teachers, search, st));
  }
}
