/**
 * The hand-driven updates of App.tsx. Each computes the next document from
 * the cached one; when no document has been loaded yet (`!appData`) nothing
 * is written, which is `None` here.
 */
module Mutations {
  import opened Wrappers
  import opened Types

  /** `addContentLog`: appends the log and leaves the other collections alone. */
  function AddContentLog(app: Option<AppData>, log: ContentLog): (r: Option<AppData>)
    ensures r.Some? <==> app.Some?
    ensures r.Some? ==>
      && r.value.contentLogs == app.value.contentLogs + [log]
      && r.value.teachers == app.value.teachers
      && r.value.courses == app.value.courses
      && r.value.subjects == app.value.subjects
  {
    match app
    case None => None
    case Some(d) => Some(d.(contentLogs := d.contentLogs + [log]))
  }

  /** `handleAddTeacher`: appends a teacher with a fresh id and the given name. */
  function AddTeacher(app: Option<AppData>, name: string, freshId: string): (r: Option<AppData>)
    ensures r.Some? <==> app.Some?
    ensures r.Some? ==>
      && r.value.teachers == app.value.teachers + [Named(freshId, name)]
      && r.value.courses == app.value.courses
      && r.value.subjects == app.value.subjects
      && r.value.contentLogs == app.value.contentLogs
  {
    match app
    case None => None
    case Some(d) => Some(d.(teachers := d.teachers + [Named(freshId, name)]))
  }

  /** The teachers after renaming every teacher whose id is `teacherId`. */
  function Renamed(teachers: seq<Teacher>, teacherId: string, newName: string): (r: seq<Teacher>)
    ensures |r| == |teachers|
    ensures forall i :: 0 <= i < |r| ==> r[i].id == teachers[i].id
    ensures forall i :: 0 <= i < |r| && teachers[i].id == teacherId ==> r[i].name == newName
    ensures forall i :: 0 <= i < |r| && teachers[i].id != teacherId ==> r[i] == teachers[i]
  {
    seq(|teachers|, i requires 0 <= i < |teachers| =>
      if teachers[i].id == teacherId then teachers[i].(name := newName) else teachers[i])
  }

  /** `handleUpdateTeacher`: renames the teacher with the given id, in place. */
  function UpdateTeacher(app: Option<AppData>, teacherId: string, newName: string): (r: Option<AppData>)
    ensures r.Some? <==> app.Some?
    ensures r.Some? ==>
      && r.value.teachers == Renamed(app.value.teachers, teacherId, newName)
      && r.value.courses == app.value.courses
      && r.value.subjects == app.value.subjects
      && r.value.contentLogs == app.value.contentLogs
  {
    match app
    case None => None
    case Some(d) => Some(d.(teachers := Renamed(d.teachers, teacherId, newName)))
  }

  /** A rename keeps every id where it was, so ids stay unique. */
  lemma UpdateTeacherKeepsIds(d: AppData, teacherId: string, newName: string)
    ensures var e := UpdateTeacher(Some(d), teacherId, newName).value;
            Ids(e.teachers) == Ids(d.teachers) && AllIds(e) == AllIds(d)
            && (WellIdentified(d) ==> WellIdentified(e))
  {
    var e := UpdateTeacher(Some(d), teacherId, newName).value;
    assert forall i :: 0 <= i < |d.teachers| ==> e.teachers[i].id == d.teachers[i].id;
    assert Ids(e.teachers) == Ids(d.teachers);
  }

  /** Renaming twice to the same name is renaming once. */
  lemma UpdateTeacherIdempotent(d: AppData, teacherId: string, newName: string)
    ensures var once := UpdateTeacher(Some(d), teacherId, newName);
            UpdateTeacher(once, teacherId, newName) == once
  {
    var once := UpdateTeacher(Some(d), teacherId, newName).value;
    var twice := UpdateTeacher(Some(once), teacherId, newName).value;
    assert twice.teachers == once.teachers;
  }

  /** Adding a teacher with an unused id keeps ids unique. */
  lemma AddTeacherKeepsIdsUnique(d: AppData, name: string, freshId: string)
    requires WellIdentified(d) && freshId !in Ids(d.teachers)
    ensures WellIdentified(AddTeacher(Some(d), name, freshId).value)
  {
    var e := AddTeacher(Some(d), name, freshId).value;
    forall i, j | 0 <= i < j < |e.teachers| ensures e.teachers[i].id != e.teachers[j].id {
      if j == |d.teachers| {
        assert d.teachers[i].id in Ids(d.teachers);
      }
    }
  }

  /** Adding a log with an unused id keeps log ids unique. */
  lemma AddContentLogKeepsIdsUnique(d: AppData, log: ContentLog)
    requires WellIdentified(d) && log.id !in LogIds(d.contentLogs)
    ensures WellIdentified(AddContentLog(Some(d), log).value)
  {
    var e := AddContentLog(Some(d), log).value;
    forall i, j | 0 <= i < j < |e.contentLogs| ensures e.contentLogs[i].id != e.contentLogs[j].id {
      if j == |d.contentLogs| {
        assert d.contentLogs[i].id in LogIds(d.contentLogs);
      }
    }
  }
}
