/** The manual entry form (components/RegisterForm.tsx): log submission and teacher add/edit. */
module RegisterForm {
  import opened Wrappers
  import opened Text
  import opened Types
  import Mutations

  /** The teacher, course and subject the form's selectors point at. */
  datatype Selections = Selections(teacherId: string, courseId: string, subjectId: string)

  /** Each selector starts on the first entity of its collection, or on nothing. */
  function InitialSelections(teachers: seq<Teacher>, courses: seq<Course>, subjects: seq<Subject>): (r: Selections)
    ensures r.teacherId == (if |teachers| > 0 then teachers[0].id else "")
    ensures r.courseId == (if |courses| > 0 then courses[0].id else "")
    ensures r.subjectId == (if |subjects| > 0 then subjects[0].id else "")
  {
    Selections(FirstId(teachers), FirstId(courses), FirstId(subjects))
  }

  const MissingFieldsMessage := "Por favor, complete todos los campos obligatorios."

  /**
   * A form left on its initial selections submits exactly when every
   * collection has a first entity with a non-empty id and the date and
   * content are filled in; the log it then yields points at entities that
   * exist in the data.
   */
  lemma InitialSelectionsSubmit(d: AppData, date: string, content: string, observations: string, freshId: string)
    ensures var sel := InitialSelections(d.teachers, d.courses, d.subjects);
            var r := SubmitLog(sel, date, content, observations, freshId);
            && (r.Ok? <==>
                  && |d.teachers| > 0 && d.teachers[0].id != ""
                  && |d.courses| > 0 && d.courses[0].id != ""
                  && |d.subjects| > 0 && d.subjects[0].id != ""
                  && date != "" && content != "")
            && (r.Ok? ==>
                  && r.value.teacherId in Ids(d.teachers)
                  && r.value.courseId in Ids(d.courses)
                  && r.value.subjectId in Ids(d.subjects))
  {
    var sel := InitialSelections(d.teachers, d.courses, d.subjects);
    if SubmitLog(sel, date, content, observations, freshId).Ok? {
      assert d.teachers[0].id in Ids(d.teachers);
      assert d.courses[0].id in Ids(d.courses);
      assert d.subjects[0].id in Ids(d.subjects);
    }
  }

  /**
   * `handleSubmit`: a new log from the form, or the error shown when a
   * selection, the date or the content is empty. Content is not trimmed.
   */
  function SubmitLog(sel: Selections, date: string, content: string, observations: string, freshId: string): (r: Result<ContentLog>)
    ensures r.Err? <==> sel.teacherId == "" || sel.courseId == "" || sel.subjectId == "" || date == "" || content == ""
    ensures r.Err? ==> r.message == MissingFieldsMessage
    ensures r.Ok? ==>
      && r.value.id == freshId
      && r.value.teacherId == sel.teacherId && r.value.courseId == sel.courseId && r.value.subjectId == sel.subjectId
      && r.value.date == date && r.value.content == content
      && r.value.observations == Some(observations)
  {
    if sel.teacherId == "" || sel.courseId == "" || sel.subjectId == "" || date == "" || content == "" then
      Err(MissingFieldsMessage)
    else
      Ok(ContentLog(freshId, sel.teacherId, sel.courseId, sel.subjectId, date, content, Some(observations)))
  }

  /** Content made only of white space passes the form, unlike a blank teacher name. */
  lemma BlankContentIsAccepted(sel: Selections, date: string, content: string, observations: string, freshId: string)
    requires sel.teacherId != "" && sel.courseId != "" && sel.subjectId != "" && date != ""
    requires |content| > 0 && AllSpace(content)
    ensures SubmitLog(sel, date, content, observations, freshId).Ok?
    ensures SubmitLog(sel, date, content, observations, freshId).value.content == content
  {
  }

  /** A submitted log, once saved, is the one log appended to the document. */
  lemma SubmittedLogIsAppended(d: AppData, sel: Selections, date: string, content: string, observations: string, freshId: string)
    requires SubmitLog(sel, date, content, observations, freshId).Ok?
    ensures var log := SubmitLog(sel, date, content, observations, freshId).value;
            var e := Mutations.AddContentLog(Some(d), log).value;
            && e == d.(contentLogs := d.contentLogs + [log])
            && log == ContentLog(freshId, sel.teacherId, sel.courseId, sel.subjectId, date, content, Some(observations))
  {
  }

  /** What saving the teacher dialog asks of the application. */
  datatype TeacherAction = Rename(teacherId: string, name: string) | AddNew(name: string)

  const BlankNameMessage := "El nombre del docente no puede estar vacío."

  /**
   * `handleSaveTeacher`: rejects a name that is blank once trimmed;
   * otherwise renames the teacher being edited, or adds a new one, with the
   * trimmed name.
   */
  function SaveTeacher(editing: Option<Teacher>, nameInput: string): (r: Result<TeacherAction>)
    ensures r.Err? <==> AllSpace(nameInput)
    ensures r.Err? ==> r.message == BlankNameMessage
    ensures r.Ok? && editing.Some? ==> r.value == Rename(editing.value.id, Trim(nameInput))
    ensures r.Ok? && editing.None? ==> r.value == AddNew(Trim(nameInput))
    ensures r.Ok? ==> Trim(r.value.name) == r.value.name && r.value.name != ""
  {
    TrimShape(nameInput);
    TrimIdempotent(nameInput);
    var name := Trim(nameInput);
    if name == "" then Err(BlankNameMessage)
    else match editing
      case Some(t) => Ok(Rename(t.id, name))
      case None => Ok(AddNew(name))
  }

  /** The application's response to a teacher action: `handleUpdateTeacher` or `handleAddTeacher`. */
  function ApplyTeacherAction(app: Option<AppData>, action: TeacherAction, freshId: string): (r: Option<AppData>)
    ensures r.Some? <==> app.Some?
    ensures r.Some? ==>
      && r.value.contentLogs == app.value.contentLogs
      && r.value.courses == app.value.courses
      && r.value.subjects == app.value.subjects
    ensures r.Some? && action.AddNew? ==> r.value.teachers == app.value.teachers + [Named(freshId, action.name)]
    ensures r.Some? && action.Rename? ==> r.value.teachers == Mutations.Renamed(app.value.teachers, action.teacherId, action.name)
  {
    match action
    case Rename(id, name) => Mutations.UpdateTeacher(app, id, name)
    case AddNew(name) => Mutations.AddTeacher(app, name, freshId)
  }

  /**
   * Saving a new teacher appends one teacher named with the trimmed,
   * non-blank input; saving an edit renames the edited teacher to it and
   * keeps the number of teachers.
   */
  lemma SavedTeacherHasTrimmedName(d: AppData, editing: Option<Teacher>, nameInput: string, freshId: string)
    requires !AllSpace(nameInput)
    ensures var action := SaveTeacher(editing, nameInput).value;
            var e := ApplyTeacherAction(Some(d), action, freshId).value;
            && Trim(nameInput) != ""
            && (editing.None? ==> e.teachers == d.teachers + [Named(freshId, Trim(nameInput))])
            && (editing.Some? ==> |e.teachers| == |d.teachers|)
            && (editing.Some? ==>
                  forall i :: 0 <= i < |e.teachers| && d.teachers[i].id == editing.value.id ==>
                    e.teachers[i] == Named(editing.value.id, Trim(nameInput)))
            && (editing.Some? ==>
                  forall i :: 0 <= i < |e.teachers| && d.teachers[i].id != editing.value.id ==>
                    e.teachers[i] == d.teachers[i])
            && e.contentLogs == d.contentLogs && e.courses == d.courses && e.subjects == d.subjects
  {
  }
}
