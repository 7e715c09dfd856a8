/** The scope choice made before a PDF export (components/ExportModal.tsx). */
module ExportModal {
  import opened Wrappers
  import opened Types

  /** The report type selector: the complete report or one teacher's. */
  datatype ExportType = Complete | ByTeacher

  /** The teacher selector starts on the first teacher, or on nothing. */
  function InitialTeacherSelection(teachers: seq<Teacher>): (r: string)
    ensures |teachers| > 0 ==> r == teachers[0].id
    ensures |teachers| == 0 ==> r == ""
  {
    FirstId(teachers)
  }

  const NoTeacherMessage := "Por favor, seleccione un docente."

  /** `handleGenerateClick`: the configuration handed on, or the alert shown instead. */
  function GenerateClick(exportType: ExportType, selectedTeacherId: string): (r: Result<ExportConfig>)
    ensures exportType == Complete ==> r == Ok(AllLogs)
    ensures exportType == ByTeacher && selectedTeacherId == "" ==> r == Err(NoTeacherMessage)
    ensures exportType == ByTeacher && selectedTeacherId != "" ==> r == Ok(TeacherLogs(selectedTeacherId))
  {
    if exportType == ByTeacher && selectedTeacherId == "" then Err(NoTeacherMessage)
    else if exportType == Complete then Ok(AllLogs)
    else Ok(TeacherLogs(selectedTeacherId))
  }
}
