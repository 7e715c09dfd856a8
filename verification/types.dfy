/** The records of the application (types.ts) and the export configuration shared by App, ExportModal and PdfExport. */
module Types {
  import opened Wrappers

  /** The `{id, name}` shape shared by teachers, courses and subjects. */
  datatype Named = Named(id: string, name: string)

  type Teacher = Named
  type Course = Named
  type Subject = Named

  /**
   * One dated record of what was taught. `observations` is absent on
   * imported logs and present (possibly empty) on logs entered by hand.
   */
  datatype ContentLog = ContentLog(
    id: string,
    teacherId: string,
    courseId: string,
    subjectId: string,
    date: string,
    content: string,
    observations: Option<string>)

  /** The whole persisted document. */
  datatype AppData = AppData(
    teachers: seq<Teacher>,
    courses: seq<Course>,
    subjects: seq<Subject>,
    contentLogs: seq<ContentLog>)

  /** What the export modal hands to the PDF export: every log, or one teacher's. */
  datatype ExportConfig = AllLogs | TeacherLogs(teacherId: string)

  /** The ids of a collection of named entities. */
  function Ids(coll: seq<Named>): set<string> {
    set i | 0 <= i < |coll| :: coll[i].id
  }

  /** The ids of a sequence of logs. */
  function LogIds(logs: seq<ContentLog>): set<string> {
    set i | 0 <= i < |logs| :: logs[i].id
  }

  /** No id occurs twice in the collection. */
  predicate UniqueIds(coll: seq<Named>) {
    forall i, j :: 0 <= i < j < |coll| ==> coll[i].id != coll[j].id
  }

  predicate UniqueLogIds(logs: seq<ContentLog>) {
    forall i, j :: 0 <= i < j < |logs| ==> logs[i].id != logs[j].id
  }

  /** Every id is unique within its collection. */
  predicate WellIdentified(d: AppData) {
    UniqueIds(d.teachers) && UniqueIds(d.courses) && UniqueIds(d.subjects) && UniqueLogIds(d.contentLogs)
  }

  /** Every id in use anywhere in the document. */
  function AllIds(d: AppData): set<string> {
    Ids(d.teachers) + Ids(d.courses) + Ids(d.subjects) + LogIds(d.contentLogs)
  }

  /** A supply of ids that are pairwise distinct and none of which is in `used`. */
  predicate FreshIds(ids: seq<string>, used: set<string>) {
    && (forall i, j :: 0 <= i < j < |ids| ==> ids[i] != ids[j])
    && (forall i :: 0 <= i < |ids| ==> ids[i] !in used)
  }

  /** A supply fresh for a set of used ids is fresh for any part of it. */
  lemma FreshIdsSubset(ids: seq<string>, used: set<string>, fewer: set<string>)
    requires FreshIds(ids, used) && fewer <= used
    ensures FreshIds(ids, fewer)
  {
  }

  /** `coll[0]?.id || ''`: the id a selector starts on. */
  function FirstId(coll: seq<Named>): (r: string)
    ensures |coll| == 0 ==> r == ""
    ensures |coll| > 0 ==> r == coll[0].id
  {
    if |coll| > 0 then coll[0].id else ""
  }
}
