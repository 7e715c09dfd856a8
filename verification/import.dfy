/**
 * The row loop of the PDF import (App.tsx): every extracted row is
 * validated, its names resolved against the collections built so far, and
 * a log appended unless one with the same deduplication key exists already.
 */
module Import {
  import opened Wrappers
  import opened Text
  import opened Types
  import opened Resolver
  import opened Seqs

  /** One row of the extracted table; a field the extraction left out is the empty string. */
  datatype Row = Row(date: string, teacher: string, course: string, subject: string, content: string)

  /** Rows with an empty teacher, course, subject or content are dropped; the date is not checked. */
  predicate Skipped(row: Row) {
    row.teacher == "" || row.course == "" || row.subject == "" || row.content == ""
  }

  /** The rows the import acts on. */
  function Accepted(rows: seq<Row>): seq<Row> {
    Filter(rows, row => !Skipped(row))
  }

  /** The fields two logs must share to count as the same log: observations are not among them. */
  datatype DedupKey = DedupKey(date: string, teacherId: string, courseId: string, subjectId: string, content: string)

  function KeyOf(l: ContentLog): DedupKey {
    DedupKey(l.date, l.teacherId, l.courseId, l.subjectId, Trim(l.content))
  }

  /** The key a row has once its names are resolved to `t`, `c` and `s`. */
  function RowKey(row: Row, t: Named, c: Named, s: Named): DedupKey {
    DedupKey(row.date, t.id, c.id, s.id, Trim(row.content))
  }

  /** `newContentLogs.some(...)`: some log already carries key `k`. */
  predicate HasKey(logs: seq<ContentLog>, k: DedupKey) {
    exists i :: 0 <= i < |logs| && KeyOf(logs[i]) == k
  }

  /** The data after some rows, with the fresh ids not yet used. */
  datatype Step = Step(data: AppData, ids: seq<string>)

  /** `e` only appends to each collection of `d`. */
  predicate Grows(d: AppData, e: AppData) {
    && d.teachers <= e.teachers
    && d.courses <= e.courses
    && d.subjects <= e.subjects
    && d.contentLogs <= e.contentLogs
  }

  /** Logs appended to `logs` to reach `longer` have keys no earlier log shares. */
  predicate NewLogsDistinct(logs: seq<ContentLog>, longer: seq<ContentLog>)
    requires logs <= longer
  {
    forall i, j :: |logs| <= i < |longer| && 0 <= j < i ==> KeyOf(longer[j]) != KeyOf(longer[i])
  }

  /** Appending only entities of new names and logs of new keys. */
  predicate NoDuplicatesAdded(d: AppData, e: AppData)
    requires Grows(d, e)
  {
    && NewNamesDistinct(d.teachers, e.teachers)
    && NewNamesDistinct(d.courses, e.courses)
    && NewNamesDistinct(d.subjects, e.subjects)
    && NewLogsDistinct(d.contentLogs, e.contentLogs)
  }

  /** Every log appended to reach `e` was built from an accepted row of `rows`, without observations, and refers to entities of `e`. */
  predicate NewLogsFromRows(d: AppData, e: AppData, rows: seq<Row>)
    requires Grows(d, e)
  {
    forall i :: |d.contentLogs| <= i < |e.contentLogs| ==>
      && e.contentLogs[i].observations == None
      && e.contentLogs[i].teacherId in Ids(e.teachers)
      && e.contentLogs[i].courseId in Ids(e.courses)
      && e.contentLogs[i].subjectId in Ids(e.subjects)
      && exists k :: 0 <= k < |rows| && !Skipped(rows[k])
           && e.contentLogs[i].date == rows[k].date && e.contentLogs[i].content == rows[k].content
  }

  /**
   * The row needs nothing more in `d`: it is skipped, or its three names
   * resolve and a log with its key exists.
   */
  predicate Recorded(d: AppData, row: Row) {
    || Skipped(row)
    || match (Lookup(d.teachers, row.teacher), Lookup(d.courses, row.course), Lookup(d.subjects, row.subject))
       case (Some(t), Some(c), Some(s)) => HasKey(d.contentLogs, RowKey(row, t, c, s))
       case _ => false
  }

  /** `ids` ends with `rest`, having given away at most `n` ids. */
  predicate Consumed(ids: seq<string>, rest: seq<string>, n: nat) {
    |ids| - n <= |rest| <= |ids| && rest == ids[|ids| - |rest|..]
  }

  lemma ConsumedTrans(a: seq<string>, b: seq<string>, c: seq<string>, n: nat, m: nat)
    requires Consumed(a, b, n) && Consumed(b, c, m)
    ensures Consumed(a, c, n + m)
  {
    assert c == b[|b| - |c|..] == a[|a| - |b|..][|b| - |c|..];
  }

  /** One pass of the loop body on `row`. */
  function ImportRow(d: AppData, row: Row, ids: seq<string>): (r: Step)
    requires |ids| >= 4
    ensures Skipped(row) ==> r == Step(d, ids)
    ensures Grows(d, r.data)
    ensures |r.data.teachers| <= |d.teachers| + 1 && |r.data.courses| <= |d.courses| + 1
    ensures |r.data.subjects| <= |d.subjects| + 1 && |r.data.contentLogs| <= |d.contentLogs| + 1
    ensures Consumed(ids, r.ids, 4)
  {
    if Skipped(row) then Step(d, ids)
    else
      var t := FindOrCreate(d.teachers, row.teacher, ids);
      var c := FindOrCreate(d.courses, row.course, t.ids);
      var s := FindOrCreate(d.subjects, row.subject, c.ids);
      ConsumedTrans(ids, t.ids, c.ids, 1, 1);
      ConsumedTrans(ids, c.ids, s.ids, 2, 1);
      var key := RowKey(row, t.item, c.item, s.item);
      if HasKey(d.contentLogs, key) then
        Step(AppData(t.collection, c.collection, s.collection, d.contentLogs), s.ids)
      else
        var log := ContentLog(s.ids[0], t.item.id, c.item.id, s.item.id, row.date, row.content, None);
        ConsumedTrans(ids, s.ids, s.ids[1..], 3, 1);
        Step(AppData(t.collection, c.collection, s.collection, d.contentLogs + [log]), s.ids[1..])
  }

  /** After its pass, a row is recorded: its names resolve and a log with its key exists. */
  lemma ImportRowRecords(d: AppData, row: Row, ids: seq<string>)
    requires |ids| >= 4
    ensures Recorded(ImportRow(d, row, ids).data, row)
  {
    if !Skipped(row) {
      var t := FindOrCreate(d.teachers, row.teacher, ids);
      var c := FindOrCreate(d.courses, row.course, t.ids);
      var s := FindOrCreate(d.subjects, row.subject, c.ids);
      var key := RowKey(row, t.item, c.item, s.item);
      var e := ImportRow(d, row, ids).data;
      if !HasKey(d.contentLogs, key) {
        assert KeyOf(e.contentLogs[|d.contentLogs|]) == key;
      } else {
        var i :| 0 <= i < |d.contentLogs| && KeyOf(d.contentLogs[i]) == key;
        assert e.contentLogs[i] == d.contentLogs[i];
      }
    }
  }

  /** A pass creates an entity only for a name nothing matches, and a log only for a key nothing carries. */
  lemma ImportRowAddsNoDuplicates(d: AppData, row: Row, ids: seq<string>)
    requires |ids| >= 4
    ensures NoDuplicatesAdded(d, ImportRow(d, row, ids).data)
  {
    if !Skipped(row) {
      var t := FindOrCreate(d.teachers, row.teacher, ids);
      var c := FindOrCreate(d.courses, row.course, t.ids);
      var s := FindOrCreate(d.subjects, row.subject, c.ids);
      FindOrCreateAddsNewName(d.teachers, row.teacher, ids);
      FindOrCreateAddsNewName(d.courses, row.course, t.ids);
      FindOrCreateAddsNewName(d.subjects, row.subject, c.ids);
      var e := ImportRow(d, row, ids).data;
      assert e.teachers == t.collection && e.courses == c.collection && e.subjects == s.collection;
      var key := RowKey(row, t.item, c.item, s.item);
      if !HasKey(d.contentLogs, key) {
        var n := |d.contentLogs|;
        assert KeyOf(e.contentLogs[n]) == key;
        forall i, j | n <= i < |e.contentLogs| && 0 <= j < i
          ensures KeyOf(e.contentLogs[j]) != KeyOf(e.contentLogs[i])
        {
          assert i == n && e.contentLogs[j] == d.contentLogs[j];
        }
      }
    }
  }

  /** A log added by a pass carries the row's date and untrimmed content, no observations, and the resolved ids. */
  lemma ImportRowLogFromRow(d: AppData, row: Row, ids: seq<string>)
    requires |ids| >= 4
    ensures NewLogsFromRows(d, ImportRow(d, row, ids).data, [row])
  {
    if !Skipped(row) {
      var t := FindOrCreate(d.teachers, row.teacher, ids);
      var c := FindOrCreate(d.courses, row.course, t.ids);
      var s := FindOrCreate(d.subjects, row.subject, c.ids);
      assert t.item.id in Ids(t.collection) by { assert t.collection[Find(t.collection, row.teacher).value] == t.item; }
      assert c.item.id in Ids(c.collection) by { assert c.collection[Find(c.collection, row.course).value] == c.item; }
      assert s.item.id in Ids(s.collection) by { assert s.collection[Find(s.collection, row.subject).value] == s.item; }
      var e := ImportRow(d, row, ids).data;
      if |e.contentLogs| > |d.contentLogs| {
        var log := e.contentLogs[|d.contentLogs|];
        assert log.teacherId == t.item.id && log.courseId == c.item.id && log.subjectId == s.item.id;
        assert e.teachers == t.collection && e.courses == c.collection && e.subjects == s.collection;
        assert log.date == [row][0].date && log.content == [row][0].content;
      }
    }
  }

  /** The whole loop: the rows in order, each against the collections left by the ones before it. */
  function Import(d: AppData, rows: seq<Row>, ids: seq<string>): (r: Step)
    requires |ids| >= 4 * |rows|
    ensures Grows(d, r.data)
    ensures |r.data.teachers| <= |d.teachers| + |Accepted(rows)|
    ensures |r.data.courses| <= |d.courses| + |Accepted(rows)|
    ensures |r.data.subjects| <= |d.subjects| + |Accepted(rows)|
    ensures |r.data.contentLogs| <= |d.contentLogs| + |Accepted(rows)|
    ensures Consumed(ids, r.ids, 4 * |Accepted(rows)|)
    decreases |rows|
  {
    if |rows| == 0 then Step(d, ids)
    else
      var first := ImportRow(d, rows[0], ids);
      var r := Import(first.data, rows[1..], first.ids);
      assert |Accepted(rows)| == (if Skipped(rows[0]) then 0 else 1) + |Accepted(rows[1..])|;
      ConsumedTrans(ids, first.ids, r.ids, if Skipped(rows[0]) then 0 else 4, 4 * |Accepted(rows[1..])|);
      r
  }

  lemma IdsGrow(coll: seq<Named>, longer: seq<Named>)
    requires coll <= longer
    ensures Ids(coll) <= Ids(longer)
  {
    forall x | x in Ids(coll) ensures x in Ids(longer) {
      var i :| 0 <= i < |coll| && coll[i].id == x;
      assert longer[i] == coll[i];
    }
  }

  /** Once recorded, a row stays recorded however the collections are extended. */
  lemma RecordedPersists(d: AppData, e: AppData, row: Row)
    requires Grows(d, e) && Recorded(d, row)
    ensures Recorded(e, row)
  {
    if !Skipped(row) {
      FindInExtension(d.teachers, e.teachers, row.teacher);
      FindInExtension(d.courses, e.courses, row.course);
      FindInExtension(d.subjects, e.subjects, row.subject);
      var t := Lookup(d.teachers, row.teacher).value;
      var c := Lookup(d.courses, row.course).value;
      var s := Lookup(d.subjects, row.subject).value;
      var i :| 0 <= i < |d.contentLogs| && KeyOf(d.contentLogs[i]) == RowKey(row, t, c, s);
      assert e.contentLogs[i] == d.contentLogs[i];
    }
  }

  /** A recorded row's pass finds every name and the log, so it changes nothing and uses no id. */
  lemma RecordedRowIsNoOp(d: AppData, row: Row, ids: seq<string>)
    requires |ids| >= 4 && Recorded(d, row)
    ensures ImportRow(d, row, ids) == Step(d, ids)
  {
  }

  /** After the import every row of the batch is recorded in the result. */
  lemma {:induction false} ImportRecordsEveryRow(d: AppData, rows: seq<Row>, ids: seq<string>)
    requires |ids| >= 4 * |rows|
    ensures forall k :: 0 <= k < |rows| ==> Recorded(Import(d, rows, ids).data, rows[k])
    decreases |rows|
  {
    if |rows| > 0 {
      var first := ImportRow(d, rows[0], ids);
      var e := Import(d, rows, ids).data;
      ImportRowRecords(d, rows[0], ids);
      ImportRecordsEveryRow(first.data, rows[1..], first.ids);
      RecordedPersists(first.data, e, rows[0]);
      forall k | 1 <= k < |rows| ensures Recorded(e, rows[k]) {
        assert rows[k] == rows[1..][k - 1];
      }
    }
  }

  /** Importing into data in which every row is already recorded changes nothing. */
  lemma {:induction false} ImportOfRecordedIsNoOp(d: AppData, rows: seq<Row>, ids: seq<string>)
    requires |ids| >= 4 * |rows|
    requires forall k :: 0 <= k < |rows| ==> Recorded(d, rows[k])
    ensures Import(d, rows, ids) == Step(d, ids)
    decreases |rows|
  {
    if |rows| > 0 {
      RecordedRowIsNoOp(d, rows[0], ids);
      forall k | 0 <= k < |rows[1..]| ensures Recorded(d, rows[1..][k]) {
        assert rows[1..][k] == rows[k + 1];
      }
      ImportOfRecordedIsNoOp(d, rows[1..], ids);
    }
  }

  /** Importing the same batch a second time adds no teacher, course, subject or log, and uses no id. */
  lemma ReimportIsNoOp(d: AppData, rows: seq<Row>, ids: seq<string>, moreIds: seq<string>)
    requires |ids| >= 4 * |rows| && |moreIds| >= 4 * |rows|
    ensures var once := Import(d, rows, ids).data;
            Import(once, rows, moreIds) == Step(once, moreIds)
  {
    ImportRecordsEveryRow(d, rows, ids);
    ImportOfRecordedIsNoOp(Import(d, rows, ids).data, rows, moreIds);
  }

  lemma NoDuplicatesAddedTrans(a: AppData, b: AppData, c: AppData)
    requires Grows(a, b) && Grows(b, c)
    requires NoDuplicatesAdded(a, b) && NoDuplicatesAdded(b, c)
    ensures Grows(a, c) && NoDuplicatesAdded(a, c)
  {
    NewNamesDistinctTrans(a.teachers, b.teachers, c.teachers);
    NewNamesDistinctTrans(a.courses, b.courses, c.courses);
    NewNamesDistinctTrans(a.subjects, b.subjects, c.subjects);
    forall i, j | |a.contentLogs| <= i < |c.contentLogs| && 0 <= j < i
      ensures KeyOf(c.contentLogs[j]) != KeyOf(c.contentLogs[i])
    {
      if i < |b.contentLogs| {
        assert c.contentLogs[i] == b.contentLogs[i] && c.contentLogs[j] == b.contentLogs[j];
      }
    }
  }

  /**
   * A batch creates no two entities of one kind with the same name up to case
   * and white space, none matching an existing one, and appends no log whose
   * key an existing or earlier log of the batch carries.
   */
  lemma {:induction false} ImportAddsNoDuplicates(d: AppData, rows: seq<Row>, ids: seq<string>)
    requires |ids| >= 4 * |rows|
    ensures NoDuplicatesAdded(d, Import(d, rows, ids).data)
    decreases |rows|
  {
    if |rows| > 0 {
      var first := ImportRow(d, rows[0], ids);
      ImportRowAddsNoDuplicates(d, rows[0], ids);
      ImportAddsNoDuplicates(first.data, rows[1..], first.ids);
      NoDuplicatesAddedTrans(d, first.data, Import(d, rows, ids).data);
    }
  }

  /** Logs traced to `row` on one step and to `rest` on the next are traced to the whole batch. */
  lemma NewLogsFromRowsTrans(a: AppData, b: AppData, c: AppData, row: Row, rest: seq<Row>)
    requires Grows(a, b) && Grows(b, c)
    requires NewLogsFromRows(a, b, [row]) && NewLogsFromRows(b, c, rest)
    ensures NewLogsFromRows(a, c, [row] + rest)
  {
    var rows := [row] + rest;
    IdsGrow(b.teachers, c.teachers);
    IdsGrow(b.courses, c.courses);
    IdsGrow(b.subjects, c.subjects);
    forall i | |a.contentLogs| <= i < |c.contentLogs|
      ensures && c.contentLogs[i].observations == None
              && c.contentLogs[i].teacherId in Ids(c.teachers)
              && c.contentLogs[i].courseId in Ids(c.courses)
              && c.contentLogs[i].subjectId in Ids(c.subjects)
              && exists k :: 0 <= k < |rows| && !Skipped(rows[k])
                   && c.contentLogs[i].date == rows[k].date && c.contentLogs[i].content == rows[k].content
    {
      if i < |b.contentLogs| {
        assert c.contentLogs[i] == b.contentLogs[i];
        assert rows[0] == [row][0];
      } else {
        var k :| 0 <= k < |rest| && !Skipped(rest[k])
                 && c.contentLogs[i].date == rest[k].date && c.contentLogs[i].content == rest[k].content;
        assert rows[k + 1] == rest[k];
      }
    }
  }

  /** Every log a batch appends comes from one of its accepted rows and refers to entities of the result. */
  lemma {:induction false} ImportLogsFromRows(d: AppData, rows: seq<Row>, ids: seq<string>)
    requires |ids| >= 4 * |rows|
    ensures NewLogsFromRows(d, Import(d, rows, ids).data, rows)
    decreases |rows|
  {
    if |rows| > 0 {
      var first := ImportRow(d, rows[0], ids);
      ImportRowLogFromRow(d, rows[0], ids);
      ImportLogsFromRows(first.data, rows[1..], first.ids);
      assert rows == [rows[0]] + rows[1..];
      NewLogsFromRowsTrans(d, first.data, Import(first.data, rows[1..], first.ids).data, rows[0], rows[1..]);
    }
  }

  /** Dropped rows influence nothing: importing a batch equals importing only its accepted rows. */
  lemma {:induction false} SkippedRowsChangeNothing(d: AppData, rows: seq<Row>, ids: seq<string>)
    requires |ids| >= 4 * |rows|
    ensures |Accepted(rows)| <= |rows|
    ensures Import(d, rows, ids) == Import(d, Accepted(rows), ids)
    decreases |rows|
  {
    if |rows| > 0 {
      var first := ImportRow(d, rows[0], ids);
      SkippedRowsChangeNothing(first.data, rows[1..], first.ids);
      if Skipped(rows[0]) {
        assert Accepted(rows) == Accepted(rows[1..]);
      } else {
        var acc := Accepted(rows);
        assert acc == [rows[0]] + Accepted(rows[1..]);
        assert acc[0] == rows[0] && acc[1..] == Accepted(rows[1..]);
      }
    }
  }

  /** Appending a log that carries the next fresh id keeps log ids unique and the rest of the supply fresh. */
  lemma AppendFreshLog(logs: seq<ContentLog>, log: ContentLog, ids: seq<string>, others: set<string>)
    requires |ids| > 0 && log.id == ids[0]
    requires UniqueLogIds(logs) && FreshIds(ids, LogIds(logs) + others)
    ensures UniqueLogIds(logs + [log]) && FreshIds(ids[1..], LogIds(logs + [log]) + others)
  {
    var longer := logs + [log];
    assert LogIds(longer) == LogIds(logs) + {ids[0]} by {
      assert forall j :: 0 <= j < |logs| ==> longer[j] == logs[j];
      assert longer[|logs|] == log;
    }
    forall i, j | 0 <= i < j < |longer| ensures longer[i].id != longer[j].id {
      if j == |logs| {
        assert logs[i].id in LogIds(logs);
      }
    }
    forall i | 0 <= i < |ids[1..]| ensures ids[1..][i] !in LogIds(longer) + others {
      assert ids[1..][i] == ids[i + 1];
    }
  }

  /** Appending a log with the next fresh id keeps the whole document well identified. */
  lemma AppendFreshLogToData(e: AppData, log: ContentLog, ids: seq<string>)
    requires |ids| > 0 && log.id == ids[0]
    requires WellIdentified(e) && FreshIds(ids, AllIds(e))
    ensures var e' := e.(contentLogs := e.contentLogs + [log]);
            WellIdentified(e') && FreshIds(ids[1..], AllIds(e'))
  {
    var entityIds := Ids(e.teachers) + Ids(e.courses) + Ids(e.subjects);
    assert AllIds(e) == LogIds(e.contentLogs) + entityIds;
    AppendFreshLog(e.contentLogs, log, ids, entityIds);
    var e' := e.(contentLogs := e.contentLogs + [log]);
    assert AllIds(e') == LogIds(e'.contentLogs) + entityIds;
  }

  /** Resolving the three names of a row keeps the document well identified and the supply fresh. */
  lemma ResolveRowKeepsIdsUnique(d: AppData, row: Row, ids: seq<string>)
    requires |ids| >= 4
    requires WellIdentified(d) && FreshIds(ids, AllIds(d))
    ensures var t := FindOrCreate(d.teachers, row.teacher, ids);
            var c := FindOrCreate(d.courses, row.course, t.ids);
            var s := FindOrCreate(d.subjects, row.subject, c.ids);
            var e := AppData(t.collection, c.collection, s.collection, d.contentLogs);
            WellIdentified(e) && FreshIds(s.ids, AllIds(e)) && |s.ids| >= |ids| - 3
  {
    var t := FindOrCreate(d.teachers, row.teacher, ids);
    var c := FindOrCreate(d.courses, row.course, t.ids);
    var s := FindOrCreate(d.subjects, row.subject, c.ids);
    var courseIds, subjectIds, logIds := Ids(d.courses), Ids(d.subjects), LogIds(d.contentLogs);
    var tIds, cIds, sIds := Ids(t.collection), Ids(c.collection), Ids(s.collection);
    FreshIdsSubset(ids, AllIds(d), Ids(d.teachers) + (courseIds + subjectIds + logIds));
    FindOrCreateKeepsIdsFresh(d.teachers, row.teacher, ids, courseIds + subjectIds + logIds);
    FreshIdsSubset(t.ids, tIds + (courseIds + subjectIds + logIds), courseIds + (tIds + subjectIds + logIds));
    FindOrCreateKeepsIdsFresh(d.courses, row.course, t.ids, tIds + subjectIds + logIds);
    FreshIdsSubset(c.ids, cIds + (tIds + subjectIds + logIds), subjectIds + (tIds + cIds + logIds));
    FindOrCreateKeepsIdsFresh(d.subjects, row.subject, c.ids, tIds + cIds + logIds);
    FreshIdsSubset(s.ids, sIds + (tIds + cIds + logIds), AllIds(AppData(t.collection, c.collection, s.collection, d.contentLogs)));
  }

  /** A pass keeps every id unique within its collection and the unused supply fresh. */
  lemma ImportRowKeepsIdsUnique(d: AppData, row: Row, ids: seq<string>)
    requires |ids| >= 4
    requires WellIdentified(d) && FreshIds(ids, AllIds(d))
    ensures var r := ImportRow(d, row, ids);
            WellIdentified(r.data) && FreshIds(r.ids, AllIds(r.data))
  {
    if !Skipped(row) {
      var t := FindOrCreate(d.teachers, row.teacher, ids);
      var c := FindOrCreate(d.courses, row.course, t.ids);
      var s := FindOrCreate(d.subjects, row.subject, c.ids);
      var e := AppData(t.collection, c.collection, s.collection, d.contentLogs);
      ResolveRowKeepsIdsUnique(d, row, ids);
      if !HasKey(d.contentLogs, RowKey(row, t.item, c.item, s.item)) {
        var log := ContentLog(s.ids[0], t.item.id, c.item.id, s.item.id, row.date, row.content, None);
        AppendFreshLogToData(e, log, s.ids);
      }
    }
  }

  /** Given ids that are distinct and unused, an import keeps every id unique within its collection. */
  lemma {:induction false} ImportKeepsIdsUnique(d: AppData, rows: seq<Row>, ids: seq<string>)
    requires |ids| >= 4 * |rows|
    requires WellIdentified(d) && FreshIds(ids, AllIds(d))
    ensures var r := Import(d, rows, ids);
            WellIdentified(r.data) && FreshIds(r.ids, AllIds(r.data))
    decreases |rows|
  {
    if |rows| > 0 {
      var first := ImportRow(d, rows[0], ids);
      ImportRowKeepsIdsUnique(d, rows[0], ids);
      ImportKeepsIdsUnique(first.data, rows[1..], first.ids);
    }
  }

  /** The three collections a row names an entity of. */
  datatype Kind = TeacherKind | CourseKind | SubjectKind

  /** The collection of kind `k`. */
  function Entities(d: AppData, k: Kind): seq<Named> {
    match k
    case TeacherKind => d.teachers
    case CourseKind => d.courses
    case SubjectKind => d.subjects
  }

  /** The name a row gives for the entity of kind `k`. */
  function NameIn(row: Row, k: Kind): string {
    match k
    case TeacherKind => row.teacher
    case CourseKind => row.course
    case SubjectKind => row.subject
  }

  /**
   * In data that records two rows whose names for one kind of entity are
   * variants of each other, both resolve to one entity, created at most once.
   */
  lemma VariantNamesShareOneEntityIn(d: AppData, e: AppData, row1: Row, row2: Row, k: Kind)
    requires Grows(d, e) && NoDuplicatesAdded(d, e)
    requires !Skipped(row1) && Recorded(e, row1) && Recorded(e, row2)
    requires SameName(NameIn(row1, k), NameIn(row2, k))
    ensures Lookup(Entities(e, k), NameIn(row1, k)).Some?
    ensures Lookup(Entities(e, k), NameIn(row1, k)) == Lookup(Entities(e, k), NameIn(row2, k))
    ensures forall i, j :: |Entities(d, k)| <= i < j < |Entities(e, k)| ==>
      !(SameName(Entities(e, k)[i].name, NameIn(row1, k)) && SameName(Entities(e, k)[j].name, NameIn(row1, k)))
  {
    RecordedHasEntity(e, row1, k);
    var before, after, name := Entities(d, k), Entities(e, k), NameIn(row1, k);
    assert before <= after && NewNamesDistinct(before, after) by {
      match k
      case TeacherKind =>
      case CourseKind =>
      case SubjectKind =>
    }
    VariantsFindOneEntity(after, name, NameIn(row2, k));
    NewNamesAtMostOnce(before, after, name);
  }

  /** A recorded, accepted row names an entity of every kind that the data holds. */
  lemma RecordedHasEntity(e: AppData, row: Row, k: Kind)
    requires !Skipped(row) && Recorded(e, row)
    ensures Lookup(Entities(e, k), NameIn(row, k)).Some?
  {
    match k
    case TeacherKind =>
    case CourseKind =>
    case SubjectKind =>
  }

  /**
   * Two accepted rows of one batch whose names for a teacher, course or
   * subject differ only by case or surrounding white space end up with the
   * same entity, both are recorded, and the batch creates at most one
   * entity of that name.
   */
  lemma VariantNamesShareOneEntity(d: AppData, rows: seq<Row>, ids: seq<string>, k1: nat, k2: nat, k: Kind)
    requires |ids| >= 4 * |rows|
    requires k1 < |rows| && k2 < |rows| && !Skipped(rows[k1]) && !Skipped(rows[k2])
    requires SameName(NameIn(rows[k1], k), NameIn(rows[k2], k))
    ensures var e := Import(d, rows, ids).data;
      && Lookup(Entities(e, k), NameIn(rows[k1], k)).Some?
      && Lookup(Entities(e, k), NameIn(rows[k1], k)) == Lookup(Entities(e, k), NameIn(rows[k2], k))
      && Recorded(e, rows[k1]) && Recorded(e, rows[k2])
      && forall i, j :: |Entities(d, k)| <= i < j < |Entities(e, k)| ==>
           !(SameName(Entities(e, k)[i].name, NameIn(rows[k1], k)) && SameName(Entities(e, k)[j].name, NameIn(rows[k1], k)))
  {
    var e := Import(d, rows, ids).data;
    ImportRecordsEveryRow(d, rows, ids);
    ImportAddsNoDuplicates(d, rows, ids);
    VariantNamesShareOneEntityIn(d, e, rows[k1], rows[k2], k);
  }
}
