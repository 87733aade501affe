/** The analytics methods of `Database` (backend/database_analytics.py):
    institution-wide totals with a per-class breakdown, and a student's
    attendance summary.

    As in `Database`, a query's stream is an input sequence and its `where`
    clauses are filters over it. A query that raises (a missing index, a lost
    connection) is `None`; both methods then return the empty dictionary. */
module DatabaseAnalytics {
  import opened Common
  import opened Dict
  import opened Database

  // ---- get_institution_analytics ----

  /** One value of `classes_map` */
  datatype ClassTotals = ClassTotals(totalSessions: nat, totalStudents: nat, totalEngaged: nat, avgEngagement: real)

  /** Lines 42-47: a class seen for the first time */
  const NoClass: ClassTotals := ClassTotals(0, 0, 0, 0.0)

  /** `session.get('class_name', 'Unknown')` */
  function ClassOf(s: Session): string {
    s.className.GetOr("Unknown")
  }

  /** Lines 49-51: add one session to its class */
  function AddToClass(c: ClassTotals, s: Session): ClassTotals {
    c.(totalSessions := c.totalSessions + 1,
       totalStudents := c.totalStudents + FacesIn(s),
       totalEngaged := c.totalEngaged + EngagedIn(s))
  }

  /** `classes_map` after the first loop has seen `ss` */
  function ClassesMap(ss: seq<Session>): Dict<ClassTotals> {
    Tally(ss, ClassOf, NoClass, AddToClass)
  }

  /** Lines 55-57 for one class */
  function WithAverage(c: ClassTotals): ClassTotals {
    if c.totalStudents > 0 then c.(avgEngagement := Percentage(c.totalEngaged, c.totalStudents)) else c
  }

  /** `classes_map` after the second loop */
  function WithAverages(d: Dict<ClassTotals>): (r: Dict<ClassTotals>)
    ensures |r| == |d|
    ensures forall i :: 0 <= i < |d| ==> r[i] == Entry(d[i].key, WithAverage(d[i].value))
  {
    if d == [] then [] else [Entry(d[0].key, WithAverage(d[0].value))] + WithAverages(d[1..])
  }

  /** Lines 54-57: the second loop sets each class's average in place */
  method SetClassAverages(totals: Dict<ClassTotals>) returns (classes: Dict<ClassTotals>)
    ensures classes == WithAverages(totals)
  {
    classes := totals;
    var j := 0;
    while j < |classes|
      invariant 0 <= j <= |classes| == |totals|
      invariant forall k :: 0 <= k < j ==> classes[k] == Entry(totals[k].key, WithAverage(totals[k].value))
      invariant forall k :: j <= k < |classes| ==> classes[k] == totals[k]
    {
      var classData := classes[j].value;
      if classData.totalStudents > 0 {
        classData := classData.(avgEngagement := Percentage(classData.totalEngaged, classData.totalStudents));
      }
      classes := classes[j := Entry(classes[j].key, classData)];
      j := j + 1;
    }
  }

  /** What one more session of the stream adds to each running total */
  lemma InstitutionStep(stream: seq<Session>, i: nat)
    requires i < |stream|
    ensures stream[..i + 1] == stream[..i] + [stream[i]]
    ensures SumOf(stream[..i + 1], FacesIn) == SumOf(stream[..i], FacesIn) + FacesIn(stream[i])
    ensures SumOf(stream[..i + 1], EngagedIn) == SumOf(stream[..i], EngagedIn) + EngagedIn(stream[i])
    ensures SumOf(stream[..i + 1], DisengagedIn) == SumOf(stream[..i], DisengagedIn) + DisengagedIn(stream[i])
    ensures ClassesMap(stream[..i + 1])
         == Put(ClassesMap(stream[..i]), ClassOf(stream[i]), AddToClass(Get(ClassesMap(stream[..i]), ClassOf(stream[i]), NoClass), stream[i]))
  {
    var session := stream[i];
    assert stream[..i + 1] == stream[..i] + [session];
    SumOfSnoc(stream[..i], session, FacesIn);
    SumOfSnoc(stream[..i], session, EngagedIn);
    SumOfSnoc(stream[..i], session, DisengagedIn);
    TallySnoc(stream[..i], session, ClassOf, NoClass, AddToClass);
  }

  /** The dictionary `get_institution_analytics` returns; `Empty` is `{}` */
  datatype InstitutionReport =
    | Empty
    | InstitutionReport(
        totalSessions: nat,
        totalStudents: nat,
        totalEngaged: nat,
        totalDisengaged: nat,
        avgEngagementPercentage: real,
        classes: Dict<ClassTotals>,
        recentSessions: seq<Session>)

  /** The `where` clauses of lines 17-21 */
  predicate InInstitutionWindow(s: Session, institutionId: string, start: int) {
    s.institutionId == Some(institutionId) && s.timestamp.seconds >= start && s.status == Completed
  }

  function InstitutionQuery(collection: seq<Session>, institutionId: string, start: int): (ss: seq<Session>)
    ensures forall s :: s in ss <==> s in collection && InInstitutionWindow(s, institutionId, start)
  {
    if collection == [] then []
    else
      var ss := InstitutionQuery(collection[..|collection| - 1], institutionId, start);
      var last := collection[|collection| - 1];
      assert forall s :: s in collection <==> s in collection[..|collection| - 1] || s == last;
      if InInstitutionWindow(last, institutionId, start) then ss + [last] else ss
  }

  /** A session written by `create_session` and completed by
      `save_analysis_results` has no `institution_id`, so no institution's
      analytics ever count it */
  lemma UploadsOutsideInstitutions(metadata: Metadata, created: Instant, stats: FerModel.EngagementStats, completed: Instant,
                                   institutionId: string, start: int)
    ensures !InInstitutionWindow(NewSession(metadata, created), institutionId, start)
    ensures !InInstitutionWindow(Complete(NewSession(metadata, created), stats, completed), institutionId, start)
  {
  }

  /** `get_institution_analytics` (lines 12-75), with `now` for `datetime.utcnow()`;
      `collection` is None when the query raises */
  method GetInstitutionAnalytics(collection: Option<seq<Session>>, institutionId: string, now: Instant, days: int)
    returns (r: InstitutionReport)
    ensures collection.None? <==> r.Empty?
    ensures r.InstitutionReport? ==>
      var ss := InstitutionQuery(collection.value, institutionId, now.seconds - days * 86400);
      && r.totalSessions == |ss|
      && r.totalStudents == SumOf(ss, FacesIn)
      && r.totalEngaged == SumOf(ss, EngagedIn)
      && r.totalDisengaged == SumOf(ss, DisengagedIn)
      && r.avgEngagementPercentage == Percentage(r.totalEngaged, r.totalStudents)
      && r.classes == WithAverages(ClassesMap(ss))
      && r.recentSessions == ss[..Min(10, |ss|)]
  {
    if collection.None? {
      return Empty;
    }
    var start := now.seconds - days * 86400;
    var stream := InstitutionQuery(collection.value, institutionId, start);
    var sessions, totalStudents, totalEngaged, totalDisengaged, totals := Accumulate(stream);
    var classes := SetClassAverages(totals);
    var avg := Percentage(totalEngaged, totalStudents);
    return InstitutionReport(|sessions|, totalStudents, totalEngaged, totalDisengaged, avg, classes,
                             sessions[..Min(10, |sessions|)]);
  }

  /** The loop of lines 28-51 over the query's stream */
  method Accumulate(stream: seq<Session>)
    returns (sessions: seq<Session>, totalStudents: nat, totalEngaged: nat, totalDisengaged: nat, classes: Dict<ClassTotals>)
    ensures sessions == stream
    ensures totalStudents == SumOf(stream, FacesIn)
    ensures totalEngaged == SumOf(stream, EngagedIn)
    ensures totalDisengaged == SumOf(stream, DisengagedIn)
    ensures classes == ClassesMap(stream)
  {
    sessions := [];
    totalStudents, totalEngaged, totalDisengaged := 0, 0, 0;
    classes := [];
    var i := 0;
    while i < |stream|
      invariant 0 <= i <= |stream|
      invariant sessions == stream[..i]
      invariant totalStudents == SumOf(stream[..i], FacesIn)
      invariant totalEngaged == SumOf(stream[..i], EngagedIn)
      invariant totalDisengaged == SumOf(stream[..i], DisengagedIn)
      invariant classes == ClassesMap(stream[..i])
    {
      var session := stream[i];
      InstitutionStep(stream, i);
      sessions := sessions + [session];
      totalStudents := totalStudents + FacesIn(session);
      totalEngaged := totalEngaged + EngagedIn(session);
      totalDisengaged := totalDisengaged + DisengagedIn(session);
      var className := session.className.GetOr("Unknown");
      var entry := Get(classes, className, NoClass);
      entry := entry.(totalSessions := entry.totalSessions + 1);
      entry := entry.(totalStudents := entry.totalStudents + FacesIn(session));
      entry := entry.(totalEngaged := entry.totalEngaged + EngagedIn(session));
      classes := Put(classes, className, entry);
      i := i + 1;
    }
    assert stream[..|stream|] == stream;
  }

  /** The class entry `c` holds the sums of the sessions `ofClass` and their average */
  predicate ClassMatches(c: ClassTotals, ofClass: seq<Session>) {
    && c.totalSessions == |ofClass|
    && c.totalStudents == SumOf(ofClass, FacesIn)
    && c.totalEngaged == SumOf(ofClass, EngagedIn)
    && c.avgEngagement == Percentage(c.totalEngaged, c.totalStudents)
  }

  lemma {:induction false} FoldClass(ss: seq<Session>)
    ensures Fold(ss, NoClass, AddToClass).totalSessions == |ss|
    ensures Fold(ss, NoClass, AddToClass).totalStudents == SumOf(ss, FacesIn)
    ensures Fold(ss, NoClass, AddToClass).totalEngaged == SumOf(ss, EngagedIn)
    ensures Fold(ss, NoClass, AddToClass).avgEngagement == 0.0
  {
    if ss != [] {
      FoldClass(ss[..|ss| - 1]);
    }
  }

  lemma {:induction false} GetWithAverages(d: Dict<ClassTotals>, k: string)
    ensures Get(WithAverages(d), k, WithAverage(NoClass)) == WithAverage(Get(d, k, NoClass))
  {
    if d != [] {
      GetWithAverages(d[1..], k);
      assert WithAverages(d)[1..] == WithAverages(d[1..]);
    }
  }

  lemma {:induction false} KeysWithAverages(d: Dict<ClassTotals>)
    ensures Keys(WithAverages(d)) == Keys(d)
  {
    if d != [] {
      KeysWithAverages(d[1..]);
      assert WithAverages(d)[1..] == WithAverages(d[1..]);
    }
  }

  /** One entry per class name that occurs; a missing name counts as "Unknown" */
  lemma InstitutionClassKeys(ss: seq<Session>)
    ensures DistinctKeys(WithAverages(ClassesMap(ss)))
    ensures forall k :: k in Keys(WithAverages(ClassesMap(ss))) <==> exists i :: 0 <= i < |ss| && ss[i].className.GetOr("Unknown") == k
  {
    TallyKeys(ss, ClassOf, NoClass, AddToClass);
    KeysWithAverages(ClassesMap(ss));
    var d := WithAverages(ClassesMap(ss));
    forall i, j | 0 <= i < j < |d| ensures d[i].key != d[j].key {
      assert Keys(d)[i] == d[i].key && Keys(d)[j] == d[j].key;
    }
  }

  /** Each class entry sums exactly that class's sessions and holds their
      average engagement */
  lemma InstitutionClassEntries(ss: seq<Session>)
    ensures forall k :: ClassMatches(Get(WithAverages(ClassesMap(ss)), k, NoClass), Select(ss, ClassOf, k))
  {
    assert WithAverage(NoClass) == NoClass;
    forall k ensures ClassMatches(Get(WithAverages(ClassesMap(ss)), k, NoClass), Select(ss, ClassOf, k)) {
      ClassEntry(ss, k);
    }
  }

  lemma ClassEntry(ss: seq<Session>, k: string)
    ensures ClassMatches(Get(WithAverages(ClassesMap(ss)), k, NoClass), Select(ss, ClassOf, k))
  {
    TallyGet(ss, ClassOf, NoClass, AddToClass, k);
    FoldClass(Select(ss, ClassOf, k));
    GetWithAverages(ClassesMap(ss), k);
    assert WithAverage(NoClass) == NoClass;
  }

  function ClassSessions(c: ClassTotals): int { c.totalSessions }
  function ClassStudents(c: ClassTotals): int { c.totalStudents }
  function ClassEngaged(c: ClassTotals): int { c.totalEngaged }

  lemma {:induction false} TotalWithAverages(d: Dict<ClassTotals>, f: ClassTotals -> int)
    requires forall c :: f(WithAverage(c)) == f(c)
    ensures Total(WithAverages(d), f) == Total(d, f)
  {
    if d != [] {
      TotalWithAverages(d[1..], f);
      assert WithAverages(d)[1..] == WithAverages(d[1..]);
    }
  }

  /** The per-class session counts add up to the number of sessions, and the
      per-class students and engaged students to the overall totals */
  lemma InstitutionClassTotals(ss: seq<Session>)
    ensures Total(WithAverages(ClassesMap(ss)), ClassSessions) == |ss|
    ensures Total(WithAverages(ClassesMap(ss)), ClassStudents) == SumOf(ss, FacesIn)
    ensures Total(WithAverages(ClassesMap(ss)), ClassEngaged) == SumOf(ss, EngagedIn)
  {
    ClassTotalSessions(ss);
    ClassTotalStudents(ss);
    ClassTotalEngaged(ss);
  }

  lemma ClassTotalSessions(ss: seq<Session>)
    ensures Total(WithAverages(ClassesMap(ss)), ClassSessions) == |ss|
  {
    assert forall v, x :: ClassSessions(AddToClass(v, x)) == ClassSessions(v) + OneSession(x);
    TallyTotal(ss, ClassOf, NoClass, AddToClass, ClassSessions, OneSession);
    SumOfOnes(ss);
    TotalWithAverages(ClassesMap(ss), ClassSessions);
  }

  lemma ClassTotalStudents(ss: seq<Session>)
    ensures Total(WithAverages(ClassesMap(ss)), ClassStudents) == SumOf(ss, FacesIn)
  {
    assert forall v, x :: ClassStudents(AddToClass(v, x)) == ClassStudents(v) + FacesIn(x);
    TallyTotal(ss, ClassOf, NoClass, AddToClass, ClassStudents, FacesIn);
    TotalWithAverages(ClassesMap(ss), ClassStudents);
  }

  lemma ClassTotalEngaged(ss: seq<Session>)
    ensures Total(WithAverages(ClassesMap(ss)), ClassEngaged) == SumOf(ss, EngagedIn)
  {
    assert forall v, x :: ClassEngaged(AddToClass(v, x)) == ClassEngaged(v) + EngagedIn(x);
    TallyTotal(ss, ClassOf, NoClass, AddToClass, ClassEngaged, EngagedIn);
    TotalWithAverages(ClassesMap(ss), ClassEngaged);
  }

  // ---- get_student_attendance ----

  /** A document of `attendance_records` as the summary reads it */
  datatype AttendanceRecord = AttendanceRecord(id: string, wasPresent: bool, engagement: string)

  /** The fields of a `students` document the summary copies */
  datatype Student = Student(name: Option<string>, number: Option<string>)

  /** The dictionary `get_student_attendance` returns; `NoAttendance` is `{}` */
  datatype AttendanceReport =
    | NoAttendance
    | AttendanceReport(
        studentId: string,
        studentName: Option<string>,
        studentNumber: Option<string>,
        totalClasses: nat,
        presentCount: nat,
        attendancePercentage: real,
        engagementPercentage: real,
        records: seq<AttendanceRecord>)

  function CountPresent(rs: seq<AttendanceRecord>): (n: nat)
    ensures n <= |rs|
  {
    if rs == [] then 0 else CountPresent(rs[..|rs| - 1]) + if rs[|rs| - 1].wasPresent then 1 else 0
  }

  function CountEngaged(rs: seq<AttendanceRecord>): (n: nat)
    ensures n <= |rs|
  {
    if rs == [] then 0 else CountEngaged(rs[..|rs| - 1]) + if rs[|rs| - 1].engagement == "engaged" then 1 else 0
  }

  /** What one more record adds to each counter */
  lemma AttendanceStep(stream: seq<AttendanceRecord>, i: nat)
    requires i < |stream|
    ensures stream[..i + 1] == stream[..i] + [stream[i]]
    ensures CountPresent(stream[..i + 1]) == CountPresent(stream[..i]) + if stream[i].wasPresent then 1 else 0
    ensures CountEngaged(stream[..i + 1]) == CountEngaged(stream[..i]) + if stream[i].engagement == "engaged" then 1 else 0
  {
    assert stream[..i + 1][..i] == stream[..i];
  }

  /** `get_student_attendance` (lines 87-135): `student` is None when the
      student document does not exist, `records` None when the query raises */
  method GetStudentAttendance(studentId: string, student: Option<Student>, records: Option<seq<AttendanceRecord>>)
    returns (r: AttendanceReport)
    ensures r.NoAttendance? <==> student.None? || records.None?
    ensures r.AttendanceReport? ==>
      && r.studentId == studentId
      && r.studentName == student.value.name && r.studentNumber == student.value.number
      && r.records == records.value
      && r.totalClasses == |records.value|
      && r.presentCount == CountPresent(records.value)
      && r.attendancePercentage == Percentage(r.presentCount, r.totalClasses)
      && r.engagementPercentage == Percentage(CountEngaged(records.value), r.presentCount)
  {
    if student.None? || records.None? {
      return NoAttendance;
    }
    var stream := records.value;
    var collected: seq<AttendanceRecord> := [];
    var totalClasses: nat, presentCount: nat, engagedCount: nat := 0, 0, 0;
    var i := 0;
    while i < |stream|
      invariant 0 <= i <= |stream|
      invariant collected == stream[..i]
      invariant totalClasses == i
      invariant presentCount == CountPresent(stream[..i])
      invariant engagedCount == CountEngaged(stream[..i])
    {
      var record := stream[i];
      AttendanceStep(stream, i);
      collected := collected + [record];
      totalClasses := totalClasses + 1;
      if record.wasPresent {
        presentCount := presentCount + 1;
      }
      if record.engagement == "engaged" {
        engagedCount := engagedCount + 1;
      }
      i := i + 1;
    }
    assert stream[..|stream|] == stream;
    var attendance := Percentage(presentCount, totalClasses);
    var engagement := Percentage(engagedCount, presentCount);
    return AttendanceReport(studentId, student.value.name, student.value.number, totalClasses, presentCount,
                            attendance, engagement, collected);
  }

  /** Only present records marked engaged */
  predicate EngagedOnlyWhenPresent(rs: seq<AttendanceRecord>) {
    forall i :: 0 <= i < |rs| && rs[i].engagement == "engaged" ==> rs[i].wasPresent
  }

  /** The attendance percentage lies in [0, 100]; the engagement percentage
      does too when no absent record is marked engaged, since engaged records
      are counted whether or not the student was present */
  lemma {:induction false} AttendanceBounds(rs: seq<AttendanceRecord>)
    ensures 0.0 <= Percentage(CountPresent(rs), |rs|) <= 100.0
    ensures EngagedOnlyWhenPresent(rs) ==> CountEngaged(rs) <= CountPresent(rs)
    ensures EngagedOnlyWhenPresent(rs) ==> Percentage(CountEngaged(rs), CountPresent(rs)) <= 100.0
  {
    if rs != [] {
      var init := rs[..|rs| - 1];
      assert EngagedOnlyWhenPresent(rs) ==> EngagedOnlyWhenPresent(init) by {
        if EngagedOnlyWhenPresent(rs) {
          forall i | 0 <= i < |init| && init[i].engagement == "engaged" ensures init[i].wasPresent {
            assert init[i] == rs[i];
          }
        }
      }
      AttendanceBounds(init);
    }
  }

  /** Two absent records marked engaged and one present record give 200% */
  lemma EngagementCanExceedHundred()
    ensures var rs := [AttendanceRecord("a", false, "engaged"), AttendanceRecord("b", false, "engaged"),
                       AttendanceRecord("c", true, "unknown")];
      Percentage(CountEngaged(rs), CountPresent(rs)) == 200.0
  {
    var rs := [AttendanceRecord("a", false, "engaged"), AttendanceRecord("b", false, "engaged"),
               AttendanceRecord("c", true, "unknown")];
    assert rs[..2][..1] == [rs[0]];
    assert CountEngaged(rs) == 2;
    assert CountPresent(rs) == 1;
  }
}
