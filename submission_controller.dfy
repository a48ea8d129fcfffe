/** The submissions controller: submitting a copy, the four read queries and
    their access rules, and grading. */
module SubmissionController {
  import opened Base
  import opened Json
  import opened Store

  // ---------------------------------------------------------------------------
  // Joined result rows

  /** A row of `soumissions` with the columns of the user and the exam it was
      joined with (`None` where the query has no such join). */
  datatype Row = Row(sub: Submission, student: Option<User>, exam: Option<Exam>)

  /** `x` is a row of `soumissions s [JOIN users u ON s.etudiant_id = u.id]
      [JOIN exams e ON s.examen_id = e.id]` (ids are primary keys, so each
      submission joins with at most one user and one exam). */
  predicate Joins(x: Row, t: Tables, withStudent: bool, withExam: bool)
  {
    x.sub in t.submissions &&
    x.student == (if withStudent then UserById(t.users, x.sub.etudiantId) else None) &&
    x.exam == (if withExam then ExamById(t.exams, x.sub.examenId) else None) &&
    (withStudent ==> x.student.Some?) && (withExam ==> x.exam.Some?)
  }

  /** The joined rows, in the order of the submissions table. */
  function JoinRows(subs: seq<Submission>, t: Tables, withStudent: bool, withExam: bool): (r: seq<Row>)
    requires forall s :: s in subs ==> s in t.submissions
    ensures |r| <= |subs|
    ensures forall x :: x in r <==> x.sub in subs && Joins(x, t, withStudent, withExam)
  {
    if subs == [] then []
    else
      var s := subs[0];
      assert subs == [s] + subs[1..];
      var student := if withStudent then UserById(t.users, s.etudiantId) else None;
      var exam := if withExam then ExamById(t.exams, s.examenId) else None;
      var rest := JoinRows(subs[1..], t, withStudent, withExam);
      if (withStudent ==> student.Some?) && (withExam ==> exam.Some?) then [Row(s, student, exam)] + rest
      else rest
  }

  function Joined(t: Tables, withStudent: bool, withExam: bool): (r: seq<Row>)
    ensures forall x :: x in r <==> Joins(x, t, withStudent, withExam)
  {
    JoinRows(t.submissions, t, withStudent, withExam)
  }

  function DateOf(x: Row): int
  {
    x.sub.dateSoumission
  }

  // ---------------------------------------------------------------------------
  // Read queries

  /** `getAllSubmissions`: teachers only; every joined submission to one of
      the teacher's exams, latest first. */
  function AllSubmissions(t: Tables, user: Claims): (r: Reply<seq<Row>>)
    ensures r.Fail? <==> user.role != Teacher
    ensures r.Fail? ==> r.status == 403
    ensures r.Ok? ==> SortedDesc(r.value, DateOf)
    ensures r.Ok? ==> forall x :: x in r.value <==> Joins(x, t, true, true) && x.exam.value.enseignantId == user.id
  {
    if user.role != Teacher then Fail(403)
    else Ok(SortDesc(Where(Joined(t, true, true), (x: Row) => x.exam.Some? && x.exam.value.enseignantId == user.id), DateOf))
  }

  /** `getSubmissionsByExam`: a teacher who owns the exam gets its
      submissions joined with their students; a teacher who does not gets
      403; anyone else gets only their own rows. Latest first. */
  function SubmissionsByExam(t: Tables, user: Claims, examId: nat): (r: Reply<seq<Row>>)
    ensures r.Fail? <==> user.role == Teacher && !OwnsExam(t.exams, examId, user.id)
    ensures r.Fail? ==> r.status == 403
    ensures r.Ok? ==> SortedDesc(r.value, DateOf)
    ensures r.Ok? && user.role == Teacher ==>
              forall x :: x in r.value <==> Joins(x, t, true, false) && x.sub.examenId == examId
    ensures r.Ok? && user.role != Teacher ==>
              forall x :: x in r.value <==> Joins(x, t, false, false) && x.sub.examenId == examId && x.sub.etudiantId == user.id
  {
    if user.role == Teacher then
      if !OwnsExam(t.exams, examId, user.id) then Fail(403)
      else Ok(SortDesc(Where(Joined(t, true, false), (x: Row) => x.sub.examenId == examId), DateOf))
    else
      Ok(SortDesc(Where(Joined(t, false, false), (x: Row) => x.sub.examenId == examId && x.sub.etudiantId == user.id), DateOf))
  }

  /** `getMySubmissions`: the user's own submissions joined with their exams. */
  function MySubmissions(t: Tables, user: Claims): (r: seq<Row>)
    ensures SortedDesc(r, DateOf)
    ensures forall x :: x in r <==> Joins(x, t, false, true) && x.sub.etudiantId == user.id
  {
    SortDesc(Where(Joined(t, false, true), (x: Row) => x.sub.etudiantId == user.id), DateOf)
  }

  /** The rows `WHERE s.id = ?` of a joined query, in table order. */
  function WithId(rows: seq<Row>, id: nat): (r: seq<Row>)
    ensures forall x :: x in r <==> x in rows && x.sub.id == id
  {
    Where(rows, (x: Row) => x.sub.id == id)
  }

  /** `getSubmissionById`: 404 without a joined row; a student may read only
      their own submission, a teacher only one to their own exam; any other
      role reads every submission. */
  function SubmissionView(t: Tables, user: Claims, id: nat): (r: Reply<Row>)
    ensures r.Fail? && r.status == 404 <==> forall x :: Joins(x, t, true, true) ==> x.sub.id != id
    ensures r.Ok? <==> WithId(Joined(t, true, true), id) != [] &&
                       var x := WithId(Joined(t, true, true), id)[0];
                       (user.role == Student ==> x.sub.etudiantId == user.id) &&
                       (user.role == Teacher ==> x.exam.value.enseignantId == user.id)
    ensures r.Ok? ==> Joins(r.value, t, true, true) && r.value.sub.id == id
    ensures r.Fail? ==> r.status == 404 || r.status == 403
  {
    var rows := WithId(Joined(t, true, true), id);
    if rows == [] then Fail(404)
    else
      var x := rows[0];
      assert x in rows;
      if user.role == Student && x.sub.etudiantId != user.id then Fail(403)
      else if user.role == Teacher && x.exam.value.enseignantId != user.id then Fail(403)
      else Ok(x)
  }

  /** Whatever else happens, a student reads only their own submission and a
      teacher only a submission to an exam they teach. */
  lemma {:induction false} SubmissionViewOwner(t: Tables, user: Claims, id: nat)
    ensures SubmissionView(t, user, id).Ok? && user.role == Student ==>
              SubmissionView(t, user, id).value.sub.etudiantId == user.id
    ensures SubmissionView(t, user, id).Ok? && user.role == Teacher ==>
              exists e :: e in t.exams && e.id == SubmissionView(t, user, id).value.sub.examenId && e.enseignantId == user.id
  {
    var r := SubmissionView(t, user, id);
    if r.Ok? && user.role == Teacher {
      var rows := WithId(Joined(t, true, true), id);
      assert rows[0] in rows;
      assert r.value.exam.value in t.exams;
    }
  }

  // ---------------------------------------------------------------------------
  // Submitting a copy

  datatype SubmitOutcome = ExamUnavailable | DeadlinePassed | AlreadySubmitted | NoFile | Submitted

  function SubmitStatus(o: SubmitOutcome): nat
  {
    match o
    case ExamUnavailable => 404
    case Submitted => 201
    case _ => 400
  }

  /** `SELECT * FROM exams WHERE id = ? AND statut = 'publié'`. */
  function PublishedRows(exams: seq<Exam>, examId: nat): (r: seq<Exam>)
    ensures forall e :: e in r <==> e in exams && e.id == examId && e.statut == Published
  {
    Where(exams, (e: Exam) => e.id == examId && e.statut == Published)
  }

  /** `SELECT * FROM soumissions WHERE etudiant_id = ? AND examen_id = ?`. */
  function PriorRows(subs: seq<Submission>, studentId: nat, examId: nat): (r: seq<Submission>)
    ensures forall s :: s in r <==> s in subs && s.etudiantId == studentId && s.examenId == examId
  {
    Where(subs, (s: Submission) => s.etudiantId == studentId && s.examenId == examId)
  }

  /** The deadline has not passed: `now > dateLimit` is false, so a copy
      submitted exactly at the deadline is accepted. */
  predicate InTime(exams: seq<Exam>, examId: nat, now: int)
    requires PublishedRows(exams, examId) != []
  {
    now <= PublishedRows(exams, examId)[0].dateLimite
  }

  function SubmissionUrl(filename: string): string
  {
    "/uploads/submissions/" + filename
  }

  /** `submitExam`: the four checks in order, then one insert. */
  method SubmitExam(db: Db, user: Claims, examId: nat, upload: Option<string>, now: int) returns (o: SubmitOutcome)
    modifies db
    ensures o == ExamUnavailable <==> PublishedRows(old(db.t).exams, examId) == []
    ensures o == DeadlinePassed <==> PublishedRows(old(db.t).exams, examId) != [] && !InTime(old(db.t).exams, examId, now)
    ensures o == AlreadySubmitted <==>
              PublishedRows(old(db.t).exams, examId) != [] && InTime(old(db.t).exams, examId, now) &&
              PriorRows(old(db.t).submissions, user.id, examId) != []
    ensures o == Submitted <==>
              PublishedRows(old(db.t).exams, examId) != [] && InTime(old(db.t).exams, examId, now) &&
              PriorRows(old(db.t).submissions, user.id, examId) == [] && upload.Some?
    ensures o != Submitted ==> db.t == old(db.t)
    ensures o == Submitted ==>
              db.t == old(db.t).(submissions := old(db.t).submissions +
                                   [NewSubmission(old(db.t).nextSubmissionId, user.id, examId, SubmissionUrl(upload.value), now)],
                                 nextSubmissionId := old(db.t).nextSubmissionId + 1)
    ensures Valid(old(db.t)) ==> Valid(db.t)
  {
    var exams := PublishedRows(db.t.exams, examId);
    if exams == [] {
      return ExamUnavailable;
    }
    if now > exams[0].dateLimite {
      return DeadlinePassed;
    }
    if PriorRows(db.t.submissions, user.id, examId) != [] {
      return AlreadySubmitted;
    }
    if upload.None? {
      return NoFile;
    }
    var s := NewSubmission(db.t.nextSubmissionId, user.id, examId, SubmissionUrl(upload.value), now);
    SubmitKeepsValid(db.t, s);
    db.t := db.t.(submissions := db.t.submissions + [s], nextSubmissionId := db.t.nextSubmissionId + 1);
    o := Submitted;
  }

  /** Appending a submission with a fresh id for a (student, exam) pair that
      has none keeps every table invariant; in particular at most one
      submission per student and exam. */
  lemma {:induction false} SubmitKeepsValid(t: Tables, s: Submission)
    requires s.id == t.nextSubmissionId
    requires PriorRows(t.submissions, s.etudiantId, s.examenId) == []
    ensures Valid(t) ==> Valid(t.(submissions := t.submissions + [s], nextSubmissionId := t.nextSubmissionId + 1))
  {
    if Valid(t) {
      var subs := t.submissions + [s];
      forall i, j | 0 <= i < j < |subs| ensures subs[i].id != subs[j].id
      {
        if j == |subs| - 1 {
          assert subs[i] in t.submissions;
        }
      }
      forall i, j | 0 <= i < j < |subs|
        ensures !(subs[i].etudiantId == subs[j].etudiantId && subs[i].examenId == subs[j].examenId)
      {
        if j == |subs| - 1 {
          assert subs[i] in t.submissions;
          assert subs[i] !in PriorRows(t.submissions, s.etudiantId, s.examenId);
        }
      }
    }
  }

  /** A stored submission, however it got there, is a prior row for its
      student and exam; by `SubmitExam`'s postconditions a second
      submission by that student to that exam, while the exam is open, is
      then `AlreadySubmitted` and changes nothing. */
  lemma {:induction false} SecondSubmissionRefused(t: Tables, s: Submission)
    requires s in t.submissions
    ensures PriorRows(t.submissions, s.etudiantId, s.examenId) != []
  {
    assert s in PriorRows(t.submissions, s.etudiantId, s.examenId);
  }

  // ---------------------------------------------------------------------------
  // Grading

  datatype GradeOutcome = SubmissionNotFound | NotExamTeacher | Graded

  /** `UPDATE soumissions SET note = ?, commentaire = ? WHERE id = ?`: the
      rows with the id get the new grade and comment, whatever the grade's
      value; nothing else changes. */
  function SetGrade(subs: seq<Submission>, id: nat, note: Option<real>, commentaire: Option<string>): (r: seq<Submission>)
    ensures |r| == |subs|
    ensures forall i :: 0 <= i < |subs| ==>
              r[i].(note := subs[i].note, commentaire := subs[i].commentaire) == subs[i]
    ensures forall i :: 0 <= i < |subs| && subs[i].id == id ==> r[i].note == note && r[i].commentaire == commentaire
    ensures forall i :: 0 <= i < |subs| && subs[i].id != id ==> r[i] == subs[i]
  {
    if subs == [] then []
    else
      var s := subs[0];
      [if s.id == id then s.(note := note, commentaire := commentaire) else s] + SetGrade(subs[1..], id, note, commentaire)
  }

  /** `gradeSubmission`: 404 without a submission joined with its exam, 403
      unless the user teaches that exam, otherwise the grade update. */
  method GradeSubmission(db: Db, user: Claims, id: nat, note: Option<real>, commentaire: Option<string>)
    returns (o: GradeOutcome)
    modifies db
    ensures o == SubmissionNotFound <==> WithId(Joined(old(db.t), false, true), id) == []
    ensures o == NotExamTeacher <==>
              WithId(Joined(old(db.t), false, true), id) != [] &&
              WithId(Joined(old(db.t), false, true), id)[0].exam.value.enseignantId != user.id
    ensures o != Graded ==> db.t == old(db.t)
    ensures o == Graded ==> db.t == old(db.t).(submissions := SetGrade(old(db.t).submissions, id, note, commentaire))
    ensures Valid(old(db.t)) ==> Valid(db.t)
  {
    var rows := WithId(Joined(db.t, false, true), id);
    if rows == [] {
      return SubmissionNotFound;
    }
    assert rows[0] in rows;
    if rows[0].exam.value.enseignantId != user.id {
      return NotExamTeacher;
    }
    SameKeysKeepValid(db.t, SetGrade(db.t.submissions, id, note, commentaire));
    db.t := db.t.(submissions := SetGrade(db.t.submissions, id, note, commentaire));
    o := Graded;
  }

  /** Only the teacher of the graded submission's exam can have graded it. */
  lemma {:induction false} GradedByExamTeacher(t: Tables, user: Claims, id: nat)
    requires WithId(Joined(t, false, true), id) != []
    requires WithId(Joined(t, false, true), id)[0].exam.value.enseignantId == user.id
    ensures exists s, e :: s in t.submissions && e in t.exams && s.id == id && s.examenId == e.id && e.enseignantId == user.id
  {
    var x := WithId(Joined(t, false, true), id)[0];
    assert x in WithId(Joined(t, false, true), id);
    assert x.exam.value in t.exams;
  }
}
