/** The exams controller: the exam list and its visibility rule, reading one
    exam, and the teacher-only create, update and delete. */
module ExamController {
  import opened Base
  import opened Store
  import opened Ollama

  /** An exam joined with its teacher (`JOIN users u ON e.enseignant_id = u.id`). */
  datatype ExamRow = ExamRow(exam: Exam, teacher: User)

  predicate JoinsTeacher(x: ExamRow, t: Tables)
  {
    x.exam in t.exams && UserById(t.users, x.exam.enseignantId) == Some(x.teacher)
  }

  function JoinTeachers(exams: seq<Exam>, t: Tables): (r: seq<ExamRow>)
    requires forall e :: e in exams ==> e in t.exams
    ensures forall x :: x in r <==> x.exam in exams && JoinsTeacher(x, t)
  {
    if exams == [] then []
    else
      var e := exams[0];
      assert exams == [e] + exams[1..];
      var rest := JoinTeachers(exams[1..], t);
      match UserById(t.users, e.enseignantId)
      case Some(u) => [ExamRow(e, u)] + rest
      case None => rest
  }

  function DeadlineOf(x: ExamRow): int
  {
    x.exam.dateLimite
  }

  /** `getAllExams`: a student sees the published exams only, anyone else
      every exam; latest deadline first. */
  function ListExams(t: Tables, user: Claims): (r: seq<ExamRow>)
    ensures SortedDesc(r, DeadlineOf)
    ensures forall x :: x in r <==> JoinsTeacher(x, t) && (user.role == Student ==> x.exam.statut == Published)
  {
    SortDesc(Where(JoinTeachers(t.exams, t), (x: ExamRow) => user.role != Student || x.exam.statut == Published),
             DeadlineOf)
  }

  /** A teacher's list is the student's list plus the unpublished exams. */
  lemma {:induction false} StudentListIsPublishedPart(t: Tables, student: Claims, teacher: Claims, x: ExamRow)
    requires student.role == Student && teacher.role == Teacher
    ensures x in ListExams(t, student) <==> x in ListExams(t, teacher) && x.exam.statut == Published
  {
  }

  /** `getExamById`: 404 when no exam has the id, 403 when a student asks for
      one that is not published. */
  function GetExam(t: Tables, user: Claims, id: nat): (r: Reply<ExamRow>)
    ensures r.Fail? && r.status == 404 <==> forall x :: JoinsTeacher(x, t) ==> x.exam.id != id
    ensures r.Fail? && r.status == 403 <==>
              (exists x :: JoinsTeacher(x, t) && x.exam.id == id) && user.role == Student &&
              Where(JoinTeachers(t.exams, t), (x: ExamRow) => x.exam.id == id)[0].exam.statut != Published
    ensures r.Ok? ==> JoinsTeacher(r.value, t) && r.value.exam.id == id
    ensures r.Ok? && user.role == Student ==> r.value.exam.statut == Published
    ensures r.Fail? ==> r.status == 404 || r.status == 403
  {
    var rows := Where(JoinTeachers(t.exams, t), (x: ExamRow) => x.exam.id == id);
    if rows == [] then Fail(404)
    else
      assert rows[0] in rows;
      if user.role == Student && rows[0].exam.statut != Published then Fail(403)
      else Ok(rows[0])
  }

  function ExamUrl(filename: string): string
  {
    "/uploads/exams/" + filename
  }

  /** `createExam`: one new row, owned by the caller, with no file URL when
      no file was uploaded. Returns the new id. */
  method CreateExam(db: Db, user: Claims, titre: string, dateLimite: int, description: string, statut: string,
                    upload: Option<string>) returns (id: nat)
    modifies db
    ensures id == old(db.t).nextExamId
    ensures db.t == old(db.t).(exams := old(db.t).exams +
                                 [Exam(id, titre, if upload.Some? then Some(ExamUrl(upload.value)) else None,
                                       dateLimite, description, statut, user.id)],
                               nextExamId := id + 1)
    ensures Valid(old(db.t)) ==> Valid(db.t) && ExamById(db.t.exams, id).Some? &&
                                 ExamById(db.t.exams, id).value.enseignantId == user.id
  {
    var url: Option<string> := None;
    if upload.Some? {
      url := Some(ExamUrl(upload.value));
    }
    id := db.t.nextExamId;
    var e := Exam(id, titre, url, dateLimite, description, statut, user.id);
    CreateKeepsValid(db.t, e);
    db.t := db.t.(exams := db.t.exams + [e], nextExamId := id + 1);
  }

  lemma {:induction false} CreateKeepsValid(t: Tables, e: Exam)
    requires e.id == t.nextExamId
    ensures Valid(t) ==> Valid(t.(exams := t.exams + [e], nextExamId := e.id + 1))
    ensures Valid(t) ==> ExamById(t.exams + [e], e.id) == Some(e)
  {
    if Valid(t) {
      var exams := t.exams + [e];
      forall i, j | 0 <= i < j < |exams| ensures exams[i].id != exams[j].id
      {
        if j == |exams| - 1 {
          assert exams[i] in t.exams;
        }
      }
      assert exams[|exams| - 1] == e;
    }
  }

  /** `UPDATE exams SET titre, fichier_url, date_limite, description, statut
      WHERE id = ?`: those five columns of the rows with the id are
      overwritten; the id, the teacher and every other row are kept. */
  function ReviseRows(exams: seq<Exam>, id: nat, titre: string, url: Option<string>, dateLimite: int,
                      description: string, statut: string): (r: seq<Exam>)
    ensures |r| == |exams|
    ensures forall i :: 0 <= i < |exams| && exams[i].id == id ==>
              r[i] == Exam(id, titre, url, dateLimite, description, statut, exams[i].enseignantId)
    ensures forall i :: 0 <= i < |exams| && exams[i].id != id ==> r[i] == exams[i]
    ensures forall i :: 0 <= i < |exams| ==> r[i].id == exams[i].id && r[i].enseignantId == exams[i].enseignantId
  {
    if exams == [] then []
    else
      var e := exams[0];
      [if e.id == id then e.(titre := titre, fichierUrl := url, dateLimite := dateLimite,
                             description := description, statut := statut)
       else e] + ReviseRows(exams[1..], id, titre, url, dateLimite, description, statut)
  }

  datatype Outcome = NotOwner | Done

  /** The file URL an update stores: a new upload replaces it, otherwise the
      exam's current URL is kept. */
  function NewUrl(current: Option<string>, upload: Option<string>): (r: Option<string>)
    ensures upload.None? ==> r == current
    ensures upload.Some? ==> r == Some(ExamUrl(upload.value))
  {
    match upload
    case Some(f) => Some(ExamUrl(f))
    case None => current
  }

  /** Removing a stored file when the exam had one (`existsSync` then
      `unlinkSync`: removing an absent file changes nothing). */
  function RemoveFile(files: map<string, FileEntry>, url: Option<string>): (r: map<string, FileEntry>)
    ensures HasFile(url) ==> url.value !in r && forall k :: k in files && k != url.value ==> k in r && r[k] == files[k]
    ensures !HasFile(url) ==> r == files
    ensures forall k :: k in r ==> k in files
  {
    if HasFile(url) then files - {url.value} else files
  }

  /** `updateExam`: 403 and no change unless the caller created the exam. */
  method UpdateExam(db: Db, user: Claims, id: nat, titre: string, dateLimite: int, description: string,
                    statut: string, upload: Option<string>) returns (o: Outcome)
    modifies db
    ensures o == NotOwner <==> !OwnsExam(old(db.t).exams, id, user.id)
    ensures o == NotOwner ==> db.t == old(db.t)
    ensures o == Done ==>
              var current := OwnedRows(old(db.t).exams, id, user.id)[0].fichierUrl;
              db.t == old(db.t).(exams := ReviseRows(old(db.t).exams, id, titre, NewUrl(current, upload),
                                                     dateLimite, description, statut),
                                 files := if upload.Some? then RemoveFile(old(db.t).files, current) else old(db.t).files)
    ensures Valid(old(db.t)) ==> Valid(db.t)
  {
    var rows := OwnedRows(db.t.exams, id, user.id);
    if rows == [] {
      return NotOwner;
    }
    var url := rows[0].fichierUrl;
    if upload.Some? {
      db.t := db.t.(files := RemoveFile(db.t.files, rows[0].fichierUrl));
      url := Some(ExamUrl(upload.value));
    }
    ReviseKeepsValid(db.t, id, titre, url, dateLimite, description, statut);
    db.t := db.t.(exams := ReviseRows(db.t.exams, id, titre, url, dateLimite, description, statut));
    o := Done;
  }

  lemma {:induction false} ReviseKeepsValid(t: Tables, id: nat, titre: string, url: Option<string>, dateLimite: int,
                                            description: string, statut: string)
    ensures Valid(t) ==> Valid(t.(exams := ReviseRows(t.exams, id, titre, url, dateLimite, description, statut)))
  {
    var r := ReviseRows(t.exams, id, titre, url, dateLimite, description, statut);
    if Valid(t) {
      forall e | e in r ensures e.id < t.nextExamId {
        var i :| 0 <= i < |r| && r[i] == e;
        assert t.exams[i] in t.exams;
      }
    }
  }

  /** An update by the owner leaves the exam with the owner, and without a
      new upload its file URL is the one it had. */
  lemma {:induction false} UpdateKeepsOwnerAndFile(exams: seq<Exam>, id: nat, teacherId: nat, titre: string,
                                                   dateLimite: int, description: string, statut: string, i: nat)
    requires OwnsExam(exams, id, teacherId) && ExamIdsUnique(exams)
    requires i < |exams| && exams[i].id == id
    ensures var r := ReviseRows(exams, id, titre, NewUrl(OwnedRows(exams, id, teacherId)[0].fichierUrl, None),
                                dateLimite, description, statut);
            r[i].enseignantId == teacherId && r[i].fichierUrl == exams[i].fichierUrl
  {
    var w := OwnedRows(exams, id, teacherId);
    assert w[0] in w;
    var k :| 0 <= k < |exams| && exams[k] == w[0];
    if k < i {
      assert false;
    } else if k > i {
      assert false;
    }
  }

  /** `DELETE FROM exams WHERE id = ?`: the rows without that id, in order. */
  function Remaining(exams: seq<Exam>, id: nat): (r: seq<Exam>)
    ensures |r| <= |exams|
    ensures forall e :: e in r <==> e in exams && e.id != id
  {
    Where(exams, (e: Exam) => e.id != id)
  }

  lemma {:induction false} TailUnique(exams: seq<Exam>)
    requires exams != [] && ExamIdsUnique(exams)
    ensures ExamIdsUnique(exams[1..])
    ensures forall y :: y in exams[1..] ==> y.id != exams[0].id
  {
    var tail := exams[1..];
    forall i, j | 0 <= i < j < |tail| ensures tail[i].id != tail[j].id {
      assert tail[i] == exams[i + 1] && tail[j] == exams[j + 1];
    }
    forall y | y in tail ensures y.id != exams[0].id {
      var k :| 0 <= k < |tail| && tail[k] == y;
      assert exams[k + 1] == y;
    }
  }

  lemma {:induction false} ConsUnique(e: Exam, rest: seq<Exam>)
    requires ExamIdsUnique(rest)
    requires forall y :: y in rest ==> y.id != e.id
    ensures ExamIdsUnique([e] + rest)
  {
    var r := [e] + rest;
    forall i, j | 0 <= i < j < |r| ensures r[i].id != r[j].id {
      if i == 0 {
        assert r[j] in rest;
      } else {
        assert r[i] == rest[i - 1] && r[j] == rest[j - 1];
      }
    }
  }

  /** Deleting rows keeps the ids unique. */
  lemma {:induction false} RemainingUnique(exams: seq<Exam>, id: nat)
    requires ExamIdsUnique(exams)
    ensures ExamIdsUnique(Remaining(exams, id))
  {
    if exams != [] {
      var e := exams[0];
      var tail := exams[1..];
      TailUnique(exams);
      RemainingUnique(tail, id);
      var rest := Remaining(tail, id);
      assert exams == [e] + tail;
      assert Remaining(exams, id) == if e.id != id then [e] + rest else rest;
      if e.id != id {
        ConsUnique(e, rest);
      }
    }
  }

  /** `deleteExam`: 403 and no change unless the caller created the exam;
      otherwise its file is removed and its rows deleted. */
  method DeleteExam(db: Db, user: Claims, id: nat) returns (o: Outcome)
    modifies db
    ensures o == NotOwner <==> !OwnsExam(old(db.t).exams, id, user.id)
    ensures o == NotOwner ==> db.t == old(db.t)
    ensures o == Done ==>
              db.t == old(db.t).(exams := Remaining(old(db.t).exams, id),
                                 files := RemoveFile(old(db.t).files, OwnedRows(old(db.t).exams, id, user.id)[0].fichierUrl))
    ensures o == Done ==> forall e :: e in db.t.exams ==> e.id != id
    ensures Valid(old(db.t)) ==> Valid(db.t)
  {
    var rows := OwnedRows(db.t.exams, id, user.id);
    if rows == [] {
      return NotOwner;
    }
    if Valid(db.t) {
      RemainingUnique(db.t.exams, id);
    }
    db.t := db.t.(files := RemoveFile(db.t.files, rows[0].fichierUrl));
    db.t := db.t.(exams := Remaining(db.t.exams, id));
    o := Done;
  }
}
