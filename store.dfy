/** The MySQL tables the controllers read and write, the uploaded files on
    disk, and the row-level helpers the SQL statements stand for (a
    `WHERE` filter, `ORDER BY ... DESC`, the first row of a result). */
module Store {
  import opened Base
  import opened Json
  import opened Ollama

  const Teacher: string := "enseignant"
  const Student: string := "etudiant"
  const Published: string := "publié"

  /** A handler's answer: a body, or an error status. */
  datatype Reply<T> = Ok(value: T) | Fail(status: nat)

  /** The authenticated user `req.user` (the decoded token payload). */
  datatype Claims = Claims(id: nat, role: string)

  datatype User = User(id: nat, nom: string, prenom: string, role: string)

  datatype Exam = Exam(id: nat, titre: string, fichierUrl: Option<string>, dateLimite: int,
                       description: string, statut: string, enseignantId: nat)

  /** A row of `soumissions`. Grades are exact reals; `noteProposee` and
      `plagiatDetails` hold the JSON value the model produced (`None` for
      SQL `NULL`). */
  datatype Submission = Submission(id: nat, etudiantId: nat, examenId: nat, fichierUrl: Option<string>,
                                   dateSoumission: int, note: Option<real>, commentaire: Option<string>,
                                   evaluationAuto: Option<string>, noteProposee: Option<Json>,
                                   plagiatFlag: real, plagiatDetails: Option<Json>)

  /** A row of `corrections`: the serialized reference correction. */
  datatype Correction = Correction(examenId: nat, correctionData: string)

  /** A row of `chatbot_conversations`. */
  datatype Conversation = Conversation(userId: nat, examenId: nat, question: string, reponse: string)

  /** Every table, the upload directory (URL to file) and the next
      auto-increment keys. */
  datatype Tables = Tables(users: seq<User>, exams: seq<Exam>, submissions: seq<Submission>,
                           corrections: seq<Correction>, plagiarism: map<nat, string>,
                           conversations: seq<Conversation>, files: map<string, FileEntry>,
                           nextExamId: nat, nextSubmissionId: nat)

  /** The database connection pool: one shared, mutable state. */
  class Db {
    var t: Tables

    constructor(t: Tables)
      ensures this.t == t
    {
      this.t := t;
    }
  }

  // ---------------------------------------------------------------------------
  // Invariants of the tables

  predicate ExamIdsUnique(exams: seq<Exam>)
  {
    forall i, j :: 0 <= i < j < |exams| ==> exams[i].id != exams[j].id
  }

  predicate SubmissionIdsUnique(subs: seq<Submission>)
  {
    forall i, j :: 0 <= i < j < |subs| ==> subs[i].id != subs[j].id
  }

  /** At most one submission per (student, exam). */
  predicate OnePerStudentAndExam(subs: seq<Submission>)
  {
    forall i, j :: 0 <= i < j < |subs| ==>
      !(subs[i].etudiantId == subs[j].etudiantId && subs[i].examenId == subs[j].examenId)
  }

  predicate Valid(t: Tables)
  {
    ExamIdsUnique(t.exams) && SubmissionIdsUnique(t.submissions) &&
    OnePerStudentAndExam(t.submissions) &&
    (forall e :: e in t.exams ==> e.id < t.nextExamId) &&
    (forall s :: s in t.submissions ==> s.id < t.nextSubmissionId)
  }

  // ---------------------------------------------------------------------------
  // Row helpers

  /** Each row's key is at least the next one's: the order `ORDER BY key DESC`
      produces. */
  predicate SortedDesc<T>(xs: seq<T>, key: T -> int)
  {
    forall i :: 0 <= i < |xs| - 1 ==> key(xs[i]) >= key(xs[i + 1])
  }

  /** In a descending sequence every row's key is at least every later one's. */
  lemma {:induction false} SortedDescPairs<T>(xs: seq<T>, key: T -> int, i: int, j: int)
    requires SortedDesc(xs, key)
    requires 0 <= i <= j < |xs|
    ensures key(xs[i]) >= key(xs[j])
    decreases j - i
  {
    if i < j {
      SortedDescPairs(xs, key, i + 1, j);
    }
  }

  function InsertDesc<T>(x: T, xs: seq<T>, key: T -> int): (r: seq<T>)
    requires SortedDesc(xs, key)
    ensures SortedDesc(r, key)
    ensures multiset(r) == multiset(xs) + multiset{x}
    ensures |r| == |xs| + 1 && (r[0] == x || (xs != [] && r[0] == xs[0]))
  {
    if xs == [] then [x]
    else if key(x) >= key(xs[0]) then [x] + xs
    else
      var tail := InsertDesc(x, xs[1..], key);
      assert xs == [xs[0]] + xs[1..];
      [xs[0]] + tail
  }

  /** `ORDER BY key DESC` (rows with equal keys keep their table order). */
  function SortDesc<T(!new)>(xs: seq<T>, key: T -> int): (r: seq<T>)
    ensures SortedDesc(r, key)
    ensures multiset(r) == multiset(xs)
    ensures forall x :: x in r <==> x in xs
  {
    if xs == [] then []
    else
      assert xs == [xs[0]] + xs[1..];
      var r := InsertDesc(xs[0], SortDesc(xs[1..], key), key);
      assert forall x :: x in r <==> x in multiset(r);
      assert forall x :: x in xs <==> x in multiset(xs);
      r
  }

  /** The first row with the given id. */
  function ExamById(exams: seq<Exam>, id: nat): (r: Option<Exam>)
    ensures r.Some? ==> r.value in exams && r.value.id == id
    ensures r.None? ==> forall e :: e in exams ==> e.id != id
  {
    if exams == [] then None
    else if exams[0].id == id then Some(exams[0])
    else ExamById(exams[1..], id)
  }

  function SubmissionById(subs: seq<Submission>, id: nat): (r: Option<Submission>)
    ensures r.Some? ==> r.value in subs && r.value.id == id
    ensures r.None? ==> forall s :: s in subs ==> s.id != id
  {
    if subs == [] then None
    else if subs[0].id == id then Some(subs[0])
    else SubmissionById(subs[1..], id)
  }

  function UserById(users: seq<User>, id: nat): (r: Option<User>)
    ensures r.Some? ==> r.value in users && r.value.id == id
    ensures r.None? ==> forall u :: u in users ==> u.id != id
  {
    if users == [] then None
    else if users[0].id == id then Some(users[0])
    else UserById(users[1..], id)
  }

  /** `corrections[0].correction_data` for `WHERE examen_id = ?`: the first
      row stored for the exam. */
  function FirstCorrection(cs: seq<Correction>, examId: nat): (r: Option<string>)
    ensures r.Some? ==> Correction(examId, r.value) in cs
    ensures r.None? ==> forall c :: c in cs ==> c.examenId != examId
  {
    if cs == [] then None
    else if cs[0].examenId == examId then Some(cs[0].correctionData)
    else FirstCorrection(cs[1..], examId)
  }

  /** Appending a row for another exam does not change an exam's first
      correction, and appending to an exam without one makes it the first. */
  lemma {:induction false} FirstCorrectionAppend(cs: seq<Correction>, c: Correction, examId: nat)
    ensures FirstCorrection(cs + [c], examId) ==
            if FirstCorrection(cs, examId).Some? then FirstCorrection(cs, examId)
            else if c.examenId == examId then Some(c.correctionData)
            else None
  {
    if cs != [] {
      assert (cs + [c])[1..] == cs[1..] + [c];
      FirstCorrectionAppend(cs[1..], c, examId);
    }
  }

  /** `SELECT * FROM exams WHERE id = ? AND enseignant_id = ?`. */
  function OwnedRows(exams: seq<Exam>, examId: nat, teacherId: nat): (r: seq<Exam>)
    ensures forall e :: e in r <==> e in exams && e.id == examId && e.enseignantId == teacherId
  {
    Where(exams, (e: Exam) => e.id == examId && e.enseignantId == teacherId)
  }

  /** The teacher created the exam: the ownership query has a row. */
  predicate OwnsExam(exams: seq<Exam>, examId: nat, teacherId: nat)
  {
    OwnedRows(exams, examId, teacherId) != []
  }

  lemma {:induction false} OwnsExamIff(exams: seq<Exam>, examId: nat, teacherId: nat)
    ensures OwnsExam(exams, examId, teacherId) <==> exists e :: e in exams && e.id == examId && e.enseignantId == teacherId
  {
    var w := OwnedRows(exams, examId, teacherId);
    if w != [] {
      assert w[0] in w;
    }
  }

  /** Rewriting submission rows without touching their id, student or exam
      keeps every table invariant. */
  lemma {:induction false} SameKeysKeepValid(t: Tables, subs: seq<Submission>)
    requires |subs| == |t.submissions|
    requires forall i :: 0 <= i < |subs| ==>
               subs[i].id == t.submissions[i].id && subs[i].etudiantId == t.submissions[i].etudiantId &&
               subs[i].examenId == t.submissions[i].examenId
    ensures Valid(t) ==> Valid(t.(submissions := subs))
  {
    if Valid(t) {
      forall s | s in subs ensures s.id < t.nextSubmissionId {
        var i :| 0 <= i < |subs| && subs[i] == s;
        assert t.submissions[i] in t.submissions;
      }
    }
  }

  /** The text of a JavaScript value that is truthy as a file URL. */
  predicate HasFile(url: Option<string>)
  {
    url.Some? && url.value != ""
  }

  /** A fresh submission row as `INSERT INTO soumissions` creates it. */
  function NewSubmission(id: nat, etudiantId: nat, examenId: nat, url: string, now: int): Submission
  {
    Submission(id, etudiantId, examenId, Some(url), now, None, None, None, None, 0.0, None)
  }
}
