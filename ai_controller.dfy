/** The AI controller: generating and caching an exam's reference
    correction, evaluating a submission against it, the plagiarism check and
    its flag updates, and the chatbot. The language model is a
    `ModelEndpoint`; file contents come from the upload directory. */
module AiController {
  import opened Base
  import opened Json
  import opened Store
  import opened Ollama
  import JsonRoundTrip
  import SubmissionController

  type Row = SubmissionController.Row

  /** A defined value bound to a nullable column: JSON `null` is stored as
      SQL `NULL`, anything else as it is. */
  function Column(v: Json): (r: Option<Json>)
    ensures r.None? <==> v.JNull?
    ensures r.Some? ==> r.value == v
  {
    if v.JNull? then None else Some(v)
  }

  /** A serialized value is never the empty (falsy) string. */
  lemma {:induction false} StringifyNonEmpty(v: Json)
    ensures Stringify(v, "") != ""
  {
    JsonRoundTrip.ParseStringify(v, "");
    assert Parse("") == None;
  }

  // ---------------------------------------------------------------------------
  // generateExamCorrection

  datatype CorrectionReply =
    | CorrectionForbidden
    | NoExamFile
    | ExistingCorrection(correction: Json)
    | GeneratedCorrection(correction: Json)
    | CorrectionError

  function CorrectionStatus(r: CorrectionReply): nat
  {
    match r
    case CorrectionForbidden => 403
    case NoExamFile => 400
    case ExistingCorrection(_) => 200
    case GeneratedCorrection(_) => 201
    case CorrectionError => 500
  }

  /** The exam row of the ownership query, if any. */
  function OwnedExam(t: Tables, examId: nat, teacherId: nat): (r: Option<Exam>)
    ensures r.Some? <==> OwnsExam(t.exams, examId, teacherId)
    ensures r.Some? ==> r.value in t.exams && r.value.id == examId && r.value.enseignantId == teacherId
  {
    var rows := OwnedRows(t.exams, examId, teacherId);
    if rows == [] then None
    else
      assert rows[0] in rows;
      Some(rows[0])
  }

  /** The exam is owned and has a file: the analysis may run. */
  predicate CorrectionAllowed(t: Tables, examId: nat, teacherId: nat)
  {
    OwnedExam(t, examId, teacherId).Some? && HasFile(OwnedExam(t, examId, teacherId).value.fichierUrl)
  }

  /** `generateExamCorrection`: a stored correction is returned without
      querying the model; otherwise the analysis result is stored, so the
      next call returns it. */
  method GenerateExamCorrection(db: Db, model: ModelEndpoint, user: Claims, examId: nat)
    returns (r: CorrectionReply)
    modifies db, model
    ensures r == CorrectionForbidden <==> !OwnsExam(old(db.t).exams, examId, user.id)
    ensures r == NoExamFile <==>
              OwnsExam(old(db.t).exams, examId, user.id) && !CorrectionAllowed(old(db.t), examId, user.id)
    ensures r.ExistingCorrection? <==>
              CorrectionAllowed(old(db.t), examId, user.id) && FirstCorrection(old(db.t).corrections, examId).Some? &&
              Parse(FirstCorrection(old(db.t).corrections, examId).value).Some?
    ensures r.ExistingCorrection? ==> Some(r.correction) == Parse(FirstCorrection(old(db.t).corrections, examId).value)
    ensures !(CorrectionAllowed(old(db.t), examId, user.id) && FirstCorrection(old(db.t).corrections, examId).None?) ==>
              model.prompts == old(model.prompts)
    ensures CorrectionAllowed(old(db.t), examId, user.id) && FirstCorrection(old(db.t).corrections, examId).None? ==>
              var path := OwnedExam(old(db.t), examId, user.id).value.fichierUrl.value;
              model.prompts == old(model.prompts) +
                (if ReadDocument(old(db.t).files, path).Some? then [AnalysisPrompt(ReadDocument(old(db.t).files, path).value)] else []) &&
              (r.GeneratedCorrection? <==> AnalysisOutcome(old(db.t).files, path, model.reply).Some?) &&
              (r.GeneratedCorrection? ==> r.correction == AnalysisOutcome(old(db.t).files, path, model.reply).value)
    ensures !r.GeneratedCorrection? ==> db.t == old(db.t)
    ensures r.GeneratedCorrection? ==>
              db.t == old(db.t).(corrections := old(db.t).corrections + [Correction(examId, Stringify(r.correction, ""))])
  {
    var exam := OwnedExam(db.t, examId, user.id);
    if exam.None? {
      return CorrectionForbidden;
    }
    if !HasFile(exam.value.fichierUrl) {
      return NoExamFile;
    }
    var stored := FirstCorrection(db.t.corrections, examId);
    if stored.Some? {
      var parsed := Parse(stored.value);
      if parsed.None? {
        return CorrectionError;
      }
      return ExistingCorrection(parsed.value);
    }
    var result := AnalyzeExam(model, db.t.files, exam.value.fichierUrl.value);
    if result.None? {
      return CorrectionError;
    }
    db.t := db.t.(corrections := db.t.corrections + [Correction(examId, Stringify(result.value, ""))]);
    r := GeneratedCorrection(result.value);
  }

  /** Once a correction has been generated for an exam without one, it is
      that exam's first correction and it parses back to the generated
      value: the next request returns it unchanged. */
  lemma {:induction false} GeneratedCorrectionIsReturnedNext(cs: seq<Correction>, examId: nat, v: Json)
    requires FirstCorrection(cs, examId).None?
    ensures FirstCorrection(cs + [Correction(examId, Stringify(v, ""))], examId) == Some(Stringify(v, ""))
    ensures Parse(Stringify(v, "")) == Some(ToJs(v))
    ensures IsJsValue(v) ==> Parse(Stringify(v, "")) == Some(v)
  {
    FirstCorrectionAppend(cs, Correction(examId, Stringify(v, "")), examId);
    JsonRoundTrip.ParseStringify(v, "");
  }

  // ---------------------------------------------------------------------------
  // evaluateSubmission

  datatype EvaluationReply =
    | SubmissionMissing
    | NotExamTeacher
    | NoSubmissionFile
    | ExistingEvaluation(evaluation: Json)
    | NeedsCorrection(examId: nat)
    | EvaluationError
    | Evaluated(evaluation: Json)

  function EvaluationStatus(r: EvaluationReply): nat
  {
    match r
    case SubmissionMissing => 404
    case NotExamTeacher => 403
    case NoSubmissionFile => 400
    case ExistingEvaluation(_) => 200
    case NeedsCorrection(_) => 400
    case EvaluationError => 500
    case Evaluated(_) => 200
  }

  /** The first row of the submission joined with its exam. */
  function EvaluationTarget(t: Tables, id: nat): (r: Option<Row>)
    ensures r.Some? ==> SubmissionController.Joins(r.value, t, false, true) && r.value.sub.id == id
    ensures r.None? <==> forall x :: SubmissionController.Joins(x, t, false, true) ==> x.sub.id != id
  {
    var rows := SubmissionController.WithId(SubmissionController.Joined(t, false, true), id);
    if rows == [] then None
    else
      assert rows[0] in rows;
      Some(rows[0])
  }

  /** The checks before any stored evaluation is looked at pass. */
  predicate EvaluationAllowed(t: Tables, user: Claims, id: nat)
  {
    EvaluationTarget(t, id).Some? &&
    EvaluationTarget(t, id).value.exam.value.enseignantId == user.id &&
    HasFile(EvaluationTarget(t, id).value.sub.fichierUrl)
  }

  /** A truthy `evaluation_auto` is already stored. */
  predicate HasEvaluation(s: Submission)
  {
    s.evaluationAuto.Some? && s.evaluationAuto.value != ""
  }

  /** `UPDATE soumissions SET evaluation_auto = ?, note_proposee = ? WHERE id = ?`. */
  function SetEvaluation(subs: seq<Submission>, id: nat, text: string, note: Option<Json>): (r: seq<Submission>)
    ensures |r| == |subs|
    ensures forall i :: 0 <= i < |subs| ==>
              r[i].(evaluationAuto := subs[i].evaluationAuto, noteProposee := subs[i].noteProposee) == subs[i]
    ensures forall i :: 0 <= i < |subs| && subs[i].id == id ==> r[i].evaluationAuto == Some(text) && r[i].noteProposee == note
    ensures forall i :: 0 <= i < |subs| && subs[i].id != id ==> r[i] == subs[i]
  {
    if subs == [] then []
    else
      var s := subs[0];
      [if s.id == id then s.(evaluationAuto := Some(text), noteProposee := note) else s] +
      SetEvaluation(subs[1..], id, text, note)
  }

  /** Where `evaluateSubmission` stops before the model: an answer, or the
      query to make with the submission's file and the reference correction. */
  datatype EvaluationStep = Answer(reply: EvaluationReply) | Query(path: string, correction: Json)

  /** The guard chain of `evaluateSubmission`, in the handler's order. */
  function EvaluationPlan(t: Tables, user: Claims, id: nat): (r: EvaluationStep)
    ensures r == Answer(SubmissionMissing) <==> EvaluationTarget(t, id).None?
    ensures r.Query? ==> EvaluationAllowed(t, user, id) && !HasEvaluation(EvaluationTarget(t, id).value.sub)
  {
    match EvaluationTarget(t, id)
    case None => Answer(SubmissionMissing)
    case Some(x) =>
      if x.exam.value.enseignantId != user.id then Answer(NotExamTeacher)
      else if !HasFile(x.sub.fichierUrl) then Answer(NoSubmissionFile)
      else if HasEvaluation(x.sub) then
        match Parse(x.sub.evaluationAuto.value)
        case None => Answer(EvaluationError)
        case Some(v) => Answer(ExistingEvaluation(v))
      else
        match FirstCorrection(t.corrections, x.sub.examenId)
        case None => Answer(NeedsCorrection(x.sub.examenId))
        case Some(text) =>
          match Parse(text)
          case None => Answer(EvaluationError)
          case Some(c) => Query(x.sub.fichierUrl.value, c)
  }

  /** Each refusal happens exactly when its check is the first to fail: a
      missing submission, another teacher's exam, a submission without a
      file, a stored evaluation (returned as parsed), no reference
      correction (400 naming the exam); the model is queried only for the
      exam's teacher, a submission with a file and no stored evaluation, and
      a stored correction that parses. */
  lemma {:induction false} EvaluationPlanCases(t: Tables, user: Claims, id: nat)
    ensures EvaluationPlan(t, user, id) == Answer(SubmissionMissing) <==> EvaluationTarget(t, id).None?
    ensures EvaluationPlan(t, user, id) == Answer(NotExamTeacher) <==>
              EvaluationTarget(t, id).Some? && EvaluationTarget(t, id).value.exam.value.enseignantId != user.id
    ensures EvaluationPlan(t, user, id) == Answer(NoSubmissionFile) <==>
              EvaluationTarget(t, id).Some? && EvaluationTarget(t, id).value.exam.value.enseignantId == user.id &&
              !EvaluationAllowed(t, user, id)
    ensures (EvaluationPlan(t, user, id).Answer? && EvaluationPlan(t, user, id).reply.ExistingEvaluation?) <==>
              EvaluationAllowed(t, user, id) && HasEvaluation(EvaluationTarget(t, id).value.sub) &&
              Parse(EvaluationTarget(t, id).value.sub.evaluationAuto.value).Some?
    ensures EvaluationPlan(t, user, id).Answer? && EvaluationPlan(t, user, id).reply.ExistingEvaluation? ==>
              Some(EvaluationPlan(t, user, id).reply.evaluation) == Parse(EvaluationTarget(t, id).value.sub.evaluationAuto.value)
    ensures (EvaluationPlan(t, user, id).Answer? && EvaluationPlan(t, user, id).reply.NeedsCorrection?) <==>
              EvaluationAllowed(t, user, id) && !HasEvaluation(EvaluationTarget(t, id).value.sub) &&
              FirstCorrection(t.corrections, EvaluationTarget(t, id).value.sub.examenId).None?
    ensures EvaluationPlan(t, user, id).Answer? && EvaluationPlan(t, user, id).reply.NeedsCorrection? ==>
              EvaluationPlan(t, user, id).reply.examId == EvaluationTarget(t, id).value.sub.examenId
    ensures EvaluationPlan(t, user, id).Query? <==>
              EvaluationAllowed(t, user, id) && !HasEvaluation(EvaluationTarget(t, id).value.sub) &&
              FirstCorrection(t.corrections, EvaluationTarget(t, id).value.sub.examenId).Some? &&
              Parse(FirstCorrection(t.corrections, EvaluationTarget(t, id).value.sub.examenId).value).Some?
    ensures EvaluationPlan(t, user, id).Query? ==>
              var s := EvaluationTarget(t, id).value.sub;
              EvaluationPlan(t, user, id).path == s.fichierUrl.value &&
              Some(EvaluationPlan(t, user, id).correction) == Parse(FirstCorrection(t.corrections, s.examenId).value)
    ensures EvaluationPlan(t, user, id).Answer? ==>
              EvaluationPlan(t, user, id).reply in {SubmissionMissing, NotExamTeacher, NoSubmissionFile, EvaluationError} ||
              EvaluationPlan(t, user, id).reply.ExistingEvaluation? || EvaluationPlan(t, user, id).reply.NeedsCorrection?
  {
  }

  /** `evaluateSubmission`: the guard chain, then one model query and the
      update of the evaluation and the proposed grade `note_finale`. */
  method EvaluateSubmission(db: Db, model: ModelEndpoint, user: Claims, id: nat) returns (r: EvaluationReply)
    modifies db, model
    ensures EvaluationPlan(old(db.t), user, id).Answer? ==>
              r == EvaluationPlan(old(db.t), user, id).reply && db.t == old(db.t) && model.prompts == old(model.prompts)
    ensures EvaluationPlan(old(db.t), user, id).Query? ==>
              var step := EvaluationPlan(old(db.t), user, id);
              var outcome := EvaluationOutcome(old(db.t).files, step.path, step.correction, model.reply);
              model.prompts == old(model.prompts) +
                (if ReadDocument(old(db.t).files, step.path).Some?
                 then [ComparisonPrompt(ReadDocument(old(db.t).files, step.path).value, step.correction)] else []) &&
              (outcome.None? || Get(outcome.value, "note_finale").None? ==> r == EvaluationError && db.t == old(db.t)) &&
              (outcome.Some? && Get(outcome.value, "note_finale").Some? ==>
                 r == Evaluated(outcome.value) &&
                 db.t == old(db.t).(submissions := SetEvaluation(old(db.t).submissions, id, Stringify(outcome.value, ""),
                                                                 Column(Get(outcome.value, "note_finale").value))))
    ensures Valid(old(db.t)) ==> Valid(db.t)
  {
    var step := EvaluationPlan(db.t, user, id);
    if step.Answer? {
      return step.reply;
    }
    var result := Ollama.EvaluateSubmission(model, db.t.files, step.path, step.correction);
    if result.None? || Get(result.value, "note_finale").None? {
      // Reading `note_finale` of `null` throws; mysql2 refuses an undefined
      // `note_finale` before the statement runs.
      return EvaluationError;
    }
    var updated := SetEvaluation(db.t.submissions, id, Stringify(result.value, ""), Column(Get(result.value, "note_finale").value));
    SameKeysKeepValid(db.t, updated);
    db.t := db.t.(submissions := updated);
    r := Evaluated(result.value);
  }

  /** After an evaluation is stored, the row holds a truthy evaluation that
      parses back to the model's value, next to the proposed grade: the next
      request returns the stored evaluation without a query. */
  lemma {:induction false} StoredEvaluationIsReturnedNext(subs: seq<Submission>, id: nat, v: Json, i: nat)
    requires i < |subs| && subs[i].id == id
    requires Get(v, "note_finale").Some?
    ensures var s := SetEvaluation(subs, id, Stringify(v, ""), Column(Get(v, "note_finale").value))[i];
            HasEvaluation(s) && s.noteProposee == Column(Get(v, "note_finale").value) &&
            Parse(s.evaluationAuto.value) == Some(ToJs(v)) &&
            (IsJsValue(v) ==> Parse(s.evaluationAuto.value) == Some(v))
  {
    StringifyNonEmpty(v);
    JsonRoundTrip.ParseStringify(v, "");
  }

  // ---------------------------------------------------------------------------
  // checkPlagiarism: the prompt

  const Placeholder: string := "Erreur lors de la lecture du fichier"
  const ExcerptLength: nat := 2000

  /** The submissions of the exam joined with their students, in table order. */
  function Cohort(t: Tables, examId: nat): (r: seq<Row>)
    ensures forall x :: x in r <==> SubmissionController.Joins(x, t, true, false) && x.sub.examenId == examId
  {
    Where(SubmissionController.Joined(t, true, false), (x: Row) => x.sub.examenId == examId)
  }

  /** The text read for a submission, or the placeholder when reading fails
      (no URL, a missing file, a PDF without text). */
  function Content(files: map<string, FileEntry>, url: Option<string>): (r: string)
    ensures url.Some? && ReadDocument(files, url.value).Some? ==> r == ReadDocument(files, url.value).value
    ensures url.None? || ReadDocument(files, url.value).None? ==> r == Placeholder
  {
    match url
    case None => Placeholder
    case Some(u) =>
      match ReadDocument(files, u)
      case None => Placeholder
      case Some(c) => c
  }

  /** `content.substring(0, 2000)`, a space, and `...` when the content was
      longer. */
  function Excerpt(content: string): (r: string)
    ensures IsPrefix(content[..if |content| <= ExcerptLength then |content| else ExcerptLength], r)
    ensures |r| == (if |content| <= ExcerptLength then |content| + 1 else ExcerptLength + 4)
    ensures IsSuffix("...", r) <==> |content| > ExcerptLength
  {
    if |content| <= ExcerptLength then
      assert (content + " ")[|content|] == ' ';
      content + " "
    else content[..ExcerptLength] + " ..."
  }

  function StudentName(x: Row): string
  {
    match x.student
    case Some(u) => u.prenom + " " + u.nom
    case None => ""
  }

  function EntryHeader(n: nat): string
  {
    "ÉTUDIANT " + NatText(n) + ": "
  }

  /** One student's block of the plagiarism prompt: the numbered header, the
      student's name and id, and the excerpt of the copy. */
  function Entry(n: nat, x: Row, files: map<string, FileEntry>): (r: string)
    ensures IsPrefix(EntryHeader(n), r)
    ensures IsSuffix(Excerpt(Content(files, x.sub.fichierUrl)), r)
  {
    var who := StudentName(x) + " (ID: " + NatText(x.sub.id) + ")\n    ";
    Framed(EntryHeader(n), who, Excerpt(Content(files, x.sub.fichierUrl)));
    EntryHeader(n) + who + Excerpt(Content(files, x.sub.fichierUrl))
  }

  /** The blocks of all the copies, numbered from 1. */
  function Entries(rows: seq<Row>, files: map<string, FileEntry>): (r: seq<string>)
    ensures |r| == |rows|
    ensures forall i :: 0 <= i < |rows| ==> IsPrefix(EntryHeader(i + 1), r[i])
    ensures forall i :: 0 <= i < |rows| ==> IsSuffix(Excerpt(Content(files, rows[i].sub.fichierUrl)), r[i])
  {
    seq(|rows|, i requires 0 <= i < |rows| => Entry(i + 1, rows[i], files))
  }

  const PlagiarismIntro: string :=
    "\nTu es un système de détection de plagiat pour des examens.\nVoici les copies de "
  const PlagiarismCount: string :=
    " étudiants pour le même examen.\nAnalyse ces copies et identifie les similarités suspectes qui pourraient indiquer du plagiat.\n\n"
  const PlagiarismTail: string :=
    "\n\nRéponds au format JSON avec:\n1. Une matrice de similarité entre chaque paire de copies (pourcentage)\n2. Les passages spécifiques qui semblent copiés\n3. Une évaluation globale du risque de plagiat pour chaque étudiant\n\nFormat de réponse:\n{\n  \"matrice_similarite\": [\n    [étudiant1_id, étudiant2_id, pourcentage_similarite],\n    ...\n  ],\n  \"passages_suspects\": [\n    {\n      \"etudiants\": [id1, id2],\n      \"texte\": \"passage suspect...\",\n      \"confiance\": pourcentage\n    },\n    ...\n  ],\n  \"evaluation_risque\": [\n    {\"etudiant_id\": id, \"risque\": \"élevé/moyen/faible\", \"justification\": \"...\"},\n    ...\n  ]\n}\n"

  /** The plagiarism prompt: the number of copies, the entries separated
      by blank lines, then the reply format. */
  function PlagiarismPrompt(t: Tables, examId: nat): (r: string)
    ensures IsPrefix(PlagiarismIntro + NatText(|Cohort(t, examId)|) + PlagiarismCount, r)
    ensures IsSuffix(PlagiarismTail, r)
  {
    var rows := Cohort(t, examId);
    var head := PlagiarismIntro + NatText(|rows|) + PlagiarismCount;
    Framed(head, Join(Entries(rows, t.files), "\n\n"), PlagiarismTail);
    head + Join(Entries(rows, t.files), "\n\n") + PlagiarismTail
  }

  /** What the model's reply to the plagiarism prompt yields. */
  function PlagiarismResult(t: Tables, examId: nat, reply: string -> Option<string>): Option<Json>
  {
    match reply(PlagiarismPrompt(t, examId))
    case None => None
    case Some(raw) => ExtractJson(raw)
  }

  // ---------------------------------------------------------------------------
  // checkPlagiarism: the flags

  /** The flag a risk token gives once lower-cased. */
  function RiskToFlag(risk: string): (f: real)
    ensures f == 1.0 <==> Lower(risk) == "élevé"
    ensures f == 0.5 <==> Lower(risk) == "moyen"
    ensures f == 0.0 <==> Lower(risk) != "élevé" && Lower(risk) != "moyen"
  {
    var level := Lower(risk);
    if level == "élevé" then 1.0 else if level == "moyen" then 0.5 else 0.0
  }

  /** Upper-case and mixed-case accented tokens map like their lower-case
      form; the unaccented `eleve` and `faible` give no flag. */
  lemma {:induction false} RiskTokens()
    ensures RiskToFlag("élevé") == 1.0 && RiskToFlag("Élevé") == 1.0 && RiskToFlag("ÉLEVÉ") == 1.0
    ensures RiskToFlag("moyen") == 0.5 && RiskToFlag("Moyen") == 0.5
    ensures RiskToFlag("faible") == 0.0 && RiskToFlag("eleve") == 0.0
  {
    assert Lower("Élevé") == "élevé";
    assert Lower("ÉLEVÉ") == "élevé";
    assert Lower("élevé") == "élevé";
    assert Lower("moyen") == "moyen";
    assert Lower("Moyen") == "moyen";
    assert Lower("faible") != "élevé" && Lower("faible") != "moyen";
    assert Lower("eleve")[0] == 'e' && Lower("eleve")[1] == 'l';
  }

  /** What `WHERE id = ?` selects for a value bound in place of `?`:
      no row, the row with one id, or an error that fails the statement. */
  datatype Target = NoRow | RowId(id: nat) | Refused

  function Pow10(n: nat): (r: nat)
    ensures r >= 1
  {
    if n == 0 then 1 else 10 * Pow10(n - 1)
  }

  /** The natural number a decimal denotes, if it is one. */
  function DecimalNat(d: Decimal): (r: Option<nat>)
    ensures d.exponent == 0 ==> (r.Some? <==> d.mantissa >= 0)
    ensures d.exponent == 0 && r.Some? ==> r.value == d.mantissa
  {
    if d.mantissa < 0 then None
    else if d.exponent >= 0 then Some(d.mantissa * Pow10(d.exponent))
    else if d.mantissa % Pow10(-d.exponent) == 0 then Some(d.mantissa / Pow10(-d.exponent))
    else None
  }

  /** The exponent of a number MySQL reads from a string: `e` or `E`, an
      optional sign and digits; without digits the `e` is not part of the
      number. */
  function SqlExponent(s: string): (r: (int, string))
    ensures s == [] || (s[0] != 'e' && s[0] != 'E') ==> r == (0, s)
  {
    if s == [] || (s[0] != 'e' && s[0] != 'E') then (0, s)
    else
      var t := s[1..];
      var u := if t != [] && (t[0] == '-' || t[0] == '+') then t[1..] else t;
      var ds := DigitRun(u);
      var e: int := DigitsValue(ds);
      if ds == [] then (0, s)
      else (if t[0] == '-' then -e else e, u[|ds|..])
  }

  /** The number MySQL reads from a string compared with an integer
      column: white space, an optional sign, then an unsigned number.
      `None` when the string is not such a number: MySQL truncates it with a
      warning, which fails an `UPDATE` in strict mode. */
  function SqlNumber(s: string): (r: Option<Decimal>)
  {
    var t := SkipWs(s);
    if t != [] && t[0] == '-' then
      match SqlUnsigned(t[1..])
      case Some(d) => Some(Decimal(-d.mantissa, d.exponent))
      case None => None
    else if t != [] && t[0] == '+' then SqlUnsigned(t[1..])
    else SqlUnsigned(t)
  }

  /** Digits with an optional fraction (at least one digit in all), an
      optional exponent, then white space only. */
  function SqlUnsigned(u: string): (r: Option<Decimal>)
    ensures r.Some? ==> r.value.mantissa >= 0
  {
    var ip := DigitRun(u);
    var u2 := u[|ip|..];
    if u2 != [] && u2[0] == '.' then
      var fp := DigitRun(u2[1..]);
      SqlScaled(ip, fp, u2[1..][|fp|..])
    else SqlScaled(ip, [], u2)
  }

  /** The number with integer digits `ip` and fraction digits `fp`, and
      what follows them. */
  function SqlScaled(ip: string, fp: string, rest: string): (r: Option<Decimal>)
    requires AllDigits(ip) && AllDigits(fp)
    ensures r.Some? ==> r.value.mantissa >= 0
  {
    if ip == [] && fp == [] then None
    else
      var (e, tail) := SqlExponent(rest);
      if !AllWs(tail) then None
      else
        assert AllDigits(ip + fp);
        Some(Decimal(DigitsValue(ip + fp), e - |fp|))
  }

  /** The rows `WHERE id = ?` selects when `v` is bound (`None` is
      `undefined`): mysql2 refuses `undefined`; `NULL` equals nothing; a
      boolean is bound as 1 or 0; a number selects the row with that id
      when it is a natural number; a string is read as a number by MySQL;
      an array or object is bound as its JSON text, which starts with a
      bracket and is no number. */
  function BoundId(v: Option<Json>): (r: Target)
    ensures v.None? ==> r == Refused
    ensures v == Some(JNull) ==> r == NoRow
    ensures v.Some? && (v.value.JNum? || v.value.JBool?) ==> !r.Refused?
    ensures v.Some? && (v.value.JArr? || v.value.JObj?) ==> r == Refused
    ensures v.Some? && v.value.JStr? ==> (r.Refused? <==> SqlNumber(v.value.s).None?)
    ensures v.Some? && v.value.JStr? && r.RowId? ==> Some(r.id) == DecimalNat(SqlNumber(v.value.s).value)
  {
    match v
    case None => Refused
    case Some(JNull) => NoRow
    case Some(JBool(b)) => RowId(if b then 1 else 0)
    case Some(JNum(d)) => NatRow(DecimalNat(d))
    case Some(JStr(s)) => if SqlNumber(s).None? then Refused else NatRow(DecimalNat(SqlNumber(s).value))
    case Some(JArr(_)) => Refused
    case Some(JObj(_)) => Refused
  }

  function NatRow(n: Option<nat>): Target
  {
    match n
    case Some(id) => RowId(id)
    case None => NoRow
  }

  /** The decimal text of an id, with blanks around it, selects the same row
      as the number itself. */
  lemma {:induction false} DecimalTextSelectsRow(n: nat, pre: string, post: string)
    requires AllWs(pre) && AllWs(post)
    ensures BoundId(Some(JStr(pre + NatText(n) + post))) == RowId(n)
    ensures BoundId(Some(JNum(Decimal(n, 0)))) == RowId(n)
  {
    NumberDigits(NatText(n), pre, post);
    NatTextValue(n);
  }

  lemma {:induction false} NumberDigits(digits: string, pre: string, post: string)
    requires digits != [] && AllDigits(digits) && AllWs(pre) && AllWs(post)
    ensures SqlNumber(pre + digits + post) == Some(Decimal(DigitsValue(digits), 0))
  {
    assert pre + digits + post == pre + (digits + post);
    JsonRoundTrip.SkipWsOver(pre, digits + post);
    assert (digits + post)[0] == digits[0];
    UnsignedDigits(digits, post);
  }

  lemma {:induction false} UnsignedDigits(digits: string, post: string)
    requires digits != [] && AllDigits(digits) && AllWs(post)
    ensures SqlUnsigned(digits + post) == Some(Decimal(DigitsValue(digits), 0))
  {
    assert post == [] || !IsDigit(post[0]);
    JsonRoundTrip.DigitRunOver(digits, post);
    assert (digits + post)[|digits|..] == post;
    assert digits + [] == digits;
    assert SqlExponent(post) == (0, post);
  }

  /** A string that starts with neither white space, a sign, a digit nor a
      point (a name, say) fails the statement. */
  lemma {:induction false} WordIsRefused(s: string)
    requires s != [] && !IsWs(s[0]) && !IsDigit(s[0]) && s[0] != '-' && s[0] != '+' && s[0] != '.'
    ensures BoundId(Some(JStr(s))) == Refused
  {
    assert SkipWs(s) == s;
    assert DigitRun(s) == [];
  }

  /** An entry of `evaluation_risque` the loop body completes: its `risque`
      is a string (anything else makes `toLowerCase` throw), its
      `justification` is defined (mysql2 refuses `undefined`), and its
      `etudiant_id` is bound without failing the statement. */
  predicate Assessable(item: Json)
    ensures Assessable(item) ==> item.JObj?
    ensures Assessable(item) ==> TargetId(item).NoRow? || TargetId(item).RowId?
  {
    Get(item, "risque").Some? && Get(item, "risque").value.JStr? &&
    Get(item, "justification").Some? &&
    !TargetId(item).Refused?
  }

  /** A string risk on an object entry, a defined justification and a
      numeric id are all the loop body needs. */
  lemma {:induction false} NumericEntryAssessable(risk: string, justification: Json, id: Decimal)
    ensures Assessable(JObj([Member("etudiant_id", JNum(id)), Member("risque", JStr(risk)),
                             Member("justification", justification)]))
  {
    var item := JObj([Member("etudiant_id", JNum(id)), Member("risque", JStr(risk)),
                      Member("justification", justification)]);
    assert Get(item, "risque") == Some(JStr(risk));
    assert Get(item, "justification") == Some(justification);
    assert Get(item, "etudiant_id") == Some(JNum(id));
  }

  function RiskFlag(item: Json): real
    requires Assessable(item)
  {
    RiskToFlag(Get(item, "risque").value.s)
  }

  /** The row the entry's update selects. */
  function TargetId(item: Json): (r: Target)
    ensures r.RowId? ==> Get(item, "etudiant_id").Some?
    ensures Get(item, "etudiant_id").None? ==> r.Refused?
  {
    BoundId(Get(item, "etudiant_id"))
  }

  function Details(item: Json): Option<Json>
    requires Assessable(item)
  {
    Column(Get(item, "justification").value)
  }

  /** `UPDATE soumissions SET plagiat_flag = ?, plagiat_details = ? WHERE id = ?`. */
  function SetPlagiarism(subs: seq<Submission>, id: nat, flag: real, details: Option<Json>): (r: seq<Submission>)
    ensures |r| == |subs|
    ensures forall i :: 0 <= i < |subs| ==>
              r[i].(plagiatFlag := subs[i].plagiatFlag, plagiatDetails := subs[i].plagiatDetails) == subs[i]
    ensures forall i :: 0 <= i < |subs| && subs[i].id == id ==> r[i].plagiatFlag == flag && r[i].plagiatDetails == details
    ensures forall i :: 0 <= i < |subs| && subs[i].id != id ==> r[i] == subs[i]
  {
    if subs == [] then []
    else
      var s := subs[0];
      [if s.id == id then s.(plagiatFlag := flag, plagiatDetails := details) else s] +
      SetPlagiarism(subs[1..], id, flag, details)
  }

  /** One iteration of the flag loop. */
  function FlagOne(subs: seq<Submission>, item: Json): (r: seq<Submission>)
    requires Assessable(item)
  {
    match TargetId(item)
    case RowId(id) => SetPlagiarism(subs, id, RiskFlag(item), Details(item))
    case _ => subs
  }

  /** The submissions after the loop has processed `items` in order. */
  function ApplyFlags(subs: seq<Submission>, items: seq<Json>): (r: seq<Submission>)
    requires forall i :: 0 <= i < |items| ==> Assessable(items[i])
    ensures |r| == |subs|
    ensures forall i :: 0 <= i < |subs| ==>
              r[i].(plagiatFlag := subs[i].plagiatFlag, plagiatDetails := subs[i].plagiatDetails) == subs[i]
    decreases |items|
  {
    if items == [] then subs
    else FlagOne(ApplyFlags(subs, items[..|items| - 1]), items[|items| - 1])
  }

  /** One entry's update changes the row it selects and no other. */
  lemma {:induction false} FlagOneAt(subs: seq<Submission>, item: Json, k: nat)
    requires Assessable(item) && k < |subs|
    ensures |FlagOne(subs, item)| == |subs|
    ensures TargetId(item) == RowId(subs[k].id) ==>
              FlagOne(subs, item)[k] == subs[k].(plagiatFlag := RiskFlag(item), plagiatDetails := Details(item))
    ensures TargetId(item) != RowId(subs[k].id) ==> FlagOne(subs, item)[k] == subs[k]
  {
  }

  /** A row whose id no entry names keeps its flag and details. */
  lemma {:induction false} UnassessedRowKept(subs: seq<Submission>, items: seq<Json>, k: nat)
    requires forall i :: 0 <= i < |items| ==> Assessable(items[i])
    requires k < |subs|
    requires forall j :: 0 <= j < |items| ==> TargetId(items[j]) != RowId(subs[k].id)
    ensures ApplyFlags(subs, items)[k] == subs[k]
    decreases |items|
  {
    if items != [] {
      var n := |items| - 1;
      var prefix := items[..n];
      UnassessedRowKept(subs, prefix, k);
      FlagOneAt(ApplyFlags(subs, prefix), items[n], k);
    }
  }

  /** With several entries for the same row, the last one wins. */
  lemma {:induction false} LastAssessmentWins(subs: seq<Submission>, items: seq<Json>, j: nat, k: nat)
    requires forall i :: 0 <= i < |items| ==> Assessable(items[i])
    requires k < |subs| && j < |items|
    requires TargetId(items[j]) == RowId(subs[k].id)
    requires forall j' :: j < j' < |items| ==> TargetId(items[j']) != RowId(subs[k].id)
    ensures ApplyFlags(subs, items)[k] == subs[k].(plagiatFlag := RiskFlag(items[j]), plagiatDetails := Details(items[j]))
    decreases |items|
  {
    var n := |items| - 1;
    var prefix := items[..n];
    assert forall i :: 0 <= i < n ==> prefix[i] == items[i];
    var before := ApplyFlags(subs, prefix);
    assert ApplyFlags(subs, items) == FlagOne(before, items[n]);
    assert before[k].id == subs[k].id;
    FlagOneAt(before, items[n], k);
    if j < n {
      LastAssessmentWins(subs, prefix, j, k);
    } else {
      SameRowFlagged(subs[k], before[k], RiskFlag(items[j]), Details(items[j]));
    }
  }

  lemma {:induction false} SameRowFlagged(s: Submission, b: Submission, flag: real, details: Option<Json>)
    requires b.(plagiatFlag := s.plagiatFlag, plagiatDetails := s.plagiatDetails) == s
    ensures b.(plagiatFlag := flag, plagiatDetails := details) == s.(plagiatFlag := flag, plagiatDetails := details)
  {
  }

  /** The index of the first entry the loop body throws on. */
  function FirstUnassessable(items: seq<Json>): (r: nat)
    ensures r <= |items|
    ensures forall i :: 0 <= i < r ==> Assessable(items[i])
    ensures r < |items| ==> !Assessable(items[r])
  {
    if items == [] then 0
    else if !Assessable(items[0]) then 0
    else 1 + FirstUnassessable(items[1..])
  }

  /** What `for (const eval of v.evaluation_risque)` iterates over: an array's
      elements, or nothing for the empty string; `None` when the value is not
      iterable or its elements are characters, which throws at once. */
  function RiskEntries(v: Json): (r: Option<seq<Json>>)
    ensures r.Some? <==> Get(v, "evaluation_risque").Some? &&
                         (Get(v, "evaluation_risque").value.JArr? || Get(v, "evaluation_risque").value == JStr(""))
    ensures r.Some? && Get(v, "evaluation_risque").value.JArr? ==> r.value == Get(v, "evaluation_risque").value.items
    ensures r.Some? && !Get(v, "evaluation_risque").value.JArr? ==> r.value == []
  {
    match Get(v, "evaluation_risque")
    case Some(JArr(items)) => Some(items)
    case Some(JStr(s)) => if s == "" then Some([]) else None
    case _ => None
  }

  /** The flag loop: each entry's update in order; an entry the body cannot
      process ends the loop with an error, keeping the updates before it. */
  method FlagSubmissions(db: Db, items: seq<Json>) returns (ok: bool)
    modifies db
    ensures ok <==> FirstUnassessable(items) == |items|
    ensures db.t == old(db.t).(submissions := ApplyFlags(old(db.t).submissions, items[..FirstUnassessable(items)]))
  {
    var i := 0;
    while i < |items|
      invariant 0 <= i <= |items|
      invariant forall j :: 0 <= j < i ==> Assessable(items[j])
      invariant db.t == old(db.t).(submissions := ApplyFlags(old(db.t).submissions, items[..i]))
    {
      if !Assessable(items[i]) {
        assert FirstUnassessable(items) == i;
        return false;
      }
      assert items[..i + 1][..i] == items[..i];
      assert items[..i + 1][i] == items[i];
      db.t := db.t.(submissions := FlagOne(db.t.submissions, items[i]));
      i := i + 1;
    }
    assert items[..|items|] == items;
    ok := true;
  }

  datatype PlagiarismReply =
    | PlagiarismForbidden
    | TooFewSubmissions
    | PlagiarismError
    | PlagiarismDone(result: Json)

  function PlagiarismStatus(r: PlagiarismReply): nat
  {
    match r
    case PlagiarismForbidden => 403
    case TooFewSubmissions => 400
    case PlagiarismError => 500
    case PlagiarismDone(_) => 200
  }

  /** The submissions once the flag loop has run over the result's entries. */
  function FlaggedSubmissions(subs: seq<Submission>, v: Json): seq<Submission>
  {
    match RiskEntries(v)
    case None => subs
    case Some(items) => ApplyFlags(subs, items[..FirstUnassessable(items)])
  }

  /** `checkPlagiarism`: 403 unless the caller owns the exam; 400 with fewer
      than two submissions, before any file is read or the model queried;
      otherwise one query, the stored result, and the flag loop. */
  method CheckPlagiarism(db: Db, model: ModelEndpoint, user: Claims, examId: nat) returns (r: PlagiarismReply)
    modifies db, model
    ensures r == PlagiarismForbidden <==> !OwnsExam(old(db.t).exams, examId, user.id)
    ensures r == TooFewSubmissions <==> OwnsExam(old(db.t).exams, examId, user.id) && |Cohort(old(db.t), examId)| < 2
    ensures r == PlagiarismForbidden || r == TooFewSubmissions ==>
              db.t == old(db.t) && model.prompts == old(model.prompts)
    ensures r != PlagiarismForbidden && r != TooFewSubmissions ==>
              model.prompts == old(model.prompts) + [PlagiarismPrompt(old(db.t), examId)]
    ensures r != PlagiarismForbidden && r != TooFewSubmissions && PlagiarismResult(old(db.t), examId, model.reply).None? ==>
              r == PlagiarismError && db.t == old(db.t)
    ensures r != PlagiarismForbidden && r != TooFewSubmissions && PlagiarismResult(old(db.t), examId, model.reply).Some? ==>
              var v := PlagiarismResult(old(db.t), examId, model.reply).value;
              db.t == old(db.t).(plagiarism := old(db.t).plagiarism[examId := Stringify(v, "")],
                                 submissions := FlaggedSubmissions(old(db.t).submissions, v)) &&
              (r == PlagiarismDone(v) <==>
                 RiskEntries(v).Some? && FirstUnassessable(RiskEntries(v).value) == |RiskEntries(v).value|) &&
              (r != PlagiarismDone(v) ==> r == PlagiarismError)
    ensures Valid(old(db.t)) ==> Valid(db.t)
  {
    if !OwnsExam(db.t.exams, examId, user.id) {
      return PlagiarismForbidden;
    }
    var rows := Cohort(db.t, examId);
    if |rows| < 2 {
      return TooFewSubmissions;
    }
    r := RunPlagiarismCheck(db, model, examId);
  }

  /** What `checkPlagiarism` does once its checks pass. */
  method RunPlagiarismCheck(db: Db, model: ModelEndpoint, examId: nat) returns (r: PlagiarismReply)
    modifies db, model
    ensures r == PlagiarismError || r.PlagiarismDone?
    ensures model.prompts == old(model.prompts) + [PlagiarismPrompt(old(db.t), examId)]
    ensures PlagiarismResult(old(db.t), examId, model.reply).None? ==> r == PlagiarismError && db.t == old(db.t)
    ensures PlagiarismResult(old(db.t), examId, model.reply).Some? ==>
              var v := PlagiarismResult(old(db.t), examId, model.reply).value;
              db.t == old(db.t).(plagiarism := old(db.t).plagiarism[examId := Stringify(v, "")],
                                 submissions := FlaggedSubmissions(old(db.t).submissions, v)) &&
              (r == PlagiarismDone(v) <==>
                 RiskEntries(v).Some? && FirstUnassessable(RiskEntries(v).value) == |RiskEntries(v).value|) &&
              (r != PlagiarismDone(v) ==> r == PlagiarismError)
    ensures Valid(old(db.t)) ==> Valid(db.t)
  {
    var t0 := db.t;
    var result := AskForPlagiarism(model, t0, examId);
    if result.None? {
      return PlagiarismError;
    }
    var v := result.value;
    var ok := StoreResult(db, examId, v);
    SameKeysKeepValid(t0, FlaggedSubmissions(t0.submissions, v));
    if !ok {
      return PlagiarismError;
    }
    r := PlagiarismDone(v);
  }

  /** The one query of the plagiarism check and the value read from the reply. */
  method AskForPlagiarism(model: ModelEndpoint, t: Tables, examId: nat) returns (result: Option<Json>)
    modifies model
    ensures model.prompts == old(model.prompts) + [PlagiarismPrompt(t, examId)]
    ensures result == PlagiarismResult(t, examId, model.reply)
  {
    var raw := model.Query(PlagiarismPrompt(t, examId));
    if raw.None? {
      return None;
    }
    result := ExtractJson(raw.value);
  }

  /** The upsert of the result, then the flag loop over its entries. */
  method StoreResult(db: Db, examId: nat, v: Json) returns (ok: bool)
    modifies db
    ensures db.t == old(db.t).(plagiarism := old(db.t).plagiarism[examId := Stringify(v, "")],
                               submissions := FlaggedSubmissions(old(db.t).submissions, v))
    ensures ok <==> RiskEntries(v).Some? && FirstUnassessable(RiskEntries(v).value) == |RiskEntries(v).value|
  {
    db.t := db.t.(plagiarism := db.t.plagiarism[examId := Stringify(v, "")]);
    var entries := RiskEntries(v);
    if entries.None? {
      return false;
    }
    ok := FlagSubmissions(db, entries.value);
  }

  // ---------------------------------------------------------------------------
  // chatbotQuery

  const ChatIntro: string :=
    "\nTu es un assistant pédagogique qui aide les étudiants à comprendre leurs examens.\nUn étudiant te pose la question suivante à propos d'un examen:\n\n\""
  const ChatQuestionEnd: string := "\"\n\n"
  // The two long texts are each written as a short lead joined to the
  // rest, so that the verifier can read their first characters.
  const ChatFooter: string :=
    "\nIMPORTANT:" + " Ne donne pas directement les réponses aux questions de l'examen.\nAide l'étudiant à comprendre le sujet et à trouver la réponse par lui-même.\nDonne des indications, des explications sur les concepts, ou des exemples similaires.\n"
  const CorrectionIntro: string :=
    "\nVoici des" + " éléments du corrigé que tu peux utiliser pour guider l'étudiant (sans donner directement les réponses):\nConcepts clés: "
  const CriteriaLabel: string := "\nCritères d'évaluation: "

  const ExamHead: string := "\nVoici le sujet de l'examen:\n"

  function ExamSection(content: string): string
  {
    ExamHead + content + "\n"
  }

  /** The text `Array.prototype.join` gives an element (`null` is empty,
      nested arrays are joined with commas). */
  function ElementText(j: Json): string
  {
    match j
    case JNull => ""
    case JBool(b) => if b then "true" else "false"
    case JNum(n) => NumText(n)
    case JStr(s) => s
    case JArr(items) => Join(seq(|items|, i requires 0 <= i < |items| => ElementText(items[i])), ",")
    case JObj(_) => "[object Object]"
  }

  /** `JSON.stringify(x)` in a template: `undefined` for a missing property. */
  function CriteriaText(v: Option<Json>): string
  {
    match v
    case None => "undefined"
    case Some(j) => Stringify(j, "")
  }

  /** The correction section; `None` when `concepts_cles` is not an array,
      where `.join` throws. */
  function CorrectionSection(correction: Json): (r: Option<string>)
    ensures r.Some? ==> IsPrefix(CorrectionIntro, r.value)
    ensures r.Some? <==> Get(correction, "concepts_cles").Some? && Get(correction, "concepts_cles").value.JArr?
  {
    match Get(correction, "concepts_cles")
    case Some(JArr(items)) =>
      Some(CorrectionIntro + (Join(seq(|items|, i requires 0 <= i < |items| => ElementText(items[i])), ", ") +
                              CriteriaLabel + CriteriaText(Get(correction, "criteres_evaluation")) + "\n"))
    case _ => None
  }

  /** The exam text the prompt includes: none without a file URL or when
      reading fails. */
  function ExamText(files: map<string, FileEntry>, url: Option<string>): Option<string>
  {
    if HasFile(url) then ReadDocument(files, url.value) else None
  }

  function ExamPart(examText: Option<string>): string
  {
    if examText.Some? then ExamSection(examText.value) else ""
  }

  /** The correction part of the prompt: empty exactly when the stored
      correction is falsy (none is stored as `null`); `None` when building
      the section throws. */
  function CorrectionPart(correction: Json): (r: Option<string>)
    ensures r == Some("") <==> !Truthy(correction)
    ensures Truthy(correction) ==> r == CorrectionSection(correction)
  {
    if !Truthy(correction) then Some("") else CorrectionSection(correction)
  }

  /** The quoted question that opens the prompt. */
  function ChatHead(question: string): string
  {
    ChatIntro + question + ChatQuestionEnd
  }

  /** The chatbot prompt, or `None` when building it throws. */
  function ChatPrompt(question: string, examText: Option<string>, correction: Json): (r: Option<string>)
    ensures r.None? <==> Truthy(correction) && CorrectionSection(correction).None?
    ensures r.Some? ==> IsPrefix(ChatHead(question), r.value) && IsSuffix(ChatFooter, r.value)
  {
    match CorrectionPart(correction)
    case None => None
    case Some(part) =>
      Bracketed(ChatHead(question), ExamPart(examText), part, ChatFooter);
      Some(ChatHead(question) + ExamPart(examText) + part + ChatFooter)
  }

  /** The prompt always opens with the question in quotes and ends with the
      instruction not to give answers. */
  lemma {:induction false} ChatPromptShape(question: string, examText: Option<string>, correction: Json)
    requires ChatPrompt(question, examText, correction).Some?
    ensures var p := ChatPrompt(question, examText, correction).value;
            IsPrefix(ChatHead(question), p) && IsSuffix(ChatFooter, p) &&
            p[|ChatIntro|..|ChatIntro| + |question|] == question
  {
    var part := CorrectionPart(correction).value;
    Bracketed(ChatHead(question), ExamPart(examText), part, ChatFooter);
    QuotedAt(ChatIntro, question, ChatQuestionEnd, ExamPart(examText) + part + ChatFooter);
  }

  lemma {:induction false} Bracketed(a: string, b: string, c: string, z: string)
    ensures IsPrefix(a, a + b + c + z) && IsSuffix(z, a + b + c + z)
  {
    assert (a + b + c + z)[..|a|] == a;
    assert (a + b + c + z)[|a + b + c + z| - |z|..] == z;
  }

  lemma {:induction false} QuotedAt(a: string, q: string, b: string, rest: string)
    ensures |a| + |q| <= |a + q + b + rest| - |rest|
    ensures (a + q + b) + rest == a + q + b + rest
    ensures (a + q + b + rest)[|a|..|a| + |q|] == q
  {
  }

  /** The exam section is in the prompt exactly when the exam text could
      be read (a read error is skipped), and the correction section exactly
      when a correction is stored; building the prompt fails only when a
      stored correction has no `concepts_cles` array. */
  lemma {:induction false} ChatPromptSections(question: string, examText: Option<string>, correction: Json)
    ensures ChatPrompt(question, examText, correction).None? <==> Truthy(correction) && CorrectionSection(correction).None?
    ensures ChatPrompt(question, examText, correction).Some? ==>
              var p := ChatPrompt(question, examText, correction).value;
              var k := |ChatHead(question)|;
              (OccursAt(p, ExamHead, k) <==> examText.Some?) &&
              (OccursAt(p, CorrectionIntro, k + |ExamPart(examText)|) <==> Truthy(correction))
  {
    var part := CorrectionPart(correction);
    if part.Some? {
      PromptLayout(ChatHead(question), examText, part.value, Truthy(correction));
    }
  }

  /** Where the sections start in a prompt laid out as head, exam part,
      correction part and footer. */
  lemma {:induction false} PromptLayout(h: string, examText: Option<string>, p: string, hasCorrection: bool)
    requires hasCorrection ==> IsPrefix(CorrectionIntro, p)
    requires !hasCorrection ==> p == ""
    ensures OccursAt(h + ExamPart(examText) + p + ChatFooter, ExamHead, |h|) <==> examText.Some?
    ensures OccursAt(h + ExamPart(examText) + p + ChatFooter, CorrectionIntro, |h| + |ExamPart(examText)|) <==> hasCorrection
  {
    SectionLeads();
    Layout(h, examText, p, ChatFooter, ExamHead, CorrectionIntro, hasCorrection);
  }

  /** The layout argument for any exam heading `eh`, correction lead `cl`
      and footer `f` that differ at index 7. */
  lemma {:induction false} Layout(h: string, examText: Option<string>, p: string, f: string, eh: string, cl: string,
                                  hasCorrection: bool)
    requires |eh| > 7 && |cl| > 7 && |f| > 7
    requires eh[7] != cl[7] && eh[7] != f[7] && cl[7] != f[7]
    requires hasCorrection ==> IsPrefix(cl, p)
    requires !hasCorrection ==> p == ""
    ensures var x := if examText.Some? then eh + examText.value + "\n" else "";
            (OccursAt(h + x + p + f, eh, |h|) <==> examText.Some?) &&
            (OccursAt(h + x + p + f, cl, |h| + |x|) <==> hasCorrection)
  {
    var x := if examText.Some? then eh + examText.value + "\n" else "";
    var tail := p + f;
    assert h + x + p + f == h + (x + tail);
    assert tail[7] != eh[7] && (tail[7] == cl[7] <==> hasCorrection) by {
      if hasCorrection {
        assert tail[7] == p[7] == p[..|cl|][7];
      } else {
        assert tail == f;
      }
    }
    if examText.Some? {
      assert x + tail == eh + (examText.value + "\n" + tail);
      StartsWith(h, eh, examText.value + "\n" + tail);
    } else {
      assert x + tail == tail;
      DiffersAt(h, tail, eh, 7);
    }
    assert h + (x + tail) == (h + x) + tail;
    if hasCorrection {
      assert tail == cl + (p[|cl|..] + f);
      StartsWith(h + x, cl, p[|cl|..] + f);
    } else {
      DiffersAt(h + x, tail, cl, 7);
    }
  }

  /** The three sections that can follow the question differ in their
      eighth character. */
  lemma {:induction false} SectionLeads()
    ensures |ExamHead| > 7 && |CorrectionIntro| > 7 && |ChatFooter| > 7
    ensures ExamHead[7] == 'l' && CorrectionIntro[7] == 'd' && ChatFooter[7] == 'A'
  {
  }

  lemma {:induction false} StartsWith(a: string, b: string, rest: string)
    ensures OccursAt(a + (b + rest), b, |a|)
  {
    assert (a + (b + rest))[|a|..|a| + |b|] == b;
  }

  lemma {:induction false} DiffersAt(a: string, s: string, t: string, i: nat)
    requires i < |s| && i < |t| && s[i] != t[i]
    ensures !OccursAt(a + s, t, |a|)
  {
    assert (a + s)[|a| + i] == s[i];
  }

  datatype ChatReply = ExamMissing | ChatError | Answered(response: string)

  function ChatStatus(r: ChatReply): nat
  {
    match r
    case ExamMissing => 404
    case ChatError => 500
    case Answered(_) => 200
  }

  /** The parsed stored correction (`null` when there is none), or `None`
      when it does not parse. */
  function StoredCorrection(t: Tables, examId: nat): Option<Json>
  {
    match FirstCorrection(t.corrections, examId)
    case None => Some(JNull)
    case Some(text) => Parse(text)
  }

  /** `chatbotQuery`: 404 without the exam; the prompt is built by appends,
      sent once, and the exchange is recorded. */
  /** The prompt text the handler assembles step by step: the question, the
      exam section when the exam's file was read, the correction section when
      a correction is given, and the closing instructions. */
  method BuildChatPrompt(files: map<string, FileEntry>, exam: Exam, question: string, correction: Json)
    returns (prompt: Option<string>)
    ensures prompt == ChatPrompt(question, ExamText(files, exam.fichierUrl), correction)
  {
    var examText := ExamText(files, exam.fichierUrl);
    var text := ChatHead(question);
    if HasFile(exam.fichierUrl) {
      var content := ReadDocument(files, exam.fichierUrl.value);
      if content.Some? {
        text := text + ExamSection(content.value);
      }
    }
    assert text == ChatHead(question) + ExamPart(examText);
    var part := CorrectionPart(correction);
    if part.None? {
      return None;
    }
    if Truthy(correction) {
      text := text + part.value;
    } else {
      assert text + part.value == text;
    }
    text := text + ChatFooter;
    prompt := Some(text);
  }

  method ChatbotQuery(db: Db, model: ModelEndpoint, user: Claims, examId: nat, question: string)
    returns (r: ChatReply)
    modifies db, model
    ensures r == ExamMissing <==> ExamById(old(db.t).exams, examId).None?
    ensures ExamById(old(db.t).exams, examId).Some? && StoredCorrection(old(db.t), examId).Some? ==>
              var prompt := ChatPrompt(question, ExamText(old(db.t).files, ExamById(old(db.t).exams, examId).value.fichierUrl),
                                       StoredCorrection(old(db.t), examId).value);
              (prompt.Some? ==> model.prompts == old(model.prompts) + [prompt.value] &&
                                 (r.Answered? <==> model.reply(prompt.value).Some?) &&
                                 (r.Answered? ==> r.response == model.reply(prompt.value).value))
    ensures r.Answered? ==>
              db.t == old(db.t).(conversations := old(db.t).conversations + [Conversation(user.id, examId, question, r.response)])
    ensures !r.Answered? ==> db.t == old(db.t)
    ensures ExamById(old(db.t).exams, examId).Some? &&
            (StoredCorrection(old(db.t), examId).None? ||
             ChatPrompt(question, ExamText(old(db.t).files, ExamById(old(db.t).exams, examId).value.fichierUrl),
                        StoredCorrection(old(db.t), examId).value).None?) ==>
              r == ChatError && model.prompts == old(model.prompts)
    ensures r != ChatError && !r.Answered? ==> model.prompts == old(model.prompts)
  {
    var exam := ExamById(db.t.exams, examId);
    if exam.None? {
      return ExamMissing;
    }
    var correction := JNull;
    var stored := FirstCorrection(db.t.corrections, examId);
    if stored.Some? {
      var parsed := Parse(stored.value);
      if parsed.None? {
        return ChatError;
      }
      correction := parsed.value;
    }
    var prompt := BuildChatPrompt(db.t.files, exam.value, question, correction);
    if prompt.None? {
      return ChatError;
    }
    var answer := model.Query(prompt.value);
    if answer.None? {
      return ChatError;
    }
    db.t := db.t.(conversations := db.t.conversations + [Conversation(user.id, examId, question, answer.value)]);
    r := Answered(answer.value);
  }
}
