/** The language-model service: reading an exam or submission document
    (PDF or UTF-8 text, chosen by the file extension), the two prompt
    templates, and the reduction of the model's free-form reply to a JSON
    value (a fenced ```json block first, else the widest `{ ... }` span,
    then `JSON.parse`). The HTTP call to the model is an oracle. */
module Ollama {
  import opened Base
  import opened Json
  import JsonRoundTrip

  // ---------------------------------------------------------------------------
  // path.extname and the PDF test

  /** The path without its trailing `/` characters. */
  function TrimSlashes(p: string): (r: string)
    ensures IsPrefix(r, p)
    ensures r == [] || r[|r| - 1] != '/'
  {
    if p != [] && p[|p| - 1] == '/' then TrimSlashes(p[..|p| - 1]) else p
  }

  /** The last path component, as `path.extname` delimits it. */
  function Basename(p: string): (b: string)
    ensures '/' !in b
  {
    var q := TrimSlashes(p);
    match LastIndexOf(q, '/')
    case None => q
    case Some(i) => q[i + 1..]
  }

  /** `path.extname`: from the last `.` of the last component to its end;
      empty when there is no dot, when the component starts with its only
      dot, or when the component is `..`. */
  function Extname(p: string): (e: string)
  {
    var b := Basename(p);
    match LastIndexOf(b, '.')
    case None => ""
    case Some(i) => if i == 0 || b == ".." then "" else b[i..]
  }

  /** `path.extname(p).toLowerCase() === '.pdf'`. */
  predicate IsPdf(p: string)
  {
    Lower(Extname(p)) == ".pdf"
  }

  lemma {:induction false} LowerCharDot(c: char)
    ensures LowerChar(c) == '.' <==> c == '.'
  {
  }

  /** A path is read as a PDF exactly when its last component is longer than
      four characters and ends in `.pdf` in any letter case. */
  lemma {:induction false} IsPdfIff(p: string)
    ensures var b := Basename(p);
      IsPdf(p) <==> |b| > 4 && Lower(b[|b| - 4..]) == ".pdf"
  {
    var b := Basename(p);
    if IsPdf(p) {
      var e := Extname(p);
      assert |Lower(e)| == 4;
      var i := LastIndexOf(b, '.').value;
      assert e == b[i..];
    }
    if |b| > 4 && Lower(b[|b| - 4..]) == ".pdf" {
      var e := b[|b| - 4..];
      var k := |b| - 4;
      assert Lower(e)[0] == LowerChar(b[k]);
      LowerCharDot(b[k]);
      forall j | k < j < |b| ensures b[j] != '.' {
        assert Lower(e)[j - k] == LowerChar(b[j]);
        LowerCharDot(b[j]);
      }
      var i := LastIndexOf(b, '.').value;
      assert i == k;
      assert Extname(p) == e;
    }
  }

  /** A stored file: its UTF-8 text, and the text `pdf-parse` extracts from
      it (`None` when extraction fails). */
  datatype FileEntry = FileEntry(text: string, pdfText: Option<string>)

  /** Reading a document: the PDF text for a `.pdf` path, the UTF-8 text
      otherwise; `None` when the file is missing or the PDF unreadable. */
  function ReadDocument(files: map<string, FileEntry>, path: string): (r: Option<string>)
    ensures path !in files ==> r.None?
    ensures path in files && !IsPdf(path) ==> r == Some(files[path].text)
    ensures path in files && IsPdf(path) ==> r == files[path].pdfText
  {
    if path !in files then None
    else if IsPdf(path) then files[path].pdfText
    else Some(files[path].text)
  }

  // ---------------------------------------------------------------------------
  // Locating the JSON candidate in the reply

  const FenceOpen: string := "```json\n"
  const FenceClose: string := "\n```"

  /** `/```json\n([\s\S]*?)\n```/` can match from `p`, with the closing
      fence at `q`. */
  predicate FenceAt(s: string, p: int, q: int)
  {
    OccursAt(s, FenceOpen, p) && p + |FenceOpen| <= q && OccursAt(s, FenceClose, q)
  }

  /** The match the regular expression finds: the leftmost start, and the
      shortest body from it (the lazy `*?`). */
  ghost predicate LeftmostFence(s: string, p: int, q: int)
  {
    FenceAt(s, p, q) &&
    (forall p', q' :: p' < p ==> !FenceAt(s, p', q')) &&
    (forall q' :: q' < q ==> !FenceAt(s, p, q'))
  }

  function FenceMatch(s: string): (r: Option<(nat, nat)>)
    ensures r.Some? ==> FenceAt(s, r.value.0, r.value.1)
  {
    match IndexOf(s, FenceOpen, 0)
    case None => None
    case Some(p) =>
      match IndexOf(s, FenceClose, p + |FenceOpen|)
      case None => None
      case Some(q) => Some((p, q))
  }

  /** The search finds a fence exactly when one exists. */
  lemma {:induction false} FenceMatchNone(s: string)
    ensures FenceMatch(s).None? <==> forall p, q :: !FenceAt(s, p, q)
  {
  }

  /** The search finds the leftmost, shortest fenced block. */
  lemma {:induction false} FenceMatchIsLeftmost(s: string, p: int, q: int)
    ensures FenceMatch(s) == Some((p, q)) <==> LeftmostFence(s, p, q)
  {
    if FenceMatch(s) == Some((p, q)) {
      assert IndexOf(s, FenceOpen, 0) == Some(p as nat);
      assert IndexOf(s, FenceClose, p + |FenceOpen|) == Some(q as nat);
    }
    if LeftmostFence(s, p, q) {
      FenceMatchNone(s);
      var m := FenceMatch(s).value;
      var p0 := IndexOf(s, FenceOpen, 0).value;
      assert p0 <= p;
      assert p0 == p;
      assert m.1 <= q;
    }
  }

  /** `/\{[\s\S]*\}/` can match from `p` to `q`. */
  predicate BraceAt(s: string, p: int, q: int)
  {
    0 <= p < q < |s| && s[p] == '{' && s[q] == '}'
  }

  /** The match of the greedy expression: the leftmost start, and the
      longest span from it. */
  ghost predicate LeftmostBrace(s: string, p: int, q: int)
  {
    BraceAt(s, p, q) &&
    (forall p', q' :: p' < p ==> !BraceAt(s, p', q')) &&
    (forall q' :: q' > q ==> !BraceAt(s, p, q'))
  }

  lemma {:induction false} OccursOne(s: string, c: char, i: int)
    ensures OccursAt(s, [c], i) <==> 0 <= i < |s| && s[i] == c
  {
    if 0 <= i < |s| {
      assert s[i..i + 1] == [s[i]];
    }
  }

  function BraceMatch(s: string): (r: Option<(nat, nat)>)
    ensures r.Some? ==> BraceAt(s, r.value.0, r.value.1)
  {
    match IndexOf(s, "{", 0)
    case None => None
    case Some(p) =>
      OccursOne(s, '{', p);
      match LastIndexOf(s, '}')
      case None => None
      case Some(q) => if p < q then Some((p, q)) else None
  }

  lemma {:induction false} BraceMatchNone(s: string)
    ensures BraceMatch(s).None? <==> forall p, q :: !BraceAt(s, p, q)
  {
    if BraceMatch(s).None? {
      forall p, q ensures !BraceAt(s, p, q) {
        if BraceAt(s, p, q) {
          OccursOne(s, '{', p);
        }
      }
    }
  }

  /** The search finds the first `{` and the last `}` after it. */
  lemma {:induction false} BraceMatchIsLeftmost(s: string, p: int, q: int)
    ensures BraceMatch(s) == Some((p, q)) <==> LeftmostBrace(s, p, q)
  {
    if BraceMatch(s) == Some((p, q)) {
      var p0 := IndexOf(s, "{", 0).value;
      assert p0 == p;
      forall p', q' | p' < p ensures !BraceAt(s, p', q') {
        OccursOne(s, '{', p');
      }
    }
    if LeftmostBrace(s, p, q) {
      BraceMatchNone(s);
      OccursOne(s, '{', p);
      var p0 := IndexOf(s, "{", 0).value;
      OccursOne(s, '{', p0);
      var q0 := LastIndexOf(s, '}').value;
      assert p0 == p by {
        if p0 < p {
          assert BraceAt(s, p0, q);
        }
      }
      assert q0 == q;
    }
  }

  /** The array `String.prototype.match` returns: the whole match and the
      first capture group (`None` for `undefined`). */
  datatype RegexMatch = RegexMatch(whole: string, group: Option<string>)

  function FenceRegex(s: string): (r: Option<RegexMatch>)
  {
    match FenceMatch(s)
    case None => None
    case Some((p, q)) => Some(RegexMatch(s[p..q + |FenceClose|], Some(s[p + |FenceOpen|..q])))
  }

  function BraceRegex(s: string): (r: Option<RegexMatch>)
  {
    match BraceMatch(s)
    case None => None
    case Some((p, q)) => Some(RegexMatch(s[p..q + 1], None))
  }

  /** `raw.match(fenced) || raw.match(braces)`. */
  function JsonMatch(raw: string): (r: Option<RegexMatch>)
  {
    if FenceRegex(raw).Some? then FenceRegex(raw) else BraceRegex(raw)
  }

  /** `jsonMatch[1] || jsonMatch[0]`: the capture unless it is absent or empty. */
  function Selected(m: RegexMatch): (t: string)
  {
    if m.group.Some? && m.group.value != "" then m.group.value else m.whole
  }

  /** The JSON value extracted from a reply; `None` when no candidate is
      found or the candidate does not parse. */
  function ExtractJson(raw: string): (r: Option<Json>)
    ensures r.Some? ==> IsJsValue(r.value)
    ensures r.Some? ==> exists i, j :: 0 <= i <= j <= |raw| && Parse(raw[i..j]) == r
  {
    match JsonMatch(raw)
    case None => None
    case Some(m) => SelectedIsSlice(raw); Parse(Selected(m))
  }

  /** The candidate is a piece of the reply. */
  lemma {:induction false} SelectedIsSlice(raw: string)
    requires JsonMatch(raw).Some?
    ensures exists i, j :: 0 <= i <= j <= |raw| && Selected(JsonMatch(raw).value) == raw[i..j]
  {
    var m := JsonMatch(raw).value;
    if FenceRegex(raw).Some? {
      var (p, q) := FenceMatch(raw).value;
      if m.group.value != "" {
        assert Selected(m) == raw[p + |FenceOpen|..q];
      } else {
        assert Selected(m) == raw[p..q + |FenceClose|];
      }
    } else {
      var (p, q) := BraceMatch(raw).value;
      assert Selected(m) == raw[p..q + 1];
    }
  }

  // ---------------------------------------------------------------------------
  // What the extraction does

  /** A candidate starting with a backtick is not JSON. */
  lemma {:induction false} ParseRejectsBacktick(t: string)
    requires t != [] && t[0] == '`'
    ensures Parse(t) == None
  {
    JsonRoundTrip.ValueStart(t);
    assert ValueAt(t) == None;
  }

  /** A fenced block is preferred to any `{ ... }` span, even an earlier one:
      with a non-empty body, the result is the parse of exactly the text
      between the first opening fence and the first closing fence after it. */
  lemma {:induction false} ExtractFenced(raw: string, p: int, q: int)
    requires LeftmostFence(raw, p, q)
    requires q > p + |FenceOpen|
    ensures ExtractJson(raw) == Parse(raw[p + |FenceOpen|..q])
  {
    FenceMatchIsLeftmost(raw, p, q);
  }

  /** A fenced body that is not JSON is a failure: the brace span is not
      tried after a parse error. */
  lemma {:induction false} FencedParseErrorIsFinal(raw: string, p: int, q: int)
    requires LeftmostFence(raw, p, q)
    requires q > p + |FenceOpen|
    requires Parse(raw[p + |FenceOpen|..q]) == None
    ensures ExtractJson(raw) == None
  {
    ExtractFenced(raw, p, q);
  }

  /** An empty fenced body is falsy, so the whole fence (backticks included)
      is parsed, which always fails. */
  lemma {:induction false} EmptyFenceFails(raw: string, p: int)
    requires LeftmostFence(raw, p, p + |FenceOpen|)
    ensures ExtractJson(raw) == None
  {
    FenceMatchIsLeftmost(raw, p, p + |FenceOpen|);
    var m := FenceRegex(raw).value;
    assert Selected(m) == m.whole;
    assert m.whole[0] == raw[p] == '`';
    ParseRejectsBacktick(m.whole);
  }

  /** Without a fenced block, the candidate is the span from the first `{`
      to the last `}`. */
  lemma {:induction false} ExtractBraced(raw: string, p: int, q: int)
    requires forall p', q' :: !FenceAt(raw, p', q')
    requires LeftmostBrace(raw, p, q)
    ensures ExtractJson(raw) == Parse(raw[p..q + 1])
  {
    FenceMatchNone(raw);
    assert FenceRegex(raw).None?;
    BraceMatchIsLeftmost(raw, p, q);
    var m := RegexMatch(raw[p..q + 1], None);
    assert BraceRegex(raw) == Some(m);
    assert Selected(m) == raw[p..q + 1];
  }

  /** With no fenced block and no `{` before a `}`, nothing is extracted. */
  lemma {:induction false} ExtractNothing(raw: string)
    requires forall p, q :: !FenceAt(raw, p, q)
    requires forall p, q :: !BraceAt(raw, p, q)
    ensures ExtractJson(raw) == None
  {
    FenceMatchNone(raw);
    BraceMatchNone(raw);
  }

  /** The reply the prompts ask for: a compact JSON text in a fenced block. */
  function FencedReply(v: Json): string
  {
    FenceOpen + (Stringify(v, "") + FenceClose)
  }

  lemma {:induction false} SliceMiddle(a: string, b: string, c: string)
    ensures (a + (b + c))[|a|..|a| + |b|] == b
  {
  }

  lemma {:induction false} SliceAfter(a: string, b: string)
    ensures (a + b)[|a|..] == b
  {
  }

  lemma {:induction false} IndexAfter(a: string, b: string, i: int)
    requires |a| <= i < |a| + |b|
    ensures (a + b)[i] == b[i - |a|]
  {
  }

  lemma {:induction false} IndexBefore(a: string, b: string, i: int)
    requires 0 <= i < |a|
    ensures (a + b)[i] == a[i]
  {
  }

  /** No opening fence starts inside a prefix without backticks. */
  lemma {:induction false} NoOpenBefore(pre: string, rest: string)
    requires '`' !in pre
    ensures forall p' :: p' < |pre| ==> !OccursAt(pre + rest, FenceOpen, p')
  {
    forall p' | p' < |pre| ensures !OccursAt(pre + rest, FenceOpen, p') {
      if 0 <= p' && OccursAt(pre + rest, FenceOpen, p') {
        IndexBefore(pre, rest, p');
      }
    }
  }

  /** No closing fence starts inside a text without line breaks. */
  lemma {:induction false} NoCloseWithin(mid: string, t: string, rest: string)
    requires '\n' !in t
    ensures forall q' :: |mid| <= q' < |mid| + |t| ==> !OccursAt(mid + (t + rest), FenceClose, q')
  {
    forall q' | |mid| <= q' < |mid| + |t| ensures !OccursAt(mid + (t + rest), FenceClose, q') {
      if OccursAt(mid + (t + rest), FenceClose, q') {
        IndexAfter(mid, t + rest, q');
        IndexBefore(t, rest, q' - |mid|);
      }
    }
  }

  lemma {:induction false} FenceParts(pre: string, t: string, post: string)
    ensures pre + ((FenceOpen + (t + FenceClose)) + post) == pre + (FenceOpen + (t + (FenceClose + post)))
    ensures pre + (FenceOpen + (t + (FenceClose + post))) == (pre + FenceOpen) + (t + (FenceClose + post))
    ensures pre + (FenceOpen + (t + (FenceClose + post))) == (pre + FenceOpen + t) + (FenceClose + post)
  {
  }

  /** A text without line breaks, fenced after a prefix without backticks,
      is the block the regular expression matches. */
  lemma {:induction false} FenceAround(pre: string, t: string, post: string)
    requires '`' !in pre && '\n' !in t
    ensures LeftmostFence(pre + (FenceOpen + (t + (FenceClose + post))), |pre|, |pre| + |FenceOpen| + |t|)
  {
    var raw := pre + (FenceOpen + (t + (FenceClose + post)));
    var p := |pre|;
    var q := |pre| + |FenceOpen| + |t|;
    FenceParts(pre, t, post);
    SliceMiddle(pre, FenceOpen, t + (FenceClose + post));
    SliceMiddle(pre + FenceOpen + t, FenceClose, post);
    assert FenceAt(raw, p, q);
    NoOpenBefore(pre, FenceOpen + (t + (FenceClose + post)));
    NoCloseWithin(pre + FenceOpen, t, FenceClose + post);
  }

  /** Whatever the prose around it (without a backtick before the block),
      a fenced reply yields exactly the value written in it: no field, type
      or range is checked. */
  lemma {:induction false} FencedReplyRoundTrip(pre: string, v: Json, post: string)
    requires '`' !in pre
    ensures ExtractJson(pre + (FencedReply(v) + post)) == Some(ToJs(v))
    ensures IsJsValue(v) ==> ExtractJson(pre + (FencedReply(v) + post)) == Some(v)
  {
    var t := Stringify(v, "");
    var raw := pre + (FenceOpen + (t + (FenceClose + post)));
    JsonRoundTrip.SerStart(v, "", "");
    JsonRoundTrip.CompactHasNoNewline(v);
    FenceParts(pre, t, post);
    FenceAround(pre, t, post);
    ExtractFenced(raw, |pre|, |pre| + |FenceOpen| + |t|);
    SliceMiddle(pre + FenceOpen, t, FenceClose + post);
    JsonRoundTrip.ParseStringify(v, "");
  }

  // ---------------------------------------------------------------------------
  // Prompts
  const AnalysisHead: string :=
    "\nTu es un assistant spécialisé dans l'analyse de sujets d'examen. \nVoici un sujet d'examen:\n\n"
  const AnalysisTail: string :=
    "\n\nAnalyse ce sujet et génère:\n1. Une liste des concepts clés abordés\n2. Un corrigé type détaillé avec les réponses attendues\n3. Une grille de notation sur 20 points indiquant la pondération de chaque partie\n4. Des critères d'évaluation précis pour chaque question\n\nFormat de réponse (JSON):\n{\n  \"concepts_cles\": [\"concept1\", \"concept2\", ...],\n  \"corrige_type\": {\n    \"question1\": \"réponse détaillée...\",\n    ...\n  },\n  \"grille_notation\": {\n    \"question1\": nombre_points,\n    ...\n  },\n  \"criteres_evaluation\": {\n    \"question1\": [\"critère1\", \"critère2\", ...],\n    ...\n  }\n}\n"
  const ComparisonHead: string :=
    "\nTu es un assistant spécialisé dans l'évaluation de copies d'examen.\nVoici la copie d'un étudiant:\n\n"
  const ComparisonMiddle: string :=
    "\n\nVoici le corrigé type avec la grille de notation et les critères d'évaluation:\n"
  const ComparisonTail: string :=
    "\n\nÉvalue cette copie en:\n1. Comparant les réponses de l'étudiant avec le corrigé type\n2. Attribuant des points selon la grille de notation\n3. Justifiant chaque note attribuée selon les critères d'évaluation\n4. Calculant la note finale sur 20\n\nFormat de réponse (JSON):\n{\n  \"evaluation_detaillee\": {\n    \"question1\": {\n      \"points_obtenus\": nombre_points,\n      \"points_max\": nombre_points_max,\n      \"justification\": \"explication...\",\n      \"commentaire\": \"feedback pour l'étudiant...\"\n    },\n    ...\n  },\n  \"note_finale\": nombre_sur_20,\n  \"commentaire_general\": \"commentaire global sur la copie...\",\n  \"points_forts\": [\"point fort 1\", ...],\n  \"axes_amelioration\": [\"axe 1\", ...]\n}\n"

  /** The analysis prompt: the exam text between the fixed instructions. */
  function AnalysisPrompt(examContent: string): (r: string)
    ensures IsPrefix(AnalysisHead, r) && IsSuffix(AnalysisTail, r)
    ensures |r| == |AnalysisHead| + |examContent| + |AnalysisTail|
  {
    Framed(AnalysisHead, examContent, AnalysisTail);
    AnalysisHead + examContent + AnalysisTail
  }

  /** The exam text appears verbatim in the prompt, so it can be read back
      from it, and different exams give different prompts. */
  lemma {:induction false} AnalysisPromptQuotes(examContent: string, other: string)
    ensures AnalysisPrompt(examContent)[|AnalysisHead|..|AnalysisHead| + |examContent|] == examContent
    ensures AnalysisPrompt(examContent) == AnalysisPrompt(other) ==> examContent == other
  {
    assert AnalysisPrompt(examContent) == AnalysisHead + (examContent + AnalysisTail);
    SliceMiddle(AnalysisHead, examContent, AnalysisTail);
    if AnalysisPrompt(examContent) == AnalysisPrompt(other) {
      assert |examContent| == |other|;
      assert AnalysisPrompt(other) == AnalysisHead + (other + AnalysisTail);
      SliceMiddle(AnalysisHead, other, AnalysisTail);
    }
  }

  /** The comparison prompt: the submission text, then the reference
      correction as `JSON.stringify(correction, null, 2)`. */
  function ComparisonPrompt(submission: string, correction: Json): (r: string)
    ensures IsPrefix(ComparisonHead, r) && IsSuffix(ComparisonTail, r)
  {
    FramedFive(ComparisonHead, submission, ComparisonMiddle, Stringify(correction, "  "), ComparisonTail);
    ComparisonHead + submission + ComparisonMiddle + Stringify(correction, "  ") + ComparisonTail
  }

  lemma {:induction false} FramedFive(a: string, b: string, m: string, c: string, z: string)
    ensures IsPrefix(a, a + b + m + c + z) && IsSuffix(z, a + b + m + c + z)
  {
    assert (a + b + m + c + z)[..|a|] == a;
    assert (a + b + m + c + z)[|a + b + m + c + z| - |z|..] == z;
  }

  lemma {:induction false} FiveParts(a: string, b: string, m: string, c: string, z: string)
    ensures var s := a + b + m + c + z;
      s[|a|..|a| + |b|] == b && |a| + |b| + |m| + |c| <= |s| &&
      s[|a| + |b| + |m|..|a| + |b| + |m| + |c|] == c
  {
    var s := a + b + m + c + z;
    assert s == a + (b + (m + c + z));
    SliceMiddle(a, b, m + c + z);
    assert s == (a + b + m) + (c + z);
    SliceMiddle(a + b + m, c, z);
  }

  /** Where the reference correction starts in the comparison prompt. */
  function CorrectionOffset(submission: string): nat
  {
    |ComparisonHead| + |submission| + |ComparisonMiddle|
  }

  /** The submission appears verbatim, and the embedded correction text
      parses back to the correction itself. */
  lemma {:induction false} ComparisonPromptQuotes(submission: string, correction: Json)
    ensures var prompt := ComparisonPrompt(submission, correction);
      var k := CorrectionOffset(submission);
      prompt[|ComparisonHead|..|ComparisonHead| + |submission|] == submission &&
      k + |Stringify(correction, "  ")| <= |prompt| &&
      Parse(prompt[k..k + |Stringify(correction, "  ")|]) == Some(ToJs(correction)) &&
      (IsJsValue(correction) ==> Parse(prompt[k..k + |Stringify(correction, "  ")|]) == Some(correction))
  {
    FiveParts(ComparisonHead, submission, ComparisonMiddle, Stringify(correction, "  "), ComparisonTail);
    JsonRoundTrip.ParseStringify(correction, "  ");
  }

  // ---------------------------------------------------------------------------
  // The service operations

  /** The model endpoint: `reply` is what it answers to a prompt (`None` when
      the request fails); `prompts` records every prompt sent. */
  class ModelEndpoint {
    const reply: string -> Option<string>
    var prompts: seq<string>

    constructor(reply: string -> Option<string>)
      ensures this.reply == reply && prompts == []
    {
      this.reply := reply;
      prompts := [];
    }

    /** `OllamaService.query`. */
    method Query(prompt: string) returns (r: Option<string>)
      modifies this
      ensures prompts == old(prompts) + [prompt]
      ensures r == reply(prompt)
    {
      prompts := prompts + [prompt];
      r := reply(prompt);
    }
  }

  /** What `analyzeExam(path)` resolves to: `None` stands for the single
      error it throws, whatever failed (reading, the model, extraction). */
  function AnalysisOutcome(files: map<string, FileEntry>, path: string,
                           reply: string -> Option<string>): Option<Json>
  {
    match ReadDocument(files, path)
    case None => None
    case Some(content) =>
      match reply(AnalysisPrompt(content))
      case None => None
      case Some(raw) => ExtractJson(raw)
  }

  /** What `evaluateSubmission(path, correction)` resolves to. */
  function EvaluationOutcome(files: map<string, FileEntry>, path: string, correction: Json,
                             reply: string -> Option<string>): Option<Json>
  {
    match ReadDocument(files, path)
    case None => None
    case Some(content) =>
      match reply(ComparisonPrompt(content, correction))
      case None => None
      case Some(raw) => ExtractJson(raw)
  }

  /** An unreadable document fails the analysis whatever the model would say. */
  lemma {:induction false} AnalysisNeedsDocument(files: map<string, FileEntry>, path: string,
                                                reply: string -> Option<string>)
    requires ReadDocument(files, path).None?
    ensures AnalysisOutcome(files, path, reply).None?
  {
  }

  /** Any value the model writes in a fenced block is the analysis result,
      read as `JSON.parse` reads it and otherwise unvalidated. */
  lemma {:induction false} AnalysisReturnsReplyValue(files: map<string, FileEntry>, path: string,
                                                    reply: string -> Option<string>, pre: string, v: Json, post: string)
    requires ReadDocument(files, path).Some?
    requires '`' !in pre
    requires reply(AnalysisPrompt(ReadDocument(files, path).value)) == Some(pre + (FencedReply(v) + post))
    ensures AnalysisOutcome(files, path, reply) == Some(ToJs(v))
  {
    FencedReplyRoundTrip(pre, v, post);
  }

  lemma {:induction false} EvaluationReturnsReplyValue(files: map<string, FileEntry>, path: string, correction: Json,
                                                      reply: string -> Option<string>, pre: string, v: Json, post: string)
    requires ReadDocument(files, path).Some?
    requires '`' !in pre
    requires reply(ComparisonPrompt(ReadDocument(files, path).value, correction)) == Some(pre + (FencedReply(v) + post))
    ensures EvaluationOutcome(files, path, correction, reply) == Some(ToJs(v))
  {
    FencedReplyRoundTrip(pre, v, post);
  }

  /** `OllamaService.analyzeExam`: one query when the document is readable. */
  method AnalyzeExam(model: ModelEndpoint, files: map<string, FileEntry>, path: string) returns (r: Option<Json>)
    modifies model
    ensures r == AnalysisOutcome(files, path, model.reply)
    ensures model.prompts == old(model.prompts) +
      (if ReadDocument(files, path).Some? then [AnalysisPrompt(ReadDocument(files, path).value)] else [])
  {
    var content := ReadDocument(files, path);
    if content.None? {
      return None;
    }
    var raw := model.Query(AnalysisPrompt(content.value));
    if raw.None? {
      return None;
    }
    r := ExtractJson(raw.value);
  }

  /** `OllamaService.evaluateSubmission`. */
  method EvaluateSubmission(model: ModelEndpoint, files: map<string, FileEntry>, path: string, correction: Json)
    returns (r: Option<Json>)
    modifies model
    ensures r == EvaluationOutcome(files, path, correction, model.reply)
    ensures model.prompts == old(model.prompts) +
      (if ReadDocument(files, path).Some? then [ComparisonPrompt(ReadDocument(files, path).value, correction)] else [])
  {
    var content := ReadDocument(files, path);
    if content.None? {
      return None;
    }
    var raw := model.Query(ComparisonPrompt(content.value, correction));
    if raw.None? {
      return None;
    }
    r := ExtractJson(raw.value);
  }
}
