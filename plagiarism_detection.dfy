/** The plagiarism panel: the colour of a risk level and the result shown
    after a detection. */
module PlagiarismDetection {
  import opened Base
  import opened Json
  import AiController
  import SubmissionDetail

  const HighRisk: string := "élevé"
  const MediumRisk: string := "moyen"
  const DetectFailed: string := "Erreur lors de la détection de plagiat"

  /** `getRiskColor`: exact, case-sensitive comparisons. */
  function RiskColor(risk: string): (c: string)
    ensures c == "danger" <==> risk == HighRisk
    ensures c == "warning" <==> risk == MediumRisk
    ensures c == "success" <==> risk != HighRisk && risk != MediumRisk
  {
    if risk == HighRisk then "danger"
    else if risk == MediumRisk then "warning"
    else "success"
  }

  /** The colour agrees with the stored flag for the lower-case tokens, and
      not for a capitalised one: the server lowercases `Élevé` to a flag of
      1, shown as a detection on the submission page, while the panel shows
      it in the colour of no risk. */
  lemma {:induction false} ColourAndFlag()
    ensures RiskColor(HighRisk) == "danger" && SubmissionDetail.PlagiarismAlert(AiController.RiskToFlag(HighRisk)) == Some(SubmissionDetail.Detected)
    ensures RiskColor(MediumRisk) == "warning" && SubmissionDetail.PlagiarismAlert(AiController.RiskToFlag(MediumRisk)) == Some(SubmissionDetail.Suspected)
    ensures RiskColor("Élevé") == "success" && SubmissionDetail.PlagiarismAlert(AiController.RiskToFlag("Élevé")) == Some(SubmissionDetail.Detected)
  {
    AiController.RiskTokens();
    assert "Élevé"[0] != HighRisk[0];
  }

  /** A lower-case risk token gets the colour matching the submission
      page's banner for the flag it produces: danger for a detection,
      warning for a suspicion, success for no banner. */
  lemma {:induction false} ColourMatchesBanner(risk: string)
    requires Lower(risk) == risk
    ensures RiskColor(risk) == "danger" <==> SubmissionDetail.PlagiarismAlert(AiController.RiskToFlag(risk)) == Some(SubmissionDetail.Detected)
    ensures RiskColor(risk) == "warning" <==> SubmissionDetail.PlagiarismAlert(AiController.RiskToFlag(risk)) == Some(SubmissionDetail.Suspected)
    ensures RiskColor(risk) == "success" <==> SubmissionDetail.PlagiarismAlert(AiController.RiskToFlag(risk)).None?
  {
  }

  /** What a detection request gave: the result and message, or a failure
      with the server's `error` field if any. */
  datatype Detection = Detected(result: Json, message: string) | Failed(error: Option<string>)

  /** The panel's state. */
  class PlagiarismView {
    var result: Option<Json>
    var loading: bool
    var error: Option<string>
    var success: Option<string>

    constructor()
      ensures result == None && !loading && error == None && success == None
    {
      result := None;
      loading := false;
      error := None;
      success := None;
    }

    /** `fetchExistingResults`: a stored result is shown when truthy. */
    method LoadExisting(stored: Option<Json>)
      modifies this
      ensures result == if stored.Some? && Truthy(stored.value) then stored else old(result)
      ensures loading == old(loading) && error == old(error) && success == old(success)
    {
      if stored.Some? && Truthy(stored.value) {
        result := stored;
      }
    }

    /** `detectPlagiarism`: a success replaces the shown result and message;
        a failure keeps the previous result and shows the error. */
    method DetectPlagiarism(outcome: Detection)
      modifies this
      ensures outcome.Detected? ==> result == Some(outcome.result) && success == Some(outcome.message) && error == None
      ensures outcome.Failed? ==>
                result == old(result) && success == None &&
                error == Some(if outcome.error.Some? && outcome.error.value != "" then outcome.error.value else DetectFailed)
      ensures !loading
    {
      loading := true;
      error := None;
      success := None;
      if outcome.Detected? {
        result := Some(outcome.result);
        success := Some(outcome.message);
      } else if outcome.error.Some? && outcome.error.value != "" {
        error := outcome.error;
      } else {
        error := Some(DetectFailed);
      }
      loading := false;
    }
  }
}
