/**
 * The hazard page: it frames the user's question with a fixed instruction,
 * sends it with a webcam frame to a vision model, reduces the free-text reply
 * to "Yes", "No" or "Unclear", and optionally forwards that word to a
 * follow-up webhook. The model and the webhook are outside the model; their
 * replies are inputs.
 */
module HazardDetector {
  import opened Strings
  import opened Wrappers

  const PromptPrefix := "Respond with only a single word: Yes or No. "
  const DefaultQuestion := "Is there something in this image?"
  const NoResponse := "No response"
  const AnalysisError := "An error occurred while analyzing the image."

  /** `strictPrompt`: the fixed instruction, then the question (the default one when empty). */
  function StrictPrompt(prompt: string): (r: string)
    ensures PromptPrefix <= r
    ensures prompt != "" ==> r[|PromptPrefix|..] == prompt
    ensures prompt == "" ==> r[|PromptPrefix|..] == DefaultQuestion
  {
    PromptPrefix + (if prompt != "" then prompt else DefaultQuestion)
  }

  /** Two different non-empty questions never produce the same prompt. */
  lemma StrictPromptInjective(p: string, q: string)
    requires p != "" && q != "" && p != q
    ensures StrictPrompt(p) != StrictPrompt(q)
  {
    assert StrictPrompt(p)[|PromptPrefix|..] != StrictPrompt(q)[|PromptPrefix|..];
  }

  /** `content || "No response"`: a missing or empty reply reads as "No response". */
  function ReplyText(content: Option<string>): (r: string)
    ensures r != ""
    ensures content.Some? && content.value != "" ==> r == content.value
  {
    if content.Some? && content.value != "" then content.value else NoResponse
  }

  /** The three words the page can show. */
  datatype Answer = Yes | No | Unclear

  function AnswerText(a: Answer): string {
    match a
    case Yes => "Yes"
    case No => "No"
    case Unclear => "Unclear"
  }

  /** The word chosen for the cleaned reply: "yes" is looked for first, then "no". */
  function Verdict(cleaned: string): Answer {
    if Contains(cleaned, "yes") then Yes
    else if Contains(cleaned, "no") then No
    else Unclear
  }

  /** The reply reduced to one word, as `captureImageAndAnalyze` does with `cleaned`. */
  function Normalise(reply: string): Answer {
    Verdict(Lower(Trim(reply)))
  }

  /** Trimming the reply before searching it for a word with no white space at its ends changes nothing. */
  lemma ContainsIgnoresTrim(reply: string, w: string)
    requires w != "" && !IsJsSpace(w[0]) && !IsJsSpace(w[|w| - 1])
    ensures Contains(Lower(Trim(reply)), w) <==> Contains(Lower(reply), w)
  {
    var i, j := TrimSlice(reply);
    LowerSlice(reply, i, j);
    LowerKeepsPadding(reply, i, j);
    ContainsPadded(Lower(reply), i, j, w);
  }

  /**
   * The verdict depends only on which words the lower-cased reply contains:
   * "yes" anywhere wins, even beside "no"; "no" without "yes" gives "No"; neither
   * gives "Unclear". Surrounding white space plays no part.
   */
  lemma NormaliseMeaning(reply: string)
    ensures Normalise(reply) == Yes <==> Contains(Lower(reply), "yes")
    ensures Normalise(reply) == No <==> !Contains(Lower(reply), "yes") && Contains(Lower(reply), "no")
    ensures Normalise(reply) == Unclear <==> !Contains(Lower(reply), "yes") && !Contains(Lower(reply), "no")
  {
    var cleaned, l := Lower(Trim(reply)), Lower(reply);
    var yes, no := Contains(l, "yes"), Contains(l, "no");
    ContainsIgnoresTrim(reply, "yes");
    ContainsIgnoresTrim(reply, "no");
    assert Normalise(reply) == (if yes then Yes else if no then No else Unclear);
  }

  /** A reply with "no" and no letter y at all normalises to "No". */
  lemma NoWithoutY(reply: string)
    requires 'y' !in Lower(reply) && Contains(Lower(reply), "no")
    ensures Normalise(reply) == No
  {
    NormaliseMeaning(reply);
    ContainsFirstChar(Lower(reply), "yes");
  }

  /** A missing reply becomes "No response", which normalises to "No". */
  lemma MissingReplyIsNo()
    ensures Normalise(ReplyText(None)) == No
  {
    var l := Lower(NoResponse);
    assert l == "no response";
    ContainsAt(l, "no", 0);
    NoWithoutY(NoResponse);
  }

  /** What the vision request came back with. */
  datatype VisionReply = RequestFailed | Answered(content: Option<string>)

  /** One press of "Capture & Analyze". */
  datatype CaptureOutcome =
    | Skipped
    | Analyzed(sentPrompt: string, responseText: string, webhookResult: Option<string>)

  /**
   * `captureImageAndAnalyze`: nothing without both a canvas and a video; else
   * the prompt is sent, the reply normalised, and the word forwarded to the
   * webhook only when `apiCallEnabled`. A failed request shows the error text
   * and calls no webhook; a failed webhook is only logged.
   */
  function CaptureAndAnalyze(hasCanvas: bool, hasVideo: bool, prompt: string, reply: VisionReply, apiCallEnabled: bool): (r: CaptureOutcome)
    ensures r.Skipped? <==> !(hasCanvas && hasVideo)
    ensures r.Analyzed? ==> r.sentPrompt == StrictPrompt(prompt)
    ensures r.Analyzed? && reply.RequestFailed? ==> r.responseText == AnalysisError && r.webhookResult == None
    ensures r.Analyzed? && reply.Answered? ==> r.responseText == AnswerText(Normalise(ReplyText(reply.content)))
    ensures r.Analyzed? && r.webhookResult.Some? <==> r.Analyzed? && apiCallEnabled && reply.Answered?
    ensures r.Analyzed? && r.webhookResult.Some? ==> r.webhookResult.value == r.responseText
  {
    if !(hasCanvas && hasVideo) then Skipped
    else
      match reply
      case RequestFailed => Analyzed(StrictPrompt(prompt), AnalysisError, None)
      case Answered(content) =>
        var cleaned := AnswerText(Normalise(ReplyText(content)));
        Analyzed(StrictPrompt(prompt), cleaned, if apiCallEnabled then Some(cleaned) else None)
  }

  /** The page's state: the question field, the webhook switch, the last frame, the shown answer and the requests sent. */
  class HazardPage {
    var prompt: string
    var apiCallEnabled: bool
    var capturedImage: Option<string>
    var responseText: string
    /** Prompts sent to the vision model with a frame, oldest first. */
    var visionRequests: seq<string>
    /** Words forwarded to the follow-up webhook, oldest first. */
    var webhookCalls: seq<string>

    constructor ()
      ensures prompt == "" && apiCallEnabled && capturedImage == None && responseText == ""
      ensures visionRequests == [] && webhookCalls == []
    {
      prompt := "";
      apiCallEnabled := true;
      capturedImage := None;
      responseText := "";
      visionRequests := [];
      webhookCalls := [];
    }

    /**
     * `captureImageAndAnalyze` on the page's state: `frame` is the canvas
     * snapshot. The state changes exactly as the outcome of
     * `CaptureAndAnalyze` says: nothing when skipped; otherwise the frame is
     * kept, the prompt recorded, the answer shown and, when one is
     * forwarded, the webhook call recorded.
     */
    method CaptureImageAndAnalyze(hasCanvas: bool, hasVideo: bool, frame: string, reply: VisionReply)
      modifies this`capturedImage, this`responseText, this`visionRequests, this`webhookCalls
      ensures CaptureAndAnalyze(hasCanvas, hasVideo, prompt, reply, apiCallEnabled).Skipped? ==>
        && capturedImage == old(capturedImage) && responseText == old(responseText)
        && visionRequests == old(visionRequests) && webhookCalls == old(webhookCalls)
      ensures var outcome := CaptureAndAnalyze(hasCanvas, hasVideo, prompt, reply, apiCallEnabled);
        outcome.Analyzed? ==>
          && capturedImage == Some(frame) && responseText == outcome.responseText
          && visionRequests == old(visionRequests) + [outcome.sentPrompt]
          && webhookCalls == old(webhookCalls) + (if outcome.webhookResult.Some? then [outcome.webhookResult.value] else [])
    {
      if !(hasCanvas && hasVideo) {
        return;
      }
      capturedImage := Some(frame);
      var strictPrompt := StrictPrompt(prompt);
      visionRequests := visionRequests + [strictPrompt];
      match reply {
        case RequestFailed =>
          responseText := AnalysisError;
        case Answered(content) =>
          var cleaned := AnswerText(Normalise(ReplyText(content)));
          responseText := cleaned;
          if apiCallEnabled {
            webhookCalls := webhookCalls + [cleaned];
          }
      }
    }
  }
}
