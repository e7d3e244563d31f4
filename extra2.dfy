/**
 * The real-time subtitle page: recognition results replace the shown
 * subtitle; a result batch with final text restarts two timers, one that
 * clears the subtitle after 5 s of silence and one that translates the final
 * text after 2 s. Time itself is not modelled: a timer is either pending,
 * with what it will act on, or not, and its firing is an operation.
 * The chat service's answer is an input.
 */
module RealTimeSubtitles {
  import opened Wrappers
  import opened Strings
  import opened SpeechResults

  const TranslationFailed := "Translation failed."
  const TranslationError := "Error during translation."

  /** What the translation request came back with: an exception, or `choices[0].message.content` when present. */
  datatype TranslationReply =
    | Threw
    | Responded(content: Option<string>)

  /** `result || "Translation failed."` with `result` the trimmed content; an exception gives the error text. */
  function TranslationShown(reply: TranslationReply): (r: string)
    ensures r != ""
    ensures reply.Threw? ==> r == TranslationError
    ensures reply == Responded(None) ==> r == TranslationFailed
  {
    match reply
    case Threw => TranslationError
    case Responded(None) => TranslationFailed
    case Responded(Some(content)) =>
      var result := Trim(content);
      if result != "" then result else TranslationFailed
  }

  /** A reply with text shows that text trimmed; one that trims to nothing shows the failure text. */
  lemma TranslationShownContent(content: string)
    ensures !IsBlank(content) ==> TranslationShown(Responded(Some(content))) == Trim(content)
    ensures IsBlank(content) ==> TranslationShown(Responded(Some(content))) == TranslationFailed
  {
    BlankIffTrimmedEmpty(content);
  }

  class SubtitleOverlay {
    var subtitles: string
    var translatedText: string
    /** Whether the clear-after-silence timer is pending. */
    var silencePending: bool
    /** The text the pending translation timer will translate, if one is pending. */
    var translationPending: Option<string>
    /** The texts sent for translation, in order. */
    var requests: seq<string>

    constructor ()
      ensures subtitles == "" && translatedText == "" && !silencePending && translationPending == None && requests == []
    {
      subtitles, translatedText := "", "";
      silencePending, translationPending, requests := false, None, [];
    }

    /**
     * `onresult`: the subtitle shows the final text, or the interim text when
     * there is no final text. Only non-empty final text cancels both pending
     * timers and starts them again, the translation one with that text.
     */
    method OnResult(results: seq<RecognitionResult>, resultIndex: nat)
      modifies this`subtitles, this`silencePending, this`translationPending
      ensures var final := Concat(Finals(Window(results, resultIndex)));
        && subtitles == Shown(final, Concat(Interims(Window(results, resultIndex))))
        && (final != "" ==> silencePending && translationPending == Some(final))
        && (final == "" ==> silencePending == old(silencePending) && translationPending == old(translationPending))
    {
      var final, interim := Aggregate(results, resultIndex);
      subtitles := Shown(final, interim);
      if final != "" {
        silencePending := true;
        translationPending := Some(final);
      }
    }

    /** The silence timer fires: the subtitle is cleared. */
    method SilenceElapsed()
      modifies this`subtitles, this`silencePending
      ensures !silencePending
      ensures old(silencePending) ==> subtitles == ""
      ensures !old(silencePending) ==> subtitles == old(subtitles)
    {
      if silencePending {
        subtitles := "";
        silencePending := false;
      }
    }

    /**
     * `translateText`: whitespace-only text makes no request and changes
     * nothing; otherwise one request and the shown translation, never empty.
     */
    method TranslateText(text: string, reply: TranslationReply)
      modifies this`requests, this`translatedText
      ensures IsBlank(text) ==> requests == old(requests) && translatedText == old(translatedText)
      ensures !IsBlank(text) ==> requests == old(requests) + [text] && translatedText == TranslationShown(reply)
    {
      if IsBlank(text) {
        return;
      }
      requests := requests + [text];
      translatedText := TranslationShown(reply);
    }

    /** The translation timer fires: the text it was started with is translated. */
    method TranslationElapsed(reply: TranslationReply)
      modifies this`requests, this`translatedText, this`translationPending
      ensures translationPending == None
      ensures old(translationPending).None? ==> requests == old(requests) && translatedText == old(translatedText)
      ensures old(translationPending).Some? && !IsBlank(old(translationPending).value) ==>
        requests == old(requests) + [old(translationPending).value] && translatedText == TranslationShown(reply)
      ensures old(translationPending).Some? && IsBlank(old(translationPending).value) ==>
        requests == old(requests) && translatedText == old(translatedText)
    {
      if translationPending.Some? {
        var text := translationPending.value;
        translationPending := None;
        TranslateText(text, reply);
      }
    }
  }

  /** Interim-only results never start a translation: with no final result the final text is empty. */
  lemma InterimOnlySchedulesNothing(results: seq<RecognitionResult>, resultIndex: nat)
    requires forall k :: resultIndex <= k < |results| ==> !results[k].isFinal
    ensures Concat(Finals(Window(results, resultIndex))) == ""
  {
    var w := Window(results, resultIndex);
    assert forall k :: 0 <= k < |w| ==> w[k].isFinal == false by {
      forall k | 0 <= k < |w| ensures !w[k].isFinal {
        assert w[k] == results[resultIndex + k];
      }
    }
    UniformResults(w, false);
  }
}
