/**
 * The speech-to-text translator page: while listening, recognition results
 * replace the transcript; stopping sends the transcript to the chat service
 * for translation into the selected language; starting clears both texts; the
 * two languages can be swapped. The recogniser, the service and speech
 * synthesis are outside the model: the service's answer is an input and what
 * would be spoken is recorded.
 */
module SpeechTranslator {
  import opened Wrappers
  import opened SpeechResults

  const TranslationFailed := "Translation failed."
  const TranslationError := "An error occurred during translation."

  /** The system message of the translation request. */
  function SystemPrompt(fromLanguage: string, targetLanguage: string): string {
    "You are a helpful assistant that translates text from " + fromLanguage + " to " + targetLanguage
    + ". Do not return anything else other than the translated text."
  }

  /** The chat request: its system message and the text to translate. */
  datatype TranslationRequest = TranslationRequest(system: string, text: string)

  /**
   * What the request came back with: an exception, or a response whose first
   * choice (when `choices[0]` exists) carries the message content.
   */
  datatype TranslationReply =
    | Threw
    | Responded(firstChoice: Option<string>)

  /** The text the page shows after a translation. */
  function TranslationShown(reply: TranslationReply): string {
    match reply
    case Threw => TranslationError
    case Responded(None) => TranslationFailed
    case Responded(Some(translated)) => translated
  }

  /**
   * The page shows one of its two fallback texts exactly when the request
   * threw, came back without a first choice, or the service's own text is
   * one of those fallbacks; it shows nothing exactly when the service
   * returned an empty translation.
   */
  lemma TranslationFallbackExactly(reply: TranslationReply)
    ensures var shown := TranslationShown(reply);
      (shown == TranslationFailed || shown == TranslationError) <==>
        (|| reply.Threw? || reply.firstChoice.None?
         || reply.firstChoice.value == TranslationFailed || reply.firstChoice.value == TranslationError)
    ensures TranslationShown(reply) == "" <==> reply == Responded(Some(""))
  {
  }

  /** An utterance handed to speech synthesis: the text and its language. */
  datatype Utterance = Utterance(text: string, lang: string)

  class TranslatorPage {
    var isListening: bool
    var transcript: string
    var translatedText: string
    var selectedLanguage: string
    var fromLanguage: string
    var autoReadAloud: bool
    /** Whether `recognition.start()` was called more recently than `stop()`. */
    var recognizing: bool
    var requests: seq<TranslationRequest>
    var spoken: seq<Utterance>

    /** The initial state: not listening, empty texts, from English to Chinese. */
    constructor ()
      ensures !isListening && transcript == "" && translatedText == ""
      ensures selectedLanguage == "zh" && fromLanguage == "en" && !autoReadAloud
      ensures !recognizing && requests == [] && spoken == []
    {
      isListening, transcript, translatedText := false, "", "";
      selectedLanguage, fromLanguage, autoReadAloud := "zh", "en", false;
      recognizing, requests, spoken := false, [], [];
    }

    /** `onresult`: the transcript becomes the final text of the visited results, or their interim text when that is empty. */
    method OnResult(results: seq<RecognitionResult>, resultIndex: nat)
      modifies this`transcript
      ensures transcript == Shown(Concat(Finals(Window(results, resultIndex))), Concat(Interims(Window(results, resultIndex))))
    {
      var final, interim := Aggregate(results, resultIndex);
      transcript := Shown(final, interim);
    }

    /**
     * `translateText`: one request carrying the page's source language, then
     * the translation, or a fallback text; a translation is also spoken when
     * auto read-aloud is on.
     */
    method TranslateText(text: string, targetLanguage: string, reply: TranslationReply)
      modifies this`requests, this`translatedText, this`spoken
      ensures requests == old(requests) + [TranslationRequest(SystemPrompt(fromLanguage, targetLanguage), text)]
      ensures translatedText == TranslationShown(reply)
      ensures autoReadAloud && reply.Responded? && reply.firstChoice.Some? ==>
        spoken == old(spoken) + [Utterance(reply.firstChoice.value, targetLanguage)]
      ensures !(autoReadAloud && reply.Responded? && reply.firstChoice.Some?) ==> spoken == old(spoken)
    {
      requests := requests + [TranslationRequest(SystemPrompt(fromLanguage, targetLanguage), text)];
      match reply {
        case Threw =>
          translatedText := TranslationError;
        case Responded(None) =>
          translatedText := TranslationFailed;
        case Responded(Some(translated)) =>
          translatedText := translated;
          if autoReadAloud {
            spoken := spoken + [Utterance(translated, targetLanguage)];
          }
      }
    }

    /**
     * `handleListenToggle`: stopping ends recognition and translates the
     * current transcript into the selected language; starting clears the
     * transcript and the translation and starts recognition. Either way the
     * listening flag flips.
     */
    method ListenToggle(reply: TranslationReply)
      modifies this
      ensures isListening == !old(isListening)
      ensures recognizing == !old(isListening)
      ensures old(isListening) ==>
        && transcript == old(transcript)
        && requests == old(requests) + [TranslationRequest(SystemPrompt(fromLanguage, selectedLanguage), old(transcript))]
        && translatedText == TranslationShown(reply)
        && spoken == (if autoReadAloud && reply.Responded? && reply.firstChoice.Some?
                      then old(spoken) + [Utterance(reply.firstChoice.value, selectedLanguage)]
                      else old(spoken))
      ensures !old(isListening) ==>
        transcript == "" && translatedText == "" && requests == old(requests) && spoken == old(spoken)
      ensures selectedLanguage == old(selectedLanguage) && fromLanguage == old(fromLanguage)
      ensures autoReadAloud == old(autoReadAloud)
    {
      if isListening {
        recognizing := false;
        TranslateText(transcript, selectedLanguage, reply);
      } else {
        transcript := "";
        translatedText := "";
        recognizing := true;
      }
      isListening := !isListening;
    }

    /** `handleReadAloud`: speaks the translation in the selected language, if there is one. */
    method ReadAloud()
      modifies this`spoken
      ensures translatedText != "" ==> spoken == old(spoken) + [Utterance(translatedText, selectedLanguage)]
      ensures translatedText == "" ==> spoken == old(spoken)
    {
      if translatedText != "" {
        spoken := spoken + [Utterance(translatedText, selectedLanguage)];
      }
    }

    /** `handleSwapLanguages`: the source and target languages trade places. */
    method SwapLanguages()
      modifies this`fromLanguage, this`selectedLanguage
      ensures fromLanguage == old(selectedLanguage) && selectedLanguage == old(fromLanguage)
    {
      fromLanguage, selectedLanguage := selectedLanguage, fromLanguage;
    }
  }

  /** Swapping twice restores both languages. */
  method SwapTwice(page: TranslatorPage)
    modifies page
    ensures page.fromLanguage == old(page.fromLanguage) && page.selectedLanguage == old(page.selectedLanguage)
  {
    page.SwapLanguages();
    page.SwapLanguages();
  }
}
