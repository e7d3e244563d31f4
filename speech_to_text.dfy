/**
 * The speech recorder page: a recording is transcribed by a remote service,
 * and the transcript can be exported as HTML, summarised, corrected,
 * translated or read aloud. Every one of those actions first refuses a
 * transcript that is blank. The services, the recorder and the audio
 * element are outside the model; their results are inputs and the requests
 * the page makes are recorded in order.
 */
module SpeechToText {
  import opened Strings
  import opened Wrappers

  // ---- HTML escaping for export --------------------------------------------

  /** `s.replace(/c/g, with)`: every occurrence of `c` replaced by `with`. */
  function ReplaceAll(s: string, c: char, with: string): string {
    if s == [] then []
    else (if s[0] == c then with else [s[0]]) + ReplaceAll(s[1..], c, with)
  }

  lemma {:induction false} ReplaceAllConcat(a: string, b: string, c: char, with: string)
    ensures ReplaceAll(a + b, c, with) == ReplaceAll(a, c, with) + ReplaceAll(b, c, with)
  {
    if a != [] {
      assert (a + b)[1..] == a[1..] + b;
      ReplaceAllConcat(a[1..], b, c, with);
    } else {
      assert a + b == b;
    }
  }

  lemma {:induction false} ReplaceAllAbsent(s: string, c: char, with: string)
    requires c !in s
    ensures ReplaceAll(s, c, with) == s
  {
    if s != [] {
      ReplaceAllAbsent(s[1..], c, with);
      assert [s[0]] + s[1..] == s;
    }
  }

  lemma ReplaceAllOne(x: char, c: char, with: string)
    ensures ReplaceAll([x], c, with) == if x == c then with else [x]
  {
    assert [x][1..] == [];
  }

  /** The replacement texts of the chain, in the order they are applied. */
  datatype Entities = Entities(amp: string, lt: string, gt: string, br: string)

  const Html := Entities("&amp;", "&lt;", "&gt;", "<br>")

  /** A text with none of the characters the chain replaces after `&`. */
  predicate Plain(s: string) {
    '<' !in s && '>' !in s && '\n' !in s
  }

  /**
   * The entities the chain inserts: the first three are plain, so no later
   * step rewrites them, and the line break holds one '<' and one '>' and no
   * newline.
   */
  predicate LaterSafe(e: Entities) {
    && Plain(e.amp) && Plain(e.lt) && Plain(e.gt)
    && '\n' !in e.br && Count(e.br, '<') == 1 && Count(e.br, '>') == 1
  }

  /** The chain in `exportAsPDF`, over any four replacement texts. */
  function Chain(text: string, e: Entities): string {
    ReplaceAll(ReplaceAll(ReplaceAll(ReplaceAll(text, '&', e.amp), '<', e.lt), '>', e.gt), '\n', e.br)
  }

  /** `exportAsPDF`'s escaping: `&` first, then `<`, then `>`, then newlines to `<br>`. */
  function EscapeHtml(text: string): string {
    Chain(text, Html)
  }

  /** The reference escaping of one character. */
  function EscapeChar(c: char, e: Entities): string {
    if c == '&' then e.amp
    else if c == '<' then e.lt
    else if c == '>' then e.gt
    else if c == '\n' then e.br
    else [c]
  }

  /** The reference escaping: each character replaced by its entity on its own, in order. */
  function EscapeEach(text: string, e: Entities): string {
    if text == [] then [] else EscapeChar(text[0], e) + EscapeEach(text[1..], e)
  }

  lemma ChainConcat(a: string, b: string, e: Entities)
    ensures Chain(a + b, e) == Chain(a, e) + Chain(b, e)
  {
    var s1a, s1b := ReplaceAll(a, '&', e.amp), ReplaceAll(b, '&', e.amp);
    ReplaceAllConcat(a, b, '&', e.amp);
    var s2a, s2b := ReplaceAll(s1a, '<', e.lt), ReplaceAll(s1b, '<', e.lt);
    ReplaceAllConcat(s1a, s1b, '<', e.lt);
    var s3a, s3b := ReplaceAll(s2a, '>', e.gt), ReplaceAll(s2b, '>', e.gt);
    ReplaceAllConcat(s2a, s2b, '>', e.gt);
    ReplaceAllConcat(s3a, s3b, '\n', e.br);
  }

  lemma ChainChar(c: char, e: Entities)
    requires LaterSafe(e)
    ensures Chain([c], e) == EscapeChar(c, e)
  {
    ReplaceAllOne(c, '&', e.amp);
    if c == '&' {
      ReplaceAllAbsent(e.amp, '<', e.lt);
      ReplaceAllAbsent(e.amp, '>', e.gt);
      ReplaceAllAbsent(e.amp, '\n', e.br);
    } else {
      ReplaceAllOne(c, '<', e.lt);
      if c == '<' {
        ReplaceAllAbsent(e.lt, '>', e.gt);
        ReplaceAllAbsent(e.lt, '\n', e.br);
      } else {
        ReplaceAllOne(c, '>', e.gt);
        if c == '>' {
          ReplaceAllAbsent(e.gt, '\n', e.br);
        } else {
          ReplaceAllOne(c, '\n', e.br);
        }
      }
    }
  }

  /**
   * The replace chain escapes each character independently: the order of
   * the replacements matters only in that `&` goes first, so the entities
   * inserted later are not escaped again.
   */
  lemma {:induction false} ChainByChars(text: string, e: Entities)
    requires LaterSafe(e)
    ensures Chain(text, e) == EscapeEach(text, e)
  {
    if text != [] {
      assert text == [text[0]] + text[1..];
      ChainConcat([text[0]], text[1..], e);
      ChainChar(text[0], e);
      ChainByChars(text[1..], e);
    }
  }

  lemma EntityPlain(s: string)
    requires s == "&amp;" || s == "&lt;" || s == "&gt;"
    ensures Plain(s)
  {
  }

  lemma HtmlLaterSafe()
    ensures LaterSafe(Html)
  {
    EntityPlain(Html.amp);
    EntityPlain(Html.lt);
    EntityPlain(Html.gt);
    BreakMarkup(Html.br);
  }

  lemma EscapeHtmlByChars(text: string)
    ensures EscapeHtml(text) == EscapeEach(text, Html)
  {
    HtmlLaterSafe();
    ChainByChars(text, Html);
  }

  lemma EntityShape(c: char, e: Entities)
    requires LaterSafe(e)
    ensures '\n' !in EscapeChar(c, e)
    ensures Count(EscapeChar(c, e), '<') == (if c == '\n' then 1 else 0)
    ensures Count(EscapeChar(c, e), '>') == (if c == '\n' then 1 else 0)
  {
    CountAbsent(e.amp, '<');
    CountAbsent(e.lt, '<');
    CountAbsent(e.gt, '<');
    CountAbsent(e.amp, '>');
    CountAbsent(e.lt, '>');
    CountAbsent(e.gt, '>');
    if c !in "&<>\n" {
      assert [c][1..] == [];
    }
  }

  lemma {:induction false} EachShape(text: string, e: Entities)
    requires LaterSafe(e)
    ensures '\n' !in EscapeEach(text, e)
    ensures Count(EscapeEach(text, e), '<') == Count(text, '\n')
    ensures Count(EscapeEach(text, e), '>') == Count(text, '\n')
  {
    if text != [] {
      EachShape(text[1..], e);
      EntityShape(text[0], e);
      CountConcat(EscapeChar(text[0], e), EscapeEach(text[1..], e), '<');
      CountConcat(EscapeChar(text[0], e), EscapeEach(text[1..], e), '>');
    }
  }

  lemma BreakMarkup(br: string)
    requires br == "<br>"
    ensures '\n' !in br && Count(br, '<') == 1 && Count(br, '>') == 1
  {
    assert br == [br[0]] + [br[1], br[2], br[3]];
    CountConcat([br[0]], [br[1], br[2], br[3]], '<');
    CountConcat([br[0]], [br[1], br[2], br[3]], '>');
    assert [br[1], br[2], br[3]] == [br[1], br[2]] + [br[3]];
    CountConcat([br[1], br[2]], [br[3]], '<');
    CountConcat([br[1], br[2]], [br[3]], '>');
    CountAbsent([br[1], br[2]], '<');
    CountAbsent([br[1], br[2]], '>');
    CountAbsent([br[0]], '>');
    CountAbsent([br[3]], '<');
    CountOne(br[0], '<');
    CountOne(br[3], '>');
  }

  /**
   * The escaped text has no newline, and its '<' and '>' characters are
   * exactly those of the inserted `<br>` tags, one per input newline.
   */
  lemma EscapedShape(text: string)
    ensures '\n' !in EscapeHtml(text)
    ensures Count(EscapeHtml(text), '<') == Count(text, '\n')
    ensures Count(EscapeHtml(text), '>') == Count(text, '\n')
  {
    EscapeHtmlByChars(text);
    HtmlLaterSafe();
    EachShape(text, Html);
  }

  /** Text with none of `&`, `<`, `>` and newline is exported as it is. */
  lemma PlainTextUnchanged(text: string)
    requires '&' !in text && '<' !in text && '>' !in text && '\n' !in text
    ensures EscapeHtml(text) == text
  {
    ReplaceAllAbsent(text, '&', "&amp;");
    ReplaceAllAbsent(text, '<', "&lt;");
    ReplaceAllAbsent(text, '>', "&gt;");
    ReplaceAllAbsent(text, '\n', "<br>");
  }

  /**
   * Escaping is not idempotent: an entity already in the text is escaped
   * again, so "&amp;" (take `rest` as "amp;") exports as "&amp;amp;".
   */
  lemma AmpersandEscapedAgain(c: char, rest: string)
    requires c == '&'
    requires '&' !in rest && '<' !in rest && '>' !in rest && '\n' !in rest
    ensures EscapeHtml([c] + rest) == "&amp;" + rest
  {
    ChainConcat([c], rest, Html);
    HtmlLaterSafe();
    ChainChar(c, Html);
    PlainTextUnchanged(rest);
  }

  // ---- The page's handlers -------------------------------------------------

  const EmptyTranscript := "Transcript is empty. Please record something first."
  const SummarizeInstruction := "Summarize this."
  const GrammarInstruction := "Correct the grammar, punctuation, and anything else you can find."
  const TranslatePrefix := "Translate this text to "

  /** A request the page sends to a service. */
  datatype Request =
    | Transcription
    | Chat(system: string, user: string)
    | Speech(voice: string, input: string)

  /**
   * The page's state, with the requests it has made and the HTML bodies it
   * has written to print windows. `hasRecorder` and `hasAudio` stand for
   * `mediaRecorder` and `audioRef.current` being set.
   */
  class SpeechRecorder {
    var transcript: string
    var summarizedText: string
    var isRecording: bool
    var hasRecorder: bool
    var isReadingAloud: bool
    var hasAudio: bool
    var selectedVoice: string
    var targetLanguage: string
    var loadingButton: string
    var error: string
    var requests: seq<Request>
    var exported: seq<string>

    constructor ()
      ensures transcript == "" && summarizedText == "" && !isRecording && !hasRecorder
      ensures !isReadingAloud && !hasAudio && selectedVoice == "nova" && targetLanguage == "es"
      ensures loadingButton == "" && error == "" && requests == [] && exported == []
    {
      transcript, summarizedText, isRecording, hasRecorder := "", "", false, false;
      isReadingAloud, hasAudio, selectedVoice, targetLanguage := false, false, "nova", "es";
      loadingButton, error, requests, exported := "", "", [], [];
    }

    /** The guard every action starts with: a blank transcript sets the error and stops it. */
    method RefuseBlank() returns (refused: bool)
      modifies this`error
      ensures refused <==> IsBlank(transcript)
      ensures refused ==> error == EmptyTranscript
      ensures !refused ==> error == ""
    {
      if IsBlank(transcript) {
        error := EmptyTranscript;
        return true;
      }
      error := "";
      return false;
    }

    /**
     * `handleStartRecording`: the transcript is cleared, then a recorder
     * starts once the microphone is `granted`; a refusal is not caught, so
     * nothing records.
     */
    method StartRecording(granted: bool)
      modifies this`transcript, this`hasRecorder, this`isRecording
      ensures transcript == ""
      ensures granted ==> hasRecorder && isRecording
      ensures !granted ==> hasRecorder == old(hasRecorder) && isRecording == old(isRecording)
    {
      transcript := "";
      if !granted {
        return;
      }
      hasRecorder, isRecording := true, true;
    }

    /** The recorder's `onstop`: the transcription's `text` (or "") replaces the transcript; a failure keeps it. */
    method RecordingStopped(reply: Option<Option<string>>)
      modifies this`transcript, this`requests
      ensures requests == old(requests) + [Transcription]
      ensures reply.None? ==> transcript == old(transcript)
      ensures reply.Some? ==> transcript == reply.value.GetOr("")
    {
      requests := requests + [Transcription];
      if reply.Some? {
        transcript := reply.value.GetOr("");
      }
    }

    /** `handleStopRecording`: acts only when a recorder exists. */
    method StopRecording() returns (stopped: bool)
      modifies this`isRecording
      ensures stopped <==> hasRecorder
      ensures stopped ==> !isRecording
      ensures !stopped ==> isRecording == old(isRecording)
    {
      if hasRecorder {
        isRecording := false;
        return true;
      }
      return false;
    }

    /**
     * `exportAsPDF(text)`: the guard looks at the transcript, not at `text`;
     * past it, the escaped `text` is written to the print window.
     */
    method ExportAsPdf(text: string)
      modifies this`error, this`loadingButton, this`exported
      ensures IsBlank(transcript) ==> error == EmptyTranscript && exported == old(exported) && loadingButton == old(loadingButton)
      ensures !IsBlank(transcript) ==> error == "" && exported == old(exported) + [EscapeHtml(text)] && loadingButton == ""
    {
      var refused := RefuseBlank();
      if refused {
        return;
      }
      loadingButton := "export";
      exported := exported + [EscapeHtml(text)];
      loadingButton := "";
    }

    /**
     * `summarizeText(text)`: past the guard, `text` is sent for a summary.
     * A reply without a message throws after the request, leaving the
     * button marked as loading.
     */
    method Summarize(text: string, reply: Option<string>)
      modifies this`error, this`loadingButton, this`requests, this`summarizedText
      ensures IsBlank(transcript) ==>
        && error == EmptyTranscript && requests == old(requests)
        && loadingButton == old(loadingButton) && summarizedText == old(summarizedText)
      ensures !IsBlank(transcript) ==> error == "" && requests == old(requests) + [Chat(SummarizeInstruction, text)]
      ensures !IsBlank(transcript) && reply.Some? ==> summarizedText == reply.value && loadingButton == ""
      ensures !IsBlank(transcript) && reply.None? ==> summarizedText == old(summarizedText) && loadingButton == "summary"
    {
      var refused := RefuseBlank();
      if refused {
        return;
      }
      loadingButton := "summary";
      requests := requests + [Chat(SummarizeInstruction, text)];
      if reply.None? {
        return;
      }
      summarizedText := reply.value;
      loadingButton := "";
    }

    /** `correctGrammar`: the transcript is sent and replaced by the corrected text. */
    method CorrectGrammar(reply: Option<string>)
      modifies this`error, this`loadingButton, this`requests, this`transcript
      ensures old(IsBlank(transcript)) ==>
        && error == EmptyTranscript && requests == old(requests)
        && loadingButton == old(loadingButton) && transcript == old(transcript)
      ensures !old(IsBlank(transcript)) ==>
        error == "" && requests == old(requests) + [Chat(GrammarInstruction, old(transcript))]
      ensures !old(IsBlank(transcript)) && reply.Some? ==> transcript == reply.value && loadingButton == ""
      ensures !old(IsBlank(transcript)) && reply.None? ==> transcript == old(transcript) && loadingButton == "grammar"
    {
      var refused := RefuseBlank();
      if refused {
        return;
      }
      loadingButton := "grammar";
      requests := requests + [Chat(GrammarInstruction, transcript)];
      if reply.None? {
        return;
      }
      transcript := reply.value;
      loadingButton := "";
    }

    /** `translateText`: the transcript is sent with the target language and replaced by the translation. */
    method Translate(reply: Option<string>)
      modifies this`error, this`loadingButton, this`requests, this`transcript
      ensures old(IsBlank(transcript)) ==>
        && error == EmptyTranscript && requests == old(requests)
        && loadingButton == old(loadingButton) && transcript == old(transcript)
      ensures !old(IsBlank(transcript)) ==>
        error == "" && requests == old(requests) + [Chat(TranslatePrefix + targetLanguage, old(transcript))]
      ensures !old(IsBlank(transcript)) && reply.Some? ==> transcript == reply.value && loadingButton == ""
      ensures !old(IsBlank(transcript)) && reply.None? ==> transcript == old(transcript) && loadingButton == "translate"
    {
      var refused := RefuseBlank();
      if refused {
        return;
      }
      loadingButton := "translate";
      requests := requests + [Chat(TranslatePrefix + targetLanguage, transcript)];
      if reply.None? {
        return;
      }
      transcript := reply.value;
      loadingButton := "";
    }

    /**
     * `handleReadAloud`: past the guard, a playing reading is only paused;
     * otherwise the transcript is sent for speech and played. `delivered`
     * says whether the speech request resolved; a rejected request is not
     * caught, so it leaves the playback state as it was.
     */
    method ReadAloud(delivered: bool)
      modifies this`error, this`requests, this`isReadingAloud, this`hasAudio
      ensures IsBlank(transcript) ==>
        && error == EmptyTranscript && requests == old(requests)
        && isReadingAloud == old(isReadingAloud) && hasAudio == old(hasAudio)
      ensures !IsBlank(transcript) && old(isReadingAloud) && old(hasAudio) ==>
        error == "" && requests == old(requests) && !isReadingAloud && hasAudio
      ensures !IsBlank(transcript) && !(old(isReadingAloud) && old(hasAudio)) ==>
        && error == "" && requests == old(requests) + [Speech(selectedVoice, transcript)]
        && (delivered ==> isReadingAloud && hasAudio)
        && (!delivered ==> isReadingAloud == old(isReadingAloud) && hasAudio == old(hasAudio))
    {
      var playing := isReadingAloud && hasAudio;
      var refused := RefuseBlank();
      if refused {
        return;
      }
      if playing {
        isReadingAloud := false;
        return;
      }
      requests := requests + [Speech(selectedVoice, transcript)];
      if !delivered {
        return;
      }
      hasAudio := true;
      isReadingAloud := true;
    }
  }
}
