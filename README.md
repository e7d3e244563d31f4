# NexusProj core, modelled in Dafny

NexusProj is a collection of AI demo pages. There is a React front end, an Express user
server, a Flask face-folder service and a Windows FFmpeg installer. Most of its code forwards
input to hosted services. This project models the deterministic logic around those calls and
proves what that logic promises:

- the Morse encoder and its tone schedule, the keyboard speed clamp and the button guards;
- the hazard page's prompt framing and its Yes/No/Unclear reduction of a free-text answer;
- the object-detection page: the byte copy, the probability filter, the overlay geometry and the results text;
- the face-verification page: distance bands, identity formatting, match derivation and the webhook payload;
- the subtitle page: the upload checks, its state resets and the closed-interval cue lookup;
- the speech-to-text page: the HTML escape chain for export and the blank-transcript guards of every action;
- the debate page: the prompt builder, the chat-log transition of a send, the export text and clearing;
- the speech-recognition aggregation shared by the translator page and the live-subtitle page, with
  their translation fallbacks, listening toggle, language swap and timers;
- the session store, which keeps React state and the `auth` storage key in step;
- the user server's `/register` and `/login` decisions over a username-keyed table;
- the face-folder service's enrollment (name derivation, folder replacement), deletion, listing and
  verify reply;
- the installer's case-insensitive, idempotent PATH append and its archive root-folder choice.

Every reply from a remote service (OpenAI, Azure, DeepFace, webhooks) is an input to the model.
Browser devices are outside it. Each page whose handlers update state is a class whose fields
are that state. Requests a handler sends are recorded in sequence fields, so a contract can say
exactly which requests were made. Pure computations are functions, and each is tied by lemmas to
the property the page relies on.

Modules: `Wrappers` (Option), `Sequences` (subsequence order), `Strings` (the JavaScript string
built-ins the pages use: `trim`, ASCII case mapping, `includes`, `split`, `join`, last path piece,
character counts), then one module per source file: `MorseCode`, `HazardDetector`,
`ObjectDetection`, `FaceVerify`, `Subtitle`, `SpeechToText`, `Debate`, `SpeechResults` (the
aggregation loop both speech pages share), `SpeechTranslator`, `RealTimeSubtitles`,
`AuthContext`, `UserRegistry`, `FaceStore` and `FfmpegInstaller`.

## Model

| member | source | states |
|---|---|---|
| Strings.BlankIffAllSpace | src/Debate.js:97 | `!s.trim()` holds exactly when every character of `s` is JavaScript whitespace |
| Strings.BlankIffTrimmedEmpty | src/MorseCode.js:92 | a string is blank exactly when trimming it leaves nothing |
| Strings.LowerConcat | src/HazardDetector.js:112 | lower-casing distributes over concatenation |
| Strings.JoinSplit | src/FaceVerify.js:160-163 | joining the pieces of a split with the same separator gives back the string |
| Strings.SplitJoin | src/FaceVerify.js:160-163 | splitting a join of separator-free pieces gives back the pieces |
| Strings.LastPieceShape | app.py:79 | the basename has no `/`, and it is a suffix of the path |
| Strings.LastPieceMaximal | app.py:79 | the basename is the whole path or is preceded by a `/`, so it is the longest `/`-free suffix |
| Strings.LastPieceEmpty | app.py:79 | the basename is empty exactly when the path is empty or ends in `/` |
| Strings.LastPieceOfSplit | app.py:79 | the basename is the last piece of the path split on `/` |
| Strings.CountConcat | src/SpeechtoText.js:86-90 | character counts add up over concatenation |
| MorseCode.CodeFor | src/MorseCode.js:6-15 | a space maps to `" / "`; each letter and digit maps to 1-5 dots and dashes; a character is unmapped exactly when its code is empty |
| MorseCode.TextToMorseEmpty | src/MorseCode.js:18 | the empty text encodes to the empty string |
| MorseCode.TextToMorseChar | src/MorseCode.js:18 | a single character encodes to the code of its upper-case form |
| MorseCode.TextToMorseConcat | src/MorseCode.js:18 | the encoding of two non-empty texts is their encodings joined by exactly one space, so n characters give n codes and n-1 separators |
| MorseCode.TextToMorseCaseInsensitive | src/MorseCode.js:18 | lower-casing or upper-casing the input does not change the encoding |
| MorseCode.JoinedCodesAreMorse | src/MorseCode.js:18 | joining Morse-alphabet pieces with spaces stays in the Morse alphabet |
| MorseCode.TextToMorseAlphabet | src/MorseCode.js:6-18 | every output character is `.`, `-`, space or `/` |
| MorseCode.UnmappedKeepSeparators | src/MorseCode.js:18 | a text of n unmapped characters encodes to its n-1 separating spaces |
| MorseCode.PlayMorseAudio | src/MorseCode.js:21-49 | the loop's final cursor and tone list equal the schedule functions of the whole code |
| MorseCode.WeightedStep | src/MorseCode.js:26-47 | one symbol advances the per-kind weighted total by exactly that symbol's advance |
| MorseCode.CursorByCounts | src/MorseCode.js:26-47 | the schedule ends at t0 + (unit+50)·dots + (3·unit+50)·dashes + unit·spaces + 7·unit·slashes |
| MorseCode.CursorMonotone | src/MorseCode.js:26-47 | for a non-negative unit the cursor never decreases along the code and never falls below t0 |
| MorseCode.TonesOrdered | src/MorseCode.js:27-42 | every tone lies between t0 and the final cursor, and consecutive tones are at least 50 ms apart |
| MorseCode.KeyCommand | src/MorseCode.js:154-185 | nothing happens while the input is focused; 7 shortens the unit (faster) and 8 lengthens it (slower); 4 starts voice input only when not listening; keys outside 1-8 do nothing |
| MorseCode.SpeedStepsUndo | src/MorseCode.js:176-180 | away from the bounds, a "slower" key press is undone by a "faster" one and the reverse |
| MorseCode.SpeedStepBounded | src/MorseCode.js:176-180 | a key moves a speed in range by at most one step of 10, never up for "slower" nor down for "faster" |
| MorseCode.SpeedMonotone | src/MorseCode.js:176-180 | a key keeps the order of two speeds, and the speed stops moving at 50 going down and at 300 going up |
| MorseCode.SpeedStaysInRange | src/MorseCode.js:176-180 | a speed within the slider's 50-300 range stays in it after any key |
| MorseCode.ReadAloudStepFor | src/MorseCode.js:91-102 | a blank input is refused with its error; otherwise playing audio is paused, or else speech is requested for the text and voice |
| MorseCode.PlayButton | src/MorseCode.js:254-261 | a blank input is refused with its error; otherwise the schedule played is that of the current Morse output at the current speed |
| HazardDetector.StrictPrompt | src/HazardDetector.js:77 | the prompt starts with the fixed instruction, followed by the user's question or, when empty, the default question |
| HazardDetector.StrictPromptInjective | src/HazardDetector.js:77 | different non-empty questions give different prompts |
| HazardDetector.ReplyText | src/HazardDetector.js:109 | the reply text is never empty: the content when present and non-empty, otherwise "No response" |
| HazardDetector.ContainsIgnoresTrim | src/HazardDetector.js:112-113 | trimming does not change whether a word without edge whitespace occurs |
| HazardDetector.NormaliseMeaning | src/HazardDetector.js:112-115 | Yes exactly when the lower-cased reply contains "yes"; No exactly when it contains "no" but not "yes"; Unclear exactly when it contains neither |
| HazardDetector.NoWithoutY | src/HazardDetector.js:114 | a reply that contains "no" and no `y` at all reduces to No |
| HazardDetector.MissingReplyIsNo | src/HazardDetector.js:109-114 | a missing reply falls back to "No response" and so reduces to No |
| HazardDetector.CaptureAndAnalyze | src/HazardDetector.js:61-130 | skipped exactly without canvas and video; otherwise the strict prompt is sent; a failed request shows the error and calls no webhook; an answer shows its reduced word, which is forwarded exactly when the webhook is enabled |
| HazardDetector.HazardPage.constructor | src/HazardDetector.js:6-11 | empty question, webhook enabled, no frame, no answer, no requests |
| HazardDetector.HazardPage.CaptureImageAndAnalyze | src/HazardDetector.js:61-130 | the page changes exactly as the capture outcome says: nothing when skipped; otherwise the frame is kept, the prompt sent, the answer shown and any forwarded word recorded |
| ObjectDetection.ToByteArray | src/OD.js:71-75 | a fresh array as long as the string whose element i is the char code of character i, truncated to 8 bits |
| ObjectDetection.Latin1BytesExact | src/OD.js:71-75 | a character code below 256 is stored unchanged |
| ObjectDetection.Kept | src/OD.js:84-87 | a prediction is kept exactly when its probability·100 reaches the threshold, and nothing is added |
| ObjectDetection.KeptConcat | src/OD.js:84-87 | filtering a concatenation is the concatenation of the filtered parts, so every passing occurrence is kept |
| ObjectDetection.KeptSingle | src/OD.js:84-87 | one prediction is kept alone when it passes and dropped otherwise |
| ObjectDetection.KeptCount | src/OD.js:84-87 | a passing prediction is kept as many times as it occurs, a failing one never |
| ObjectDetection.KeptIsSubsequence | src/OD.js:84-87 | the kept predictions keep their original order |
| ObjectDetection.RaisingThresholdShrinks | src/OD.js:84-87 | what a higher threshold keeps is a subsequence of what a lower one keeps |
| ObjectDetection.CatAndDog | src/OD.js:84-87 | with threshold 80, a 0.95 cat is kept and a 0.5 dog is dropped |
| ObjectDetection.BoxInsideOverlay | src/OD.js:100-103 | a box within the unit square lands inside the overlay |
| ObjectDetection.LabelY | src/OD.js:114 | the label goes above a box lower than row 10 and below one higher up, and never above row 5 for y ≥ 0 |
| ObjectDetection.ResultTextLines | src/OD.js:118-125 | splitting the results text on newlines gives exactly one line per kept prediction, in filter order |
| ObjectDetection.DrawAll | src/OD.js:96-116 | the drawn overlays are one per kept prediction, in order |
| ObjectDetection.Detector.constructor | src/OD.js:10 | no overlay and no results text |
| ObjectDetection.Detector.CaptureImage | src/OD.js:58-130 | without a frame or a reply nothing changes; otherwise the overlay is replaced by this cycle's boxes only and the results text lists the kept predictions |
| FaceVerify.ConfidenceLabel | src/FaceVerify.js:55-59 | the label is one of Strong, Moderate or Weak |
| FaceVerify.ConfidenceBands | src/FaceVerify.js:55-59 | Strong exactly for d ≤ 0.4, Moderate exactly for 0.4 < d ≤ 0.6, Weak exactly above 0.6 |
| FaceVerify.ConfidenceMonotone | src/FaceVerify.js:55-59 | a larger distance never gives a stronger band |
| FaceVerify.DashesToSpaces | src/FaceVerify.js:159 | same length, no dash left, every dash replaced by a space and every other character kept |
| FaceVerify.Capitalize | src/FaceVerify.js:162 | same length; the first character is upper-cased and the rest kept |
| FaceVerify.FormatIdentity | src/FaceVerify.js:158 | a null or empty identity formats to "" |
| FaceVerify.CapitalizeFromAt | src/FaceVerify.js:160-163 | a character that starts the text or follows a space is upper-cased, and every other character is kept |
| FaceVerify.CapitalizeAfterFirst | src/FaceVerify.js:160-163 | the character-level capitalisation agrees with split, per-word capitalise and join |
| FaceVerify.CapitalizeWordsByChars | src/FaceVerify.js:160-163 | split/capitalise/join equals upper-casing each word-initial character |
| FaceVerify.FormatIdentityByChars | src/FaceVerify.js:157-164 | the formatted identity is the dash-free text with each word-initial character upper-cased |
| FaceVerify.FormatIdentityShape | src/FaceVerify.js:157-164 | the result contains no dash and is as long as the identity |
| FaceVerify.FormatIdentityIdempotent | src/FaceVerify.js:157-164 | formatting an already formatted identity changes nothing |
| FaceVerify.DeriveMatch | src/FaceVerify.js:117-135 | a match exactly when `matched` and `identity` are truthy and `distance` is a number, so a falsy `matched` or a non-numeric distance never matches; a match carries that identity and distance |
| FaceVerify.PayloadOfMatch | src/FaceVerify.js:117-135 | when the page shows a match, the webhook carries exactly the identity and distance shown |
| FaceVerify.PayloadIdentity | src/FaceVerify.js:124-128 | the forwarded identity is the server's when truthy and otherwise the empty string |
| FaceVerify.PayloadFieldsPresent | src/FaceVerify.js:124-128 | the payload never has an undefined identity or distance, nor a null identity |
| FaceVerify.EnrollName | src/FaceVerify.js:75 | an image is named by its relative path or its file name, and the name is empty only when both are |
| FaceVerify.EnrollAlert | src/FaceVerify.js:142-155 | the user is never shown an empty alert, and the failure text appears only on a failed enrollment or when the server sends that text |
| FaceVerify.FacePage.constructor | src/FaceVerify.js:29-31 | no match, no preview, not loading, nothing sent |
| FaceVerify.FacePage.SendFormData | src/FaceVerify.js:109-140 | the image is sent; a failure alerts and keeps the match; a reply sets the derived match and goes to the webhook exactly when it is enabled |
| FaceVerify.FacePage.HandleVerifyFace | src/FaceVerify.js:70-100 | the enroll tab with a folder sends only the enrollment and alerts its outcome; otherwise the webcam shot or chosen file is previewed and verified, or the matching alert is shown; a failed request alerts and changes neither the match nor the webhook log; a reply sets the match it implies and forwards the payload when forwarding is on; loading ends false |
| Subtitle.ValidVideoTypesExactly | src/Subtitle.js:19-20 | exactly video/mp4, video/webm and video/ogg are accepted |
| Subtitle.FirstCovering | src/Subtitle.js:54-56 | the first cue whose closed interval holds t, or none exactly when no cue holds t |
| Subtitle.CueBoundsInclusive | src/Subtitle.js:55 | a cue is shown at its start and at its end time |
| Subtitle.UniqueCoverShown | src/Subtitle.js:54-57 | when one cue alone covers t, its text is shown |
| Subtitle.EarlierCueWins | src/Subtitle.js:54-56 | with overlapping cues, an earlier covering cue is the one found |
| Subtitle.SubtitlePage.constructor | src/Subtitle.js:8-12 | no video, no cues, no text, not loading, no error |
| Subtitle.SubtitlePage.BeginUpload | src/Subtitle.js:15-30 | no file changes nothing; an unsupported type only sets the error; an accepted one clears the error, resets cues and text, sets the URL and loading, and is the only case that sends the request |
| Subtitle.SubtitlePage.FinishUpload | src/Subtitle.js:39-46 | a reply replaces the cues; a failure sets the error and navigates to the unavailable page; loading ends false either way |
| Subtitle.SubtitlePage.PollTick | src/Subtitle.js:51-58 | with a video and cues the shown text is the lookup at the current time; otherwise it is unchanged |
| SpeechToText.ReplaceAllConcat | src/SpeechtoText.js:86-90 | a global replace distributes over concatenation |
| SpeechToText.ReplaceAllAbsent | src/SpeechtoText.js:86-90 | replacing an absent character changes nothing |
| SpeechToText.ChainByChars | src/SpeechtoText.js:86-90 | when later replacements cannot touch earlier entities, the replace chain equals escaping each character on its own |
| SpeechToText.HtmlLaterSafe | src/SpeechtoText.js:86-90 | the entities `&amp;`, `&lt;`, `&gt;` are untouched by the replacements after them |
| SpeechToText.EscapeHtmlByChars | src/SpeechtoText.js:86-90 | the export escape is character-by-character |
| SpeechToText.EscapedShape | src/SpeechtoText.js:86-90 | the escaped text has no newline, and its `<` and `>` are exactly one pair per input newline, the inserted `<br>` |
| SpeechToText.PlainTextUnchanged | src/SpeechtoText.js:86-90 | text without `&`, `<`, `>` or newline is unchanged |
| SpeechToText.AmpersandEscapedAgain | src/SpeechtoText.js:87 | an ampersand is always escaped, so an existing entity is escaped a second time |
| SpeechToText.SpeechRecorder.constructor | src/SpeechtoText.js:6-15 | the page's initial state: empty texts, voice "nova", target "es", nothing recorded or sent |
| SpeechToText.SpeechRecorder.RefuseBlank | src/SpeechtoText.js:79-82 | refused exactly for a blank transcript, with the shared error; otherwise the error is cleared |
| SpeechToText.SpeechRecorder.StartRecording | src/SpeechtoText.js:36-69 | the transcript is cleared; a recorder is recording when the microphone is granted, and a refusal leaves the recording state as it was |
| SpeechToText.SpeechRecorder.RecordingStopped | src/SpeechtoText.js:43-63 | the audio is sent for transcription; a reply sets the transcript to its text or "", a failure keeps it |
| SpeechToText.SpeechRecorder.StopRecording | src/SpeechtoText.js:71-76 | acts exactly when a recorder exists, and then recording stops |
| SpeechToText.SpeechRecorder.ExportAsPdf | src/SpeechtoText.js:78-121 | a blank transcript is refused; otherwise the escaped argument text is exported |
| SpeechToText.SpeechRecorder.Summarize | src/SpeechtoText.js:123-149 | a blank transcript is refused with no request; otherwise the summary request is sent and a reply becomes the summary |
| SpeechToText.SpeechRecorder.CorrectGrammar | src/SpeechtoText.js:151-176 | a blank transcript is refused with no request; otherwise a reply replaces the transcript |
| SpeechToText.SpeechRecorder.Translate | src/SpeechtoText.js:178-203 | a blank transcript is refused with no request; otherwise a reply replaces the transcript |
| SpeechToText.SpeechRecorder.ReadAloud | src/SpeechtoText.js:205-238 | a blank transcript is refused; playing audio is only paused with no request; otherwise speech of the transcript in the chosen voice is requested, and playback starts only when that request resolves |
| Debate.ToneClauses | src/Debate.js:85-86 | a tone adds at most one clause |
| Debate.StyleClauses | src/Debate.js:87-88 | a style adds at most one clause |
| Debate.PromptFrame | src/Debate.js:82-91 | the prompt starts with the debater sentence and ends with the follow-up sentence |
| Debate.AppendIf | src/Debate.js:83-84 | appending an optional clause extends the prompt by exactly the enabled clause's text |
| Debate.AppendEither | src/Debate.js:85-88 | appending the chosen alternative extends the prompt by exactly that clause's text |
| Debate.BuildDebatePrompt | src/Debate.js:81-93 | the built prompt is the opening, the enabled clauses' texts in order, then the closing |
| Debate.InEnabled | src/Debate.js:83-90 | a clause is enabled exactly when one of the six settings adds it |
| Debate.FlagClausesExactly | src/Debate.js:83-90 | each flag's clause is present exactly when the flag is set |
| Debate.ToneStyleClausesExactly | src/Debate.js:85-88 | the formal, casual, aggressive and polite clauses each appear exactly for their setting |
| Debate.ToneAndStyleExclusive | src/Debate.js:85-88 | never both tone clauses, never both style clauses |
| Debate.EnabledClausesInOrder | src/Debate.js:83-90 | the enabled clauses follow the fixed order short, simple, tone, style, examples, insults |
| Debate.ExportLineShape | src/Debate.js:69 | an exported line starts with "You: " exactly for the user's entries and ends with the entry's text |
| Debate.ExportAppend | src/Debate.js:69 | the export of a longer log is the old export, a blank line, then the new entries' export |
| Debate.DebateChat.constructor | src/Debate.js:8-10 | empty log and input, not loading |
| Debate.DebateChat.HandleSend | src/Debate.js:95-132 | speech stops; blank input changes nothing else; otherwise the log gains exactly the user entry and the assistant entry, the input is cleared, the request carries the prompt and the log so far, and a non-empty reply is spoken when speech is on |
| Debate.DebateChat.Exchange | src/Debate.js:98-131 | the two entries are appended after the earlier ones, the input cleared and the request recorded |
| Debate.DebateChat.ClearChat | src/Debate.js:62-66 | speech stops and both the log and the input are emptied |
| Debate.SendExtendsExport | src/Debate.js:69 | after a send, the export gains exactly the two new lines |
| SpeechResults.Window | src/AI4.js:89 | the results from `resultIndex` on, none when it is past the end |
| SpeechResults.Shown | src/AI4.js:98 | the final text when non-empty, else the interim text |
| SpeechResults.Aggregate | src/AI4.js:86-96 | the loop's two accumulators are the final and the interim results of the window, each concatenated in order |
| SpeechResults.FiltersPartition | src/AI4.js:89-96 | every result goes to exactly one accumulator, final ones to the final side |
| SpeechResults.FiltersKeepOrder | src/AI4.js:89-96 | each accumulator keeps the results' order |
| SpeechResults.AccumulatorsCoverAll | src/AI4.js:89-96 | together the two accumulators hold exactly as much text as all results |
| SpeechResults.UniformResults | src/Extra2.js:40-47 | all-final results all go to the final text, all-interim ones to the interim text |
| SpeechTranslator.TranslationFallbackExactly | src/AI4.js:135-150 | a fallback text is shown exactly when the request threw, no choice came back, or the choice is itself a fallback text; an empty text is shown only for an empty first choice |
| SpeechTranslator.TranslatorPage.constructor | src/AI4.js:5-11 | not listening, empty texts, Chinese target, English source, no auto read |
| SpeechTranslator.TranslatorPage.OnResult | src/AI4.js:85-98 | the transcript is the aggregated final text, or the interim text when that is empty |
| SpeechTranslator.TranslatorPage.TranslateText | src/AI4.js:108-151 | one request with the from/to system prompt; the shown translation follows the fallbacks; it is spoken exactly when auto read is on and a choice came back |
| SpeechTranslator.TranslatorPage.ListenToggle | src/AI4.js:153-164 | listening flips; stopping translates the transcript into the selected language; stopping speaks the translation when auto-read is on and a choice came back, and otherwise nothing is spoken; starting clears transcript and translation; the languages are kept |
| SpeechTranslator.TranslatorPage.ReadAloud | src/AI4.js:166-172 | a non-empty translation is spoken in the selected language, an empty one is not |
| SpeechTranslator.TranslatorPage.SwapLanguages | src/AI4.js:184-187 | the from and to languages are exchanged |
| SpeechTranslator.SwapTwice | src/AI4.js:184-187 | swapping twice restores both languages |
| RealTimeSubtitles.TranslationShown | src/Extra2.js:109-114 | the shown translation is never empty; an exception shows "Error during translation." and a missing result "Translation failed." |
| RealTimeSubtitles.TranslationShownContent | src/Extra2.js:110-111 | a non-blank result is shown trimmed, a blank one as "Translation failed." |
| RealTimeSubtitles.SubtitleOverlay.constructor | src/Extra2.js:10-11 | no subtitle, no translation, no timers, no requests |
| RealTimeSubtitles.SubtitleOverlay.OnResult | src/Extra2.js:36-65 | the subtitle is the final text or else the interim text; only a non-empty final text replaces both timers, the translation one carrying that text |
| RealTimeSubtitles.SubtitleOverlay.SilenceElapsed | src/Extra2.js:58 | the silence timer clears the subtitle |
| RealTimeSubtitles.SubtitleOverlay.TranslateText | src/Extra2.js:84-116 | blank text sends nothing; otherwise one request and the shown translation follows the fallbacks |
| RealTimeSubtitles.SubtitleOverlay.TranslationElapsed | src/Extra2.js:61-63 | the translation timer translates its text, with no request for blank text |
| RealTimeSubtitles.InterimOnlySchedulesNothing | src/Extra2.js:53-64 | interim-only results have an empty final text, so no timer is scheduled |
| AuthContext.ReloadAfterSetAuth | src/AuthContext.js:6-15 | a reload after `setAuth(d)` starts from d |
| AuthContext.ReloadAfterLogout | src/AuthContext.js:6-20 | a reload after logout starts unauthenticated |
| AuthContext.AuthProvider.constructor | src/AuthContext.js:6-10 | the state is the stored `auth` value when present, otherwise unauthenticated |
| AuthContext.AuthProvider.SetAuth | src/AuthContext.js:12-15 | state and stored entry both become d; no other key changes |
| AuthContext.AuthProvider.Logout | src/AuthContext.js:17-20 | state becomes unauthenticated and the key is removed; no other key changes |
| AuthContext.LogoutTwice | src/AuthContext.js:17-20 | a second logout leaves the same signed-out state |
| AuthContext.Reload | src/AuthContext.js:6-10 | a provider rebuilt from the storage has the same state as the one that wrote it |
| UserRegistry.Find | src/server.js:36 | the first record with the username, or none exactly when no record has it |
| UserRegistry.FindUnique | src/server.js:27 | with unique usernames, lookup finds the one record that has the name |
| UserRegistry.UserTable.constructor | src/server.js:26-30 | an empty table |
| UserRegistry.UserTable.Register | src/server.js:26-46 | an existing name gives 400 and no change; the empty name fails validation on save, so no answer is sent and nothing is stored; any other new name adds exactly one record holding the hashed password and gives 201; usernames stay unique and non-empty |
| UserRegistry.UserTable.Login | src/server.js:48-63 | unknown name 404, rejected password 401, otherwise 200 with a token signed over the record's id; the table is unchanged |
| UserRegistry.RegisterThenLogin | src/server.js:33-62 | registering a new non-empty name then logging in with the same password succeeds with a token when the comparison accepts a password against its hash |
| FaceStore.PersonName | app.py:66-67 | the derived name contains no `/` |
| FaceStore.PersonNameWithoutFolder | app.py:67 | a file name without `/` gives "unknown" |
| FaceStore.PersonNameOutsideStore | app.py:66-71 | the derived name is not checked: "/x.jpg" gives the empty name and "../x.jpg" gives ".." |
| FaceStore.PersonNameOfPath | app.py:66-67 | for a path of two or more components the name is the second-to-last one |
| FaceStore.FolderAppend | app.py:78-81 | saving one more upload sets its basename to its content and keeps the rest |
| FaceStore.FolderHoldsBasenames | app.py:78-81 | the folder holds exactly the uploads' basenames |
| FaceStore.LaterUploadWins | app.py:78-81 | the content under a basename is that of the last upload with it |
| FaceStore.FolderSize | app.py:78-81 | colliding basenames give fewer files than uploads, never more |
| FaceStore.UnnamedMeaning | app.py:79-81 | an upload cannot be saved exactly when its basename is empty |
| FaceStore.FirstUnnamedMeaning | app.py:78-81 | the saving loop stops at the first upload with an empty basename |
| FaceStore.SavedUploads | app.py:78-81 | the saved uploads are a prefix of the uploads, all of them when every one has a name |
| FaceStore.SuccessMessage | app.py:84 | the enrolled message begins with the name; the delete message begins with "Deleted folder '" |
| FaceStore.EnrollTouchesOnlyPerson | app.py:71-81 | enrollment changes no entry but the person's |
| FaceStore.EnrollReplacesFolder | app.py:73-84 | a successful enrollment replaces the person's folder with exactly the uploads under their basenames and reports the number of uploads |
| FaceStore.EnrollFailures | app.py:58-87 | enrollment succeeds exactly when there are uploads, no plain file holds the person's name, and every upload has a basename |
| FaceStore.Listed | app.py:92-95 | exactly the entries that are folders are listed |
| FaceStore.SaveUploads | app.py:78-81 | the loop's folder is that of the uploads saved before it stopped, and it finishes exactly when every upload has a basename |
| FaceStore.Store.EnrollFolder | app.py:56-87 | the reply and the new store are those of the enrollment function |
| FaceStore.Store.DeleteFolder | app.py:102-114 | an existing folder is removed alone with the success reply; anything else gives 404 and no change |
| FaceStore.Store.ListFolders | app.py:89-99 | the listing is the store's folders |
| FaceStore.ListedAfterEnroll | app.py:73-111 | an enrolled name is listed, a deleted one is not, and no other name's listing changes |
| FaceStore.Verify | app.py:12-53 | no image gives 400; a failed search the error; an empty table no match; otherwise the top row's distance and the basename of its identity: the longest `/`-free suffix of that path |
| FfmpegInstaller.PathUpdateMeaning | install_ffmpeg.py:38-43 | nothing is written exactly when the folder already occurs ignoring case; a written value keeps the old one as its prefix and holds the folder |
| FfmpegInstaller.PathUpdateIdempotent | install_ffmpeg.py:38-43 | a second update with the same folder writes nothing |
| FfmpegInstaller.UserEnvironment.AddToPath | install_ffmpeg.py:31-48 | a missing value reads as ""; when nothing is written nothing changes; otherwise the value is stored and one broadcast sent |
| FfmpegInstaller.AddToPathTwice | install_ffmpeg.py:31-48 | after two runs the folder is on the path, the second run changed nothing, and at most one broadcast was sent |
| FfmpegInstaller.RootFolderPrefix | install_ffmpeg.py:20 | an empty archive has no root; otherwise the root has no `/`, starts the first entry name and is followed there by `/` when shorter |

## Left out

- Remote services (OpenAI, Azure Custom Vision, DeepFace, the local Flask services, the webhooks): their replies are inputs. A thrown request and a reply without content are separate cases.
- Browser devices: camera, microphone, MediaRecorder, SpeechRecognition and speechSynthesis, AudioContext oscillators and canvas drawing. They appear only as flags (`hasAudio`, `hasRecorder`, `recognizing`) and as recorded requests or utterances.
- Time: `setTimeout` and `setInterval` are modelled as pending timers whose expiry is its own method (`SilenceElapsed`, `TranslationElapsed`, `PollTick`), with no clock. The OD polling interval and the sign-language intervals are not modelled.
- Interleaving of asynchronous handlers: each handler runs to completion with the remote reply given as a parameter.
- MorseCode.PlayMorseAudio: the schedule is in integer milliseconds, while the page uses seconds as floating point.
- `toFixed(2)` percentages: a parameter `pct: real -> string`, because float-to-string formatting is out of scope.
- Strings.Lower and Strings.Upper: ASCII-only case mapping. JavaScript `toUpperCase` and Python `lower` also map non-ASCII letters.
- AuthContext: storage holds the auth value itself; the JSON stringify/parse round-trip is taken to be the identity.
- UserRegistry.UserTable.Register: the request body's fields are taken to be strings. A missing or non-string password makes `bcrypt.hash` throw, and the handler then sends no answer. The model does not capture that case.
- UserRegistry: bcrypt hashing and comparison and JWT signing are function parameters. MongoDB ids are a counter, and the unique index is the `Valid` invariant.
- FaceStore: the face directory is a map from names to folders or plain files. Names such as "" or ".." are not treated as paths, and `os.path` is taken as POSIX.
- FaceStore.Store.ListFolders: returns a set, because `os.listdir` order is unspecified.
- FaceStore: the texts of `str(e)` in 500 replies are not modelled. A failed save is the `ServerError` reply, and the folder keeps the uploads saved before the failure.
- FaceStore.EnrollTouchesOnlyPerson: the store is a map whose keys are plain names, so the empty name or ".." (see FaceStore.PersonNameOutsideStore) is just another key. On disk, `os.path.join(FACE_DB, "")` is the store itself and `FACE_DB/..` its parent, so an upload named "/x.jpg" or "../x.jpg" makes `enroll_folder` remove the whole store or the directory above it. The lemma does not hold for those names on disk.
- FaceStore.Store.DeleteFolder: likewise a folder name of ".." names the store's parent on disk, which `delete_folder` would remove. In the map model it is an absent key and gives 404.
- ObjectDetection.Passes, ObjectDetection.Kept and FaceVerify.ConfidenceLabel: probabilities and distances are exact reals, while the page computes with IEEE doubles. The page computes 0.29·100 as 28.999999999999996, so with threshold 29 it drops a prediction that the model keeps. Likewise a distance whose double rounds across 0.4 or 0.6 may get a different label.
- MorseCode.Codes, MorseCode.TextToMorse and MorseCode.UnmappedKeepSeparators: a string is a sequence of characters, while `split("")` cuts JavaScript strings into UTF-16 code units. A character outside the Basic Multilingual Plane, such as an emoji, is two code units on the page. The page therefore gives two empty codes and one extra separator for it, where the model gives one.
- FaceStore.SuccessMessage: states only how the message begins, not its full text.
- FaceStore.Verify: DeepFace matching and a NaN distance are not modelled. The match table is an input.
- FfmpegInstaller: the download, extraction, folder moves and the `main` sequence are file-system effects and not modelled beyond `RootFolder`.
- FfmpegInstaller.UserEnvironment.AddToPath: the effect of the settings-change broadcast on other processes is not modelled, only how many broadcasts were sent.
- FfmpegInstaller.AddToPathTwice: bounds the broadcasts by one more than before rather than naming the count, since the first run may or may not write.
- FaceVerify: file reading (`FileReader`, object URLs) is not modelled. The encoded data and URLs are inputs.
- SpeechTranslator: re-creating the recognizer when the source language changes is not modelled.
- Pages outside this core (routing, static pages, the other AI pages, the login and register forms, the API check script) are not modelled.
