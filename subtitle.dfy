/**
 * The subtitle page: an uploaded video is accepted only for three MIME types,
 * its subtitles come back from a transcription service as timed cues, and a
 * poll shows the text of the first cue whose closed interval holds the
 * video's current time. The service, the video element and the 300 ms
 * interval are outside the model; their results are inputs.
 */
module Subtitle {
  import opened Wrappers

  const ValidVideoTypes: seq<string> := ["video/mp4", "video/webm", "video/ogg"]
  const UnsupportedFormat := "Unsupported file format. Please upload an MP4, WebM, or OGG video."
  const ProcessingFailed := "Failed to process the video. Please try again with a valid file."
  const ServiceUnavailable := "/service-unavailable"

  /** One subtitle cue, shown from `start` to `end` seconds inclusive. */
  datatype Cue = Cue(start: real, end: real, text: string)

  predicate Covers(c: Cue, t: real) {
    c.start <= t <= c.end
  }

  /** `validVideoTypes.includes(type)`. */
  predicate IsValidVideoType(mime: string) {
    mime in ValidVideoTypes
  }

  lemma ValidVideoTypesExactly(mime: string)
    ensures IsValidVideoType(mime) <==> mime == "video/mp4" || mime == "video/webm" || mime == "video/ogg"
  {
  }

  /** The index `subtitles.find` stops at: the first cue covering `t`, if any. */
  function FirstCovering(cues: seq<Cue>, t: real): (r: Option<nat>)
    ensures r.Some? ==> r.value < |cues| && Covers(cues[r.value], t)
    ensures r.Some? ==> forall k :: 0 <= k < r.value ==> !Covers(cues[k], t)
    ensures r.None? <==> forall k :: 0 <= k < |cues| ==> !Covers(cues[k], t)
  {
    if cues == [] then None
    else if Covers(cues[0], t) then Some(0)
    else
      match FirstCovering(cues[1..], t)
      case None => None
      case Some(i) => Some(i + 1)
  }

  /** `current ? current.text : ""`. */
  function CurrentText(cues: seq<Cue>, t: real): string {
    match FirstCovering(cues, t)
    case None => ""
    case Some(i) => cues[i].text
  }

  /** Both ends of a cue's interval count: a lone cue shows at its start and at its end. */
  lemma CueBoundsInclusive(c: Cue)
    requires c.start <= c.end
    ensures CurrentText([c], c.start) == c.text && CurrentText([c], c.end) == c.text
  {
  }

  /** When exactly one cue covers the time, its text is the one shown. */
  lemma UniqueCoverShown(cues: seq<Cue>, t: real, i: nat)
    requires i < |cues| && Covers(cues[i], t)
    requires forall k :: 0 <= k < |cues| && k != i ==> !Covers(cues[k], t)
    ensures CurrentText(cues, t) == cues[i].text
  {
  }

  /** With overlapping cues, the one shown is never later in the list than any covering cue. */
  lemma EarlierCueWins(cues: seq<Cue>, t: real, i: nat)
    requires i < |cues| && Covers(cues[i], t)
    ensures FirstCovering(cues, t).Some? && FirstCovering(cues, t).value <= i
  {
  }

  /** The page's state. */
  class SubtitlePage {
    var videoUrl: Option<string>
    var subtitles: seq<Cue>
    var currentSubtitle: string
    var loading: bool
    var error: string
    var navigatedTo: Option<string>

    constructor ()
      ensures videoUrl == None && subtitles == [] && currentSubtitle == "" && !loading && error == ""
      ensures navigatedTo == None
    {
      videoUrl, subtitles, currentSubtitle, loading, error := None, [], "", false, "";
      navigatedTo := None;
    }

    /**
     * `handleVideoUpload` up to its request, given the picked file's MIME
     * type: no file changes nothing; a file
     * of another type only sets the error; an accepted one clears the error,
     * shows the video at `url`, empties the cues and the shown text and sets
     * `loading`. `requested` says whether the request is made.
     */
    method BeginUpload(fileType: Option<string>, url: string) returns (requested: bool)
      modifies this
      ensures requested <==> fileType.Some? && IsValidVideoType(fileType.value)
      ensures fileType.None? ==>
        && videoUrl == old(videoUrl) && subtitles == old(subtitles) && currentSubtitle == old(currentSubtitle)
        && loading == old(loading) && error == old(error) && navigatedTo == old(navigatedTo)
      ensures fileType.Some? && !requested ==>
        && error == UnsupportedFormat
        && videoUrl == old(videoUrl) && subtitles == old(subtitles) && currentSubtitle == old(currentSubtitle)
        && loading == old(loading) && navigatedTo == old(navigatedTo)
      ensures requested ==>
        && error == "" && videoUrl == Some(url) && subtitles == [] && currentSubtitle == "" && loading
        && navigatedTo == old(navigatedTo)
    {
      if fileType.None? {
        return false;
      }
      if !IsValidVideoType(fileType.value) {
        error := UnsupportedFormat;
        return false;
      }
      error := "";
      videoUrl := Some(url);
      subtitles := [];
      currentSubtitle := "";
      loading := true;
      return true;
    }

    /**
     * The rest of `handleVideoUpload`, once the service answers: its cues, or
     * on failure the error text and a redirect; `loading` ends either way.
     */
    method FinishUpload(reply: Option<seq<Cue>>)
      modifies this`subtitles, this`error, this`navigatedTo, this`loading
      ensures !loading
      ensures reply.Some? ==> subtitles == reply.value && error == old(error) && navigatedTo == old(navigatedTo)
      ensures reply.None? ==>
        subtitles == old(subtitles) && error == ProcessingFailed && navigatedTo == Some(ServiceUnavailable)
    {
      if reply.Some? {
        subtitles := reply.value;
      } else {
        error := ProcessingFailed;
        navigatedTo := Some(ServiceUnavailable);
      }
      loading := false;
    }

    /**
     * One tick of the polling interval: with a video and at least one cue,
     * the shown text becomes the covering cue's, else "". With no cues the
     * shown text is left as it was.
     */
    method PollTick(hasVideo: bool, currentTime: real)
      modifies this`currentSubtitle
      ensures hasVideo && |subtitles| > 0 ==> currentSubtitle == CurrentText(subtitles, currentTime)
      ensures !(hasVideo && |subtitles| > 0) ==> currentSubtitle == old(currentSubtitle)
    {
      if hasVideo && |subtitles| > 0 {
        currentSubtitle := CurrentText(subtitles, currentTime);
      }
    }
  }
}
