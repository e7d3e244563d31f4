/**
 * The face-recognition page: it bands a match distance into a confidence
 * word, prettifies an enrolled identity for display, derives the shown match
 * from the verify service's JSON reply, forwards a payload to an optional
 * webhook, and routes a button press to enrollment or verification. The
 * services, the webcam and `FileReader` are outside the model: what they
 * return is an input.
 */
module FaceVerify {
  import opened Strings
  import opened Wrappers

  // ---- Confidence band -----------------------------------------------------

  const Strong := "Strong"
  const Moderate := "Moderate"
  const Weak := "Weak"

  /** `getConfidenceLabel`: the smaller the distance, the stronger the match. */
  function ConfidenceLabel(distance: real): (r: string)
    ensures r == Strong || r == Moderate || r == Weak
  {
    if distance <= 0.4 then Strong
    else if distance <= 0.6 then Moderate
    else Weak
  }

  /** The bands in order of strength: 0 for "Strong", 1 for "Moderate", 2 for "Weak". */
  function Rank(band: string): nat {
    if band == Strong then 0 else if band == Moderate then 1 else 2
  }

  /** Each band is a closed-on-the-right interval of distances. */
  lemma ConfidenceBands(distance: real)
    ensures ConfidenceLabel(distance) == Strong <==> distance <= 0.4
    ensures ConfidenceLabel(distance) == Moderate <==> 0.4 < distance <= 0.6
    ensures ConfidenceLabel(distance) == Weak <==> 0.6 < distance
  {
  }

  /** A larger distance never gives a stronger band. */
  lemma ConfidenceMonotone(d1: real, d2: real)
    requires d1 <= d2
    ensures Rank(ConfidenceLabel(d1)) <= Rank(ConfidenceLabel(d2))
  {
  }

  // ---- Identity prettifier -------------------------------------------------

  /** `identity.replace(/-/g, " ")`. */
  function DashesToSpaces(s: string): (r: string)
    ensures |r| == |s| && '-' !in r
    ensures forall i :: 0 <= i < |s| ==> r[i] == (if s[i] == '-' then ' ' else s[i])
  {
    seq(|s|, i requires 0 <= i < |s| => if s[i] == '-' then ' ' else s[i])
  }

  /** `word.charAt(0).toUpperCase() + word.slice(1)`; an empty word stays empty. */
  function Capitalize(word: string): (r: string)
    ensures |r| == |word|
    ensures word != "" ==> r[0] == UpperChar(word[0]) && r[1..] == word[1..]
  {
    if word == "" then "" else [UpperChar(word[0])] + word[1..]
  }

  function CapitalizeAll(words: seq<string>): (r: seq<string>)
    ensures |r| == |words| && forall i :: 0 <= i < |words| ==> r[i] == Capitalize(words[i])
  {
    seq(|words|, i requires 0 <= i < |words| => Capitalize(words[i]))
  }

  /** `.split(" ").map(capitalize).join(" ")`. */
  function CapitalizeWords(s: string): string {
    Join(CapitalizeAll(Split(s, ' ')), " ")
  }

  /** `formatIdentity`: "" for a missing or empty identity, else dashes to spaces and words capitalized. */
  function FormatIdentity(identity: Option<string>): (r: string)
    ensures identity.None? || identity.value == "" ==> r == ""
  {
    if identity.None? || identity.value == "" then ""
    else CapitalizeWords(DashesToSpaces(identity.value))
  }

  /**
   * The reference reading of the prettifier, character by character: a
   * character is upper-cased exactly when it starts the string or follows a
   * space.
   */
  function CapitalizeFrom(s: string, atStart: bool): (r: string)
    ensures |r| == |s|
  {
    if s == [] then []
    else [if atStart then UpperChar(s[0]) else s[0]] + CapitalizeFrom(s[1..], s[0] == ' ')
  }

  /** Character `i` of the reference reading: upper-cased at the start or after a space, else kept. */
  lemma {:induction false} CapitalizeFromAt(s: string, atStart: bool, i: nat)
    requires i < |s|
    ensures CapitalizeFrom(s, atStart)[i]
      == if (i == 0 && atStart) || (0 < i && s[i - 1] == ' ') then UpperChar(s[i]) else s[i]
  {
    if 0 < i {
      CapitalizeFromAt(s[1..], s[0] == ' ', i - 1);
    }
  }

  lemma CapitalizeAllCons(w: string, ws: seq<string>)
    ensures CapitalizeAll([w] + ws) == [Capitalize(w)] + CapitalizeAll(ws)
  {
  }

  /** Upper-casing keeps dashes and spaces, and only them, where they were. */
  lemma UpperCharKeeps(c: char)
    ensures UpperChar(c) == '-' <==> c == '-'
    ensures UpperChar(c) == ' ' <==> c == ' '
    ensures UpperChar(UpperChar(c)) == UpperChar(c)
  {
  }

  lemma JoinPrefixFirst(c: string, p: string, ps: seq<string>, sep: string)
    ensures Join([c + p] + ps, sep) == c + Join([p] + ps, sep)
  {
    if ps != [] {
      assert ([c + p] + ps)[1..] == ps && ([p] + ps)[1..] == ps;
    }
  }

  lemma JoinEmptyFirst(ps: seq<string>, sep: string)
    requires ps != []
    ensures Join([""] + ps, sep) == sep + Join(ps, sep)
  {
    assert ([""] + ps)[1..] == ps;
  }

  /** Split pieces after the first, capitalized, and joined: the tail of the reference reading. */
  lemma {:induction false} CapitalizeAfterFirst(s: string)
    ensures var parts := Split(s, ' ');
      CapitalizeFrom(s, false) == Join([parts[0]] + CapitalizeAll(parts[1..]), " ")
    decreases |s|, 0
  {
    var parts := Split(s, ' ');
    if s == [] {
    } else if s[0] == ' ' {
      var tail := Split(s[1..], ' ');
      assert parts == [""] + tail;
      assert parts[1..] == tail;
      CapitalizeWordsByChars(s[1..]);
      JoinEmptyFirst(CapitalizeAll(tail), " ");
    } else {
      var rest := Split(s[1..], ' ');
      assert parts == [[s[0]] + rest[0]] + rest[1..];
      assert parts[1..] == rest[1..];
      CapitalizeAfterFirst(s[1..]);
      JoinPrefixFirst([s[0]], rest[0], CapitalizeAll(rest[1..]), " ");
    }
  }

  /** The split/map/join pipeline agrees with the character-by-character reading. */
  lemma {:induction false} CapitalizeWordsByChars(s: string)
    ensures CapitalizeWords(s) == CapitalizeFrom(s, true)
    decreases |s|, 1
  {
    var parts := Split(s, ' ');
    if s == [] {
    } else if s[0] == ' ' {
      var tail := Split(s[1..], ' ');
      assert parts == [""] + tail;
      CapitalizeAllCons("", tail);
      CapitalizeWordsByChars(s[1..]);
      JoinEmptyFirst(CapitalizeAll(tail), " ");
    } else {
      var rest := Split(s[1..], ' ');
      assert parts == [[s[0]] + rest[0]] + rest[1..];
      assert Capitalize([s[0]] + rest[0]) == [UpperChar(s[0])] + rest[0];
      CapitalizeAllCons([s[0]] + rest[0], rest[1..]);
      CapitalizeAfterFirst(s[1..]);
      JoinPrefixFirst([UpperChar(s[0])], rest[0], CapitalizeAll(rest[1..]), " ");
    }
  }

  /** A present identity is shown as its dash-free text with each word's first letter upper-cased. */
  lemma FormatIdentityByChars(identity: string)
    requires identity != ""
    ensures FormatIdentity(Some(identity)) == CapitalizeFrom(DashesToSpaces(identity), true)
  {
    CapitalizeWordsByChars(DashesToSpaces(identity));
  }

  /** The shown identity has no dash and as many characters as the stored one. */
  lemma FormatIdentityShape(identity: string)
    ensures var r := FormatIdentity(Some(identity));
      '-' !in r && |r| == |identity|
  {
    if identity != "" {
      FormatIdentityByChars(identity);
      var r := FormatIdentity(Some(identity));
      forall i | 0 <= i < |r|
        ensures r[i] != '-'
      {
        var d := DashesToSpaces(identity);
        var c := CapitalizeFrom(d, true);
        CapitalizeFromAt(d, true, i);
        UpperCharKeeps(d[i]);
      }
    }
  }

  /** Prettifying an already prettified identity changes nothing. */
  lemma FormatIdentityIdempotent(identity: string)
    ensures FormatIdentity(Some(FormatIdentity(Some(identity)))) == FormatIdentity(Some(identity))
  {
    var once := FormatIdentity(Some(identity));
    if identity != "" {
      FormatIdentityByChars(identity);
      FormatIdentityShape(identity);
      FormatIdentityByChars(once);
      var d := DashesToSpaces(identity);
      assert DashesToSpaces(once) == once;
      var twice := CapitalizeFrom(once, true);
      forall i | 0 <= i < |once|
        ensures twice[i] == once[i]
      {
        CapitalizeFromAt(d, true, i);
        CapitalizeFromAt(once, true, i);
        UpperCharKeeps(d[i]);
        if 0 < i {
          CapitalizeFromAt(d, true, i - 1);
          UpperCharKeeps(d[i - 1]);
        }
      }
    }
  }

  // ---- The verify reply and what the page derives from it ------------------

  /** A JSON value as the page sees it; `JUndefined` is a missing field. */
  datatype Json =
    | JUndefined
    | JNull
    | JBool(b: bool)
    | JNum(n: real)
    | JStr(s: string)
    | JObject

  /** JavaScript truthiness. */
  predicate Truthy(v: Json) {
    match v
    case JUndefined => false
    case JNull => false
    case JBool(b) => b
    case JNum(n) => n != 0.0
    case JStr(s) => s != ""
    case JObject => true
  }

  /** The fields of `/verify`'s reply the page reads. */
  datatype VerifyResult = VerifyResult(matched: Json, identity: Json, distance: Json)

  /** `isMatch`: a truthy `matched`, a truthy `identity` and a numeric `distance`. */
  predicate IsMatch(result: VerifyResult) {
    Truthy(result.matched) && Truthy(result.identity) && result.distance.JNum?
  }

  /** The `matchResult` state: an identity with its distance, or `{ identity: null }`. */
  datatype MatchResult = Match(identity: Json, distance: real) | NoMatch

  function DeriveMatch(result: VerifyResult): (m: MatchResult)
    ensures m.Match? <==> IsMatch(result)
    ensures m.Match? ==> m.identity == result.identity && Truthy(m.identity) && result.distance == JNum(m.distance)
    ensures !Truthy(result.matched) || !result.distance.JNum? ==> m == NoMatch
  {
    if IsMatch(result) then Match(result.identity, result.distance.n) else NoMatch
  }

  /** The webhook's body. */
  datatype Payload = Payload(matched: Json, identity: Json, distance: Json)

  /** `identity || ""` and `distance ?? null`; `matched` is passed on as it came. */
  function WebhookPayload(result: VerifyResult): (p: Payload)
    ensures p.matched == result.matched
    ensures Truthy(result.identity) ==> p.identity == result.identity
    ensures !Truthy(result.identity) ==> p.identity == JStr("")
    ensures result.distance.JUndefined? || result.distance.JNull? ==> p.distance == JNull
    ensures !(result.distance.JUndefined? || result.distance.JNull?) ==> p.distance == result.distance
  {
    Payload(
      result.matched,
      if Truthy(result.identity) then result.identity else JStr(""),
      if result.distance.JUndefined? || result.distance.JNull? then JNull else result.distance)
  }

  /**
   * On a match, the webhook reports exactly what the page shows: the matched
   * identity and its distance.
   */
  lemma PayloadOfMatch(result: VerifyResult)
    requires DeriveMatch(result).Match?
    ensures var m := DeriveMatch(result);
      WebhookPayload(result) == Payload(result.matched, m.identity, JNum(m.distance))
  {
  }

  /** The payload's identity is the reply's own identity when it is truthy, and otherwise the empty string. */
  lemma PayloadIdentity(result: VerifyResult)
    ensures var p := WebhookPayload(result);
      (Truthy(p.identity) && p.identity == result.identity) || p.identity == JStr("")
  {
  }

  /** The payload's identity and distance are never missing, whatever the reply lacks. */
  lemma PayloadFieldsPresent(result: VerifyResult)
    ensures !WebhookPayload(result).identity.JUndefined? && !WebhookPayload(result).distance.JUndefined?
    ensures !WebhookPayload(result).identity.JNull?
  {
  }

  // ---- The page's state ----------------------------------------------------

  /** A file picked in the folder input. */
  datatype PickedFile = PickedFile(name: string, relativePath: string)

  /** `file.webkitRelativePath || file.name`. */
  function EnrollName(f: PickedFile): (r: string)
    ensures f.relativePath != "" ==> r == f.relativePath
    ensures f.relativePath == "" ==> r == f.name
    ensures r == f.relativePath || r == f.name
    ensures r == "" <==> f.relativePath == "" && f.name == ""
  {
    if f.relativePath != "" then f.relativePath else f.name
  }

  /** One image of an enrollment request: its name and its data URL. */
  datatype EnrollImage = EnrollImage(name: string, base64: string)

  /** How `/enroll-folder` answered: no usable reply, or the JSON's `message` (absent as None). */
  datatype EnrollReply = EnrollFailed | EnrollAnswered(message: Option<string>)

  const VerifyFailed := "Verification failed."
  const WebcamFailed := "Failed to capture from webcam."
  const SelectImage := "Please select an image file."
  const EnrolledDefault := "Folder enrolled successfully."
  const EnrollFailedText := "Folder enrollment failed."

  /** `alert(data.message || "Folder enrolled successfully.")`, or the failure text. */
  function EnrollAlert(reply: EnrollReply): (r: string)
    ensures reply.EnrollFailed? ==> r == EnrollFailedText
    ensures reply.EnrollAnswered? && reply.message.Some? && reply.message.value != "" ==> r == reply.message.value
    ensures reply.EnrollAnswered? && (reply.message.None? || reply.message.value == "") ==> r == EnrolledDefault
    ensures r != ""
    ensures r == EnrollFailedText ==> reply.EnrollFailed? || reply.message == Some(EnrollFailedText)
  {
    match reply
    case EnrollFailed => EnrollFailedText
    case EnrollAnswered(message) =>
      if message.Some? && message.value != "" then message.value else EnrolledDefault
  }

  /**
   * The page's state that the handlers update, with the requests it has sent
   * and the alerts it has shown recorded in order.
   */
  class FacePage {
    var matchResult: Option<MatchResult>
    var previewImage: Option<string>
    var isLoading: bool
    var verifyRequests: seq<string>
    var webhookRequests: seq<Payload>
    var enrollRequests: seq<seq<EnrollImage>>
    var alerts: seq<string>

    constructor ()
      ensures matchResult == None && previewImage == None && !isLoading
      ensures verifyRequests == [] && webhookRequests == [] && enrollRequests == [] && alerts == []
    {
      matchResult, previewImage, isLoading := None, None, false;
      verifyRequests, webhookRequests, enrollRequests, alerts := [], [], [], [];
    }

    /**
     * `sendFormData`: posts the image; on a reply, calls the webhook when
     * enabled (its failure only warns) and then sets the match; when the
     * request or its JSON fails, alerts and leaves the match as it was.
     */
    method SendFormData(base64: string, reply: Option<VerifyResult>, enableApiCall: bool)
      modifies this`matchResult, this`verifyRequests, this`webhookRequests, this`alerts
      ensures verifyRequests == old(verifyRequests) + [base64]
      ensures reply.None? ==>
        && matchResult == old(matchResult) && webhookRequests == old(webhookRequests)
        && alerts == old(alerts) + [VerifyFailed]
      ensures reply.Some? ==> matchResult == Some(DeriveMatch(reply.value)) && alerts == old(alerts)
      ensures reply.Some? && enableApiCall ==> webhookRequests == old(webhookRequests) + [WebhookPayload(reply.value)]
      ensures reply.Some? && !enableApiCall ==> webhookRequests == old(webhookRequests)
    {
      verifyRequests := verifyRequests + [base64];
      if reply.None? {
        alerts := alerts + [VerifyFailed];
        return;
      }
      var result := reply.value;
      if enableApiCall {
        webhookRequests := webhookRequests + [WebhookPayload(result)];
      }
      matchResult := Some(DeriveMatch(result));
    }

    /**
     * `handleVerifyFace`. In the enroll tab with a non-empty folder only the
     * enrollment request is made. Otherwise the webcam's screenshot (an empty
     * one is refused) or the selected file's data is verified, or an alert
     * asks for a file. `screenshot`, `fileUrl`, `fileData` and the replies
     * stand for the webcam, `URL.createObjectURL`, `FileReader` and the
     * services.
     */
    method HandleVerifyFace(
      activeTab: string, folder: seq<PickedFile>, folderData: seq<string>, enrollReply: EnrollReply,
      useWebcam: bool, screenshot: string, selectedFile: bool, fileUrl: string, fileData: string,
      reply: Option<VerifyResult>, enableApiCall: bool)
      requires |folderData| == |folder|
      modifies this
      ensures !isLoading
      ensures activeTab == "enroll" && |folder| > 0 ==>
        && enrollRequests == old(enrollRequests) + [seq(|folder|, i requires 0 <= i < |folder| => EnrollImage(EnrollName(folder[i]), folderData[i]))]
        && alerts == old(alerts) + [EnrollAlert(enrollReply)]
        && verifyRequests == old(verifyRequests) && webhookRequests == old(webhookRequests)
        && matchResult == old(matchResult) && previewImage == old(previewImage)
      ensures !(activeTab == "enroll" && |folder| > 0) ==> enrollRequests == old(enrollRequests)
      ensures !(activeTab == "enroll" && |folder| > 0) && useWebcam && screenshot == "" ==>
        && alerts == old(alerts) + [WebcamFailed] && verifyRequests == old(verifyRequests)
        && matchResult == old(matchResult) && previewImage == old(previewImage)
      ensures !(activeTab == "enroll" && |folder| > 0) && useWebcam && screenshot != "" ==>
        previewImage == Some(screenshot) && verifyRequests == old(verifyRequests) + [screenshot]
      ensures !(activeTab == "enroll" && |folder| > 0) && !useWebcam && selectedFile ==>
        previewImage == Some(fileUrl) && verifyRequests == old(verifyRequests) + [fileData]
      ensures !(activeTab == "enroll" && |folder| > 0) && !useWebcam && !selectedFile ==>
        && alerts == old(alerts) + [SelectImage] && verifyRequests == old(verifyRequests)
        && matchResult == old(matchResult) && previewImage == old(previewImage)
      ensures !(activeTab == "enroll" && |folder| > 0) && !((useWebcam && screenshot != "") || (!useWebcam && selectedFile)) ==>
        webhookRequests == old(webhookRequests)
      ensures !(activeTab == "enroll" && |folder| > 0) && ((useWebcam && screenshot != "") || (!useWebcam && selectedFile)) ==>
        && (reply.None? ==>
              matchResult == old(matchResult) && webhookRequests == old(webhookRequests) && alerts == old(alerts) + [VerifyFailed])
        && (reply.Some? ==>
              && matchResult == Some(DeriveMatch(reply.value)) && alerts == old(alerts)
              && webhookRequests == old(webhookRequests) + (if enableApiCall then [WebhookPayload(reply.value)] else []))
    {
      isLoading := true;
      if activeTab == "enroll" && |folder| > 0 {
        var images := seq(|folder|, i requires 0 <= i < |folder| => EnrollImage(EnrollName(folder[i]), folderData[i]));
        enrollRequests := enrollRequests + [images];
        alerts := alerts + [EnrollAlert(enrollReply)];
        isLoading := false;
        return;
      }
      if useWebcam {
        if screenshot == "" {
          alerts := alerts + [WebcamFailed];
          isLoading := false;
          return;
        }
        previewImage := Some(screenshot);
        SendFormData(screenshot, reply, enableApiCall);
      } else if selectedFile {
        previewImage := Some(fileUrl);
        SendFormData(fileData, reply, enableApiCall);
      } else {
        alerts := alerts + [SelectImage];
      }
      isLoading := false;
    }
  }
}
