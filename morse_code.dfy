/**
 * The Morse page: the table-driven text encoder, the tone schedule that
 * `playMorseAudio` lays out on the audio clock, and the keyboard shortcuts
 * with their playback-speed clamp. Times are whole milliseconds: one dot lasts
 * `unit` ms and every tone is followed by a 50 ms gap.
 */
module MorseCode {
  import opened Strings

  predicate IsMapped(c: char) {
    'A' <= c <= 'Z' || '0' <= c <= '9' || c == ' '
  }

  predicate IsDotsAndDashes(s: string) {
    forall i :: 0 <= i < |s| ==> s[i] == '.' || s[i] == '-'
  }

  /** `morseCodeMap[c] || ""`: the code of an upper-case letter, digit or space; "" otherwise. */
  function CodeFor(c: char): (r: string)
    ensures c == ' ' ==> r == " / "
    ensures IsMapped(c) && c != ' ' ==> 1 <= |r| <= 5 && IsDotsAndDashes(r)
    ensures !IsMapped(c) <==> r == ""
  {
    match c
    case 'A' => ".-"    case 'B' => "-..."  case 'C' => "-.-."  case 'D' => "-.."
    case 'E' => "."     case 'F' => "..-."  case 'G' => "--."   case 'H' => "...."
    case 'I' => ".."    case 'J' => ".---"  case 'K' => "-.-"   case 'L' => ".-.."
    case 'M' => "--"    case 'N' => "-."    case 'O' => "---"   case 'P' => ".--."
    case 'Q' => "--.-"  case 'R' => ".-."   case 'S' => "..."   case 'T' => "-"
    case 'U' => "..-"   case 'V' => "...-"  case 'W' => ".--"   case 'X' => "-..-"
    case 'Y' => "-.--"  case 'Z' => "--.."
    case '0' => "-----" case '1' => ".----" case '2' => "..---" case '3' => "...--"
    case '4' => "....-" case '5' => "....." case '6' => "-...." case '7' => "--..."
    case '8' => "---.." case '9' => "----."
    case ' ' => " / "
    case _ => ""
  }

  /** The code of every character of an already upper-cased text, in order. */
  function Codes(s: string): (r: seq<string>)
    ensures |r| == |s| && forall i :: 0 <= i < |s| ==> r[i] == CodeFor(s[i])
  {
    seq(|s|, i requires 0 <= i < |s| => CodeFor(s[i]))
  }

  /** `textToMorse`: upper-case, one code per character, codes joined by single spaces. */
  function TextToMorse(text: string): string {
    Join(Codes(Upper(text)), " ")
  }

  predicate IsMorseText(s: string) {
    forall i :: 0 <= i < |s| ==> s[i] in ".- /"
  }

  lemma TextToMorseEmpty()
    ensures TextToMorse("") == ""
  {
  }

  /** A one-character text encodes to that character's upper-case code, with no separator. */
  lemma TextToMorseChar(c: char)
    ensures TextToMorse([c]) == CodeFor(UpperChar(c))
  {
  }

  /**
   * Encoding is compositional: the codes of two non-empty texts are joined by
   * exactly one space, so an n-character text yields n codes and n - 1 separators.
   */
  lemma TextToMorseConcat(a: string, b: string)
    requires a != "" && b != ""
    ensures TextToMorse(a + b) == TextToMorse(a) + " " + TextToMorse(b)
  {
    assert Upper(a + b) == Upper(a) + Upper(b);
    assert Codes(Upper(a) + Upper(b)) == Codes(Upper(a)) + Codes(Upper(b));
    JoinConcat(Codes(Upper(a)), Codes(Upper(b)), " ");
  }

  /** Encoding ignores ASCII case: lower- and upper-case spellings encode alike. */
  lemma TextToMorseCaseInsensitive(s: string)
    ensures TextToMorse(Lower(s)) == TextToMorse(s)
    ensures TextToMorse(Upper(s)) == TextToMorse(s)
  {
    assert Upper(Lower(s)) == Upper(s);
    assert Upper(Upper(s)) == Upper(s);
  }

  lemma {:induction false} JoinedCodesAreMorse(parts: seq<string>)
    requires forall k :: 0 <= k < |parts| ==> IsMorseText(parts[k])
    ensures IsMorseText(Join(parts, " "))
  {
    if |parts| > 1 {
      JoinedCodesAreMorse(parts[1..]);
    }
  }

  /** Every output character is a dot, a dash, a space or a slash. */
  lemma TextToMorseAlphabet(text: string)
    ensures IsMorseText(TextToMorse(text))
  {
    JoinedCodesAreMorse(Codes(Upper(text)));
  }

  function Spaces(n: nat): (r: string)
    ensures |r| == n && forall i :: 0 <= i < n ==> r[i] == ' '
  {
    seq(n, _ => ' ')
  }

  /** Characters outside the table contribute an empty code, but their separators remain. */
  lemma {:induction false} UnmappedKeepSeparators(s: string)
    requires s != ""
    requires forall i :: 0 <= i < |s| ==> !IsMapped(UpperChar(s[i]))
    ensures TextToMorse(s) == Spaces(|s| - 1)
  {
    if |s| > 1 {
      UnmappedKeepSeparators(s[1..]);
      TextToMorseConcat(s[..1], s[1..]);
      assert s[..1] + s[1..] == s;
      assert TextToMorse(s[..1]) == "";
    }
  }

  // ---- Tone schedule -------------------------------------------------------

  /** The silence that follows every tone, in ms. */
  const Gap: int := 50

  /** One 600 Hz sine oscillator, started and stopped at these times (ms). */
  datatype Tone = Tone(start: int, stop: int)

  /** How far one symbol moves the time cursor. */
  function Advance(symbol: char, unit: int): int {
    if symbol == '.' then unit + Gap
    else if symbol == '-' then 3 * unit + Gap
    else if symbol == ' ' then unit
    else if symbol == '/' then 7 * unit
    else 0
  }

  /** The tone a symbol starts at time `t`, if it is a dot or a dash. */
  function ToneAt(symbol: char, unit: int, t: int): seq<Tone> {
    if symbol == '.' then [Tone(t, t + unit)]
    else if symbol == '-' then [Tone(t, t + 3 * unit)]
    else []
  }

  /** The cursor after every symbol of `morse`, starting from `t0`. */
  function Cursor(morse: string, unit: int, t0: int): int {
    if morse == [] then t0
    else Cursor(morse[..|morse| - 1], unit, t0) + Advance(morse[|morse| - 1], unit)
  }

  /** The tones scheduled for `morse`, in symbol order. */
  function Tones(morse: string, unit: int, t0: int): seq<Tone> {
    if morse == [] then []
    else
      var prefix := morse[..|morse| - 1];
      Tones(prefix, unit, t0) + ToneAt(morse[|morse| - 1], unit, Cursor(prefix, unit, t0))
  }

  /** `playMorseAudio`: walks the symbols once, scheduling tones and advancing the cursor. */
  method PlayMorseAudio(morse: string, unit: int, t0: int) returns (tones: seq<Tone>, time: int)
    ensures time == Cursor(morse, unit, t0)
    ensures tones == Tones(morse, unit, t0)
  {
    time := t0;
    tones := [];
    for i := 0 to |morse|
      invariant time == Cursor(morse[..i], unit, t0)
      invariant tones == Tones(morse[..i], unit, t0)
    {
      var symbol := morse[i];
      assert morse[..i + 1][..i] == morse[..i];
      if symbol == '.' {
        tones := tones + [Tone(time, time + unit)];
        time := time + unit + Gap;
      } else if symbol == '-' {
        tones := tones + [Tone(time, time + 3 * unit)];
        time := time + 3 * unit + Gap;
      } else if symbol == ' ' {
        time := time + unit;
      } else if symbol == '/' {
        time := time + 7 * unit;
      }
    }
    assert morse[..|morse|] == morse;
  }

  /** Per-kind symbol counts of a string: dots, dashes, spaces, slashes. */
  function Kinds(s: string): (int, int, int, int) {
    (Count(s, '.'), Count(s, '-'), Count(s, ' '), Count(s, '/'))
  }

  function Weighted(k: (int, int, int, int), unit: int): int {
    (unit + Gap) * k.0 + (3 * unit + Gap) * k.1 + unit * k.2 + 7 * unit * k.3
  }

  lemma WeightedStep(k: (int, int, int, int), unit: int, symbol: char)
    ensures Weighted(k, unit) + Advance(symbol, unit)
         == Weighted(
              (k.0 + (if symbol == '.' then 1 else 0), k.1 + (if symbol == '-' then 1 else 0),
               k.2 + (if symbol == ' ' then 1 else 0), k.3 + (if symbol == '/' then 1 else 0)), unit)
  {
  }

  /** The total length of a schedule, counted symbol kind by symbol kind. */
  lemma {:induction false} CursorByCounts(morse: string, unit: int, t0: int)
    ensures Cursor(morse, unit, t0)
         == t0 + (unit + Gap) * Count(morse, '.') + (3 * unit + Gap) * Count(morse, '-')
               + unit * Count(morse, ' ') + 7 * unit * Count(morse, '/')
  {
    if morse != [] {
      var prefix, last := morse[..|morse| - 1], morse[|morse| - 1];
      CursorByCounts(prefix, unit, t0);
      assert prefix + [last] == morse;
      CountConcat(prefix, [last], '.');
      CountConcat(prefix, [last], '-');
      CountConcat(prefix, [last], ' ');
      CountConcat(prefix, [last], '/');
      WeightedStep(Kinds(prefix), unit, last);
      assert Cursor(morse, unit, t0) == t0 + Weighted(Kinds(prefix), unit) + Advance(last, unit);
      assert Kinds(morse) == (Kinds(prefix).0 + (if last == '.' then 1 else 0), Kinds(prefix).1 + (if last == '-' then 1 else 0),
               Kinds(prefix).2 + (if last == ' ' then 1 else 0), Kinds(prefix).3 + (if last == '/' then 1 else 0));
    }
  }

  /** With a non-negative unit the cursor never moves backwards. */
  lemma {:induction false} CursorMonotone(morse: string, unit: int, t0: int, i: nat, j: nat)
    requires unit >= 0 && i <= j <= |morse|
    ensures t0 <= Cursor(morse[..i], unit, t0) <= Cursor(morse[..j], unit, t0)
    decreases j
  {
    if j > 0 {
      assert morse[..j][..j - 1] == morse[..j - 1];
      if i < j {
        CursorMonotone(morse, unit, t0, i, j - 1);
      } else {
        CursorMonotone(morse, unit, t0, j - 1, j - 1);
      }
    }
  }

  /** Every tone lies in [t0, cursor), with a full gap before the cursor. */
  predicate InWindow(ts: seq<Tone>, t0: int, cursor: int) {
    forall k :: 0 <= k < |ts| ==> t0 <= ts[k].start <= ts[k].stop && ts[k].stop + Gap <= cursor
  }

  /** Consecutive tones are at least one gap apart. */
  predicate Separated(ts: seq<Tone>) {
    forall k :: 0 <= k < |ts| - 1 ==> ts[k].stop + Gap <= ts[k + 1].start
  }

  /**
   * With a non-negative unit the tones come in order and never overlap: each
   * stops at least one gap before the next starts, and before the cursor.
   */
  lemma {:induction false} TonesOrdered(morse: string, unit: int, t0: int)
    requires unit >= 0
    ensures InWindow(Tones(morse, unit, t0), t0, Cursor(morse, unit, t0))
    ensures Separated(Tones(morse, unit, t0))
  {
    if morse != [] {
      var prefix := morse[..|morse| - 1];
      var last := morse[|morse| - 1];
      TonesOrdered(prefix, unit, t0);
      CursorMonotone(prefix, unit, t0, 0, |prefix|);
      assert prefix[..0] == [] && prefix[..|prefix|] == prefix;
      var c := Cursor(prefix, unit, t0);
      var old_ts := Tones(prefix, unit, t0);
      var added := ToneAt(last, unit, c);
      assert Tones(morse, unit, t0) == old_ts + added;
      assert Cursor(morse, unit, t0) == c + Advance(last, unit);
      var ts := old_ts + added;
      var cur := c + Advance(last, unit);
      assert t0 <= c && Advance(last, unit) >= 0;
      assert forall k :: 0 <= k < |old_ts| ==> t0 <= old_ts[k].start <= old_ts[k].stop && old_ts[k].stop + Gap <= c;
      assert forall k :: 0 <= k < |added| ==> added[k].start == c <= added[k].stop && added[k].stop + Gap <= cur;
      forall k | 0 <= k < |ts|
        ensures t0 <= ts[k].start <= ts[k].stop && ts[k].stop + Gap <= cur
      {
        if k < |old_ts| {
          assert ts[k] == old_ts[k];
        } else {
          assert ts[k] == added[k - |old_ts|];
        }
      }
      forall k | 0 <= k < |ts| - 1
        ensures ts[k].stop + Gap <= ts[k + 1].start
      {
        if k + 1 < |old_ts| {
          assert ts[k] == old_ts[k] && ts[k + 1] == old_ts[k + 1];
        } else {
          assert ts[k + 1] == added[0] && ts[k] == old_ts[k];
        }
      }
    }
  }

  // ---- Keyboard shortcuts and the speed clamp -----------------------------

  const MinSpeed: int := 50
  const MaxSpeed: int := 300
  const SpeedStep: int := 10

  datatype Command =
    | Encode | PlayMorse | ReadAloud | StartVoiceInput | DownloadAudio | DownloadMorseText
    | SpeedDown | SpeedUp | Ignore

  /** The keydown handler's dispatch: nothing while the text field has focus. */
  function KeyCommand(key: string, inputFocused: bool, isListening: bool): (cmd: Command)
    ensures inputFocused ==> cmd == Ignore
    ensures !inputFocused && key == "7" ==> cmd == SpeedDown
    ensures !inputFocused && key == "8" ==> cmd == SpeedUp
    ensures cmd == StartVoiceInput ==> key == "4" && !isListening
    ensures key !in {"1", "2", "3", "4", "5", "6", "7", "8"} ==> cmd == Ignore
  {
    if inputFocused then Ignore
    else if key == "1" then Encode
    else if key == "2" then PlayMorse
    else if key == "3" then ReadAloud
    else if key == "4" then (if !isListening then StartVoiceInput else Ignore)
    else if key == "5" then DownloadAudio
    else if key == "6" then DownloadMorseText
    else if key == "7" then SpeedDown
    else if key == "8" then SpeedUp
    else Ignore
  }

  /** The playback speed after a command: keys 7 and 8 step by 10 ms, clamped to [50, 300]. */
  function SpeedAfter(cmd: Command, speed: int): (r: int)
    ensures cmd == SpeedDown ==> r == if speed - SpeedStep < MinSpeed then MinSpeed else speed - SpeedStep
    ensures cmd == SpeedUp ==> r == if speed + SpeedStep > MaxSpeed then MaxSpeed else speed + SpeedStep
    ensures cmd != SpeedDown && cmd != SpeedUp ==> r == speed
  {
    match cmd
    case SpeedDown => if speed - SpeedStep > MinSpeed then speed - SpeedStep else MinSpeed
    case SpeedUp => if speed + SpeedStep < MaxSpeed then speed + SpeedStep else MaxSpeed
    case _ => speed
  }

  /** A faster press undoes a slower one away from the bounds, and the reverse. */
  lemma SpeedStepsUndo(speed: int)
    requires MinSpeed + SpeedStep <= speed <= MaxSpeed - SpeedStep
    ensures SpeedAfter(SpeedUp, SpeedAfter(SpeedDown, speed)) == speed
    ensures SpeedAfter(SpeedDown, SpeedAfter(SpeedUp, speed)) == speed
  {
  }

  /** A key never moves the speed by more than one step, nor past a bound it is moving toward. */
  lemma SpeedStepBounded(cmd: Command, speed: int)
    requires MinSpeed <= speed <= MaxSpeed
    ensures speed - SpeedStep <= SpeedAfter(cmd, speed) <= speed + SpeedStep
    ensures cmd == SpeedDown ==> SpeedAfter(cmd, speed) <= speed
    ensures cmd == SpeedUp ==> SpeedAfter(cmd, speed) >= speed
  {
  }

  /** Pressing a speed key preserves the order of two speeds, and repeated presses stop at the bound. */
  lemma SpeedMonotone(cmd: Command, s1: int, s2: int)
    requires s1 <= s2
    ensures SpeedAfter(cmd, s1) <= SpeedAfter(cmd, s2)
    ensures SpeedAfter(SpeedDown, MinSpeed) == MinSpeed && SpeedAfter(SpeedUp, MaxSpeed) == MaxSpeed
  {
  }

  /** A speed the slider can produce stays in [50, 300] under every key. */
  lemma SpeedStaysInRange(key: string, inputFocused: bool, isListening: bool, speed: int)
    requires MinSpeed <= speed <= MaxSpeed
    ensures MinSpeed <= SpeedAfter(KeyCommand(key, inputFocused, isListening), speed) <= MaxSpeed
  {
  }

  // ---- Guards on empty input ----------------------------------------------

  const EmptyReadAloudError := "Text input is empty. Please enter text before reading aloud."
  const EmptyPlayError := "Text input is empty. Please enter text before playing Morse."

  datatype ReadAloudStep = RefuseEmpty(error: string) | PausePlayback | RequestSpeech(input: string, voice: string)

  /** `handleReadAloud`: refuse blank input, pause a playing reading, or request speech. */
  function ReadAloudStepFor(inputText: string, isReadingAloud: bool, hasAudio: bool, voice: string): (r: ReadAloudStep)
    ensures r.RefuseEmpty? <==> IsBlank(inputText)
    ensures r.RefuseEmpty? ==> r.error == EmptyReadAloudError
    ensures r.PausePlayback? <==> !IsBlank(inputText) && isReadingAloud && hasAudio
    ensures r.RequestSpeech? ==> r.input == inputText && r.voice == voice
  {
    if IsBlank(inputText) then RefuseEmpty(EmptyReadAloudError)
    else if isReadingAloud && hasAudio then PausePlayback
    else RequestSpeech(inputText, voice)
  }

  datatype PlayStep = RefusePlay(error: string) | Play(schedule: seq<Tone>)

  /** The "Play Morse" button: blank input is refused; otherwise the current output is scheduled. */
  function PlayButton(inputText: string, morseOutput: string, speed: int, t0: int): (r: PlayStep)
    ensures r.RefusePlay? <==> IsBlank(inputText)
    ensures r.RefusePlay? ==> r.error == EmptyPlayError
    ensures r.Play? ==> r.schedule == Tones(morseOutput, speed, t0)
  {
    if IsBlank(inputText) then RefusePlay(EmptyPlayError) else Play(Tones(morseOutput, speed, t0))
  }
}
