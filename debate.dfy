/**
 * The debate page: a system prompt assembled from the user's settings, a
 * chat log that grows by one user entry and one assistant entry per sent
 * message, a plain-text export of the log, and a reset. The chat service and
 * text-to-speech are outside the model; the reply is an input.
 */
module Debate {
  import opened Strings
  import opened Wrappers
  import opened Sequences

  // ---- The system prompt ---------------------------------------------------

  const Opening := "You are a skilled debater. Always take the opposite side of the user's opinion. Argue to win with structured, persuasive reasoning."
  const ShortClause := " Keep your replies short and impactful."
  const SimpleClause := " Use beginner-friendly, simple language."
  const FormalClause := " Maintain a formal tone."
  const CasualClause := " Use a casual, conversational tone."
  const AggressiveClause := " Be assertive and unyielding in your arguments."
  const PoliteClause := " Debate respectfully and calmly."
  const ExamplesClause := " Use specific examples, analogies, or counterexamples when possible."
  const InsultsClause := " You are allowed to be sarcastic, condescending, or insulting if it strengthens your argument, but do not use slurs or hate speech."
  const Closing := " Occasionally ask a follow-up question to challenge the user further. Never agree with the user's point."

  /** The optional clauses, named in the order the builder considers them. */
  datatype Clause = Short | Simple | Formal | Casual | Aggressive | Polite | Examples | Insults

  const AllClauses: seq<Clause> := [Short, Simple, Formal, Casual, Aggressive, Polite, Examples, Insults]

  /** The sentence each clause appends. */
  function ClauseText(c: Clause): string {
    match c
    case Short => ShortClause
    case Simple => SimpleClause
    case Formal => FormalClause
    case Casual => CasualClause
    case Aggressive => AggressiveClause
    case Polite => PoliteClause
    case Examples => ExamplesClause
    case Insults => InsultsClause
  }

  /** The settings `buildDebatePrompt` reads. */
  datatype Settings = Settings(
    shortReplies: bool, simpleReplies: bool, tone: string, style: string,
    useExamples: bool, allowInsults: bool)

  function If(b: bool, c: Clause): seq<Clause> {
    if b then [c] else []
  }

  /** The tone clause: formal, else casual, else none. */
  function ToneClauses(tone: string): (r: seq<Clause>)
    ensures |r| <= 1
  {
    if tone == "formal" then [Formal] else if tone == "casual" then [Casual] else []
  }

  /** The style clause: aggressive, else polite, else none. */
  function StyleClauses(style: string): (r: seq<Clause>)
    ensures |r| <= 1
  {
    if style == "aggressive" then [Aggressive] else if style == "polite" then [Polite] else []
  }

  /** The clauses the settings switch on, in the builder's order. */
  function EnabledClauses(s: Settings): seq<Clause> {
    If(s.shortReplies, Short) + If(s.simpleReplies, Simple)
    + ToneClauses(s.tone) + StyleClauses(s.style)
    + If(s.useExamples, Examples) + If(s.allowInsults, Insults)
  }

  /** The clauses' sentences, one after another. */
  function Texts(cs: seq<Clause>): string {
    if cs == [] then "" else Texts(cs[..|cs| - 1]) + ClauseText(cs[|cs| - 1])
  }

  /** The prompt the builder returns: the opening, the enabled clauses, the closing. */
  function DebatePrompt(s: Settings): string {
    Opening + Texts(EnabledClauses(s)) + Closing
  }

  lemma Framed(opening: string, middle: string, closing: string)
    ensures opening <= opening + middle + closing
    ensures (opening + middle + closing)[|opening + middle|..] == closing
  {
    assert (opening + middle + closing)[..|opening|] == opening;
  }

  /** Whatever the settings, the prompt starts with the opening sentence and ends with the closing one. */
  lemma PromptFrame(s: Settings)
    ensures Opening <= DebatePrompt(s)
    ensures |Closing| <= |DebatePrompt(s)| && DebatePrompt(s)[|DebatePrompt(s)| - |Closing|..] == Closing
  {
    Framed(Opening, Texts(EnabledClauses(s)), Closing);
  }

  lemma TextsSnoc(cs: seq<Clause>, c: Clause)
    ensures Texts(cs + [c]) == Texts(cs) + ClauseText(c)
  {
    assert (cs + [c])[..|cs|] == cs;
  }

  /** One `+=` of the builder: the prompt so far grows by the clause's sentence. */
  lemma AppendClause(prompt: string, opening: string, added: seq<Clause>, c: Clause)
    requires prompt == opening + Texts(added)
    ensures prompt + ClauseText(c) == opening + Texts(added + [c])
  {
    TextsSnoc(added, c);
  }

  /** `if (flag) prompt += clause`: one optional clause of the builder. */
  method AppendIf(prompt: string, ghost opening: string, ghost added: seq<Clause>, flag: bool, c: Clause) returns (r: string)
    requires prompt == opening + Texts(added)
    ensures r == opening + Texts(added + If(flag, c))
  {
    r := prompt;
    if flag {
      AppendClause(prompt, opening, added, c);
      r := r + ClauseText(c);
    } else {
      assert added + If(flag, c) == added;
    }
  }

  /** `if (v === a) prompt += first; else if (v === b) prompt += second`. */
  method AppendEither(prompt: string, ghost opening: string, ghost added: seq<Clause>, picked: seq<Clause>, first: Clause, second: Clause)
    returns (r: string)
    requires prompt == opening + Texts(added)
    requires picked == [] || picked == [first] || picked == [second]
    ensures r == opening + Texts(added + picked)
  {
    r := prompt;
    if picked == [first] {
      AppendClause(prompt, opening, added, first);
      r := r + ClauseText(first);
    } else if picked == [second] {
      AppendClause(prompt, opening, added, second);
      r := r + ClauseText(second);
    } else {
      assert added + picked == added;
    }
  }

  /**
   * `buildDebatePrompt`: starts from the opening sentence and appends each
   * enabled clause with `+=`, then the closing sentence.
   */
  method BuildDebatePrompt(s: Settings) returns (prompt: string)
    ensures prompt == DebatePrompt(s)
  {
    prompt := Opening;
    ghost var opening := Opening;
    assert prompt == opening + Texts([]);
    prompt := AppendIf(prompt, opening, [], s.shortReplies, Short);
    ghost var added := If(s.shortReplies, Short);
    prompt := AppendIf(prompt, opening, added, s.simpleReplies, Simple);
    added := added + If(s.simpleReplies, Simple);
    prompt := AppendEither(prompt, opening, added, ToneClauses(s.tone), Formal, Casual);
    added := added + ToneClauses(s.tone);
    prompt := AppendEither(prompt, opening, added, StyleClauses(s.style), Aggressive, Polite);
    added := added + StyleClauses(s.style);
    prompt := AppendIf(prompt, opening, added, s.useExamples, Examples);
    added := added + If(s.useExamples, Examples);
    prompt := AppendIf(prompt, opening, added, s.allowInsults, Insults);
    added := added + If(s.allowInsults, Insults);
    assert added == EnabledClauses(s);
    prompt := prompt + Closing;
  }

  /** Whether `x` is among the settings' clauses, read off the six parts. */
  lemma InEnabled(s: Settings, x: Clause)
    ensures x in EnabledClauses(s) <==>
      || x in If(s.shortReplies, Short) || x in If(s.simpleReplies, Simple)
      || x in ToneClauses(s.tone) || x in StyleClauses(s.style)
      || x in If(s.useExamples, Examples) || x in If(s.allowInsults, Insults)
  {
  }

  /** Each flag contributes its clause exactly when set. */
  lemma FlagClausesExactly(s: Settings)
    ensures Short in EnabledClauses(s) <==> s.shortReplies
    ensures Simple in EnabledClauses(s) <==> s.simpleReplies
    ensures Examples in EnabledClauses(s) <==> s.useExamples
    ensures Insults in EnabledClauses(s) <==> s.allowInsults
  {
    InEnabled(s, Short);
    InEnabled(s, Simple);
    InEnabled(s, Examples);
    InEnabled(s, Insults);
  }

  /** The tone and style clauses follow their settings; an unrecognised tone or style contributes none. */
  lemma ToneStyleClausesExactly(s: Settings)
    ensures Formal in EnabledClauses(s) <==> s.tone == "formal"
    ensures Casual in EnabledClauses(s) <==> s.tone == "casual"
    ensures Aggressive in EnabledClauses(s) <==> s.style == "aggressive"
    ensures Polite in EnabledClauses(s) <==> s.style == "polite"
  {
    InEnabled(s, Formal);
    InEnabled(s, Casual);
    InEnabled(s, Aggressive);
    InEnabled(s, Polite);
  }

  /** At most one tone clause and at most one style clause. */
  lemma ToneAndStyleExclusive(s: Settings)
    ensures !(Formal in EnabledClauses(s) && Casual in EnabledClauses(s))
    ensures !(Aggressive in EnabledClauses(s) && Polite in EnabledClauses(s))
  {
    ToneStyleClausesExactly(s);
  }

  /** Keep `x` in front of a selection exactly when `b`. */
  lemma SubsequenceIf(b: bool, x: Clause, t: seq<Clause>, a: seq<Clause>)
    requires IsSubsequence(t, a)
    ensures IsSubsequence(If(b, x) + t, [x] + a)
  {
    if b {
      SubsequenceKeep(x, t, a);
    } else {
      assert If(b, x) + t == t;
      SubsequenceSkip(x, t, a);
    }
  }

  /** At most one of two alternatives in front of a selection. */
  lemma SubsequenceEither(first: Clause, second: Clause, pick: seq<Clause>, t: seq<Clause>, a: seq<Clause>)
    requires pick == [] || pick == [first] || pick == [second]
    requires IsSubsequence(t, a)
    ensures IsSubsequence(pick + t, [first, second] + a)
  {
    assert [first, second] + a == [first] + ([second] + a);
    if pick == [first] {
      SubsequenceSkip(second, t, a);
      SubsequenceKeep(first, t, [second] + a);
    } else if pick == [second] {
      SubsequenceKeep(second, t, a);
      SubsequenceSkip(first, [second] + t, [second] + a);
    } else {
      assert pick + t == t;
      SubsequenceSkip(second, t, a);
      SubsequenceSkip(first, t, [second] + a);
    }
  }

  /** A selection of at most one of `c`. */
  predicate AtMost(pick: seq<Clause>, c: Clause) {
    pick == [] || pick == [c]
  }

  /** A selection of at most one of two alternatives. */
  predicate OneOf(pick: seq<Clause>, first: Clause, second: Clause) {
    pick == [] || pick == [first] || pick == [second]
  }

  /** The part after the tone: style, examples, insults, against the fixed order's tail. */
  lemma LaterInOrder(style: seq<Clause>, examples: seq<Clause>, insults: seq<Clause>)
    requires OneOf(style, Aggressive, Polite) && AtMost(examples, Examples) && AtMost(insults, Insults)
    ensures IsSubsequence(style + (examples + insults), [Aggressive, Polite, Examples, Insults])
  {
    var none: seq<Clause> := [];
    SubsequenceIf(insults != [], Insults, none, none);
    assert If(insults != [], Insults) == insults;
    assert insults + none == insults && [Insults] + none == [Insults];
    SubsequenceIf(examples != [], Examples, insults, [Insults]);
    assert If(examples != [], Examples) == examples;
    assert [Examples] + [Insults] == [Examples, Insults];
    SubsequenceEither(Aggressive, Polite, style, examples + insults, [Examples, Insults]);
    assert [Aggressive, Polite] + [Examples, Insults] == [Aggressive, Polite, Examples, Insults];
  }

  /** Six selections of the builder's shape, concatenated, follow the fixed order. */
  lemma PartsInOrder(short: seq<Clause>, simple: seq<Clause>, tone: seq<Clause>, style: seq<Clause>,
                     examples: seq<Clause>, insults: seq<Clause>)
    requires AtMost(short, Short) && AtMost(simple, Simple) && OneOf(tone, Formal, Casual)
    requires OneOf(style, Aggressive, Polite) && AtMost(examples, Examples) && AtMost(insults, Insults)
    ensures IsSubsequence(short + simple + tone + style + examples + insults, AllClauses)
  {
    var t4 := style + (examples + insults);
    var a4 := [Aggressive, Polite, Examples, Insults];
    LaterInOrder(style, examples, insults);
    SubsequenceEither(Formal, Casual, tone, t4, a4);
    var t2 := tone + t4;
    var a2 := [Formal, Casual] + a4;
    SubsequenceIf(simple != [], Simple, t2, a2);
    assert If(simple != [], Simple) == simple;
    var t1 := simple + t2;
    SubsequenceIf(short != [], Short, t1, [Simple] + a2);
    assert If(short != [], Short) == short;
    assert [Short] + ([Simple] + a2) == AllClauses;
    AppendAssoc(short + simple + tone + style, examples, insults);
    AppendAssoc(short + simple + tone, style, examples + insults);
    AppendAssoc(short + simple, tone, style + (examples + insults));
    AppendAssoc(short, simple, tone + (style + (examples + insults)));
  }

  /** The enabled clauses come in the fixed order, each at most once. */
  lemma EnabledClausesInOrder(s: Settings)
    ensures IsSubsequence(EnabledClauses(s), AllClauses)
  {
    PartsInOrder(If(s.shortReplies, Short), If(s.simpleReplies, Simple), ToneClauses(s.tone),
                 StyleClauses(s.style), If(s.useExamples, Examples), If(s.allowInsults, Insults));
  }

  // ---- The chat log --------------------------------------------------------

  const ErrorReply := "Error generating a response."

  /**
   * One chat entry. The content of an assistant entry is `undefined` when the
   * reply had no message, which `None` stands for.
   */
  datatype Entry = Entry(role: string, content: Option<string>)

  /** How `${entry.content}` renders a content: `undefined` when there is none. */
  function ContentText(content: Option<string>): string {
    match content
    case Some(text) => text
    case None => "undefined"
  }

  /** One exported line: "You: …" for the user's entries, "Nexus: …" for every other role. */
  function ExportLine(e: Entry): (r: string)
    ensures e.role == "user" ==> r == "You: " + ContentText(e.content)
    ensures e.role != "user" ==> r == "Nexus: " + ContentText(e.content)
  {
    (if e.role == "user" then "You" else "Nexus") + ": " + ContentText(e.content)
  }

  /**
   * Reading an exported line back: it starts with "You: " exactly for the
   * user's entries, and it ends with the entry's content.
   */
  lemma ExportLineShape(e: Entry)
    ensures var r, c := ExportLine(e), ContentText(e.content);
      && ("You: " <= r <==> e.role == "user")
      && |c| <= |r| && r[|r| - |c|..] == c
  {
    var r, c := ExportLine(e), ContentText(e.content);
    var tag := if e.role == "user" then "You: " else "Nexus: ";
    assert r == tag + c;
    assert r[|r| - |c|..] == c;
    if e.role != "user" {
      assert r[0] == 'N';
    }
  }

  function ExportLines(log: seq<Entry>): (r: seq<string>)
    ensures |r| == |log| && forall i :: 0 <= i < |log| ==> r[i] == ExportLine(log[i])
  {
    seq(|log|, i requires 0 <= i < |log| => ExportLine(log[i]))
  }

  /** `exportChat`'s text: the lines in log order, separated by blank lines. */
  function ExportText(log: seq<Entry>): string {
    Join(ExportLines(log), "\n\n")
  }

  /** Appending entries to the log appends their lines to the export, after one blank line. */
  lemma ExportAppend(log: seq<Entry>, more: seq<Entry>)
    requires log != [] && more != []
    ensures ExportText(log + more) == ExportText(log) + "\n\n" + ExportText(more)
  {
    assert ExportLines(log + more) == ExportLines(log) + ExportLines(more);
    JoinConcat(ExportLines(log), ExportLines(more), "\n\n");
  }

  /** What the chat request came back with. */
  datatype ChatReply =
    | Failed
    | Answered(content: Option<string>)

  /** The assistant entry's content: the trimmed reply, `undefined` without one, the error text on failure. */
  function AssistantContent(reply: ChatReply): Option<string> {
    match reply
    case Failed => Some(ErrorReply)
    case Answered(content) =>
      match content
      case None => None
      case Some(text) => Some(Trim(text))
  }

  /** `if (useTTS && botReply)`: a reply that came back with non-empty text once trimmed. */
  predicate Speakable(reply: ChatReply) {
    reply.Answered? && AssistantContent(reply).Some? && AssistantContent(reply).value != ""
  }

  /** The page's state; `hasAudio` stands for `audioRef.current` being set. */
  class DebateChat {
    var chatLog: seq<Entry>
    var userInput: string
    var loading: bool
    var hasAudio: bool
    var chatRequests: seq<(string, seq<Entry>)>
    var spoken: seq<string>

    constructor ()
      ensures chatLog == [] && userInput == "" && !loading && !hasAudio && chatRequests == [] && spoken == []
    {
      chatLog, userInput, loading, hasAudio := [], "", false, false;
      chatRequests, spoken := [], [];
    }

    /**
     * `handleSend`: speech playing is stopped first; a blank input stops
     * there. Otherwise the user's entry and then the assistant's are
     * appended, the input is cleared and the request carries the system
     * prompt and the log so far; a non-empty reply is spoken when
     * `useTts` is on.
     */
    method HandleSend(settings: Settings, reply: ChatReply, useTts: bool)
      modifies this
      ensures !hasAudio
      ensures IsBlank(old(userInput)) ==>
        loading == old(loading) && chatLog == old(chatLog) && userInput == old(userInput) && chatRequests == old(chatRequests) && spoken == old(spoken)
      ensures !IsBlank(old(userInput)) ==>
        && !loading
        && chatLog == old(chatLog) + [Entry("user", Some(old(userInput))), Entry("assistant", AssistantContent(reply))]
        && userInput == ""
        && chatRequests == old(chatRequests) + [(DebatePrompt(settings), old(chatLog) + [Entry("user", Some(old(userInput)))])]
      ensures !IsBlank(old(userInput)) && useTts && Speakable(reply) ==>
        spoken == old(spoken) + [AssistantContent(reply).value]
      ensures !(useTts && Speakable(reply)) ==>
        spoken == old(spoken)
    {
      hasAudio := false;
      if IsBlank(userInput) {
        return;
      }
      var prompt := BuildDebatePrompt(settings);
      var content := AssistantContent(reply);
      Exchange(prompt, content, useTts && Speakable(reply));
    }

    /**
     * The part of `handleSend` after the blank-input guard, given the built
     * prompt, the assistant entry's content and whether it is spoken.
     */
    method Exchange(prompt: string, content: Option<string>, speak: bool)
      requires speak ==> content.Some?
      modifies this`chatLog, this`userInput, this`loading, this`chatRequests, this`spoken
      ensures !loading
      ensures chatLog == old(chatLog) + [Entry("user", Some(old(userInput))), Entry("assistant", content)]
      ensures userInput == ""
      ensures chatRequests == old(chatRequests) + [(prompt, old(chatLog) + [Entry("user", Some(old(userInput)))])]
      ensures spoken == if speak then old(spoken) + [content.value] else old(spoken)
    {
      var updated := chatLog + [Entry("user", Some(userInput))];
      chatLog := updated;
      userInput := "";
      loading := true;
      chatRequests := chatRequests + [(prompt, updated)];
      chatLog := updated + [Entry("assistant", content)];
      if speak {
        spoken := spoken + [content.value];
      }
      loading := false;
    }

    /** `clearChat`: speech stops and both the log and the input are emptied. */
    method ClearChat()
      modifies this`chatLog, this`userInput, this`hasAudio
      ensures chatLog == [] && userInput == "" && !hasAudio
    {
      hasAudio := false;
      chatLog := [];
      userInput := "";
    }
  }

  /** After a send on a non-empty log, the export gains exactly the two new lines. */
  lemma SendExtendsExport(log: seq<Entry>, input: string, reply: ChatReply)
    requires log != []
    ensures var user, assistant := Entry("user", Some(input)), Entry("assistant", AssistantContent(reply));
      ExportText(log + [user, assistant]) == ExportText(log) + "\n\n" + (ExportLine(user) + "\n\n" + ExportLine(assistant))
  {
    var user, assistant := Entry("user", Some(input)), Entry("assistant", AssistantContent(reply));
    var added := [user, assistant];
    ExportAppend(log, added);
    var lines := ExportLines(added);
    assert lines == [ExportLine(user), ExportLine(assistant)];
    assert lines[1..] == [ExportLine(assistant)];
    assert Join(lines[1..], "\n\n") == ExportLine(assistant);
    assert Join(lines, "\n\n") == lines[0] + "\n\n" + Join(lines[1..], "\n\n");
    assert ExportText(added) == ExportLine(user) + "\n\n" + ExportLine(assistant);
  }

}
