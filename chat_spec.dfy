/**
 * The chat client's session (script.js) as values: the message list, the
 * loading flag and the credential, and what each user action or provider
 * completion does to them. The class in module ChatClient is proved to make
 * exactly these transitions.
 */
module ChatSpec {
  import opened Wrappers
  import Text
  import Decimal
  import Gemini

  const WelcomeId := "welcome"
  const WelcomeText := "Hello! I'm your AI assistant. I'm here to help you with any questions or tasks you might have. Feel free to ask me anything!"
  const ApologyText := "I apologize, but I'm experiencing some technical difficulties. Please check your API key or try again later."

  /** A chat message; `timestamp` is the clock's display string, taken as given. */
  datatype Message = Message(id: string, text: string, isUser: bool, timestamp: string)

  /** The three globals of script.js:2-4. */
  datatype Session = Session(messages: seq<Message>, isLoading: bool, apiKey: string)

  /** What a send attempt does: nothing, open the key prompt, or issue this request. */
  datatype SendResult = Ignored | NeedKey | Sent(request: Gemini.Request)

  /**
   * How the provider call ended: it failed (network error, a status that is
   * not ok, or a body the client cannot read), it succeeded with no
   * candidates, or it succeeded with this first candidate's text.
   */
  datatype Outcome = Failed | NoCandidates | Answer(text: string)

  /** The greeting of script.js:50-58. */
  function Welcome(time: string): Message {
    Message(WelcomeId, WelcomeText, false, time)
  }

  predicate IsWelcome(m: Message) {
    m.id == WelcomeId && m.text == WelcomeText && !m.isUser
  }

  /** The send button's rule (script.js:43-44): text after trimming, no call in flight, a key. */
  predicate SendEnabled(s: Session, input: string) {
    Text.Trim(input) != [] && !s.isLoading && s.apiKey != ""
  }

  /** The page loads: a key found in storage is used, otherwise the key prompt opens; then the greeting. */
  function Init(stored: Option<string>, time: string): (r: (Session, bool))
    ensures r.0.messages == [Welcome(time)] && !r.0.isLoading
    ensures r.0.apiKey == (if stored.Some? then stored.value else "")
    ensures r.1 <==> r.0.apiKey == ""
  {
    var key := if stored.Some? && stored.value != "" then stored.value else "";
    (Session([Welcome(time)], false, key), key == "")
  }

  /**
   * `sendMessage` at clock `now`: an accepted message is appended as the
   * user's, with the trimmed text and the clock as its id, and the call starts.
   */
  function Send(s: Session, input: string, now: nat, time: string): (r: (Session, SendResult))
    ensures r.1.Sent? <==> SendEnabled(s, input)
    ensures r.1.NeedKey? <==> s.apiKey == ""
    ensures !r.1.Sent? ==> r.0 == s
    ensures r.1.Sent? ==> r.0.messages == s.messages + [Message(Decimal.NatToString(now), Text.Trim(input), true, time)]
                          && r.0.isLoading && r.0.apiKey == s.apiKey
    ensures r.1.Sent? ==> Gemini.MessageOf(r.1.request) == Some(Text.Trim(input)) && Gemini.KeyOf(r.1.request) == Some(s.apiKey)
  {
    var text := Text.Trim(input);
    if text == [] || s.isLoading || s.apiKey == "" then
      (s, if s.apiKey == "" then NeedKey else Ignored)
    else
      Gemini.RequestRoundTrip(text, s.apiKey);
      var user := Message(Decimal.NatToString(now), text, true, time);
      (s.(messages := s.messages + [user], isLoading := true), Sent(Gemini.BuildRequest(text, s.apiKey)))
  }

  /** The text of the assistant's reply: the candidate's text, or the apology for every failure. */
  function ReplyText(outcome: Outcome): (t: string)
    ensures outcome.Answer? ==> t == outcome.text
    ensures !outcome.Answer? ==> t == ApologyText
  {
    match outcome
    case Answer(text) => text
    case _ => ApologyText
  }

  /** The end of `sendToGemini` at clock `now`: one assistant message, and the call is over. */
  function Complete(s: Session, outcome: Outcome, now: nat, time: string): (r: Session)
    ensures |r.messages| == |s.messages| + 1 && r.messages[..|s.messages|] == s.messages
    ensures var m := r.messages[|s.messages|];
            !m.isUser && m.text == ReplyText(outcome) && m.id == Decimal.NatToString(now + 1) && m.timestamp == time
    ensures !r.isLoading && r.apiKey == s.apiKey
  {
    var reply := Message(Decimal.NatToString(now + 1), ReplyText(outcome), false, time);
    assert (s.messages + [reply])[..|s.messages|] == s.messages;
    Session(s.messages + [reply], false, s.apiKey)
  }

  /** `clearChat`: only a fresh greeting is left; the flag and the key stay. */
  function Clear(s: Session, time: string): (r: Session)
    ensures |r.messages| == 1 && IsWelcome(r.messages[0]) && r.messages[0].timestamp == time
    ensures r.isLoading == s.isLoading && r.apiKey == s.apiKey
  {
    s.(messages := [Welcome(time)])
  }

  /** `saveApiKey`: the trimmed key replaces the old one unless it is empty. */
  function SaveKey(s: Session, input: string): (r: (Session, bool))
    ensures r.1 <==> !Text.AllWhitespace(input)
    ensures r.1 ==> r.0 == s.(apiKey := Text.Trim(input))
    ensures !r.1 ==> r.0 == s
  {
    var key := Text.Trim(input);
    if key != [] then (s.(apiKey := key), true) else (s, false)
  }

  /** A saved key is already trimmed, and a key once present is never lost by saving. */
  lemma SavedKeyIsTrimmed(s: Session, input: string)
    ensures var r := SaveKey(s, input);
            (r.1 ==> r.0.apiKey != "" && Text.Trim(r.0.apiKey) == r.0.apiKey)
            && (s.apiKey != "" ==> r.0.apiKey != "")
  {
    Text.TrimIdempotent(input);
  }

  /** While a call is in flight, sending changes nothing: no second user message. */
  lemma NoSendWhileLoading(s: Session, input: string, now: nat, time: string)
    requires s.isLoading
    ensures Send(s, input, now, time) == (s, if s.apiKey == "" then NeedKey else Ignored)
  {
  }

  /**
   * An accepted send followed by its completion adds exactly two messages, the
   * user's and then the assistant's, behind the old list, and ends idle.
   */
  lemma RoundTrip(s: Session, input: string, now: nat, time: string, outcome: Outcome, later: nat, time2: string)
    requires SendEnabled(s, input)
    ensures var s2 := Complete(Send(s, input, now, time).0, outcome, later, time2);
            |s2.messages| == |s.messages| + 2 && s2.messages[..|s.messages|] == s.messages
            && s2.messages[|s.messages|].isUser && s2.messages[|s.messages|].text == Text.Trim(input)
            && !s2.messages[|s.messages| + 1].isUser && s2.messages[|s.messages| + 1].text == ReplyText(outcome)
            && !s2.isLoading && s2.apiKey == s.apiKey
  {
    var s1 := Send(s, input, now, time).0;
    var s2 := Complete(s1, outcome, later, time2);
    assert s2.messages[..|s1.messages|] == s1.messages;
    assert s2.messages[..|s.messages|] == s1.messages[..|s.messages|];
  }

  /** A user message's id is the clock in decimal, so it is never the greeting's id. */
  lemma UserIdIsNotWelcome(now: nat)
    ensures Decimal.NatToString(now) != WelcomeId
  {
    assert !Decimal.IsDigit(WelcomeId[0]);
  }

  // ---- Any sequence of events ----

  /** Something that happens in a session: a user action, or the in-flight call ending. */
  datatype Event =
    | SendEvent(input: string, now: nat, time: string)
    | CompleteEvent(outcome: Outcome, now: nat, time: string)
    | ClearEvent(time: string)
    | SaveKeyEvent(input: string)

  function Apply(s: Session, e: Event): Session {
    match e
    case SendEvent(input, now, time) => Send(s, input, now, time).0
    case CompleteEvent(outcome, now, time) => Complete(s, outcome, now, time)
    case ClearEvent(time) => Clear(s, time)
    case SaveKeyEvent(input) => SaveKey(s, input).0
  }

  function Run(s: Session, events: seq<Event>): Session
    decreases |events|
  {
    if events == [] then s else Run(Apply(s, events[0]), events[1..])
  }

  /** No two user messages are next to each other: every question is answered before the next. */
  predicate NoAdjacentUserMessages(ms: seq<Message>) {
    forall i :: 0 < i < |ms| && ms[i].isUser ==> !ms[i - 1].isUser
  }

  /**
   * What holds of every session the page can reach: the list starts with a
   * greeting, user messages carry clock ids, questions and answers alternate,
   * and when no call is in flight the last message is not the user's.
   */
  predicate Invariant(s: Session) {
    |s.messages| >= 1 && IsWelcome(s.messages[0])
    && (forall i :: 0 <= i < |s.messages| && s.messages[i].isUser ==> Decimal.AllDigits(s.messages[i].id))
    && NoAdjacentUserMessages(s.messages)
    && (!s.isLoading ==> !s.messages[|s.messages| - 1].isUser)
  }

  lemma InitEstablishes(stored: Option<string>, time: string)
    ensures Invariant(Init(stored, time).0)
  {
  }

  lemma SendKeepsInvariant(s: Session, input: string, now: nat, time: string)
    requires Invariant(s)
    ensures Invariant(Send(s, input, now, time).0)
  {
    var r := Send(s, input, now, time);
    if r.1.Sent? {
      assert forall i :: 0 <= i < |s.messages| ==> r.0.messages[i] == s.messages[i];
    }
  }

  lemma CompleteKeepsInvariant(s: Session, outcome: Outcome, now: nat, time: string)
    requires Invariant(s)
    ensures Invariant(Complete(s, outcome, now, time))
  {
    var r := Complete(s, outcome, now, time);
    assert forall i :: 0 <= i < |s.messages| ==> r.messages[i] == s.messages[i];
  }

  lemma ClearKeepsInvariant(s: Session, time: string)
    requires Invariant(s)
    ensures Invariant(Clear(s, time))
  {
  }

  lemma SaveKeyKeepsInvariant(s: Session, input: string)
    requires Invariant(s)
    ensures Invariant(SaveKey(s, input).0)
  {
  }

  lemma ApplyPreserves(s: Session, e: Event)
    requires Invariant(s)
    ensures Invariant(Apply(s, e))
  {
    match e
    case SendEvent(input, now, time) => SendKeepsInvariant(s, input, now, time);
    case CompleteEvent(outcome, now, time) => CompleteKeepsInvariant(s, outcome, now, time);
    case ClearEvent(time) => ClearKeepsInvariant(s, time);
    case SaveKeyEvent(input) => SaveKeyKeepsInvariant(s, input);
  }

  lemma {:induction false} RunPreserves(s: Session, events: seq<Event>)
    requires Invariant(s)
    ensures Invariant(Run(s, events))
    decreases |events|
  {
    if events != [] {
      ApplyPreserves(s, events[0]);
      RunPreserves(Apply(s, events[0]), events[1..]);
    }
  }

  /**
   * From page load, whatever happens, the invariant holds; in particular no
   * user message is ever followed directly by another.
   */
  lemma ReachableSessionsAlternate(stored: Option<string>, time: string, events: seq<Event>)
    ensures Invariant(Run(Init(stored, time).0, events))
  {
    InitEstablishes(stored, time);
    RunPreserves(Init(stored, time).0, events);
  }
}
