/**
 * The chat client's globals and handlers (script.js) as an object that is
 * updated in place. Each method makes the transition ChatSpec describes, so
 * everything proved there about sessions holds of this object.
 */
module ChatClient {
  import opened Wrappers
  import Text
  import Decimal
  import Gemini
  import ChatSpec

  class Chat {
    var messages: seq<ChatSpec.Message>
    var isLoading: bool
    var apiKey: string

    /** The session these fields hold. */
    function State(): ChatSpec.Session
      reads this
    {
      ChatSpec.Session(messages, isLoading, apiKey)
    }

    /** Page load (script.js:7-17) with the value storage holds for the key, if any. */
    constructor (stored: Option<string>, time: string)
      ensures State() == ChatSpec.Init(stored, time).0
      ensures ChatSpec.Invariant(State())
    {
      messages := [];
      isLoading := false;
      apiKey := "";
      new;
      if stored.Some? && stored.value != "" {
        apiKey := stored.value;
      }
      AddWelcomeMessage(time);
    }

    /** `addWelcomeMessage`: the greeting is pushed onto the list. */
    method AddWelcomeMessage(time: string)
      modifies this
      ensures messages == old(messages) + [ChatSpec.Welcome(time)]
      ensures isLoading == old(isLoading) && apiKey == old(apiKey)
    {
      messages := messages + [ChatSpec.Welcome(time)];
    }

    /** `setLoading`, for the flag only. */
    method SetLoading(loading: bool)
      modifies this
      ensures isLoading == loading
      ensures messages == old(messages) && apiKey == old(apiKey)
    {
      isLoading := loading;
    }

    /** `sendMessage` with the input box holding `input`, at clock `now`. */
    method Send(input: string, now: nat, time: string) returns (result: ChatSpec.SendResult)
      modifies this
      ensures (State(), result) == ChatSpec.Send(old(State()), input, now, time)
      ensures ChatSpec.Invariant(old(State())) ==> ChatSpec.Invariant(State())
    {
      ghost var before := State();
      var text := Text.Trim(input);
      if text == [] || isLoading || apiKey == "" {
        result := if apiKey == "" then ChatSpec.NeedKey else ChatSpec.Ignored;
      } else {
        messages := messages + [ChatSpec.Message(Decimal.NatToString(now), text, true, time)];
        SetLoading(true);
        result := ChatSpec.Sent(Gemini.BuildRequest(text, apiKey));
      }
      if ChatSpec.Invariant(before) {
        ChatSpec.SendKeepsInvariant(before, input, now, time);
      }
    }

    /** The result handling of `sendToGemini` at clock `now`. */
    method Complete(outcome: ChatSpec.Outcome, now: nat, time: string)
      modifies this
      ensures State() == ChatSpec.Complete(old(State()), outcome, now, time)
      ensures ChatSpec.Invariant(old(State())) ==> ChatSpec.Invariant(State())
    {
      ghost var before := State();
      var text;
      match outcome {
        case Answer(t) => text := t;
        case _ => text := ChatSpec.ApologyText;
      }
      messages := messages + [ChatSpec.Message(Decimal.NatToString(now + 1), text, false, time)];
      SetLoading(false);
      if ChatSpec.Invariant(before) {
        ChatSpec.CompleteKeepsInvariant(before, outcome, now, time);
      }
    }

    /** `clearChat`. */
    method Clear(time: string)
      modifies this
      ensures State() == ChatSpec.Clear(old(State()), time)
      ensures ChatSpec.Invariant(old(State())) ==> ChatSpec.Invariant(State())
    {
      ghost var before := State();
      messages := [];
      AddWelcomeMessage(time);
      if ChatSpec.Invariant(before) {
        ChatSpec.ClearKeepsInvariant(before, time);
      }
    }

    /** `saveApiKey` with the key box holding `input`; `saved` tells whether the key prompt closes. */
    method SaveKey(input: string) returns (saved: bool)
      modifies this
      ensures (State(), saved) == ChatSpec.SaveKey(old(State()), input)
      ensures ChatSpec.Invariant(old(State())) ==> ChatSpec.Invariant(State())
    {
      ghost var before := State();
      var key := Text.Trim(input);
      saved := key != [];
      if saved {
        apiKey := key;
      }
      if ChatSpec.Invariant(before) {
        ChatSpec.SaveKeyKeepsInvariant(before, input);
      }
    }

    /** The send button's state for the text in the input box. */
    method CanSend(input: string) returns (enabled: bool)
      ensures enabled <==> ChatSpec.SendEnabled(State(), input)
    {
      var hasText := |Text.Trim(input)| > 0;
      enabled := !(!hasText || isLoading || apiKey == "");
    }
  }

  /** Without a key, a send only opens the key prompt; once a key is saved, the same text is sent. */
  method SendNeedsKey(key: string, question: string, t0: string, t1: string)
    requires key != [] && !Text.IsWhitespace(key[0])
    requires question != [] && !Text.IsWhitespace(question[0])
  {
    var chat := new Chat(None, t0);
    var r := chat.Send(question, 1000, t1);
    assert r == ChatSpec.NeedKey && |chat.messages| == 1;
    var saved := chat.SaveKey(key);
    assert saved && chat.apiKey == Text.Trim(key);
    r := chat.Send(question, 2000, t1);
    assert r.Sent? && chat.isLoading && |chat.messages| == 2;
  }

  /** One question while idle; a second one is refused until the answer arrives; then the chat is cleared. */
  method QuestionAndAnswer(chat: Chat, question: string, answer: string, t1: string, t2: string)
    requires ChatSpec.SendEnabled(chat.State(), question)
    modifies chat
  {
    var n := |chat.messages|;
    var r := chat.Send(question, 2000, t1);
    assert r.Sent? && chat.isLoading && |chat.messages| == n + 1;
    var again := chat.Send(question, 2001, t1);
    assert again == ChatSpec.Ignored && |chat.messages| == n + 1;
    chat.Complete(ChatSpec.Answer(answer), 3000, t2);
    assert |chat.messages| == n + 2 && chat.messages[n].isUser && chat.messages[n + 1].text == answer;
    assert !chat.isLoading;
    chat.Clear(t2);
    assert |chat.messages| == 1 && ChatSpec.IsWelcome(chat.messages[0]);
  }
}
