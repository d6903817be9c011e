/**
 * The two halves side by side: the chat client calls the provider itself, and
 * the proxy calls it on a caller's behalf. For the same message and key they
 * send the same request, and the proxy relays the text the client would show.
 */
module Agreement {
  import opened Wrappers
  import Text
  import Gemini
  import ChatSpec
  import Proxy

  /** The body a caller of the proxy would post for this message and key. */
  function ProxyInput(message: string, key: string): Proxy.Json {
    Proxy.Obj(map["message" := Proxy.Str(message), "apiKey" := Proxy.Str(key)])
  }

  /** An accepted send issues exactly the request the proxy forwards for the trimmed text and the session's key. */
  lemma ClientSendsWhatProxyForwards(s: ChatSpec.Session, input: string, now: nat, time: string, code: int, body: Proxy.Json)
    requires ChatSpec.SendEnabled(s, input)
    ensures var sent := ChatSpec.Send(s, input, now, time).1;
            sent.Sent? && Proxy.Handle("POST", ProxyInput(Text.Trim(input), s.apiKey), code, body).outbound == Some(sent.request)
  {
    Proxy.ForwardedRequestCarriesParameters(Text.Trim(input), s.apiKey, code, body);
  }

  /** The worked example at the proxy: "Hello" with key "VALIDKEY", and the provider answers "Hi there!". */
  lemma HelloThroughProxy()
    ensures Proxy.Handle("POST", ProxyInput("Hello", "VALIDKEY"), 200, Proxy.CandidateReply(Proxy.Str("Hi there!")))
            == Proxy.Exchange(Some(Gemini.BuildRequest("Hello", "VALIDKEY")), Proxy.Response(200, Proxy.Success(Proxy.Str("Hi there!"))))
  {
    Proxy.ForwardedRequestCarriesParameters("Hello", "VALIDKEY", 200, Proxy.CandidateReply(Proxy.Str("Hi there!")));
    Proxy.RelaysCandidateText(Proxy.Str("Hi there!"));
  }

  lemma HelloIsTrimmed()
    ensures Text.Trim("Hello") == "Hello"
  {
    Text.TrimUnique("Hello", 0, 5);
    assert "Hello"[0..5] == "Hello";
  }

  /** The same example in the client: the conversation ends with the assistant saying "Hi there!". */
  lemma HelloInClient(s: ChatSpec.Session, now: nat, time: string)
    requires !s.isLoading && s.apiKey != ""
    ensures var s2 := ChatSpec.Complete(ChatSpec.Send(s, "Hello", now, time).0, ChatSpec.Answer("Hi there!"), now, time);
            |s2.messages| == |s.messages| + 2 && s2.messages[|s.messages|].text == "Hello"
            && s2.messages[|s.messages|].isUser
            && !s2.messages[|s.messages| + 1].isUser && s2.messages[|s.messages| + 1].text == "Hi there!"
  {
    HelloIsTrimmed();
    ChatSpec.RoundTrip(s, "Hello", now, time, ChatSpec.Answer("Hi there!"), now, time);
  }
}
