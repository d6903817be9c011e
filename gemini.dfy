/**
 * The single-turn generation request both halves of the system build for the
 * provider's `generateContent` endpoint: the key goes into the query string and
 * the prompt is a fixed preamble followed by the user's message. The chat
 * client (script.js:106-126) and the proxy (api.php:24-42) build the same one.
 */
module Gemini {
  import opened Wrappers

  const ApiUrl := "https://generativelanguage.googleapis.com/v1beta/models/gemini-1.5-flash-latest:generateContent"
  const KeyQuery := "?key="
  const Preamble := "You are a helpful AI assistant. Please respond to this message in a natural, conversational way: "

  /** The integer generation parameters; temperature and top-p are floating point and not modelled. */
  const TopK := 40
  const MaxOutputTokens := 2048

  datatype Request = Request(url: string, prompt: string, topK: int, maxOutputTokens: int)

  /** The request for `message` sent with credential `key`. */
  function BuildRequest(message: string, key: string): (r: Request)
    ensures |r.url| == |ApiUrl + KeyQuery| + |key| && r.url[..|ApiUrl + KeyQuery|] == ApiUrl + KeyQuery
    ensures r.url[|ApiUrl + KeyQuery|..] == key
    ensures |r.prompt| == |Preamble| + |message| && r.prompt[..|Preamble|] == Preamble
    ensures r.prompt[|Preamble|..] == message
    ensures r.topK == TopK && r.maxOutputTokens == MaxOutputTokens
  {
    Request(ApiUrl + KeyQuery + key, Preamble + message, TopK, MaxOutputTokens)
  }

  /** The credential a request carries: what follows `?key=` in a URL to the endpoint. */
  function KeyOf(r: Request): Option<string> {
    var base := ApiUrl + KeyQuery;
    if |base| <= |r.url| && r.url[..|base|] == base then Some(r.url[|base|..]) else None
  }

  /** The user's message a request carries: its prompt after the preamble. */
  function MessageOf(r: Request): Option<string> {
    if |Preamble| <= |r.prompt| && r.prompt[..|Preamble|] == Preamble then Some(r.prompt[|Preamble|..]) else None
  }

  /** The key and the message can be read back from the request: the message is the prompt's suffix. */
  lemma RequestRoundTrip(message: string, key: string)
    ensures KeyOf(BuildRequest(message, key)) == Some(key)
    ensures MessageOf(BuildRequest(message, key)) == Some(message)
  {
    var r := BuildRequest(message, key);
    assert r.url == (ApiUrl + KeyQuery) + key;
    assert r.prompt == Preamble + message;
  }

  /** Different messages or different keys never produce the same request. */
  lemma BuildRequestInjective(m1: string, k1: string, m2: string, k2: string)
    requires BuildRequest(m1, k1) == BuildRequest(m2, k2)
    ensures m1 == m2 && k1 == k2
  {
    RequestRoundTrip(m1, k1);
    RequestRoundTrip(m2, k2);
  }
}
