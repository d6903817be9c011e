/**
 * The proxy endpoint (api.php) as one decision: from the request method, the
 * decoded request body, and the provider's status code and decoded body, to
 * the outbound request it makes (at most one) and the reply it sends.
 * Sending and receiving are left to the caller; only what is decided is here.
 */
module Proxy {
  import opened Wrappers
  import Decimal
  import Gemini

  /**
   * A value as `json_decode($text, true)` returns it: objects become keyed
   * arrays (`Obj`), lists become indexed arrays (`Arr`), and text that does not
   * parse decodes to `Null`. Numbers with a fraction or exponent are not modelled.
   */
  datatype Json = Null | Bool(b: bool) | Num(n: int) | Str(s: string) | Arr(items: seq<Json>) | Obj(fields: map<string, Json>)

  /** One step of an offset path: `[name]` with a non-numeric name, or `[0]`. */
  datatype Offset = Key(name: string) | Zero

  /** The JSON envelope of a reply: `{error: ...}` or `{success: true, response: ...}`. */
  datatype Envelope = Error(message: string) | Success(response: Json)

  datatype Response = Response(status: int, body: Envelope)

  /** Everything one run of the script does: the outbound call it makes, if any, and its reply. */
  datatype Exchange = Exchange(outbound: Option<Gemini.Request>, response: Response)

  /** What the script decides before calling out: answer now, or forward this request. */
  datatype Plan = Reply(response: Response) | Forward(request: Gemini.Request)

  /** The status PHP sends when the script never sets one. */
  const DefaultStatus := 200
  const MethodNotAllowed := Response(405, Error("Method not allowed"))
  const MissingParameters := Response(400, Error("Missing required parameters"))
  const ApiRequestFailed := "API request failed"
  const InvalidApiResponse := Response(500, Error("Invalid API response"))
  /** The status the corrected proxy gives when no upstream status exists (curl reports 0). */
  const BadGateway := 502

  const MessagePath := [Key("message")]
  const ApiKeyPath := [Key("apiKey")]
  const CandidateTextPath := [Key("candidates"), Zero, Key("content"), Key("parts"), Zero, Key("text")]

  /**
   * `$v[o]` on a decoded value. A named member exists only in an object; `[0]`
   * is the first element of a list or the member "0" of an object (PHP keeps
   * numeric string keys as integers). A string offset is treated as unset: on
   * the paths used here it is always followed by a named step, where PHP's
   * `isset` fails on a string.
   */
  function At(v: Json, o: Offset): (r: Option<Json>)
    ensures r.Some? ==> v.Arr? || v.Obj?
    ensures o.Key? && r.Some? ==> v.Obj? && o.name in v.fields && r.value == v.fields[o.name]
  {
    match (v, o)
    case (Obj(m), Key(k)) => if k in m then Some(m[k]) else None
    case (Obj(m), Zero) => if "0" in m then Some(m["0"]) else None
    case (Arr(s), Zero) => if |s| > 0 then Some(s[0]) else None
    case _ => None
  }

  /** The value at the end of an offset path, if every step exists. */
  function Lookup(v: Json, path: seq<Offset>): (r: Option<Json>)
    ensures path == [] ==> r == Some(v)
    ensures !(v.Arr? || v.Obj?) ==> (r.Some? <==> path == [])
    decreases |path|
  {
    if path == [] then Some(v)
    else match At(v, path[0])
      case None => None
      case Some(w) => Lookup(w, path[1..])
  }

  /**
   * `isset($v[o1]...[on])`: every step exists and the final value is not null.
   * A missing step anywhere on the way makes it false rather than an error,
   * and nothing is set below a null.
   */
  function IsSet(v: Json, path: seq<Offset>): (b: bool)
    ensures v == Null ==> !b
    ensures (exists k | 0 <= k <= |path| :: Lookup(v, path[..k]).None?) ==> !b
  {
    MissingStepIsFinal(v, path);
    Lookup(v, path).Some? && Lookup(v, path).value != Null
  }

  /** Looking up a path in two halves is looking up the whole path. */
  lemma {:induction false} LookupAppend(v: Json, p: seq<Offset>, q: seq<Offset>)
    ensures Lookup(v, p + q) == match Lookup(v, p) case None => None case Some(w) => Lookup(w, q)
    decreases |p|
  {
    if p != [] {
      assert (p + q)[0] == p[0] && (p + q)[1..] == p[1..] + q;
      match At(v, p[0]) {
        case None =>
        case Some(w) => LookupAppend(w, p[1..], q);
      }
    } else {
      assert p + q == q;
    }
  }

  /** Once a step of a path is missing, the whole path is missing. */
  lemma MissingStepIsFinal(v: Json, path: seq<Offset>)
    ensures forall k | 0 <= k <= |path| :: Lookup(v, path[..k]).None? ==> Lookup(v, path).None?
  {
    forall k | 0 <= k <= |path|
      ensures Lookup(v, path[..k]).None? ==> Lookup(v, path).None?
    {
      assert path == path[..k] + path[k..];
      LookupAppend(v, path[..k], path[k..]);
    }
  }

  /** What PHP's `.` makes of an operand. Arrays become "Array" (with a warning). */
  function PhpString(v: Json): (s: string)
    ensures v.Str? ==> s == v.s
    ensures v.Num? && v.n >= 0 ==> |s| >= 1 && Decimal.AllDigits(s) && Decimal.ParseNat(s) == v.n && (|s| > 1 ==> s[0] != '0')
    ensures v.Num? && v.n < 0 ==> |s| > 1 && s[0] == '-' && Decimal.AllDigits(s[1..]) && Decimal.ParseNat(s[1..]) == -v.n && (|s| > 2 ==> s[1] != '0')
  {
    match v
    case Str(t) => t
    case Num(n) => Decimal.IntToString(n)
    case Bool(b) => if b then "1" else ""
    case Null => ""
    case _ => "Array"
  }

  /** The method check and the parameter check of api.php:7-19, then the request of api.php:21-42. */
  function Validate(requestMethod: string, input: Json): (p: Plan)
    ensures p.Forward? <==> requestMethod == "POST" && IsSet(input, MessagePath) && IsSet(input, ApiKeyPath)
    ensures requestMethod != "POST" ==> p == Reply(MethodNotAllowed)
    ensures requestMethod == "POST" && !(IsSet(input, MessagePath) && IsSet(input, ApiKeyPath)) ==> p == Reply(MissingParameters)
    ensures p.Forward? ==> p.request == Gemini.BuildRequest(PhpString(input.fields["message"]), PhpString(input.fields["apiKey"]))
    ensures p.Forward? ==> Gemini.MessageOf(p.request) == Some(PhpString(input.fields["message"]))
                           && Gemini.KeyOf(p.request) == Some(PhpString(input.fields["apiKey"]))
  {
    if requestMethod != "POST" then Reply(MethodNotAllowed)
    else if !IsSet(input, MessagePath) || !IsSet(input, ApiKeyPath) then Reply(MissingParameters)
    else
      var message := PhpString(input.fields["message"]);
      var key := PhpString(input.fields["apiKey"]);
      Gemini.RequestRoundTrip(message, key);
      Forward(Gemini.BuildRequest(message, key))
  }

  /**
   * The status of the reply when the provider call did not give 200: the
   * provider's own status, or 502 when there was none at all (curl reports 0).
   */
  function FailureStatus(code: int): (status: int)
    requires code != 200
    ensures status != 200
    ensures code != 0 ==> status == code
    ensures code == 0 ==> status == BadGateway
  {
    if code == 0 then BadGateway else code
  }

  /** The reply built from the provider's status code and decoded body (api.php:58-74). */
  function Respond(code: int, body: Json): (r: Response)
    ensures r.status == 200 <==> r.body.Success?
    ensures code != 200 ==> r.body == Error(ApiRequestFailed) && (code != 0 ==> r.status == code)
    ensures code == 0 ==> r.status == BadGateway
    ensures code == 200 ==> (r.body.Success? <==> IsSet(body, CandidateTextPath))
    ensures r.body.Success? ==> Lookup(body, CandidateTextPath) == Some(r.body.response) && r.body.response != Null
    ensures code == 200 && !IsSet(body, CandidateTextPath) ==> r == InvalidApiResponse
  {
    if code != 200 then Response(FailureStatus(code), Error(ApiRequestFailed))
    else if IsSet(body, CandidateTextPath) then Response(200, Success(Lookup(body, CandidateTextPath).value))
    else InvalidApiResponse
  }

  /** One run of the script: the provider's answer is consulted only when a request was forwarded. */
  function Handle(requestMethod: string, input: Json, code: int, body: Json): (x: Exchange)
    ensures x.outbound.Some? <==> Validate(requestMethod, input).Forward?
    ensures x.outbound.Some? ==> x.outbound.value == Validate(requestMethod, input).request && x.response == Respond(code, body)
    ensures x.outbound.None? ==> x.response == Validate(requestMethod, input).response
  {
    match Validate(requestMethod, input)
    case Reply(r) => Exchange(None, r)
    case Forward(q) => Exchange(Some(q), Respond(code, body))
  }

  /** Exactly one outbound call when the requestMethod is POST and both parameters are set, and none otherwise. */
  lemma ExactlyOneCallWhenValid(requestMethod: string, input: Json, code: int, body: Json)
    ensures Handle(requestMethod, input, code, body).outbound.Some?
            <==> requestMethod == "POST" && IsSet(input, MessagePath) && IsSet(input, ApiKeyPath)
  {
  }

  /** A rejected request gets the same reply whatever the provider would have said. */
  lemma RejectionIgnoresUpstream(requestMethod: string, input: Json, c1: int, b1: Json, c2: int, b2: Json)
    requires Handle(requestMethod, input, c1, b1).outbound.None?
    ensures Handle(requestMethod, input, c2, b2) == Handle(requestMethod, input, c1, b1)
  {
  }

  /** Any requestMethod other than POST is answered 405 without an outbound call. */
  lemma NonPostRejected(requestMethod: string, input: Json, code: int, body: Json)
    requires requestMethod != "POST"
    ensures Handle(requestMethod, input, code, body) == Exchange(None, MethodNotAllowed)
  {
  }

  /** A missing or null `message` or `apiKey`, whichever it is, is answered 400 without an outbound call. */
  lemma MissingParameterRejected(input: Json, code: int, body: Json)
    requires !IsSet(input, MessagePath) || !IsSet(input, ApiKeyPath)
    ensures Handle("POST", input, code, body) == Exchange(None, MissingParameters)
  {
  }

  /** `isset` accepts empty strings: an empty message with an empty key is still forwarded. */
  lemma EmptyStringsAreSet(code: int, body: Json)
    ensures var input := Obj(map["message" := Str(""), "apiKey" := Str("")]);
            Handle("POST", input, code, body).outbound == Some(Gemini.BuildRequest("", ""))
  {
    var input := Obj(map["message" := Str(""), "apiKey" := Str("")]);
    assert Lookup(input, MessagePath) == Some(Str(""));
    assert Lookup(input, ApiKeyPath) == Some(Str(""));
  }

  /** A forwarded string message ends the prompt, and the string key ends the URL. */
  lemma ForwardedRequestCarriesParameters(message: string, key: string, code: int, body: Json)
    ensures var input := Obj(map["message" := Str(message), "apiKey" := Str(key)]);
            Handle("POST", input, code, body).outbound == Some(Gemini.BuildRequest(message, key))
  {
    var input := Obj(map["message" := Str(message), "apiKey" := Str(key)]);
    assert Lookup(input, MessagePath) == Some(Str(message));
    assert Lookup(input, ApiKeyPath) == Some(Str(key));
  }

  /** The provider's answer in the shape it documents: one candidate with one text part. */
  function CandidateReply(text: Json): Json {
    Obj(map["candidates" := Arr([Obj(map["content" := Obj(map["parts" := Arr([Obj(map["text" := text])])])])])])
  }

  /** A provider success in that shape is relayed with exactly the candidate's text. */
  lemma RelaysCandidateText(text: Json)
    requires text != Null
    ensures Respond(200, CandidateReply(text)) == Response(200, Success(text))
  {
    var body := CandidateReply(text);
    var part := Obj(map["text" := text]);
    var content := Obj(map["parts" := Arr([part])]);
    var candidate := Obj(map["content" := content]);
    assert Lookup(part, CandidateTextPath[5..]) == Some(text);
    assert Lookup(Arr([part]), CandidateTextPath[4..]) == Some(text);
    assert Lookup(content, CandidateTextPath[3..]) == Some(text);
    assert Lookup(candidate, CandidateTextPath[2..]) == Some(text);
    assert Lookup(Arr([candidate]), CandidateTextPath[1..]) == Some(text);
  }

  /** A provider status other than 200 is passed on with the failure envelope. */
  lemma UpstreamStatusRelayed(code: int, body: Json)
    requires code != 200 && code != 0
    ensures Respond(code, body) == Response(code, Error(ApiRequestFailed))
  {
  }

  /** A provider success with no candidates is answered 500. */
  lemma NoCandidatesIsInvalid()
    ensures Respond(200, Obj(map["candidates" := Arr([])])) == InvalidApiResponse
  {
    var body := Obj(map["candidates" := Arr([])]);
    assert Lookup(body, CandidateTextPath) == None by {
      assert Lookup(body, CandidateTextPath) == Lookup(Arr([]), CandidateTextPath[1..]);
    }
  }

  // ---- The reply status after a failed provider call, as api.php:58-62 writes it ----

  /**
   * PHP's `http_response_code($code)`: an argument of 0 counts as no argument,
   * so the call only reads the current status and sets nothing.
   */
  function PhpResponseCode(current: int, code: int): (status: int)
    ensures code != 0 ==> status == code
    ensures code == 0 ==> status == current
  {
    if code == 0 then current else code
  }

  /** The status api.php sends after a failed provider call: none was set before, so it starts at 200. */
  function FailureStatusAsWritten(code: int): (status: int)
    requires code != 200
    ensures code != 0 ==> status == code
    ensures code == 0 ==> status == DefaultStatus
  {
    PhpResponseCode(DefaultStatus, code)
  }

  /** `Respond` with the status as api.php:58-62 computes it. */
  function RespondAsWritten(code: int, body: Json): (r: Response)
    ensures code == 0 ==> r == Response(DefaultStatus, Error(ApiRequestFailed))
    ensures code != 0 ==> r == Respond(code, body)
  {
    if code != 200 then Response(FailureStatusAsWritten(code), Error(ApiRequestFailed)) else Respond(code, body)
  }

  /** When curl gets no response at all, api.php reports the failure with status 200. */
  lemma TransportFailureAnsweredWith200(body: Json)
    ensures RespondAsWritten(0, body) == Response(200, Error(ApiRequestFailed))
    ensures !(RespondAsWritten(0, body).status == 200 <==> RespondAsWritten(0, body).body.Success?)
  {
  }

  /** That is the only place where the script as written and the corrected reply differ. */
  lemma AsWrittenDiffersOnlyWithoutStatus(code: int, body: Json)
    requires code != 0
    ensures RespondAsWritten(code, body) == Respond(code, body)
  {
  }

  /** One run of the script with the reply as api.php:58-74 writes it. */
  function HandleAsWritten(requestMethod: string, input: Json, code: int, body: Json): (x: Exchange)
    ensures x.outbound == Handle(requestMethod, input, code, body).outbound
    ensures x.outbound.Some? ==> x.response == RespondAsWritten(code, body)
    ensures x.outbound.None? ==> x.response == Validate(requestMethod, input).response
  {
    match Validate(requestMethod, input)
    case Reply(r) => Exchange(None, r)
    case Forward(q) => Exchange(Some(q), RespondAsWritten(code, body))
  }

  /** The script as written and the corrected `Handle` agree whenever curl reports a status. */
  lemma HandleAsWrittenDiffersOnlyWithoutStatus(requestMethod: string, input: Json, code: int, body: Json)
    requires code != 0
    ensures HandleAsWritten(requestMethod, input, code, body) == Handle(requestMethod, input, code, body)
  {
  }

  /** A valid request whose provider call gets no response at all is answered 200 by the script. */
  lemma HandleAsWrittenTransportFailure(requestMethod: string, input: Json, body: Json)
    requires Validate(requestMethod, input).Forward?
    ensures HandleAsWritten(requestMethod, input, 0, body).response == Response(200, Error(ApiRequestFailed))
    ensures Handle(requestMethod, input, 0, body).response == Response(BadGateway, Error(ApiRequestFailed))
  {
  }
}
