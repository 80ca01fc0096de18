/**
 * The calls to the chat-completion service (src/logic.ts: `generateQueries`,
 * `fixQueries`, `getResponse`) and the key check `isValidApiKey`. The service is an
 * oracle: it is given the number of the call, the key and the request, and either
 * completes with a list of choices or throws with a message.
 */
module Completion {
  import opened Wrappers
  import opened Chat
  import Statements
  import Instructions
  import Executor

  const ModelName: string := "gpt-3.5-turbo"

  /** Which builder of the prompts produced the system message of a request, with its
      argument: the generation prompt, the repair prompt for the given failed statements, or
      the answer prompt for the given serialised results. */
  datatype SystemPrompt = QueryPrompt | FixPrompt(failedQueries: seq<string>) | ResponsePrompt(serialised: string)

  /** The text of the system message. */
  function SystemText(system: SystemPrompt): string
  {
    match system
    case QueryPrompt => Instructions.QueryInstructions()
    case FixPrompt(failedQueries) => Instructions.FixQueryInstructions(failedQueries)
    case ResponsePrompt(serialised) => Instructions.ResponseInstructions(serialised)
  }

  /** The body of a chat-completion request: the model, the system message (as the prompt it
      carries, whose text is `SystemText(system)`), then the other messages in order. */
  datatype Request = Request(model: string, system: SystemPrompt, messages: seq<ApiMessage>)

  /** One choice of a completion; its message content may be missing. */
  datatype Choice = Choice(content: Option<string>)

  datatype ApiResponse = Completed(choices: seq<Choice>) | CallFailed(message: string)

  /** The completion service: call number, key and request to response. */
  type Service = (nat, string, Request) -> ApiResponse

  const GeneratePrefix: string := "failed to generate sql query: "
  const FixPrefix: string := "failed to fix sql queries: "
  const ResponsePrefix: string := "failed to generate response: "
  const NoParseMany: string := "could not parse responses"
  const NoParseOne: string := "could not parse response"

  /** The guard on a completion: the first choice's content, when there is a first choice and
      its content is a non-empty text. */
  function FirstContent(response: ApiResponse): (c: Option<string>)
    ensures c.Some? <==>
      (response.Completed? && |response.choices| > 0
       && response.choices[0].content.Some? && response.choices[0].content.value != [])
    ensures c.Some? ==> c.value == response.choices[0].content.value
  {
    if response.Completed? && |response.choices| > 0 then
      match response.choices[0].content
      case Some(text) => if text != [] then Some(text) else None
      case None => None
    else None
  }

  /** A request as all three calls build it: the system prompt, then the context messages,
      then the user's prompt, sent with the role `RoleName(User)`. */
  function ChatRequest(system: SystemPrompt, context: seq<ApiMessage>, prompt: string): (r: Request)
    ensures r.model == ModelName && r.system == system
    ensures |r.messages| == |context| + 1 && r.messages[..|context|] == context
    ensures r.messages[|context|] == ApiMessage(User, prompt)
  {
    var m := context + [ApiMessage(User, prompt)];
    assert m[..|context|] == context;
    Request(ModelName, system, m)
  }

  /** The `try`/`catch` shared by both statement-producing calls: a thrown service error and
      an unusable completion both surface as an error carrying `prefix`; the latter repeats it,
      because the inner error is caught and wrapped again. */
  function StatementsFrom(response: ApiResponse, prefix: string): (r: Result<seq<string>>)
    ensures r.Ok? <==> FirstContent(response).Some?
    ensures r.Ok? ==> r.value == Statements.ParseStatements(FirstContent(response).value)
    ensures r.Ok? ==> forall q <- r.value :: Statements.IsStatement(q)
    ensures response.CallFailed? ==> r == Err(prefix + response.message)
    ensures response.Completed? && r.Err? ==> r == Err(prefix + prefix + NoParseMany)
  {
    match FirstContent(response)
    case Some(text) => Ok(Statements.ParseStatements(text))
    case None =>
      if response.CallFailed? then Err(prefix + response.message)
      else Err(prefix + (prefix + NoParseMany))
  }

  /** `generateQueries`: the generation prompt, the last three messages as `GenerationHistory`
      shows them, then the user's prompt. It yields well-formed statements or throws an error
      whose text starts with its prefix. */
  function GenerateQueries(service: Service, call: nat, apiKey: string, prompt: string, history: seq<ChatMessage>): (r: Result<seq<string>>)
    ensures r.Ok? ==> forall q <- r.value :: Statements.IsStatement(q)
    ensures r.Err? ==> |GeneratePrefix| <= |r.error| && r.error[..|GeneratePrefix|] == GeneratePrefix
  {
    var response := service(call, apiKey, ChatRequest(QueryPrompt, GenerationHistory(history), prompt));
    StatementsOrPrefixedError(response, GeneratePrefix);
    StatementsFrom(response, GeneratePrefix)
  }

  /** `fixQueries`: the repair prompt for exactly the failed statements, no history, then the
      user's prompt. Its errors differ from those of `generateQueries` only in the prefix. */
  function FixQueries(service: Service, call: nat, apiKey: string, prompt: string, failedQueries: seq<string>): (r: Result<seq<string>>)
    ensures r.Ok? ==> forall q <- r.value :: Statements.IsStatement(q)
    ensures r.Err? ==> |FixPrefix| <= |r.error| && r.error[..|FixPrefix|] == FixPrefix
  {
    var response := service(call, apiKey, ChatRequest(FixPrompt(failedQueries), [], prompt));
    StatementsOrPrefixedError(response, FixPrefix);
    StatementsFrom(response, FixPrefix)
  }

  /** `getResponse`, with `JSON.stringify(queryResponses, null, 2)` given as `serialise`: the
      answer text when there is one, and otherwise an error text instead of an exception. An
      unusable completion repeats the prefix, because the error thrown for it is caught and
      wrapped again. */
  function GetResponse(service: Service, call: nat, apiKey: string, prompt: string,
                       serialise: Executor.QueryResponses -> string,
                       queryResponses: Executor.QueryResponses, history: seq<ChatMessage>): (answer: string)
    ensures var response := service(call, apiKey, ChatRequest(ResponsePrompt(serialise(queryResponses)), ResponseHistory(history), prompt));
      && (FirstContent(response).Some? ==> answer == FirstContent(response).value)
      && (response.CallFailed? ==> answer == ResponsePrefix + response.message)
      && (response.Completed? && FirstContent(response).None? ==> answer == ResponsePrefix + (ResponsePrefix + NoParseOne))
  {
    var response := service(call, apiKey, ChatRequest(ResponsePrompt(serialise(queryResponses)), ResponseHistory(history), prompt));
    match FirstContent(response)
    case Some(text) => text
    case None =>
      if response.CallFailed? then ResponsePrefix + response.message
      else ResponsePrefix + (ResponsePrefix + NoParseOne)
  }

  /** Whatever the service does, `getResponse` never fails: the answer is the first choice's
      content, or a text that starts with the response prefix. */
  lemma AnswerOrPrefixedError(service: Service, call: nat, apiKey: string, prompt: string,
                              serialise: Executor.QueryResponses -> string,
                              queryResponses: Executor.QueryResponses, history: seq<ChatMessage>)
    ensures var response := service(call, apiKey, ChatRequest(ResponsePrompt(serialise(queryResponses)), ResponseHistory(history), prompt));
      var answer := GetResponse(service, call, apiKey, prompt, serialise, queryResponses, history);
      (FirstContent(response).Some? && answer == FirstContent(response).value)
      || (|ResponsePrefix| <= |answer| && answer[..|ResponsePrefix|] == ResponsePrefix)
  {
    var response := service(call, apiKey, ChatRequest(ResponsePrompt(serialise(queryResponses)), ResponseHistory(history), prompt));
    var answer := GetResponse(service, call, apiKey, prompt, serialise, queryResponses, history);
    if FirstContent(response).None? {
      if response.CallFailed? {
        assert answer == ResponsePrefix + response.message;
      } else {
        assert answer == ResponsePrefix + (ResponsePrefix + NoParseOne);
      }
    }
  }

  /** Whatever the service does, a statement-producing call either yields well-formed
      statements or an error whose text starts with the call's prefix. */
  lemma StatementsOrPrefixedError(response: ApiResponse, prefix: string)
    ensures var r := StatementsFrom(response, prefix);
      (r.Ok? && forall q <- r.value :: Statements.IsStatement(q))
      || (r.Err? && |prefix| <= |r.error| && r.error[..|prefix|] == prefix)
  {
    var r := StatementsFrom(response, prefix);
    if r.Err? {
      if response.CallFailed? {
        assert r.error == prefix + response.message;
      } else {
        assert r.error == prefix + (prefix + NoParseMany);
      }
    }
  }

  // ---- the key check ----

  /** What listing the models with a key gives: success, or an error object with an optional
      `code` and an optional `error` payload. */
  datatype ProbeOutcome = Listed | ProbeError(code: Option<string>, payload: Option<string>)

  type Probe = string -> ProbeOutcome

  const KeyRequired: string := "API key is required"
  const KeyInvalid: string := "Invalid API key"
  const InvalidKeyCode: string := "invalid_api_key"

  /** `isValidApiKey` as written: `None` means the key works. Because the test of the error
      code is an assignment, whose value is a non-empty string, every probe error is reported
      as an invalid key. */
  function IsValidApiKeyAsWritten(probe: Probe, apiKey: string): (r: Option<string>)
    ensures apiKey == [] ==> r == Some(KeyRequired)
    ensures apiKey != [] && probe(apiKey) == Listed ==> r == None
    ensures apiKey != [] && probe(apiKey).ProbeError? ==> r == Some(KeyInvalid)
  {
    if |apiKey| == 0 then Some(KeyRequired)
    else match probe(apiKey)
      case Listed => None
      case ProbeError(_, _) => Some(KeyInvalid)
  }

  /** `isValidApiKey` with the comparison the code evidently means: only the invalid-key code
      is reported as an invalid key; any other error passes its payload on. */
  function IsValidApiKey(probe: Probe, apiKey: string): (r: Option<string>)
    ensures apiKey == [] ==> r == Some(KeyRequired)
    ensures apiKey != [] && probe(apiKey) == Listed ==> r == None
    ensures apiKey != [] && probe(apiKey).ProbeError? ==>
      r == (if probe(apiKey).code == Some(InvalidKeyCode) then Some(KeyInvalid) else probe(apiKey).payload)
  {
    if |apiKey| == 0 then Some(KeyRequired)
    else match probe(apiKey)
      case Listed => None
      case ProbeError(code, payload) => if code == Some(InvalidKeyCode) then Some(KeyInvalid) else payload
  }

  /** The two agree exactly when the probe does not fail with another code, or fails with a
      payload that is itself the invalid-key text. */
  lemma KeyCheckAgreement(probe: Probe, apiKey: string)
    ensures IsValidApiKeyAsWritten(probe, apiKey) == IsValidApiKey(probe, apiKey) <==>
      (apiKey == [] || !probe(apiKey).ProbeError? || probe(apiKey).code == Some(InvalidKeyCode)
       || probe(apiKey).payload == Some(KeyInvalid))
  {
  }

  /** A key that is merely rate-limited is reported as invalid by the code as written, while
      the intended check passes the service's message on. */
  lemma RateLimitedKeyReportedInvalid()
    ensures var probe: Probe := (k: string) => ProbeError(Some("rate_limit_exceeded"), Some("Rate limit reached"));
      && IsValidApiKeyAsWritten(probe, "sk-test") == Some(KeyInvalid)
      && IsValidApiKey(probe, "sk-test") == Some("Rate limit reached")
  {
  }
}
