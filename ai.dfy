/**
  * `AIService.generate`: the request body sent to the local model server,
  * and the diagnostic text returned in place of every failure, so that the
  * call never throws. The HTTP exchange is an oracle from request to reply.
  */
module Ai {
  import opened Text

  /** The body posted to `/api/generate`; `images` is absent unless some were given. */
  datatype Request = Request(model: string, prompt: string, system: string, stream: bool, images: Option<seq<string>>)

  const DefaultModel: string := "mistral"
  const DefaultSystem: string := "You are a helpful AI assistant."
  const ContextHead: string := "Context information is below.\n---------------------\n"
  const ContextTail: string :=
    "\n---------------------\nGiven the context information and not prior knowledge, answer the query.\nQuery: "

  /** JavaScript truthiness of an optional string: present and not empty. */
  predicate Truthy(s: Option<string>) {
    s.Some? && s.value != ""
  }

  /** The prompt as sent: wrapped in the retrieval template when there is a context. */
  function WrapPrompt(prompt: string, context: Option<string>): string {
    if Truthy(context) then ContextHead + context.value + ContextTail + prompt else prompt
  }

  /** The body `generate` builds from its arguments. */
  function BuildRequest(prompt: string, systemPrompt: Option<string>, context: Option<string>,
                        images: Option<seq<string>>, modelOverride: Option<string>): Request
  {
    Request(
      if Truthy(modelOverride) then modelOverride.value else DefaultModel,
      WrapPrompt(prompt, context),
      if Truthy(systemPrompt) then systemPrompt.value else DefaultSystem,
      false,
      if images.Some? && |images.value| > 0 then images else None)
  }

  /**
    * What the body holds: a non-empty model, the override exactly when it is
    * truthy; a non-empty system prompt; no streaming; images only when the
    * list is non-empty; the query verbatim without a context, and at the end
    * of the template, after the context, with one.
    */
  lemma BuildRequestFields(prompt: string, systemPrompt: Option<string>, context: Option<string>,
                           images: Option<seq<string>>, modelOverride: Option<string>)
    ensures var r := BuildRequest(prompt, systemPrompt, context, images, modelOverride);
      r.model != "" && (Truthy(modelOverride) ==> r.model == modelOverride.value)
      && (!Truthy(modelOverride) ==> r.model == DefaultModel)
      && r.system != "" && (Truthy(systemPrompt) ==> r.system == systemPrompt.value)
      && (!Truthy(systemPrompt) ==> r.system == DefaultSystem)
      && !r.stream
      && (r.images.Some? <==> images.Some? && |images.value| > 0)
      && (r.images.Some? ==> r.images == images)
  {
  }

  /** Without a context the prompt goes out verbatim; with one, the context follows the head and the query closes the text. */
  lemma WrapPromptParts(prompt: string, context: Option<string>)
    ensures !Truthy(context) ==> WrapPrompt(prompt, context) == prompt
    ensures Truthy(context) ==> var w := WrapPrompt(prompt, context);
      |w| == |ContextHead| + |context.value| + |ContextTail| + |prompt|
      && OccursAt(w, ContextHead, 0) && OccursAt(w, context.value, |ContextHead|)
      && OccursAt(w, ContextTail, |ContextHead| + |context.value|)
      && OccursAt(w, prompt, |w| - |prompt|)
  {
    if Truthy(context) {
      var c := context.value;
      var w := ContextHead + c + ContextTail + prompt;
      ConcatAssoc(ContextHead, c, ContextTail);
      ConcatAssoc(ContextHead + c, ContextTail, prompt);
      ConcatAssoc(ContextHead, c, ContextTail + prompt);
      assert w == ContextHead + (c + (ContextTail + prompt));
      OccursConcat3(w, ContextHead, c, ContextTail + prompt, 0);
      OccursConcat(w, ContextTail, prompt, |ContextHead| + |c|);
    }
  }

  /** What the `catch` block inspects: `error.name`, `error.cause?.code` and `error.message`. */
  datatype Fault = Fault(name: string, causeCode: Option<string>, message: string)

  /** What the model server does with a request: an HTTP reply, or a thrown error (network, abort). */
  datatype Reply =
    | Http(ok: bool, statusText: string, body: Result<string>)
    | Thrown(fault: Fault)

  type Transport = Request -> Reply

  /** The three explanations, in the order they are tried. */
  datatype FaultKind = Timeout | Refused | Details

  function KindOf(f: Fault): FaultKind {
    if f.name == "AbortError" then Timeout
    else if f.causeCode == Some("ECONNREFUSED") then Refused
    else Details
  }

  const Alert: string := "[SYSTEM ALERT]: Neural Core Request Failed."
  const TimeoutNote: string := "\n\nTimeout: " + "The model is taking too long to load (or download)."
  const RefusedHead: string := "\n\nConnection Refused to "
  const RefusedTail: string := ". Is Ollama running?"
  const DetailsHead: string := "\n\nError Details: "
  const Troubleshooting: string :=
    "\n\nTroubleshooting:\n1. Open a terminal.\n2. Run: ollama run mistral\n3. Wait for it to chat, then try here again."

  /** The one explanation chosen for a failure. */
  function Explanation(baseUrl: string, f: Fault): string {
    match KindOf(f)
    case Timeout => TimeoutNote
    case Refused => RefusedHead + baseUrl + RefusedTail
    case Details => DetailsHead + f.message
  }

  /** The text `generate` returns for a failure: the alert, one explanation, the troubleshooting recipe. */
  function Diagnostic(baseUrl: string, f: Fault): (r: string)
    ensures |r| >= |Alert| + 3 + |Troubleshooting|
    ensures r[..|Alert|] == Alert && r[|r| - |Troubleshooting|..] == Troubleshooting
  {
    var e := Explanation(baseUrl, f);
    var r := Alert + e + Troubleshooting;
    assert r[..|Alert|] == Alert;
    assert r[|r| - |Troubleshooting|..] == Troubleshooting;
    r
  }

  /** The failure a non-OK HTTP status throws. */
  function StatusFault(statusText: string): Fault {
    Fault("Error", None, "AI Service Error: " + statusText)
  }

  /** The failure a body that is not JSON throws. */
  function ParseFault(message: string): Fault {
    Fault("SyntaxError", None, message)
  }

  /** `generate`: the `response` field of the reply, or the diagnostic for whatever failed on the way. */
  function Generate(baseUrl: string, transport: Transport, prompt: string, systemPrompt: Option<string>,
                    context: Option<string>, images: Option<seq<string>>, modelOverride: Option<string>): string
  {
    match transport(BuildRequest(prompt, systemPrompt, context, images, modelOverride))
    case Thrown(f) => Diagnostic(baseUrl, f)
    case Http(ok, statusText, body) =>
      if !ok then Diagnostic(baseUrl, StatusFault(statusText))
      else match body
        case Ok(answer) => answer
        case Err(message) => Diagnostic(baseUrl, ParseFault(message))
  }

  /** Reads back which explanation a diagnostic carries, from the first letter after the alert. */
  function ReadKind(d: string): Option<FaultKind> {
    if |d| <= |Alert| + 2 then None
    else if d[|Alert| + 2] == 'T' then Some(Timeout)
    else if d[|Alert| + 2] == 'C' then Some(Refused)
    else if d[|Alert| + 2] == 'E' then Some(Details)
    else None
  }

  /** Exactly one explanation is chosen, in priority abort, refused connection, details, and the text tells which. */
  lemma ReadKindOfDiagnostic(baseUrl: string, f: Fault)
    ensures ReadKind(Diagnostic(baseUrl, f)) == Some(KindOf(f))
  {
    var e := Explanation(baseUrl, f);
    match KindOf(f)
    case Timeout => assert e[2] == TimeoutNote[2] == 'T';
    case Refused => assert e[2] == RefusedHead[2] == 'C';
    case Details => assert e[2] == DetailsHead[2] == 'E';
    MiddleOfConcat(Alert, e, Troubleshooting);
  }

  /** The message a details diagnostic carries, read back from between its head and the recipe. */
  function DetailsOf(d: string): string {
    if |d| >= |Alert| + |DetailsHead| + |Troubleshooting| then d[|Alert| + |DetailsHead|..|d| - |Troubleshooting|]
    else ""
  }

  /** A details diagnostic gives back the error's message unchanged. */
  lemma DetailsRoundTrip(baseUrl: string, f: Fault)
    requires KindOf(f) == Details
    ensures DetailsOf(Diagnostic(baseUrl, f)) == f.message
  {
    ConcatAssoc(Alert, DetailsHead, f.message);
    MiddleOfConcat(Alert + DetailsHead, f.message, Troubleshooting);
  }

  /** A refused connection names the base URL the service was built with. */
  lemma RefusedNamesUrl(baseUrl: string, f: Fault)
    requires KindOf(f) == Refused
    ensures OccursAt(Diagnostic(baseUrl, f), baseUrl, |Alert| + |RefusedHead|)
  {
    var e := RefusedHead + baseUrl + RefusedTail;
    MiddleOfConcat(Alert, e, Troubleshooting);
    MiddleOfConcat(RefusedHead, baseUrl, RefusedTail);
    SliceOfSlice(Alert + e + Troubleshooting, |Alert|, |Alert| + |e|, |RefusedHead|, |RefusedHead| + |baseUrl|);
  }

  /**
    * `generate` never throws: it returns the model's answer exactly when the
    * server answered OK with a JSON body, and a framed diagnostic otherwise;
    * a non-OK status is reported through the details branch with its status text.
    */
  lemma GenerateOutcome(baseUrl: string, transport: Transport, prompt: string, systemPrompt: Option<string>,
                        context: Option<string>, images: Option<seq<string>>, modelOverride: Option<string>)
    ensures var reply := transport(BuildRequest(prompt, systemPrompt, context, images, modelOverride));
      var r := Generate(baseUrl, transport, prompt, systemPrompt, context, images, modelOverride);
      (reply.Http? && reply.ok && reply.body.Ok? ==> r == reply.body.value)
      && (reply.Thrown? ==> r == Diagnostic(baseUrl, reply.fault))
      && (reply.Http? && !reply.ok ==>
            ReadKind(r) == Some(Details) && DetailsOf(r) == "AI Service Error: " + reply.statusText)
      && (reply.Http? && reply.ok && reply.body.Err? ==>
            ReadKind(r) == Some(Details) && DetailsOf(r) == reply.body.message)
  {
    var reply := transport(BuildRequest(prompt, systemPrompt, context, images, modelOverride));
    if reply.Http? && !reply.ok {
      ReadKindOfDiagnostic(baseUrl, StatusFault(reply.statusText));
      DetailsRoundTrip(baseUrl, StatusFault(reply.statusText));
    }
    if reply.Http? && reply.ok && reply.body.Err? {
      ReadKindOfDiagnostic(baseUrl, ParseFault(reply.body.message));
      DetailsRoundTrip(baseUrl, ParseFault(reply.body.message));
    }
  }
}
