/**
 * The audit endpoint: reject the request when no model client is configured, otherwise
 * build the prompt, ask the model, clean and decode its reply, and turn the result into
 * a verdict. A reply rejected with a decode error is still answered, with the fail-safe
 * verdict; a failing model call or any other decoder error is answered with a server
 * error and never with a verdict.
 */
module AuditService {
  import opened Wrappers
  import opened Text
  import opened PromptBuilder
  import opened ResponseInterpreter

  /** What one call to the hosted model gives: its text, or the message of the error it raised. */
  datatype Generation = Generated(text: string) | GenerationFailed(message: string)

  /** The model client, fixed at startup: absent, or a generation oracle from prompt to reply. */
  datatype ModelClient = Unavailable | Available(generate: string -> Generation)

  /** What the caller receives: a verdict, or an HTTP error with its status code and detail. */
  datatype Outcome = Responded(response: AuditResponse) | HttpError(statusCode: int, detail: string)

  const UnavailableDetail: string := "AI Model not initialized. Check server logs/configuration."

  /**
   * The guarded part of the request: one model call, the clean-up, decoding and the
   * verdict. A model error, a non-object reply and any decoder error other than a decode
   * error become 500s; a reply the decoder rejects with a decode error becomes the
   * fail-safe verdict, which quotes the reply as the model sent it.
   */
  method GenerateAndInterpret(generate: string -> Generation, decode: string -> Decoded, prompt: string)
    returns (outcome: Outcome)
    ensures match generate(prompt)
      case GenerationFailed(message) =>
        outcome == HttpError(500, message)
      case Generated(generated) =>
        match decode(Cleaned(generated))
        case DecodeError => outcome == Responded(ParseFailure(generated))
        case NonObject(typeName) => outcome == HttpError(500, NoGetMessage(typeName))
        case DecoderFailed(message) => outcome == HttpError(500, message)
        case Object(fields) => outcome == Responded(FromFields(fields))
  {
    match generate(prompt)
    case GenerationFailed(message) =>
      outcome := HttpError(500, message);
    case Generated(generated) =>
      var clean := CleanResponse(generated);
      match decode(clean)
      case DecodeError =>
        outcome := Responded(ParseFailure(generated));
      case NonObject(typeName) =>
        outcome := HttpError(500, NoGetMessage(typeName));
      case DecoderFailed(message) =>
        outcome := HttpError(500, message);
      case Object(fields) =>
        outcome := Responded(FromFields(fields));
  }

  /**
   * One audit request. `decode` stands for the JSON decoder applied to the cleaned reply;
   * `sent` lists the prompts given to the model, in order.
   */
  method AuditContract(client: ModelClient, decode: string -> Decoded, request: AuditRequest)
    returns (outcome: Outcome, sent: seq<string>)
    // No client: 503, and the model is never asked.
    ensures client.Unavailable? <==> outcome == HttpError(503, UnavailableDetail)
    ensures client.Unavailable? ==> sent == []
    // A client: the prompt built from the request is the one recorded as sent, and the
    // oracle's answer to it decides the outcome.
    ensures client.Available? ==> sent == [BuildPrompt(request)]
    ensures client.Available? ==>
      match client.generate(BuildPrompt(request))
      case GenerationFailed(message) =>
        outcome == HttpError(500, message)
      case Generated(generated) =>
        match decode(Cleaned(generated))
        case DecodeError => outcome == Responded(ParseFailure(generated))
        case NonObject(typeName) => outcome == HttpError(500, NoGetMessage(typeName))
        case DecoderFailed(message) => outcome == HttpError(500, message)
        case Object(fields) => outcome == Responded(FromFields(fields))
    // Every verdict comes from a reply the model did produce.
    ensures outcome.Responded? ==> client.Available? && client.generate(BuildPrompt(request)).Generated?
  {
    if client.Unavailable? {
      return HttpError(503, UnavailableDetail), [];
    }
    var prompt := BuildPrompt(request);
    outcome := GenerateAndInterpret(client.generate, decode, prompt);
    sent := [prompt];
  }

  /**
   * The fail-safe verdict for a reply rejected with a decode error is in the highest tier
   * and quotes the reply unchanged after the fixed prefix.
   */
  lemma ParseFailureIsMaximalRisk(generated: string)
    ensures var v := ParseFailure(generated);
      && v.status == "Error" && v.riskScore == 100 && SeverityOf(v.riskScore) == High
      && v.explanation[..|ParseFailurePrefix|] == ParseFailurePrefix
      && v.explanation[|ParseFailurePrefix|..] == generated
  {
  }

  /**
   * A client of the endpoint: a stub model answers with an object wrapped in a "```json"
   * fence on lines of its own, and the decoder reads the object's three fields. The
   * verdict then carries the score and explanation unchanged and the status behind the
   * marker of its tier, so a high-risk status reads, for instance, RedMarker + " Non-Compliant".
   */
  method FencedReplyExample(request: AuditRequest, body: string, status: string, score: int, explanation: string)
    returns (outcome: Outcome)
    requires NoSurroundingSpace(body) && !StartsWith(body, Fence)
    ensures outcome == Responded(AuditResponse(Marker(SeverityOf(score)) + " " + status, score, explanation))
    ensures score >= 80 ==> outcome.response.status == RedMarker + " " + status
  {
    var reply := JsonFence + "\n" + body + "\n" + Fence;
    CleanedJsonFenced([], "\n", body, "\n", []);
    assert [] + reply + [] == reply;
    var fields := Fields(Some(status), Some(score), Some(explanation));
    var client := Available(_ => Generated(reply));
    var decode := (s: string) => if s == body then Object(fields) else DecodeError;
    var sent;
    outcome, sent := AuditContract(client, decode, request);
    FullObjectVerdict(status, score, explanation);
  }
}
