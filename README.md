# Compliance Hawk audit endpoint, modelled in Dafny

Compliance Hawk is a small web service. It asks a hosted language model whether a
contract clause complies with a regulation rule. This project models its one endpoint,
`POST /audit_contract`, from the moment a request has been parsed to the moment a
verdict or an HTTP error goes back to the caller. The model covers five steps:

- **Availability guard.** No model client means a 503 error, and the model is never asked.
- **Prompt builder.** A fixed instruction template takes the contract clause and the
  regulation rule. Each goes in verbatim between double quotes, with nothing escaped.
  - An omitted rule defaults to "Indian Labor Law Standards".
  - A rule explicitly set to null renders as the word "None".
- **Fence clean-up.** The reply is stripped of whitespace the way Python's `str.strip()`
  does it. Then an opening "```json", an opening "```" and a closing "```" are each cut
  if present, and the text is stripped again.
- **Verdict construction.** The decoded object's `status`, `risk_score` and
  `explanation` are read with their defaults. The status is then prefixed with a red,
  yellow or green marker for the severity tier of the score.
- **Error routing.**
  - A reply that `json.loads` rejects with a JSON decode error is still answered, with
    the fail-safe verdict ("Error", 100, the raw reply quoted).
  - Any other error the decoder raises gives a 500 error carrying its message. Examples
    are a ValueError for an integer literal over the digit limit and a RecursionError
    for nesting that is too deep.
  - A failing model call gives a 500 error carrying the error's message. This assumes the
    error is not itself a JSON decode error; see "## Left out".
  - A decoded value that is not an object also gives a 500 error.

Files:

- `wrappers.dfy`: `Option`, standing for a dictionary lookup with a default.
- `text.dfy`: `str.strip()` over Python's whitespace set, `startswith` and `endswith`.
- `prompt_builder.dfy`: the request and its defaulting, and the prompt template with its
  positional properties.
- `response_interpreter.dfy`: the clean-up, as a method and as its specification
  function; the fence lemmas; severity tiers, markers and the verdict.
- `audit_service.dfy`: the endpoint as a method over an abstract model client and an
  abstract JSON decoder.

Three things the service depends on are parameters of the model rather than parts of it:

- **The hosted model** is an oracle `string -> Generation`. It gives back either a
  text or the message of the error it raised.
- **The JSON decoder** is a function from the cleaned text to one of four results:
  - a decode error;
  - an object's three optional fields;
  - a non-object value, named by its Python type;
  - any other error the decoder raises, with its message.
- **The configured client** is `Unavailable` or `Available(generate)`.

`AuditContract` also returns `sent`, the prompts the method hands to the model. With no
client, `sent` is empty, no prompt is built and the model is never reached. With a client,
`sent` is the one prompt built from the request, and the outcome is determined by what
the oracle returns for that prompt. `sent` is a record the method keeps, not an
observation of the oracle itself. So the contracts do not rule out further calls to the
oracle whose results go unused; since the oracle is a pure function, such calls cannot
change the outcome.

## Model

| member | source | states |
|---|---|---|
| AuditService.AuditContract | main.py:70-146 | No client gives exactly HttpError(503, the fixed detail), and no prompt is recorded as sent. With a client, the recorded prompt is the one built from the request, and the outcome is a function of the oracle's answer to it. A failed generation gives HttpError(500, its message). A decode error gives the fail-safe verdict on the uncleaned reply. Any other decoder error gives HttpError(500, its message). A non-object gives a 500 with the `.get` error message. An object gives its verdict. Every verdict comes from a successful generation. |
| AuditService.GenerateAndInterpret | main.py:103-146 | The guarded part: generation failure gives a 500, never a verdict. The cleaned reply's decoding selects among four outcomes: the fail-safe verdict for a decode error, a 500 with the message for any other decoder error, the 500 for a non-object, or the object's verdict. |
| ResponseInterpreter.ParseFailure | main.py:140-144 | The fail-safe verdict has status "Error" and score 100. Its explanation is the fixed prefix "Failed to parse model response. Raw response: " followed by the reply exactly as generated. |
| AuditService.ParseFailureIsMaximalRisk | main.py:138-144 | The fail-safe verdict has status "Error" and score 100, which is in the high tier. Its explanation is the fixed prefix followed by the reply exactly as generated. |
| PromptBuilder.MakeRequest | main.py:60-62 | The clause is kept. An omitted rule becomes "Indian Labor Law Standards", an explicit null stays null, and a given rule is kept. |
| PromptBuilder.OmittedRuleUsesDefault | main.py:62 | With the rule omitted, the prompt holds "Indian Labor Law Standards" at the rule position, followed by the closing quote. |
| PromptBuilder.NullRuleRendersNone | main.py:81 | With the rule null, the prompt holds the word "None" at the rule position, between quotes. |
| PromptBuilder.RuleText | main.py:81 | A rule that is present is substituted as is. A null rule is substituted as the word "None". |
| PromptBuilder.Render | main.py:77-101 | The f-string: preamble, quoted clause, middle text, quoted rule, instructions. Its positional facts are stated by RenderClause and RenderRule. |
| PromptBuilder.BuildPrompt | main.py:77-101 | The endpoint's prompt is the audit template, whose three fixed parts are the text of the f-string, filled in with the request's clause and rule text. RenderClause and RenderRule give its layout. |
| PromptBuilder.PromptOf | main.py:80-81 | The request's clause and the text of its rule are substituted into the template. RenderClause and RenderRule give the layout. |
| PromptBuilder.QuotedAt | main.py:80-81 | In before + quoted x + after, `x` sits right after `before`, between two double quotes, and `after` follows. |
| PromptBuilder.RenderClause | main.py:77-80 | The prompt's length is fixed by its parts. It opens with the preamble, then the clause verbatim between double quotes. |
| PromptBuilder.RenderRule | main.py:80-101 | After the clause come the fixed middle text and the rule verbatim between double quotes. The instructions close the prompt. |
| PromptBuilder.RenderDeterminesInputs | main.py:80-81 | Nothing is escaped or lost. Two prompts with clauses of equal length are equal only if their clauses and rules are equal. |
| Text.IsSpace | main.py:108 | Exactly the characters Python's `str.isspace()` accepts, which are the ones `strip()` removes at both of its calls (lines 108 and 116). |
| Text.StartsWith | main.py:109-113 | Python's `str.startswith`, used at lines 109 and 111: the text is at least as long as the prefix and begins with it. |
| Text.EndsWith | main.py:113 | Python's `str.endswith`: the text is at least as long as the suffix and ends with it. |
| Text.SkipSpace | main.py:108 | The forward scan of `strip()` stops at an index at or after its start. Everything it passes is whitespace. It stops at the end or at a non-whitespace character. |
| Text.SkipSpaceBack | main.py:108 | The backward scan of `strip()` never goes below its lower bound. Everything it passes is whitespace. It stops at that bound or right after a non-whitespace character. |
| Text.SkipSpaceAt | main.py:108 | The forward scan stops at the first non-whitespace index, so its result is determined. |
| Text.SkipSpaceBackAt | main.py:108 | The backward scan stops right after the last non-whitespace character above its bound, so its result is determined. |
| Text.Strip | main.py:108 | The result has no leading or trailing whitespace. |
| Text.StripSlice | main.py:108 | The stripped text is a piece s[i..j] of the input, with only whitespace before i and after j. |
| Text.StripPadded | main.py:108 | Stripping whitespace-padded text with no surrounding whitespace of its own gives that text back. |
| Text.StripIdempotent | main.py:108 | Stripping twice is the same as stripping once. |
| Text.StripEmptyIffAllSpace | main.py:108 | The stripped text is empty if and only if the input is all whitespace. |
| ResponseInterpreter.DropPrefix | main.py:109-112 | The conditional cut of an opening fence: a text that starts with the prefix is the prefix followed by the result; any other text is kept unchanged. |
| ResponseInterpreter.DropSuffix | main.py:113-114 | The conditional cut of the closing fence: a text that ends with the suffix is the result followed by the suffix; any other text is kept unchanged. |
| Wrappers.Option.GetOr | main.py:121-122 | `dict.get` with a default, also used at line 135: a present value is returned, an absent one gives the default. |
| ResponseInterpreter.CleanResponse | main.py:108-116 | The step-by-step clean-up computes the specification function `Cleaned`. Its result has no surrounding whitespace and is a piece of the reply. |
| ResponseInterpreter.Cleaned | main.py:108-116 | The cleaned text has no leading or trailing whitespace. |
| ResponseInterpreter.CleanedIsSlice | main.py:108-116 | The clean-up only cuts: the cleaned text is a contiguous piece of the reply. |
| ResponseInterpreter.CleanedUnfenced | main.py:108-116 | Text with no surrounding whitespace, neither starting nor ending with "```", comes out unchanged, whatever whitespace surrounds it. |
| ResponseInterpreter.CleanedJsonFenced | main.py:108-116 | Content in a "```json" ... "```" fence, with any whitespace inside and outside, comes out as the content, provided the content does not start with "```". |
| ResponseInterpreter.CleanedPlainFenced | main.py:108-116 | Content in a "```" ... "```" fence, with any whitespace inside and outside, comes out as the content, provided the opening fence cannot be read as "```json". |
| ResponseInterpreter.PlainFenceSwallowsJsonWord | main.py:109-112 | A plain fence glued to content that starts with "json" loses those four letters. "```" + "json" + x + "```" cleans to x. |
| ResponseInterpreter.GluedFence | main.py:110-112 | A second "```" straight after "```json", with content not starting with "```", is possible only when no whitespace separates content and fences and the content is empty or one or two backticks. Cutting it then leaves the content. |
| ResponseInterpreter.AfterPlainFence | main.py:109 | An opening "```" followed by whitespace, or by content not starting with "json", is not taken for "```json". |
| ResponseInterpreter.SeverityOf | main.py:125-130 | High if and only if the score is at least 80. Medium if and only if it is in 40..79. Low if and only if it is below 40. |
| ResponseInterpreter.Marker | main.py:125-130 | Each tier's marker is a single code point. It is the red marker exactly for the high tier, the yellow one exactly for the medium tier, and the green one exactly for the low tier. |
| ResponseInterpreter.Decorate | main.py:125-130 | The shown status is two characters longer than the raw status: the marker of the score's tier, one space, then the raw status unchanged. |
| ResponseInterpreter.MarkersDistinct | main.py:126-130 | The red, yellow and green markers differ, so the marker identifies the tier. |
| ResponseInterpreter.DecorateRoundTrip | main.py:125-130 | The decorated status reads back as its tier and the raw status: marker, one space, raw status. |
| ResponseInterpreter.FromFields | main.py:121-135 | Present score and explanation pass through unchanged; absent ones become 0 and "No explanation provided.". The status is the marker of the tier of the returned score, a space, and the model's status or "Unknown". |
| ResponseInterpreter.EmptyObjectVerdict | main.py:121-135 | An object with none of the three keys gives (green marker + " Unknown", 0, "No explanation provided."). |
| ResponseInterpreter.NoGetMessage | main.py:145-146 | The text of the AttributeError raised by `.get` on a decoded value that is not an object (main.py:121). It becomes the 500 detail. NoGetMessageNamesType states its shape. |
| ResponseInterpreter.NoGetMessageNamesType | main.py:145-146 | The 500 detail for a decoded value that is not an object names that value's Python type between single quotes and says it has no attribute 'get'. |
| AuditService.FencedReplyExample | main.py:105-136 | A stub model answers with an object in a "```json" fence on lines of its own. The verdict carries the score and explanation unchanged and the status behind its tier's marker, for instance the red marker + " Non-Compliant" for a score of 100. |
| ResponseInterpreter.FullObjectVerdict | main.py:121-135 | An object with all three keys gives (the marker of its tier + " " + status, score, explanation). |

## Left out

- Client construction and configuration (main.py:1-58) are not modelled: environment
  variables, the watsonx `Model` object and its credentials. The client is a parameter,
  either absent or a generation oracle.
- The hosted model's generation (`generate_text`) is an uninterpreted oracle. Its
  network behaviour, latency and nondeterminism across calls are not modelled.
- `GenerationFailed` stands for an error raised by `generate_text` that is not a JSON
  decode error. If the client library raised an exception derived from
  `json.JSONDecodeError` (main.py:105), the handler at main.py:138-144 would catch it.
  That handler reads the never-assigned `generated_response` and so fails itself with an
  UnboundLocalError, which escapes both handlers. The caller would then get the web
  framework's generic 500 rather than `HTTPException(500, str(e))`. The model does not
  cover that path.
- The internals of `json.loads` are outside the model; the decoder is a parameter.
- Not modelled: a decoded `risk_score` that is not an integer. The fields record holds an
  integer score only.
  - A string or null score raises a TypeError at the `>= 80` comparison (main.py:125).
    The request then becomes a 500 through the generic handler (main.py:145-146).
  - A float is compared without error and tiered. What follows depends on the response
    model's `int` validation (main.py:66, 132-136). An integral float such as 85.0 would
    pass and give a verdict. A fractional one would fail validation under pydantic 2, and
    that error reaches the 500 handler. Pydantic 1 would instead truncate it, to 85 for
    85.5, and give a verdict. The source does not pin the pydantic version, so this
    paragraph assumes pydantic 2.
  - A JSON `true` or `false` compares as 1 or 0, is tiered green, and passes validation.
- Not modelled: non-string `status` or `explanation` values. Neither is the response
  validation the web framework applies to them.
- FastAPI routing and the `HTTPException` machinery are not modelled. HTTP errors are the
  `HttpError(statusCode, detail)` outcome.
- Not modelled: the request body's validation, beyond the rule being omitted, null or
  given.
- The `/` endpoint and the `uvicorn` start-up are not modelled.
- `export_openapi.py`, `test_connect.py` and `test_strict_mode.py` are not part of this
  model. They are schema export and live HTTP smoke scripts.
  - The strict-mode script expects the status to be exactly "Non-Compliant".
  - The endpoint prefixes every status with a marker, so that expectation is not
    encoded.
  - `AuditService.FencedReplyExample` shows the prefixed status a fenced reply
    actually gets.
- No bound on `risk_score` is claimed. The endpoint passes the model's score through
  without clamping it to 0..100.
- ResponseInterpreter.CleanedPlainFenced: this lemma carries a premise that a general
  "fenced content comes back unchanged" statement would not. Some whitespace must follow
  the opening "```", or the content must not start with "json". Without it the fence is
  read as "```json", and `PlainFenceSwallowsJsonWord` shows what is then lost.
