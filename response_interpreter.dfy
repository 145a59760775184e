/**
 * Turning the model's raw reply into a verdict: the clean-up of markdown code fences, the
 * fields read from the decoded object with their defaults, the three-tier severity marker
 * and the fail-safe verdict for a reply rejected with a decode error.
 */
module ResponseInterpreter {
  import opened Wrappers
  import opened Text

  const Fence: string := "```"
  const JsonFence: string := "```json"

  /** `s` without `prefix` when it starts with it, otherwise `s` unchanged. */
  function DropPrefix(s: string, prefix: string): (r: string)
    ensures StartsWith(s, prefix) ==> s == prefix + r
    ensures !StartsWith(s, prefix) ==> r == s
  {
    if StartsWith(s, prefix) then s[|prefix|..] else s
  }

  /** `s` without `suffix` when it ends with it, otherwise `s` unchanged. */
  function DropSuffix(s: string, suffix: string): (r: string)
    ensures EndsWith(s, suffix) ==> s == r + suffix
    ensures !EndsWith(s, suffix) ==> r == s
  {
    if EndsWith(s, suffix) then s[..|s| - |suffix|] else s
  }

  /**
   * The clean-up as one expression: strip, cut a leading "```json", then a leading "```",
   * then a trailing "```", strip again. The result never has surrounding whitespace and
   * is always a piece of the reply: nothing is added.
   */
  function Cleaned(generated: string): (r: string)
    ensures NoSurroundingSpace(r)
  {
    Strip(DropSuffix(DropPrefix(DropPrefix(Strip(generated), JsonFence), Fence), Fence))
  }

  /** The clean-up only ever cuts characters away: the result is a slice of the reply. */
  lemma CleanedIsSlice(generated: string)
    ensures IsSliceOf(Cleaned(generated), generated)
  {
    var s0 := Strip(generated);
    var s1 := DropPrefix(s0, JsonFence);
    var s2 := DropPrefix(s1, Fence);
    var s3 := DropSuffix(s2, Fence);
    StripSlice(generated);
    StripSlice(s3);
    SliceSteps(generated, s0, s1, s2, s3, Strip(s3));
  }

  /** Cutting a prefix or a suffix off a slice of `g` leaves a slice of `g`. */
  lemma DropSlice(g: string, i: int, j: int, s: string, p: string)
    requires 0 <= i <= j <= |g| && s == g[i..j]
    ensures exists i', j' :: i <= i' <= j' <= j && DropPrefix(s, p) == g[i'..j']
    ensures exists i', j' :: i <= i' <= j' <= j && DropSuffix(s, p) == g[i'..j']
  {
    if StartsWith(s, p) {
      assert DropPrefix(s, p) == g[i + |p|..j];
    } else {
      assert DropPrefix(s, p) == g[i..j];
    }
    if EndsWith(s, p) {
      assert DropSuffix(s, p) == g[i..j - |p|];
    } else {
      assert DropSuffix(s, p) == g[i..j];
    }
  }

  lemma SliceOfSlice(g: string, i: int, j: int, s: string, r: string)
    requires 0 <= i <= j <= |g| && s == g[i..j]
    requires IsSliceOf(r, s)
    ensures exists i', j' :: i <= i' <= j' <= j && r == g[i'..j']
  {
    var a, b :| 0 <= a <= b <= |s| && r == s[a..b];
    assert |r| == b - a;
    assert forall k :: 0 <= k < |r| ==> r[k] == s[a + k] == g[i + a + k];
    assert r == g[i + a..i + b];
  }

  lemma SliceSteps(g: string, s0: string, s1: string, s2: string, s3: string, r: string)
    requires IsSliceOf(s0, g) && IsSliceOf(r, s3)
    requires s1 == DropPrefix(s0, JsonFence) && s2 == DropPrefix(s1, Fence) && s3 == DropSuffix(s2, Fence)
    ensures IsSliceOf(r, g)
  {
    var i0, j0 :| 0 <= i0 <= j0 <= |g| && s0 == g[i0..j0];
    DropSlice(g, i0, j0, s0, JsonFence);
    var i1, j1 :| i0 <= i1 <= j1 <= j0 && s1 == g[i1..j1];
    DropSlice(g, i1, j1, s1, Fence);
    var i2, j2 :| i1 <= i2 <= j2 <= j1 && s2 == g[i2..j2];
    DropSlice(g, i2, j2, s2, Fence);
    var i3, j3 :| i2 <= i3 <= j3 <= j2 && s3 == g[i3..j3];
    SliceOfSlice(g, i3, j3, s3, r);
  }

  /**
   * The clean-up as the endpoint performs it, rebinding one local variable step by step.
   * The result is the cleaned text: a piece of the reply with no surrounding whitespace.
   */
  method CleanResponse(generated: string) returns (clean: string)
    ensures clean == Cleaned(generated)
    ensures NoSurroundingSpace(clean) && IsSliceOf(clean, generated)
  {
    clean := Strip(generated);
    ghost var step := clean;
    if StartsWith(clean, JsonFence) {
      clean := clean[7..];
    }
    assert clean == DropPrefix(step, JsonFence);
    step := clean;
    if StartsWith(clean, Fence) {
      clean := clean[3..];
    }
    assert clean == DropPrefix(step, Fence);
    step := clean;
    if EndsWith(clean, Fence) {
      clean := clean[..|clean| - 3];
    }
    assert clean == DropSuffix(step, Fence);
    clean := Strip(clean);
    CleanedIsSlice(generated);
  }

  lemma PrefixDropped(prefix: string, rest: string)
    ensures StartsWith(prefix + rest, prefix) && DropPrefix(prefix + rest, prefix) == rest
  {
    assert (prefix + rest)[..|prefix|] == prefix;
    assert (prefix + rest)[|prefix|..] == rest;
  }

  lemma SuffixDropped(rest: string, suffix: string)
    ensures EndsWith(rest + suffix, suffix) && DropSuffix(rest + suffix, suffix) == rest
  {
    var t := rest + suffix;
    assert t[|t| - |suffix|..] == suffix;
    assert t[..|t| - |suffix|] == rest;
  }

  /** A text that starts with "```json" starts with "```". */
  lemma JsonFenceStartsWithFence(s: string)
    requires StartsWith(s, JsonFence)
    ensures StartsWith(s, Fence)
  {
    assert s[..|Fence|] == s[..|JsonFence|][..|Fence|];
  }

  /** A reply without fences comes out as its own content, whatever whitespace surrounds it. */
  lemma CleanedUnfenced(before: string, s: string, after: string)
    requires AllSpace(before) && AllSpace(after) && NoSurroundingSpace(s)
    requires !StartsWith(s, Fence) && !EndsWith(s, Fence)
    ensures Cleaned(before + s + after) == s
  {
    StripPadded(before, s, after);
    if StartsWith(s, JsonFence) {
      JsonFenceStartsWithFence(s);
    }
    assert DropPrefix(s, JsonFence) == s;
    StripPadded([], s, []);
    assert [] + s + [] == s;
  }

  /** The text `before + t + after` is `t` once stripped, when `t` opens and closes with a backtick. */
  lemma StripAroundFenced(before: string, t: string, after: string)
    requires AllSpace(before) && AllSpace(after)
    requires |t| > 0 && t[0] == '`' && t[|t| - 1] == '`'
    ensures Strip(before + t + after) == t
  {
    StripPadded(before, t, after);
  }

  /** Strip of `t` once cut; the common tail of both fence lemmas. */
  lemma DropClosingFence(ws1: string, s: string, ws2: string)
    requires AllSpace(ws1) && AllSpace(ws2) && NoSurroundingSpace(s)
    ensures Strip(DropSuffix(ws1 + s + ws2 + Fence, Fence)) == s
  {
    SuffixDropped(ws1 + s + ws2, Fence);
    StripPadded(ws1, s, ws2);
  }

  lemma TakeOfAppend(a: string, b: string, n: nat)
    ensures n <= |a| ==> n <= |a + b| && (a + b)[..n] == a[..n]
  {
  }

  /**
   * When the text after "```json" starts with "```" again although the content does not,
   * nothing separates the fences from the content, and the content is empty or one or two
   * backticks.
   */
  lemma GluedFence(ws1: string, s: string, ws2: string)
    requires AllSpace(ws1) && AllSpace(ws2) && !StartsWith(s, Fence)
    requires StartsWith(ws1 + s + ws2 + Fence, Fence)
    ensures ws1 == [] && ws2 == [] && |s| < 3
    ensures forall k :: 0 <= k < |s| ==> s[k] == '`'
    ensures DropPrefix(ws1 + s + ws2 + Fence, Fence) == s
  {
    var s1 := ws1 + s + ws2 + Fence;
    assert s1[0] == '`';
    assert ws1 == [];
    assert s1 == s + (ws2 + Fence);
    TakeOfAppend(s, ws2 + Fence, 3);
    assert |s| < 3;
    assert s1[|s|] == '`';
    assert ws2 == [];
    assert s1 == s + Fence;
    assert forall k :: 0 <= k < |s| ==> s[k] == s1[k] == '`';
    var s2 := s1[3..];
    assert |s2| == |s|;
    assert forall k :: 0 <= k < |s| ==> s2[k] == s1[3 + k] == '`';
    assert s2 == s;
  }

  /**
   * What is left after "```json": cutting a further leading "```" (possible only when the
   * content is empty or one or two backticks glued to the fences) and the closing fence, then
   * stripping, gives the content.
   */
  lemma AfterJsonFence(ws1: string, s: string, ws2: string)
    requires AllSpace(ws1) && AllSpace(ws2) && NoSurroundingSpace(s) && !StartsWith(s, Fence)
    ensures Strip(DropSuffix(DropPrefix(ws1 + s + ws2 + Fence, Fence), Fence)) == s
  {
    var s1 := ws1 + s + ws2 + Fence;
    if StartsWith(s1, Fence) {
      GluedFence(ws1, s, ws2);
      assert DropSuffix(s, Fence) == s;
      StripPadded([], s, []);
      assert [] + s + [] == s;
    } else {
      DropClosingFence(ws1, s, ws2);
    }
  }

  /**
   * Content fenced as "```json" ... "```", with any whitespace inside and outside the
   * fences, comes out as the content, provided the content does not itself start with
   * the fence.
   */
  lemma CleanedJsonFenced(before: string, ws1: string, s: string, ws2: string, after: string)
    requires AllSpace(before) && AllSpace(ws1) && AllSpace(ws2) && AllSpace(after)
    requires NoSurroundingSpace(s) && !StartsWith(s, Fence)
    ensures Cleaned(before + (JsonFence + ws1 + s + ws2 + Fence) + after) == s
  {
    var rest := ws1 + s + ws2 + Fence;
    var t := JsonFence + ws1 + s + ws2 + Fence;
    assert t == JsonFence + rest;
    assert t[0] == '`' && t[|t| - 1] == '`';
    StripAroundFenced(before, t, after);
    PrefixDropped(JsonFence, rest);
    AfterJsonFence(ws1, s, ws2);
  }

  /** A text "```" + rest read as starting with "```json" has a rest starting with "json". */
  lemma JsonTagged(rest: string)
    requires StartsWith(Fence + rest, JsonFence)
    ensures StartsWith(rest, "json")
  {
    var t := Fence + rest;
    assert t[3..7] == JsonFence[3..7] == "json";
    assert rest[..4] == t[3..7];
  }

  /** With the opening "```" not followed by "json", the fence is not read as "```json". */
  lemma AfterPlainFence(ws1: string, s: string, ws2: string)
    requires AllSpace(ws1) && AllSpace(ws2) && NoSurroundingSpace(s)
    requires ws1 != [] || !StartsWith(s, "json")
    ensures !StartsWith(Fence + (ws1 + s + ws2 + Fence), JsonFence)
  {
    var rest := ws1 + s + ws2 + Fence;
    assert rest == (ws1 + s) + (ws2 + Fence);
    TakeOfAppend(ws1 + s, ws2 + Fence, 4);
    assert ws1 != [] ==> rest[0] == ws1[0];
    assert |ws1 + s| < 4 ==> rest[|ws1 + s|] == (ws2 + Fence)[0];
    assert IsSpace((ws2 + Fence)[0]) || (ws2 + Fence)[0] == '`';
    if StartsWith(Fence + rest, JsonFence) {
      JsonTagged(rest);
    }
  }

  /**
   * Content fenced as "```" ... "```", with any whitespace inside and outside the fences,
   * comes out as the content, provided the opening fence is not read as "```json": some
   * whitespace follows the fence, or the content does not start with "json".
   */
  lemma CleanedPlainFenced(before: string, ws1: string, s: string, ws2: string, after: string)
    requires AllSpace(before) && AllSpace(ws1) && AllSpace(ws2) && AllSpace(after)
    requires NoSurroundingSpace(s)
    requires ws1 != [] || !StartsWith(s, "json")
    ensures Cleaned(before + (Fence + ws1 + s + ws2 + Fence) + after) == s
  {
    var rest := ws1 + s + ws2 + Fence;
    var t := Fence + ws1 + s + ws2 + Fence;
    assert t == Fence + rest;
    assert t[0] == '`' && t[|t| - 1] == '`';
    StripAroundFenced(before, t, after);
    AfterPlainFence(ws1, s, ws2);
    PrefixDropped(Fence, rest);
    DropClosingFence(ws1, s, ws2);
  }

  /**
   * Why the plain-fence lemma needs its last premise: content that starts with "json"
   * right after "```" loses those four letters.
   */
  lemma PlainFenceSwallowsJsonWord(x: string)
    requires NoSurroundingSpace(x) && !StartsWith(x, Fence)
    ensures Cleaned(Fence + ("json" + x) + Fence) == x
  {
    var e: string := [];
    assert JsonFence == Fence + "json";
    assert e + (JsonFence + e + x + e + Fence) + e == Fence + ("json" + x) + Fence;
    CleanedJsonFenced(e, e, x, e, e);
  }

  // ---------------------------------------------------------------------------------
  // Verdicts

  /** The part of a decoded JSON object the endpoint reads; an absent key is `None`. */
  datatype Fields = Fields(status: Option<string>, riskScore: Option<int>, explanation: Option<string>)

  /**
   * What decoding the cleaned reply gives: a decode error, an object, some other JSON
   * value (a list, a number, a string ...) named by its Python type, or another error the
   * decoder raises (an over-long integer literal, nesting past the recursion limit),
   * with its message.
   */
  datatype Decoded =
    | DecodeError
    | Object(fields: Fields)
    | NonObject(typeName: string)
    | DecoderFailed(message: string)

  /** The verdict returned to the caller. */
  datatype AuditResponse = AuditResponse(status: string, riskScore: int, explanation: string)

  const DefaultStatus: string := "Unknown"
  const DefaultScore: int := 0
  const DefaultExplanation: string := "No explanation provided."

  datatype Severity = High | Medium | Low

  /** The severity tier of a risk score: at least 80 is high, at least 40 medium, the rest low. */
  function SeverityOf(score: int): (t: Severity)
    ensures t == High <==> score >= 80
    ensures t == Medium <==> 40 <= score < 80
    ensures t == Low <==> score < 40
  {
    if score >= 80 then High else if score >= 40 then Medium else Low
  }

  const RedMarker: string := "\U{1F534}"
  const YellowMarker: string := "\U{1F7E1}"
  const GreenMarker: string := "\U{1F7E2}"

  /** The marker of a tier: one code point, a different one for each tier. */
  function Marker(t: Severity): (m: string)
    ensures |m| == 1
    ensures m == RedMarker <==> t == High
    ensures m == YellowMarker <==> t == Medium
    ensures m == GreenMarker <==> t == Low
  {
    match t
    case High => RedMarker
    case Medium => YellowMarker
    case Low => GreenMarker
  }

  /** The status shown to the caller: the tier's marker, a space, the model's status. */
  function Decorate(score: int, rawStatus: string): (d: string)
    ensures |d| == |rawStatus| + 2
    ensures [d[0]] == Marker(SeverityOf(score)) && d[1] == ' ' && d[2..] == rawStatus
  {
    var d := Marker(SeverityOf(score)) + " " + rawStatus;
    assert d == Marker(SeverityOf(score)) + (" " + rawStatus);
    d
  }

  /** Reads a decorated status back into its tier and the model's status. */
  function Undecorate(status: string): Option<(Severity, string)> {
    if |status| < 2 || status[1] != ' ' then None
    else if [status[0]] == RedMarker then Some((High, status[2..]))
    else if [status[0]] == YellowMarker then Some((Medium, status[2..]))
    else if [status[0]] == GreenMarker then Some((Low, status[2..]))
    else None
  }

  /** The decoration can always be read back: the marker names the tier and the rest is the raw status. */
  lemma DecorateRoundTrip(score: int, rawStatus: string)
    ensures Undecorate(Decorate(score, rawStatus)) == Some((SeverityOf(score), rawStatus))
  {
    var d := Decorate(score, rawStatus);
    assert d == Marker(SeverityOf(score)) + (" " + rawStatus);
    assert d[2..] == rawStatus;
  }

  /** The three markers are different, so the marker alone tells the tier. */
  lemma MarkersDistinct(a: Severity, b: Severity)
    requires Marker(a) == Marker(b)
    ensures a == b
  {
  }

  /**
   * The verdict for a reply that decoded to an object. Each present field is passed
   * through, each absent one takes its default, and the status carries the marker of the
   * tier of the score actually returned.
   */
  function FromFields(f: Fields): (v: AuditResponse)
    ensures f.riskScore.Some? ==> v.riskScore == f.riskScore.value
    ensures f.riskScore.None? ==> v.riskScore == DefaultScore
    ensures f.explanation.Some? ==> v.explanation == f.explanation.value
    ensures f.explanation.None? ==> v.explanation == DefaultExplanation
    ensures Undecorate(v.status) == Some((SeverityOf(v.riskScore), f.status.GetOr(DefaultStatus)))
  {
    var score := f.riskScore.GetOr(DefaultScore);
    var rawStatus := f.status.GetOr(DefaultStatus);
    DecorateRoundTrip(score, rawStatus);
    AuditResponse(Decorate(score, rawStatus), score, f.explanation.GetOr(DefaultExplanation))
  }

  /** An object without any of the three keys gives a low-risk "Unknown" verdict with score 0. */
  lemma EmptyObjectVerdict()
    ensures FromFields(Fields(None, None, None))
      == AuditResponse(GreenMarker + " " + DefaultStatus, 0, DefaultExplanation)
  {
  }

  /** An object with all three keys is reproduced, the status behind its tier's marker. */
  lemma FullObjectVerdict(status: string, score: int, explanation: string)
    ensures FromFields(Fields(Some(status), Some(score), Some(explanation)))
      == AuditResponse(Marker(SeverityOf(score)) + " " + status, score, explanation)
  {
  }

  const ParseFailurePrefix: string := "Failed to parse model response. Raw response: "

  /**
   * The fail-safe verdict for a reply rejected with a decode error: status "Error", the
   * highest risk, and the reply as the model sent it, before any clean-up.
   */
  function ParseFailure(generated: string): (v: AuditResponse)
    ensures v.status == "Error" && v.riskScore == 100
    ensures |v.explanation| == |ParseFailurePrefix| + |generated|
    ensures v.explanation[..|ParseFailurePrefix|] == ParseFailurePrefix
    ensures v.explanation[|ParseFailurePrefix|..] == generated
  {
    AuditResponse("Error", 100, ParseFailurePrefix + generated)
  }

  /** The message of the error raised when `.get` is called on a decoded value that is not an object. */
  function NoGetMessage(typeName: string): string {
    "'" + typeName + "'" + NoGetTail
  }

  const NoGetTail: string := " object has no attribute 'get'"

  /** The message names the decoded value's type, between single quotes, then the fixed tail. */
  lemma NoGetMessageNamesType(typeName: string)
    ensures var m, n := NoGetMessage(typeName), |typeName|;
      && m[0] == '\'' && m[1..n + 1] == typeName && m[n + 1] == '\''
      && m[n + 2..] == NoGetTail
  {
    SingleQuotedAt(typeName, NoGetTail);
  }

  lemma SingleQuotedAt(x: string, tail: string)
    ensures var m, n := "'" + x + "'" + tail, |x|;
      && m[0] == '\'' && m[1..n + 1] == x && m[n + 1] == '\'' && m[n + 2..] == tail
  {
    var m := "'" + x + "'" + tail;
    assert m[1..|x| + 1] == x;
    assert m[|x| + 2..] == tail;
  }
}
