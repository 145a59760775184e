/**
 * The audit request and the instruction prompt built from it. The prompt is one fixed
 * template with two substitution points, the contract clause and the regulation rule,
 * each placed between double quotes exactly as given: nothing is escaped.
 */
module PromptBuilder {
  import opened Wrappers

  /** The rule used when the request does not mention one. */
  const DefaultRule: string := "Indian Labor Law Standards"

  /** How the `regulation_rule` field appears in a request body. */
  datatype RuleField = Omitted | Null | Given(rule: string)

  /** A parsed request; a rule of `None` is one the body set to null explicitly. */
  datatype AuditRequest = AuditRequest(contractText: string, regulationRule: Option<string>)

  /** An omitted rule takes the default; an explicit null stays null. */
  function MakeRequest(contractText: string, field: RuleField): (r: AuditRequest)
    ensures r.contractText == contractText
    ensures field.Omitted? ==> r.regulationRule == Some(DefaultRule)
    ensures field.Null? ==> r.regulationRule.None?
    ensures field.Given? ==> r.regulationRule == Some(field.rule)
  {
    match field
    case Omitted => AuditRequest(contractText, Some(DefaultRule))
    case Null => AuditRequest(contractText, None)
    case Given(rule) => AuditRequest(contractText, Some(rule))
  }

  /** The text an f-string substitutes for the rule: Python renders `None` as "None". */
  function RuleText(rule: Option<string>): (text: string)
    ensures rule.Some? ==> text == rule.value
    ensures rule.None? ==> text == "None"
  {
    rule.GetOr("None")
  }

  /**
   * A prompt template: fixed text before the quoted clause, between the quoted clause and
   * the quoted rule, and after the quoted rule.
   */
  datatype PromptTemplate = PromptTemplate(preamble: string, between: string, instructions: string)

  /** The template the audit endpoint uses: a step-by-step notice-period comparison. */
  const AuditTemplate: PromptTemplate := PromptTemplate(
    "[INST] You are a Compliance Audit Engine. Your ONLY job is to compare the Contract Clause against the Regulation Rule.\n"
    + "\n"
    + "    INPUT DATA:\n"
    + "    - Contract Clause: ",
    "\n    - Regulation Rule: ",
    "\n"
    + "\n"
    + "    LOGIC STEPS:\n"
    + "    1. Extract the number of days mentioned in the Contract Clause (e.g., 7, 30, 90).\n"
    + "    2. Extract the minimum days required by the Regulation Rule (e.g., 30).\n"
    + "    3. Compare: If Contract Days < Regulation Days -> NON-COMPLIANT (Risk 100).\n"
    + "    4. Compare: If Contract Days >= Regulation Days -> COMPLIANT (Risk 0).\n"
    + "    5. Exception: If no notice period is found in the contract -> NON-COMPLIANT (Risk 100).\n"
    + "\n"
    + "    OUTPUT INSTRUCTIONS:\n"
    + "    - You must write a concise explanation.\n"
    + "    - You MUST end the explanation with exactly this phrase: \"Risk Score: [0 or 100] | Status: [Compliant/Non-Compliant]\".\n"
    + "\n"
    + "    Example Output 1:\n"
    + "    \"The contract specifies 7 days, which is less than the mandatory 30 days. Risk Score: 100 | Status: Non-Compliant\"\n"
    + "\n"
    + "    Example Output 2:\n"
    + "    \"The contract specifies 90 days, which meets the 30-day requirement. Risk Score: 0 | Status: Compliant\"\n"
    + "\n"
    + "    GENERATE OUTPUT NOW:\n"
    + "    [/INST]")

  function Quoted(s: string): string {
    "\"" + s + "\""
  }

  /** Offset of the first character of the rule in a prompt built from `t` with clause `c`. */
  function RuleOffset(t: PromptTemplate, c: string): nat {
    |t.preamble| + |c| + 3 + |t.between|
  }

  /** Fills the template in: each input between double quotes, nothing escaped. */
  function Render(t: PromptTemplate, c: string, r: string): string {
    t.preamble + Quoted(c) + t.between + Quoted(r) + t.instructions
  }

  /** In `before + Quoted(x) + after`, `x` sits right after `before`, between double quotes. */
  lemma QuotedAt(before: string, x: string, after: string)
    ensures var s, n := before + Quoted(x) + after, |before|;
      && |s| == n + |x| + 2 + |after|
      && s[..n] == before
      && s[n] == '"' && s[n + 1..n + 1 + |x|] == x && s[n + 1 + |x|] == '"'
      && s[n + 2 + |x|..] == after
  {
    var s, n := before + Quoted(x) + after, |before|;
    assert s[..n] == before;
    assert s[n + 1..n + 1 + |x|] == x;
    assert s[n + 2 + |x|..] == after;
  }

  /** The prompt opens with the preamble and the clause, verbatim, between double quotes. */
  lemma RenderClause(t: PromptTemplate, c: string, r: string)
    ensures var p, n := Render(t, c, r), |t.preamble|;
      && |p| == n + |c| + |t.between| + |r| + |t.instructions| + 4
      && p[..n] == t.preamble
      && p[n] == '"' && p[n + 1..n + 1 + |c|] == c && p[n + 1 + |c|] == '"'
  {
    var rest := t.between + Quoted(r) + t.instructions;
    assert Render(t, c, r) == t.preamble + Quoted(c) + rest;
    QuotedAt(t.preamble, c, rest);
  }

  /**
   * After the clause come the fixed middle part and the rule, verbatim, between double
   * quotes, and the instructions close the prompt.
   */
  lemma RenderRule(t: PromptTemplate, c: string, r: string)
    ensures var p, k := Render(t, c, r), RuleOffset(t, c);
      && |p| == k + |r| + 1 + |t.instructions|
      && p[k - 1 - |t.between|..k - 1] == t.between
      && p[k - 1] == '"' && p[k..k + |r|] == r && p[k + |r|] == '"'
      && p[k + |r| + 1..] == t.instructions
  {
    var p := Render(t, c, r);
    var head := t.preamble + Quoted(c);
    var left := head + t.between;
    QuotedAt(left, r, t.instructions);
    assert |left| == RuleOffset(t, c) - 1;
    assert p[..|left|] == left;
    assert left[|head|..] == t.between;
    assert p[|head|..|left|] == left[|head|..];
  }

  /** The prompt a template gives for a request. */
  function PromptOf(t: PromptTemplate, request: AuditRequest): string {
    Render(t, request.contractText, RuleText(request.regulationRule))
  }

  /** The prompt the endpoint sends for a request. */
  function BuildPrompt(request: AuditRequest): string {
    PromptOf(AuditTemplate, request)
  }

  /** Two prompts from one template with clauses of one length agree only if clause and rule agree. */
  lemma RenderDeterminesInputs(t: PromptTemplate, c1: string, r1: string, c2: string, r2: string)
    requires |c1| == |c2|
    requires Render(t, c1, r1) == Render(t, c2, r2)
    ensures c1 == c2 && r1 == r2
  {
    RenderClause(t, c1, r1);
    RenderClause(t, c2, r2);
    RenderRule(t, c1, r1);
    RenderRule(t, c2, r2);
    var p, pre, k := Render(t, c1, r1), |t.preamble|, RuleOffset(t, c1);
    assert c1 == p[pre + 1..pre + 1 + |c1|] == c2;
    assert |r1| == |r2|;
    assert r1 == p[k..k + |r1|] == r2;
  }

  /** A request that leaves the rule out is audited against the default rule, word for word. */
  lemma OmittedRuleUsesDefault(t: PromptTemplate, contractText: string)
    ensures var p, k := PromptOf(t, MakeRequest(contractText, Omitted)), RuleOffset(t, contractText);
      p[k..k + |DefaultRule|] == DefaultRule && p[k + |DefaultRule|] == '"'
  {
    RenderRule(t, contractText, DefaultRule);
  }

  /** A request whose rule is an explicit null is audited against the word "None". */
  lemma NullRuleRendersNone(t: PromptTemplate, contractText: string)
    ensures var p, k := PromptOf(t, MakeRequest(contractText, Null)), RuleOffset(t, contractText);
      p[k..k + 4] == "None" && p[k + 4] == '"'
  {
    RenderRule(t, contractText, "None");
  }
}
