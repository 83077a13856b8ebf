/**
 * The optional Bedrock advisory of the compliance handler: the prompt it sends, the outcome
 * of the call as an abstract input, and how an answer is merged into findings.
 */
module ComplianceAdvisory {
  import opened Wrappers
  import opened Strings
  import Json
  import opened ComplianceRules

  /** How many characters of the document the prompt quotes before eliding the rest. */
  const DOCUMENT_LIMIT: nat := 2000

  const PROMPT_HEAD: string :=
    "You are a compliance assistant. Given the following document text, "
    + "return a JSON object with two keys: 'pii' (list of detected PII types and examples) "
    + "and 'issues' (list of compliance issues with short explanations).\n\n"
    + "Document:\n"

  const PROMPT_TAIL: string := "\n\nRespond ONLY with valid JSON."

  /**
   * The document part of the prompt: the text itself up to 2000 characters, otherwise its
   * first 2000 characters followed by "...". It differs from the text exactly when the text
   * is longer than 2000 characters, unless the text is 2000 characters followed by "...".
   */
  function PromptDocument(text: string): (r: string)
    ensures |text| <= DOCUMENT_LIMIT ==> r == text
    ensures |text| > DOCUMENT_LIMIT ==>
      |r| == DOCUMENT_LIMIT + 3 && r[..DOCUMENT_LIMIT] == text[..DOCUMENT_LIMIT] && r[DOCUMENT_LIMIT..] == "..."
    ensures r == text <==> |text| <= DOCUMENT_LIMIT || (|text| == DOCUMENT_LIMIT + 3 && text[DOCUMENT_LIMIT..] == "...")
  {
    if |text| > DOCUMENT_LIMIT then text[..DOCUMENT_LIMIT] + "..." else text
  }

  /** The prompt `_call_bedrock_for_checks` sends. */
  function Prompt(text: string): (r: string)
    ensures |r| == |PROMPT_HEAD| + |PromptDocument(text)| + |PROMPT_TAIL|
    ensures r[..|PROMPT_HEAD|] == PROMPT_HEAD
    ensures r[|PROMPT_HEAD|..|PROMPT_HEAD| + |PromptDocument(text)|] == PromptDocument(text)
    ensures r[|r| - |PROMPT_TAIL|..] == PROMPT_TAIL
  {
    PROMPT_HEAD + PromptDocument(text) + PROMPT_TAIL
  }

  /** Two documents that agree on their first 2000 characters and are both longer get the same prompt. */
  lemma PromptIgnoresTail(a: string, b: string)
    requires |a| > DOCUMENT_LIMIT && |b| > DOCUMENT_LIMIT && a[..DOCUMENT_LIMIT] == b[..DOCUMENT_LIMIT]
    ensures Prompt(a) == Prompt(b)
  {
  }

  const DEFAULT_MODEL_ID: string :=
    "arn:aws:bedrock:us-west-2:968239734180:inference-profile/global.amazon.nova-2-lite-v1:0"

  /** `os.environ.get("BEDROCK_MODEL_ID") or <default>`: never empty. */
  function ModelId(env: Option<string>): (r: string)
    ensures r != ""
    ensures env.Some? && env.value != "" ==> r == env.value
    ensures env.None? || env.value == "" ==> r == DEFAULT_MODEL_ID
  {
    if env.Some? && env.value != "" then env.value else DEFAULT_MODEL_ID
  }

  /** `{"bedrock_ok": False, "error": ...}` or `{"bedrock_ok": True, "result": ..., "used_model": ...}`. */
  datatype BedrockReply =
    | BedrockFailed(error: string)
    | BedrockAnswered(result: Json.Value, usedModel: string)

  /**
   * The Bedrock side as an input: whether a client can be created, the model id variable, and
   * what invoking a model with a prompt yields (an answer, a failure the source reports, or
   * None for an error whose message the source does not recognise).
   */
  datatype BedrockWorld = BedrockWorld(
    clientAvailable: bool,
    modelIdEnv: Option<string>,
    invoke: (string, string) -> Option<Result<Json.Value, string>>)

  const NO_CLIENT_MESSAGE: string := "Bedrock client is unavailable in this environment"

  /** `_call_bedrock_for_checks(text)`. */
  function CallBedrock(text: string, world: BedrockWorld): (r: Option<BedrockReply>)
    ensures !world.clientAvailable ==> r == Some(BedrockFailed(NO_CLIENT_MESSAGE))
    ensures r.Some? && r.value.BedrockAnswered? ==>
      world.clientAvailable && r.value.usedModel == ModelId(world.modelIdEnv)
      && world.invoke(ModelId(world.modelIdEnv), Prompt(text)) == Some(Ok(r.value.result))
    ensures r.None? <==> world.clientAvailable && world.invoke(ModelId(world.modelIdEnv), Prompt(text)).None?
    ensures var answer := world.invoke(ModelId(world.modelIdEnv), Prompt(text));
      world.clientAvailable && answer.Some? && answer.value.Ok? ==>
        r == Some(BedrockAnswered(answer.value.value, ModelId(world.modelIdEnv)))
    ensures var answer := world.invoke(ModelId(world.modelIdEnv), Prompt(text));
      world.clientAvailable && answer.Some? && answer.value.Err? ==> r == Some(BedrockFailed(answer.value.error))
  {
    if !world.clientAvailable then Some(BedrockFailed(NO_CLIENT_MESSAGE))
    else
      var model := ModelId(world.modelIdEnv);
      match world.invoke(model, Prompt(text))
      case None => None
      case Some(Ok(parsed)) => Some(BedrockAnswered(parsed, model))
      case Some(Err(msg)) => Some(BedrockFailed(msg))
  }

  /** `os.environ.get("USE_BEDROCK", "true").lower() in ("1", "true", "yes")`. */
  function UseBedrock(env: Option<string>): (r: bool)
    ensures env.None? ==> r
    ensures env.Some? ==> (r <==> Lower(env.value) in ["1", "true", "yes"])
  {
    var value := if env.Some? then env.value else "true";
    assert env.None? ==> Lower(value) == "true";
    Lower(value) in ["1", "true", "yes"]
  }

  lemma UseBedrockExamples()
    ensures UseBedrock(Some("TRUE")) && UseBedrock(Some("Yes")) && UseBedrock(Some("1"))
    ensures !UseBedrock(Some("0")) && !UseBedrock(Some("false")) && !UseBedrock(Some(""))
  {
    assert Lower("TRUE") == "true";
    assert Lower("Yes") == "yes";
    assert Lower("1") == "1";
  }

  /** `bedrock_resp and bedrock_resp.get("result")`: the reply carries a truthy result. */
  predicate HasResult(reply: Option<BedrockReply>)
  {
    reply.Some? && reply.value.BedrockAnswered? && Json.Truthy(reply.value.result)
  }

  /** `parsed.get(key, []) if isinstance(parsed.get(key), list) else []` on an object. */
  function ListField(fields: map<string, Json.Value>, key: string): seq<Json.Value>
  {
    if key in fields && fields[key].Arr? then fields[key].items else []
  }

  function BedrockPiiFinding(p: Json.Value): Finding
  {
    Finding("gdpr_pii_bedrock", AdvisoryDetail(p), Some(Json.Str("high")))
  }

  /** `it.get("severity", "medium") if isinstance(it, dict) else "medium"`. */
  function IssueSeverity(it: Json.Value): Json.Value
  {
    if it.Obj? && "severity" in it.fields then it.fields["severity"] else Json.Str("medium")
  }

  function BedrockIssueFinding(it: Json.Value): Finding
  {
    Finding("sox_or_other_bedrock", AdvisoryDetail(it), Some(IssueSeverity(it)))
  }

  function PiiAdvice(items: seq<Json.Value>): (r: seq<Finding>)
    ensures |r| == |items| && forall i :: 0 <= i < |items| ==> r[i] == BedrockPiiFinding(items[i])
  {
    seq(|items|, i requires 0 <= i < |items| => BedrockPiiFinding(items[i]))
  }

  function IssueAdvice(items: seq<Json.Value>): (r: seq<Finding>)
    ensures |r| == |items| && forall i :: 0 <= i < |items| ==> r[i] == BedrockIssueFinding(items[i])
  {
    seq(|items|, i requires 0 <= i < |items| => BedrockIssueFinding(items[i]))
  }

  /** The reply's result is an object whose fields are merged. */
  predicate Merged(reply: Option<BedrockReply>)
  {
    HasResult(reply) && reply.value.result.Obj?
  }

  /**
   * The findings merged from a reply. A truthy result that is not an object makes
   * `parsed.get` raise, which the handler catches: nothing is merged then.
   */
  function AdvisoryFindings(reply: Option<BedrockReply>): seq<Finding>
  {
    if Merged(reply) then
      var fields := reply.value.result.fields;
      PiiAdvice(ListField(fields, "pii")) + IssueAdvice(ListField(fields, "issues"))
    else []
  }

  /** Lemma on AdvisoryFindings: it holds one finding per list entry, the `pii` ones first. */
  lemma AdvisoryShape(reply: Option<BedrockReply>)
    requires Merged(reply)
    ensures var fields := reply.value.result.fields;
      var pii, issues := ListField(fields, "pii"), ListField(fields, "issues");
      var r := AdvisoryFindings(reply);
      && |r| == |pii| + |issues|
      && (forall i :: 0 <= i < |pii| ==>
          r[i].ruleId == "gdpr_pii_bedrock" && r[i].detail == AdvisoryDetail(pii[i]) && r[i].severity == Some(Json.Str("high")))
      && (forall i :: 0 <= i < |issues| ==>
          r[|pii| + i].ruleId == "sox_or_other_bedrock" && r[|pii| + i].detail == AdvisoryDetail(issues[i])
          && r[|pii| + i].severity == Some(IssueSeverity(issues[i])))
  {
    var fields := reply.value.result.fields;
    var pii, issues := ListField(fields, "pii"), ListField(fields, "issues");
    var r := AdvisoryFindings(reply);
    forall i | 0 <= i < |issues|
      ensures r[|pii| + i] == BedrockIssueFinding(issues[i])
    {
      assert r[|pii| + i] == IssueAdvice(issues)[i];
    }
  }

  /** A `pii` or `issues` value that is not a list contributes nothing. */
  lemma NonListContributesNothing(fields: map<string, Json.Value>, key: string)
    requires key !in fields || !fields[key].Arr?
    ensures ListField(fields, key) == []
  {
  }

  /** An issue's own severity is used only when the issue is an object that has one. */
  lemma IssueSeverityCases(it: Json.Value)
    ensures it.Obj? && "severity" in it.fields ==> IssueSeverity(it) == it.fields["severity"]
    ensures !(it.Obj? && "severity" in it.fields) ==> IssueSeverity(it) == Json.Str("medium")
  {
  }

  /**
   * The merge block of `lambda_handler`: appends a finding per `pii` entry, then per `issues`
   * entry, and sets `bedrock_used`; `parsed.get` on a truthy non-object raises before
   * anything is appended, and the handler's `except` leaves `bedrock_used` false.
   */
  method MergeAdvisory(reply: Option<BedrockReply>) returns (findings: seq<Finding>, used: bool)
    ensures findings == AdvisoryFindings(reply)
    ensures used <==> Merged(reply)
    ensures !used ==> findings == []
  {
    findings := [];
    used := false;
    if !HasResult(reply) {
      return;
    }
    var parsed := reply.value.result;
    if !parsed.Obj? {
      return;
    }
    var pii := ListField(parsed.fields, "pii");
    for i := 0 to |pii|
      invariant findings == PiiAdvice(pii[..i])
    {
      findings := findings + [BedrockPiiFinding(pii[i])];
    }
    assert pii[..|pii|] == pii;
    var issues := ListField(parsed.fields, "issues");
    ghost var piiPart := findings;
    for i := 0 to |issues|
      invariant findings == piiPart + IssueAdvice(issues[..i])
    {
      findings := findings + [BedrockIssueFinding(issues[i])];
    }
    assert issues[..|issues|] == issues;
    used := true;
  }
}
